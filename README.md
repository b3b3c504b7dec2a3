# hapi-i18n locale decision, modelled in Dafny

This project models the locale logic of the hapi-i18n plugin (`index.js`). The plugin does three things:

- At registration time it works out the default locale and refuses option sets without a locale list.
- Per request, in its `onPreAuth` extension, it attaches a fresh translation handle, sets it to the default locale, and then takes at most one branch of a header / query / path chain. That branch may set the locale again or end the request with a not-found reply.
- Before the response, in its `onPreResponse` extension, it merges the handle into a view's template context and sets `languageCode` there to the resolved locale.

Modules:

- `Wrappers`: `Option` (a JavaScript value that may be `undefined`) and `Result` (an operation that may throw).
- `Js`: JavaScript truthiness of optional strings and exact-key property lookup. An empty string counts as absent everywhere `index.js` tests a value with `||` or `if`.
- `Registration`: `extractDefaultLocale` and the checks in `register`, as pure functions. A thrown `Error` becomes `Err(message)`.
- `Resolution`: the `onPreAuth` rule as the pure function `Resolve`, from settings and request to `Resolved(locale)` or `NotFound(message)`, with lemmas about it.
- `Lifecycle`: the request's translation handle and the response as classes; the two extensions as methods whose postconditions tie the new state to `Resolve` and `ViewContext`; two client methods that run requests through both extensions.
- `Scenarios`: the test suite's configuration and requests, resolved by the model.

Facts about the code that the model keeps:

- Precedence runs header field, then query parameter, then path parameter. A configured header field decides alone: the query and the path are then never read.
- Query and header values are accepted verbatim. They are not checked against the configured locales. `ReachableLocales` states the consequence: with either hint configured, any non-empty string can become the locale. For the header this needs a lower-case configured field name, because incoming header names are lower case and the lookup is exact.
- A configured `defaultLocale` need not be one of the configured locales. The locale list may then be empty (`ConfiguredDefaultNeedsNoLocales`).
- `Hoek.merge` lets the handle's fields overwrite same-named keys of the handler's context. `languageCode` is then set to the resolved locale in any case.
- The header name is looked up exactly as configured, with no case folding. Incoming header names are lower case, so a configured name with an upper-case letter never matches.

The repository's test file targets a newer version of the plugin, in which query and path win over the header (test/test.js:284-295 and 312-326 expect that). Its options configure the header field `language`, so under `index.js` every request without that header gets the default "de", whatever its path or query. The tests that expect another locale therefore do not hold of this code:

- test/test.js:244-255 (path "fr")
- test/test.js:284-295 (query "lang=fr")
- test/test.js:312-326 (path "fr" over header "en")
- test/test.js:328-338 (view under path "fr")
- test/test.js:340-351 (404 for path "en-US")
- test/test.js:370-444 (concurrent path "en" and "fr" requests)

`Scenarios.TestPathIgnoredUnderHeader` shows what the code does for two of them instead. The test at test/test.js:354-366 does agree with the code: its path "de" is ignored, but "de" is also the default.

## Model

| member | source | states |
|---|---|---|
| `Registration.ExtractDefaultLocale` | index.js:57-66 | succeeds exactly on a present, non-empty list and then returns its first element; an absent list fails with "No locales defined!", an empty one with "Locales array is empty!" |
| `Registration.Register` | index.js:8-19 | succeeds exactly when options and the locale list are present and either a non-empty `defaultLocale` is configured or the list is non-empty; the default is the configured one when non-empty, else the list's head; list and hint names are carried over; every failure carries one of the two messages, and the second exactly for a present, empty list without a non-empty default |
| `Registration.RegisterNeedsLocales` | index.js:15-19 | registration fails with "No locales defined!" whenever options or the locale list are absent, with or without a configured default |
| `Registration.ConfiguredDefaultNeedsNoLocales` | index.js:15-19 | a non-empty configured default is accepted beside a present, empty list, and it is then the default |
| `Registration.ImplicitDefaultIsFirstLocale` | index.js:15 | without a non-empty configured default, a non-empty list registers, and its head is the default and a configured locale |
| `Js.Truthy` | index.js:27 | defines JavaScript truthiness of an optional string: exactly `undefined` and the empty string are falsy, as for the `defaultLocale`, header, query and path tests at index.js:15, 27, 30 and 32; `Js.TruthyValue` keeps the string such a guard lets through |
| `Js.Property` | index.js:26 | defines exact-key object lookup: it finds a value exactly when the key is present, and then it is that key's value, as for the header, query and params lookups at index.js:26, 30 and 32 |
| `Resolution.UsesHeader` | index.js:25 | defines the `if (pluginOptions.languageHeaderField)` guard: a header field name is configured and non-empty |
| `Resolution.HeaderHint` | index.js:26-27 | defines the header value under exactly the configured name, when it is present and non-empty |
| `Resolution.QueryHint` | index.js:30 | defines the three-part guard: a non-empty query parameter name is configured, the request has a query object, and it holds a non-empty value under that name, which is the hint |
| `Resolution.PathHint` | index.js:32 | defines the guard on the params object and its non-empty `languageCode`, which is the hint |
| `Resolution.NotFoundMessage` | index.js:34 | the message is "No localization available for " followed by the rejected code verbatim, and exactly as long as the two together |
| `Resolution.RejectedLocale` | index.js:34 | recognises exactly the strings that start with "No localization available for ", and what it reads back rebuilds the message |
| `Resolution.NotFoundMessageNamesLocale` | index.js:34 | the not-found message reads back to the rejected locale, so distinct locales give distinct messages |
| `Resolution.Resolve` | index.js:21-40 | with a header field configured: the non-empty header value, else the default, never not-found; otherwise a non-empty query value verbatim; otherwise a non-empty path locale, accepted iff configured and else not-found with the exact message; otherwise the default; not-found happens exactly in the unconfigured-path case |
| `Resolution.HeaderIgnoresQueryAndPath` | index.js:25-30 | with a header field configured, changing the query or the path parameters never changes the outcome |
| `Resolution.QueryIgnoresPath` | index.js:30-32 | once a usable query value is present (and no header field is configured), the path parameters never change the outcome |
| `Resolution.ResolvedLocaleProvenance` | index.js:24-36 | a resolved locale is the default, the header value, the query value when no header field is configured, or a configured path locale when there is neither a header field nor a usable query value |
| `Resolution.RejectionNamesPathLocale` | index.js:32-35 | a not-found outcome comes from a path locale, and its message reads back to exactly that locale |
| `Resolution.ReachableLocales` | index.js:24-37 | a locale can be resolved for some request iff it is the default, or it is non-empty and a header field or query parameter is configured or it is a configured locale |
| `Resolution.RejectableLocales` | index.js:25-35 | some request is rejected with the message naming a code iff no header field is configured and the code is non-empty and not configured |
| `Lifecycle.I18nState.constructor` | index.js:22-23 | a new handle holds the members and the initial locale the translation engine gives it |
| `Lifecycle.I18nState.SetLocale` | index.js:24 | the current locale becomes the given one |
| `Lifecycle.I18nState.GetLocale` | index.js:49 | defines `request.i18n.getLocale()` as a plain read of the current locale |
| `Lifecycle.Response.constructor` | index.js:46-48 | defines the response as its variety and the view's `source.context`, which may be absent |
| `Lifecycle.ViewContext` | index.js:47-50 | the context has the handler's keys, the handle's keys and `languageCode`; `languageCode` is the resolved locale; the handle's values win over the handler's; the handler's other values are kept |
| `Lifecycle.OnPreAuth` | index.js:21-40 | allocates a fresh handle; when `Resolve` resolves, replies continue with the handle on that locale; when it rejects, replies 404 with `Resolve`'s message and the handle keeps the default |
| `Lifecycle.OnPreResponse` | index.js:42-52 | changes nothing without a handle or a response, and keeps a non-view's context; for a view, the context becomes `ViewContext` of the old one with the handle's members and locale |
| `Lifecycle.Serve` | index.js:21-52 | a rejected request replies 404 with the message and renders nothing; otherwise it continues, a view renders with `ViewContext` and `languageCode` equal to the resolved locale whatever the handler set, and any other response keeps the handler's context |
| `Lifecycle.ServeInterleaved` | index.js:21-24 | two view requests that both pass `onPreAuth` before either reaches `onPreResponse` each render with their own resolved locale, since each gets a fresh handle |
| `Scenarios.TestRegistration` | test/test.js:202-228 | the tests' options register with default "de"; the default of ["fr", "de"] is "fr"; an absent and an empty list both fail |
| `Scenarios.TestDefaultRequest` | test/test.js:230-242 | under the tests' options, a request without hints gets the default "de" |
| `Scenarios.TestHeaderRequests` | test/test.js:257-282 | under the tests' options, header "language: fr" gets "fr" and a request without headers gets "de" |
| `Scenarios.TestPathIgnoredUnderHeader` | index.js:25-37 | under the tests' options, path "en-US" gets the default "de" rather than a rejection, and header "en" beats path "fr" |
| `Scenarios.PathRejectionMessage` | index.js:32-36 | without a header field or query parameter, path "en-US" is rejected with exactly "No localization available for en-US" and path "fr" resolves to "fr" |

## Left out

- The translation engine (`i18n`): `I18n.configure`, `I18n.init`, `__` and the checks or fallbacks its `setLocale` may apply are another library. `setLocale` is plain assignment. The members `init` attaches to the handle and the locale it first picks are parameters (`members`, `engineLocale`). `I18n.configure` at index.js:13 receives the very options object that lines 15, 17, 25, 30 and 33 read afterwards; the model assumes that call leaves it unchanged, and `RegisterNeedsLocales` and `Register` rest on that.
- `Hoek.merge`: merging is a shallow map union where the handle's fields win. Deep merging of nested objects and the handling of null values are not modelled.
- `Boom.notFound`: modelled as a reply holding status 404 and the message.
- `_.includes`: modelled as sequence membership; its handling of non-array collections is not modelled.
- Option values of other JavaScript types (numbers, arrays, objects where strings are expected) are not modelled. Every option, header, query and path value is a string or absent. Query values that hapi parses as arrays are also outside the model.
- Lifecycle.ServeInterleaved: `Hoek.merge` at index.js:48 writes into the handler's own context object and returns it, and index.js:49 then sets `languageCode` on that same object. The model treats contexts as values, so it does not capture this update in place or the aliasing it brings. If two views shared one context object, both would render with whichever locale was written last. The isolation this method states holds only when each response has its own context object.
- Resolution.ReachableLocales: incoming header names are lower case, and index.js:26 looks up the configured name exactly as given. The `Request` headers map admits any key, so the header clause of this lemma holds only for a lower-case configured field name. With any other name every request gets the default.
- Lifecycle.Serve: the handler only returns a response. A handler that calls `request.i18n.setLocale` itself would change the locale `getLocale()` gives the view at index.js:49; that is not modelled.
- hapi's lifecycle (`server.ext`, `reply.continue()`, `reply(...)`, `next()`) and the `register.attributes` package metadata (index.js:68-70) are framework plumbing, not logic.
- Concurrency: the event loop and the concurrent-request test are not modelled. `Lifecycle.ServeInterleaved` covers only one interleaving of two requests, and only the fact that each request gets its own handle.
- Test-harness side effects (view rendering with Handlebars, server start and stop, the `database.json` write, Joi validation) are not modelled.
