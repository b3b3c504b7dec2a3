/** The per-request locale rule of the `onPreAuth` extension (index.js),
    stated as a pure function of the registered settings and the request. */
module Resolution {
  import opened Wrappers
  import opened Js
  import opened Registration

  /** The route path parameter the rule reads. */
  const LanguageCodeParam := "languageCode"
  /** The fixed part of the not-found message. */
  const NoLocalizationPrefix := "No localization available for "

  /** The parts of a request the rule reads. `headers` is always an object
      (the code reads it unguarded); `query` and `params` are guarded by the
      code and may be absent. The server hands over header names in lower
      case, and the configured field name is looked up as it is, so a
      configured name with an upper-case letter never finds a header. The
      map here admits any key. */
  datatype Request = Request(
    headers: map<string, string>,
    query: Option<map<string, string>>,
    params: Option<map<string, string>>)

  /** The request either continues with a locale or ends as "not found". */
  datatype Outcome = Resolved(locale: string) | NotFound(message: string)

  /** The message of the not-found outcome for a rejected path locale. */
  function NotFoundMessage(code: string): (m: string)
    ensures |m| == |NoLocalizationPrefix| + |code|
    ensures m[..|NoLocalizationPrefix|] == NoLocalizationPrefix
    ensures m[|NoLocalizationPrefix|..] == code
  {
    NoLocalizationPrefix + code
  }

  /** Reads the rejected locale back out of a not-found message. */
  function RejectedLocale(message: string): (r: Option<string>)
    ensures r.Some? <==> |message| >= |NoLocalizationPrefix| && message[..|NoLocalizationPrefix|] == NoLocalizationPrefix
    ensures r.Some? ==> NotFoundMessage(r.value) == message
  {
    if |message| >= |NoLocalizationPrefix| && message[..|NoLocalizationPrefix|] == NoLocalizationPrefix
    then Some(message[|NoLocalizationPrefix|..])
    else None
  }

  /** The message names the rejected locale verbatim: reading it back gives
      the locale, so two different rejected locales never share a message. */
  lemma NotFoundMessageNamesLocale(code: string, other: string)
    ensures RejectedLocale(NotFoundMessage(code)) == Some(code)
    ensures NotFoundMessage(code) == NotFoundMessage(other) ==> code == other
  {
  }

  /** Whether a header field name is configured (a truthy option). */
  predicate UsesHeader(s: Settings)
  {
    Truthy(s.languageHeaderField)
  }

  /** The header value when a header field is configured and the request
      carries a non-empty value under exactly that name. */
  function HeaderHint(s: Settings, req: Request): Option<string>
    requires UsesHeader(s)
  {
    TruthyValue(Property(req.headers, s.languageHeaderField.value))
  }

  /** The query value when a query parameter name is configured, the request
      has a query object and it carries a non-empty value for that name. */
  function QueryHint(s: Settings, req: Request): Option<string>
  {
    if Truthy(s.queryParameter) && req.query.Some?
    then TruthyValue(Property(req.query.value, s.queryParameter.value))
    else None
  }

  /** The non-empty `languageCode` path parameter, if any. */
  function PathHint(req: Request): Option<string>
  {
    if req.params.Some? then TruthyValue(Property(req.params.value, LanguageCodeParam)) else None
  }

  /** The locale rule. A configured header field decides alone (its value,
      or the default); only without one is the query parameter used,
      verbatim; only without a usable query value is the path parameter
      used, and it alone is checked against the configured locales. */
  function Resolve(s: Settings, req: Request): (r: Outcome)
    // A configured header field never rejects and yields the header value or the default.
    ensures UsesHeader(s) ==> r == Resolved(HeaderHint(s, req).GetOr(s.defaultLocale))
    // Without one, a usable query value is taken as is, with no membership check.
    ensures !UsesHeader(s) && QueryHint(s, req).Some? ==> r == Resolved(QueryHint(s, req).value)
    // Otherwise a path locale is accepted exactly when it is configured.
    ensures !UsesHeader(s) && QueryHint(s, req).None? && PathHint(req).Some? ==>
      r == (if PathHint(req).value in s.locales then Resolved(PathHint(req).value)
            else NotFound(NotFoundMessage(PathHint(req).value)))
    // With no usable hint on the branch taken the default is in force.
    ensures !UsesHeader(s) && QueryHint(s, req).None? && PathHint(req).None? ==>
      r == Resolved(s.defaultLocale)
    // The only rejection is that of an unconfigured path locale.
    ensures r.NotFound? <==>
      !UsesHeader(s) && QueryHint(s, req).None? && PathHint(req).Some? && PathHint(req).value !in s.locales
  {
    if UsesHeader(s) then
      var languageCode := Property(req.headers, s.languageHeaderField.value);
      if Truthy(languageCode) then Resolved(languageCode.value) else Resolved(s.defaultLocale)
    else if Truthy(s.queryParameter) && req.query.Some?
         && Truthy(Property(req.query.value, s.queryParameter.value)) then
      Resolved(Property(req.query.value, s.queryParameter.value).value)
    else if req.params.Some? && Truthy(Property(req.params.value, LanguageCodeParam)) then
      var code := Property(req.params.value, LanguageCodeParam).value;
      if code !in s.locales then NotFound(NotFoundMessage(code)) else Resolved(code)
    else
      Resolved(s.defaultLocale)
  }

  /** With a header field configured, neither the query nor the path
      parameters have any influence on the outcome. */
  lemma HeaderIgnoresQueryAndPath(s: Settings, headers: map<string, string>,
                                  q1: Option<map<string, string>>, p1: Option<map<string, string>>,
                                  q2: Option<map<string, string>>, p2: Option<map<string, string>>)
    requires UsesHeader(s)
    ensures Resolve(s, Request(headers, q1, p1)) == Resolve(s, Request(headers, q2, p2))
  {
  }

  /** Once a usable query value is present, the path parameters have no influence. */
  lemma QueryIgnoresPath(s: Settings, headers: map<string, string>, query: Option<map<string, string>>,
                         p1: Option<map<string, string>>, p2: Option<map<string, string>>)
    requires !UsesHeader(s)
    requires QueryHint(s, Request(headers, query, p1)).Some?
    ensures Resolve(s, Request(headers, query, p1)) == Resolve(s, Request(headers, query, p2))
  {
  }

  /** Every resolved locale is traceable to the branch that set it: the
      default, the header value, the query value when no header field is
      configured, or a configured path locale when neither header field nor
      usable query value is there. */
  lemma ResolvedLocaleProvenance(s: Settings, req: Request)
    requires Resolve(s, req).Resolved?
    ensures var l := Resolve(s, req).locale;
      || l == s.defaultLocale
      || (UsesHeader(s) && HeaderHint(s, req) == Some(l))
      || (!UsesHeader(s) && QueryHint(s, req) == Some(l))
      || (!UsesHeader(s) && QueryHint(s, req).None? && PathHint(req) == Some(l) && l in s.locales)
  {
  }

  /** A rejected request names the path locale it rejected. */
  lemma RejectionNamesPathLocale(s: Settings, req: Request)
    requires Resolve(s, req).NotFound?
    ensures PathHint(req).Some?
    ensures RejectedLocale(Resolve(s, req).message) == PathHint(req)
  {
    NotFoundMessageNamesLocale(PathHint(req).value, PathHint(req).value);
  }

  /** The locales a request can end up with, whatever it carries: the
      default, and otherwise any non-empty string when a header field or a
      query parameter is configured (those values are not checked), or
      only a configured non-empty locale when the path alone can carry a hint. */
  lemma ReachableLocales(s: Settings, l: string)
    ensures (exists req :: Resolve(s, req) == Resolved(l)) <==>
      l == s.defaultLocale || (l != "" && (UsesHeader(s) || Truthy(s.queryParameter) || l in s.locales))
  {
    if l == s.defaultLocale {
      assert Resolve(s, Request(map[], None, None)) == Resolved(l);
    } else if l != "" && UsesHeader(s) {
      assert Resolve(s, Request(map[s.languageHeaderField.value := l], None, None)) == Resolved(l);
    } else if l != "" && Truthy(s.queryParameter) {
      assert Resolve(s, Request(map[], Some(map[s.queryParameter.value := l]), None)) == Resolved(l);
    } else if l != "" && l in s.locales {
      assert Resolve(s, Request(map[], None, Some(map[LanguageCodeParam := l]))) == Resolved(l);
    }
  }

  /** A request can be rejected with the message naming `code` exactly when
      no header field is configured and `code` is a non-empty string that is
      not a configured locale. */
  lemma RejectableLocales(s: Settings, code: string)
    ensures (exists req :: Resolve(s, req) == NotFound(NotFoundMessage(code))) <==>
      !UsesHeader(s) && code != "" && code !in s.locales
  {
    if !UsesHeader(s) && code != "" && code !in s.locales {
      assert Resolve(s, Request(map[], None, Some(map[LanguageCodeParam := code])))
          == NotFound(NotFoundMessage(code));
    }
    if req :| Resolve(s, req) == NotFound(NotFoundMessage(code)) {
      NotFoundMessageNamesLocale(PathHint(req).value, code);
    }
  }
}
