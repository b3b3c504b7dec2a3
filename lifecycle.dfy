/** The two request extensions of index.js as the state changes they make:
    `onPreAuth` attaches a fresh translation handle to the request and sets
    its locale; `onPreResponse` merges that handle into a view's context. */
module Lifecycle {
  import opened Wrappers
  import Js
  import opened Registration
  import opened Resolution

  /** The view-context key that always carries the resolved locale. */
  const LanguageCodeKey := "languageCode"
  /** The variety of a response that renders a view. */
  const ViewVariety := "view"
  /** Status code of a not-found reply. */
  const NotFoundStatus := 404

  /** A value in a view context: a string, or something else (a function or
      object of the translation handle, say), known here only by a name. */
  datatype Value = Text(text: string) | Other(name: string)

  /** A view's template context: the handler's values by key. */
  type Context = map<string, Value>

  /** What the `onPreAuth` extension hands back to the framework. */
  datatype Reply = Continue | ErrorReply(statusCode: int, message: string)

  /** `request.i18n`: the per-request translation handle. The translation
      engine's initialisation attaches `members` (its lookup functions and
      whatever else it exposes) and picks an initial locale; both are that
      engine's business and are given here as parameters. */
  class I18nState {
    var currentLocale: string
    const members: Context

    constructor (members: Context, initialLocale: string)
      ensures this.members == members && currentLocale == initialLocale
    {
      this.members := members;
      currentLocale := initialLocale;
    }

    /** `setLocale`, taken as plain assignment of the current locale. */
    method SetLocale(locale: string)
      modifies this
      ensures currentLocale == locale
    {
      currentLocale := locale;
    }

    /** `getLocale`. */
    function GetLocale(): string
      reads this
    {
      currentLocale
    }
  }

  /** The parts of `request.response` that `onPreResponse` reads and writes:
      its variety and, for a view, `source.context` (absent when the handler
      gave none). */
  class Response {
    const variety: string
    var context: Option<Context>

    constructor (variety: string, context: Option<Context>)
      ensures this.variety == variety && this.context == context
    {
      this.variety := variety;
      this.context := context;
    }
  }

  /** The context a view is rendered with: the handler's context (or an
      empty one) with the handle's members merged over it, and then
      `languageCode` set to the resolved locale. */
  function ViewContext(context: Option<Context>, members: Context, locale: string): (c: Context)
    ensures c.Keys == context.GetOr(map[]).Keys + members.Keys + {LanguageCodeKey}
    ensures c[LanguageCodeKey] == Text(locale)
    ensures forall k :: k in members && k != LanguageCodeKey ==> c[k] == members[k]
    ensures forall k :: k in context.GetOr(map[]) && k !in members && k != LanguageCodeKey ==>
      c[k] == context.GetOr(map[])[k]
  {
    (context.GetOr(map[]) + members)[LanguageCodeKey := Text(locale)]
  }

  /** The `onPreAuth` extension: a fresh handle set to the default locale,
      then at most one `if / else if` branch, which may set the locale again
      or end the request as not found (the handle then keeps the default).
      The result is the one the pure rule `Resolve` states. */
  method OnPreAuth(s: Settings, req: Request, members: Context, engineLocale: string)
    returns (i18n: I18nState, reply: Reply)
    ensures fresh(i18n) && i18n.members == members
    ensures Resolve(s, req).Resolved? ==>
      reply == Continue && i18n.currentLocale == Resolve(s, req).locale
    ensures Resolve(s, req).NotFound? ==>
      reply == ErrorReply(NotFoundStatus, Resolve(s, req).message) && i18n.currentLocale == s.defaultLocale
  {
    i18n := new I18nState(members, engineLocale);
    i18n.SetLocale(s.defaultLocale);
    if Js.Truthy(s.languageHeaderField) {
      var languageCode := Js.Property(req.headers, s.languageHeaderField.value);
      if Js.Truthy(languageCode) {
        i18n.SetLocale(languageCode.value);
      }
    } else if Js.Truthy(s.queryParameter) && req.query.Some?
           && Js.Truthy(Js.Property(req.query.value, s.queryParameter.value)) {
      i18n.SetLocale(Js.Property(req.query.value, s.queryParameter.value).value);
    } else if req.params.Some? && Js.Truthy(Js.Property(req.params.value, LanguageCodeParam)) {
      var code := Js.Property(req.params.value, LanguageCodeParam).value;
      if code !in s.locales {
        return i18n, ErrorReply(NotFoundStatus, NotFoundMessage(code));
      }
      i18n.SetLocale(code);
    }
    reply := Continue;
  }

  /** The `onPreResponse` extension: without a handle or a response, or for
      a response that is not a view, nothing changes; for a view, its
      context becomes `ViewContext` of the old one. */
  method OnPreResponse(i18n: I18nState?, response: Response?)
    modifies response
    ensures response != null && i18n != null && response.variety == ViewVariety ==>
      response.context == Some(ViewContext(old(response.context), i18n.members, i18n.currentLocale))
    ensures response != null && (i18n == null || response.variety != ViewVariety) ==>
      response.context == old(response.context)
  {
    if i18n == null || response == null {
      return;
    }
    if response.variety == ViewVariety {
      response.context := Some(ViewContext(response.context, i18n.members, i18n.GetLocale()));
    }
  }

  /** One request through both extensions, with the handler in between
      replying with a response of the given variety and context. A rejected
      request never reaches the handler; a view ends up with the resolved
      locale under `languageCode`, whatever value the handler put there, and
      any other response keeps the handler's context. The handler here only
      returns a response; a handler that itself calls `setLocale` on the
      handle would change the locale the view gets, and is not modelled. */
  method Serve(s: Settings, req: Request, members: Context, engineLocale: string,
               variety: string, handlerContext: Option<Context>)
    returns (reply: Reply, context: Option<Context>)
    ensures Resolve(s, req).NotFound? ==>
      reply == ErrorReply(NotFoundStatus, Resolve(s, req).message) && context.None?
    ensures Resolve(s, req).Resolved? ==> reply == Continue
    ensures Resolve(s, req).Resolved? && variety == ViewVariety ==>
      context == Some(ViewContext(handlerContext, members, Resolve(s, req).locale))
      && context.value[LanguageCodeKey] == Text(Resolve(s, req).locale)
    ensures Resolve(s, req).Resolved? && variety != ViewVariety ==> context == handlerContext
  {
    var i18n;
    i18n, reply := OnPreAuth(s, req, members, engineLocale);
    if reply != Continue {
      return reply, None;
    }
    var response := new Response(variety, handlerContext);
    OnPreResponse(i18n, response);
    context := response.context;
  }

  /** Two view requests whose extensions interleave (both pass `onPreAuth`
      before either reaches `onPreResponse`, which then run in the other
      order) each render with their own resolved locale, and a rejected one
      renders nothing: each request gets its own handle, so neither sees
      the locale of the other. */
  method ServeInterleaved(s: Settings, first: Request, second: Request, members: Context,
                          engineLocale: string, handlerContext: Option<Context>)
    returns (firstContext: Option<Context>, secondContext: Option<Context>)
    ensures firstContext == match Resolve(s, first)
      case Resolved(l) => Some(ViewContext(handlerContext, members, l))
      case NotFound(_) => None
    ensures secondContext == match Resolve(s, second)
      case Resolved(l) => Some(ViewContext(handlerContext, members, l))
      case NotFound(_) => None
  {
    var firstState, firstReply := OnPreAuth(s, first, members, engineLocale);
    var secondState, secondReply := OnPreAuth(s, second, members, engineLocale);
    var firstResponse := new Response(ViewVariety, handlerContext);
    var secondResponse := new Response(ViewVariety, handlerContext);
    if secondReply == Continue {
      OnPreResponse(secondState, secondResponse);
    }
    if firstReply == Continue {
      OnPreResponse(firstState, firstResponse);
    }
    firstContext := if firstReply == Continue then firstResponse.context else None;
    secondContext := if secondReply == Continue then secondResponse.context else None;
  }
}
