/** Plugin registration: where the default locale comes from and which
    option sets abort the registration (index.js, `register` and
    `extractDefaultLocale`). */
module Registration {
  import opened Wrappers
  import opened Js

  /** Message of the error thrown when `locales` is not configured. */
  const NoLocalesDefined := "No locales defined!"
  /** Message of the error thrown when the default is taken from an empty list. */
  const LocalesArrayEmpty := "Locales array is empty!"

  /** The plugin options this code reads. Pass-through options for the
      translation engine (catalog directory and the like) are not interpreted here. */
  datatype Options = Options(
    locales: Option<seq<string>>,
    defaultLocale: Option<string>,
    languageHeaderField: Option<string>,
    queryParameter: Option<string>)

  /** What the request extensions capture once registration has succeeded:
      the configured list (known to be present), the default locale in force,
      and the two optional hint names. */
  datatype Settings = Settings(
    locales: seq<string>,
    defaultLocale: string,
    languageHeaderField: Option<string>,
    queryParameter: Option<string>)

  /** The options object with every option absent: what `register` falls
      back to when it is given no options. */
  const NoOptions := Options(None, None, None, None)

  /** `extractDefaultLocale`: the first configured locale. Any array is
      truthy in JavaScript, so only an absent list fails with the first
      message; a present but empty list fails with the second. */
  function ExtractDefaultLocale(allLocales: Option<seq<string>>): (r: Result<string, string>)
    ensures r.Ok? <==> allLocales.Some? && |allLocales.value| > 0
    ensures r.Ok? ==> r.value == allLocales.value[0]
    ensures allLocales.None? ==> r == Err(NoLocalesDefined)
    ensures allLocales == Some([]) ==> r == Err(LocalesArrayEmpty)
  {
    if allLocales.None? then Err(NoLocalesDefined)
    else if |allLocales.value| == 0 then Err(LocalesArrayEmpty)
    else Ok(allLocales.value[0])
  }

  /** The checks `register` makes before installing its extensions. A
      truthy `defaultLocale` wins and the list is then never consulted for
      the default, so it may be empty; otherwise the default is extracted
      from the list, which throws on an absent or empty list. Independently
      of that, an absent list always aborts with "No locales defined!". */
  function Register(options: Option<Options>): (r: Result<Settings, string>)
    ensures r.Ok? <==>
      options.Some? && options.value.locales.Some? &&
      (Truthy(options.value.defaultLocale) || |options.value.locales.value| > 0)
    ensures r.Ok? ==>
      && r.value.locales == options.value.locales.value
      && r.value.languageHeaderField == options.value.languageHeaderField
      && r.value.queryParameter == options.value.queryParameter
    ensures r.Ok? && Truthy(options.value.defaultLocale) ==>
      r.value.defaultLocale == options.value.defaultLocale.value
    ensures r.Ok? && !Truthy(options.value.defaultLocale) ==>
      r.value.defaultLocale == options.value.locales.value[0]
    ensures r.Err? ==> r.error in {NoLocalesDefined, LocalesArrayEmpty}
    ensures r == Err(LocalesArrayEmpty) <==>
      options.Some? && options.value.locales == Some([]) && !Truthy(options.value.defaultLocale)
  {
    var pluginOptions := options.GetOr(NoOptions);
    var defaultLocale :=
      if Truthy(pluginOptions.defaultLocale) then Ok(pluginOptions.defaultLocale.value)
      else ExtractDefaultLocale(pluginOptions.locales);
    if defaultLocale.Err? then Err(defaultLocale.error)
    else if pluginOptions.locales.None? then Err(NoLocalesDefined)
    else Ok(Settings(pluginOptions.locales.value, defaultLocale.value,
                     pluginOptions.languageHeaderField, pluginOptions.queryParameter))
  }

  /** Registration fails whenever the list of locales is absent, with or
      without a configured default. */
  lemma RegisterNeedsLocales(options: Option<Options>)
    requires options.None? || options.value.locales.None?
    ensures Register(options) == Err(NoLocalesDefined)
  {
  }

  /** A non-empty configured default is accepted beside a present but empty
      list, and it need not be one of the configured locales. */
  lemma ConfiguredDefaultNeedsNoLocales(default: string, header: Option<string>, query: Option<string>)
    requires default != ""
    ensures Register(Some(Options(Some([]), Some(default), header, query)))
         == Ok(Settings([], default, header, query))
  {
  }

  /** Without a (non-empty) configured default, the default of a successful
      registration is the first configured locale, and it is supported. */
  lemma ImplicitDefaultIsFirstLocale(options: Options)
    requires !Truthy(options.defaultLocale)
    requires options.locales.Some? && |options.locales.value| > 0
    ensures Register(Some(options)).Ok?
    ensures Register(Some(options)).value.defaultLocale == options.locales.value[0]
    ensures Register(Some(options)).value.defaultLocale in Register(Some(options)).value.locales
  {
  }
}
