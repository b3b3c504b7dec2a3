/** The plugin configured as the repository's tests configure it, and the
    requests those tests send, resolved by the model. */
module Scenarios {
  import opened Wrappers
  import opened Registration
  import opened Resolution

  /** Locales "de", "en", "fr", header field "language", query parameter "lang". */
  const TestOptions := Options(Some(["de", "en", "fr"]), None, Some("language"), Some("lang"))

  /** Registration with the tests' options succeeds with "de" as default,
      and the default is extracted from the head of any non-empty list. */
  lemma TestRegistration()
    ensures Register(Some(TestOptions)) == Ok(Settings(["de", "en", "fr"], "de", Some("language"), Some("lang")))
    ensures ExtractDefaultLocale(Some(["fr", "de"])) == Ok("fr")
    ensures ExtractDefaultLocale(None).Err? && ExtractDefaultLocale(Some([])).Err?
  {
  }

  /** A request without any hint gets the default "de". */
  lemma TestDefaultRequest()
    ensures Resolve(Register(Some(TestOptions)).value, Request(map[], Some(map[]), Some(map[])))
         == Resolved("de")
  {
  }

  /** The header "language: fr" gets "fr"; an empty header set gets "de". */
  lemma TestHeaderRequests()
    ensures Resolve(Register(Some(TestOptions)).value, Request(map["language" := "fr"], Some(map[]), Some(map[])))
         == Resolved("fr")
    ensures Resolve(Register(Some(TestOptions)).value, Request(map[], Some(map[]), None))
         == Resolved("de")
  {
  }

  /** Because a header field is configured, the path parameter "en-US" is
      never looked at: the request gets the default instead of being
      rejected, and "fr" in the path does not beat the header "en". */
  lemma TestPathIgnoredUnderHeader()
    ensures Resolve(Register(Some(TestOptions)).value,
                    Request(map[], Some(map[]), Some(map[LanguageCodeParam := "en-US"])))
         == Resolved("de")
    ensures Resolve(Register(Some(TestOptions)).value,
                    Request(map["language" := "en"], Some(map[]), Some(map[LanguageCodeParam := "fr"])))
         == Resolved("en")
  {
  }

  /** Without a header field, an unconfigured path locale is rejected with
      the exact message "No localization available for en-US". */
  lemma PathRejectionMessage()
    ensures Resolve(Settings(["de", "en", "fr"], "de", None, None),
                    Request(map[], None, Some(map[LanguageCodeParam := "en-US"])))
         == NotFound("No localization available for en-US")
    ensures Resolve(Settings(["de", "en", "fr"], "de", None, None),
                    Request(map[], None, Some(map[LanguageCodeParam := "fr"])))
         == Resolved("fr")
  {
  }
}
