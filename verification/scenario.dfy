/** Clients of the Translator that replay the cases of test/translator.js.
    Each expected outcome follows from the members' contracts, and, for the
    two getters, from their one-line bodies. */
module TranslatorScenarios {
  import opened Wrappers
  import opened LocaleCodes
  import opened Translation

  lemma EnUs() ensures NormalizeLocale("en_us") == "en_us" { NormalizeFixedPoints("en_us"); }
  lemma SvSe() ensures NormalizeLocale("sv_se") == "sv_se" { NormalizeFixedPoints("sv_se"); }
  lemma DeDe() ensures NormalizeLocale("de_de") == "de_de" { NormalizeFixedPoints("de_de"); }
  lemma FrFr() ensures NormalizeLocale("fr_fr") == "fr_fr" { NormalizeFixedPoints("fr_fr"); }
  lemma EnGb() ensures NormalizeLocale("en_gb") == "en_gb" { NormalizeFixedPoints("en_gb"); }

  /** "should add translations to supported translations" */
  method AddThenTranslate() {
    var t := new Translator();
    SvSe();
    t.AddTranslation("sv_se", map["welcome" := "Välkommen"], false);
    assert t.translations == map["sv_se" := map["welcome" := "Välkommen"]];
    var r := t.Translate("welcome", Some("sv_se"), None);
    assert r == Success("Välkommen");
  }

  /** "should set default translation when adding translation" */
  method AddAsCurrent() {
    var t := new Translator();
    SvSe();
    t.AddTranslation("sv_se", map["welcome" := "Välkommen"], true);
    assert t.current == "sv_se";
    assert t.translations == map["sv_se" := map["welcome" := "Välkommen"]];
    var r := t.Translate("welcome", None, None);
    assert r == Success("Välkommen");
  }

  /** "should remove translations to supported translations" */
  method AddThenRemove() {
    var t := new Translator();
    SvSe();
    t.AddTranslation("sv_se", map["welcome" := "Välkommen"], false);
    t.RemoveTranslation("sv_se");
    assert !t.HasTranslation("sv_se");
    assert t.translations == map[];
    var r := t.Translate("welcome", Some("sv_se"), None);
    assert r == Success("welcome");
  }

  /** The state the set/get cases start from: en_us (registered as current)
      and sv_se. */
  ghost predicate TwoLocaleState(t: Translator)
    reads t
  {
    && t.Valid()
    && t.supported == ["en_us", "sv_se"]
    && t.translations == map["en_us" := map["welcome" := "Welcome"], "sv_se" := map["welcome" := "Välkommen"]]
    && t.current == "en_us" && t.fallback == ""
  }

  method TwoLocales() returns (t: Translator)
    ensures TwoLocaleState(t)
  {
    t := new Translator();
    EnUs();
    t.AddTranslation("en_us", map["welcome" := "Welcome"], true);
    AddSwedish(t);
  }

  /** "should be able to set/get current locale" */
  method SetGetCurrent(t: Translator)
    requires TwoLocaleState(t)
    modifies t
  {
    SvSe();
    t.SetCurrentLocale("sv_se");
    assert t.GetCurrentLocale() == "sv_se";
  }

  /** "should be able to set/get fallback locale" */
  method SetGetFallback(t: Translator)
    requires TwoLocaleState(t)
    modifies t
  {
    SvSe();
    t.SetFallbackLocale("sv_se");
    assert t.GetFallbackLocale() == "sv_se";
  }

  /** A setter given a code without a dictionary changes nothing. */
  method SetUnregistered(t: Translator)
    requires TwoLocaleState(t)
    modifies t
  {
    FrFr();
    assert "fr_fr" !in t.translations;
    t.SetCurrentLocale("fr_fr");
    t.SetFallbackLocale("fr_fr");
    assert t.GetCurrentLocale() == "en_us" && t.GetFallbackLocale() == "";
  }

  /** The state the getClosestLocale and translate cases start from. */
  ghost predicate ThreeLocaleState(t: Translator)
    reads t
  {
    && t.Valid()
    && t.supported == ["en_us", "sv_se", "de_de"]
    && t.translations == map["en_us" := map["welcome" := "Welcome"],
                             "sv_se" := map["welcome" := "Välkommen"],
                             "de_de" := map["welcome" := "Willkommen", "goodbye" := "Auf Wiedersehen"]]
    && t.current == "en_us" && t.fallback == "de_de"
  }

  /** The shared set-up of those cases, one registration at a time. */
  method ThreeLocales() returns (t: Translator)
    ensures ThreeLocaleState(t)
  {
    t := new Translator();
    EnUs();
    t.AddTranslation("en_us", map["welcome" := "Welcome"], false);
    AddSwedish(t);
    AddGerman(t);
    ChooseLocales(t);
  }

  method AddSwedish(t: Translator)
    requires t.Valid() && t.supported == ["en_us"] && t.translations == map["en_us" := map["welcome" := "Welcome"]]
    requires t.fallback == ""
    modifies t
    ensures t.Valid() && t.supported == ["en_us", "sv_se"]
    ensures t.translations == map["en_us" := map["welcome" := "Welcome"], "sv_se" := map["welcome" := "Välkommen"]]
    ensures t.current == old(t.current) && t.fallback == ""
  {
    SvSe();
    t.AddTranslation("sv_se", map["welcome" := "Välkommen"], false);
  }

  method AddGerman(t: Translator)
    requires t.Valid() && t.supported == ["en_us", "sv_se"]
    requires t.translations == map["en_us" := map["welcome" := "Welcome"], "sv_se" := map["welcome" := "Välkommen"]]
    requires t.current == "" && t.fallback == ""
    modifies t
    ensures t.Valid() && t.supported == ["en_us", "sv_se", "de_de"]
    ensures t.translations == map["en_us" := map["welcome" := "Welcome"],
                                  "sv_se" := map["welcome" := "Välkommen"],
                                  "de_de" := map["welcome" := "Willkommen", "goodbye" := "Auf Wiedersehen"]]
    ensures t.current == "" && t.fallback == ""
  {
    DeDe();
    t.AddTranslation("de_de", map["welcome" := "Willkommen", "goodbye" := "Auf Wiedersehen"], false);
  }

  method ChooseLocales(t: Translator)
    requires t.Valid() && "en_us" in t.translations && "de_de" in t.translations
    modifies t
    ensures t.Valid() && t.current == "en_us" && t.fallback == "de_de"
    ensures t.supported == old(t.supported) && t.translations == old(t.translations)
  {
    EnUs();
    t.SetCurrentLocale("en_us");
    DeDe();
    t.SetFallbackLocale("de_de");
  }

  /** "should return locale if locale is supported" and "should normalize
      given locale, and return same" */
  method ClosestExact(t: Translator)
    requires ThreeLocaleState(t)
  {
    EnUs();
    var c := t.GetClosestLocale("en_us");
    assert c == "en_us";
    NormalizeMixed();
    c := t.GetClosestLocale("En-uS");
    assert c == "en_us";
  }

  /** "should return same language locale if no country is matched" */
  method ClosestSameLanguage(t: Translator)
    requires ThreeLocaleState(t)
  {
    EnglishIsFirst(t.supported);
    var c := t.GetClosestLocale("en_gb");
    assert c == "en_us";
  }

  lemma EnglishIsFirst(supported: seq<string>)
    requires supported == ["en_us", "sv_se", "de_de"]
    ensures NormalizeLocale("en_gb") == "en_gb" && "en_gb" !in supported
    ensures LastMatchIndex(supported, Language("en_gb")) == 0
  {
    EnGb();
    KnownLanguages();
    assert "en_gb" != supported[0] && "en_gb" != supported[1] && "en_gb" != supported[2];
  }

  /** "should return fallback if no match is found" */
  method ClosestFallsBack(t: Translator)
    requires ThreeLocaleState(t)
  {
    FrenchIsMissing(t.supported);
    var c := t.GetClosestLocale("fr_fr");
    assert c == "de_de";
  }

  lemma FrenchIsMissing(supported: seq<string>)
    requires supported == ["en_us", "sv_se", "de_de"]
    ensures NormalizeLocale("fr_fr") == "fr_fr" && "fr_fr" !in supported
    ensures LastMatchIndex(supported, Language("fr_fr")) == -1
  {
    FrFr();
    KnownLanguages();
    assert "fr_fr" != supported[0] && "fr_fr" != supported[1] && "fr_fr" != supported[2];
  }

  lemma KnownLanguages()
    ensures Language("en_us") == "en" && Language("sv_se") == "sv" && Language("de_de") == "de"
    ensures Language("fr_fr") == "fr" && Language("en_gb") == "en"
  {
    LanguageEn();
    LanguageSv();
    LanguageDe();
    LanguageFr();
  }

  lemma LanguageEn() ensures Language("en_us") == "en" && Language("en_gb") == "en" { }
  lemma LanguageSv() ensures Language("sv_se") == "sv" { }
  lemma LanguageDe() ensures Language("de_de") == "de" { }
  lemma LanguageFr() ensures Language("fr_fr") == "fr" { }

  /** "should be able to translate current locale" */
  method TranslateCurrent(t: Translator)
    requires ThreeLocaleState(t)
  {
    var r := t.Translate("welcome", None, None);
    assert r == Success("Welcome");
  }

  /** "should be able to translate given locale" */
  method TranslateGiven(t: Translator)
    requires ThreeLocaleState(t)
  {
    SvSe();
    var r := t.Translate("welcome", Some("sv_se"), None);
    assert r == Success("Välkommen");
  }

  /** "should be able to translate and go to fallback locale" */
  method TranslateFromFallback(t: Translator)
    requires ThreeLocaleState(t)
  {
    var r := t.Translate("goodbye", None, None);
    assert r == Success("Auf Wiedersehen");
  }

  /** "should be able to translate and give key if no matching translation
      was found" */
  method TranslateUnknownKey(t: Translator)
    requires ThreeLocaleState(t)
  {
    var r := t.Translate("hello", None, None);
    assert r == Success("hello");
  }

  /** An empty key is rejected before any lookup (src/Translator.js:156-158). */
  method TranslateEmptyKey(t: Translator)
    requires ThreeLocaleState(t)
  {
    var r := t.Translate("", None, None);
    assert r == Failure(MissingKey);
  }
}
