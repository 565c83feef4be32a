/** The `Translator` of src/Translator.js: a store of locale dictionaries with
    a current and a fallback locale, and the lookup policy of `translate`. */
module Translation {
  import opened Wrappers
  import opened LocaleCodes

  /** A flat dictionary from translation key to translated text. */
  type Dictionary = map<string, string>

  /** What `translate` throws. */
  datatype TranslateError = MissingKey

  ghost predicate NoDuplicates(s: seq<string>) {
    forall i, j :: 0 <= i < j < |s| ==> s[i] != s[j]
  }

  /** `Set.prototype.delete` on an insertion-ordered set: `x` is gone, everything
      else stays, and the order of what stays is kept (see WithoutAt). */
  function Without(s: seq<string>, x: string): (r: seq<string>)
    ensures forall y :: y in r <==> y in s && y != x
    ensures NoDuplicates(s) ==> NoDuplicates(r)
    ensures x !in s ==> r == s
  {
    if s == [] then []
    else
      var rest := Without(s[1..], x);
      assert NoDuplicates(s) ==> s[0] !in s[1..];
      if s[0] == x then rest else [s[0]] + rest
  }

  /** Deleting a code that occurs once, between `before` and `after`, leaves
      `before + after`. */
  lemma {:induction false} WithoutMiddle(before: seq<string>, x: string, after: seq<string>)
    requires x !in before && x !in after
    ensures Without(before + [x] + after, x) == before + after
  {
    if before == [] {
      WithoutHead(x, after);
    } else {
      var rest := before[1..] + [x] + after;
      calc {
        Without(before + [x] + after, x);
        { assert before + [x] + after == [before[0]] + rest; }
        Without([before[0]] + rest, x);
        { WithoutCons(before[0], rest, x); }
        [before[0]] + Without(rest, x);
        { WithoutMiddle(before[1..], x, after); }
        [before[0]] + (before[1..] + after);
        { assert before == [before[0]] + before[1..]; }
        before + after;
      }
    }
  }

  /** Unfolding `Without` once, at a head that is kept. */
  lemma WithoutCons(head: string, tail: seq<string>, x: string)
    requires head != x
    ensures Without([head] + tail, x) == [head] + Without(tail, x)
  {
    assert ([head] + tail)[1..] == tail;
  }

  /** Deleting a code at the head of a sequence that does not contain it
      again leaves the rest. */
  lemma WithoutHead(x: string, tail: seq<string>)
    requires x !in tail
    ensures Without([x] + tail, x) == tail
  {
    assert ([x] + tail)[1..] == tail;
  }

  /** Deleting the code at position `i` of a duplicate-free sequence closes the
      gap and keeps the order of the others. */
  lemma WithoutAt(s: seq<string>, i: nat)
    requires NoDuplicates(s) && i < |s|
    ensures Without(s, s[i]) == s[..i] + s[i + 1..]
  {
    OccursOnce(s, i);
    assert s == s[..i] + [s[i]] + s[i + 1..];
    WithoutMiddle(s[..i], s[i], s[i + 1..]);
  }

  /** In a duplicate-free sequence, the code at position `i` occurs neither
      before nor after it. */
  lemma OccursOnce(s: seq<string>, i: nat)
    requires NoDuplicates(s) && i < |s|
    ensures s[i] !in s[..i] && s[i] !in s[i + 1..]
  {
    var before, after := s[..i], s[i + 1..];
    forall j | 0 <= j < |before| ensures before[j] != s[i] {
      assert before[j] == s[j];
    }
    forall j | 0 <= j < |after| ensures after[j] != s[i] {
      assert after[j] == s[i + 1 + j];
    }
  }

  /** The position of the last code in `codes` whose language segment is
      `lang`, or -1 when there is none. */
  function LastMatchIndex(codes: seq<string>, lang: string): (k: int)
    ensures -1 <= k < |codes|
    ensures k >= 0 ==> Language(codes[k]) == lang
    ensures forall j :: k < j < |codes| ==> Language(codes[j]) != lang
  {
    if codes == [] then -1
    else if Language(codes[|codes| - 1]) == lang then |codes| - 1
    else LastMatchIndex(codes[..|codes| - 1], lang)
  }

  /** The entry for `key` in the dictionary of `locale`, or "" when the locale
      is unset, has no dictionary, or the dictionary has no entry. An entry
      that is "" is as good as none: JavaScript treats it as false. */
  function Entry(translations: map<string, Dictionary>, locale: string, key: string): string {
    if locale != "" && locale in translations && key in translations[locale]
    then translations[locale][key] else ""
  }

  /** The locale a `translate` call names: its argument, normalized, or the
      current locale when that normalizes to "". */
  function OverrideLocale(current: string, locale: Option<string>): string {
    var n := NormalizeOptional(locale);
    if n == "" then current else n
  }

  /** The text `translate` settles on when no dictionary has a usable entry:
      the caller's fallback text when it is truthy, else the key. */
  function Default(key: string, fallbackText: Option<string>): string {
    if fallbackText.Some? && fallbackText.value != "" then fallbackText.value else key
  }

  /** The position of the last non-empty string in `candidates`, or -1 when
      all are empty: after a run of assignments that each skip an empty value,
      the one that stuck. */
  function LastNonEmptyIndex(candidates: seq<string>): (k: int)
    ensures -1 <= k < |candidates|
    ensures k >= 0 ==> candidates[k] != ""
    ensures forall j :: k < j < |candidates| ==> candidates[j] == ""
  {
    if candidates == [] then -1
    else if candidates[|candidates| - 1] != "" then |candidates| - 1
    else LastNonEmptyIndex(candidates[..|candidates| - 1])
  }

  /** Over three candidates, the last non-empty one is the first non-empty
      one read backwards. */
  lemma LastNonEmptyOfThree(first: string, second: string, third: string)
    ensures LastNonEmptyIndex([first, second, third])
         == if third != "" then 2 else if second != "" then 1 else if first != "" then 0 else -1
  {
    assert [first][..0] == [];
    assert LastNonEmptyIndex([first]) == if first != "" then 0 else -1;
    assert [first, second][..1] == [first];
    assert LastNonEmptyIndex([first, second])
        == if second != "" then 1 else if first != "" then 0 else -1;
    assert [first, second, third][..2] == [first, second];
  }

  /** The resolution policy of `translate`: an empty key is an error; otherwise
      the last non-empty of the entries of the fallback, the current and the
      override locale, or the default when all three are empty. Read as a
      priority chain: the override locale beats the current locale, which
      beats the fallback locale, which beats the default; and a successful
      answer is never empty. */
  function Resolve(translations: map<string, Dictionary>, current: string, fallbackLocale: string,
                   key: string, locale: Option<string>, fallbackText: Option<string>): (r: Result<string, TranslateError>)
    ensures r.Failure? <==> key == ""
    ensures r.Success? ==> r.value != ""
    ensures var fromOverride := Entry(translations, OverrideLocale(current, locale), key);
            var fromCurrent := Entry(translations, current, key);
            var fromFallback := Entry(translations, fallbackLocale, key);
            && (key != "" && fromOverride != "" ==> r == Success(fromOverride))
            && (key != "" && fromOverride == "" && fromCurrent != "" ==> r == Success(fromCurrent))
            && (key != "" && fromOverride == "" && fromCurrent == "" && fromFallback != ""
                ==> r == Success(fromFallback))
            && (key != "" && fromOverride == "" && fromCurrent == "" && fromFallback == ""
                ==> r == Success(Default(key, fallbackText)))
  {
    if key == "" then Failure(MissingKey)
    else
      var fromFallback := Entry(translations, fallbackLocale, key);
      var fromCurrent := Entry(translations, current, key);
      var fromOverride := Entry(translations, OverrideLocale(current, locale), key);
      var candidates := [fromFallback, fromCurrent, fromOverride];
      var k := LastNonEmptyIndex(candidates);
      LastNonEmptyOfThree(fromFallback, fromCurrent, fromOverride);
      var found := if k < 0 then "" else candidates[k];
      Success(if found != "" then found else Default(key, fallbackText))
  }

  /** The fallback to the current locale for an override that normalizes to ""
      never changes the answer: the current locale was consulted already. So
      an empty override, an override naming the current locale, and an omitted
      override (when no dictionary is registered under "undefined") agree. */
  lemma EmptyOverrideIsCurrent(translations: map<string, Dictionary>, current: string, fallbackLocale: string,
                               key: string, fallbackText: Option<string>)
    requires IsNormal(current)
    ensures Resolve(translations, current, fallbackLocale, key, Some(""), fallbackText)
         == Resolve(translations, current, fallbackLocale, key, Some(current), fallbackText)
    ensures Undefined !in translations ==>
              (Resolve(translations, current, fallbackLocale, key, None, fallbackText)
               == Resolve(translations, current, fallbackLocale, key, Some(""), fallbackText))
  {
    NormalizeFixedPoints(current);
  }

  class Translator {
    /** `_supportedLocales`: the registered codes, in insertion order. */
    var supported: seq<string>
    /** `_translations`: the dictionary of each registered code. */
    var translations: map<string, Dictionary>
    /** `_currentLocale`; "" when unset. */
    var current: string
    /** `_fallbackLocale`; "" when unset. */
    var fallback: string

    /** The object invariant: the supported set is duplicate-free and holds
        exactly the codes that have a dictionary, and every stored code is
        normalized (a fixed point of NormalizeLocale, see NormalizeFixedPoints).
        The current and fallback locales need not be supported: removing a
        locale leaves them pointing at it. */
    ghost predicate Valid()
      reads this
    {
      NoDuplicates(supported)
      && (forall l :: l in supported <==> l in translations)
      && (forall l :: l in translations ==> NormalizeLocale(l) == l)
      && NormalizeLocale(current) == current
      && NormalizeLocale(fallback) == fallback
    }

    /** A translator with no dictionaries and neither locale set. */
    constructor ()
      ensures Valid()
      ensures supported == [] && translations == map[] && current == "" && fallback == ""
    {
      supported := [];
      translations := map[];
      current := "";
      fallback := "";
    }

    /** `hasTranslation`: whether a dictionary is registered for the locale. */
    function HasTranslation(locale: string): (b: bool)
      reads this
      requires Valid()
      ensures b <==> NormalizeLocale(locale) in translations
    {
      NormalizeLocale(locale) in supported
    }

    /** `setCurrentLocale`: takes effect only for a non-empty normalized code
        that has a dictionary; otherwise nothing changes. */
    method SetCurrentLocale(locale: string)
      requires Valid()
      modifies this`current
      ensures Valid()
      ensures var n := NormalizeLocale(locale);
              current == if n != "" && n in translations then n else old(current)
    {
      var n := NormalizeLocale(locale);
      if n != "" && n in translations {
        current := n;
      }
    }

    /** `getCurrentLocale`: the stored code, which is always normalized. */
    function GetCurrentLocale(): (r: string)
      reads this
      requires Valid()
      ensures IsNormal(r)
    {
      NormalizeFixedPoints(current);
      current
    }

    /** `setFallbackLocale`: the same guard as SetCurrentLocale. */
    method SetFallbackLocale(locale: string)
      requires Valid()
      modifies this`fallback
      ensures Valid()
      ensures var n := NormalizeLocale(locale);
              fallback == if n != "" && n in translations then n else old(fallback)
    {
      var n := NormalizeLocale(locale);
      if n != "" && n in translations {
        fallback := n;
      }
    }

    /** `getFallbackLocale`: the stored code, which is always normalized. */
    function GetFallbackLocale(): (r: string)
      reads this
      requires Valid()
      ensures IsNormal(r)
    {
      NormalizeFixedPoints(fallback);
      fallback
    }

    /** `addTranslation`: registers (or replaces, without merging) the
        dictionary of the normalized locale; a new code goes to the end of the
        supported set, a known one keeps its place. With `isCurrent` the
        locale also becomes current, through the setter's guard, so not when
        it normalizes to "". No other locale's entry and not the fallback
        locale change. */
    method AddTranslation(locale: string, dictionary: Dictionary, isCurrent: bool)
      requires Valid()
      modifies this`supported, this`translations, this`current
      ensures Valid()
      ensures var n := NormalizeLocale(locale);
              && supported == (if n in old(supported) then old(supported) else old(supported) + [n])
              && translations == old(translations)[n := dictionary]
              && current == (if isCurrent && n != "" then n else old(current))
      ensures HasTranslation(locale) && translations[NormalizeLocale(locale)] == dictionary
    {
      var n := NormalizeLocale(locale);
      NormalizeIdempotent(locale);
      if n !in supported {
        supported := supported + [n];
      }
      translations := translations[n := dictionary];
      if isCurrent {
        SetCurrentLocale(n);
      }
    }

    /** `removeTranslation`: drops the normalized locale from the supported
        set and its dictionary from the store (nothing happens when it was
        never registered). The current and fallback locales are left as they
        are, even when they name the removed locale. */
    method RemoveTranslation(locale: string)
      requires Valid()
      modifies this`supported, this`translations
      ensures Valid()
      ensures var n := NormalizeLocale(locale);
              supported == Without(old(supported), n) && translations == old(translations) - {n}
      ensures !HasTranslation(locale)
    {
      var n := NormalizeLocale(locale);
      supported := Without(supported, n);
      translations := translations - {n};
    }

    /** `getClosestLocale`: the normalized locale when it is supported;
        otherwise the last supported code, in insertion order, with the same
        language segment, unless there is none or it is "" (falsy); otherwise
        the fallback locale. */
    method GetClosestLocale(locale: string) returns (r: string)
      ensures var n := NormalizeLocale(locale);
              var k := LastMatchIndex(supported, Language(n));
              r == if n in supported then n
                   else if k >= 0 && supported[k] != "" then supported[k]
                   else fallback
    {
      var n := NormalizeLocale(locale);
      if n in supported {
        return n;
      }
      var requestLanguage := Language(n);
      var closest: Option<string> := None;
      var i := 0;
      while i < |supported|
        invariant 0 <= i <= |supported|
        invariant var k := LastMatchIndex(supported[..i], requestLanguage);
                  closest == if k < 0 then None else Some(supported[k])
      {
        assert supported[..i + 1][..i] == supported[..i];
        if Language(supported[i]) == requestLanguage {
          closest := Some(supported[i]);
        }
        i := i + 1;
      }
      assert supported[..i] == supported;
      if closest.None? || closest.value == "" {
        r := fallback;
      } else {
        r := closest.value;
      }
    }

    /** `translate`: an empty key throws; otherwise three lookups run in order
        (fallback, current, override), each overwriting the running answer
        only with a non-empty entry, and an answer still empty becomes the
        default. No state changes. This sequential overwrite agrees with the
        priority chain of Resolve. */
    method Translate(key: string, locale: Option<string>, fallbackText: Option<string>)
      returns (r: Result<string, TranslateError>)
      ensures r == Resolve(translations, current, fallback, key, locale, fallbackText)
    {
      var translation := "";
      var requested := NormalizeOptional(locale);
      if key == "" {
        return Failure(MissingKey);
      }
      if requested == "" {
        requested := current;
      }
      if fallback != "" && fallback in translations && key in translations[fallback]
         && translations[fallback][key] != "" {
        translation := translations[fallback][key];
      }
      if current != "" && current in translations && key in translations[current]
         && translations[current][key] != "" {
        translation := translations[current][key];
      }
      if requested != "" && requested in translations && key in translations[requested]
         && translations[requested][key] != "" {
        translation := translations[requested][key];
      }
      if translation == "" {
        translation := key;
        if fallbackText.Some? && fallbackText.value != "" {
          translation := fallbackText.value;
        }
      }
      return Success(translation);
    }
  }
}
