/** Pure string functions on locale codes: normalization (`normalizeLocale`)
    and the language segment that `getClosestLocale` compares. */
module LocaleCodes {
  import opened Wrappers

  predicate IsUpper(c: char) {
    'A' <= c <= 'Z'
  }

  /** A locale code in canonical form: no hyphen and no upper-case letter. */
  predicate IsNormal(s: string) {
    forall i :: 0 <= i < |s| ==> s[i] != '-' && !IsUpper(s[i])
  }

  /** Every '-' of `s` replaced by '_' (`split('-').join('_')`). */
  function ReplaceHyphens(s: string): (r: string)
    ensures |r| == |s|
    ensures '-' !in r
    ensures forall i :: 0 <= i < |s| && s[i] == '-' ==> r[i] == '_'
    ensures forall i :: 0 <= i < |s| && s[i] != '-' ==> r[i] == s[i]
  {
    seq(|s|, i requires 0 <= i < |s| => if s[i] == '-' then '_' else s[i])
  }

  /** `s` with every ASCII upper-case letter replaced by its lower-case partner. */
  function Lower(s: string): (r: string)
    ensures |r| == |s|
    ensures forall i :: 0 <= i < |s| ==> !IsUpper(r[i])
    ensures forall i :: 0 <= i < |s| && IsUpper(s[i]) ==> r[i] as int == s[i] as int + 32
    ensures forall i :: 0 <= i < |s| && !IsUpper(s[i]) ==> r[i] == s[i]
  {
    seq(|s|, i requires 0 <= i < |s| => if IsUpper(s[i]) then (s[i] as int + 32) as char else s[i])
  }

  /** `normalizeLocale`: hyphens become underscores, then the code is lower-cased.
      The result is canonical, as long as the input, and keeps every character
      that is neither a hyphen nor an upper-case letter. */
  function NormalizeLocale(s: string): (r: string)
    ensures |r| == |s|
    ensures IsNormal(r)
    ensures forall i :: 0 <= i < |s| && s[i] != '-' && !IsUpper(s[i]) ==> r[i] == s[i]
  {
    Lower(ReplaceHyphens(s))
  }

  /** The JavaScript string `'' + undefined`, which is what an omitted locale
      argument becomes before it is normalized. */
  const Undefined: string := "undefined"

  /** `normalizeLocale` applied to an argument that may be omitted. */
  function NormalizeOptional(locale: Option<string>): (r: string)
    ensures IsNormal(r)
    ensures locale.None? ==> r == Undefined
  {
    match locale
    case None => NormalizeLocale(Undefined)
    case Some(s) => NormalizeLocale(s)
  }

  /** The first `_`-separated segment of a code (`code.split('_')[0]`): the
      longest prefix without an underscore. */
  function Language(code: string): (r: string)
    ensures r <= code
    ensures '_' !in r
    ensures |r| == |code| || code[|r|] == '_'
  {
    if code == [] || code[0] == '_' then [] else [code[0]] + Language(code[1..])
  }

  /** Normalization leaves a string unchanged exactly when it is already canonical. */
  lemma NormalizeFixedPoints(s: string)
    ensures NormalizeLocale(s) == s <==> IsNormal(s)
  {
    if IsNormal(s) {
      var r := NormalizeLocale(s);
      assert forall i :: 0 <= i < |s| ==> r[i] == s[i];
    }
  }

  /** Normalizing twice is normalizing once. */
  lemma NormalizeIdempotent(s: string)
    ensures NormalizeLocale(NormalizeLocale(s)) == NormalizeLocale(s)
  {
    NormalizeFixedPoints(NormalizeLocale(s));
  }

  /** The worked examples of `normalizeLocale`. */
  lemma NormalizeUpper()
    ensures NormalizeLocale("EN") == "en"
  {
    var r := NormalizeLocale("EN");
    assert r[0] == 'e' && r[1] == 'n';
  }

  lemma NormalizeRegion()
    ensures NormalizeLocale("en-US") == "en_us"
  {
    var r := NormalizeLocale("en-US");
    assert ReplaceHyphens("en-US")[2] == '_';
    assert r[0] == 'e' && r[1] == 'n' && r[2] == '_' && r[3] == 'u' && r[4] == 's';
  }

  lemma NormalizeMixed()
    ensures NormalizeLocale("En-uS") == "en_us"
  {
    var r := NormalizeLocale("En-uS");
    assert ReplaceHyphens("En-uS")[2] == '_';
    assert r[0] == 'e' && r[1] == 'n' && r[2] == '_' && r[3] == 'u' && r[4] == 's';
  }

  lemma NormalizeCanonical()
    ensures NormalizeLocale("en_us") == "en_us"
  {
    NormalizeFixedPoints("en_us");
  }
}
