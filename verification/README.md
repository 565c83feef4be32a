# simple-dict-translator: a Dafny model of `Translator`

The library keeps, in memory, one flat dictionary (translation key to text)
per locale code, together with a current locale and a fallback locale, and
answers `translate(key, locale, fallback)` by looking the key up in the
fallback, current and requested locale's dictionaries. This project models
the `Translator` class of `src/Translator.js` and proves what it promises.

- `wrappers.dfy` (module `Wrappers`): `Option` for arguments a caller may omit
  (`undefined`), `Result` for the error `translate` throws.
- `locale_codes.dfy` (module `LocaleCodes`): the pure string work.
  `NormalizeLocale` replaces every `-` by `_` and then lower-cases.
  `NormalizeOptional` normalizes an argument that may be omitted.
  `Language` is the first `_` segment, as `getClosestLocale` compares it.
- `translator.dfy` (module `Translation`): the class `Translator`, with the four
  fields of the source and its object invariant `Valid()`. It also holds the
  specification functions its read-only methods are proved against:
  `LastMatchIndex` for the scan of `getClosestLocale`, and `Resolve` for the
  lookup policy of `translate`.
- `scenario.dfy` (module `TranslatorScenarios`): client methods that replay
  the cases of `test/translator.js`, including the five `translate` cases.
  Each expected outcome follows from the members' contracts, and, for the two
  getters, from their one-line bodies. The empty-key case follows
  `src/Translator.js:156-158`.

Modelling decisions:

- The supported set, a JavaScript `Set`, is a duplicate-free `seq<string>` in
  insertion order. Re-adding a known code keeps its position. Deleting a code
  closes the gap (`Without`, `WithoutAt`). This makes "the last match in
  iteration order" in `getClosestLocale` precise.
- The store of dictionaries is a `map<string, map<string, string>>`.
- An omitted argument is `None`. An omitted locale is coerced by `'' + locale`
  to the string `"undefined"`, which is not empty (`NormalizeOptional`). So
  `translate(key)` does not take the "use the current locale" branch at
  `src/Translator.js:160-162`. The answer is the same either way, as long as
  no dictionary is registered under `"undefined"` (`EmptyOverrideIsCurrent`).
  When one is, `translate(key)` looks its key up there.
- JavaScript truthiness of strings is "non-empty". A dictionary entry `""`
  counts as missing. A matched supported code `""` in `getClosestLocale`
  falls through to the fallback locale. A fallback text `""` yields the key.
- `translate` returns a caller-supplied fallback text only when it is truthy
  (`src/Translator.js:179`), so `""` yields the key. An omitted locale
  normalizes to `"undefined"` (`src/Translator.js:60`), not to `""`.
- `translate` is written two ways. The method `Translate` keeps the source's
  three sequential overwrites. The function `Resolve` takes the last non-empty
  of the fallback, current and override entries, and its contract reads that
  as a priority chain: override, then current, then fallback, then the
  default. The method's postcondition proves the two agree.
- `addTranslation(l, d, true)` goes through the setter's guard. So the
  current locale changes only when `l` normalizes to a non-empty code.
  `AddTranslation` states exactly that.
- Frames state what each mutator leaves alone. `RemoveTranslation` may modify
  only `supported` and `translations`, so the current and fallback locales
  are untouched (stale references are kept). The setters modify only their
  own field. `HasTranslation`, the getters, `GetClosestLocale` and
  `Translate` modify nothing.

## Model

| member | source | states |
|---|---|---|
| LocaleCodes.ReplaceHyphens | src/Translator.js:60 | the result has the input's length and no `-`; each `-` became `_`; every other character is kept |
| LocaleCodes.Lower | src/Translator.js:62 | the result has the input's length and no upper-case letter; each upper-case letter became its lower-case partner; every other character is kept |
| LocaleCodes.NormalizeLocale | src/Translator.js:59-63 | the normalized code is canonical (no `-`, no upper-case letter), as long as the input, and keeps every character that is neither |
| LocaleCodes.NormalizeOptional | src/Translator.js:60 | an argument that may be omitted normalizes to a canonical code; an omitted one becomes `"undefined"` |
| LocaleCodes.Language | src/Translator.js:124-125 | the first `_` segment: a prefix of the code with no `_`, ending at the code's end or at its first `_` |
| LocaleCodes.NormalizeFixedPoints | src/Translator.js:59-63 | normalization leaves a code unchanged if and only if it is already canonical |
| LocaleCodes.NormalizeIdempotent | src/Translator.js:59-63 | normalizing twice equals normalizing once |
| LocaleCodes.NormalizeUpper | test/translator.js:12-14 | `"EN"` normalizes to `"en"` |
| LocaleCodes.NormalizeRegion | test/translator.js:15-17 | `"en-US"` normalizes to `"en_us"` |
| LocaleCodes.NormalizeMixed | test/translator.js:90-92 | `"En-uS"` normalizes to `"en_us"` |
| LocaleCodes.NormalizeCanonical | test/translator.js:81-83 | `"en_us"` is already canonical |
| Translation.Without | src/Translator.js:47 | deleting a code from the supported set removes exactly that code, keeps the set duplicate-free, and changes nothing when the code was absent |
| Translation.WithoutMiddle | src/Translator.js:47 | deleting a code that occurs once, between two runs of other codes, joins the two runs |
| Translation.WithoutAt | src/Translator.js:47 | deleting the code at position i leaves the codes before and after it, in their order |
| Translation.LastMatchIndex | src/Translator.js:127-134 | the index of the last code whose language segment equals the requested one, or -1 exactly when no code matches |
| Translation.LastNonEmptyIndex | src/Translator.js:164-174 | the position of the last non-empty candidate: every later candidate is empty, and -1 means all are empty |
| Translation.LastNonEmptyOfThree | src/Translator.js:164-174 | over three candidates, the last non-empty one is the first non-empty one read backwards |
| Translation.Resolve | src/Translator.js:151-185 | an empty key is the only error; the override entry beats the current one, which beats the fallback one, which beats the default (the truthy fallback text, else the key); a successful answer is never empty |
| Translation.EmptyOverrideIsCurrent | src/Translator.js:160-174 | an override that normalizes to `""`, an override naming the current locale, and an omitted override (when no dictionary is registered under `"undefined"`) give the same answer |
| Translation.Translator.constructor | src/Translator.js:2-7 | a new translator satisfies the invariant and has no codes, no dictionaries, and neither locale set |
| Translation.Translator.HasTranslation | src/Translator.js:15-19 | true exactly when a dictionary is stored for the normalized locale (the supported set and the store agree) |
| Translation.Translator.AddTranslation | src/Translator.js:28-37 | keeps the invariant; stores exactly the given dictionary under the normalized code; appends a new code and keeps a known one in place; other dictionaries and the fallback locale are unchanged; with `isCurrent`, the code becomes current when it is non-empty; afterwards `HasTranslation` holds |
| Translation.Translator.RemoveTranslation | src/Translator.js:44-49 | keeps the invariant; drops the normalized code from the set, in order, and its dictionary from the store; other dictionaries, the current and the fallback locale are unchanged; afterwards `HasTranslation` is false |
| Translation.Translator.SetCurrentLocale | src/Translator.js:70-75 | the current locale becomes the normalized code when that is non-empty and has a dictionary; otherwise nothing changes |
| Translation.Translator.GetCurrentLocale | src/Translator.js:82-84 | the current locale is always canonical |
| Translation.Translator.SetFallbackLocale | src/Translator.js:91-96 | the fallback locale becomes the normalized code when that is non-empty and has a dictionary; otherwise nothing changes |
| Translation.Translator.GetFallbackLocale | src/Translator.js:103-105 | the fallback locale is always canonical |
| Translation.Translator.GetClosestLocale | src/Translator.js:117-141 | returns the normalized locale when it is supported; otherwise the last supported code in insertion order with the same language segment, when there is one and it is non-empty; otherwise the fallback locale |
| Translation.Translator.Translate | src/Translator.js:151-185 | the three sequential overwrites give exactly the answer of `Resolve`, and no state changes |

## Left out

- `src/index.js` (a shared default instance and a bound `translate`) and the
  files under `example/` are glue and console output. They are not part of
  this model.
- `test/translator.js` is not modelled. Its cases are replayed as clients in
  `scenario.dfy`. Its empty-key case calls `translate` unbound, so there it
  throws on the undefined `this` before the key check; the replay checks the
  key check itself.
- Translation.Translator.AddTranslation: the stored dictionary is a value,
  not the caller's object. `src/Translator.js:32` stores the object by
  reference, so a later mutation by the caller changes what `translate`
  returns, and one object registered under two codes is shared between
  them. The model does not capture that mutation or sharing:
  `translations[n] == dictionary` holds for the dictionary as it was at the
  call.
- LocaleCodes.Lower: lower-cases ASCII letters only. JavaScript's
  `toLowerCase` follows Unicode case mapping, which Dafny has no model of.
- JavaScript coercions other than the omitted locale are not modelled:
  locales that are `null` or numbers, dictionaries that are not objects
  (an `undefined` dictionary fails the setters' truthiness guard), dictionary
  values that are not strings, and `isCurrent` or fallback values that are
  not a boolean or a string. Keys, values and locales are strings. The
  fallback text is an `Option<string>`, truthy when present and non-empty.
- Dictionaries and the store are plain JavaScript objects. Keys such as
  `"constructor"` or `"toString"` find inherited properties, and
  `"__proto__"` is special. The model treats the store and the dictionaries
  as maps with only the keys that were put into them.
- The unused `requestCountry` (`src/Translator.js:126`) has no effect on any
  result.
- Concurrency: none. Every operation is synchronous and single-threaded.
