/** The interface language: a stored choice with English as the default, and the
    lookup of dotted keys such as "nav.dashboard" in the translation tables. */
module Language {
  import opened Wrappers
  import opened Text

  /** A translation table: named entries, each a text or a further table. */
  datatype Translation = Leaf(text: string) | Table(entries: map<string, Translation>)

  const Languages := ["en", "es", "fr", "zh", "hi"]
  const DefaultLanguage := "en"

  /** One step `value?.[k]` of the walk; `None` is `undefined`. The model finds
      only the table's own entries: a step into a text, or onto a name the table
      does not hold, gives `None`. */
  function Step(value: Option<Translation>, k: string): (r: Option<Translation>)
    ensures r.Some? ==> value.Some? && value.value.Table? && k in value.value.entries
                        && r.value == value.value.entries[k]
  {
    match value
    case Some(Table(entries)) => if k in entries then Some(entries[k]) else None
    case _ => None
  }

  /** The value reached by walking the segments in order. */
  function Walk(value: Option<Translation>, keys: seq<string>): Option<Translation> {
    if keys == [] then value else Step(Walk(value, keys[..|keys| - 1]), keys[|keys| - 1])
  }

  /** The table for the language, if there is one. */
  function Root(translations: map<string, Translation>, language: string): Option<Translation> {
    if language in translations then Some(translations[language]) else None
  }

  /** `value || key`: a non-empty text or a table is returned as found; anything else,
      a missing entry or an empty text, gives the key itself. */
  function Translate(translations: map<string, Translation>, language: string, key: string): (r: Translation)
    ensures r == Leaf(key) || Walk(Root(translations, language), Split(key, '.')) == Some(r)
    ensures r.Leaf? && r.text == "" ==> key == ""
  {
    match Walk(Root(translations, language), Split(key, '.'))
    case Some(Leaf(text)) => if text != "" then Leaf(text) else Leaf(key)
    case Some(Table(entries)) => Table(entries)
    case None => Leaf(key)
  }

  /** Once the walk falls off the tables it stays off. */
  lemma {:induction false} WalkFromNothing(keys: seq<string>)
    ensures Walk(None, keys) == None
  {
    if keys != [] {
      WalkFromNothing(keys[..|keys| - 1]);
    }
  }

  /** Walking a longer path is walking its first part, then the rest. */
  lemma {:induction false} WalkAppend(value: Option<Translation>, a: seq<string>, b: seq<string>)
    ensures Walk(value, a + b) == Walk(Walk(value, a), b)
  {
    if b == [] {
      assert a + b == a;
    } else {
      WalkAppend(value, a, b[..|b| - 1]);
      assert (a + b)[..|a + b| - 1] == a + b[..|b| - 1];
    }
  }

  /** A walk that meets a missing segment ends nowhere, so the key comes back. */
  lemma MissingSegmentGivesKey(translations: map<string, Translation>, language: string, key: string, i: nat)
    requires i < |Split(key, '.')|
    requires Walk(Root(translations, language), Split(key, '.')[..i + 1]) == None
    ensures Translate(translations, language, key) == Leaf(key)
  {
    var keys := Split(key, '.');
    WalkAppend(Root(translations, language), keys[..i + 1], keys[i + 1..]);
    assert keys[..i + 1] + keys[i + 1..] == keys;
    WalkFromNothing(keys[i + 1..]);
  }

  /** For a key made of dot-free segments, the walk takes exactly those segments, so a
      non-empty text found along them is the translation. */
  lemma DottedKey(translations: map<string, Translation>, language: string, segments: seq<string>, text: string)
    requires |segments| >= 1 && forall s :: s in segments ==> '.' !in s
    requires Walk(Root(translations, language), segments) == Some(Leaf(text)) && text != ""
    ensures Translate(translations, language, Join(segments, '.')) == Leaf(text)
  {
    SplitJoin(segments, '.');
  }

  /** `t`: walks the key's segments from the language's table. */
  method T(translations: map<string, Translation>, language: string, key: string) returns (r: Translation)
    ensures r == Translate(translations, language, key)
  {
    var keys := Split(key, '.');
    var value := Root(translations, language);
    for i := 0 to |keys|
      invariant value == Walk(Root(translations, language), keys[..i])
    {
      assert keys[..i + 1][..i] == keys[..i];
      value := Step(value, keys[i]);
    }
    assert keys[..|keys|] == keys;
    match value {
      case Some(Leaf(text)) =>
        r := if text != "" then Leaf(text) else Leaf(key);
      case Some(Table(entries)) =>
        r := Table(entries);
      case None =>
        r := Leaf(key);
    }
  }

  /** The language read back from storage: the stored name, or English when nothing
      (or an empty name) is stored. */
  function StoredLanguage(stored: Option<string>): (r: string)
    ensures stored.Some? && stored.value != "" ==> r == stored.value
    ensures stored.None? || stored.value == "" ==> r == DefaultLanguage
  {
    if stored.Some? && stored.value != "" then stored.value else DefaultLanguage
  }

  /** The chosen language and the copy kept in storage. */
  class Settings {
    var language: string
    var stored: Option<string>

    /** `useLanguage`'s initial state, read from storage. */
    constructor(saved: Option<string>)
      ensures stored == saved && language == StoredLanguage(saved)
    {
      stored := saved;
      language := StoredLanguage(saved);
    }

    /** `changeLanguage`: the new language is used and stored. */
    method ChangeLanguage(newLanguage: string)
      requires newLanguage in Languages
      modifies this
      ensures language == newLanguage && stored == Some(newLanguage)
      ensures StoredLanguage(stored) == language
    {
      language := newLanguage;
      stored := Some(newLanguage);
    }
  }

  /** A chosen language survives a reload. */
  lemma ReloadKeepsChoice(language: string)
    requires language in Languages
    ensures StoredLanguage(Some(language)) == language
  {
  }
}
