/** The interface language state: the current language, its persisted
    copy, the text direction and the dotted-path text lookup `t`. */
module LanguageContext {
  import opened Optional
  import opened Strings
  import opened Translations

  /** The provider's state: the current language and the value saved in the
      browser's storage (nothing when none was ever saved). */
  datatype State = State(language: string, saved: Option<string>)

  /** The language on mount: English, replaced by the saved value when that
      is a non-empty string. The saved value is taken as it is, even when
      it names no known language. */
  function InitialLanguage(saved: Option<string>): (r: string)
    ensures saved.Some? && |saved.value| > 0 ==> r == saved.value
    ensures saved.None? || saved.value == "" ==> r == "en"
  {
    if saved.Some? && |saved.value| > 0 then saved.value else "en"
  }

  function Mount(saved: Option<string>): (s: State)
    ensures s.saved == saved
    ensures s.language == InitialLanguage(saved)
  {
    State(InitialLanguage(saved), saved)
  }

  /** `setLanguage(l)`: the language becomes `l` and is saved. */
  function SetLanguage(s: State, l: string): (r: State)
    ensures r.language == l && r.saved == Some(l)
  {
    State(l, Some(l))
  }

  /** A language set through `setLanguage` survives a reload. */
  lemma SetLanguageSurvivesReload(s: State, l: string)
    requires l == "en" || l == "ar"
    ensures Mount(SetLanguage(s, l).saved).language == l
  {
  }

  /** The text direction: right-to-left exactly for Arabic. */
  function Dir(language: string): (r: string)
    ensures r == "rtl" <==> language == "ar"
    ensures r == "ltr" <==> language != "ar"
  {
    if language == "ar" then "rtl" else "ltr"
  }

  /** One step of the walk, `result[key]`: the entry under `key` when it
      exists and is truthy; nothing otherwise, which ends the walk. */
  function Step(e: Entry, key: string): (r: Option<Entry>)
    ensures r.Some? <==> e.Section? && key in e.entries && Truthy(e.entries[key])
    ensures r.Some? ==> r.value == e.entries[key]
  {
    if e.Section? && key in e.entries && Truthy(e.entries[key]) then Some(e.entries[key]) else None
  }

  /** The walk along a key list: the entry reached when every step
      succeeds. */
  function Walk(e: Entry, keys: seq<string>): Option<Entry>
    decreases |keys|
  {
    if |keys| == 0 then Some(e)
    else
      match Step(e, keys[0])
      case None => None
      case Some(next) => Walk(next, keys[1..])
  }

  /** `t(path)` in `language`: the entry reached by walking the dot-separated
      keys of `path`, or the path itself as a text when a step finds nothing.
      None stands for the TypeError thrown when the language has no tree. */
  function T(language: string, path: string): (r: Option<Entry>)
    ensures r.None? <==> Dictionary(language).None?
    ensures r.Some? && Walk(Dictionary(language).value, Split(path, '.')).None? ==> r == Some(Leaf(path))
    ensures r.Some? && Walk(Dictionary(language).value, Split(path, '.')).Some? ==>
      r == Walk(Dictionary(language).value, Split(path, '.'))
  {
    match Dictionary(language)
    case None => None
    case Some(d) =>
      match Walk(d, Split(path, '.'))
      case None => Some(Leaf(path))
      case Some(e) => Some(e)
  }

  /** Walking a concatenation of key lists is walking the first, then the
      second from where the first ended. */
  lemma {:induction false} WalkAppend(e: Entry, a: seq<string>, b: seq<string>)
    ensures Walk(e, a + b) == (match Walk(e, a) case None => None case Some(m) => Walk(m, b))
    decreases |a|
  {
    if |a| == 0 {
      assert a + b == b;
    } else {
      assert (a + b)[0] == a[0];
      assert (a + b)[1..] == a[1..] + b;
      match Step(e, a[0]) {
        case None =>
        case Some(next) => WalkAppend(next, a[1..], b);
      }
    }
  }

  /** Every step of a successful walk finds a truthy entry: when a walk
      reaches its end, each prefix of the key list leads to a section
      holding the next key. */
  lemma {:induction false} WalkSucceedsStepwise(e: Entry, keys: seq<string>, i: nat)
    requires i < |keys|
    requires Walk(e, keys).Some?
    ensures Walk(e, keys[..i]).Some?
    ensures Step(Walk(e, keys[..i]).value, keys[i]).Some?
  {
    assert keys == keys[..i] + keys[i..];
    WalkAppend(e, keys[..i], keys[i..]);
    var m := Walk(e, keys[..i]).value;
    assert keys[i..][0] == keys[i];
  }

  /** A two-key path names the text stored in that section under that key. */
  lemma {:induction false} TwoKeyPath(section: string, key: string)
    requires '.' !in section && '.' !in key
    ensures Split(section + "." + key, '.') == [section, key]
  {
    SplitAtSeparator(section, key, '.');
    SplitWithoutSeparator(key, '.');
    assert section + "." + key == section + ['.'] + key;
  }

  /** No key of the dictionaries contains a dot. */
  lemma KeysHaveNoDot(k: string)
    requires k in CommonKeys || k in LandingKeys || k == "common" || k == "landing"
    ensures '.' !in k
  {
  }

  /** In a well-shaped tree, a section name followed by one of its keys
      reaches the text under that key. */
  lemma WalkToLeaf(d: Entry, section: string, key: string)
    requires WellShaped(d)
    requires section in d.entries && key in d.entries[section].entries
    ensures Walk(d, [section, key]) == Some(d.entries[section].entries[key])
  {
    assert section == "common" || section == "landing";
    assert Walk(d, [section, key]) == Walk(d.entries[section], [key]);
    assert Walk(d.entries[section], [key]) == Walk(d.entries[section].entries[key], []);
  }

  /** Every full path to a text of either dictionary resolves to that text,
      never to the fallback. */
  lemma LeafPathsResolve(language: string, section: string, key: string)
    requires language == "en" || language == "ar"
    requires section in Dictionary(language).value.entries
    requires Dictionary(language).value.entries[section].Section?
    requires key in Dictionary(language).value.entries[section].entries
    ensures T(language, section + "." + key) == Some(Dictionary(language).value.entries[section].entries[key])
    ensures T(language, section + "." + key).value.Leaf?
  {
    var d := Dictionary(language).value;
    LanguagesShareShape(language);
    assert section == "common" || section == "landing";
    KeysHaveNoDot(section);
    assert key in CommonKeys || key in LandingKeys;
    KeysHaveNoDot(key);
    TwoKeyPath(section, key);
    WalkToLeaf(d, section, key);
  }

  /** In a well-shaped tree, a section name alone reaches the section. */
  lemma WalkToSection(d: Entry)
    requires WellShaped(d)
    ensures Walk(d, ["common"]) == Some(d.entries["common"])
  {
    assert Walk(d, ["common"]) == Walk(d.entries["common"], []);
  }

  /** A path that stops at a section returns the whole section, not a text. */
  lemma SectionPathReturnsSection(language: string)
    requires language == "en" || language == "ar"
    ensures T(language, "common") == Some(Dictionary(language).value.entries["common"])
    ensures T(language, "common").value.Section?
  {
    LanguagesShareShape(language);
    SplitWithoutSeparator("common", '.');
    WalkToSection(Dictionary(language).value);
  }

  /** In a well-shaped tree, a walk whose first key is not a section
      fails. */
  lemma WalkFromUnknown(d: Entry, keys: seq<string>)
    requires WellShaped(d)
    requires |keys| > 0 && keys[0] != "common" && keys[0] != "landing"
    ensures Walk(d, keys).None?
  {
    assert Step(d, keys[0]).None?;
  }

  /** A path whose first key is not a section of the dictionary comes back
      as itself. */
  lemma UnknownKeyReturnsPath(language: string, path: string)
    requires language == "en" || language == "ar"
    requires Split(path, '.')[0] != "common" && Split(path, '.')[0] != "landing"
    ensures T(language, path) == Some(Leaf(path))
  {
    LanguagesShareShape(language);
    WalkFromUnknown(Dictionary(language).value, Split(path, '.'));
  }
}
