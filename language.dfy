/**
 * lib/LanguageContext.tsx: the current interface language, kept in local
 * storage, and `t`, which looks a dotted key up in that language's
 * translation tree and falls back to the key itself.
 */
module Language {

  import opened Wrappers
  import opened Strings

  datatype Lang = Fr | En

  const StorageKey := "eonite-language"

  /** The code a language is stored under. */
  function Code(lang: Lang): (code: string) {
    match lang
    case Fr => "fr"
    case En => "en"
  }

  /** The saved-language check of the mount effect: only "fr" and "en" are accepted. */
  function ParseSaved(saved: Option<string>): (lang: Option<Lang>)
    ensures lang.Some? <==> saved == Some("fr") || saved == Some("en")
    ensures lang.Some? ==> Code(lang.value) == saved.value
  {
    if saved == Some("fr") then Some(Fr)
    else if saved == Some("en") then Some(En)
    else None
  }

  /** What is stored for a language is read back as that language. */
  lemma ParseSavedCode(lang: Lang)
    ensures ParseSaved(Some(Code(lang))) == Some(lang)
  {
  }

  /** A node of a translation file: a string, or an object of named children. */
  datatype Entry = Text(text: string) | Section(children: map<string, Entry>)

  /**
   * The walk of `t`: `value` is the current value (`None` for `undefined`);
   * each key indexes an object, and any other value ends the walk with a miss.
   */
  function Resolve(value: Option<Entry>, keys: seq<string>): (r: Option<Entry>)
    ensures keys == [] ==> r == value
    ensures keys != [] && (value.None? || value.value.Text?) ==> r.None?
    ensures keys != [] && r.Some? ==> value.Some? && value.value.Section?
    decreases |keys|
  {
    if keys == [] then value
    else if value.Some? && value.value.Section? then
      var children := value.value.children;
      Resolve(if keys[0] in children then Some(children[keys[0]]) else None, keys[1..])
    else None
  }

  /** The result of `t(key)` over a translation tree. */
  function Translate(root: Entry, key: string): (text: string)
    ensures text != key ==> Resolve(Some(root), Split(key, '.')) == Some(Text(text))
    ensures Resolve(Some(root), Split(key, '.')).Some? && Resolve(Some(root), Split(key, '.')).value.Text? ==>
      text == Resolve(Some(root), Split(key, '.')).value.text
  {
    match Resolve(Some(root), Split(key, '.'))
    case Some(Text(s)) => s
    case _ => key
  }

  /** Walking a path in two parts is walking the first part, then the second. */
  lemma {:induction false} ResolveConcat(value: Option<Entry>, a: seq<string>, b: seq<string>)
    ensures Resolve(value, a + b) == Resolve(Resolve(value, a), b)
    decreases |a|
  {
    if a == [] {
      assert a + b == b;
    } else if value.Some? && value.value.Section? {
      assert (a + b)[0] == a[0];
      assert (a + b)[1..] == a[1..] + b;
      var children := value.value.children;
      ResolveConcat(if a[0] in children then Some(children[a[0]]) else None, a[1..], b);
    } else {
      assert (a + b) != [];
      ResolveMissEnds(b);
    }
  }

  /** Once the walk has missed it stays missed. */
  lemma {:induction false} ResolveMissEnds(keys: seq<string>)
    ensures Resolve(None, keys) == None
  {
  }

  /** A key whose segments name a path to a string translates to that string. */
  lemma FoundPath(root: Entry, path: seq<string>, text: string)
    requires |path| >= 1
    requires forall i :: 0 <= i < |path| ==> '.' !in path[i]
    requires Resolve(Some(root), path) == Some(Text(text))
    ensures Translate(root, Join(path, '.')) == text
  {
    SplitJoin(path, '.');
  }

  /**
   * A segment missing from the object reached so far, or a string reached
   * before the last segment, makes `t` return the key.
   */
  lemma MissReturnsKey(root: Entry, key: string, i: nat)
    requires i < |Split(key, '.')|
    requires var reached := Resolve(Some(root), Split(key, '.')[..i]);
      reached.Some? ==> reached.value.Section? ==> Split(key, '.')[i] !in reached.value.children
    ensures Translate(root, key) == key
  {
    var keys := Split(key, '.');
    assert keys == keys[..i] + keys[i..];
    ResolveConcat(Some(root), keys[..i], keys[i..]);
    var reached := Resolve(Some(root), keys[..i]);
    assert keys[i..][0] == keys[i];
    ResolveMissEnds(keys[i + 1..]);
    assert keys[i..][1..] == keys[i + 1..];
  }

  /** A key that names a whole object, not a string, translates to itself. */
  lemma SectionReturnsKey(root: Entry, key: string)
    requires Resolve(Some(root), Split(key, '.')).Some?
    requires Resolve(Some(root), Split(key, '.')).value.Section?
    ensures Translate(root, key) == key
  {
  }

  /** The language context: the current language and the browser's local storage. */
  class LanguageProvider {
    var language: Lang
    var storage: map<string, string>
    /** The French and English translation files. */
    const fr: Entry
    const en: Entry

    /** The provider starts in French, whatever is stored. */
    constructor (fr: Entry, en: Entry, storage: map<string, string>)
      ensures language == Fr && this.storage == storage
      ensures this.fr == fr && this.en == en
    {
      this.fr := fr;
      this.en := en;
      this.storage := storage;
      language := Fr;
    }

    /** The translation tree of the current language. */
    function Table(): (table: Entry)
      reads this
    {
      if language == Fr then fr else en
    }

    /** The mount effect: adopt a stored language only if it is "fr" or "en". */
    method LoadSaved()
      modifies this
      ensures storage == old(storage)
      ensures var saved := ParseSaved(if StorageKey in storage then Some(storage[StorageKey]) else None);
        language == if saved.Some? then saved.value else old(language)
    {
      var saved := ParseSaved(if StorageKey in storage then Some(storage[StorageKey]) else None);
      if saved.Some? {
        language := saved.value;
      }
    }

    /** `setLanguage`: switch and remember the choice. */
    method SetLanguage(lang: Lang)
      modifies this
      ensures language == lang
      ensures storage == old(storage)[StorageKey := Code(lang)]
    {
      language := lang;
      storage := storage[StorageKey := Code(lang)];
    }

    /** `t`: walk the dotted key through the current language's tree only. */
    method T(key: string) returns (r: string)
      ensures r == Translate(Table(), key)
    {
      var keys := Split(key, '.');
      var value := Some(Table());
      for i := 0 to |keys|
        invariant Resolve(value, keys[i..]) == Resolve(Some(Table()), keys)
      {
        if value.Some? && value.value.Section? {
          var children := value.value.children;
          value := if keys[i] in children then Some(children[keys[i]]) else None;
        } else {
          return key;
        }
      }
      assert keys[|keys|..] == [];
      r := if value.Some? && value.value.Text? then value.value.text else key;
    }
  }
}
