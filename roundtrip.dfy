/** Saving and then loading: which texts come back as they were, which come
    back normalised, and which are lost, branch by branch. */
module RoundTrip {
  import opened Wrappers
  import opened Text
  import opened Json
  import opened Schema
  import opened SchemaFacts
  import opened Files
  import opened Compiler
  import opened CompilerFacts
  import opened SaveFacts
  import opened Loader
  import opened LoaderFacts

  // ---------------------------------------------------------------------------
  // What comes back

  /** The text a singleton field has after a save and a load: a blank field
      shows the seed's `id` or `name` (or stays blank), an image the base
      name of an existing file, a list its cleaned pieces joined with ", ",
      anything else its stripped text. */
  function SingletonText(mod: string, key: string, sources: map<string, Source>, field: string, v: string): string {
    var t := Strip(v);
    if t != "" then
      if IsImageField(field) then (if t in sources then Base(t) else t)
      else if IsListField(field) then JoinList(SplitList(t))
      else t
    else if field == "id" then "0"
    else if field == "name" then mod + " " + Capitalize(key)
    else ""
  }

  /** The texts a category has after its texts `vals` are saved and the
      document is loaded over the texts `prior`. */
  function RestoredRow(cat: Category, vals: seq<string>, mod: string, sources: map<string, Source>,
                       prior: seq<string>): (r: seq<string>)
    requires |vals| == |cat.fields| && |prior| == |vals|
    ensures |r| == |prior|
  {
    var fs := Filled(vals, |vals|);
    match KindOf(cat.key)
    case Singleton => seq(|prior|, i requires 0 <= i < |prior| => SingletonText(mod, cat.key, sources, cat.fields[i], vals[i]))
    case Shaders => ShaderTexts(vals, prior)
    case Theme => ThemeRestored(ThemeTexts(cat.fields, vals), prior)
    case PerField =>
      if fs == [] then prior else PositionalTexts(vals)
  }

  /** The colour texts after a save that parsed all of `texts`: each the
      decimal form of its number. */
  function ThemeRestored(texts: seq<string>, prior: seq<string>): (r: seq<string>)
    requires |texts| == |ThemeSlots|
    ensures |r| == |prior|
  {
    if forall i :: 0 <= i < |ThemeSlots| ==> ParseInt(texts[i]).Some? then
      seq(|prior|, i requires 0 <= i < |prior| => if i < |ThemeSlots| then IntToString(ThemeNumbers(texts)[i]) else prior[i])
    else prior
  }

  // ---------------------------------------------------------------------------
  // Singletons

  lemma SeedGet(mod: string, key: string, x: string)
    ensures Get(Seed(mod, key), x) ==
      if x == "id" then Some(JStr("0")) else if x == "name" then Some(JStr(mod + " " + Capitalize(key))) else None
  {
    var s := Seed(mod, key);
    assert s[1..] == [s[1]];
  }

  /** What one singleton field reads back. */
  lemma SingletonFieldRestored(mod: string, key: string, sources: map<string, Source>, field: string, v: string)
    ensures JoinedOr(if Strip(v) != "" then Some(SingletonValue(sources, field, Strip(v))) else Get(Seed(mod, key), field))
      == Some(SingletonText(mod, key, sources, field, v))
  {
    SeedGet(mod, key, field);
    if Strip(v) != "" && !IsImageField(field) && IsListField(field) {
      JoinedList(SplitList(Strip(v)));
    }
  }

  lemma RestoreSingleton(cat: Category, vals: seq<string>, mod: string, sources: map<string, Source>,
                         payload: seq<(string, J)>, prior: seq<string>)
    requires |vals| == |cat.fields| && |prior| == |vals| && DistinctFields(cat.fields) && KindOf(cat.key) == Singleton
    requires Get(payload, cat.key) == Some(JList(CategoryItems(cat, vals, mod, sources).value))
    ensures LoadCategory(payload, cat, prior) == Row(RestoredRow(cat, vals, mod, sources, prior), None)
  {
    SingletonAlwaysOne(cat, vals, mod, sources);
    var item := SingletonFields(mod, cat.key, sources, cat.fields, vals, |vals|);
    forall i | 0 <= i < |vals|
      ensures JoinedOr(Get(item, cat.fields[i])) == Some(SingletonText(mod, cat.key, sources, cat.fields[i], vals[i]))
    {
      SingletonGetField(mod, cat.key, sources, cat.fields, vals, |vals|, i);
      SingletonFieldRestored(mod, cat.key, sources, cat.fields[i], vals[i]);
    }
    SingletonRowAt(item, cat.fields, prior, |prior|);
    assert LoadCategory(payload, cat, prior) == SingletonRow(item, cat.fields, prior, |prior|);
  }

  // ---------------------------------------------------------------------------
  // Shaders

  /** The texts the shader list loads back: the i-th non-blank text into the
      i-th field, the fields past them untouched. */
  function ShaderTexts(vals: seq<string>, prior: seq<string>): (r: seq<string>)
    requires |prior| == |vals|
    ensures |r| == |prior|
  {
    var fs := Filled(vals, |vals|);
    seq(|prior|, i requires 0 <= i < |prior| => if i < |fs| then Strip(vals[fs[i]]) else prior[i])
  }

  lemma ShaderRowRestored(mod: string, vals: seq<string>, prior: seq<string>)
    requires |prior| == |vals|
    ensures var items := ShaderItems(mod, vals, |vals|);
      ShaderRow(items, prior, |items|) == Row(ShaderTexts(vals, prior), None)
  {
    var items := ShaderItems(mod, vals, |vals|);
    var fs := Filled(vals, |vals|);
    ShaderItemsAt(mod, vals, |vals|);
    forall i | 0 <= i < |items|
      ensures items[i].JObj? && StrOr(Get(items[i].fields, "path")) == Some(Strip(vals[fs[i]]))
    {
      GetSuffix(items[i].fields, 1, "path");
    }
    ShaderRowAt(items, prior, |items|);
  }

  lemma RestoreShaders(cat: Category, vals: seq<string>, mod: string, sources: map<string, Source>,
                       payload: seq<(string, J)>, prior: seq<string>)
    requires |vals| == |cat.fields| && |prior| == |vals| && KindOf(cat.key) == Shaders
    requires Get(payload, cat.key) == Some(JList(CategoryItems(cat, vals, mod, sources).value))
    ensures LoadCategory(payload, cat, prior) == Row(RestoredRow(cat, vals, mod, sources, prior), None)
  {
    var items := ShaderItems(mod, vals, |vals|);
    assert CategoryItems(cat, vals, mod, sources) == Success(items);
    assert RestoredRow(cat, vals, mod, sources, prior) == ShaderTexts(vals, prior);
    ShaderRowRestored(mod, vals, prior);
    if items == [] {
      ShaderItemsAt(mod, vals, |vals|);
      assert ShaderTexts(vals, prior) == prior;
    } else {
      assert LoadCategory(payload, cat, prior) == ShaderRow(items, prior, |items|);
    }
  }

  // ---------------------------------------------------------------------------
  // Per-field categories

  /** The texts a per-field category loads back once anything is stored:
      field i keeps its text when the i-th stored object is its own, and is
      blanked otherwise. */
  function PositionalTexts(vals: seq<string>): (r: seq<string>)
    ensures |r| == |vals|
  {
    var fs := Filled(vals, |vals|);
    seq(|vals|, i requires 0 <= i < |vals| => if i < |fs| && fs[i] == i then Strip(vals[i]) else "")
  }

  lemma FieldRowRestored(fields: seq<string>, vals: seq<string>, prior: seq<string>)
    requires |vals| == |fields| && |prior| == |vals| && DistinctFields(fields)
    ensures FieldRow(FieldItems(fields, vals, |vals|), fields, prior, |prior|) == Row(PositionalTexts(vals), None)
  {
    var items := FieldItems(fields, vals, |vals|);
    var r := FieldRow(items, fields, prior, |prior|);
    var p := PositionalTexts(vals);
    assert r.error.None? && forall i :: 0 <= i < |prior| ==> r.texts[i] == p[i] by {
      FieldItemsRead(fields, vals);
      FieldRowAt(items, fields, prior, |prior|);
    }
    assert r.texts == p;
  }

  /** The i-th stored object holds under the i-th field its own text when it
      comes from that field, and nothing otherwise. */
  lemma FieldItemsRead(fields: seq<string>, vals: seq<string>)
    requires |vals| == |fields| && DistinctFields(fields)
    ensures var items := FieldItems(fields, vals, |vals|); var fs := Filled(vals, |vals|);
      |items| == |fs| &&
      forall i :: 0 <= i < |items| ==>
        items[i].JObj? && JoinedOr(Get(items[i].fields, fields[i])) == Some(if fs[i] == i then Strip(vals[i]) else "")
  {
    var items := FieldItems(fields, vals, |vals|);
    var fs := Filled(vals, |vals|);
    FieldItemsAt(fields, vals, |vals|);
    forall i | 0 <= i < |items|
      ensures items[i].JObj? && JoinedOr(Get(items[i].fields, fields[i])) == Some(if fs[i] == i then Strip(vals[i]) else "")
    {
      var j := fs[i];
      assert items[i] == JObj([(fields[j], JStr(Strip(vals[j])))]);
      SingleKeyRead(fields, i, j, Strip(vals[j]));
    }
  }

  /** A single-key object read under the field `fields[i]`. */
  lemma SingleKeyRead(fields: seq<string>, i: nat, j: nat, x: string)
    requires i < |fields| && j < |fields| && DistinctFields(fields)
    ensures JoinedOr(Get([(fields[j], JStr(x))], fields[i])) == Some(if j == i then x else "")
  {
    var kvs := [(fields[j], JStr(x))];
    assert kvs[1..] == [];
  }

  lemma RestorePerField(cat: Category, vals: seq<string>, mod: string, sources: map<string, Source>,
                        payload: seq<(string, J)>, prior: seq<string>)
    requires |vals| == |cat.fields| && |prior| == |vals| && DistinctFields(cat.fields) && KindOf(cat.key) == PerField
    requires Get(payload, cat.key) == Some(JList(CategoryItems(cat, vals, mod, sources).value))
    ensures LoadCategory(payload, cat, prior) == Row(RestoredRow(cat, vals, mod, sources, prior), None)
  {
    var items := FieldItems(cat.fields, vals, |vals|);
    assert CategoryItems(cat, vals, mod, sources) == Success(items);
    FieldItemsAt(cat.fields, vals, |vals|);
    if items == [] {
      assert RestoredRow(cat, vals, mod, sources, prior) == prior;
    } else {
      assert RestoredRow(cat, vals, mod, sources, prior) == PositionalTexts(vals);
      FieldRowRestored(cat.fields, vals, prior);
      assert LoadCategory(payload, cat, prior) == FieldRow(items, cat.fields, prior, |prior|);
    }
  }

  // ---------------------------------------------------------------------------
  // Theme

  /** A stored colour group. */
  function Hsl(h: int, s: int, l: int): seq<(string, J)> {
    [("h", JInt(h)), ("s", JInt(s)), ("l", JInt(l))]
  }

  /** The four groups the loader reads from the saved theme item. */
  function SavedGroups(ns: seq<int>): seq<J>
    requires |ns| == |ThemeSlots|
  {
    [JObj(Hsl(ns[0], ns[1], ns[2])), JObj(Hsl(ns[3], ns[4], ns[5])), JObj(Hsl(ns[6], ns[7], ns[8])), JObj(Hsl(ns[9], ns[10], ns[11]))]
  }

  lemma HslGet(h: int, s: int, l: int)
    ensures Get(Hsl(h, s, l), "h") == Some(JInt(h))
    ensures Get(Hsl(h, s, l), "s") == Some(JInt(s))
    ensures Get(Hsl(h, s, l), "l") == Some(JInt(l))
  {
    GetSuffix(Hsl(h, s, l), 1, "s");
    GetSuffix(Hsl(h, s, l), 2, "l");
  }

  /** Each of the two modes of a saved theme item keeps both of its groups. */
  lemma ModeGroups(ns: seq<int>)
    requires |ns| == 6
    ensures Get(ModeObject(ns).fields, "gx_accent") == Some(JObj(Hsl(ns[0], ns[1], ns[2])))
    ensures Get(ModeObject(ns).fields, "gx_secondary_base") == Some(JObj(Hsl(ns[3], ns[4], ns[5])))
  {
    GetSuffix(ModeObject(ns).fields, 1, "gx_secondary_base");
  }

  /** The loader finds the four groups the compiler stored. */
  lemma ThemeGroups(mod: string, ns: seq<int>)
    requires |ns| == |ThemeSlots|
    ensures var theme := ThemeObject(mod, ns); var g := SavedGroups(ns);
      Group(theme, 0) == Success(g[0]) && Group(theme, 3) == Success(g[1]) &&
      Group(theme, 6) == Success(g[2]) && Group(theme, 9) == Success(g[3])
  {
    var theme := ThemeObject(mod, ns);
    GetSuffix(theme, 2, "dark");
    GetSuffix(theme, 3, "light");
    ModeGroups(ns[..6]);
    ModeGroups(ns[6..]);
  }

  /** Slot `i` of the saved groups holds the i-th number. */
  lemma SavedChannel(ns: seq<int>, i: nat)
    requires |ns| == |ThemeSlots| && i < |ThemeSlots|
    ensures SlotAt(ThemeSlots, SavedGroups(ns), i) == Success(IntToString(ns[i]))
  {
    SlotChannels(i);
    var lo := 3 * (i / 3);
    assert SavedGroups(ns)[i / 3] == JObj(Hsl(ns[lo], ns[lo + 1], ns[lo + 2]));
    HslGet(ns[lo], ns[lo + 1], ns[lo + 2]);
    assert i == lo || i == lo + 1 || i == lo + 2;
  }

  /** The theme item the compiler stored loads every colour field with the
      decimal text of its number. */
  lemma ThemeRowRestored(mod: string, ns: seq<int>, fields: seq<string>, prior: seq<string>)
    requires |ns| == |ThemeSlots| && |prior| == |fields| && |fields| == |ThemeSlots| && DistinctFields(fields)
    requires forall i :: 0 <= i < |ThemeSlots| ==> fields[i] == ThemeSlots[i].field
    ensures ThemeRow(ThemeObject(mod, ns), fields, prior) == Row(seq(|prior|, i requires 0 <= i < |prior| => IntToString(ns[i])), None)
  {
    ThemeGroups(mod, ns);
    assert ThemeRow(ThemeObject(mod, ns), fields, prior) == ThemeSlotsRow(ThemeSlots, SavedGroups(ns), fields, prior, |ThemeSlots|);
    SavedSlotsRow(ns, fields, prior);
  }

  /** The twelve slots read from the saved groups print the saved numbers. */
  lemma SavedSlotsRow(ns: seq<int>, fields: seq<string>, prior: seq<string>)
    requires |ns| == |ThemeSlots| && |prior| == |fields| && |fields| == |ThemeSlots| && DistinctFields(fields)
    requires forall i :: 0 <= i < |ThemeSlots| ==> fields[i] == ThemeSlots[i].field
    ensures ThemeSlotsRow(ThemeSlots, SavedGroups(ns), fields, prior, |ThemeSlots|) == Row(seq(|prior|, i requires 0 <= i < |prior| => IntToString(ns[i])), None)
  {
    var groups := SavedGroups(ns);
    var r := ThemeSlotsRow(ThemeSlots, groups, fields, prior, |ThemeSlots|);
    var want := seq(|prior|, i requires 0 <= i < |prior| => IntToString(ns[i]));
    forall i | 0 <= i < |ThemeSlots| ensures SlotAt(ThemeSlots, groups, i) == Success(IntToString(ns[i])) {
      SavedChannel(ns, i);
    }
    ThemeSlotsRowAt(ThemeSlots, groups, fields, prior, |ThemeSlots|);
    assert r.texts == want;
  }

  lemma RestoreTheme(cat: Category, vals: seq<string>, mod: string, sources: map<string, Source>,
                     payload: seq<(string, J)>, prior: seq<string>)
    requires |vals| == |cat.fields| && |prior| == |vals| && KindOf(cat.key) == Theme
    requires |cat.fields| == |ThemeSlots| && DistinctFields(cat.fields)
    requires forall i :: 0 <= i < |ThemeSlots| ==> cat.fields[i] == ThemeSlots[i].field
    requires CategoryItems(cat, vals, mod, sources).Success?
    requires Get(payload, cat.key) == Some(JList(CategoryItems(cat, vals, mod, sources).value))
    ensures LoadCategory(payload, cat, prior) == Row(RestoredRow(cat, vals, mod, sources, prior), None)
  {
    var texts := ThemeTexts(cat.fields, vals);
    ThemeOutcome(mod, cat.fields, vals);
    var ns := ThemeNumbers(texts);
    var theme := ThemeObject(mod, ns);
    assert CategoryItems(cat, vals, mod, sources) == Success([JObj(theme)]);
    LoadThemeItem(payload, cat, prior, theme);
    ThemeRowRestored(mod, ns, cat.fields, prior);
    ThemeRestoredParsed(texts, prior);
  }

  lemma ThemeRestoredParsed(texts: seq<string>, prior: seq<string>)
    requires |texts| == |ThemeSlots| && |prior| == |ThemeSlots|
    requires forall i :: 0 <= i < |ThemeSlots| ==> ParseInt(texts[i]).Some?
    ensures ThemeRestored(texts, prior) == seq(|prior|, i requires 0 <= i < |prior| => IntToString(ThemeNumbers(texts)[i]))
  {
  }

  /** A stored theme list is read from its first item. */
  lemma LoadThemeItem(payload: seq<(string, J)>, cat: Category, prior: seq<string>, theme: seq<(string, J)>)
    requires |prior| == |cat.fields| && KindOf(cat.key) == Theme
    requires Get(payload, cat.key) == Some(JList([JObj(theme)]))
    ensures LoadCategory(payload, cat, prior) == ThemeRow(theme, cat.fields, prior)
  {
  }

  // ---------------------------------------------------------------------------
  // A category, and the whole document

  /** What the theme branch needs of a table: its fields are the colour slots. */
  predicate SlotFields(cat: Category) {
    KindOf(cat.key) == Theme ==>
      |cat.fields| == |ThemeSlots| && forall i :: 0 <= i < |ThemeSlots| ==> cat.fields[i] == ThemeSlots[i].field
  }

  /** Any category the compiler stored without an error loads back its
      restored texts. */
  lemma RestoreCategory(cat: Category, vals: seq<string>, mod: string, sources: map<string, Source>,
                        payload: seq<(string, J)>, prior: seq<string>)
    requires |vals| == |cat.fields| && |prior| == |vals| && DistinctFields(cat.fields) && SlotFields(cat)
    requires CategoryItems(cat, vals, mod, sources).Success?
    requires Get(payload, cat.key) == Some(JList(CategoryItems(cat, vals, mod, sources).value))
    ensures LoadCategory(payload, cat, prior) == Row(RestoredRow(cat, vals, mod, sources, prior), None)
  {
    match KindOf(cat.key)
    case Singleton => RestoreSingleton(cat, vals, mod, sources, payload, prior);
    case Shaders => RestoreShaders(cat, vals, mod, sources, payload, prior);
    case Theme => RestoreTheme(cat, vals, mod, sources, payload, prior);
    case PerField => RestorePerField(cat, vals, mod, sources, payload, prior);
  }

  /** A document with string `name` and `description`, a `developer`
      object with a string `name`, and a `mod` object holding a `payload`
      object loads the general fields and then that payload. */
  lemma LoadDocument(cats: seq<Category>, doc: J, g: Form, name: string, dev: seq<(string, J)>, devName: string,
                     desc: string, m: seq<(string, J)>, payload: seq<(string, J)>)
    requires Shaped(cats, g.values) && doc.JObj?
    requires Get(doc.fields, "name") == Some(JStr(name)) && Get(doc.fields, "description") == Some(JStr(desc))
    requires Get(doc.fields, "developer") == Some(JObj(dev)) && Get(dev, "name") == Some(JStr(devName))
    requires Get(doc.fields, "mod") == Some(JObj(m)) && Get(m, "payload") == Some(JObj(payload))
    ensures Load(cats, doc, g) == LoadUpTo(cats, payload, g.(name := name, developer := devName, description := desc), |cats|)
  {
  }

  /** The keys the loader reads from the document the compiler writes. */
  lemma ManifestFields(f: Form, payload: seq<(string, J)>)
    ensures var doc := Manifest(f, payload);
      && Get(doc.fields, "name") == Some(JStr(ModName(f)))
      && Get(doc.fields, "description") == Some(JStr(TextOr(f.description, DefaultDescription)))
      && Get(doc.fields, "developer") == Some(JObj([("name", JStr(TextOr(f.developer, DefaultDeveloper)))]))
      && Get(doc.fields, "mod") == Some(JObj(ModSection(payload).fields))
      && Get(ModSection(payload).fields, "payload") == Some(JObj(payload))
  {
    var doc := Manifest(f, payload);
    GetSuffix(doc.fields, 1, "name");
    GetSuffix(doc.fields, 3, "description");
    GetSuffix(doc.fields, 4, "developer");
    GetSuffix(doc.fields, 6, "mod");
    GetSuffix(ModSection(payload).fields, 3, "payload");
  }

  /** Saving the form `f` and loading the document into any form `g` of the
      same table: the load meets no fault, the general fields come back as
      saved (stripped, defaults filled in) and every category comes back as
      its restored texts. */
  lemma {:induction false} SaveThenLoad(cats: seq<Category>, f: Form, current: Option<string>, d: Disk, g: Form)
    requires WellFormed(cats) && KeysOf(cats) == PayloadKeys && forall c :: 0 <= c < |cats| ==> SlotFields(cats[c])
    requires Shaped(cats, f.values) && Shaped(cats, g.values)
    requires BuildUpTo(cats, f, current, d, |cats|).error.None?
    ensures var r := Load(cats, Manifest(f, BuildUpTo(cats, f, current, d, |cats|).payload), g);
      && r.error.None?
      && r.form.name == ModName(f)
      && r.form.developer == TextOr(f.developer, DefaultDeveloper)
      && r.form.description == TextOr(f.description, DefaultDescription)
      && forall c :: 0 <= c < |cats| ==>
           r.form.values[c] == RestoredRow(cats[c], f.values[c], ModName(f), d.sources, g.values[c])
  {
    var payload := BuildUpTo(cats, f, current, d, |cats|).payload;
    var g3 := g.(name := ModName(f), developer := TextOr(f.developer, DefaultDeveloper),
                 description := TextOr(f.description, DefaultDescription));
    assert Load(cats, Manifest(f, payload), g) == LoadUpTo(cats, payload, g3, |cats|) by {
      ManifestFields(f, payload);
      LoadDocument(cats, Manifest(f, payload), g, ModName(f), [("name", JStr(TextOr(f.developer, DefaultDeveloper)))],
                   TextOr(f.developer, DefaultDeveloper), TextOr(f.description, DefaultDescription),
                   ModSection(payload).fields, payload);
    }
    assert forall c :: 0 <= c < |cats| ==>
      LoadCategory(payload, cats[c], g3.values[c]) == Row(RestoredRow(cats[c], f.values[c], ModName(f), d.sources, g.values[c]), None) by {
      CompletePayload(cats, f, current, d);
      forall c | 0 <= c < |cats|
        ensures LoadCategory(payload, cats[c], g3.values[c]) ==
          Row(RestoredRow(cats[c], f.values[c], ModName(f), d.sources, g.values[c]), None)
      {
        assert cats[c].key == PayloadKeys[c];
        RestoreCategory(cats[c], f.values[c], ModName(f), d.sources, payload, g.values[c]);
      }
    }
    LoadRows(cats, payload, g3, |cats|);
  }

  /** A save that completes leaves a document in the project folder, and
      loading that document into the form `g` meets no fault, brings back the
      general fields as saved and every category as its restored texts. */
  ghost predicate Reopens(cats: seq<Category>, projectsDir: string, f: Form, current: Option<string>, d: Disk, g: Form)
    requires Shaped(cats, f.values) && Shaped(cats, g.values)
  {
    var s := Save(cats, projectsDir, f, current, d);
    s.error.None? ==>
      && s.current.Some? && s.current.value in s.disk.folders && s.disk.folders[s.current.value].manifest.Some?
      && var r := Load(cats, s.disk.folders[s.current.value].manifest.value, g);
         && r.error.None?
         && r.form.name == ModName(f)
         && r.form.developer == TextOr(f.developer, DefaultDeveloper)
         && r.form.description == TextOr(f.description, DefaultDescription)
         && forall c :: 0 <= c < |cats| ==>
              r.form.values[c] == RestoredRow(cats[c], f.values[c], ModName(f), d.sources, g.values[c])
  }

  /** The table the program uses: a save that completes leaves a document in
      the project folder, and opening that folder again restores the form. */
  lemma ReopenSaved(projectsDir: string, f: Form, current: Option<string>, d: Disk, g: Form)
    requires Shaped(PayloadOptions, f.values) && Shaped(PayloadOptions, g.values)
    ensures Reopens(PayloadOptions, projectsDir, f, current, d, g)
  {
    TableFitsRoundTrip();
    Reopen(PayloadOptions, projectsDir, f, current, d, g);
  }

  /** The program's table meets what `SaveThenLoad` asks of a table. */
  lemma TableFitsRoundTrip()
    ensures WellFormed(PayloadOptions) && KeysOf(PayloadOptions) == PayloadKeys
    ensures forall c :: 0 <= c < |PayloadOptions| ==> SlotFields(PayloadOptions[c])
  {
    PayloadOptionsWellFormed();
    PayloadKeysAreTableKeys();
    KindsOfTable();
    ThemeFieldsAreSlots();
    forall c | 0 <= c < |PayloadOptions| ensures SlotFields(PayloadOptions[c]) {
      assert c in {0, 1, 2, 10, 11} || c == 9 || c == 12 || c in {3, 4, 5, 6, 7, 8};
    }
  }

  /** `ReopenSaved` over any table `SaveThenLoad` applies to. */
  lemma Reopen(cats: seq<Category>, projectsDir: string, f: Form, current: Option<string>, d: Disk, g: Form)
    requires WellFormed(cats) && KeysOf(cats) == PayloadKeys && forall c :: 0 <= c < |cats| ==> SlotFields(cats[c])
    requires Shaped(cats, f.values) && Shaped(cats, g.values)
    ensures Reopens(cats, projectsDir, f, current, d, g)
  {
    var s := Save(cats, projectsDir, f, current, d);
    if s.error.None? {
      SaveAborted(cats, projectsDir, f, current, d);
      SaveCompleted(cats, projectsDir, f, current, d);
      SaveThenLoad(cats, f, current, d, g);
    }
  }

  // ---------------------------------------------------------------------------
  // What the round trip keeps

  /** Stripped texts, field by field. */
  function Stripped(vals: seq<string>): (r: seq<string>)
    ensures |r| == |vals| && forall i :: 0 <= i < |vals| ==> r[i] == Strip(vals[i])
  {
    seq(|vals|, i requires 0 <= i < |vals| => Strip(vals[i]))
  }

  /** No filled field comes after a blank one. */
  predicate BlanksTrail(vals: seq<string>) {
    forall i, j :: 0 <= i < j < |vals| && Strip(vals[i]) == "" ==> Strip(vals[j]) == ""
  }

  /** A per-field category with something stored loads back its own
      (stripped) texts exactly when its filled fields come before all its
      blank ones; a gap moves later texts onto earlier fields' slots and
      they are lost. */
  lemma PositionalRoundTrip(vals: seq<string>)
    ensures PositionalTexts(vals) == Stripped(vals) <==> BlanksTrail(vals)
  {
    var fs := Filled(vals, |vals|);
    if BlanksTrail(vals) {
      forall i | 0 <= i < |vals| ensures PositionalTexts(vals)[i] == Stripped(vals)[i] {
        if Strip(vals[i]) != "" {
          FilledAt(vals, i);
        }
      }
    }
    if PositionalTexts(vals) == Stripped(vals) {
      forall i, j | 0 <= i < j < |vals| && Strip(vals[i]) == "" ensures Strip(vals[j]) == "" {
        if Strip(vals[j]) != "" {
          assert PositionalTexts(vals)[j] == Strip(vals[j]);
          FilledAt(vals, j);
        }
      }
    }
  }

  /** A filled singleton field that is not an image is stored the same way
      again when its restored text is saved; only a list field whose text
      holds no item comes back blank. */
  lemma SingletonResaveStable(mod: string, key: string, sources: map<string, Source>, field: string, v: string)
    requires Strip(v) != "" && !IsImageField(field)
    ensures var t := Strip(SingletonText(mod, key, sources, field, v));
      && (t == "" <==> IsListField(field) && SplitList(Strip(v)) == [])
      && (t != "" ==> SingletonValue(sources, field, t) == SingletonValue(sources, field, Strip(v)))
  {
    var t := Strip(v);
    StripFixed(t);
    if IsListField(field) {
      JoinListStripped(SplitList(t));
      StripFixed(JoinList(SplitList(t)));
      SplitListIdempotent(t);
    }
  }

  /** A filled image field reads back as the base name of the file when the
      file exists, and as its own text otherwise; it is stored the same way
      again unless the base name of an existing file is empty or has
      surrounding whitespace. */
  lemma ImageResaveStable(mod: string, key: string, sources: map<string, Source>, field: string, v: string)
    requires Strip(v) != "" && IsImageField(field)
    ensures var s := Strip(v); var t := Strip(SingletonText(mod, key, sources, field, v));
      && (s !in sources ==> t == s)
      && (s in sources ==> t == Strip(Base(s)))
      && ((s !in sources || (Base(s) != "" && IsStripped(Base(s)))) ==>
            SingletonValue(sources, field, t) == SingletonValue(sources, field, s))
  {
    var s := Strip(v);
    assert SingletonText(mod, key, sources, field, v) == if s in sources then Base(s) else s;
    if s in sources {
      if Base(s) != "" && IsStripped(Base(s)) {
        StripFixed(Base(s));
        BaseOfPlainName(Base(s));
        assert SingletonValue(sources, field, Base(s)) == JStr(Base(s));
      }
    } else {
      StripFixed(s);
    }
  }

  /** Every colour text that was saved reads back as the same number. */
  lemma ThemeReparses(texts: seq<string>, prior: seq<string>)
    requires |texts| == |ThemeSlots| && |prior| == |ThemeSlots|
    requires forall i :: 0 <= i < |ThemeSlots| ==> ParseInt(texts[i]).Some?
    ensures forall i :: 0 <= i < |ThemeSlots| ==>
      IsStripped(ThemeRestored(texts, prior)[i]) && ParseInt(ThemeRestored(texts, prior)[i]) == ParseInt(texts[i])
  {
    ThemeRestoredParsed(texts, prior);
    forall i | 0 <= i < |ThemeSlots|
      ensures IsStripped(ThemeRestored(texts, prior)[i]) && ParseInt(ThemeRestored(texts, prior)[i]) == ParseInt(texts[i])
    {
      IntRoundTrip(ThemeNumbers(texts)[i]);
    }
  }
}
