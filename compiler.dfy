/** The manifest compiler (`save_manifest`): from the text of the form to the
    manifest document, through the four branches the categories take, with
    image ingestion on the way and the folder and manifest writes at the end. */
module Compiler {
  import opened Wrappers
  import opened Text
  import opened Json
  import opened Schema
  import opened Files
  import opened Imaging

  /** The text of every line edit: the three general fields and, per
      category of the table, one text per field in the table's order. */
  datatype Form = Form(name: string, developer: string, description: string, values: seq<seq<string>>)

  /** `values` has one row per category and one text per field. */
  predicate Shaped(cats: seq<Category>, values: seq<seq<string>>) {
    |values| == |cats| && forall c :: 0 <= c < |cats| ==> |values[c]| == |cats[c].fields|
  }

  // ---------------------------------------------------------------------------
  // General fields

  const DefaultName := "My GX Mod"
  const DefaultDeveloper := "Anonymous"
  const DefaultDescription := "A custom Opera GX mod."

  /** `text.strip() or default`. */
  function TextOr(text: string, default: string): (r: string)
    requires default != "" && IsStripped(default)
    ensures r != "" && IsStripped(r)
    ensures Strip(text) != "" ==> r == Strip(text)
    ensures Strip(text) == "" ==> r == default
  {
    OrElse(Strip(text), default)
  }

  function ModName(f: Form): string {
    TextOr(f.name, DefaultName)
  }

  // ---------------------------------------------------------------------------
  // Singleton categories

  /** The item every singleton category starts from. */
  function Seed(mod: string, key: string): seq<(string, J)> {
    [("id", JStr("0")), ("name", JStr(mod + " " + Capitalize(key)))]
  }

  /** What a non-blank singleton field stores: the base name of an existing
      image, the cleaned list of a list field, the text itself otherwise. */
  function SingletonValue(sources: map<string, Source>, field: string, t: string): (r: J)
    ensures r.JStr? || (r.JList? && forall i :: 0 <= i < |r.items| ==> r.items[i].JStr?)
    ensures IsImageField(field) ==> r.JStr? && EndsWith(t, r.s)
  {
    if IsImageField(field) then JStr(if t in sources then Base(t) else t)
    else if IsListField(field) then JList(Strs(SplitList(t)))
    else JStr(t)
  }

  /** The item after the first `k` fields: each non-blank field is assigned
      into the seeded item, in field order. */
  function SingletonFields(mod: string, key: string, sources: map<string, Source>,
                           fields: seq<string>, vals: seq<string>, k: nat): seq<(string, J)>
    requires k <= |fields| && |vals| == |fields|
  {
    if k == 0 then Seed(mod, key)
    else
      var prev := SingletonFields(mod, key, sources, fields, vals, k - 1);
      var t := Strip(vals[k - 1]);
      if t == "" then prev else Put(prev, fields[k - 1], SingletonValue(sources, fields[k - 1], t))
  }

  /** The second dotted part of a field name, `field.split('.')[1]`. */
  function SubCategory(field: string): string {
    var parts := Split(field, '.');
    if |parts| > 1 then parts[1] else ""
  }

  /** The image fields of a singleton category ingested in field order; the
      first failure aborts. */
  function IngestFields(d: Disk, current: Option<string>, key: string,
                        fields: seq<string>, vals: seq<string>, k: nat): Result<Disk, SaveError>
    requires k <= |fields| && |vals| == |fields|
  {
    if k == 0 then Success(d)
    else
      match IngestFields(d, current, key, fields, vals, k - 1)
      case Failure(e) => Failure(e)
      case Success(d1) =>
        var t := Strip(vals[k - 1]);
        if t != "" && IsImageField(fields[k - 1]) then HandleImage(d1, current, t, key, SubCategory(fields[k - 1]))
        else Success(d1)
  }

  // ---------------------------------------------------------------------------
  // Shaders and the per-field categories

  /** One shader per non-blank field, in field order. */
  function ShaderItems(mod: string, vals: seq<string>, k: nat): seq<J>
    requires k <= |vals|
  {
    if k == 0 then []
    else
      var prev := ShaderItems(mod, vals, k - 1);
      var t := Strip(vals[k - 1]);
      if t == "" then prev else prev + [JObj([("name", JStr(mod + " Shader")), ("path", JStr(t))])]
  }

  /** One single-key object per non-blank field, in field order. */
  function FieldItems(fields: seq<string>, vals: seq<string>, k: nat): seq<J>
    requires k <= |fields| && |vals| == |fields|
  {
    if k == 0 then []
    else
      var prev := FieldItems(fields, vals, k - 1);
      var t := Strip(vals[k - 1]);
      if t == "" then prev else prev + [JObj([(fields[k - 1], JStr(t))])]
  }

  // ---------------------------------------------------------------------------
  // Theme

  /** `entries.get(name, QLineEdit()).text()`: the text of the named field,
      or blank when the category has no such field. */
  function Lookup(fields: seq<string>, vals: seq<string>, name: string): string
    requires |vals| == |fields|
  {
    if fields == [] then ""
    else if fields[0] == name then vals[0]
    else Lookup(fields[1..], vals[1..], name)
  }

  /** The twelve colour texts, each `strip() or` its default. */
  function ThemeTexts(fields: seq<string>, vals: seq<string>): (r: seq<string>)
    requires |vals| == |fields|
    ensures |r| == |ThemeSlots|
  {
    seq(|ThemeSlots|, i requires 0 <= i < |ThemeSlots| =>
      OrElse(Strip(Lookup(fields, vals, ThemeSlots[i].field)), ThemeSlots[i].textDefault))
  }

  /** `int()` of `texts[lo..k]` in order; the first text that does not parse
      names its slot's field. */
  function ParseRange(texts: seq<string>, lo: nat, k: nat): Result<seq<int>, SaveError>
    requires lo <= k <= |texts| <= |ThemeSlots|
  {
    if k == lo then Success([])
    else
      match ParseRange(texts, lo, k - 1)
      case Failure(e) => Failure(e)
      case Success(ns) =>
        match ParseInt(texts[k - 1])
        case None => Failure(NotANumber(ThemeSlots[k - 1].field))
        case Some(n) => Success(ns + [n])
  }

  /** `{"gx_accent": {h, s, l}, "gx_secondary_base": {h, s, l}}`. */
  function ModeObject(ns: seq<int>): J
    requires |ns| == 6
  {
    JObj([("gx_accent", JObj([("h", JInt(ns[0])), ("s", JInt(ns[1])), ("l", JInt(ns[2]))])),
          ("gx_secondary_base", JObj([("h", JInt(ns[3])), ("s", JInt(ns[4])), ("l", JInt(ns[5]))]))])
  }

  /** One mode of the theme: present when any of its six texts is non-blank,
      and then all six must parse. */
  function ModePart(texts: seq<string>, lo: nat): Result<Option<J>, SaveError>
    requires lo + 6 <= |texts| <= |ThemeSlots|
  {
    if exists i :: lo <= i < lo + 6 && texts[i] != "" then
      match ParseRange(texts, lo, lo + 6)
      case Failure(e) => Failure(e)
      case Success(ns) => if |ns| == 6 then Success(Some(ModeObject(ns))) else Success(None)
    else Success(None)
  }

  /** The theme branch: at most one item, named after the mod. */
  function ThemeItems(mod: string, fields: seq<string>, vals: seq<string>): Result<seq<J>, SaveError>
    requires |vals| == |fields|
  {
    ThemeFrom(mod, ThemeTexts(fields, vals))
  }

  /** The theme branch over its twelve colour texts. */
  function ThemeFrom(mod: string, texts: seq<string>): Result<seq<J>, SaveError>
    requires |texts| == |ThemeSlots|
  {
    match ModePart(texts, 0)
    case Failure(e) => Failure(e)
    case Success(dark) =>
      match ModePart(texts, 6)
      case Failure(e) => Failure(e)
      case Success(light) => Success(AssembleTheme(mod, dark, light))
  }

  /** The theme item from the modes present; kept when either is truthy. */
  function AssembleTheme(mod: string, dark: Option<J>, light: Option<J>): seq<J> {
    var theme := [("id", JStr("0")), ("name", JStr(mod + " Theme"))]
      + (if dark.Some? then [("dark", dark.value)] else [])
      + (if light.Some? then [("light", light.value)] else []);
    if TruthyEntry(theme, "dark") || TruthyEntry(theme, "light") then [JObj(theme)] else []
  }

  /** `d.get(k)` is truthy. */
  predicate TruthyEntry(kvs: seq<(string, J)>, k: string) {
    Get(kvs, k).Some? && Truthy(Get(kvs, k).value)
  }

  // ---------------------------------------------------------------------------
  // Categories and the payload

  /** The items one category contributes to its payload list. */
  function CategoryItems(cat: Category, vals: seq<string>, mod: string, sources: map<string, Source>): (r: Result<seq<J>, SaveError>)
    requires |vals| == |cat.fields|
    ensures r.Failure? ==> KindOf(cat.key) == Theme
    ensures r.Success? && (KindOf(cat.key) == Singleton || KindOf(cat.key) == Theme) ==> |r.value| <= 1
  {
    match KindOf(cat.key)
    case Singleton =>
      var item := SingletonFields(mod, cat.key, sources, cat.fields, vals, |vals|);
      Success(if AnyTruthy(item) then [JObj(item)] else [])
    case Shaders => Success(ShaderItems(mod, vals, |vals|))
    case Theme => ThemeItems(mod, cat.fields, vals)
    case PerField => Success(FieldItems(cat.fields, vals, |vals|))
  }

  /** The payload keys the document starts with, each mapped to `[]`. */
  const PayloadKeys: seq<string> := ["app_icon", "wallpaper", "background_music", "browser_sounds", "keyboard_sounds",
    "fonts", "image_overrides", "mobile_image_overrides", "page_styles", "shaders", "splash_screen", "stickers", "theme"]

  function InitialPayload(): seq<(string, J)> {
    seq(|PayloadKeys|, i requires 0 <= i < |PayloadKeys| => (PayloadKeys[i], JList([])))
  }

  /** The list elements of a stored value, `[]` for anything else. */
  function ListItems(v: Option<J>): seq<J> {
    if v.Some? && v.value.JList? then v.value.items else []
  }

  /** Appending `items` to `payload[key]`, creating the key on the first
      append when it is missing. */
  function Extend(payload: seq<(string, J)>, key: string, items: seq<J>): seq<(string, J)> {
    if items == [] then payload else Put(payload, key, JList(ListItems(Get(payload, key)) + items))
  }

  /** The state of the compiler after some categories. */
  datatype Build = Build(payload: seq<(string, J)>, disk: Disk, error: Option<SaveError>)

  /** One category: ingestion of its images (singletons only), then its items. */
  function Step(prev: Build, cat: Category, vals: seq<string>, mod: string, current: Option<string>,
                sources: map<string, Source>): Build
    requires |vals| == |cat.fields|
  {
    var ingested := if KindOf(cat.key) == Singleton then IngestFields(prev.disk, current, cat.key, cat.fields, vals, |vals|)
                    else Success(prev.disk);
    match ingested
    case Failure(e) => prev.(error := Some(e))
    case Success(d1) =>
      match CategoryItems(cat, vals, mod, sources)
      case Failure(e) => Build(prev.payload, d1, Some(e))
      case Success(items) => Build(Extend(prev.payload, cat.key, items), d1, None)
  }

  /** The compiler after the first `n` categories; an error stops it. */
  function BuildUpTo(cats: seq<Category>, f: Form, current: Option<string>, d: Disk, n: nat): Build
    requires n <= |cats| && Shaped(cats, f.values)
  {
    if n == 0 then Build(InitialPayload(), d, None)
    else
      var prev := BuildUpTo(cats, f, current, d, n - 1);
      if prev.error.Some? then prev
      else Step(prev, cats[n - 1], f.values[n - 1], ModName(f), current, d.sources)
  }

  // ---------------------------------------------------------------------------
  // The document and the save

  const ManifestVersion := 3
  const Version := "1.0"
  const SchemaVersion := 2
  const FlavorHash := "74be16979710d4c4e7c6647856088456"
  const ParentHash := "d41d8cd98f00b204e9800998ecf8427e"
  const UpdateUrl := "https://api.gx.me/store/mods/update"

  /** The manifest around a payload. */
  function Manifest(f: Form, payload: seq<(string, J)>): J {
    JObj([
      ("manifest_version", JInt(ManifestVersion)),
      ("name", JStr(ModName(f))),
      ("version", JStr(Version)),
      ("description", JStr(TextOr(f.description, DefaultDescription))),
      ("developer", JObj([("name", JStr(TextOr(f.developer, DefaultDeveloper)))])),
      ("icons", JObj([("512", JStr("icon_512.png"))])),
      ("mod", ModSection(payload)),
      ("update_url", JStr(UpdateUrl))])
  }

  /** The document's `mod` object. */
  function ModSection(payload: seq<(string, J)>): J {
    JObj([
      ("schema_version", JInt(SchemaVersion)),
      ("flavor", Flavor()),
      ("license", JStr("license.txt")),
      ("payload", JObj(payload))])
  }

  function Flavor(): J {
    JObj([("features", JList([])), ("hash", JStr(FlavorHash)), ("parent_hash", JStr(ParentHash))])
  }

  /** The folder a mod name maps to: `<projects>/<name with _ for spaces>_Mod`. */
  function FolderFor(projectsDir: string, name: string): (r: string)
    ensures EndsWith(r, ReplaceSpaces(name) + "_Mod")
  {
    JoinPath(projectsDir, ReplaceSpaces(name) + "_Mod")
  }

  /** The sub-directories made after the first `k`. */
  function WithSubdirs(d: Disk, folder: string, k: nat): (r: Disk)
    requires folder in d.folders && k <= |Subdirs|
    ensures r.sources == d.sources && r.folders.Keys == d.folders.Keys
    ensures r.folders[folder].manifest == d.folders[folder].manifest
    ensures forall q :: q in d.folders && q != folder ==> r.folders[q] == d.folders[q]
  {
    if k == 0 then d else PutEntry(WithSubdirs(d, folder, k - 1), folder, Subdirs[k - 1], Directory)
  }

  /** The outcome of a save: the project folder afterwards, the disk, and the
      error that aborted it, if any. */
  datatype Saved = Saved(current: Option<string>, disk: Disk, error: Option<SaveError>)

  function Save(cats: seq<Category>, projectsDir: string, f: Form, current: Option<string>, d: Disk): Saved
    requires Shaped(cats, f.values)
  {
    var b := BuildUpTo(cats, f, current, d, |cats|);
    if b.error.Some? then Saved(current, b.disk, b.error)
    else
      var folder := if current.Some? then current.value else FolderFor(projectsDir, ModName(f));
      var d1 := WithSubdirs(MakeDirs(b.disk, folder), folder, |Subdirs|);
      Saved(Some(folder), PutManifest(d1, folder, Manifest(f, b.payload)), None)
  }
}
