/** The manifest loader (`load_manifest`): from a stored document back to
    the text of the form, category by category in table order. Each line
    edit is set as soon as its value is read, so a document of the wrong
    shape leaves the fields read before the fault set. The theme fetches
    its four colour groups before it sets any field, and a group of the
    wrong shape raises only when its first channel is read. */
module Loader {
  import opened Wrappers
  import opened Text
  import opened Json
  import opened Schema
  import opened Compiler

  /** Why a load stops: a key read with `[...]` that is missing, or a value
      of a type the code cannot use there (a `.get` on a non-object, an index
      into a non-list, a non-string handed to `setText`). */
  datatype LoadError = KeyMissing(key: string) | WrongShape(at: string)

  /** The texts of one category after loading it, and the fault that stopped
      it, if any. */
  datatype Row = Row(texts: seq<string>, error: Option<LoadError>)

  /** The strings of a list whose elements are all strings. */
  function StrsOf(items: seq<J>): (r: Option<seq<string>>)
    ensures r.Some? ==> |r.value| == |items| && forall i :: 0 <= i < |items| ==> items[i] == JStr(r.value[i])
    ensures r.None? ==> exists i :: 0 <= i < |items| && !items[i].JStr?
  {
    if items == [] then Some([])
    else if !items[0].JStr? then None
    else
      match StrsOf(items[1..])
      case None => None
      case Some(rest) => Some([items[0].s] + rest)
  }

  /** What `setText` accepts of `d.get(k, "")`: a string, or nothing there. */
  function StrOr(v: Option<J>): Option<string> {
    match v
    case None => Some("")
    case Some(JStr(s)) => Some(s)
    case Some(_) => None
  }

  /** The same after `", ".join(value)` of a list value. */
  function JoinedOr(v: Option<J>): Option<string> {
    match v
    case Some(JList(items)) =>
      (match StrsOf(items)
       case None => None
       case Some(xs) => Some(JoinList(xs)))
    case _ => StrOr(v)
  }

  // ---------------------------------------------------------------------------
  // Singletons

  /** The first `k` fields read from the category's first item. */
  function SingletonRow(item: seq<(string, J)>, fields: seq<string>, prior: seq<string>, k: nat): (r: Row)
    requires |prior| == |fields| && k <= |fields|
    ensures |r.texts| == |prior|
  {
    if k == 0 then Row(prior, None)
    else
      var p := SingletonRow(item, fields, prior, k - 1);
      if p.error.Some? then p
      else
        match JoinedOr(Get(item, fields[k - 1]))
        case None => Row(p.texts, Some(WrongShape(fields[k - 1])))
        case Some(t) => Row(p.texts[k - 1 := t], None)
  }

  // ---------------------------------------------------------------------------
  // Shaders

  /** The first `k` stored shaders, the i-th into the i-th field; those past
      the last field are not looked at. */
  function ShaderRow(data: seq<J>, prior: seq<string>, k: nat): (r: Row)
    requires k <= |data|
    ensures |r.texts| == |prior|
  {
    if k == 0 then Row(prior, None)
    else
      var p := ShaderRow(data, prior, k - 1);
      if p.error.Some? || k - 1 >= |prior| then p
      else
        match data[k - 1]
        case JObj(kvs) =>
          (match StrOr(Get(kvs, "path"))
           case None => Row(p.texts, Some(WrongShape("path")))
           case Some(t) => Row(p.texts[k - 1 := t], None))
        case _ => Row(p.texts, Some(WrongShape("shaders")))
  }

  // ---------------------------------------------------------------------------
  // Per-field categories

  /** The first `k` fields, the i-th read from the i-th stored object and
      blanked when there is none. */
  function FieldRow(data: seq<J>, fields: seq<string>, prior: seq<string>, k: nat): (r: Row)
    requires |prior| == |fields| && k <= |fields|
    ensures |r.texts| == |prior|
  {
    if k == 0 then Row(prior, None)
    else
      var p := FieldRow(data, fields, prior, k - 1);
      if p.error.Some? then p
      else if k - 1 >= |data| then Row(p.texts[k - 1 := ""], None)
      else
        match data[k - 1]
        case JObj(kvs) =>
          (match JoinedOr(Get(kvs, fields[k - 1]))
           case None => Row(p.texts, Some(WrongShape(fields[k - 1])))
           case Some(t) => Row(p.texts[k - 1 := t], None))
        case _ => Row(p.texts, Some(WrongShape(fields[k - 1])))
  }

  // ---------------------------------------------------------------------------
  // Theme

  /** The object the loader falls back on for the group whose first slot is
      `lo`: its three channels at their numeric defaults. */
  function GroupDefault(lo: nat): seq<(string, J)>
    requires lo + 3 <= |ThemeSlots|
  {
    [("h", JInt(ThemeSlots[lo].numberDefault)), ("s", JInt(ThemeSlots[lo + 1].numberDefault)),
     ("l", JInt(ThemeSlots[lo + 2].numberDefault))]
  }

  /** `theme.get(mode, {}).get(group, default)` for the group whose first
      slot is `lo`. Only a stored mode that is not an object raises here;
      the group itself may be any value, and a group that is not an object
      raises only when its first channel is read. */
  function Group(theme: seq<(string, J)>, lo: nat): (r: Result<J, LoadError>)
    requires lo + 3 <= |ThemeSlots|
    ensures r.Failure? <==> Get(theme, ThemeSlots[lo].mode).Some? && !Get(theme, ThemeSlots[lo].mode).value.JObj?
    ensures r.Failure? ==> r.error == WrongShape(ThemeSlots[lo].mode)
  {
    var mode := ThemeSlots[lo].mode;
    var m := Get(theme, mode);
    if m.Some? && !m.value.JObj? then Failure(WrongShape(mode))
    else
      var kvs := if m.Some? then m.value.fields else [];
      match Get(kvs, ThemeSlots[lo].group)
      case None => Success(JObj(GroupDefault(lo)))
      case Some(g) => Success(g)
  }

  /** `str(v)` of a stored channel: strings as they are, integers in decimal. */
  function StrOf(v: J): Option<string> {
    match v
    case JStr(s) => Some(s)
    case JInt(n) => Some(IntToString(n))
    case _ => None
  }

  /** `entries.get(name, QLineEdit()).setText(t)`: sets the field called
      `name`, or nothing when the category has none. */
  function SetNamed(fields: seq<string>, texts: seq<string>, name: string, t: string): (r: seq<string>)
    requires |texts| == |fields|
    ensures |r| == |texts|
  {
    if fields == [] then texts
    else if fields[0] == name then [t] + texts[1..]
    else [texts[0]] + SetNamed(fields[1..], texts[1..], name, t)
  }

  /** `str(group.get(channel, default))` for one slot: a group that is not
      an object raises on the `.get`, and a channel `str()` cannot show
      raises too. */
  function SlotText(group: J, slot: ThemeSlot): Result<string, LoadError> {
    if !group.JObj? then Failure(WrongShape(slot.group))
    else
      var v := Get(group.fields, slot.channel);
      match StrOf(if v.Some? then v.value else JInt(slot.numberDefault))
      case None => Failure(WrongShape(slot.field))
      case Some(t) => Success(t)
  }

  /** The first `k` colour slots of `slots` written from the four groups,
      three slots to a group; the first slot that raises stops the row with
      the slots before it set. */
  function ThemeSlotsRow(slots: seq<ThemeSlot>, groups: seq<J>, fields: seq<string>, prior: seq<string>,
                         k: nat): (r: Row)
    requires |groups| == 4 && |prior| == |fields| && k <= |slots| <= 12
    ensures |r.texts| == |prior|
  {
    if k == 0 then Row(prior, None)
    else
      var p := ThemeSlotsRow(slots, groups, fields, prior, k - 1);
      var slot := slots[k - 1];
      if p.error.Some? then p
      else
        match SlotText(groups[(k - 1) / 3], slot)
        case Failure(e) => Row(p.texts, Some(e))
        case Success(t) => Row(SetNamed(fields, p.texts, slot.field, t), None)
  }

  /** The theme from its first item: the four groups are fetched first (a
      mode that is not an object raises before any field is set), then the
      twelve channels in order. */
  function ThemeRow(theme: seq<(string, J)>, fields: seq<string>, prior: seq<string>): (r: Row)
    requires |prior| == |fields|
    ensures |r.texts| == |prior|
  {
    match Group(theme, 0)
    case Failure(e) => Row(prior, Some(e))
    case Success(g0) =>
      match Group(theme, 3)
      case Failure(e) => Row(prior, Some(e))
      case Success(g1) =>
        match Group(theme, 6)
        case Failure(e) => Row(prior, Some(e))
        case Success(g2) =>
          match Group(theme, 9)
          case Failure(e) => Row(prior, Some(e))
          case Success(g3) => ThemeSlotsRow(ThemeSlots, [g0, g1, g2, g3], fields, prior, |ThemeSlots|)
  }

  // ---------------------------------------------------------------------------
  // Categories and the document

  /** `payload.get(key, [])`. */
  function DataOf(payload: seq<(string, J)>, key: string): J {
    match Get(payload, key)
    case None => JList([])
    case Some(v) => v
  }

  /** One category of the table loaded over its current texts `prior`; a
      category whose stored value is empty or missing is skipped. */
  function LoadCategory(payload: seq<(string, J)>, cat: Category, prior: seq<string>): (r: Row)
    requires |prior| == |cat.fields|
    ensures |r.texts| == |prior|
  {
    var data := DataOf(payload, cat.key);
    if !Truthy(data) then Row(prior, None)
    else if !data.JList? then Row(prior, Some(WrongShape(cat.key)))
    else
      match KindOf(cat.key)
      case Singleton =>
        (match data.items[0]
         case JObj(item) => SingletonRow(item, cat.fields, prior, |prior|)
         case _ => Row(prior, Some(WrongShape(cat.key))))
      case Shaders => ShaderRow(data.items, prior, |data.items|)
      case Theme =>
        (match data.items[0]
         case JObj(theme) => ThemeRow(theme, cat.fields, prior)
         case _ => Row(prior, Some(WrongShape(cat.key))))
      case PerField => FieldRow(data.items, cat.fields, prior, |prior|)
  }

  /** The form after loading, and the fault that stopped the load, if any. */
  datatype Loaded = Loaded(form: Form, error: Option<LoadError>)

  /** The first `n` categories loaded in table order; a fault stops the load
      with the faulty category's partial texts kept. */
  function LoadUpTo(cats: seq<Category>, payload: seq<(string, J)>, f: Form, n: nat): (r: Loaded)
    requires n <= |cats| && Shaped(cats, f.values)
    ensures Shaped(cats, r.form.values)
    ensures r.form.name == f.name && r.form.developer == f.developer && r.form.description == f.description
  {
    if n == 0 then Loaded(f, None)
    else
      var p := LoadUpTo(cats, payload, f, n - 1);
      if p.error.Some? then p
      else
        var row := LoadCategory(payload, cats[n - 1], p.form.values[n - 1]);
        Loaded(p.form.(values := p.form.values[n - 1 := row.texts]), row.error)
  }

  /** `manifest[key]` where a missing key raises. */
  function Field(kvs: seq<(string, J)>, key: string): Result<J, LoadError> {
    match Get(kvs, key)
    case None => Failure(KeyMissing(key))
    case Some(v) => Success(v)
  }

  /** `load_manifest` on the document `doc` over the form `f`: the name, the
      developer (`manifest["developer"]["name"]`), the description, then the
      payload (`manifest["mod"]["payload"]`) category by category. */
  function Load(cats: seq<Category>, doc: J, f: Form): (r: Loaded)
    requires Shaped(cats, f.values)
    ensures Shaped(cats, r.form.values)
  {
    if !doc.JObj? then Loaded(f, Some(WrongShape("manifest")))
    else
      match StrOr(Get(doc.fields, "name"))
      case None => Loaded(f, Some(WrongShape("name")))
      case Some(name) => LoadDeveloper(cats, doc.fields, f.(name := name))
  }

  /** The rest of the load once the name is set: `manifest["developer"]["name"]`. */
  function LoadDeveloper(cats: seq<Category>, doc: seq<(string, J)>, f: Form): (r: Loaded)
    requires Shaped(cats, f.values)
    ensures Shaped(cats, r.form.values)
  {
    match Field(doc, "developer")
    case Failure(e) => Loaded(f, Some(e))
    case Success(dev) =>
      if !dev.JObj? then Loaded(f, Some(WrongShape("developer")))
      else
        match Field(dev.fields, "name")
        case Failure(e) => Loaded(f, Some(e))
        case Success(JStr(devName)) => LoadDescription(cats, doc, f.(developer := devName))
        case Success(_) => Loaded(f, Some(WrongShape("developer")))
  }

  /** The rest of the load once the developer is set: the description. */
  function LoadDescription(cats: seq<Category>, doc: seq<(string, J)>, f: Form): (r: Loaded)
    requires Shaped(cats, f.values)
    ensures Shaped(cats, r.form.values)
  {
    match StrOr(Get(doc, "description"))
    case None => Loaded(f, Some(WrongShape("description")))
    case Some(desc) => LoadPayload(cats, doc, f.(description := desc))
  }

  /** The rest of the load once the general fields are set:
      `manifest["mod"]["payload"]`, then its categories. */
  function LoadPayload(cats: seq<Category>, doc: seq<(string, J)>, f: Form): (r: Loaded)
    requires Shaped(cats, f.values)
    ensures Shaped(cats, r.form.values)
  {
    match Field(doc, "mod")
    case Failure(e) => Loaded(f, Some(e))
    case Success(m) =>
      if !m.JObj? then Loaded(f, Some(WrongShape("mod")))
      else
        match Field(m.fields, "payload")
        case Failure(e) => Loaded(f, Some(e))
        case Success(JObj(payload)) => LoadUpTo(cats, payload, f, |cats|)
        case Success(_) => Loaded(f, Some(WrongShape("payload")))
  }
}
