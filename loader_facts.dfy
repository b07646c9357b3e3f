/** What the loader promises on its own: which categories it leaves alone,
    that stored shaders past the last field are dropped, how each branch
    fills its row, and that the theme falls back on the compiler's
    defaults. */
module LoaderFacts {
  import opened Wrappers
  import opened Text
  import opened Json
  import opened Schema
  import opened SchemaFacts
  import opened Compiler
  import opened Loader

  // ---------------------------------------------------------------------------
  // Categories and the document

  /** A category whose stored list is empty or missing keeps its texts. */
  lemma EmptyCategoryKept(payload: seq<(string, J)>, cat: Category, prior: seq<string>)
    requires |prior| == |cat.fields|
    requires Get(payload, cat.key).None? || Get(payload, cat.key) == Some(JList([]))
    ensures LoadCategory(payload, cat, prior) == Row(prior, None)
  {
  }

  /** Loading the first `n` categories without a fault puts each one's row in
      place and leaves the later categories and the general fields alone. */
  lemma {:induction false} LoadRows(cats: seq<Category>, payload: seq<(string, J)>, f: Form, n: nat)
    requires n <= |cats| && Shaped(cats, f.values)
    ensures var r := LoadUpTo(cats, payload, f, n);
      r.error.None? <==> forall c :: 0 <= c < n ==> LoadCategory(payload, cats[c], f.values[c]).error.None?
    ensures var r := LoadUpTo(cats, payload, f, n);
      r.error.None? ==>
        (forall c :: 0 <= c < n ==> r.form.values[c] == LoadCategory(payload, cats[c], f.values[c]).texts) &&
        (forall c :: n <= c < |cats| ==> r.form.values[c] == f.values[c])
  {
    if n > 0 {
      LoadRows(cats, payload, f, n - 1);
      var p := LoadUpTo(cats, payload, f, n - 1);
      if p.error.None? {
        assert p.form.values[n - 1] == f.values[n - 1];
      } else {
        var c :| 0 <= c < n - 1 && LoadCategory(payload, cats[c], f.values[c]).error.Some?;
      }
    }
  }

  // ---------------------------------------------------------------------------
  // Shaders

  /** The rows only look at the first `k` stored shaders. */
  lemma {:induction false} ShaderRowPrefix(a: seq<J>, b: seq<J>, prior: seq<string>, k: nat)
    requires k <= |a| && k <= |b| && a[..k] == b[..k]
    ensures ShaderRow(a, prior, k) == ShaderRow(b, prior, k)
  {
    if k > 0 {
      assert a[..k - 1] == a[..k][..k - 1] && b[..k - 1] == b[..k][..k - 1];
      assert a[k - 1] == a[..k][k - 1] && b[k - 1] == b[..k][k - 1];
      ShaderRowPrefix(a, b, prior, k - 1);
    }
  }

  /** Stored shaders past the last field change nothing. */
  lemma {:induction false} ShaderRowPast(data: seq<J>, prior: seq<string>, k: nat)
    requires |prior| <= k <= |data|
    ensures ShaderRow(data, prior, k) == ShaderRow(data, prior, |prior|)
  {
    if k > |prior| {
      ShaderRowPast(data, prior, k - 1);
    }
  }

  /** Shaders stored beyond the number of fields are dropped: appending any
      entries after them loads the same texts. */
  lemma ShadersBeyondFieldsDropped(data: seq<J>, extra: seq<J>, prior: seq<string>)
    requires |prior| <= |data|
    ensures ShaderRow(data + extra, prior, |data + extra|) == ShaderRow(data, prior, |data|)
  {
    ShaderRowPast(data + extra, prior, |data + extra|);
    ShaderRowPast(data, prior, |data|);
    assert (data + extra)[..|prior|] == data[..|prior|];
    ShaderRowPrefix(data + extra, data, prior, |prior|);
  }

  /** With every stored shader an object with a string `path` (or none), the
      i-th field takes the i-th path, blank when it has none, and the fields
      past the stored shaders keep their texts. */
  lemma {:induction false} ShaderRowAt(data: seq<J>, prior: seq<string>, k: nat)
    requires k <= |data|
    requires forall i :: 0 <= i < k ==> data[i].JObj? && StrOr(Get(data[i].fields, "path")).Some?
    ensures ShaderRow(data, prior, k).error.None?
    ensures forall i :: 0 <= i < |prior| ==>
      ShaderRow(data, prior, k).texts[i] == if i < k then StrOr(Get(data[i].fields, "path")).value else prior[i]
  {
    if k > 0 {
      ShaderRowAt(data, prior, k - 1);
    }
  }

  // ---------------------------------------------------------------------------
  // Per-field categories

  /** With every stored object holding a string or a list of strings (or
      nothing) under its own field, the i-th field takes the i-th object's
      value and the fields past the stored objects are blanked. */
  lemma {:induction false} FieldRowAt(data: seq<J>, fields: seq<string>, prior: seq<string>, k: nat)
    requires |prior| == |fields| && k <= |fields|
    requires forall i :: 0 <= i < k && i < |data| ==> data[i].JObj? && JoinedOr(Get(data[i].fields, fields[i])).Some?
    ensures FieldRow(data, fields, prior, k).error.None?
    ensures forall i :: 0 <= i < |prior| ==>
      FieldRow(data, fields, prior, k).texts[i] ==
        if i >= k then prior[i]
        else if i < |data| then JoinedOr(Get(data[i].fields, fields[i])).value
        else ""
  {
    if k > 0 {
      FieldRowAt(data, fields, prior, k - 1);
    }
  }

  // ---------------------------------------------------------------------------
  // Singletons

  /** With every field of the item a string or a list of strings (or
      missing), each field takes its value, lists joined with ", ". */
  lemma {:induction false} SingletonRowAt(item: seq<(string, J)>, fields: seq<string>, prior: seq<string>, k: nat)
    requires |prior| == |fields| && k <= |fields|
    requires forall i :: 0 <= i < k ==> JoinedOr(Get(item, fields[i])).Some?
    ensures SingletonRow(item, fields, prior, k).error.None?
    ensures forall i :: 0 <= i < |prior| ==>
      SingletonRow(item, fields, prior, k).texts[i] == if i < k then JoinedOr(Get(item, fields[i])).value else prior[i]
  {
    if k > 0 {
      SingletonRowAt(item, fields, prior, k - 1);
    }
  }

  /** A list of strings is restored as its `", "` join. */
  lemma JoinedList(xs: seq<string>)
    ensures JoinedOr(Some(JList(Strs(xs)))) == Some(JoinList(xs))
  {
    var r := StrsOf(Strs(xs));
    assert r.Some?;
    assert r.value == xs;
  }

  // ---------------------------------------------------------------------------
  // Theme

  /** Setting a field by name sets its position, when names are distinct. */
  lemma {:induction false} SetNamedAt(fields: seq<string>, texts: seq<string>, j: nat, t: string)
    requires |texts| == |fields| && j < |fields| && DistinctFields(fields)
    ensures SetNamed(fields, texts, fields[j], t) == texts[j := t]
  {
    if j > 0 {
      assert DistinctFields(fields[1..]) by {
        forall a, b | 0 <= a < b < |fields[1..]| ensures fields[1..][a] != fields[1..][b] {
          assert fields[1..][a] == fields[a + 1] && fields[1..][b] == fields[b + 1];
        }
      }
      SetNamedAt(fields[1..], texts[1..], j - 1, t);
      assert fields[0] != fields[j];
    }
  }

  /** What slot `i` writes: `str()` of its channel in its group, or the
      fault that stops the row there. */
  function SlotAt(slots: seq<ThemeSlot>, groups: seq<J>, i: nat): Result<string, LoadError>
    requires |groups| == 4 && i < |slots| <= 12
  {
    SlotText(groups[i / 3], slots[i])
  }

  /** Over fields named after the slots, the row completes exactly when
      every slot prints, and then slot `i` has written its text into field
      `i`. */
  lemma ThemeSlotsRowAt(slots: seq<ThemeSlot>, groups: seq<J>, fields: seq<string>,
                         prior: seq<string>, k: nat)
    requires |groups| == 4 && |prior| == |fields| && k <= |slots| <= 12
    requires |fields| == |slots| && DistinctFields(fields)
    requires forall i :: 0 <= i < |slots| ==> fields[i] == slots[i].field
    ensures ThemeSlotsRow(slots, groups, fields, prior, k).error.None? <==>
      forall i :: 0 <= i < k ==> SlotAt(slots, groups, i).Success?
    ensures ThemeSlotsRow(slots, groups, fields, prior, k).error.None? ==>
      forall i :: 0 <= i < |prior| ==>
        if i < k then SlotAt(slots, groups, i) == Success(ThemeSlotsRow(slots, groups, fields, prior, k).texts[i])
        else ThemeSlotsRow(slots, groups, fields, prior, k).texts[i] == prior[i]
  {
    ThemeSlotsRowOk(slots, groups, fields, prior, k);
    ThemeSlotsRowTexts(slots, groups, fields, prior, k);
  }

  lemma {:induction false} ThemeSlotsRowOk(slots: seq<ThemeSlot>, groups: seq<J>, fields: seq<string>,
                                           prior: seq<string>, k: nat)
    requires |groups| == 4 && |prior| == |fields| && k <= |slots| <= 12
    requires |fields| == |slots| && DistinctFields(fields)
    requires forall i :: 0 <= i < |slots| ==> fields[i] == slots[i].field
    ensures ThemeSlotsRow(slots, groups, fields, prior, k).error.None? <==>
      forall i :: 0 <= i < k ==> SlotAt(slots, groups, i).Success?
  {
    if k > 0 {
      ThemeSlotsRowOk(slots, groups, fields, prior, k - 1);
      var p := ThemeSlotsRow(slots, groups, fields, prior, k - 1);
      assert ThemeSlotsRow(slots, groups, fields, prior, k).error.None? <==>
        p.error.None? && SlotAt(slots, groups, k - 1).Success?;
    }
  }

  lemma {:induction false} ThemeSlotsRowTexts(slots: seq<ThemeSlot>, groups: seq<J>, fields: seq<string>,
                                           prior: seq<string>, k: nat)
    requires |groups| == 4 && |prior| == |fields| && k <= |slots| <= 12
    requires |fields| == |slots| && DistinctFields(fields)
    requires forall i :: 0 <= i < |slots| ==> fields[i] == slots[i].field
    ensures ThemeSlotsRow(slots, groups, fields, prior, k).error.None? ==>
      forall i :: 0 <= i < |prior| ==>
        if i < k then SlotAt(slots, groups, i) == Success(ThemeSlotsRow(slots, groups, fields, prior, k).texts[i])
        else ThemeSlotsRow(slots, groups, fields, prior, k).texts[i] == prior[i]
  {
    if k > 0 {
      ThemeSlotsRowTexts(slots, groups, fields, prior, k - 1);
      var p := ThemeSlotsRow(slots, groups, fields, prior, k - 1);
      var t := SlotAt(slots, groups, k - 1);
      if p.error.None? && t.Success? {
        assert ThemeSlotsRow(slots, groups, fields, prior, k) == Row(SetNamed(fields, p.texts, fields[k - 1], t.value), None);
        SetNamedAt(fields, p.texts, k - 1, t.value);
      }
    }
  }

  /** The first of the first `k` slots that raises, or `k` when none does. */
  function FirstFault(slots: seq<ThemeSlot>, groups: seq<J>, k: nat): (r: nat)
    requires |groups| == 4 && k <= |slots| <= 12
    ensures r <= k && (forall m :: 0 <= m < r ==> SlotAt(slots, groups, m).Success?)
    ensures r < k ==> SlotAt(slots, groups, r).Failure?
  {
    if k == 0 then 0
    else
      var j := FirstFault(slots, groups, k - 1);
      if j < k - 1 then j
      else if SlotAt(slots, groups, k - 1).Failure? then k - 1
      else k
  }

  /** The row sets exactly the fields of the slots before the first one that
      raises, and stops with that slot's fault: a group that is not an
      object stops the row only at its first channel, after every earlier
      group's channels are written. */
  lemma ThemeSlotsRowStops(slots: seq<ThemeSlot>, groups: seq<J>, fields: seq<string>,
                                           prior: seq<string>, k: nat)
    requires |groups| == 4 && |prior| == |fields| && k <= |slots| <= 12
    requires |fields| == |slots| && DistinctFields(fields)
    requires forall i :: 0 <= i < |slots| ==> fields[i] == slots[i].field
    ensures var j := FirstFault(slots, groups, k);
      forall i :: 0 <= i < |prior| ==>
        if i < j then SlotAt(slots, groups, i) == Success(ThemeSlotsRow(slots, groups, fields, prior, k).texts[i])
        else ThemeSlotsRow(slots, groups, fields, prior, k).texts[i] == prior[i]
    ensures var j := FirstFault(slots, groups, k);
      (ThemeSlotsRow(slots, groups, fields, prior, k).error.None? <==> j == k) &&
      (j < k ==> ThemeSlotsRow(slots, groups, fields, prior, k).error == Some(SlotAt(slots, groups, j).error))
  {
    ThemeSlotsRowPartial(slots, groups, fields, prior, k);
    ThemeSlotsRowFault(slots, groups, fields, prior, k);
  }

  lemma {:induction false} ThemeSlotsRowPartial(slots: seq<ThemeSlot>, groups: seq<J>, fields: seq<string>,
                                           prior: seq<string>, k: nat)
    requires |groups| == 4 && |prior| == |fields| && k <= |slots| <= 12
    requires |fields| == |slots| && DistinctFields(fields)
    requires forall i :: 0 <= i < |slots| ==> fields[i] == slots[i].field
    ensures var j := FirstFault(slots, groups, k);
      forall i :: 0 <= i < |prior| ==>
        if i < j then SlotAt(slots, groups, i) == Success(ThemeSlotsRow(slots, groups, fields, prior, k).texts[i])
        else ThemeSlotsRow(slots, groups, fields, prior, k).texts[i] == prior[i]
  {
    if k > 0 {
      ThemeSlotsRowPartial(slots, groups, fields, prior, k - 1);
      ThemeSlotsRowFault(slots, groups, fields, prior, k - 1);
      var p := ThemeSlotsRow(slots, groups, fields, prior, k - 1);
      var t := SlotAt(slots, groups, k - 1);
      if p.error.None? && t.Success? {
        assert ThemeSlotsRow(slots, groups, fields, prior, k) == Row(SetNamed(fields, p.texts, fields[k - 1], t.value), None);
        SetNamedAt(fields, p.texts, k - 1, t.value);
      }
    }
  }

  lemma {:induction false} ThemeSlotsRowFault(slots: seq<ThemeSlot>, groups: seq<J>, fields: seq<string>,
                                           prior: seq<string>, k: nat)
    requires |groups| == 4 && |prior| == |fields| && k <= |slots| <= 12
    requires |fields| == |slots| && DistinctFields(fields)
    requires forall i :: 0 <= i < |slots| ==> fields[i] == slots[i].field
    ensures var j := FirstFault(slots, groups, k);
      (ThemeSlotsRow(slots, groups, fields, prior, k).error.None? <==> j == k) &&
      (j < k ==> ThemeSlotsRow(slots, groups, fields, prior, k).error == Some(SlotAt(slots, groups, j).error))
  {
    if k > 0 {
      ThemeSlotsRowFault(slots, groups, fields, prior, k - 1);
    }
  }

  /** An example theme item: a dark `gx_accent` of 1, 2, 3 and a dark
      `gx_secondary_base` stored as a list. */
  function ListGroupTheme(): seq<(string, J)> {
    [("dark", JObj([("gx_accent", JObj([("h", JInt(1)), ("s", JInt(2)), ("l", JInt(3))])),
                    ("gx_secondary_base", JList([]))]))]
  }

  /** For that item the four groups are fetched without a fault, the three
      `gx_accent` channels are written, and the row then stops at the list
      with the other nine fields as they were. */
  lemma ListGroupStopsLate(fields: seq<string>, prior: seq<string>)
    requires |prior| == |fields| && |fields| == |ThemeSlots| && DistinctFields(fields)
    requires forall i :: 0 <= i < |ThemeSlots| ==> fields[i] == ThemeSlots[i].field
    ensures var r := ThemeRow(ListGroupTheme(), fields, prior);
      && r.error == Some(WrongShape("gx_secondary_base"))
      && r.texts[0] == "1" && r.texts[1] == "2" && r.texts[2] == "3"
      && r.texts[3..] == prior[3..]
  {
    ListGroupFetched(fields, prior);
    ListGroupRow(fields, prior);
  }

  lemma ListGroupRow(fields: seq<string>, prior: seq<string>)
    requires |prior| == |fields| && |fields| == |ThemeSlots| && DistinctFields(fields)
    requires forall i :: 0 <= i < |ThemeSlots| ==> fields[i] == ThemeSlots[i].field
    ensures var r := ThemeSlotsRow(ThemeSlots, ListGroupGroups(), fields, prior, |ThemeSlots|);
      && r.error == Some(WrongShape("gx_secondary_base"))
      && r.texts[0] == "1" && r.texts[1] == "2" && r.texts[2] == "3"
      && r.texts[3..] == prior[3..]
  {
    ListGroupSlots();
    StopsAtFourth(ListGroupGroups(), fields, prior, "1", "2", "3", WrongShape("gx_secondary_base"));
  }

  /** A row whose first three channels read `a`, `b`, `c` and whose fourth
      faults with `e` keeps `e` as its error and the other fields unchanged. */
  lemma StopsAtFourth(groups: seq<J>, fields: seq<string>, prior: seq<string>,
                      a: string, b: string, c: string, e: LoadError)
    requires |groups| == 4
    requires |prior| == |fields| && |fields| == |ThemeSlots| && DistinctFields(fields)
    requires forall i :: 0 <= i < |ThemeSlots| ==> fields[i] == ThemeSlots[i].field
    requires SlotAt(ThemeSlots, groups, 0) == Success(a)
    requires SlotAt(ThemeSlots, groups, 1) == Success(b)
    requires SlotAt(ThemeSlots, groups, 2) == Success(c)
    requires SlotAt(ThemeSlots, groups, 3) == Failure(e)
    ensures var r := ThemeSlotsRow(ThemeSlots, groups, fields, prior, |ThemeSlots|);
      && r.error == Some(e)
      && r.texts[0] == a && r.texts[1] == b && r.texts[2] == c
      && r.texts[3..] == prior[3..]
  {
    var r := ThemeSlotsRow(ThemeSlots, groups, fields, prior, |ThemeSlots|);
    FirstFaultAt(ThemeSlots, groups, |ThemeSlots|, 3);
    ThemeSlotsRowStops(ThemeSlots, groups, fields, prior, |ThemeSlots|);
    assert r.texts[3..] == prior[3..];
  }

  /** The groups the loader fetches from `ListGroupTheme`. */
  function ListGroupGroups(): seq<J> {
    [JObj([("h", JInt(1)), ("s", JInt(2)), ("l", JInt(3))]), JList([]), JObj(GroupDefault(6)), JObj(GroupDefault(9))]
  }

  lemma ListGroupFetched(fields: seq<string>, prior: seq<string>)
    requires |prior| == |fields|
    ensures ThemeRow(ListGroupTheme(), fields, prior) == ThemeSlotsRow(ThemeSlots, ListGroupGroups(), fields, prior, |ThemeSlots|)
  {
    var dark := [("gx_accent", JObj([("h", JInt(1)), ("s", JInt(2)), ("l", JInt(3))])), ("gx_secondary_base", JList([]))];
    GetSuffix(dark, 1, "gx_secondary_base");
  }

  lemma ListGroupSlots()
    ensures SlotAt(ThemeSlots, ListGroupGroups(), 0) == Success("1")
    ensures SlotAt(ThemeSlots, ListGroupGroups(), 1) == Success("2")
    ensures SlotAt(ThemeSlots, ListGroupGroups(), 2) == Success("3")
    ensures SlotAt(ThemeSlots, ListGroupGroups(), 3) == Failure(WrongShape("gx_secondary_base"))
  {
    var accent := [("h", JInt(1)), ("s", JInt(2)), ("l", JInt(3))];
    GetSuffix(accent, 1, "s");
    GetSuffix(accent, 2, "l");
  }

  /** `FirstFault` is the slot that raises with none raising before it. */
  lemma {:induction false} FirstFaultAt(slots: seq<ThemeSlot>, groups: seq<J>, k: nat, j: nat)
    requires |groups| == 4 && j < k <= |slots| <= 12
    requires SlotAt(slots, groups, j).Failure? && forall m :: 0 <= m < j ==> SlotAt(slots, groups, m).Success?
    ensures FirstFault(slots, groups, k) == j
  {
    if k > j + 1 {
      FirstFaultAt(slots, groups, k - 1, j);
    }
  }

  /** A theme item with neither mode stored loads every colour field with
      its default, the same text the compiler substitutes for it. */
  lemma ThemeDefaultsOnLoad(theme: seq<(string, J)>, fields: seq<string>, prior: seq<string>)
    requires Get(theme, "dark").None? && Get(theme, "light").None?
    requires |prior| == |fields| && |fields| == |ThemeSlots| && DistinctFields(fields)
    requires forall i :: 0 <= i < |ThemeSlots| ==> fields[i] == ThemeSlots[i].field
    ensures ThemeRow(theme, fields, prior).error.None?
    ensures forall i :: 0 <= i < |ThemeSlots| ==> ThemeRow(theme, fields, prior).texts[i] == ThemeSlots[i].textDefault
  {
    var groups := [JObj(GroupDefault(0)), JObj(GroupDefault(3)), JObj(GroupDefault(6)), JObj(GroupDefault(9))];
    assert ThemeRow(theme, fields, prior) == ThemeSlotsRow(ThemeSlots, groups, fields, prior, |ThemeSlots|) by {
      DefaultGroups(theme);
    }
    forall i | 0 <= i < |ThemeSlots| ensures SlotAt(ThemeSlots, groups, i) == Success(ThemeSlots[i].textDefault) {
      DefaultChannel(groups, i);
    }
    DefaultSlotsRow(groups, fields, prior);
  }

  /** Without either mode, every group falls back on its defaults. */
  lemma DefaultGroups(theme: seq<(string, J)>)
    requires Get(theme, "dark").None? && Get(theme, "light").None?
    ensures Group(theme, 0) == Success(JObj(GroupDefault(0))) && Group(theme, 3) == Success(JObj(GroupDefault(3)))
    ensures Group(theme, 6) == Success(JObj(GroupDefault(6))) && Group(theme, 9) == Success(JObj(GroupDefault(9)))
  {
    GroupFallsBack(theme, 0);
    GroupFallsBack(theme, 1);
    GroupFallsBack(theme, 2);
    GroupFallsBack(theme, 3);
  }

  /** Group `gi` (the `gx_accent` or `gx_secondary_base` of a mode) falls back
      on its defaults when its mode is not stored, or is stored without
      that group. */
  lemma GroupFallsBack(theme: seq<(string, J)>, gi: nat)
    requires gi < 4
    requires var m := Get(theme, ThemeSlots[3 * gi].mode);
      m.None? || (m.value.JObj? && Get(m.value.fields, ThemeSlots[3 * gi].group).None?)
    ensures Group(theme, 3 * gi) == Success(JObj(GroupDefault(3 * gi)))
  {
  }

  /** Whatever else the theme item holds, a group that falls back on its
      defaults shows, on a load without a fault, the three texts the
      compiler would substitute for its fields. */
  lemma GroupDefaultsOnLoad(theme: seq<(string, J)>, fields: seq<string>, prior: seq<string>, gi: nat)
    requires gi < 4
    requires var m := Get(theme, ThemeSlots[3 * gi].mode);
      m.None? || (m.value.JObj? && Get(m.value.fields, ThemeSlots[3 * gi].group).None?)
    requires |prior| == |fields| && |fields| == |ThemeSlots| && DistinctFields(fields)
    requires forall i :: 0 <= i < |ThemeSlots| ==> fields[i] == ThemeSlots[i].field
    ensures ThemeRow(theme, fields, prior).error.None? ==>
      forall i :: 3 * gi <= i < 3 * gi + 3 ==> ThemeRow(theme, fields, prior).texts[i] == ThemeSlots[i].textDefault
  {
    var r := ThemeRow(theme, fields, prior);
    if r.error.None? {
      assert Group(theme, 0).Success? && Group(theme, 3).Success? && Group(theme, 6).Success? && Group(theme, 9).Success?;
      var groups := [Group(theme, 0).value, Group(theme, 3).value, Group(theme, 6).value, Group(theme, 9).value];
      assert r == ThemeSlotsRow(ThemeSlots, groups, fields, prior, |ThemeSlots|);
      GroupFallsBack(theme, gi);
      assert groups[gi] == JObj(GroupDefault(3 * gi));
      ThemeSlotsRowAt(ThemeSlots, groups, fields, prior, |ThemeSlots|);
      forall i | 3 * gi <= i < 3 * gi + 3 ensures r.texts[i] == ThemeSlots[i].textDefault {
        assert i / 3 == gi;
        DefaultChannel(groups, i);
      }
    }
  }

  /** Groups whose every channel prints the slot's default give a row of
      defaults. */
  lemma DefaultSlotsRow(groups: seq<J>, fields: seq<string>, prior: seq<string>)
    requires |groups| == 4 && |prior| == |fields| && |fields| == |ThemeSlots| && DistinctFields(fields)
    requires forall i :: 0 <= i < |ThemeSlots| ==> fields[i] == ThemeSlots[i].field
    requires forall i :: 0 <= i < |ThemeSlots| ==> SlotAt(ThemeSlots, groups, i) == Success(ThemeSlots[i].textDefault)
    ensures ThemeSlotsRow(ThemeSlots, groups, fields, prior, |ThemeSlots|).error.None?
    ensures forall i :: 0 <= i < |ThemeSlots| ==> ThemeSlotsRow(ThemeSlots, groups, fields, prior, |ThemeSlots|).texts[i] == ThemeSlots[i].textDefault
  {
    ThemeSlotsRowAt(ThemeSlots, groups, fields, prior, |ThemeSlots|);
  }

  /** A stored group object without a slot's channel key prints that slot's
      default for it, as `group.get("h", 211)` and its siblings do. */
  lemma ChannelFallsBack(groups: seq<J>, i: nat)
    requires |groups| == 4 && i < |ThemeSlots|
    requires groups[i / 3].JObj? && Get(groups[i / 3].fields, ThemeSlots[i].channel).None?
    ensures SlotAt(ThemeSlots, groups, i) == Success(ThemeSlots[i].textDefault)
  {
    ThemeDefaultsAgree();
  }

  /** A theme whose stored group lacks one channel key shows that field's
      default on a load without error. */
  lemma ChannelDefaultOnLoad(theme: seq<(string, J)>, fields: seq<string>, prior: seq<string>, i: nat)
    requires i < |ThemeSlots|
    requires var m := Get(theme, ThemeSlots[i].mode);
      && m.Some? && m.value.JObj?
      && var g := Get(m.value.fields, ThemeSlots[i].group);
         g.Some? && g.value.JObj? && Get(g.value.fields, ThemeSlots[i].channel).None?
    requires |prior| == |fields| && |fields| == |ThemeSlots| && DistinctFields(fields)
    requires forall k :: 0 <= k < |ThemeSlots| ==> fields[k] == ThemeSlots[k].field
    ensures ThemeRow(theme, fields, prior).error.None? ==> ThemeRow(theme, fields, prior).texts[i] == ThemeSlots[i].textDefault
  {
    var groups := FetchedGroups(theme, fields, prior);
    if ThemeRow(theme, fields, prior).error.None? {
      SlotChannels(i);
      var lo := 3 * (i / 3);
      assert Group(theme, lo) == Success(groups[i / 3]);
      ChannelDefaultInRow(groups, fields, prior, i);
    }
  }

  /** The groups `ThemeRow` fetched, when it raised nothing while fetching. */
  lemma FetchedGroups(theme: seq<(string, J)>, fields: seq<string>, prior: seq<string>) returns (groups: seq<J>)
    requires |prior| == |fields|
    ensures |groups| == 4
    ensures ThemeRow(theme, fields, prior).error.None? ==>
      && (forall gi :: 0 <= gi < 4 ==> Group(theme, 3 * gi) == Success(groups[gi]))
      && ThemeRow(theme, fields, prior) == ThemeSlotsRow(ThemeSlots, groups, fields, prior, |ThemeSlots|)
  {
    groups := [JList([]), JList([]), JList([]), JList([])];
    if ThemeRow(theme, fields, prior).error.None? {
      assert Group(theme, 0).Success? && Group(theme, 3).Success? && Group(theme, 6).Success? && Group(theme, 9).Success?;
      groups := [Group(theme, 0).value, Group(theme, 3).value, Group(theme, 6).value, Group(theme, 9).value];
      forall gi | 0 <= gi < 4 ensures Group(theme, 3 * gi) == Success(groups[gi]) {
        assert gi == 0 || gi == 1 || gi == 2 || gi == 3;
      }
    }
  }

  /** Over fetched groups, a group object without slot i's channel leaves
      field i at its default when the row raises nothing. */
  lemma ChannelDefaultInRow(groups: seq<J>, fields: seq<string>, prior: seq<string>, i: nat)
    requires |groups| == 4 && i < |ThemeSlots|
    requires groups[i / 3].JObj? && Get(groups[i / 3].fields, ThemeSlots[i].channel).None?
    requires |prior| == |fields| && |fields| == |ThemeSlots| && DistinctFields(fields)
    requires forall k :: 0 <= k < |ThemeSlots| ==> fields[k] == ThemeSlots[k].field
    ensures ThemeSlotsRow(ThemeSlots, groups, fields, prior, |ThemeSlots|).error.None? ==>
      ThemeSlotsRow(ThemeSlots, groups, fields, prior, |ThemeSlots|).texts[i] == ThemeSlots[i].textDefault
  {
    ChannelFallsBack(groups, i);
    ThemeSlotsRowAt(ThemeSlots, groups, fields, prior, |ThemeSlots|);
  }

  /** A slot whose group is the default group prints the compiler's default. */
  lemma DefaultChannel(groups: seq<J>, i: nat)
    requires |groups| == 4 && i < |ThemeSlots| && groups[i / 3] == JObj(GroupDefault(3 * (i / 3)))
    ensures SlotAt(ThemeSlots, groups, i) == Success(ThemeSlots[i].textDefault)
  {
    var lo := 3 * (i / 3);
    SlotChannels(i);
    ThemeDefaultsAgree();
    GroupDefaultGet(lo);
    assert i == lo || i == lo + 1 || i == lo + 2;
  }

  lemma GroupDefaultGet(lo: nat)
    requires lo + 3 <= |ThemeSlots|
    ensures Get(GroupDefault(lo), "h") == Some(JInt(ThemeSlots[lo].numberDefault))
    ensures Get(GroupDefault(lo), "s") == Some(JInt(ThemeSlots[lo + 1].numberDefault))
    ensures Get(GroupDefault(lo), "l") == Some(JInt(ThemeSlots[lo + 2].numberDefault))
  {
    var g := GroupDefault(lo);
    GetSuffix(g, 0, "h");
    GetSuffix(g, 1, "s");
    GetSuffix(g, 2, "l");
  }

  /** Slots come in groups of three channels `h`, `s`, `l`. */
  lemma SlotChannels(i: nat)
    requires i < |ThemeSlots|
    ensures ThemeSlots[i].channel == if i % 3 == 0 then "h" else if i % 3 == 1 then "s" else "l"
    ensures i / 3 < 4 && ThemeSlots[i].mode == ThemeSlots[3 * (i / 3)].mode && ThemeSlots[i].group == ThemeSlots[3 * (i / 3)].group
  {
  }
}
