/** What a whole save promises: the payload the categories build, the
    document around it, the folder it lands in, and what a save that aborts
    leaves on disk. */
module SaveFacts {
  import opened Wrappers
  import opened Text
  import opened Json
  import opened Schema
  import opened SchemaFacts
  import opened Files
  import opened Imaging
  import opened Compiler
  import opened CompilerFacts

  // ---------------------------------------------------------------------------
  // Disk effects of ingestion

  /** `r` is `d` after image ingestion into folder `current`: the sources,
      every manifest and every other folder are as they were, and the only
      folder that may be new is `current`, still without a manifest. */
  predicate WritesInto(d: Disk, r: Disk, current: Option<string>) {
    && r.sources == d.sources
    && (forall q :: q in d.folders ==> q in r.folders && r.folders[q].manifest == d.folders[q].manifest)
    && (forall q :: q in d.folders && current != Some(q) ==> r.folders[q] == d.folders[q])
    && (forall q :: q in r.folders && q !in d.folders ==> current == Some(q) && r.folders[q].manifest.None?)
  }

  lemma WritesIntoTrans(d: Disk, m: Disk, r: Disk, current: Option<string>)
    requires WritesInto(d, m, current) && WritesInto(m, r, current)
    ensures WritesInto(d, r, current)
  {
  }

  /** One image ingested writes only into the project folder; with no folder
      set it either changes nothing or fails. */
  lemma HandleImageWrites(d: Disk, current: Option<string>, path: string, category: string, sub: string)
    ensures HandleImage(d, current, path, category, sub).Success? ==>
      WritesInto(d, HandleImage(d, current, path, category, sub).value, current)
    ensures current.None? && HandleImage(d, current, path, category, sub).Success? ==>
      HandleImage(d, current, path, category, sub).value == d
  {
    if SourceExists(d, path) && current.Some? {
      IngestEffect(d, current.value, path, category, sub);
    }
  }

  /** The image fields of one category, ingested in order, write only into the
      project folder, and nothing at all without one. */
  lemma {:induction false} IngestFieldsWrites(d: Disk, current: Option<string>, key: string,
                                              fields: seq<string>, vals: seq<string>, k: nat)
    requires k <= |fields| && |vals| == |fields|
    ensures IngestFields(d, current, key, fields, vals, k).Success? ==>
      WritesInto(d, IngestFields(d, current, key, fields, vals, k).value, current)
    ensures current.None? && IngestFields(d, current, key, fields, vals, k).Success? ==>
      IngestFields(d, current, key, fields, vals, k).value == d
  {
    if k > 0 {
      IngestFieldsWrites(d, current, key, fields, vals, k - 1);
      var prev := IngestFields(d, current, key, fields, vals, k - 1);
      if prev.Success? {
        var t := Strip(vals[k - 1]);
        if t != "" && IsImageField(fields[k - 1]) {
          HandleImageWrites(prev.value, current, t, key, SubCategory(fields[k - 1]));
          var r := HandleImage(prev.value, current, t, key, SubCategory(fields[k - 1]));
          if r.Success? {
            WritesIntoTrans(d, prev.value, r.value, current);
          }
        }
      }
    }
  }

  /** The compiler, whether it stops on an error or not, writes only into the
      project folder, and nothing at all when no folder is set. */
  lemma {:induction false} BuildWrites(cats: seq<Category>, f: Form, current: Option<string>, d: Disk, n: nat)
    requires n <= |cats| && Shaped(cats, f.values)
    ensures WritesInto(d, BuildUpTo(cats, f, current, d, n).disk, current)
    ensures current.None? ==> BuildUpTo(cats, f, current, d, n).disk == d
  {
    if n > 0 {
      BuildWrites(cats, f, current, d, n - 1);
      var prev := BuildUpTo(cats, f, current, d, n - 1);
      if prev.error.None? {
        var cat, vals := cats[n - 1], f.values[n - 1];
        if KindOf(cat.key) == Singleton {
          IngestFieldsWrites(prev.disk, current, cat.key, cat.fields, vals, |vals|);
          var r := IngestFields(prev.disk, current, cat.key, cat.fields, vals, |vals|);
          if r.Success? {
            WritesIntoTrans(d, prev.disk, r.value, current);
          }
        }
      }
    }
  }

  // ---------------------------------------------------------------------------
  // The payload

  lemma InitialPayloadLists(k: string)
    ensures Get(InitialPayload(), k).Some? ==> Get(InitialPayload(), k) == Some(JList([]))
    ensures Get(InitialPayload(), k).Some? <==> k in PayloadKeys
  {
    InitialGet(InitialPayload(), 0, k);
  }

  lemma InitialPayloadHoldsLists()
    ensures forall k :: Get(InitialPayload(), k).Some? ==> Get(InitialPayload(), k).value.JList?
  {
    forall k | Get(InitialPayload(), k).Some? ensures Get(InitialPayload(), k).value.JList? {
      InitialPayloadLists(k);
    }
  }

  lemma {:induction false} InitialGet(p: seq<(string, J)>, m: nat, k: string)
    requires m <= |PayloadKeys| && p == InitialPayload()[m..]
    ensures Get(p, k).Some? ==> Get(p, k) == Some(JList([]))
    ensures Get(p, k).Some? <==> k in PayloadKeys[m..]
  {
    if m < |PayloadKeys| {
      assert p[0] == (PayloadKeys[m], JList([]));
      assert p[1..] == InitialPayload()[m + 1..];
      assert PayloadKeys[m..] == [PayloadKeys[m]] + PayloadKeys[m + 1..];
      InitialGet(p[1..], m + 1, k);
    }
  }

  /** After the first `n` categories without an error, each of them holds
      exactly the items its branch produced, in that order; keys no category
      wrote keep their initial `[]` (or stay absent); every key the document
      starts with still maps to a list. */
  lemma {:induction false} BuildPayload(cats: seq<Category>, f: Form, current: Option<string>, d: Disk, n: nat)
    requires WellFormed(cats) && Shaped(cats, f.values) && n <= |cats|
    ensures var b := BuildUpTo(cats, f, current, d, n);
      b.error.None? ==>
        forall c :: 0 <= c < n ==>
          CategoryItems(cats[c], f.values[c], ModName(f), d.sources).Success? &&
          ListItems(Get(b.payload, cats[c].key)) == CategoryItems(cats[c], f.values[c], ModName(f), d.sources).value
    ensures var b := BuildUpTo(cats, f, current, d, n);
      forall k :: (forall c :: 0 <= c < n ==> cats[c].key != k) ==> Get(b.payload, k) == Get(InitialPayload(), k)
    ensures var b := BuildUpTo(cats, f, current, d, n);
      forall k :: Get(b.payload, k).Some? ==> Get(b.payload, k).value.JList?
    ensures var b := BuildUpTo(cats, f, current, d, n);
      Keys(InitialPayload()) <= Keys(b.payload) && Keys(b.payload) <= Keys(InitialPayload()) + set c | 0 <= c < n :: cats[c].key
  {
    if n == 0 {
      InitialPayloadHoldsLists();
    } else {
      BuildPayload(cats, f, current, d, n - 1);
      var prev := BuildUpTo(cats, f, current, d, n - 1);
      if prev.error.None? {
        StepPayload(prev, cats, f, current, d, n);
      } else {
        assert (set c | 0 <= c < n - 1 :: cats[c].key) <= (set c | 0 <= c < n :: cats[c].key);
      }
    }
  }

  /** The last step of `BuildPayload`. */
  lemma StepPayload(prev: Build, cats: seq<Category>, f: Form, current: Option<string>, d: Disk, n: nat)
    requires WellFormed(cats) && Shaped(cats, f.values) && 0 < n <= |cats|
    requires prev == BuildUpTo(cats, f, current, d, n - 1) && prev.error.None?
    requires forall c :: 0 <= c < n - 1 ==>
      CategoryItems(cats[c], f.values[c], ModName(f), d.sources).Success? &&
      ListItems(Get(prev.payload, cats[c].key)) == CategoryItems(cats[c], f.values[c], ModName(f), d.sources).value
    requires forall k :: (forall c :: 0 <= c < n - 1 ==> cats[c].key != k) ==> Get(prev.payload, k) == Get(InitialPayload(), k)
    requires forall k :: Get(prev.payload, k).Some? ==> Get(prev.payload, k).value.JList?
    requires Keys(InitialPayload()) <= Keys(prev.payload) && Keys(prev.payload) <= Keys(InitialPayload()) + set c | 0 <= c < n - 1 :: cats[c].key
    ensures var b := BuildUpTo(cats, f, current, d, n);
      b.error.None? ==>
        forall c :: 0 <= c < n ==>
          CategoryItems(cats[c], f.values[c], ModName(f), d.sources).Success? &&
          ListItems(Get(b.payload, cats[c].key)) == CategoryItems(cats[c], f.values[c], ModName(f), d.sources).value
    ensures var b := BuildUpTo(cats, f, current, d, n);
      forall k :: (forall c :: 0 <= c < n ==> cats[c].key != k) ==> Get(b.payload, k) == Get(InitialPayload(), k)
    ensures var b := BuildUpTo(cats, f, current, d, n);
      forall k :: Get(b.payload, k).Some? ==> Get(b.payload, k).value.JList?
    ensures var b := BuildUpTo(cats, f, current, d, n);
      Keys(InitialPayload()) <= Keys(b.payload) && Keys(b.payload) <= Keys(InitialPayload()) + set c | 0 <= c < n :: cats[c].key
  {
    var b := BuildUpTo(cats, f, current, d, n);
    var cat := cats[n - 1];
    assert b == Step(prev, cat, f.values[n - 1], ModName(f), current, d.sources);
    StepEffect(prev, cat, f.values[n - 1], ModName(f), current, d.sources);
    if b.error.None? {
      var items := CategoryItems(cat, f.values[n - 1], ModName(f), d.sources).value;
      assert Get(prev.payload, cat.key) == Get(InitialPayload(), cat.key);
      InitialPayloadLists(cat.key);
      ExtendEffect(prev.payload, cat.key, items);
    }
  }

  /** A step either fails and keeps the payload, or succeeds with the branch's
      items appended under the category's key. */
  lemma StepEffect(prev: Build, cat: Category, vals: seq<string>, mod: string, current: Option<string>,
                   sources: map<string, Source>)
    requires |vals| == |cat.fields|
    ensures var b := Step(prev, cat, vals, mod, current, sources);
      b.error.None? ==>
        CategoryItems(cat, vals, mod, sources).Success? &&
        b.payload == Extend(prev.payload, cat.key, CategoryItems(cat, vals, mod, sources).value)
    ensures var b := Step(prev, cat, vals, mod, current, sources);
      b.error.Some? ==> b.payload == prev.payload
  {
  }

  /** Appending to a key that holds `[]` or nothing leaves exactly the new
      items there, and changes no other key. */
  lemma ExtendEffect(payload: seq<(string, J)>, key: string, items: seq<J>)
    requires ListItems(Get(payload, key)) == []
    ensures ListItems(Get(Extend(payload, key, items), key)) == items
    ensures forall k :: k != key ==> Get(Extend(payload, key, items), k) == Get(payload, k)
    ensures Get(Extend(payload, key, items), key) == Get(payload, key) || Get(Extend(payload, key, items), key) == Some(JList(items))
    ensures Keys(payload) <= Keys(Extend(payload, key, items)) <= Keys(payload) + {key}
  {
    if items != [] {
      GetPut(payload, key, JList(ListItems(Get(payload, key)) + items));
    }
  }

  /** The keys the document starts with are the table's keys, in order. */
  lemma PayloadKeysAreTableKeys()
    ensures KeysOf(PayloadOptions) == PayloadKeys
  {
  }

  /** The payload a complete build writes over a table whose keys are the
      initial ones: exactly those keys, each holding a list, and each holding
      the items its category produced. */
  lemma CompletePayload(cats: seq<Category>, f: Form, current: Option<string>, d: Disk)
    requires WellFormed(cats) && Shaped(cats, f.values) && KeysOf(cats) == PayloadKeys
    ensures var b := BuildUpTo(cats, f, current, d, |cats|);
      b.error.None? ==>
        && Keys(b.payload) == Keys(InitialPayload())
        && (forall k :: k in PayloadKeys ==> Get(b.payload, k).Some? && Get(b.payload, k).value.JList?)
        && (forall c :: 0 <= c < |cats| ==>
              CategoryItems(cats[c], f.values[c], ModName(f), d.sources).Success? &&
              Get(b.payload, PayloadKeys[c]) == Some(JList(CategoryItems(cats[c], f.values[c], ModName(f), d.sources).value)))
  {
    var b := BuildUpTo(cats, f, current, d, |cats|);
    BuildPayload(cats, f, current, d, |cats|);
    if b.error.None? {
      assert forall k :: k in Keys(InitialPayload()) <==> k in PayloadKeys by {
        InitialKeys();
      }
      ListsAsBuilt(b.payload, InitialPayload(), cats, f, d);
    }
  }

  /** The keys and lists of a payload built over every category, from an
      initial payload `init` holding exactly the table's keys. */
  lemma ListsAsBuilt(p: seq<(string, J)>, init: seq<(string, J)>, cats: seq<Category>, f: Form, d: Disk)
    requires WellFormed(cats) && Shaped(cats, f.values) && KeysOf(cats) == PayloadKeys
    requires forall k :: k in Keys(init) <==> k in PayloadKeys
    requires forall c :: 0 <= c < |cats| ==>
      CategoryItems(cats[c], f.values[c], ModName(f), d.sources).Success? &&
      ListItems(Get(p, cats[c].key)) == CategoryItems(cats[c], f.values[c], ModName(f), d.sources).value
    requires forall k :: Get(p, k).Some? ==> Get(p, k).value.JList?
    requires Keys(init) <= Keys(p) && Keys(p) <= Keys(init) + set c | 0 <= c < |cats| :: cats[c].key
    ensures Keys(p) == Keys(init)
    ensures forall k :: k in PayloadKeys ==> Get(p, k).Some? && Get(p, k).value.JList?
    ensures forall c :: 0 <= c < |cats| ==>
      Get(p, PayloadKeys[c]) == Some(JList(CategoryItems(cats[c], f.values[c], ModName(f), d.sources).value))
  {
    assert (set c | 0 <= c < |cats| :: cats[c].key) <= Keys(init) by {
      forall c | 0 <= c < |cats| ensures cats[c].key in Keys(init) {
        assert cats[c].key == PayloadKeys[c];
      }
    }
    forall c | 0 <= c < |cats|
      ensures Get(p, PayloadKeys[c]) == Some(JList(CategoryItems(cats[c], f.values[c], ModName(f), d.sources).value))
    {
      assert cats[c].key == PayloadKeys[c];
    }
  }

  /** The document starts with the thirteen keys of the table. */
  lemma InitialKeys()
    ensures Keys(InitialPayload()) == set k | k in PayloadKeys
  {
    forall k ensures k in Keys(InitialPayload()) <==> k in PayloadKeys {
      InitialPayloadLists(k);
    }
  }

  // ---------------------------------------------------------------------------
  // The document and the save

  /** The fixed parts of every document, and the general fields with their
      defaults. */
  lemma ManifestShape(f: Form, payload: seq<(string, J)>)
    ensures var doc := Manifest(f, payload);
      && At(doc, ["manifest_version"]) == Some(JInt(3))
      && At(doc, ["version"]) == Some(JStr("1.0"))
      && At(doc, ["icons", "512"]) == Some(JStr("icon_512.png"))
      && At(doc, ["mod", "schema_version"]) == Some(JInt(2))
      && At(doc, ["mod", "flavor", "features"]) == Some(JList([]))
      && At(doc, ["mod", "flavor", "hash"]) == Some(JStr("74be16979710d4c4e7c6647856088456"))
      && At(doc, ["mod", "flavor", "parent_hash"]) == Some(JStr("d41d8cd98f00b204e9800998ecf8427e"))
      && At(doc, ["mod", "license"]) == Some(JStr("license.txt"))
      && At(doc, ["update_url"]) == Some(JStr("https://api.gx.me/store/mods/update"))
      && At(doc, ["mod", "payload"]) == Some(JObj(payload))
    ensures var doc := Manifest(f, payload);
      && At(doc, ["name"]) == Some(JStr(if Strip(f.name) == "" then "My GX Mod" else Strip(f.name)))
      && At(doc, ["developer", "name"]) == Some(JStr(if Strip(f.developer) == "" then "Anonymous" else Strip(f.developer)))
      && At(doc, ["description"]) == Some(JStr(if Strip(f.description) == "" then "A custom Opera GX mod." else Strip(f.description)))
  {
    var doc := Manifest(f, payload);
    ManifestTop(f, payload);
    ManifestLinks(f, payload);
    ManifestGeneral(f, payload);
    ModSectionShape(payload);
    AtStep(doc, "mod", ["schema_version"]);
    AtStep(doc, "mod", ["license"]);
    AtStep(doc, "mod", ["payload"]);
    AtStep(doc, "mod", ["flavor", "features"]);
    AtStep(doc, "mod", ["flavor", "hash"]);
    AtStep(doc, "mod", ["flavor", "parent_hash"]);
  }

  lemma ManifestTop(f: Form, payload: seq<(string, J)>)
    ensures var doc := Manifest(f, payload);
      && At(doc, ["manifest_version"]) == Some(JInt(3))
      && At(doc, ["version"]) == Some(JStr("1.0"))
      && Get(doc.fields, "mod") == Some(ModSection(payload))
  {
    var doc := Manifest(f, payload);
    GetSuffix(doc.fields, 0, "manifest_version");
    GetSuffix(doc.fields, 2, "version");
    GetSuffix(doc.fields, 6, "mod");
  }

  lemma ManifestLinks(f: Form, payload: seq<(string, J)>)
    ensures var doc := Manifest(f, payload);
      && At(doc, ["icons", "512"]) == Some(JStr("icon_512.png"))
      && At(doc, ["update_url"]) == Some(JStr("https://api.gx.me/store/mods/update"))
  {
    var doc := Manifest(f, payload);
    GetSuffix(doc.fields, 5, "icons");
    GetSuffix(doc.fields, 7, "update_url");
    AtStep(doc, "icons", ["512"]);
  }

  lemma ManifestGeneral(f: Form, payload: seq<(string, J)>)
    ensures var doc := Manifest(f, payload);
      && At(doc, ["name"]) == Some(JStr(ModName(f)))
      && At(doc, ["developer", "name"]) == Some(JStr(TextOr(f.developer, DefaultDeveloper)))
      && At(doc, ["description"]) == Some(JStr(TextOr(f.description, DefaultDescription)))
  {
    var doc := Manifest(f, payload);
    GetSuffix(doc.fields, 1, "name");
    GetSuffix(doc.fields, 3, "description");
    GetSuffix(doc.fields, 4, "developer");
    AtStep(doc, "developer", ["name"]);
  }

  lemma ModSectionShape(payload: seq<(string, J)>)
    ensures var m := ModSection(payload);
      && At(m, ["schema_version"]) == Some(JInt(2))
      && At(m, ["flavor", "features"]) == Some(JList([]))
      && At(m, ["flavor", "hash"]) == Some(JStr("74be16979710d4c4e7c6647856088456"))
      && At(m, ["flavor", "parent_hash"]) == Some(JStr("d41d8cd98f00b204e9800998ecf8427e"))
      && At(m, ["license"]) == Some(JStr("license.txt"))
      && At(m, ["payload"]) == Some(JObj(payload))
  {
    var m := ModSection(payload);
    GetSuffix(m.fields, 0, "schema_version");
    GetSuffix(m.fields, 1, "flavor");
    GetSuffix(m.fields, 2, "license");
    GetSuffix(m.fields, 3, "payload");
    GetSuffix(Flavor().fields, 0, "features");
    GetSuffix(Flavor().fields, 1, "hash");
    GetSuffix(Flavor().fields, 2, "parent_hash");
    AtStep(m, "flavor", ["features"]);
    AtStep(m, "flavor", ["hash"]);
    AtStep(m, "flavor", ["parent_hash"]);
  }

  /** One step down a path. */
  lemma AtStep(j: J, k: string, rest: seq<string>)
    requires j.JObj? && Get(j.fields, k).Some?
    ensures At(j, [k] + rest) == At(Get(j.fields, k).value, rest)
  {
    assert ([k] + rest)[1..] == rest;
  }

  /** `WithSubdirs` makes each of the first `k` sub-directories. */
  lemma {:induction false} SubdirsMade(d: Disk, folder: string, k: nat)
    requires folder in d.folders && k <= |Subdirs|
    ensures forall i :: 0 <= i < k ==>
      Subdirs[i] in WithSubdirs(d, folder, k).folders[folder].entries &&
      WithSubdirs(d, folder, k).folders[folder].entries[Subdirs[i]] == Directory
  {
    if k > 0 {
      SubdirsMade(d, folder, k - 1);
    }
  }

  /** A save that aborts leaves the project folder as it was and writes no
      manifest: only the images ingested before the error stay behind. */
  lemma SaveAborted(cats: seq<Category>, projectsDir: string, f: Form, current: Option<string>, d: Disk)
    requires Shaped(cats, f.values)
    ensures var s := Save(cats, projectsDir, f, current, d);
      s.error.Some? <==> BuildUpTo(cats, f, current, d, |cats|).error.Some?
    ensures var s := Save(cats, projectsDir, f, current, d);
      s.error.Some? ==> s.current == current && WritesInto(d, s.disk, current)
    ensures var s := Save(cats, projectsDir, f, current, d);
      s.error.Some? && current.None? ==> s.disk == d
  {
    BuildWrites(cats, f, current, d, |cats|);
  }

  /** A save that completes adopts its folder (the current one, or the one
      named after the mod), makes it with every sub-directory, writes the
      document there, and touches no other folder. */
  lemma SaveCompleted(cats: seq<Category>, projectsDir: string, f: Form, current: Option<string>, d: Disk)
    requires Shaped(cats, f.values)
    ensures var s := Save(cats, projectsDir, f, current, d);
      var folder := if current.Some? then current.value else FolderFor(projectsDir, ModName(f));
      s.error.None? ==>
        && s.current == Some(folder)
        && folder in s.disk.folders
        && s.disk.folders[folder].manifest == Some(Manifest(f, BuildUpTo(cats, f, current, d, |cats|).payload))
        && (forall i :: 0 <= i < |Subdirs| ==>
              Subdirs[i] in s.disk.folders[folder].entries && s.disk.folders[folder].entries[Subdirs[i]] == Directory)
        && s.disk.sources == d.sources
        && (forall q :: q in d.folders && q != folder ==> q in s.disk.folders && s.disk.folders[q] == d.folders[q])
        && (forall q :: q in s.disk.folders ==> q in d.folders || q == folder)
  {
    var b := BuildUpTo(cats, f, current, d, |cats|);
    BuildWrites(cats, f, current, d, |cats|);
    if b.error.None? {
      var folder := if current.Some? then current.value else FolderFor(projectsDir, ModName(f));
      var s := Save(cats, projectsDir, f, current, d);
      assert s.disk == PutManifest(WithSubdirs(MakeDirs(b.disk, folder), folder, |Subdirs|), folder, Manifest(f, b.payload));
      FolderWritten(b.disk, folder, Manifest(f, b.payload));
    }
  }

  /** Writing a project folder: the folder made if missing, every
      sub-directory in it, the document stored, and no other folder touched. */
  lemma FolderWritten(d: Disk, folder: string, doc: J)
    ensures var r := PutManifest(WithSubdirs(MakeDirs(d, folder), folder, |Subdirs|), folder, doc);
      && folder in r.folders
      && r.folders[folder].manifest == Some(doc)
      && (forall i :: 0 <= i < |Subdirs| ==>
            Subdirs[i] in r.folders[folder].entries && r.folders[folder].entries[Subdirs[i]] == Directory)
      && r.sources == d.sources
      && (forall q :: q in d.folders && q != folder ==> q in r.folders && r.folders[q] == d.folders[q])
      && (forall q :: q in r.folders ==> q in d.folders || q == folder)
  {
    SubdirsMade(MakeDirs(d, folder), folder, |Subdirs|);
  }

  // ---------------------------------------------------------------------------
  // The program's table

  /** In a complete save over the program's table, each of the five
      singleton categories holds exactly one item, whose `id` and `name` are
      non-empty, whatever the form holds. */
  lemma SingletonsHoldOneItem(f: Form, current: Option<string>, d: Disk, c: nat)
    requires Shaped(PayloadOptions, f.values) && c in {0, 1, 2, 10, 11}
    ensures var b := BuildUpTo(PayloadOptions, f, current, d, |PayloadOptions|);
      var cat := PayloadOptions[c];
      var item := SingletonFields(ModName(f), cat.key, d.sources, cat.fields, f.values[c], |f.values[c]|);
      b.error.None? ==>
        Get(b.payload, cat.key) == Some(JList([JObj(item)])) &&
        Get(item, "id").Some? && Truthy(Get(item, "id").value) && Get(item, "name").Some? && Truthy(Get(item, "name").value)
  {
    PayloadOptionsWellFormed();
    PayloadKeysAreTableKeys();
    KindsOfTable();
    CompletePayload(PayloadOptions, f, current, d);
    SingletonAlwaysOne(PayloadOptions[c], f.values[c], ModName(f), d.sources);
  }

  /** In a complete save over the program's table, the theme holds exactly
      one item with both modes, built from the twelve parsed colour texts. */
  lemma ThemeHoldsOneItem(f: Form, current: Option<string>, d: Disk)
    requires Shaped(PayloadOptions, f.values)
    ensures var b := BuildUpTo(PayloadOptions, f, current, d, |PayloadOptions|);
      var texts := ThemeTexts(PayloadOptions[12].fields, f.values[12]);
      b.error.None? ==>
        (forall i :: 0 <= i < |ThemeSlots| ==> ParseInt(texts[i]).Some?) &&
        Get(b.payload, "theme") == Some(JList([JObj(ThemeObject(ModName(f), ThemeNumbers(texts)))]))
  {
    PayloadOptionsWellFormed();
    PayloadKeysAreTableKeys();
    KindsOfTable();
    CompletePayload(PayloadOptions, f, current, d);
    ThemeOutcome(ModName(f), PayloadOptions[12].fields, f.values[12]);
  }

  /** A colour text `int()` rejects aborts the save on the first such slot,
      after every other category: the project folder stays as it was and no
      manifest is written. */
  lemma ThemeParseFailureAborts(projectsDir: string, f: Form, current: Option<string>, d: Disk)
    requires Shaped(PayloadOptions, f.values)
    requires BuildUpTo(PayloadOptions, f, current, d, 12).error.None?
    requires exists i :: 0 <= i < |ThemeSlots| && ParseInt(ThemeTexts(PayloadOptions[12].fields, f.values[12])[i]).None?
    ensures var s := Save(PayloadOptions, projectsDir, f, current, d);
      s.error.Some? && s.current == current && WritesInto(d, s.disk, current)
    ensures var s := Save(PayloadOptions, projectsDir, f, current, d);
      var texts := ThemeTexts(PayloadOptions[12].fields, f.values[12]);
      exists j :: 0 <= j < |ThemeSlots| && ParseInt(texts[j]).None? && (forall i :: 0 <= i < j ==> ParseInt(texts[i]).Some?)
                  && s.error == Some(NotANumber(ThemeSlots[j].field))
  {
    var prev := BuildUpTo(PayloadOptions, f, current, d, 12);
    var cat := PayloadOptions[12];
    KindsOfTable();
    ThemeOutcome(ModName(f), cat.fields, f.values[12]);
    assert BuildUpTo(PayloadOptions, f, current, d, 13) == Step(prev, cat, f.values[12], ModName(f), current, d.sources);
    SaveAborted(PayloadOptions, projectsDir, f, current, d);
  }
}
