/** The editor window with its widgets taken away: the texts of the form,
    the project folder being edited and the disk. Each handler of the window
    is a method; a save or a load happens where a method is called, not
    through the text-changed signals. */
module Project {
  import opened Wrappers
  import opened Text
  import opened Json
  import opened Schema
  import opened Files
  import opened Imaging
  import opened Compiler
  import opened Loader

  /** The rename handler's default name, `strip() or "My_GX_Mod"`. */
  const RenameDefault := "My_GX_Mod"

  /** The title the window gives a new project. */
  const NewModTitle := "New Mod"

  /** Why a rename attempt stopped inside its `try`; the window reports it
      and carries on. */
  datatype RenameError = MoveRefused | NotAnObject | SaveFailed(cause: SaveError)

  /** Every field of the table blank, as a fresh editor window has it. */
  function BlankValues(): (r: seq<seq<string>>)
    ensures Shaped(PayloadOptions, r)
  {
    seq(|PayloadOptions|, c requires 0 <= c < |PayloadOptions| =>
      seq(|PayloadOptions[c].fields|, i requires 0 <= i < |PayloadOptions[c].fields| => ""))
  }

  /** `os.path.join(projects_dir, name)` is never empty for a non-empty name. */
  lemma JoinPathNonEmpty(a: string, b: string)
    requires b != ""
    ensures JoinPath(a, b) != ""
  {
  }

  /** The rename handler and the save name a blank mod name differently,
      `My_GX_Mod` and `My GX Mod`, yet put the project in the same folder. */
  lemma FolderNamesAgree(projectsDir: string, text: string)
    ensures FolderFor(projectsDir, TextOr(text, RenameDefault)) == FolderFor(projectsDir, TextOr(text, DefaultName))
  {
    if Strip(text) == "" {
      assert ReplaceSpaces(DefaultName) == RenameDefault;
      assert ReplaceSpaces(RenameDefault) == RenameDefault;
    }
  }

  /** A compiler error stops the build for good. */
  lemma BuildStops(cats: seq<Category>, f: Form, current: Option<string>, d: Disk, n: nat, m: nat)
    requires n <= m <= |cats| && Shaped(cats, f.values)
    requires BuildUpTo(cats, f, current, d, n).error.Some?
    ensures BuildUpTo(cats, f, current, d, m) == BuildUpTo(cats, f, current, d, n)
  {
    var i := n;
    while i < m
      invariant n <= i <= m && BuildUpTo(cats, f, current, d, i) == BuildUpTo(cats, f, current, d, n)
    {
      StoppedStays(cats, f, current, d, i);
      i := i + 1;
    }
  }

  lemma StoppedStays(cats: seq<Category>, f: Form, current: Option<string>, d: Disk, n: nat)
    requires n < |cats| && Shaped(cats, f.values)
    requires BuildUpTo(cats, f, current, d, n).error.Some?
    ensures BuildUpTo(cats, f, current, d, n + 1) == BuildUpTo(cats, f, current, d, n)
  {
  }

  /** One more category is one more step. */
  lemma BuildNext(cats: seq<Category>, f: Form, current: Option<string>, d: Disk, n: nat)
    requires n < |cats| && Shaped(cats, f.values)
    requires BuildUpTo(cats, f, current, d, n).error.None?
    ensures BuildUpTo(cats, f, current, d, n + 1) ==
      Step(BuildUpTo(cats, f, current, d, n), cats[n], f.values[n], ModName(f), current, d.sources)
  {
  }

  /** The next category of a build that has not failed, from its state. */
  lemma BuildAdvance(cats: seq<Category>, f: Form, current: Option<string>, d: Disk, n: nat,
                     payload: seq<(string, J)>, d1: Disk)
    requires n < |cats| && Shaped(cats, f.values)
    requires BuildUpTo(cats, f, current, d, n) == Build(payload, d1, None)
    ensures BuildUpTo(cats, f, current, d, n + 1) ==
      Step(Build(payload, d1, None), cats[n], f.values[n], ModName(f), current, d.sources)
  {
    BuildNext(cats, f, current, d, n);
  }

  /** `Save` is the build followed, when it succeeds, by the folder and the
      document. */
  lemma SaveOutcome(cats: seq<Category>, projectsDir: string, f: Form, current: Option<string>, d: Disk)
    requires Shaped(cats, f.values)
    ensures var b := BuildUpTo(cats, f, current, d, |cats|); var s := Save(cats, projectsDir, f, current, d);
      if b.error.Some? then s == Saved(current, b.disk, b.error)
      else
        var folder := if current.Some? then current.value else FolderFor(projectsDir, ModName(f));
        s == Saved(Some(folder), PutManifest(WithSubdirs(MakeDirs(b.disk, folder), folder, |Subdirs|), folder, Manifest(f, b.payload)), None)
  {
  }

  /** One more category of a load that has not failed. */
  lemma LoadStep(cats: seq<Category>, payload: seq<(string, J)>, f: Form, n: nat, g: Form)
    requires n < |cats| && Shaped(cats, f.values)
    requires LoadUpTo(cats, payload, f, n) == Loaded(g, None)
    ensures var row := LoadCategory(payload, cats[n], g.values[n]);
      && LoadUpTo(cats, payload, f, n + 1) == Loaded(g.(values := g.values[n := row.texts]), row.error)
      && Shaped(cats, g.values[n := row.texts])
  {
  }

  /** A loader fault stops the load for good. */
  lemma {:induction false} LoadStops(cats: seq<Category>, payload: seq<(string, J)>, f: Form, n: nat, m: nat)
    requires n <= m <= |cats| && Shaped(cats, f.values)
    requires LoadUpTo(cats, payload, f, n).error.Some?
    ensures LoadUpTo(cats, payload, f, m) == LoadUpTo(cats, payload, f, n)
  {
    if m > n {
      LoadStops(cats, payload, f, n, m - 1);
    }
  }

  /** The folder after a successful move, with the document's `name`
      rewritten when it has one; a refused move fails first. */
  function Renamed(d: Disk, cur: string, newFolder: string, newName: string): (r: Result<Disk, RenameError>)
    requires cur in d.folders && cur != newFolder
    ensures r == Failure(MoveRefused) <==> MoveFolder(d, cur, newFolder).None?
    ensures r.Failure? ==> !r.error.SaveFailed?
    ensures r == Failure(NotAnObject) ==>
              && MoveFolder(d, cur, newFolder).Some?
              && var m := MoveFolder(d, cur, newFolder).value.folders[newFolder].manifest;
                 m.Some? && !m.value.JObj?
    ensures r.Success? ==> r.value.sources == d.sources && cur !in r.value.folders && newFolder in r.value.folders
    ensures r.Success? && r.value.folders[newFolder].manifest.Some? ==>
              var m := r.value.folders[newFolder].manifest.value;
              m.JObj? && Get(m.fields, "name") == Some(JStr(newName))
  {
    if MoveFolder(d, cur, newFolder).None? then Failure(MoveRefused)
    else
      var moved := MoveFolder(d, cur, newFolder).value;
      var m := moved.folders[newFolder].manifest;
      if m.None? then Success(moved)
      else if !m.value.JObj? then Failure(NotAnObject)
      else
        GetPut(m.value.fields, "name", JStr(newName));
        Success(PutManifest(moved, newFolder, JObj(Put(m.value.fields, "name", JStr(newName)))))
  }

  /** One pass of the loop: ingestion of a singleton's images, then the
      category's items appended to the payload. */
  method CompileCategory(cat: Category, vals: seq<string>, mod: string, cur: Option<string>,
                         payload0: seq<(string, J)>, d0: Disk, sources: map<string, Source>)
    returns (payload: seq<(string, J)>, d: Disk, error: Option<SaveError>)
    requires |vals| == |cat.fields|
    ensures Step(Build(payload0, d0, None), cat, vals, mod, cur, sources) == Build(payload, d, error)
  {
    payload, d, error := payload0, d0, None;
    if KindOf(cat.key) == Singleton {
      var ingested := IngestFields(d, cur, cat.key, cat.fields, vals, |vals|);
      if ingested.Failure? {
        error := Some(ingested.error);
        return;
      }
      d := ingested.value;
    }
    var items := CategoryItems(cat, vals, mod, sources);
    if items.Failure? {
      error := Some(items.error);
    } else {
      payload := Extend(payload, cat.key, items.value);
    }
  }

  class ModMaker {
    const projectsDir: string
    var name: string
    var developer: string
    var description: string
    var values: seq<seq<string>>
    var currentModPath: Option<string>
    var disk: Disk

    /** One text per field of the table, and a set project path is never
        empty, so Python's truth test on it is the same as being set. */
    ghost predicate Valid()
      reads this
    {
      Shaped(PayloadOptions, values) && (currentModPath.Some? ==> currentModPath.value != "")
    }

    function FormOf(): Form
      reads this
    {
      Form(name, developer, description, values)
    }

    constructor (projectsDir: string, disk: Disk)
      ensures Valid()
      ensures this.projectsDir == projectsDir && this.disk == disk && currentModPath.None?
      ensures FormOf() == Form("", "", "", BlankValues())
    {
      this.projectsDir := projectsDir;
      this.disk := disk;
      name, developer, description := "", "", "";
      values := BlankValues();
      currentModPath := None;
    }

    /** The category loop of `save_manifest`: each category in table order
        ingests its images and extends its payload list; an error stops the
        loop where it is, with the images already ingested left on disk. */
    method CompilePayload() returns (payload: seq<(string, J)>, error: Option<SaveError>)
      requires Valid()
      modifies this
      ensures Valid() && FormOf() == old(FormOf()) && currentModPath == old(currentModPath)
      ensures BuildUpTo(PayloadOptions, FormOf(), currentModPath, old(disk), |PayloadOptions|) == Build(payload, disk, error)
    {
      ghost var d0 := disk;
      var sources := disk.sources;
      var f := FormOf();
      var cur := currentModPath;
      var mod := ModName(f);
      var d := disk;
      payload, error := InitialPayload(), None;
      var n := 0;
      while n < |PayloadOptions| && error.None?
        modifies {}
        invariant 0 <= n <= |PayloadOptions|
        invariant BuildUpTo(PayloadOptions, f, cur, d0, n) == Build(payload, d, error)
      {
        BuildAdvance(PayloadOptions, f, cur, d0, n, payload, d);
        payload, d, error := CompileCategory(PayloadOptions[n], f.values[n], mod, cur, payload, d, sources);
        n := n + 1;
      }
      if error.Some? {
        BuildStops(PayloadOptions, f, cur, d0, n, |PayloadOptions|);
      }
      disk := d;
    }

    /** `save_manifest`: the payload, then the project folder (the current
        one, or one named after the mod), its sub-directories and the
        document. */
    method SaveManifest() returns (error: Option<SaveError>)
      requires Valid()
      modifies this
      ensures Valid() && FormOf() == old(FormOf())
      ensures var s := Save(PayloadOptions, projectsDir, FormOf(), old(currentModPath), old(disk));
        currentModPath == s.current && disk == s.disk && error == s.error
    {
      var payload;
      payload, error := CompilePayload();
      SaveOutcome(PayloadOptions, projectsDir, FormOf(), old(currentModPath), old(disk));
      if error.None? {
        WriteProject(payload);
      }
    }

    /** The end of `save_manifest` once the payload is built: the project
        folder (the current one, or one named after the mod) is made, then
        its sub-directories, then the document is written into it. */
    method WriteProject(payload: seq<(string, J)>)
      requires Valid()
      modifies this
      ensures Valid() && FormOf() == old(FormOf())
      ensures var folder := if old(currentModPath).Some? then old(currentModPath).value else FolderFor(projectsDir, ModName(FormOf()));
        currentModPath == Some(folder) &&
        disk == PutManifest(WithSubdirs(MakeDirs(old(disk), folder), folder, |Subdirs|), folder, Manifest(FormOf(), payload))
    {
      var mod := ModName(FormOf());
      var folder := if currentModPath.Some? then currentModPath.value else FolderFor(projectsDir, mod);
      if currentModPath.None? {
        JoinPathNonEmpty(projectsDir, ReplaceSpaces(mod) + "_Mod");
      }
      var d := MakeDirs(disk, folder);
      ghost var d1 := d;
      for i := 0 to |Subdirs|
        modifies {}
        invariant folder in d.folders && d == WithSubdirs(d1, folder, i)
      {
        d := PutEntry(d, folder, Subdirs[i], Directory);
      }
      currentModPath := Some(folder);
      disk := PutManifest(d, folder, Manifest(FormOf(), payload));
    }

    /** `auto_save`: saves only when a project folder is set. */
    method AutoSave() returns (error: Option<SaveError>)
      requires Valid()
      modifies this
      ensures Valid() && FormOf() == old(FormOf())
      ensures old(currentModPath).None? ==> currentModPath == old(currentModPath) && disk == old(disk) && error.None?
      ensures old(currentModPath).Some? ==>
        var s := Save(PayloadOptions, projectsDir, FormOf(), old(currentModPath), old(disk));
        currentModPath == s.current && disk == s.disk && error == s.error
    {
      error := None;
      if currentModPath.Some? {
        error := SaveManifest();
      }
    }

    /** `manual_save`: the same, reporting success once the save went
        through. */
    method ManualSave() returns (error: Option<SaveError>, reported: bool)
      requires Valid()
      modifies this
      ensures Valid() && FormOf() == old(FormOf())
      ensures old(currentModPath).None? ==>
        currentModPath == old(currentModPath) && disk == old(disk) && error.None? && !reported
      ensures old(currentModPath).Some? ==>
        var s := Save(PayloadOptions, projectsDir, FormOf(), old(currentModPath), old(disk));
        currentModPath == s.current && disk == s.disk && error == s.error && (reported <==> s.error.None?)
    {
      error, reported := None, false;
      if currentModPath.Some? {
        error := SaveManifest();
        reported := error.None?;
      }
    }

    /** `load_manifest`: with a document in the project folder, the general
        fields and then the categories in table order, each field set as
        soon as it is read; a fault stops the load with what was set kept. */
    method LoadManifest() returns (error: Option<LoadError>)
      requires Valid()
      modifies this
      ensures Valid() && currentModPath == old(currentModPath) && disk == old(disk)
      ensures var p := currentModPath;
        if p.Some? && p.value in disk.folders && disk.folders[p.value].manifest.Some? then
          var r := Load(PayloadOptions, disk.folders[p.value].manifest.value, old(FormOf()));
          FormOf() == r.form && error == r.error
        else FormOf() == old(FormOf()) && error.None?
    {
      error := None;
      if currentModPath.None? || currentModPath.value !in disk.folders || disk.folders[currentModPath.value].manifest.None? {
        return;
      }
      var doc := disk.folders[currentModPath.value].manifest.value;
      if !doc.JObj? {
        error := Some(WrongShape("manifest"));
        return;
      }
      var n0 := StrOr(Get(doc.fields, "name"));
      if n0.None? {
        error := Some(WrongShape("name"));
        return;
      }
      name := n0.value;
      assert Load(PayloadOptions, doc, old(FormOf())) == LoadDeveloper(PayloadOptions, doc.fields, FormOf());
      var dev := Field(doc.fields, "developer");
      if dev.Failure? {
        error := Some(dev.error);
        return;
      }
      if !dev.value.JObj? {
        error := Some(WrongShape("developer"));
        return;
      }
      var devName := Field(dev.value.fields, "name");
      if devName.Failure? {
        error := Some(devName.error);
        return;
      }
      if !devName.value.JStr? {
        error := Some(WrongShape("developer"));
        return;
      }
      ghost var f1 := FormOf();
      developer := devName.value.s;
      assert LoadDeveloper(PayloadOptions, doc.fields, f1) == LoadDescription(PayloadOptions, doc.fields, FormOf());
      var d0 := StrOr(Get(doc.fields, "description"));
      if d0.None? {
        error := Some(WrongShape("description"));
        return;
      }
      ghost var f2 := FormOf();
      description := d0.value;
      assert LoadDescription(PayloadOptions, doc.fields, f2) == LoadPayload(PayloadOptions, doc.fields, FormOf());
      var m := Field(doc.fields, "mod");
      if m.Failure? {
        error := Some(m.error);
        return;
      }
      if !m.value.JObj? {
        error := Some(WrongShape("mod"));
        return;
      }
      var pl := Field(m.value.fields, "payload");
      if pl.Failure? {
        error := Some(pl.error);
        return;
      }
      if !pl.value.JObj? {
        error := Some(WrongShape("payload"));
        return;
      }
      error := LoadCategories(pl.value.fields);
    }

    /** The category loop of `load_manifest` over a stored payload: each
        category in table order, its row replacing the old one; a fault
        stops the loop with the rows set so far kept. The rows are gathered
        in a local copy and written back once, after the loop, which leaves
        the same form since nothing reads it in between. */
    method LoadCategories(payload: seq<(string, J)>) returns (error: Option<LoadError>)
      requires Valid()
      modifies this
      ensures Valid() && currentModPath == old(currentModPath) && disk == old(disk)
      ensures LoadUpTo(PayloadOptions, payload, old(FormOf()), |PayloadOptions|) == Loaded(FormOf(), error)
    {
      ghost var f0 := FormOf();
      error := None;
      var rows := values;
      var n := 0;
      while n < |PayloadOptions|
        modifies {}
        invariant 0 <= n <= |PayloadOptions| && Shaped(PayloadOptions, rows)
        invariant LoadUpTo(PayloadOptions, payload, f0, n) == Loaded(f0.(values := rows), None)
      {
        var row := LoadCategory(payload, PayloadOptions[n], rows[n]);
        LoadStep(PayloadOptions, payload, f0, n, f0.(values := rows));
        rows := rows[n := row.texts];
        if row.error.Some? {
          error := row.error;
          LoadStops(PayloadOptions, payload, f0, n + 1, |PayloadOptions|);
          break;
        }
        n := n + 1;
      }
      values := rows;
      assert FormOf() == f0.(values := rows);
    }

    /** `create_new_mod`: no project folder, and a fresh window titled
        "New Mod" with the developer and description defaults. */
    method CreateNewMod()
      requires Valid()
      modifies this
      ensures Valid() && currentModPath.None? && disk == old(disk)
      ensures FormOf() == Form(NewModTitle, DefaultDeveloper, DefaultDescription, BlankValues())
    {
      currentModPath := None;
      values := BlankValues();
      name, developer, description := NewModTitle, DefaultDeveloper, DefaultDescription;
    }

    /** `load_mod`: the listed folder becomes the project folder, and a fresh
        window is filled from its document. */
    method LoadMod(folder: string) returns (error: Option<LoadError>)
      requires Valid() && folder != ""
      modifies this
      ensures Valid() && disk == old(disk)
      ensures currentModPath == Some(JoinPath(projectsDir, folder))
      ensures var p := JoinPath(projectsDir, folder); var blank := Form("", "", "", BlankValues());
        if p in disk.folders && disk.folders[p].manifest.Some? then
          var r := Load(PayloadOptions, disk.folders[p].manifest.value, blank);
          FormOf() == r.form && error == r.error
        else FormOf() == blank && error.None?
    {
      JoinPathNonEmpty(projectsDir, folder);
      currentModPath := Some(JoinPath(projectsDir, folder));
      name, developer, description := "", "", "";
      values := BlankValues();
      error := LoadManifest();
    }

    /** The `try` block of `update_mod_folder` up to its save: the folder is
        moved and adopted, then its document, if there is one, takes the
        new name. A refused move changes nothing; a document that is not an
        object is reported after the move. */
    method MoveProject(cur: string, newFolder: string, newName: string) returns (caught: Option<RenameError>)
      requires Valid() && cur in disk.folders && cur != newFolder && newFolder != ""
      modifies this
      ensures Valid() && FormOf() == old(FormOf())
      ensures match Renamed(old(disk), cur, newFolder, newName)
        case Failure(e) =>
          caught == Some(e) &&
          if e == MoveRefused then currentModPath == old(currentModPath) && disk == old(disk)
          else currentModPath == Some(newFolder) && disk == MoveFolder(old(disk), cur, newFolder).value
        case Success(d1) => caught.None? && currentModPath == Some(newFolder) && disk == d1
    {
      caught := None;
      var moved := MoveFolder(disk, cur, newFolder);
      if moved.None? {
        caught := Some(MoveRefused);
        return;
      }
      disk := moved.value;
      currentModPath := Some(newFolder);
      var m := disk.folders[newFolder].manifest;
      if m.Some? {
        if !m.value.JObj? {
          caught := Some(NotAnObject);
          return;
        }
        disk := PutManifest(disk, newFolder, JObj(Put(m.value.fields, "name", JStr(newName))));
      }
    }

    /** `update_mod_folder`: the project follows the mod name. With no
        project folder, or one already so named, nothing happens. An
        existing folder is moved and adopted, its document renamed and the
        project saved, any failure on the way reported and swallowed; a
        missing one is replaced by the new folder, made and saved, and a
        failure of that save is raised. */
    method UpdateModFolder(moveFails: bool) returns (caught: Option<RenameError>, raised: Option<SaveError>)
      requires Valid()
      modifies this
      ensures Valid() && FormOf() == old(FormOf())
      ensures var newName := TextOr(name, RenameDefault); var newFolder := FolderFor(projectsDir, newName);
        var cur := old(currentModPath);
        if cur.None? || cur.value == newFolder then
          currentModPath == cur && disk == old(disk) && caught.None? && raised.None?
        else if cur.value in old(disk.folders) then
          raised.None? &&
          if moveFails then currentModPath == cur && disk == old(disk) && caught == Some(MoveRefused)
          else
            match Renamed(old(disk), cur.value, newFolder, newName)
            case Failure(e) =>
              caught == Some(e) &&
              if e == MoveRefused then currentModPath == cur && disk == old(disk)
              else currentModPath == Some(newFolder) && disk == MoveFolder(old(disk), cur.value, newFolder).value
            case Success(d1) =>
              var s := Save(PayloadOptions, projectsDir, FormOf(), Some(newFolder), d1);
              currentModPath == Some(newFolder) && disk == s.disk &&
              (if s.error.Some? then caught == Some(SaveFailed(s.error.value)) else caught.None?)
        else
          var s := Save(PayloadOptions, projectsDir, FormOf(), Some(newFolder), MakeDirs(old(disk), newFolder));
          currentModPath == Some(newFolder) && disk == s.disk && caught.None? && raised == s.error
      ensures currentModPath != old(currentModPath) ==> currentModPath == Some(FolderFor(projectsDir, ModName(FormOf())))
    {
      caught, raised := None, None;
      var newName := TextOr(name, RenameDefault);
      var newFolder := FolderFor(projectsDir, newName);
      FolderNamesAgree(projectsDir, name);
      JoinPathNonEmpty(projectsDir, ReplaceSpaces(newName) + "_Mod");
      if currentModPath.None? || currentModPath.value == newFolder {
        return;
      }
      var cur := currentModPath.value;
      if cur in disk.folders {
        caught := RenameProject(moveFails, cur, newFolder, newName);
      } else {
        raised := RecreateProject(newFolder);
      }
    }

    /** The existing-folder branch of `update_mod_folder`: the move and the
        rename of the document, then a save, any failure reported. */
    method RenameProject(moveFails: bool, cur: string, newFolder: string, newName: string) returns (caught: Option<RenameError>)
      requires Valid() && currentModPath == Some(cur) && cur in disk.folders && cur != newFolder && newFolder != ""
      modifies this
      ensures Valid() && FormOf() == old(FormOf())
      ensures
        if moveFails then currentModPath == old(currentModPath) && disk == old(disk) && caught == Some(MoveRefused)
        else
          match Renamed(old(disk), cur, newFolder, newName)
          case Failure(e) =>
            caught == Some(e) &&
            if e == MoveRefused then currentModPath == old(currentModPath) && disk == old(disk)
            else currentModPath == Some(newFolder) && disk == MoveFolder(old(disk), cur, newFolder).value
          case Success(d1) =>
            var s := Save(PayloadOptions, projectsDir, FormOf(), Some(newFolder), d1);
            currentModPath == Some(newFolder) && disk == s.disk &&
            (if s.error.Some? then caught == Some(SaveFailed(s.error.value)) else caught.None?)
    {
      if moveFails {
        caught := Some(MoveRefused);
        return;
      }
      caught := MoveProject(cur, newFolder, newName);
      if caught.Some? {
        return;
      }
      ghost var d1 := disk;
      var e := SaveManifest();
      if e.Some? {
        caught := Some(SaveFailed(e.value));
      }
      assert currentModPath == Some(newFolder) by {
        SaveKeepsFolder(projectsDir, FormOf(), newFolder, d1);
      }
    }

    /** The missing-folder branch of `update_mod_folder`: the new folder is
        adopted and made, then saved, and a failure of the save is raised. */
    method RecreateProject(newFolder: string) returns (raised: Option<SaveError>)
      requires Valid() && newFolder != ""
      modifies this
      ensures Valid() && FormOf() == old(FormOf())
      ensures var s := Save(PayloadOptions, projectsDir, FormOf(), Some(newFolder), MakeDirs(old(disk), newFolder));
        currentModPath == Some(newFolder) && disk == s.disk && raised == s.error
    {
      currentModPath := Some(newFolder);
      disk := MakeDirs(disk, newFolder);
      ghost var d1 := disk;
      raised := SaveManifest();
      assert currentModPath == Some(newFolder) by {
        SaveKeepsFolder(projectsDir, FormOf(), newFolder, d1);
      }
    }
  }

  /** A save with a project folder set keeps it, whether or not it
      completes. */
  lemma SaveKeepsFolder(projectsDir: string, f: Form, folder: string, d: Disk)
    requires Shaped(PayloadOptions, f.values)
    ensures Save(PayloadOptions, projectsDir, f, Some(folder), d).current == Some(folder)
  {
  }
}
