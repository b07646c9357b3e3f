/** The part of the file system the mod maker touches, as values: the image
    files a field may name (with what opening them yields), and the project
    folders, each with the entries written into it and its `manifest.json`. */
module Files {
  import opened Wrappers
  import opened Json
  import opened Text

  /** The encodings `Image.save` is asked for. */
  datatype Format = Png | Jpeg

  /** What `Image.open` makes of an existing file. */
  datatype Source = Unreadable | Picture(width: nat, height: nat)

  /** An entry inside a project folder, by its path relative to the folder. */
  datatype Entry = Directory | Rendered(width: nat, height: nat, format: Format) | Copied(from: string)

  datatype Folder = Folder(entries: map<string, Entry>, manifest: Option<J>)

  datatype Disk = Disk(sources: map<string, Source>, folders: map<string, Folder>)

  /** `os.makedirs(p, exist_ok=True)` for a project folder. */
  function MakeDirs(d: Disk, p: string): (r: Disk)
    ensures r.sources == d.sources && p in r.folders
    ensures p in d.folders ==> r == d
    ensures p !in d.folders ==> r.folders == d.folders[p := Folder(map[], None)]
  {
    if p in d.folders then d else d.(folders := d.folders[p := Folder(map[], None)])
  }

  /** Writes `e` at `rel` inside the existing folder `p`. */
  function PutEntry(d: Disk, p: string, rel: string, e: Entry): (r: Disk)
    requires p in d.folders
    ensures r.sources == d.sources && r.folders.Keys == d.folders.Keys
    ensures r.folders[p].entries == d.folders[p].entries[rel := e]
    ensures r.folders[p].manifest == d.folders[p].manifest
    ensures forall q :: q in d.folders && q != p ==> r.folders[q] == d.folders[q]
  {
    var f := d.folders[p];
    d.(folders := d.folders[p := f.(entries := f.entries[rel := e])])
  }

  /** Writes `manifest.json` into the existing folder `p`. */
  function PutManifest(d: Disk, p: string, doc: J): (r: Disk)
    requires p in d.folders
    ensures r.sources == d.sources && r.folders.Keys == d.folders.Keys
    ensures r.folders[p] == d.folders[p].(manifest := Some(doc))
    ensures forall q :: q in d.folders && q != p ==> r.folders[q] == d.folders[q]
  {
    d.(folders := d.folders[p := d.folders[p].(manifest := Some(doc))])
  }

  /** `f` with a sub-directory `name` in it. */
  function Nest(f: Folder, name: string): (r: Folder)
    ensures r.manifest == f.manifest && r.entries == f.entries[name := Directory]
  {
    Folder(f.entries[name := Directory], f.manifest)
  }

  /** `shutil.move(src, dst)` of a project folder. When `dst` is already a
      folder, `src` is moved inside it, under its own base name, and the
      move is refused (`None`) when that name is already taken there. */
  function MoveFolder(d: Disk, src: string, dst: string): (r: Option<Disk>)
    requires src in d.folders && src != dst
    ensures r.None? <==> dst in d.folders && Base(src) in d.folders[dst].entries
    ensures r.Some? ==> r.value.sources == d.sources
    ensures r.Some? ==> src !in r.value.folders && dst in r.value.folders
    ensures r.Some? && dst !in d.folders ==> r.value.folders[dst] == d.folders[src]
  {
    if dst in d.folders && Base(src) in d.folders[dst].entries then None
    else
      var rest := d.folders - {src};
      var moved := if dst in d.folders then Nest(d.folders[dst], Base(src)) else d.folders[src];
      Some(Disk(d.sources, rest[dst := moved]))
  }

  /** A move touches no folder other than its two ends. */
  lemma MoveKeepsOthers(d: Disk, src: string, dst: string, q: string)
    requires src in d.folders && src != dst && MoveFolder(d, src, dst).Some?
    requires q in d.folders && q != src && q != dst
    ensures q in MoveFolder(d, src, dst).value.folders && MoveFolder(d, src, dst).value.folders[q] == d.folders[q]
  {
  }
}
