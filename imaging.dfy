/** Image ingestion (`handle_image`): the choice between resizing, copying
    and doing nothing, the output size and encoding, and the effect on the
    project folder. */
module Imaging {
  import opened Wrappers
  import opened Text
  import opened Files

  /** The errors that abort a save: an `int()` that raises `ValueError`, and
      the `TypeError` of joining a path onto an unset project folder. */
  datatype SaveError = NotANumber(field: string) | NoProjectFolder

  /** What `handle_image` does with a readable image. */
  datatype Action = Resize(width: nat, height: nat, format: Format) | CopyVerbatim | Leave

  /** The smallest wallpaper or splash image stored as it is. */
  const MinWidth: nat := 1920
  const MinHeight: nat := 1080

  /** The decision for an image of `width` by `height` read from `path`. */
  function Decide(category: string, sub: string, path: string, width: nat, height: nat): (r: Action)
    ensures r.Resize? ==> r == Resize(256, 256, Png) || (r.width == MinWidth && r.height == MinHeight)
    ensures r.Resize? && category != "app_icon" ==> width < MinWidth || height < MinHeight
    ensures r.Leave? ==> (category == "wallpaper" || category == "splash_screen") && sub != "image" && sub != "path"
  {
    if category == "app_icon" then Resize(256, 256, Png)
    else if category == "wallpaper" || category == "splash_screen" then
      if sub == "image" || sub == "path" then
        if width < MinWidth || height < MinHeight then
          Resize(MinWidth, MinHeight, if EndsWith(path, ".jpg") then Jpeg else Png)
        else CopyVerbatim
      else Leave
    else CopyVerbatim
  }

  /** The icon is always re-encoded as a 256 by 256 PNG, whatever its size. */
  lemma IconAlwaysSquare(sub: string, path: string, width: nat, height: nat)
    ensures Decide("app_icon", sub, path, width, height) == Resize(256, 256, Png)
  {
  }

  /** A wallpaper or splash image is resized exactly when one side is below
      1920 by 1080, and then to exactly that size; otherwise it is copied. */
  lemma BannerResizedOnlyWhenSmall(category: string, sub: string, path: string, width: nat, height: nat)
    requires category == "wallpaper" || category == "splash_screen"
    requires sub == "image" || sub == "path"
    ensures Decide(category, sub, path, width, height).Resize? <==> (width < 1920 || height < 1080)
    ensures Decide(category, sub, path, width, height).Resize? ==>
              Decide(category, sub, path, width, height).width == 1920 && Decide(category, sub, path, width, height).height == 1080
    ensures !Decide(category, sub, path, width, height).Resize? ==> Decide(category, sub, path, width, height) == CopyVerbatim
  {
  }

  /** JPEG is chosen only for a resized image whose path ends in the
      case-sensitive suffix `.jpg`; every other re-encoding is PNG. */
  lemma JpegOnlyForJpgSuffix(category: string, sub: string, path: string, width: nat, height: nat)
    ensures Decide(category, sub, path, width, height).Resize? ==>
              (Decide(category, sub, path, width, height).format == Jpeg <==>
               category != "app_icon" && EndsWith(path, ".jpg"))
  {
  }

  /** Wallpaper and splash images under any other sub-category are left alone;
      every category besides the three named ones is copied. */
  lemma OtherCases(category: string, sub: string, path: string, width: nat, height: nat)
    ensures (category == "wallpaper" || category == "splash_screen") && sub != "image" && sub != "path" ==>
              Decide(category, sub, path, width, height) == Leave
    ensures category != "app_icon" && category != "wallpaper" && category != "splash_screen" ==>
              Decide(category, sub, path, width, height) == CopyVerbatim
  {
  }

  /** `os.path.exists` of a path a field names. */
  predicate SourceExists(d: Disk, path: string) {
    path in d.sources
  }

  /** Where the image lands, relative to the project folder. */
  function Destination(category: string, path: string): (r: string)
  {
    JoinPath(category, Base(path))
  }

  /** The entry an action writes, if any. */
  function Output(a: Action, path: string): Option<Entry> {
    match a
    case Resize(w, h, fmt) => Some(Rendered(w, h, fmt))
    case CopyVerbatim => Some(Copied(path))
    case Leave => None
  }

  /** `handle_image(path, category, sub)` against the project folder
      `current`. A missing source changes nothing; an unset folder raises;
      otherwise the category directory is made, and a readable image is
      written as the decision says. A failure to read or write the image is
      reported and swallowed, leaving the directory made. */
  function HandleImage(d: Disk, current: Option<string>, path: string, category: string, sub: string): (r: Result<Disk, SaveError>)
  {
    if !SourceExists(d, path) then Success(d)
    else if current.None? then Failure(NoProjectFolder)
    else
      var d1 := PutEntry(MakeDirs(d, current.value), current.value, category, Directory);
      var name := Base(path);
      match d.sources[path]
      case Unreadable => Success(d1)
      case Picture(w, h) =>
        if name == "" then Success(d1)
        else
          match Output(Decide(category, sub, path, w, h), path)
          case None => Success(d1)
          case Some(e) => Success(PutEntry(d1, current.value, Destination(category, path), e))
  }

  /** A path naming no file leaves the disk as it was, with or without a
      project folder. */
  lemma MissingSourceIsNoOp(d: Disk, current: Option<string>, path: string, category: string, sub: string)
    requires !SourceExists(d, path)
    ensures HandleImage(d, current, path, category, sub) == Success(d)
  {
  }

  /** Ingestion fails only when a source exists and no folder is set. */
  lemma FailsOnlyWithoutFolder(d: Disk, current: Option<string>, path: string, category: string, sub: string)
    ensures HandleImage(d, current, path, category, sub).Failure? <==> SourceExists(d, path) && current.None?
    ensures HandleImage(d, current, path, category, sub).Failure? ==>
              HandleImage(d, current, path, category, sub).error == NoProjectFolder
  {
  }

  /** What ingestion into folder `p` leaves behind: the sources, every other
      folder and the manifest are untouched; the category directory exists;
      the destination holds the decided output, and no other entry changes. */
  lemma IngestEffect(d: Disk, p: string, path: string, category: string, sub: string)
    requires SourceExists(d, path)
    ensures HandleImage(d, Some(p), path, category, sub).Success?
    ensures var r := HandleImage(d, Some(p), path, category, sub).value;
      && r.sources == d.sources
      && p in r.folders
      && (forall q :: q in d.folders && q != p ==> q in r.folders && r.folders[q] == d.folders[q])
      && (forall q :: q in r.folders ==> q in d.folders || q == p)
      && r.folders[p].manifest == (if p in d.folders then d.folders[p].manifest else None)
      && category in r.folders[p].entries && (category != Destination(category, path) ==> r.folders[p].entries[category] == Directory)
  {
  }

  /** A readable image whose decision writes something ends up at its
      destination in the folder. */
  lemma IngestWrites(d: Disk, p: string, path: string, category: string, sub: string)
    requires SourceExists(d, path) && d.sources[path].Picture? && Base(path) != ""
    requires Output(Decide(category, sub, path, d.sources[path].width, d.sources[path].height), path).Some?
    ensures HandleImage(d, Some(p), path, category, sub).Success?
    ensures p in HandleImage(d, Some(p), path, category, sub).value.folders
    ensures var es := HandleImage(d, Some(p), path, category, sub).value.folders[p].entries;
      Destination(category, path) in es &&
      es[Destination(category, path)] == Output(Decide(category, sub, path, d.sources[path].width, d.sources[path].height), path).value
  {
  }

  /** Once ingested, a wallpaper or splash image in the folder is never
      smaller than 1920 by 1080: either it was re-rendered at exactly that
      size or it already was at least that large and was copied. */
  lemma BannerOutputLargeEnough(d: Disk, p: string, path: string, category: string, sub: string)
    requires category == "wallpaper" || category == "splash_screen"
    requires sub == "image" || sub == "path"
    requires SourceExists(d, path) && d.sources[path].Picture? && Base(path) != ""
    ensures HandleImage(d, Some(p), path, category, sub).Success?
    ensures p in HandleImage(d, Some(p), path, category, sub).value.folders
    ensures Destination(category, path) in HandleImage(d, Some(p), path, category, sub).value.folders[p].entries
    ensures var e := HandleImage(d, Some(p), path, category, sub).value.folders[p].entries[Destination(category, path)];
      || (e.Rendered? && e.width == 1920 && e.height == 1080)
      || (e.Copied? && e.from == path && d.sources[path].width >= 1920 && d.sources[path].height >= 1080)
  {
    var w, h := d.sources[path].width, d.sources[path].height;
    BannerResizedOnlyWhenSmall(category, sub, path, w, h);
    IngestWrites(d, p, path, category, sub);
  }
}
