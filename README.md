# Opera GX mod maker: the manifest core

This project is a model of the core of the Opera GX mod maker
(`src/main.py`). The mod maker is a desktop form for writing an Opera GX
browser mod. The user fills in a mod name, a developer name, a description
and the fields of thirteen payload categories (app icon, wallpaper,
background music, browser and keyboard sounds, fonts, image overrides,
mobile image overrides, page styles, shaders, splash screen, stickers,
theme). The program has five core pieces:

- `save_manifest` compiles the form into a `manifest.json` inside the mod's
  project folder. On the way it copies or resizes the wallpaper images into
  the folder.
- `load_manifest` reads a manifest back into the form.
- `update_mod_folder` renames the project folder when the mod name changes.
- `handle_image` decides whether an image is resized, copied or left alone.
- The `payload_options` table lists the categories and their fields. Both
  the compiler and the loader walk it.

The model is written in Dafny. The modules follow the program's structure:

| module | models |
|---|---|
| `Wrappers` | `Option` and `Result` |
| `Text` | Python's `str.strip`, `split`, `join`, `or` defaulting, `os.path.basename`, `os.path.join`, `int()` and `str()` of integers |
| `Json` | the JSON values of a manifest and Python's dict `get` and item assignment on them |
| `Schema`, `SchemaFacts` | the `payload_options` table, the branch each category takes, the twelve theme colour slots with their defaults, and the sub-directory list |
| `Files` | the file system as a value: the image files a field may name, and the project folders with their entries and manifest |
| `Imaging` | `handle_image`: the decision and its effect on the project folder |
| `Compiler`, `CompilerFacts`, `SaveFacts` | `save_manifest` as a fold over the table, the manifest document, and what a save leaves on disk |
| `Loader`, `LoaderFacts` | `load_manifest` as a fold over the table, with every place where the Python code raises |
| `RoundTrip` | saving and then reopening a mod: what each field reads afterwards |
| `Project` | the `ModMaker` class: the state the program mutates (form texts, `current_mod_path`, the disk) and its operations as methods |

The main results:

- `RoundTrip.ReopenSaved` covers a save that completes. Loading the
  manifest it wrote, over any form, raises no error. It restores the
  defaulted name, developer and description. Each category's fields get the
  texts given by `RoundTrip.RestoredRow`.
- The corollaries below that lemma show when that restoration is exact and
  when it is not:
  - per-field categories lose their positions once a blank field precedes a
    filled one (`PositionalRoundTrip`);
  - list fields survive an edit: splitting and rejoining gives the same
    list (`Text.ListRoundTrip`);
  - theme numbers parse back to the same values (`ThemeReparses`).
- The `ModMaker` methods are proved against the functions `Save` and
  `Load`. The save, the load and the rename leave exactly the state those
  functions describe.
- The rename and the first save use different default names. The rename
  falls back on `My_GX_Mod` and the save on `My GX Mod`. Both give the same
  folder name, `My_GX_Mod_Mod` (`Project.FolderNamesAgree`).

## Model

| member | source | states |
|---|---|---|
| SchemaFacts.KeysDistinct | src/main.py:215-239 | the table has thirteen categories and no two categories share a manifest key |
| SchemaFacts.PayloadOptionsWellFormed | src/main.py:215-239 | every category has at least one field, and the field names inside a category are distinct |
| SchemaFacts.KindsOfTable | src/main.py:448-500 | app icon, wallpaper, background music, splash screen and stickers take the single-item branch; shaders and theme take their own branches; the other six take the one-object-per-field branch |
| SchemaFacts.ThemeFieldsAreSlots | src/main.py:236-238 | the theme's twelve fields are, in order, the colour slots the compiler reads by name |
| SchemaFacts.ThemeDefaultsAgree | src/main.py:468-479 | each colour slot's text default is the decimal form of the numeric default the loader uses |
| Text.StripSlice | src/main.py:451 | `strip()` returns the middle of the text, and everything cut off at both ends is whitespace |
| Text.StripFixed | src/main.py:451 | stripping a text that is already stripped changes nothing |
| Text.OrElse | src/main.py:408-410 | `x or default` is `x` when `x` is non-empty, and empty only when the default is |
| Text.SplitJoin | src/main.py:457 | joining the pieces of `split(c)` with `c` gives the text back |
| Text.ListRoundTrip | src/main.py:457 | splitting a `", "`-joined list of clean elements and keeping the non-blank stripped pieces gives back exactly that list |
| Text.SplitListIdempotent | src/main.py:457 | parsing a list field, joining it for display and parsing it again yields the same list |
| Text.JoinListStripped | src/main.py:539-540 | the join of clean elements is stripped, and empty exactly when the list is empty |
| Text.Base | src/main.py:455 | `basename` is the part of the path after its last `/`, and holds no `/` |
| Text.JoinPath | src/main.py:383 | joining onto an absolute second path returns that path |
| Text.IntRoundTrip | src/main.py:484 | `int(str(n)) == n` for every integer when conversion has no size limit (CPython's 4300-digit limit is left out), and `str(n)` is non-empty and stripped |
| Text.NegativeParses | src/main.py:484 | `int()` accepts a minus sign followed by digits, at any length (the 4300-digit limit is left out) |
| Text.ReplaceSpaces | src/main.py:383 | replacing spaces with `_` keeps the length, leaves no space, and changes no other character |
| Json.GetPut | src/main.py:396 | after `d[k] = v`, `d.get(k)` is `v` and every other key reads as before |
| Json.PutPut | src/main.py:396 | assigning a key twice is the same as assigning only the second value |
| Json.PutSame | src/main.py:396 | assigning a key the value it already holds leaves the object unchanged |
| Files.MakeDirs | src/main.py:505-509 | `makedirs(exist_ok=True)` adds an empty folder when there is none, and otherwise changes nothing |
| Files.PutManifest | src/main.py:517-518 | writing `manifest.json` replaces that folder's manifest and nothing else |
| Files.MoveFolder | src/main.py:389 | the move is refused exactly when the destination folder exists and already holds an entry named like the source; otherwise the source folder is gone, the destination exists, and it is the old folder when it was new |
| Files.MoveKeepsOthers | src/main.py:389 | a move changes no third folder |
| Imaging.IconAlwaysSquare | src/main.py:580-581 | an app icon is always re-encoded as a 256 by 256 PNG |
| Imaging.Decide | src/main.py:579-589 | a resize is either the 256 by 256 PNG icon or exactly 1920 by 1080; outside the icon it happens only to an image below 1920 by 1080; leaving the image alone happens only to a wallpaper or splash image of another sub-category |
| Imaging.HandleImage | src/main.py:571-591 | `handle_image` on the disk: no file, no change; no project folder, the `TypeError`; otherwise the category directory and the decided output (properties in `Imaging.FailsOnlyWithoutFolder`, `Imaging.IngestEffect` and `SaveFacts.HandleImageWrites`) |
| Imaging.BannerResizedOnlyWhenSmall | src/main.py:582-587 | a wallpaper or splash image is resized exactly when one side is below 1920 by 1080, then to exactly 1920 by 1080, and otherwise copied |
| Imaging.JpegOnlyForJpgSuffix | src/main.py:585 | a resize writes JPEG exactly when the category is not the icon and the path ends in `.jpg` (case-sensitive); otherwise PNG |
| Imaging.OtherCases | src/main.py:582-589 | wallpaper and splash images under another sub-category are left alone; any other category is copied as it is |
| Imaging.MissingSourceIsNoOp | src/main.py:572-573 | a path that does not exist changes nothing, even with no project folder |
| Imaging.FailsOnlyWithoutFolder | src/main.py:572-575 | ingestion raises exactly when the file exists and no project folder is set |
| Imaging.IngestEffect | src/main.py:574-577 | ingestion makes the category directory; the sources, the manifest and every other folder stay the same |
| Imaging.IngestWrites | src/main.py:576-589 | a readable image whose decision writes something lands at `<category>/<basename>` with the decided content |
| Imaging.BannerOutputLargeEnough | src/main.py:582-587 | an ingested wallpaper or splash image is never smaller than 1920 by 1080 |
| Compiler.TextOr | src/main.py:408-410 | the stripped text, or the default when that is blank; never empty, always stripped |
| Compiler.SingletonValue | src/main.py:450-459 | a stored field is a string or a list of strings; an image field stores a string the text ends with (its base name, or the text itself) |
| Compiler.CategoryItems | src/main.py:448-500 | only the theme branch can raise; a single-item category and the theme contribute at most one item |
| Compiler.Step | src/main.py:448-500 | one category: a single-item category's images are ingested first, then its items appended or its error kept (properties in `SaveFacts.StepEffect`) |
| Compiler.BuildUpTo | src/main.py:447-500 | the payload, disk and error after the first n categories, stopping at the first error (properties in `SaveFacts.BuildPayload` and `Project.BuildStops`) |
| Compiler.FolderFor | src/main.py:383 | the project folder's path ends with the name, spaces turned to underscores, and `_Mod` |
| Compiler.Manifest | src/main.py:412-444 | the manifest document around a payload (properties in `SaveFacts.ManifestShape`) |
| Compiler.Save | src/main.py:407-518 | the whole save: build, then folder, sub-directories and manifest (properties in `SaveFacts.SaveAborted` and `SaveFacts.SaveCompleted`) |
| Compiler.ThemeTexts | src/main.py:468-479 | one text per colour slot, twelve in all |
| Compiler.WithSubdirs | src/main.py:512-514 | making the sub-directories touches only the project folder's entries |
| CompilerFacts.FilledFacts | src/main.py:463-466 | the positions of the non-blank fields, increasing, each non-blank, and with none missing |
| CompilerFacts.FilledAllNonBlank | src/main.py:495-500 | with no blank field, the positions are all of them in order |
| CompilerFacts.FilledAt | src/main.py:495-500 | the i-th stored object comes from field i exactly when no field up to i is blank |
| CompilerFacts.ShaderItemsAt | src/main.py:462-466 | one shader object per non-blank field, in field order, naming the mod and holding the stripped path |
| CompilerFacts.FieldItemsAt | src/main.py:494-500 | one single-key object per non-blank field, in field order, holding the stripped text under the field's name |
| CompilerFacts.SingletonGetField | src/main.py:450-459 | a field of a single-item category holds its converted stripped text when non-blank, and otherwise the seed's value |
| CompilerFacts.SingletonGetOther | src/main.py:449 | a key that is not a field keeps the seed's value |
| CompilerFacts.SeedKeysStay | src/main.py:449 | `id` and `name` are always non-empty strings |
| CompilerFacts.SingletonAlwaysOne | src/main.py:449-461 | each single-item category stores exactly one item, whatever the form holds, because its seed is truthy |
| CompilerFacts.ThemeTextsFilled | src/main.py:468-479 | every colour text is non-empty, and a blank field takes its slot's default |
| CompilerFacts.ParseRangeSpec | src/main.py:484-490 | parsing a run of colour texts succeeds exactly when each one parses, and gives their values; otherwise it fails on the first bad slot |
| CompilerFacts.ThemeNumbers | src/main.py:484-490 | the parsed value of each colour text |
| CompilerFacts.ModePartParsed | src/main.py:482-491 | a mode is stored exactly when its six texts parse, and holds the parsed values |
| CompilerFacts.ModeNumbers | src/main.py:482-491 | a mode whose six texts all parse is stored as the object of their parsed values |
| CompilerFacts.ThemeSuccess | src/main.py:481-493 | with every text parsing, the theme is the single item holding both modes |
| CompilerFacts.AssembleBoth | src/main.py:481-493 | the theme object assembled from both modes is the theme item of those twelve numbers |
| CompilerFacts.ThemeFailure | src/main.py:484-490 | a text `int()` rejects raises on the first such slot, naming its field |
| CompilerFacts.ThemeOutcome | src/main.py:467-493 | the theme branch succeeds exactly when all twelve texts parse, with the item of their values, and otherwise fails on the first bad slot |
| SaveFacts.HandleImageWrites | src/main.py:571-591 | ingestion changes only the project folder, and nothing at all when no folder is set |
| SaveFacts.IngestFieldsWrites | src/main.py:450-455 | ingesting a category's images changes only the project folder |
| SaveFacts.BuildWrites | src/main.py:447-500 | building the payload changes only the project folder, and nothing without one |
| SaveFacts.InitialPayloadLists | src/main.py:425-441 | the initial payload holds an empty list under exactly the thirteen keys |
| SaveFacts.BuildPayload | src/main.py:447-500 | after n categories without error, each has its items stored under its key; untouched keys read as initially; every value is a list; no key is added outside the table |
| SaveFacts.StepEffect | src/main.py:447-500 | a category step either appends its items or raises and leaves the payload as it was |
| SaveFacts.ExtendEffect | src/main.py:461 | appending to an empty list stores the items and changes no other key |
| SaveFacts.PayloadKeysAreTableKeys | src/main.py:425-441 | the keys of the initial payload are the table's keys, in order |
| SaveFacts.CompletePayload | src/main.py:447-500 | a complete build holds exactly the thirteen keys, each with its category's items |
| SaveFacts.ListsAsBuilt | src/main.py:425-500 | a build over every category that starts from the thirteen keys ends with exactly those keys, each holding a list, and each category's key holding exactly its items |
| SaveFacts.ManifestShape | src/main.py:412-444 | the manifest's fixed fields (version 3, the flavor hashes, license, update URL) and the name, developer and description with their defaults |
| SaveFacts.SubdirsMade | src/main.py:512-514 | all eleven sub-directories exist afterwards |
| SaveFacts.FolderWritten | src/main.py:502-518 | writing the project folder leaves it present with the new manifest and all eleven sub-directories; the sources and every other folder are unchanged, and no other folder appears |
| SaveFacts.SaveAborted | src/main.py:407-500 | a save fails exactly when building the payload raises; then the folder path stays and only the project folder may have changed |
| SaveFacts.SaveCompleted | src/main.py:502-518 | a completed save sets the folder (the current one, or the one the name maps to), writes the manifest of the built payload, makes the sub-directories, and leaves every other folder and the sources as they were |
| SaveFacts.SingletonsHoldOneItem | src/main.py:448-461 | in a complete save, each single-item category holds exactly one item with non-empty `id` and `name` |
| SaveFacts.ThemeHoldsOneItem | src/main.py:467-493 | in a complete save, the theme holds one item built from the twelve parsed colour texts |
| SaveFacts.ThemeParseFailureAborts | src/main.py:467-493 | a colour text `int()` rejects aborts the save naming the first bad slot; no folder is set and no manifest is written |
| Loader.StrsOf | src/main.py:539-540 | a list converts to strings exactly when every element is a string |
| Loader.SingletonRow | src/main.py:535-541 | the fields of the first item, set in field order until one cannot be shown; one text per field (values in `LoaderFacts.SingletonRowAt`) |
| Loader.ShaderRow | src/main.py:542-545 | the `path` of each stored shader, set in order while there are fields; one text per field |
| Loader.FieldRow | src/main.py:564-569 | the i-th field from the i-th stored object, blank past the stored objects; one text per field (values in `LoaderFacts.FieldRowAt`) |
| Loader.Group | src/main.py:548-551 | fetching a colour group raises exactly when its mode is stored and is not an object, and then names that mode |
| Loader.ThemeRow | src/main.py:546-563 | the four groups fetched, then the twelve channels read in order; one text per field (what it shows in `LoaderFacts.ThemeSlotsRowStops`) |
| Loader.LoadCategory | src/main.py:532-569 | one category read through its branch, an absent or empty entry leaving it as it was; one text per field |
| Loader.LoadUpTo | src/main.py:532-569 | the first n categories loaded in table order, stopping at the first error; the form keeps its shape and its three general fields |
| Loader.Load | src/main.py:520-569 | the whole document: the name, the developer, the description, then the payload; the form keeps its shape |
| LoaderFacts.EmptyCategoryKept | src/main.py:533-534 | an empty or missing category leaves its fields as they were |
| LoaderFacts.LoadRows | src/main.py:532-569 | loading completes exactly when every category loads, and then each row is that category's texts |
| LoaderFacts.ShadersBeyondFieldsDropped | src/main.py:543-545 | stored shaders past the last field are never read |
| LoaderFacts.ShaderRowAt | src/main.py:542-545 | the i-th field takes the i-th stored path, and fields past the stored shaders keep their texts |
| LoaderFacts.FieldRowAt | src/main.py:564-569 | the i-th field takes the i-th stored object's value, and fields past the stored objects are blanked |
| LoaderFacts.SingletonRowAt | src/main.py:535-541 | each field takes the first item's value, with lists joined by `", "` |
| LoaderFacts.JoinedList | src/main.py:539-540 | a stored list of strings is shown as its `", "` join |
| LoaderFacts.SetNamedAt | src/main.py:552-563 | setting a field by name sets its position |
| LoaderFacts.ThemeSlotsRowAt | src/main.py:552-563 | the twelve channel reads raise nothing exactly when each channel of its fetched group prints; then each colour field shows that text, and fields past the reads keep their text |
| LoaderFacts.FirstFault | src/main.py:552-563 | the position of the first channel read that raises: every earlier read succeeds, and the read there fails |
| LoaderFacts.ThemeSlotsRowStops | src/main.py:552-563 | each colour field before the first failing read shows its channel's text, every later field keeps its text, and the error is that read's error |
| LoaderFacts.ListGroupStopsLate | src/main.py:548-563 | a theme whose dark accent is stored and whose dark base is a list sets the three accent fields, then raises on the base, leaving the other nine fields as they were |
| LoaderFacts.StopsAtFourth | src/main.py:552-563 | when the first three reads succeed and the fourth fails, the row holds those three texts, that error, and the rest unchanged |
| LoaderFacts.DefaultGroups | src/main.py:548-551 | with neither mode stored, each of the four colour groups is its default group |
| LoaderFacts.GroupFallsBack | src/main.py:548-551 | a group whose mode is absent, or is an object without that group, is fetched as its default group |
| LoaderFacts.GroupDefaultsOnLoad | src/main.py:548-563 | a group that falls back to its default shows its three text defaults on a load without error |
| LoaderFacts.ChannelFallsBack | src/main.py:552-563 | a stored group object without a slot's channel key reads that channel as the slot's text default |
| LoaderFacts.ChannelDefaultInRow | src/main.py:552-563 | over the fetched groups, such a channel's field shows its text default on a row without error |
| LoaderFacts.ChannelDefaultOnLoad | src/main.py:546-563 | a theme whose stored group lacks one channel key shows that field's default on a load without error |
| LoaderFacts.DefaultChannel | src/main.py:548-563 | a channel read from its default group prints as its slot's text default |
| LoaderFacts.DefaultSlotsRow | src/main.py:552-563 | groups whose every channel prints its slot's default load without error and show exactly those defaults |
| LoaderFacts.ThemeDefaultsOnLoad | src/main.py:548-563 | a theme with no modes stored loads every colour field with the same default the compiler would use |
| RoundTrip.RestoreSingleton | src/main.py:535-541 | reading back a saved single-item category gives the row `RestoredRow` describes |
| RoundTrip.RestoreShaders | src/main.py:542-545 | reading back saved shaders gives the row `RestoredRow` describes |
| RoundTrip.RestorePerField | src/main.py:564-569 | reading back a saved per-field category gives the row `RestoredRow` describes |
| RoundTrip.RestoreTheme | src/main.py:546-563 | reading back a saved theme gives the decimal form of each parsed colour |
| RoundTrip.RestoreCategory | src/main.py:532-569 | any category of a complete save reads back, without error, as its restored row |
| RoundTrip.LoadDocument | src/main.py:527-531 | a document with the expected header loads its name, developer and description, then its payload |
| RoundTrip.ManifestFields | src/main.py:412-444 | the written manifest has the header fields the loader reads |
| RoundTrip.SaveThenLoad | src/main.py:407-569 | loading the manifest of a complete build raises nothing and restores the header and every category's restored row |
| RoundTrip.ReopenSaved | src/main.py:407-569 | after a completed save, the project folder holds a manifest whose load restores the header and every restored row |
| RoundTrip.TableFitsRoundTrip | src/main.py:215-239 | the program's table is well formed, lists the payload keys in order, and its theme fields are the colour slots |
| RoundTrip.Reopen | src/main.py:407-569 | for any such table, a completed save leaves a manifest whose load restores the header and every restored row |
| RoundTrip.Stripped | src/main.py:496 | the stripped text of each field |
| RoundTrip.PositionalRoundTrip | src/main.py:494-500 | a per-field category reads back as its stripped texts exactly when no blank field comes before a filled one |
| RoundTrip.SingletonResaveStable | src/main.py:450-459 | a non-blank, non-image single-item field reads back blank only when it is a list with no elements, and otherwise saves again to the same value |
| RoundTrip.ImageResaveStable | src/main.py:450-459 | a non-blank image field reads back, once stripped, as its text when no such file exists and as the file's base name when one does; it saves again to the same value unless that base name is empty or not stripped |
| RoundTrip.ThemeReparses | src/main.py:484-490 | each restored colour text is stripped and parses to the value saved |
| Project.BlankValues | src/main.py:215-239 | a fresh form has one blank text per field of every category |
| Project.FolderNamesAgree | src/main.py:382-383 | the rename's default name and the save's default name map to the same folder |
| Project.Renamed | src/main.py:386-398 | the move and the manifest rewrite: refused exactly when the move is; never a save failure; a success keeps the sources, removes the old folder and holds the new one, whose manifest, if any, is an object naming the new name |
| Project.SaveOutcome | src/main.py:502-518 | a save either stops with the build's error or writes the sub-directories and the manifest into the chosen folder |
| Project.SaveKeepsFolder | src/main.py:506-509 | saving with a folder set keeps that folder |
| Project.BuildStops | src/main.py:447-500 | once a category raises, the later categories change nothing: the exception ends the loop |
| Project.CompileCategory | src/main.py:448-500 | one pass of the loop is the fold's step: a single-item category's images are ingested first and a failure stops with its error; then the category's items are appended, or its branch's error is returned |
| Project.ModMaker.constructor | src/main.py:14-22 | a fresh window has a blank form, no project folder, and the given disk |
| Project.ModMaker.CompilePayload | src/main.py:446-500 | the loop over the table computes the payload, disk and error of `BuildUpTo` over the whole table |
| Project.ModMaker.WriteProject | src/main.py:502-518 | the folder is the current one or the one the mod name maps to; it is made, its sub-directories are made, and the manifest of the payload is written into it; the form is unchanged |
| Project.ModMaker.SaveManifest | src/main.py:407-518 | the new folder path, disk and error are those of `Save`; the form is unchanged |
| Project.ModMaker.AutoSave | src/main.py:372-374 | with no project folder nothing happens; otherwise a save |
| Project.ModMaker.ManualSave | src/main.py:376-379 | as `AutoSave`, and success is reported exactly when the save completes |
| Project.ModMaker.LoadManifest | src/main.py:520-569 | with a manifest in the project folder, the form and the error are those of `Load`; otherwise nothing changes |
| Project.ModMaker.LoadCategories | src/main.py:532-569 | the loop over the table leaves the form and error `LoadUpTo` describes; the folder path and the disk are unchanged |
| Project.ModMaker.CreateNewMod | src/main.py:98-100 | no project folder; the form shows "New Mod", the default developer and description, and blank fields |
| Project.ModMaker.LoadMod | src/main.py:102-105 | the project folder is set from the list entry, and the form is loaded from its manifest over a blank form |
| Project.ModMaker.UpdateModFolder | src/main.py:381-405 | every branch of the rename: no folder or same name does nothing; an existing folder is moved, its manifest renamed and saved, with failures caught; a missing folder is recreated and saved, with failures raised; a changed path is always the folder of the current mod name |
| Project.ModMaker.MoveProject | src/main.py:389-398 | the move and the document rename leave exactly the disk `Renamed` describes, with the new folder adopted; a refused move changes nothing |
| Project.ModMaker.RenameProject | src/main.py:386-401 | a failing move is reported and changes nothing; otherwise the state of `Renamed` followed by a save, whose failure is reported |
| Project.ModMaker.RecreateProject | src/main.py:402-405 | the new folder is adopted and made, then saved; the save's error is raised |

## Left out

- The Qt interface is not modelled: widgets, layouts, styles and the tabs of
  `show_edit_window`. The model keeps only the texts of the line edits.
- Message boxes are not modelled. Where the source shows an error or a
  success box, the model returns what it would show: `caught` and
  `reported`.
- The file picker (`browse_file`) is not modelled. A field's text is an
  input.
- Qt signal cascades are not modelled. In the program, setting a text fires
  `auto_save` and `update_mod_folder`; in the model each save and rename is
  an explicit call.
- `create_zip`, `scan_mods` and the `__main__` block are outside this
  model. So is the creation of the projects directory in `__init__`.
- PIL is not modelled: resampling, encoding and reading image files. A
  readable image is represented by its width and height, and an output by
  its size and format.
- File contents are not modelled: bytes, JSON text formatting (`indent=2`)
  and `json.load` parse errors. A stored manifest is a JSON value.
- JSON floats, booleans and `null` are not part of the value type. A
  manifest the program writes never holds them.
- JSON objects model Python dicts, so each key appears at most once. A file
  with duplicate keys, where `json.load` keeps the last one, is not
  modelled.
- `int()` is modelled on ASCII digits, an optional sign, surrounding
  whitespace and underscores between digits. Non-ASCII Unicode digits are
  not modelled.
- Text.ParseInt: CPython's 4300-digit limit on int/str conversion
  (`sys.int_info.default_max_str_digits`) is not modelled. A longer colour
  text parses in the model and raises `ValueError` in the program, so for
  such a text `Compiler.Save` completes in the model where `save_manifest`
  raises at src/main.py:484, before any folder or manifest write.
  `Text.IntToString` likewise succeeds where the loader's `str()` of so long
  a stored colour raises, and a manifest holding one, which `json.load`
  rejects, is a stored document here.
- Text.IntRoundTrip: holds for every integer only because the 4300-digit
  limit is not modelled; in the program it holds up to that size.
- Text.NegativeParses: accepts a digit run of any length; CPython's `int()`
  rejects one of more than 4300 digits.
- `str()` of a stored list or object in a theme channel is modelled as a
  load error (`WrongShape`). The source would show the value's Python repr.
- `shutil.move` is modelled as follows:
  - whether it fails (for example, on permissions) is the input `moveFails`;
  - a move onto an existing folder nests the old folder inside it, as `mv`
    does, and is refused when that folder already holds an entry of the old
    folder's base name (`Files.MoveFolder` returns `None`, and the rename
    reports `MoveRefused`);
  - a destination inside the source folder, which `shutil.move` also
    refuses, is not modelled: folder paths are compared as whole names;
  - contents are moved as a unit.
- Paths are plain strings. `os.path.exists` on a project folder is
  membership in the disk's folder map, and image sources are kept apart
  from project folders.
- `RoundTrip.SingletonResaveStable` excludes the image fields, which
  `RoundTrip.ImageResaveStable` covers. An image field naming an existing
  file reads back as the file's base name. It saves again to the same value
  unless that base name is empty or has surrounding whitespace, because the
  save strips the text before storing it.
