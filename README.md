# inductor, modelled in Dafny

inductor generates Packer templates and Windows answer files for Windows
virtual machines. It works from a directory of Go text templates. A root
template (`.tpl`) has partial templates (`.ptpl`) next to it, and an
OS-specific partial in an `<os>/` subdirectory replaces the shared partial
of the same file name. Rendering a root template means writing the root's
text, then one `{{define "N"}} … {{end}}` block per partial.

This project models that core:

- `filesys.dfy`, `template_grouping.dfy`: how root templates and their
  partials are grouped for one OS (filesys/template_lister.go).
- `tpl_template.dfy`: template paths, reading one template, and choosing
  partials by file name (tpl/template.go).
- `tpl_root_template.dfy`: composing a root template with its `define`
  blocks, and the sorted partial list (tpl/root_template.go).
- `tpl_templates.dfy`: the collection of root templates of a directory
  (tpl/templates.go).
- `renderer_funcs.dfy`: the computer-name sanitiser
  (renderer/template_funcs.go).
- `renderer_lister.dfy`: the file precedence filter
  (renderer/template_lister.go).
- `renderer_options.dfy`: the render options and their overrides
  (renderer/render_options.go).
- `osregistry.dfy`: the OS registry lookup (osregistry/operating_system.go).
- `configuration.dfy`: the inductor configuration
  (configuration/inductor_configuration.go).
- `common.dfy`, `text.dfy`, `filepath.dfy`: the parts of Go's `strings` and
  `path/filepath` the core uses, over '/'-separated paths and ASCII text.

Inputs replace the program's effects:

- A directory listing, glob or walk is a sequence of paths.
- The files that can be read are a map from path to content; a path
  missing from the map is a read error.
- A decoded JSON document is a value of a datatype, or the error its
  decoding gave.
- Go's map iteration order is a nondeterministic choice (`:|`). Every
  property is stated so that it holds for any order.

Loops are methods with loop invariants, proved equal to fold functions
over the inputs. The properties are proved as lemmas about those
functions.

## Model

| member | source | states |
|---|---|---|
| Filesys.TemplateKeyIsLowerCasedStem | filesys/template_lister.go:11-16 | a path whose final extension is not exactly ".tpl" has key ""; a ".tpl" path's key is the lower-cased path without the ".tpl" |
| Filesys.TemplateKey | filesys/template_lister.go:11-16 | the key grouping a root template with its partials: "" unless the final extension is exactly ".tpl", else the lower-cased path without ".tpl"; its value is given by TemplateKeyIsLowerCasedStem |
| Filesys.PartialStemIsLowerCasedStem | filesys/template_lister.go:26 | a ".ptpl" path's lookup starts from the lower-cased path without ".ptpl" |
| Filesys.PeelStep | filesys/template_lister.go:28-32 | one peeling step shortens the key and removes exactly the key itself from the prefixes the search can still reach |
| Filesys.PeelKey | filesys/template_lister.go:27-33 | a non-empty key found by peeling is one of the root keys |
| Filesys.PeelKeyIsLongestDotPrefix | filesys/template_lister.go:27-33 | peeling from the right finds the longest dot-prefix of the key that is a root key; it finds "" when the file part runs out of dots first |
| Filesys.PartialKey | filesys/template_lister.go:20-35 | a partial's non-empty root key is one of the root keys |
| Filesys.PartialKeyIsLongestRootPrefix | filesys/template_lister.go:20-35 | "" for any path whose extension is not ".ptpl"; otherwise a non-empty result is a dot-prefix of the lower-cased stem, and no longer dot-prefix is a root key |
| Filesys.Contains | filesys/template_lister.go:100-107 | true exactly when the element is in the slice |
| Filesys.TemplateKeyForPartial | filesys/template_lister.go:20-35 | the loop returns the partial's root key as characterised above |
| Filesys.RemoveOsDirKeepsFileName | filesys/template_lister.go:94-98 | removing the OS directory never changes the file name |
| Filesys.RemoveOsDir | filesys/template_lister.go:94-98 | the path with the OS name trimmed, as text, from the end of its directory part and re-joined with its file name; its meaning is given by the RemoveOsDir lemmas |
| Filesys.SplitOfJoin | filesys/template_lister.go:97 | joining a directory and a '/'-free file name and splitting again gives back the file name |
| Filesys.RemoveOsDirDropsOsSegment | filesys/template_lister.go:94-98 | "base/<os>/file" becomes "base/file" |
| Filesys.RemoveOsDirKeepsSharedPath | filesys/template_lister.go:94-98 | a path whose directory does not end with the OS name is returned unchanged |
| Filesys.GroupRootsKeys | filesys/template_lister.go:45-50 | the first loop opens a group for exactly the root keys it lists |
| Filesys.RootKeys | filesys/template_lister.go:44-47 | the root keys the first loop appends, in listing order |
| Filesys.GroupRoots | filesys/template_lister.go:45-50 | the map after the first loop: each root opens a fresh group holding only itself, replacing any earlier group of its key |
| Filesys.AddPartial | filesys/template_lister.go:54-69 | one turn of the partial loop never removes a group |
| Filesys.AddPartials | filesys/template_lister.go:54-69 | the partial loop never removes a group |
| Filesys.FindRootTemplates | filesys/template_lister.go:44-50 | the first loop produces the root keys in listing order, and a group per key holding only its root |
| Filesys.AttachPartial | filesys/template_lister.go:55-68 | one partial is skipped when it has no root; otherwise it is stored under its root key and OS-less path, unless the stored path is at least as long |
| Filesys.AttachPartials | filesys/template_lister.go:53-69 | the second loop applies that turn to every partial in listing order |
| Filesys.ListTemplates | filesys/template_lister.go:39-71 | the grouping is the two loops' folds over the listings |
| Filesys.Grouped | filesys/template_lister.go:39-71 | what `ListTemplates` returns: the partial loop run over the root loop's groups; characterised by the TemplateGrouping lemmas |
| TemplateGrouping.BestUnique | filesys/template_lister.go:61-68 | a slot has at most one winning partial |
| TemplateGrouping.BestExists | filesys/template_lister.go:61-68 | a slot that some partial is filed under has a winning partial |
| TemplateGrouping.BestStep | filesys/template_lister.go:61-68 | a new partial takes a slot only when it is filed there and strictly longer than the current winner |
| TemplateGrouping.AddPartialAt | filesys/template_lister.go:55-68 | one partial changes only its own slot, and only when the slot is empty or holds a shorter path |
| TemplateGrouping.AddPartialsAt | filesys/template_lister.go:54-69 | a slot with no partials keeps its value; a slot with partials ends with the longest of them, the first listed among equally long ones |
| TemplateGrouping.AddPartialKeys | filesys/template_lister.go:56-59 | one partial neither opens nor closes a group |
| TemplateGrouping.AddPartialsKeys | filesys/template_lister.go:54-69 | partials never add a top-level key; orphans are skipped |
| TemplateGrouping.RootKeysMembers | filesys/template_lister.go:45-47 | the listed root keys are exactly the keys of the listed roots |
| TemplateGrouping.GroupRootsEntry | filesys/template_lister.go:45-50 | every entry of the first loop is a listed root, stored under its own path and its own key |
| TemplateGrouping.GroupRootsKeepsLast | filesys/template_lister.go:48-49 | a root stays in its group unless a later root has the same key |
| TemplateGrouping.SlotNotRootPath | filesys/template_lister.go:56-57 | a root template's own path is never the slot of a partial |
| TemplateGrouping.GroupRootsMissSlot | filesys/template_lister.go:45-57 | the first loop puts nothing in a partial's slot |
| TemplateGrouping.GroupedKeys | filesys/template_lister.go:39-71 | the result has one group per distinct root key, so no roots means an empty result |
| TemplateGrouping.GroupedKeepsRoot | filesys/template_lister.go:45-50 | each root whose key no later root shares is stored as `templates[TemplateKey(e)][e] == e` |
| TemplateGrouping.GroupedPartial | filesys/template_lister.go:61-68 | when two partials share an OS-less path under one key, the longer raw path is stored, in either listing order |
| TemplateGrouping.GroupedUntouched | filesys/template_lister.go:54-69 | a slot that no partial is filed under keeps what the root loop put there |
| TemplateGrouping.GroupedEntry | filesys/template_lister.go:39-71 | every entry of the result is a root under its own path or the winning partial of its slot |
| TemplateGrouping.GroupRootsLast | filesys/template_lister.go:45-50 | the group the first loop leaves for a key holds only the last root with that key |
| TemplateGrouping.GroupedDropsShadowedRoot | filesys/template_lister.go:45-50 | as written, a root is missing from the result when a later root has the same lower-cased key and another path |
| TemplateGrouping.GroupRootsCorrected | filesys/template_lister.go:45-50 | the first loop as evidently intended: a root joins its key's group instead of replacing it |
| TemplateGrouping.GroupRootsCorrectedKeys | filesys/template_lister.go:45-50 | the corrected loop opens the same groups |
| TemplateGrouping.GroupRootsCorrectedKeepsAll | filesys/template_lister.go:45-50 | the corrected loop keeps every root under its own path |
| TemplateGrouping.GroupedCorrected | filesys/template_lister.go:39-71 | `ListTemplates` with the corrected first loop |
| TemplateGrouping.GroupedCorrectedKeepsEveryRoot | filesys/template_lister.go:37-71 | with the correction, every listed root is in the result as `templates[TemplateKey(e)][e] == e` |
| TplTemplate.FilenameIsLastElement | tpl/template.go:118-122 | the file name is the '/'-free tail of the path after its directory part |
| TplTemplate.Template.Filename | tpl/template.go:118-122 | the file part of `filepath.Split` of the path |
| TplTemplate.Template.BaseFilename | tpl/template.go:105-109 | the file name with the path's final extension trimmed off |
| TplTemplate.Template.Dir | tpl/template.go:111-116 | the directory part of `filepath.Split` with one trailing '/' trimmed |
| TplTemplate.BaseFilenameAndExt | tpl/template.go:105-109 | the base file name followed by the final extension is the file name |
| TplTemplate.FilenameOfJoin | tpl/template.go:118-122 | the file name of "dir/file" is "file" |
| TplTemplate.BaseFilenameOfStemAndExt | tpl/template.go:105-109 | "dir/stem.ext", with no further '.' in ext, has base file name "stem" (e.g. "Vagrantfile.template" gives "Vagrantfile") |
| TplTemplate.DirAndFilename | tpl/template.go:111-122 | for a path containing '/', `Dir + "/" + Filename` is the path |
| TplTemplate.Template.Content | tpl/template.go:94-103 | writes "\n" and then the file's content; on a read error it reports the error after the "\n" is written |
| TplTemplate.LastNamed | tpl/template.go:72-84 | the index of the last listed file with a given file name lies within the listing |
| TplTemplate.LastNamedIsLast | tpl/template.go:72-84 | that index names a file with the name, and no later file has it |
| TplTemplate.ByFilenameAt | tpl/template.go:72-84 | filing by file name keeps the last file of each name and leaves other names alone |
| TplTemplate.PartialsAt | tpl/template.go:72-84 | a file name gets the last OS-specific partial of that name if any, else the last shared one, else none |
| TplTemplate.ByFilename | tpl/template.go:73-84 | the partials map after filing the first n listed files under their file names |
| TplTemplate.Partials | tpl/template.go:72-84 | shared partials filed first, OS-specific ones over them |
| TplTemplate.PartialsFromListings | tpl/template.go:72-84 | every partial is filed under its own file name and comes from a listing; an OS-specific partial of a name always wins |
| TplTemplate.PartialsCoverListings | tpl/template.go:72-84 | every listed partial's file name has a partial |
| TplTemplate.Flatten | tpl/template.go:86-90 | the flattening loop yields each map value exactly once |
| TplTemplate.FilePartials | tpl/template.go:72-84 | the two filing loops compute the OS-over-shared partial map |
| TplTemplate.PartialsKeyed | tpl/template.go:72-84 | every partial in the map is filed under its own file name |
| TplTemplate.FindPartialTemplates | tpl/template.go:68-92 | this revision returns each chosen partial once, in an unspecified order |
| TplRootTemplate.DefineName | tpl/root_template.go:32-33 | a `define` name contains no '.' |
| TplRootTemplate.DefineOpen | tpl/root_template.go:34 | the line opening a partial's `define` block |
| TplRootTemplate.Section | tpl/root_template.go:32-41 | what one readable partial adds: the `define` line, "\n", its content, "\n{{end}}" |
| TplRootTemplate.Sections | tpl/root_template.go:30-43 | the sections of the first n partials, in list order |
| TplRootTemplate.Composed | tpl/root_template.go:19-45 | what `Content` returns: the root's read error, else the first unreadable partial's error, else the root text followed by every section |
| TplRootTemplate.FirstUnreadable | tpl/root_template.go:30-39 | the first unreadable partial found lies within the list |
| TplRootTemplate.RootTemplate.Content | tpl/root_template.go:18-45 | the buffer loop returns the composition: the root's text and one define block per partial in list order, or the first read error |
| TplRootTemplate.RootTemplate.FindPartialTemplate | tpl/root_template.go:76-84 | returns a partial whose path equals the argument exactly when one exists, else none |
| TplRootTemplate.RootTemplate.FindPartialTemplates | tpl/root_template.go:47-74 | the chosen partials, each once, sorted by path, and nothing else |
| TplRootTemplate.FirstUnreadableStays | tpl/root_template.go:36-39 | once a partial fails to read, it stays the reported failure |
| TplRootTemplate.FirstUnreadableIsFirst | tpl/root_template.go:30-39 | no failure is reported exactly when every partial can be read; otherwise the failure is the first unreadable partial |
| TplRootTemplate.ComposedFails | tpl/root_template.go:19-45 | succeeds exactly when the root and every partial can be read; a failure returns the root's or the first failing partial's error and no text |
| TplRootTemplate.ComposedStartsWithRoot | tpl/root_template.go:23-44 | the text starts with the root file verbatim, and with no partials it is exactly the root file |
| TplRootTemplate.FirstUnreadableOfAppend | tpl/root_template.go:30-39 | adding a partial at the end does not change what the earlier partials report |
| TplRootTemplate.SectionsOfAppend | tpl/root_template.go:30-43 | adding a partial at the end does not change the earlier sections |
| TplRootTemplate.ComposedOfAppend | tpl/root_template.go:30-43 | each partial appends exactly "\n{{define \"N\"}}" + "\n" + its content + "\n{{end}}" and changes nothing before it |
| TplRootTemplate.TrimThenRemoveDots | tpl/root_template.go:32-33 | trimming "base" from "base.segment" and deleting the dots gives "segment" |
| TplRootTemplate.DefineNameOfSegment | tpl/root_template.go:32-33 | "Autounattend.xml.disks.ptpl" under "Autounattend.xml.tpl" is named "disks", for every such base and segment |
| TplRootTemplate.InsertSorted | tpl/root_template.go:72 | inserting into a path-sorted list keeps it sorted and adds exactly that template |
| TplRootTemplate.SortByPath | tpl/root_template.go:72 | the sort yields a list sorted by path with the same templates |
| TplRootTemplate.SortedUnique | tpl/root_template.go:71-72 | two sorted lists of the same templates are equal, so the sorted order does not depend on map order |
| TplTemplates.ListRootTemplates | tpl/templates.go:44-54 | the walk callback appends exactly the fold of root-template entries |
| TplTemplates.RootTemplatePaths | tpl/templates.go:44-54 | the paths the walk callback has appended after the first n entries |
| TplTemplates.IsRootTemplateFile | tpl/templates.go:47 | the walk filter: not a directory, and the extension is exactly ".tpl" |
| TplTemplates.RootTemplatePathsFiltered | tpl/templates.go:47-50 | the listing holds exactly the walked non-directory entries whose extension is exactly ".tpl" |
| TplTemplates.RootTemplatePathsAreTpl | tpl/templates.go:47-50 | every listed path has extension ".tpl" |
| TplTemplates.Templates.constructor | tpl/templates.go:14-29 | sets the base directory; one root template per listed entry, in order, with that path and no partials |
| TplTemplates.Templates.FindTemplate | tpl/templates.go:31-39 | returns a template with the path exactly when one is in `All`, namely the first such one |
| RendererFuncs.SafeComputerName | renderer/template_funcs.go:18-31 | the loop and clamp compute `SafeName` |
| RendererFuncs.Stripped | renderer/template_funcs.go:22-25 | the name after the first n turns of the deletion loop |
| RendererFuncs.Clamp | renderer/template_funcs.go:26-30 | at most the first 15 characters |
| RendererFuncs.SafeName | renderer/template_funcs.go:18-31 | what `SafeComputerName` returns as written: "computername" for "", else the stripped name clamped to 15 |
| RendererFuncs.Valid | renderer/template_funcs.go:22-25 | the reference definition keeps no invalid character |
| RendererFuncs.DeletedByAll | renderer/template_funcs.go:22-23 | a character is deleted by the first n turns exactly when it is one of the first n invalid characters |
| RendererFuncs.StrippedCons | renderer/template_funcs.go:23-25 | the deletion loop acts on a name character by character |
| RendererFuncs.StrippedIsValid | renderer/template_funcs.go:22-25 | deleting the nine characters in turn is keeping the valid characters in order |
| RendererFuncs.StrippedOfEmpty | renderer/template_funcs.go:23-25 | deleting characters from "" gives "" |
| RendererFuncs.ValidOfValid | renderer/template_funcs.go:22-25 | a name without invalid characters is kept whole |
| RendererFuncs.SafeNameIsValidPrefix | renderer/template_funcs.go:18-31 | "" gives "computername"; otherwise the result is a prefix of the valid characters, of length min(15, their count), with no invalid character |
| RendererFuncs.SafeNameKeepsValidName | renderer/template_funcs.go:22-30 | a non-empty valid name of at most 15 characters is returned unchanged |
| RendererFuncs.SafeNameIdempotent | renderer/template_funcs.go:18-31 | applying it twice equals applying it once whenever the first result is non-empty |
| RendererFuncs.SafeNameOfOnlyInvalid | renderer/template_funcs.go:19-25 | a non-empty name made only of invalid characters gives "" |
| RendererFuncs.OnlyInvalidHasNoValid | renderer/template_funcs.go:22-25 | such a name has no valid characters |
| RendererFuncs.DefaultNameIsValid | renderer/template_funcs.go:20 | "computername" is a valid computer name |
| RendererFuncs.SafeNameCorrected | renderer/template_funcs.go:18-31 | the name as evidently intended: a result that would be empty becomes "computername" |
| RendererFuncs.SafeNameCorrectedIsComputerName | renderer/template_funcs.go:18-31 | the corrected name is never empty, is at most 15 characters, has no invalid character, and agrees with the original whenever that is non-empty |
| RendererLister.LongestStep | renderer/template_lister.go:21-25 | a later file takes over a key only when it has the key and a strictly longer path |
| RendererLister.RenderKey | renderer/template_lister.go:15-16 | a file's key: its base name with the first "-<osName>" deleted |
| RendererLister.Keep | renderer/template_lister.go:21-25 | one turn of the first loop: the file is stored under its key unless the stored file's path is at least as long |
| RendererLister.FileMap | renderer/template_lister.go:12-26 | the map after the first n turns |
| RendererLister.Rendered | renderer/template_lister.go:28-33 | the set of the map's values, which the second loop copies out |
| RendererLister.LongestFirst | renderer/template_lister.go:21-25 | the first file with a key is its longest so far |
| RendererLister.FileMapAt | renderer/template_lister.go:12-26 | the map holds exactly the keys of the files, each with the longest of its files, the earliest among equally long ones |
| RendererLister.FileMapKeyed | renderer/template_lister.go:15-25 | each kept path is filed under its own key and is an input path |
| RendererLister.RenderedOnePerKey | renderer/template_lister.go:12-33 | exactly one output path per distinct key, and every output path is an input path |
| RendererLister.RenderedIsLongest | renderer/template_lister.go:21-25 | each output path is the longest of its key, the earliest among equally long ones |
| RendererLister.NoCollisionSurvives | renderer/template_lister.go:12-33 | a file whose key no other file has is in the output |
| RendererLister.LongerSameKeyWins | renderer/template_lister.go:21-25 | a file is dropped when a longer file has its key, as an OS-specific file does against the generic one |
| RendererLister.FilterFilesToRender | renderer/template_lister.go:11-34 | the output is exactly the map's values, no two of them with the same key |
| RendererOptions.NewRenderOptionsDefaults | renderer/render_options.go:43-63 | OSName "windows10", ProductKey "", Communicator "winrm", Username/Password "vagrant", DiskSize 61400, RAM 2048, CPU 2, Headless and WindowsUpdates true |
| RendererOptions.NewRenderOptions | renderer/render_options.go:43-63 | the Windows 10 Enterprise evaluation defaults, every field as the struct literal gives it |
| RendererOptions.NewRenderOptionsWithOverrides | renderer/render_options.go:27-39 | never fails; copies name, ISO checksum, checksum type, URL, both guest-OS types, image name and product key from the OS record; every other field keeps its default |
| OsRegistry.New | osregistry/operating_system.go:28-55 | a found OS is named by the lower-cased name, which is lower case |
| OsRegistry.NewSucceeds | osregistry/operating_system.go:29-54 | succeeds exactly when the registry decodes, has the lower-cased name, and that entry decodes; then every other field comes from the entry |
| OsRegistry.NewFailures | osregistry/operating_system.go:34-49 | decode errors are returned as they are; a missing name gives "Could not find <osName>" in the caller's spelling |
| OsRegistry.NewIgnoresCase | osregistry/operating_system.go:29-39 | names that differ only in ASCII case find the same entry |
| OsRegistry.UpperCaseKeyUnreachable | osregistry/operating_system.go:29-52 | a registry key that is not lower case is never what is found |
| OsRegistry.NotFound | osregistry/operating_system.go:41 | the error "Could not find <osName>" for a missing name |
| Configuration.InductorConfiguration.Get | configuration/inductor_configuration.go:46-52 | an entry exactly when the name is a key, matched case-sensitively, and that key's entry |
| Configuration.InductorConfiguration.List | configuration/inductor_configuration.go:35-43 | every key exactly once, as many names as keys, in any order |
| Configuration.ApplyConfigToDefaults | configuration/inductor_configuration.go:56-75 | defaults are Gui false, WindowsUpdates true, Communicator "winrm", OutDir "out", no OSes; a "config" block replaces the settings it gives and leaves the rest |
| Configuration.Defaults | configuration/inductor_configuration.go:56-62 | the configuration before decoding: Gui false, WindowsUpdates true, Communicator "winrm", OutDir "out", no OSes |
| Configuration.ApplyConfig | configuration/inductor_configuration.go:72 | decoding a "config" block into a configuration: each setting it gives replaces the current one, the others stay |
| Configuration.GetNameMatches | configuration/inductor_configuration.go:46-52 | in a configuration whose entries are named by their keys, `Get` returns an entry with the requested name |
| Configuration.New | configuration/inductor_configuration.go:55-96 | any decode error is returned without a configuration, in decoding order; otherwise the settings come from the config block over the defaults, and every OS entry is stored under its key with its name set to that key |

## Left out

- Directory listing, globbing and walking are inputs. This covers `listTemplates`, `listPartialTemplates`, the `filepath.Walk` of `listRootTemplates`, the partial globs of `FindPartialTemplates` and `ListFiles`. So are file reads, the JSON decoding of the configuration and the OS registry, and the error a failed read or decode reports.
- Go's `filepath.Glob` treats `**` as `*`, so the filesys globs only look one directory deep. This is not modelled, because the listings are inputs.
- Paths use '/' only. `filepath.Join` is modelled as joining with one '/': an empty directory gives the file alone, and a directory that already ends in '/' gets no second one. The rest of `filepath.Clean` is not modelled.
- Text is ASCII: `strings.ToLower` lower-cases 'A'..'Z' only, and the length and 15-byte cut in `SafeComputerName` count characters, not UTF-8 bytes.
- `ByPath` is not declared in the files modelled here. The model assumes it orders templates by `Path` with Go's byte-wise string `<`, as `Text.Less` defines. `sort.Sort(ByPath(...))` is modelled by an insertion sort. It is proved to yield the one list sorted by path with the same templates, so the algorithm does not matter.
- tpl/template.go also declares `RootTemplate`, `PartialTemplate`, `FindPartialTemplate` and `Content`, the same as tpl/root_template.go except for the partial type. They are modelled once, by the root_template.go versions. Only the unsorted `FindPartialTemplates` of template.go is modelled separately.
- TplTemplate.DirAndFilename: `Dir` has no trailing '/' only when the directory part does not end in "//". "a//b" has directory "a/". So the lemma states only the reconstruction, `Dir + "/" + Filename == path`.
- Filesys.RemoveOsDirDropsOsSegment: `removeOsDir` trims the OS name as text. A directory like "base/mywindows10" under OS "windows10" also loses its tail. The lemmas cover a whole OS segment and a directory that does not end with the OS name.
- RendererLister.LongerSameKeyWins: the key equality of "name-<os>.ext" and "name.ext" is taken as a hypothesis. It holds when "-<os>" occurs first at that place in the base name.
- osregistry's `OperatingSystem` declares no `ProductKey`, yet renderer/render_options.go:37 reads `os.ProductKey`. The model gives the registry record a `productKey` field, so the override has something to copy.
- A configuration without a "config" or "operating_systems" key dereferences nil and panics. So does a JSON `null` for "config", for "operating_systems", for an entry of it, or for an OS registry entry: it decodes to a nil `*json.RawMessage` that `*v` or `*val` dereferences. The model always has both parts and treats every entry as a decoding outcome.
- A "config" block is decoded into the whole configuration, so it could also fill `OperatingSystems` before the OS loop. The model decodes only the four settings from it.
- Stale tests from other revisions are not modelled. These include tests that use `.template`/`.partial`, ordered `List`, or other-OS files being dropped by `FilterFilesToRender`.
- The debug `fmt.Println(key)` in `FilterFilesToRender` is not modelled.
- Template rendering (renderer/engine.go, `text/template`) is not part of this model. Nor are the Packer template constants (renderer/packer_template.go), file copying (cpy/), the command line (cmd/, inductor.go) or the interface-only files.

## Findings

| source | as written | input that shows it | evidently intended | confidence | as-written member | corrected member |
|---|---|---|---|---|---|---|
| renderer/template_funcs.go:19-25 | the empty check runs before the invalid characters are deleted | `"<>"` is non-empty, so it is stripped to `""` and `""` is returned | a name that would be empty gives "computername", a valid computer name | not executed; proved about the model | RendererFuncs.SafeNameOfOnlyInvalid | RendererFuncs.SafeNameCorrectedIsComputerName |
| filesys/template_lister.go:45-50 | each root opens a fresh group under its lower-cased key, replacing the group an earlier root of the same key opened | roots "t/A.tpl" then "t/a.tpl": both have key "t/a", and "t/A.tpl" is not in the result | every listed root template is in the result, as the comment at filesys/template_lister.go:37 promises | not executed; proved about the model | TemplateGrouping.GroupedDropsShadowedRoot | TemplateGrouping.GroupedCorrectedKeepsEveryRoot |
