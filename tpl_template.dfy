/** Templates as tpl/template.go sees them: a template is a path, with
    helpers for the parts of that path; its content is read from a file and
    written to a buffer; and the partials of a root template are chosen by
    file name, an OS-specific partial replacing a shared one. */
module TplTemplate {
  import opened Common
  import opened Text
  import opened FilePath

  /** The file system's contents as far as reading goes: a path that is not
      a key cannot be read. */
  type Files = map<string, string>

  /** A path to a template file. */
  datatype Template = Template(path: string)
  {
    /** The file name with its extension and without its directory. */
    function Filename(): string
    {
      Split(path).1
    }

    /** The file name without its final extension. */
    function BaseFilename(): string
    {
      TrimSuffix(Filename(), Ext(path))
    }

    /** The directory, without the '/' that ends it. */
    function Dir(): string
    {
      TrimSuffix(Split(path).0, "/")
    }

    /** Writes "\n" and then the file's content; a file that cannot be read
        is reported after the "\n" has been written. */
    method Content(buffer: Buffer, files: Files) returns (o: Outcome)
      modifies buffer
      ensures o == if path in files then Pass else Fail(ReadError(path))
      ensures buffer.text == old(buffer.text) + "\n" + (if path in files then files[path] else "")
    {
      buffer.Write("\n");
      if path !in files {
        return Fail(ReadError(path));
      }
      buffer.Write(files[path]);
      return Pass;
    }
  }

  /** A growable text buffer, as `bytes.Buffer` is used here. */
  class Buffer {
    var text: string

    constructor ()
      ensures text == []
    {
      text := [];
    }

    method Write(s: string)
      modifies this
      ensures text == old(text) + s
    {
      text := text + s;
    }
  }

  /** The file name is the '/'-free tail of the path that follows its
      directory part. */
  lemma FilenameIsLastElement(t: Template)
    ensures '/' !in t.Filename()
    ensures Split(t.path).0 + t.Filename() == t.path
    ensures HasSuffix(t.path, t.Filename())
  {
    SplitParts(t.path);
    var (dir, file) := Split(t.path);
    assert t.path[|t.path| - |file|..] == file;
  }

  /** The base file name and the final extension make up the file name. */
  lemma BaseFilenameAndExt(t: Template)
    ensures t.BaseFilename() + Ext(t.path) == t.Filename()
  {
    var p := t.path;
    var e := Ext(p);
    ExtIsFinalDotSuffix(p);
    FilenameIsLastElement(t);
    var f := t.Filename();
    if e != [] {
      assert LastSlash(p) < LastDot(p);
      assert |e| <= |f|;
      assert f[|f| - |e|..] == p[|p| - |e|..];
    }
    assert HasSuffix(f, e);
  }

  /** The file name of "dir/file" is "file". */
  lemma FilenameOfJoin(dir: string, file: string)
    requires '/' !in file
    ensures Template(dir + "/" + file).Filename() == file
  {
    var p := dir + "/" + file;
    assert p == (dir + "/") + file;
    LastSlashOfAppend(dir + "/", file);
    assert Split(p) == (dir + "/", file);
  }

  lemma NoSlashInStemAndExt(stem: string, ext: string)
    requires '/' !in stem && '/' !in ext
    ensures '/' !in stem + "." + ext
  {
    var file := stem + "." + ext;
    assert forall i :: 0 <= i < |file| ==>
      file[i] == if i < |stem| then stem[i] else if i == |stem| then '.' else ext[i - |stem| - 1];
  }

  /** A file name "stem.ext" whose extension has no further '.' has base
      file name "stem" (so "Vagrantfile.template" gives "Vagrantfile"). */
  lemma BaseFilenameOfStemAndExt(dir: string, stem: string, ext: string)
    requires '/' !in stem && '/' !in ext && '.' !in ext
    ensures Template(dir + "/" + stem + "." + ext).BaseFilename() == stem
  {
    hide *;
    var t := Template(dir + "/" + stem + "." + ext);
    var file := stem + "." + ext;
    NoSlashInStemAndExt(stem, ext);
    assert t.path == dir + "/" + file;
    FilenameOfJoin(dir, file);
    assert t.path == (dir + "/" + stem + ".") + ext;
    LastDotOfAppend(dir + "/" + stem + ".", ext);
    ExtIsFinalDotSuffix(t.path);
    BaseFilenameAndExt(t);
    assert t.BaseFilename() == file[..|stem|];
  }

  /** A path with a directory is its directory, a '/' and its file name. */
  lemma DirAndFilename(t: Template)
    requires '/' in t.path
    ensures t.Dir() + "/" + t.Filename() == t.path
  {
    var p := t.path;
    LastSlashIsLast(p);
    SplitParts(p);
    assert LastSlash(p) >= 0;
  }

  /** The partials map after the first `n` files of `files` have been filed
      under their file names, starting from `m0`. */
  function ByFilename(m0: map<string, Template>, files: seq<string>, n: nat): map<string, Template>
    requires n <= |files|
  {
    if n == 0 then m0
    else ByFilename(m0, files, n - 1)[Template(files[n - 1]).Filename() := Template(files[n - 1])]
  }

  /** Every shared partial filed, then every OS-specific one over them. */
  function Partials(sharedFiles: seq<string>, osFiles: seq<string>): map<string, Template>
  {
    ByFilename(ByFilename(map[], sharedFiles, |sharedFiles|), osFiles, |osFiles|)
  }

  /** Index of the last of the first `n` files named `name`, or -1. */
  function LastNamed(files: seq<string>, n: nat, name: string): (w: int)
    requires n <= |files|
    ensures -1 <= w < n
  {
    if n == 0 then -1
    else if Template(files[n - 1]).Filename() == name then n - 1
    else LastNamed(files, n - 1, name)
  }

  lemma {:induction false} LastNamedIsLast(files: seq<string>, n: nat, name: string)
    requires n <= |files|
    ensures LastNamed(files, n, name) >= 0 ==> Template(files[LastNamed(files, n, name)]).Filename() == name
    ensures forall j :: LastNamed(files, n, name) < j < n ==> Template(files[j]).Filename() != name
    decreases n
  {
    hide Template.Filename;
    if n > 0 && Template(files[n - 1]).Filename() != name {
      LastNamedIsLast(files, n - 1, name);
    }
  }

  function Lookup(m: map<string, Template>, name: string): Option<Template>
  {
    if name in m then Some(m[name]) else None
  }

  /** Filing files by name keeps, for each name, the last file with it, and
      leaves the names no file has as they were. */
  lemma {:induction false} ByFilenameAt(m0: map<string, Template>, files: seq<string>, n: nat, name: string)
    requires n <= |files|
    ensures Lookup(ByFilename(m0, files, n), name) ==
      if LastNamed(files, n, name) >= 0 then Some(Template(files[LastNamed(files, n, name)]))
      else Lookup(m0, name)
    decreases n
  {
    if n > 0 {
      ByFilenameAt(m0, files, n - 1, name);
    }
  }

  /** A file name has an OS-specific partial when one is listed, the last
      such one; otherwise the last shared partial of that name; otherwise
      none. */
  lemma PartialsAt(sharedFiles: seq<string>, osFiles: seq<string>, name: string)
    ensures Lookup(Partials(sharedFiles, osFiles), name) ==
      if LastNamed(osFiles, |osFiles|, name) >= 0 then Some(Template(osFiles[LastNamed(osFiles, |osFiles|, name)]))
      else if LastNamed(sharedFiles, |sharedFiles|, name) >= 0 then Some(Template(sharedFiles[LastNamed(sharedFiles, |sharedFiles|, name)]))
      else None
  {
    ByFilenameAt(ByFilename(map[], sharedFiles, |sharedFiles|), osFiles, |osFiles|, name);
    ByFilenameAt(map[], sharedFiles, |sharedFiles|, name);
  }

  /** Each partial is filed under its own file name and comes from one of
      the two listings; an OS-specific listing of a name always wins. */
  lemma PartialsFromListings(sharedFiles: seq<string>, osFiles: seq<string>, name: string)
    requires name in Partials(sharedFiles, osFiles)
    ensures Partials(sharedFiles, osFiles)[name].Filename() == name
    ensures Partials(sharedFiles, osFiles)[name].path in sharedFiles + osFiles
    ensures (exists f :: f in osFiles && Template(f).Filename() == name) ==>
      Partials(sharedFiles, osFiles)[name].path in osFiles
  {
    PartialsAt(sharedFiles, osFiles, name);
    LastNamedIsLast(osFiles, |osFiles|, name);
    LastNamedIsLast(sharedFiles, |sharedFiles|, name);
  }

  /** Every listed partial's file name has a partial. */
  lemma PartialsCoverListings(sharedFiles: seq<string>, osFiles: seq<string>, f: string)
    requires f in sharedFiles + osFiles
    ensures Template(f).Filename() in Partials(sharedFiles, osFiles)
  {
    var name := Template(f).Filename();
    PartialsAt(sharedFiles, osFiles, name);
    LastNamedIsLast(osFiles, |osFiles|, name);
    LastNamedIsLast(sharedFiles, |sharedFiles|, name);
    if f in osFiles {
      var j :| 0 <= j < |osFiles| && osFiles[j] == f;
    } else {
      var j :| 0 <= j < |sharedFiles| && sharedFiles[j] == f;
    }
  }

  predicate KeyedByFilename(m: map<string, Template>)
  {
    forall name :: name in m ==> m[name].Filename() == name
  }

  predicate Distinct(ts: seq<Template>)
  {
    forall i, j :: 0 <= i < j < |ts| ==> ts[i] != ts[j]
  }

  /** The loop `for _, p := range partials`: the values of the map, each
      once, in whatever order the map yields them. */
  method Flatten(partials: map<string, Template>) returns (distinct: seq<Template>)
    requires KeyedByFilename(partials)
    ensures Distinct(distinct)
    ensures forall t :: t in distinct <==> t in partials.Values
  {
    distinct := [];
    var left := partials.Keys;
    while left != {}
      invariant left <= partials.Keys
      invariant forall name :: name in partials && name !in left ==> partials[name] in distinct
      invariant forall i :: 0 <= i < |distinct| ==>
        distinct[i].Filename() in partials && distinct[i].Filename() !in left &&
        partials[distinct[i].Filename()] == distinct[i]
      invariant Distinct(distinct)
      decreases left
    {
      var name :| name in left;
      distinct := distinct + [partials[name]];
      left := left - {name};
    }
  }

  /** The first two loops of `FindPartialTemplates`: shared partials by
      file name, then OS-specific partials over them. */
  method FilePartials(sharedFiles: seq<string>, osFiles: seq<string>) returns (partials: map<string, Template>)
    ensures partials == Partials(sharedFiles, osFiles)
  {
    partials := map[];
    for i := 0 to |sharedFiles|
      invariant partials == ByFilename(map[], sharedFiles, i)
    {
      var pt := Template(sharedFiles[i]);
      partials := partials[pt.Filename() := pt];
    }
    for i := 0 to |osFiles|
      invariant partials == ByFilename(ByFilename(map[], sharedFiles, |sharedFiles|), osFiles, i)
    {
      var pt := Template(osFiles[i]);
      partials := partials[pt.Filename() := pt];
    }
  }

  /** Every partial is filed under its own file name. */
  lemma PartialsKeyed(sharedFiles: seq<string>, osFiles: seq<string>)
    ensures KeyedByFilename(Partials(sharedFiles, osFiles))
  {
    forall name | name in Partials(sharedFiles, osFiles)
      ensures Partials(sharedFiles, osFiles)[name].Filename() == name
    {
      PartialsFromListings(sharedFiles, osFiles, name);
    }
  }

  /** `FindPartialTemplates` of this revision: shared partials by file name,
      OS-specific partials over them, then the distinct partials in map
      order (no sort). */
  method FindPartialTemplates(sharedFiles: seq<string>, osFiles: seq<string>) returns (distinct: seq<Template>)
    ensures Distinct(distinct)
    ensures forall t :: t in distinct <==> t in Partials(sharedFiles, osFiles).Values
  {
    var partials := FilePartials(sharedFiles, osFiles);
    PartialsKeyed(sharedFiles, osFiles);
    distinct := Flatten(partials);
  }
}
