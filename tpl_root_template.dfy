/** A root template and its partials, as tpl/root_template.go composes
    them: the root's text followed by one `define` block per partial, and
    the partials chosen by file name and sorted by path. */
module TplRootTemplate {
  import opened Common
  import opened Text
  import opened FilePath
  import opened TplTemplate

  /** The name a partial's `define` block gets: the partial's base file name
      without the root's base file name in front, with every '.' deleted. */
  function DefineName(root: Template, pt: Template): (name: string)
    ensures '.' !in name
  {
    RemoveAll(TrimPrefix(pt.BaseFilename(), root.BaseFilename()), '.')
  }

  /** The line that opens a partial's `define` block. */
  function DefineOpen(root: Template, pt: Template): string
  {
    "\n{{define \"" + DefineName(root, pt) + "\"}}"
  }

  /** What one readable partial adds to the composed text. */
  function Section(root: Template, pt: Template, files: Files): string
    requires pt.path in files
  {
    DefineOpen(root, pt) + "\n" + files[pt.path] + "\n{{end}}"
  }

  /** Index of the first of the first `n` partials that cannot be read. */
  function FirstUnreadable(ps: seq<Template>, files: Files, n: nat): (r: Option<nat>)
    requires n <= |ps|
    ensures r.Some? ==> r.value < n
  {
    if n == 0 then None
    else if FirstUnreadable(ps, files, n - 1).Some? then FirstUnreadable(ps, files, n - 1)
    else if ps[n - 1].path !in files then Some(n - 1)
    else None
  }

  /** The sections of the first `n` partials, all of them readable. */
  function Sections(root: Template, ps: seq<Template>, files: Files, n: nat): string
    requires n <= |ps| && FirstUnreadable(ps, files, n) == None
  {
    if n == 0 then "" else Sections(root, ps, files, n - 1) + Section(root, ps[n - 1], files)
  }

  lemma SectionsStep(root: Template, ps: seq<Template>, files: Files, i: nat)
    requires i < |ps| && FirstUnreadable(ps, files, i) == None && ps[i].path in files
    ensures FirstUnreadable(ps, files, i + 1) == None
    ensures Sections(root, ps, files, i + 1) == Sections(root, ps, files, i) + Section(root, ps[i], files)
  {
  }

  datatype RootTemplate = RootTemplate(template: Template, partialTemplates: seq<Template>)
  {
    /** `Content`: the root's text and then, partial by partial, its
        `define` block; the first file that cannot be read makes the whole
        result that error. */
    method Content(files: Files) returns (r: Result<string>)
      ensures r == Composed(this, files)
    {
      hide DefineOpen;
      if template.path !in files {
        return Failure(ReadError(template.path));
      }
      var buffer := new Buffer();
      buffer.Write(files[template.path]);
      for i := 0 to |partialTemplates|
        invariant FirstUnreadable(partialTemplates, files, i) == None
        invariant buffer.text == files[template.path] + Sections(template, partialTemplates, files, i)
      {
        var pt := partialTemplates[i];
        ghost var before := buffer.text;
        buffer.Write(DefineOpen(template, pt));
        var err := pt.Content(buffer, files);
        if err.Fail? {
          FirstUnreadableStays(partialTemplates, files, i, |partialTemplates|);
          return Failure(err.error);
        }
        buffer.Write("\n{{end}}");
        assert buffer.text == before + Section(template, pt, files);
        SectionsStep(template, partialTemplates, files, i);
      }
      return Success(buffer.text);
    }

    /** `FindPartialTemplate`: a partial with exactly this path, if any. */
    method FindPartialTemplate(path: string) returns (pt: Option<Template>)
      ensures pt.Some? <==> exists i :: 0 <= i < |partialTemplates| && partialTemplates[i].path == path
      ensures pt.Some? ==> pt.value.path == path && pt.value in partialTemplates
    {
      for i := 0 to |partialTemplates|
        invariant forall j :: 0 <= j < i ==> partialTemplates[j].path != path
      {
        if partialTemplates[i].path == path {
          return Some(partialTemplates[i]);
        }
      }
      return None;
    }

    /** `FindPartialTemplates`: shared partials by file name, OS-specific
        ones over them, then sorted by path.  The two listings stand for
        the globs "<Dir>/<BaseFilename>*.ptpl" and
        "<Dir>/<osName>/<BaseFilename>*.ptpl". */
    method FindPartialTemplates(sharedFiles: seq<string>, osFiles: seq<string>) returns (distinct: seq<Template>)
      ensures SortedByPath(distinct)
      ensures forall t :: t in distinct <==> t in Partials(sharedFiles, osFiles).Values
    {
      var partials := FilePartials(sharedFiles, osFiles);
      PartialsKeyed(sharedFiles, osFiles);
      var unsorted := Flatten(partials);
      distinct := SortByPath(unsorted);
    }
  }

  /** The text `Content` returns, or the error it reports. */
  function Composed(rt: RootTemplate, files: Files): Result<string>
  {
    if rt.template.path !in files then Failure(ReadError(rt.template.path))
    else match FirstUnreadable(rt.partialTemplates, files, |rt.partialTemplates|)
      case Some(i) => Failure(ReadError(rt.partialTemplates[i].path))
      case None => Success(files[rt.template.path] + Sections(rt.template, rt.partialTemplates, files, |rt.partialTemplates|))
  }

  /** Once a partial is found unreadable it stays the first unreadable one. */
  lemma {:induction false} FirstUnreadableStays(ps: seq<Template>, files: Files, i: nat, m: nat)
    requires i < m <= |ps|
    requires FirstUnreadable(ps, files, i) == None && ps[i].path !in files
    ensures FirstUnreadable(ps, files, m) == Some(i)
    decreases m
  {
    if m > i + 1 {
      FirstUnreadableStays(ps, files, i, m - 1);
    }
  }

  /** `FirstUnreadable` finds the first partial that cannot be read, and
      finds none exactly when all can be. */
  lemma {:induction false} FirstUnreadableIsFirst(ps: seq<Template>, files: Files, n: nat)
    requires n <= |ps|
    ensures FirstUnreadable(ps, files, n) == None <==> forall j :: 0 <= j < n ==> ps[j].path in files
    ensures FirstUnreadable(ps, files, n).Some? ==>
      var i := FirstUnreadable(ps, files, n).value;
      i < n && ps[i].path !in files && forall j :: 0 <= j < i ==> ps[j].path in files
    decreases n
  {
    if n > 0 {
      FirstUnreadableIsFirst(ps, files, n - 1);
    }
  }

  /** Composition succeeds exactly when the root and every partial can be
      read; otherwise it reports the root, or else the first unreadable
      partial, and no text at all. */
  lemma ComposedFails(rt: RootTemplate, files: Files)
    ensures Composed(rt, files).Success? <==>
      rt.template.path in files && forall t :: t in rt.partialTemplates ==> t.path in files
    ensures rt.template.path !in files ==> Composed(rt, files) == Failure(ReadError(rt.template.path))
    ensures Composed(rt, files).Failure? && rt.template.path in files ==>
      exists i :: 0 <= i < |rt.partialTemplates| && rt.partialTemplates[i].path !in files &&
        Composed(rt, files) == Failure(ReadError(rt.partialTemplates[i].path)) &&
        forall j :: 0 <= j < i ==> rt.partialTemplates[j].path in files
  {
    FirstUnreadableIsFirst(rt.partialTemplates, files, |rt.partialTemplates|);
  }

  /** The composed text starts with the root's text verbatim, and with no
      partials it is nothing more. */
  lemma ComposedStartsWithRoot(rt: RootTemplate, files: Files)
    requires Composed(rt, files).Success?
    ensures HasPrefix(Composed(rt, files).value, files[rt.template.path])
    ensures rt.partialTemplates == [] ==> Composed(rt, files).value == files[rt.template.path]
  {
    var root := files[rt.template.path];
    var text := Composed(rt, files).value;
    assert text[..|root|] == root;
  }

  lemma {:induction false} FirstUnreadableOfAppend(ps: seq<Template>, pt: Template, files: Files, n: nat)
    requires n <= |ps|
    ensures FirstUnreadable(ps + [pt], files, n) == FirstUnreadable(ps, files, n)
    decreases n
  {
    if n > 0 {
      FirstUnreadableOfAppend(ps, pt, files, n - 1);
      assert (ps + [pt])[n - 1] == ps[n - 1];
    }
  }

  lemma {:induction false} SectionsOfAppend(root: Template, ps: seq<Template>, pt: Template, files: Files, n: nat)
    requires n <= |ps| && FirstUnreadable(ps, files, n) == None
    ensures FirstUnreadable(ps + [pt], files, n) == None
    ensures Sections(root, ps + [pt], files, n) == Sections(root, ps, files, n)
    decreases n
  {
    FirstUnreadableOfAppend(ps, pt, files, n);
    if n > 0 {
      SectionsOfAppend(root, ps, pt, files, n - 1);
      assert (ps + [pt])[n - 1] == ps[n - 1];
    }
  }

  /** One more partial at the end of the list adds exactly its `define`
      block, "\n{{define \"N\"}}\n<content>\n{{end}}", to the text, and
      changes nothing before it. */
  lemma ComposedOfAppend(root: Template, ps: seq<Template>, pt: Template, files: Files)
    requires Composed(RootTemplate(root, ps), files).Success?
    requires pt.path in files
    ensures Composed(RootTemplate(root, ps + [pt]), files) ==
      Success(Composed(RootTemplate(root, ps), files).value + Section(root, pt, files))
  {
    hide Section;
    var qs := ps + [pt];
    SectionsOfAppend(root, ps, pt, files, |ps|);
    assert qs[|ps|] == pt;
    assert FirstUnreadable(qs, files, |qs|) == None;
    var text := files[root.path];
    var before := Sections(root, ps, files, |ps|);
    assert Sections(root, qs, files, |qs|) == before + Section(root, pt, files);
    assert text + (before + Section(root, pt, files)) == (text + before) + Section(root, pt, files);
  }

  lemma TrimThenRemoveDots(base: string, segment: string)
    requires '.' !in segment
    ensures RemoveAll(TrimPrefix(base + "." + segment, base), '.') == segment
  {
    var stem := base + "." + segment;
    assert stem[..|base|] == base;
    assert TrimPrefix(stem, base) == "." + segment;
    assert ("." + segment)[1..] == segment;
  }

  /** A partial's `define` name is what its base file name adds to the
      root's: "Autounattend.xml.disks.ptpl" under "Autounattend.xml.tpl"
      is named "disks". */
  lemma DefineNameOfSegment(dir: string, partialDir: string, base: string, segment: string)
    requires '/' !in base && '/' !in segment && '.' !in segment
    ensures DefineName(Template(dir + "/" + base + ".tpl"), Template(partialDir + "/" + base + "." + segment + ".ptpl")) == segment
  {
    hide Template.BaseFilename, RemoveAll, TrimPrefix;
    var root := Template(dir + "/" + base + ".tpl");
    var stem := base + "." + segment;
    var pt := Template(partialDir + "/" + base + "." + segment + ".ptpl");
    assert pt.path == partialDir + "/" + stem + "." + "ptpl";
    assert root.path == dir + "/" + base + "." + "tpl";
    NoSlashInStemAndExt(base, segment);
    BaseFilenameOfStemAndExt(dir, base, "tpl");
    BaseFilenameOfStemAndExt(partialDir, stem, "ptpl");
    TrimThenRemoveDots(base, segment);
  }

  /** Paths strictly increasing, in Go's string order. */
  predicate SortedByPath(ts: seq<Template>)
  {
    forall i, j :: 0 <= i < j < |ts| ==> Less(ts[i].path, ts[j].path)
  }

  /** `ts` with `x` put in its place by path. */
  function Insert(ts: seq<Template>, x: Template): seq<Template>
  {
    if ts == [] then [x]
    else if Less(x.path, ts[0].path) then [x] + ts
    else [ts[0]] + Insert(ts[1..], x)
  }

  /** Putting a new template into a sorted list keeps it sorted and adds
      exactly that template. */
  lemma {:induction false} InsertSorted(ts: seq<Template>, x: Template)
    requires SortedByPath(ts) && x !in ts
    ensures SortedByPath(Insert(ts, x))
    ensures forall t :: t in Insert(ts, x) <==> t in ts || t == x
    decreases |ts|
  {
    if ts == [] {
    } else if Less(x.path, ts[0].path) {
      forall j | 0 < j < |ts|
        ensures Less(x.path, ts[j].path)
      {
        LessTransitive(x.path, ts[0].path, ts[j].path);
      }
    } else {
      LessTotal(x.path, ts[0].path);
      var rest := Insert(ts[1..], x);
      InsertSorted(ts[1..], x);
      assert forall t :: t in ts[1..] ==> t in ts;
      assert forall t :: t in ts ==> t == ts[0] || t in ts[1..];
      forall t | t in rest
        ensures Less(ts[0].path, t.path)
      {
        if t != x {
          var j :| 0 <= j < |ts[1..]| && ts[1..][j] == t;
          assert ts[j + 1] == t;
        }
      }
    }
  }

  /** The sort: each template inserted into a sorted list in turn. */
  method SortByPath(ts: seq<Template>) returns (sorted: seq<Template>)
    requires Distinct(ts)
    ensures SortedByPath(sorted)
    ensures forall t :: t in sorted <==> t in ts
  {
    sorted := [];
    for i := 0 to |ts|
      invariant SortedByPath(sorted)
      invariant forall t :: t in sorted <==> t in ts[..i]
    {
      assert ts[i] !in ts[..i];
      InsertSorted(sorted, ts[i]);
      sorted := Insert(sorted, ts[i]);
      assert ts[..i + 1] == ts[..i] + [ts[i]];
    }
    assert ts[..|ts|] == ts;
  }

  lemma SameMembersBothEmpty(a: seq<Template>, b: seq<Template>)
    requires forall t :: t in a <==> t in b
    ensures a == [] <==> b == []
  {
    if a != [] {
      assert a[0] in a;
    }
    if b != [] {
      assert b[0] in b;
    }
  }

  /** Two sorted lists of the same templates are the same list: the sorted
      result does not depend on the order the map yielded them in. */
  lemma {:induction false} SortedUnique(a: seq<Template>, b: seq<Template>)
    requires SortedByPath(a) && SortedByPath(b)
    requires forall t :: t in a <==> t in b
    ensures a == b
    decreases |a|
  {
    SameMembersBothEmpty(a, b);
    if a != [] {
      if a[0] != b[0] {
        assert a[0] in b && b[0] in a;
        var i :| 0 <= i < |b| && b[i] == a[0];
        var j :| 0 <= j < |a| && a[j] == b[0];
        assert Less(b[0].path, a[0].path);
        assert Less(a[0].path, b[0].path);
        LessAsymmetric(a[0].path, b[0].path);
      }
      forall t
        ensures t in a[1..] <==> t in b[1..]
      {
        if t in a[1..] {
          var i :| 0 < i < |a| && a[i] == t;
          assert Less(a[0].path, t.path);
          LessIrreflexive(t.path);
          assert t in b;
        }
        if t in b[1..] {
          var i :| 0 < i < |b| && b[i] == t;
          assert Less(b[0].path, t.path);
          LessIrreflexive(t.path);
          assert t in a;
        }
      }
      SortedUnique(a[1..], b[1..]);
      assert a == [a[0]] + a[1..] && b == [b[0]] + b[1..];
    }
  }
}
