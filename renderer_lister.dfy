/** `FilterFilesToRender` from renderer/template_lister.go: of the files
    that share a name once the "-<os>" part is taken out, only the one with
    the longest path is rendered. */
module RendererLister {
  import opened Text
  import opened FilePath

  /** The key a file competes under: its base name with the first
      "-<osName>" deleted. */
  function RenderKey(f: string, osName: string): string
  {
    ReplaceFirst(Base(f), "-" + osName, "")
  }

  /** One turn of the loop: the file is stored under its key unless the
      file already there has a path at least as long. */
  function Keep(fileMap: map<string, string>, f: string, osName: string): map<string, string>
  {
    var key := RenderKey(f, osName);
    var curFile := if key in fileMap then fileMap[key] else "";
    fileMap[key := if |f| > |curFile| then f else curFile]
  }

  /** `fileMap` after the first `n` turns. */
  function FileMap(files: seq<string>, osName: string, n: nat): map<string, string>
    requires n <= |files|
  {
    if n == 0 then map[] else Keep(FileMap(files, osName, n - 1), files[n - 1], osName)
  }

  /** `files[w]` is what the first `n` turns keep for `key`: the longest of
      the files with that key, and the first of them among equally long
      ones. */
  predicate Longest(files: seq<string>, osName: string, n: nat, key: string, w: int)
    requires n <= |files|
  {
    0 <= w < n && RenderKey(files[w], osName) == key && Dominant(files, osName, n, key, w)
  }

  predicate Dominant(files: seq<string>, osName: string, n: nat, key: string, w: int)
    requires 0 <= w < n <= |files|
  {
    (forall j :: 0 <= j < n && RenderKey(files[j], osName) == key ==> |files[j]| <= |files[w]|) &&
    (forall j :: 0 <= j < w && RenderKey(files[j], osName) == key ==> |files[j]| < |files[w]|)
  }

  /** How the longest file of a key changes with one more file: the new
      one takes over only when it has the key and a strictly longer path. */
  lemma LongestStep(files: seq<string>, osName: string, n: nat, key: string, w: int)
    requires 0 < n <= |files|
    requires Longest(files, osName, n - 1, key, w)
    ensures var f := files[n - 1];
      if RenderKey(f, osName) == key && |f| > |files[w]| then Longest(files, osName, n, key, n - 1)
      else Longest(files, osName, n, key, w)
  {
    hide RenderKey;
  }

  /** The first file with a key is the longest of it so far. */
  lemma LongestFirst(files: seq<string>, osName: string, n: nat, key: string)
    requires 0 < n <= |files|
    requires RenderKey(files[n - 1], osName) == key
    requires forall j :: 0 <= j < n - 1 ==> RenderKey(files[j], osName) != key
    ensures Longest(files, osName, n, key, n - 1)
  {
    hide RenderKey;
  }

  /** Each key of a file is in the map, no other key is, and each key holds
      the longest of its files. */
  lemma {:induction false} FileMapAt(files: seq<string>, osName: string, n: nat, key: string)
    requires n <= |files|
    ensures key in FileMap(files, osName, n) <==> exists j :: 0 <= j < n && RenderKey(files[j], osName) == key
    ensures key in FileMap(files, osName, n) ==>
      exists w :: Longest(files, osName, n, key, w) && FileMap(files, osName, n)[key] == files[w]
    decreases n
  {
    hide RenderKey;
    if n > 0 {
      FileMapAt(files, osName, n - 1, key);
      var m := FileMap(files, osName, n - 1);
      var f := files[n - 1];
      assert FileMap(files, osName, n) == Keep(m, f, osName);
      if key in m {
        var w :| Longest(files, osName, n - 1, key, w) && m[key] == files[w];
        LongestStep(files, osName, n, key, w);
      } else if RenderKey(f, osName) == key {
        LongestFirst(files, osName, n, key);
      }
    }
  }

  /** The paths `FilterFilesToRender` returns, as a set. */
  function Rendered(files: seq<string>, osName: string): set<string>
  {
    FileMap(files, osName, |files|).Values
  }

  /** Every path kept is filed under its own key and is one of the input
      paths. */
  lemma FileMapKeyed(files: seq<string>, osName: string, n: nat)
    requires n <= |files|
    ensures forall key :: key in FileMap(files, osName, n) ==>
      RenderKey(FileMap(files, osName, n)[key], osName) == key && FileMap(files, osName, n)[key] in files
  {
    forall key | key in FileMap(files, osName, n)
      ensures RenderKey(FileMap(files, osName, n)[key], osName) == key && FileMap(files, osName, n)[key] in files
    {
      FileMapAt(files, osName, n, key);
    }
  }

  /** One path per key: every input path's key has exactly one rendered
      path, every rendered path is an input path, and no two rendered paths
      share a key. */
  lemma RenderedOnePerKey(files: seq<string>, osName: string)
    ensures forall v :: v in Rendered(files, osName) ==> v in files
    ensures forall f :: f in files ==> exists v :: v in Rendered(files, osName) && RenderKey(v, osName) == RenderKey(f, osName)
    ensures forall v, u ::
      v in Rendered(files, osName) && u in Rendered(files, osName) && RenderKey(v, osName) == RenderKey(u, osName)
      ==> v == u
  {
    hide RenderKey;
    var m := FileMap(files, osName, |files|);
    FileMapKeyed(files, osName, |files|);
    forall f | f in files
      ensures exists v :: v in Rendered(files, osName) && RenderKey(v, osName) == RenderKey(f, osName)
    {
      var j :| 0 <= j < |files| && files[j] == f;
      FileMapAt(files, osName, |files|, RenderKey(f, osName));
      assert m[RenderKey(f, osName)] in m.Values;
    }
    forall v, u | v in m.Values && u in m.Values && RenderKey(v, osName) == RenderKey(u, osName)
      ensures v == u
    {
      var kv :| kv in m && m[kv] == v;
      var ku :| ku in m && m[ku] == u;
    }
  }

  /** The path rendered for a key is the longest input path with that key,
      the first of them in input order when several are equally long. */
  lemma RenderedIsLongest(files: seq<string>, osName: string, v: string)
    requires v in Rendered(files, osName)
    ensures exists w :: Longest(files, osName, |files|, RenderKey(v, osName), w) && files[w] == v
  {
    var m := FileMap(files, osName, |files|);
    var key :| key in m && m[key] == v;
    FileMapAt(files, osName, |files|, key);
  }

  /** A path whose key no other input path has is rendered. */
  lemma NoCollisionSurvives(files: seq<string>, osName: string, f: string)
    requires f in files
    requires forall g :: g in files && RenderKey(g, osName) == RenderKey(f, osName) ==> g == f
    ensures f in Rendered(files, osName)
  {
    RenderedOnePerKey(files, osName);
    var v :| v in Rendered(files, osName) && RenderKey(v, osName) == RenderKey(f, osName);
  }

  /** A path is dropped when an input path with the same key is longer, as
      an OS-specific "name-<os>.ext" is against the shared "name.ext" in the
      same directory. */
  lemma LongerSameKeyWins(files: seq<string>, osName: string, f: string, g: string)
    requires f in files && g in files
    requires RenderKey(g, osName) == RenderKey(f, osName) && |g| > |f|
    ensures f !in Rendered(files, osName)
    ensures exists v :: v in Rendered(files, osName) && RenderKey(v, osName) == RenderKey(f, osName) && |v| >= |g|
  {
    RenderedOnePerKey(files, osName);
    var v :| v in Rendered(files, osName) && RenderKey(v, osName) == RenderKey(f, osName);
    RenderedIsLongest(files, osName, v);
    var j :| 0 <= j < |files| && files[j] == g;
    assert |v| >= |g|;
  }

  /** `FilterFilesToRender`: the loop filing each path under its key, then
      the loop copying the map's values out in map order. */
  method FilterFilesToRender(files: seq<string>, osName: string) returns (distinctFiles: seq<string>)
    ensures forall v :: v in distinctFiles <==> v in Rendered(files, osName)
    ensures forall i, j :: 0 <= i < j < |distinctFiles| ==>
      RenderKey(distinctFiles[i], osName) != RenderKey(distinctFiles[j], osName)
  {
    hide Base, ReplaceFirst;
    var fileMap: map<string, string> := map[];
    for i := 0 to |files|
      invariant fileMap == FileMap(files, osName, i)
    {
      var f := files[i];
      var filename := Base(f);
      var key := ReplaceFirst(filename, "-" + osName, "");
      assert key == RenderKey(f, osName);
      var curFile := if key in fileMap then fileMap[key] else "";
      if |f| > |curFile| {
        curFile := f;
      }
      fileMap := fileMap[key := curFile];
    }
    FileMapKeyed(files, osName, |files|);
    hide RenderKey, FileMap;
    distinctFiles := [];
    var left := fileMap.Keys;
    while left != {}
      invariant left <= fileMap.Keys
      invariant forall key :: key in fileMap && key !in left ==> fileMap[key] in distinctFiles
      invariant forall i :: 0 <= i < |distinctFiles| ==>
        RenderKey(distinctFiles[i], osName) in fileMap && RenderKey(distinctFiles[i], osName) !in left &&
        fileMap[RenderKey(distinctFiles[i], osName)] == distinctFiles[i]
      invariant forall i, j :: 0 <= i < j < |distinctFiles| ==>
        RenderKey(distinctFiles[i], osName) != RenderKey(distinctFiles[j], osName)
      decreases left
    {
      var key :| key in left;
      distinctFiles := distinctFiles + [fileMap[key]];
      left := left - {key};
    }
  }
}
