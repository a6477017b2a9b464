/** Grouping of root templates (`.tpl`) with their partial templates
    (`.ptpl`) for one operating system, as filesys/template_lister.go does
    it.  The two directory listings are inputs. */
module Filesys {
  import opened Text
  import opened FilePath

  const RootExt := ".tpl"
  const PartialExt := ".ptpl"

  /** The key that groups a root template with its partials: the lower-cased
      path without ".tpl", or "" for a path whose extension is not exactly
      ".tpl". */
  function TemplateKey(path: string): string
  {
    if Ext(path) != RootExt then "" else TrimSuffix(ToLower(path), RootExt)
  }

  /** A ".tpl" path's key is its lower-cased stem; any other path has no key. */
  lemma TemplateKeyIsLowerCasedStem(path: string)
    ensures Ext(path) != RootExt ==> TemplateKey(path) == ""
    ensures Ext(path) == RootExt ==> TemplateKey(path) == ToLower(path[..|path| - |RootExt|])
  {
    if Ext(path) == RootExt {
      ExtIsFinalDotSuffix(path);
      assert ToLower(RootExt) == RootExt;
      ToLowerTrimSuffix(path, RootExt);
    }
  }

  /** `q` is `key` itself, or `key` cut just before a '.' of its final path
      element: one of the keys the partial lookup may try. */
  predicate IsDotPrefix(q: string, key: string)
  {
    |q| <= |key| && q == key[..|q|] &&
    (|q| == |key| || (key[|q|] == '.' && LastSlash(key) < |q|))
  }

  /** One peeling step: `key` without its final extension. */
  function Peeled(key: string): (r: string)
    requires Ext(key) != []
    ensures r == key[..LastDot(key)]
  {
    TrimSuffix(key, Ext(key))
  }

  /** The dot-prefixes of `Peeled(key)` are exactly those of `key` other than
      `key` itself. */
  lemma PeelStep(key: string)
    requires Ext(key) != []
    ensures |Peeled(key)| < |key|
    ensures forall q :: IsDotPrefix(q, key) && q != key ==> IsDotPrefix(q, Peeled(key))
    ensures forall q :: IsDotPrefix(q, Peeled(key)) ==> IsDotPrefix(q, key)
  {
    var d := LastDot(key);
    var k' := Peeled(key);
    LastDotIsLast(key);
    LastSlashOfPrefix(key, d);
    forall q | IsDotPrefix(q, key) && q != key
      ensures IsDotPrefix(q, k')
    {
      assert |q| < |key|;
      assert |q| <= d;
      assert q == k'[..|q|];
    }
    forall q | IsDotPrefix(q, k')
      ensures IsDotPrefix(q, key)
    {
      assert q == key[..|q|];
    }
  }

  /** With no '.' in its final element, `key` is its only dot-prefix. */
  lemma OnlyDotPrefixWithoutExt(key: string)
    requires Ext(key) == []
    ensures forall q :: IsDotPrefix(q, key) ==> q == key
  {
    LastDotIsLast(key);
    forall q | IsDotPrefix(q, key)
      ensures q == key
    {
      assert |q| == |key|;
    }
  }

  /** The loop of `TemplateKeyForPartial` as a function: peel extensions off
      `key` from the right, one at a time, until the remainder is one of
      `keys`; "" when the final element runs out of dots first. */
  function PeelKey(keys: seq<string>, key: string): (r: string)
    ensures r != "" ==> r in keys
    decreases |key|
  {
    if key in keys then key
    else
      var ext := Ext(key);
      if ext == "" then ""
      else
        PeelStep(key);
        PeelKey(keys, TrimSuffix(key, ext))
  }

  /** The peeled key is the longest dot-prefix of `key` that is one of
      `keys`. */
  lemma {:induction false} PeelKeyIsLongestDotPrefix(keys: seq<string>, key: string)
    ensures PeelKey(keys, key) != "" ==> IsDotPrefix(PeelKey(keys, key), key)
    ensures forall q :: IsDotPrefix(q, key) && |PeelKey(keys, key)| < |q| ==> q !in keys
    decreases |key|
  {
    if key !in keys {
      var ext := Ext(key);
      if ext == "" {
        OnlyDotPrefixWithoutExt(key);
      } else {
        PeelStep(key);
        PeelKeyIsLongestDotPrefix(keys, TrimSuffix(key, ext));
      }
    }
  }

  /** The key `TemplateKeyForPartial` starts from: the lower-cased path
      without ".ptpl". */
  function PartialStem(path: string): string
  {
    TrimSuffix(ToLower(path), PartialExt)
  }

  lemma PartialStemIsLowerCasedStem(path: string)
    requires Ext(path) == PartialExt
    ensures PartialStem(path) == ToLower(path[..|path| - |PartialExt|])
  {
    assert ToLower(PartialExt) == PartialExt;
    ToLowerTrimSuffix(path, PartialExt);
  }

  /** The root key a partial template belongs to: "" unless the extension is
      exactly ".ptpl"; otherwise the longest dot-prefix of the partial's stem
      that is a root key, or "" when there is none. */
  function PartialKey(templateKeys: seq<string>, path: string): (key: string)
    ensures key != "" ==> key in templateKeys
  {
    if Ext(path) != PartialExt then "" else PeelKey(templateKeys, PartialStem(path))
  }

  /** A partial belongs to the root whose key is the longest dot-prefix of
      its lower-cased stem; a path without the ".ptpl" extension belongs to
      no root. */
  lemma PartialKeyIsLongestRootPrefix(templateKeys: seq<string>, path: string)
    ensures Ext(path) != PartialExt ==> PartialKey(templateKeys, path) == ""
    ensures PartialKey(templateKeys, path) != "" ==>
      IsDotPrefix(PartialKey(templateKeys, path), PartialStem(path))
    ensures Ext(path) == PartialExt ==>
      forall q :: IsDotPrefix(q, PartialStem(path)) && |PartialKey(templateKeys, path)| < |q| ==>
        q !in templateKeys
  {
    if Ext(path) == PartialExt {
      PeelKeyIsLongestDotPrefix(templateKeys, PartialStem(path));
    }
  }

  /** `contains`: linear search. */
  method Contains(s: seq<string>, e: string) returns (found: bool)
    ensures found <==> e in s
  {
    var i := 0;
    while i < |s|
      invariant 0 <= i <= |s|
      invariant e !in s[..i]
    {
      if s[i] == e {
        return true;
      }
      assert s[..i + 1] == s[..i] + [s[i]];
      i := i + 1;
    }
    assert s[..i] == s;
    return false;
  }

  /** `TemplateKeyForPartial`, with its loop. */
  method TemplateKeyForPartial(templateKeys: seq<string>, path: string) returns (key: string)
    ensures key == PartialKey(templateKeys, path)
  {
    if Ext(path) != PartialExt {
      return "";
    }
    key := TrimSuffix(ToLower(path), PartialExt);
    var found := Contains(templateKeys, key);
    while !found
      invariant found == (key in templateKeys)
      invariant PeelKey(templateKeys, key) == PartialKey(templateKeys, path)
      decreases |key|
    {
      var ext := Ext(key);
      if ext == "" {
        return "";
      }
      key := TrimSuffix(key, ext);
      found := Contains(templateKeys, key);
    }
  }

  /** `removeOsDir`: drops `osName` from the end of the directory part of
      `path` (a plain suffix trim of the directory text) and re-joins it with
      the file name, which is kept. */
  function RemoveOsDir(path: string, osName: string): string
  {
    var (dir, file) := Split(path);
    Join(TrimSuffix(TrimSuffix(dir, "/"), osName), file)
  }

  /** Removing the OS directory keeps the file name. */
  lemma RemoveOsDirKeepsFileName(path: string, osName: string)
    ensures Split(RemoveOsDir(path, osName)).1 == Split(path).1
  {
    var (dir, file) := Split(path);
    SplitParts(path);
    SplitOfJoin(TrimSuffix(TrimSuffix(dir, "/"), osName), file);
  }

  lemma SplitOfJoin(d: string, f: string)
    requires '/' !in f
    ensures Split(Join(d, f)).1 == f
  {
    if d == [] {
      LastSlashIsLast(f);
      assert LastSlash(f) == -1;
    } else if d[|d| - 1] == '/' {
      LastSlashOfAppend(d, f);
    } else {
      assert d + "/" + f == (d + "/") + f;
      LastSlashOfAppend(d + "/", f);
    }
  }

  /** An OS-named directory segment is removed and the file name kept. */
  lemma RemoveOsDirDropsOsSegment(base: string, osName: string, file: string)
    requires '/' !in file
    ensures RemoveOsDir(base + "/" + osName + "/" + file, osName) == base + "/" + file
  {
    var dir := base + "/" + osName + "/";
    assert base + "/" + osName + "/" + file == dir + file;
    LastSlashOfAppend(dir, file);
    assert Split(dir + file) == (dir, file);
    assert TrimSuffix(dir, "/") == base + "/" + osName;
    assert TrimSuffix(base + "/" + osName, osName) == base + "/";
  }

  /** A path whose directory does not end with the OS name is unchanged. */
  lemma RemoveOsDirKeepsSharedPath(dir: string, osName: string, file: string)
    requires '/' !in file
    requires dir != [] && dir[|dir| - 1] != '/'
    requires !HasSuffix(dir, osName)
    ensures RemoveOsDir(dir + "/" + file, osName) == dir + "/" + file
  {
    var d := dir + "/";
    var p := d + file;
    LastSlashOfAppend(d, file);
    assert p[..|d|] == d && p[|d|..] == file;
    assert Split(p) == (d, file);
    assert d[..|dir|] == dir;
    assert TrimSuffix(d, "/") == dir;
    assert TrimSuffix(dir, osName) == dir;
    assert Join(dir, file) == p;
  }

  /** The nested map `ListTemplates` returns: root key -> (path without the
      OS directory -> raw path). */
  type Grouping = map<string, map<string, string>>

  /** The `rootTemplateKeys` slice after the first `n` turns of the first
      loop: the keys of the first `n` roots, in listing order. */
  function RootKeys(roots: seq<string>, n: nat): seq<string>
    requires n <= |roots|
  {
    if n == 0 then [] else RootKeys(roots, n - 1) + [TemplateKey(roots[n - 1])]
  }

  /** The map after the first `n` turns of the first loop: each root starts
      a fresh inner map holding only itself, so a later root with the same
      key replaces an earlier one's group. */
  function GroupRoots(roots: seq<string>, n: nat): Grouping
    requires n <= |roots|
  {
    if n == 0 then map[]
    else
      var e := roots[n - 1];
      GroupRoots(roots, n - 1)[TemplateKey(e) := map[e := e]]
  }

  /** The groups opened by the first `n` roots are keyed by exactly their
      root keys. */
  lemma {:induction false} GroupRootsKeys(roots: seq<string>, n: nat)
    requires n <= |roots|
    ensures forall k :: k in GroupRoots(roots, n) <==> k in RootKeys(roots, n)
  {
    if n > 0 {
      GroupRootsKeys(roots, n - 1);
    }
  }

  /** One turn of the second loop: the partial `e` is stored under its root
      key and its OS-less path, unless it is an orphan or a stored entry is
      at least as long. */
  function AddPartial(g: Grouping, keys: seq<string>, osName: string, e: string): (r: Grouping)
    requires forall k :: k in keys ==> k in g
    ensures forall k :: k in g ==> k in r
  {
    var pathWithoutOS := RemoveOsDir(e, osName);
    var key := PartialKey(keys, pathWithoutOS);
    if key == "" then g
    else if pathWithoutOS in g[key] then
      if |e| > |g[key][pathWithoutOS]| then g[key := g[key][pathWithoutOS := e]] else g
    else g[key := g[key][pathWithoutOS := e]]
  }

  /** The map after the first `n` turns of the second loop, from `g`. */
  function AddPartials(g: Grouping, keys: seq<string>, osName: string, es: seq<string>, n: nat): (r: Grouping)
    requires forall k :: k in keys ==> k in g
    requires n <= |es|
    ensures forall k :: k in g ==> k in r
  {
    if n == 0 then g
    else AddPartial(AddPartials(g, keys, osName, es, n - 1), keys, osName, es[n - 1])
  }

  lemma AddPartialsStep(g: Grouping, keys: seq<string>, osName: string, es: seq<string>, n: nat)
    requires forall k :: k in keys ==> k in g
    requires n < |es|
    ensures AddPartials(g, keys, osName, es, n + 1) ==
            AddPartial(AddPartials(g, keys, osName, es, n), keys, osName, es[n])
  {
  }

  /** What `ListTemplates` computes. */
  function Grouped(roots: seq<string>, partials: seq<string>, osName: string): Grouping
  {
    GroupRootsKeys(roots, |roots|);
    AddPartials(GroupRoots(roots, |roots|), RootKeys(roots, |roots|), osName, partials, |partials|)
  }

  /** The first loop of `ListTemplates`: every root template opens its own
      group, keyed by `TemplateKey`, holding only itself. */
  method FindRootTemplates(roots: seq<string>)
    returns (rootTemplateKeys: seq<string>, templates: Grouping)
    ensures rootTemplateKeys == RootKeys(roots, |roots|)
    ensures templates == GroupRoots(roots, |roots|)
  {
    templates := map[];
    rootTemplateKeys := [];
    hide TemplateKey;
    var i := 0;
    while i < |roots|
      invariant 0 <= i <= |roots|
      invariant rootTemplateKeys == RootKeys(roots, i)
      invariant templates == GroupRoots(roots, i)
    {
      var e := roots[i];
      var key := TemplateKey(e);
      assert RootKeys(roots, i + 1) == rootTemplateKeys + [key];
      assert GroupRoots(roots, i + 1) == templates[key := map[e := e]];
      rootTemplateKeys := rootTemplateKeys + [key];
      templates := templates[key := map[e := e]];
      i := i + 1;
    }
  }

  /** One turn of the second loop of `ListTemplates`: the partial `e` joins
      the group of its root key under its OS-less path, replacing a shorter
      raw path stored there. */
  method AttachPartial(templates: Grouping, rootTemplateKeys: seq<string>, osName: string, e: string)
    returns (updated: Grouping)
    requires forall k :: k in rootTemplateKeys ==> k in templates
    ensures updated == AddPartial(templates, rootTemplateKeys, osName, e)
  {
    updated := templates;
    var pathWithoutOS := RemoveOsDir(e, osName);
    var key := TemplateKeyForPartial(rootTemplateKeys, pathWithoutOS);
    if key == "" {
      return;
    }
    // The longer raw path wins the slot: an OS-specific file has the OS directory in it.
    var group := updated[key];
    if pathWithoutOS in group {
      var existingEntry := group[pathWithoutOS];
      if |e| > |existingEntry| {
        updated := updated[key := group[pathWithoutOS := e]];
      }
    } else {
      updated := updated[key := group[pathWithoutOS := e]];
    }
  }

  /** The second loop of `ListTemplates`: every partial template joins the
      group of its root key under its OS-less path, the longer raw path
      winning when two partials share that path. */
  method AttachPartials(g0: Grouping, rootTemplateKeys: seq<string>, partials: seq<string>, osName: string)
    returns (templates: Grouping)
    requires forall k :: k in rootTemplateKeys ==> k in g0
    ensures templates == AddPartials(g0, rootTemplateKeys, osName, partials, |partials|)
  {
    templates := g0;
    var j := 0;
    while j < |partials|
      invariant 0 <= j <= |partials|
      invariant forall k :: k in rootTemplateKeys ==> k in templates
      invariant templates == AddPartials(g0, rootTemplateKeys, osName, partials, j)
    {
      AddPartialsStep(g0, rootTemplateKeys, osName, partials, j);
      templates := AttachPartial(templates, rootTemplateKeys, osName, partials[j]);
      j := j + 1;
    }
  }

  /** `ListTemplates`, with the root and partial listings as inputs. */
  method ListTemplates(roots: seq<string>, partials: seq<string>, osName: string)
    returns (templates: Grouping)
    ensures templates == Grouped(roots, partials, osName)
  {
    // First loop: one group per root key.
    var rootTemplateKeys;
    rootTemplateKeys, templates := FindRootTemplates(roots);
    GroupRootsKeys(roots, |roots|);
    // Second loop: file each partial into its root's group.
    templates := AttachPartials(templates, rootTemplateKeys, partials, osName);
  }
}
