/** All root templates of a base directory, as tpl/templates.go collects
    them.  The directory walk is an input: the entries it visits, in walk
    order, each with whether it is a directory. */
module TplTemplates {
  import opened Common
  import opened FilePath
  import opened TplTemplate
  import opened TplRootTemplate

  /** One entry a `filepath.Walk` visits. */
  datatype WalkEntry = WalkEntry(path: string, isDir: bool)

  /** The filter of `listRootTemplates`: files (not directories) whose
      extension is exactly ".tpl". */
  predicate IsRootTemplateFile(e: WalkEntry)
  {
    !e.isDir && Ext(e.path) == ".tpl"
  }

  /** The paths the walk callback has appended after the first `n`
      entries. */
  function RootTemplatePaths(walk: seq<WalkEntry>, n: nat): seq<string>
    requires n <= |walk|
  {
    if n == 0 then []
    else RootTemplatePaths(walk, n - 1) + (if IsRootTemplateFile(walk[n - 1]) then [walk[n - 1].path] else [])
  }

  /** `listRootTemplates`: the walk, appending each root template file. */
  method ListRootTemplates(walk: seq<WalkEntry>) returns (rootTemplates: seq<string>)
    ensures rootTemplates == RootTemplatePaths(walk, |walk|)
  {
    rootTemplates := [];
    for i := 0 to |walk|
      invariant rootTemplates == RootTemplatePaths(walk, i)
    {
      if walk[i].isDir || Ext(walk[i].path) != ".tpl" {
        continue;
      }
      rootTemplates := rootTemplates + [walk[i].path];
    }
  }

  /** The listing holds exactly the paths of the walk's ".tpl" files. */
  lemma {:induction false} RootTemplatePathsFiltered(walk: seq<WalkEntry>, n: nat)
    requires n <= |walk|
    ensures forall p :: p in RootTemplatePaths(walk, n) <==>
      exists i :: 0 <= i < n && walk[i].path == p && IsRootTemplateFile(walk[i])
    decreases n
  {
    if n > 0 {
      RootTemplatePathsFiltered(walk, n - 1);
    }
  }

  /** Every listed path has the ".tpl" extension. */
  lemma RootTemplatePathsAreTpl(walk: seq<WalkEntry>, p: string)
    requires p in RootTemplatePaths(walk, |walk|)
    ensures Ext(p) == ".tpl"
  {
    RootTemplatePathsFiltered(walk, |walk|);
  }

  /** `Templates`: the base directory and its root templates. */
  class Templates {
    var baseDir: string
    var all: seq<RootTemplate>

    /** `New`: one root template per listed entry, in listing order, each
        with that path and no partials. */
    constructor (baseDir: string, entries: seq<string>)
      ensures this.baseDir == baseDir
      ensures |all| == |entries|
      ensures forall i :: 0 <= i < |entries| ==> all[i] == RootTemplate(Template(entries[i]), [])
    {
      this.baseDir := baseDir;
      all := [];
      new;
      for i := 0 to |entries|
        invariant this.baseDir == baseDir
        invariant |all| == i
        invariant forall j :: 0 <= j < i ==> all[j] == RootTemplate(Template(entries[j]), [])
      {
        var rootTemplate := RootTemplate(Template(entries[i]), []);
        all := all + [rootTemplate];
      }
    }

    /** `FindTemplate`: the first root template with exactly this path, if
        any. */
    method FindTemplate(path: string) returns (rt: Option<RootTemplate>)
      ensures rt.Some? <==> exists i :: 0 <= i < |all| && all[i].template.path == path
      ensures rt.Some? ==> rt.value.template.path == path
      ensures rt.Some? ==> exists i :: 0 <= i < |all| && all[i] == rt.value &&
                                       forall j :: 0 <= j < i ==> all[j].template.path != path
    {
      for i := 0 to |all|
        invariant forall j :: 0 <= j < i ==> all[j].template.path != path
      {
        if all[i].template.path == path {
          return Some(all[i]);
        }
      }
      return None;
    }
  }
}
