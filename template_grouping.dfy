/** What the grouping `ListTemplates` returns looks like: which groups
    exist, which root template each group keeps, and which partial template
    wins each slot of a group. */
module TemplateGrouping {
  import opened Common
  import opened Text
  import opened FilePath
  import opened Filesys

  /** The value stored for path `p` in the group `k`, if any. */
  function Entry(g: Grouping, k: string, p: string): Option<string>
  {
    if k in g && p in g[k] then Some(g[k][p]) else None
  }

  /** The partial `e` is filed under root key `k` and OS-less path `p`. */
  predicate InSlot(keys: seq<string>, osName: string, e: string, k: string, p: string)
  {
    k != "" && RemoveOsDir(e, osName) == p && PartialKey(keys, p) == k
  }

  /** `es[w]` is the partial that ends up in slot (`k`, `p`) after the first
      `n` partials: the longest of those filed there, and the first of them
      when several are equally long. */
  predicate Best(keys: seq<string>, osName: string, es: seq<string>, n: nat, k: string, p: string, w: int)
    requires n <= |es|
  {
    0 <= w < n && InSlot(keys, osName, es[w], k, p) && Dominates(keys, osName, es, n, k, p, w)
  }

  /** No partial among the first `n` filed under (`k`, `p`) is longer than
      `es[w]`, and none before it is as long. */
  predicate Dominates(keys: seq<string>, osName: string, es: seq<string>, n: nat, k: string, p: string, w: int)
    requires 0 <= w < n <= |es|
  {
    (forall j :: 0 <= j < n && InSlot(keys, osName, es[j], k, p) ==> |es[j]| <= |es[w]|) &&
    (forall j :: 0 <= j < w && InSlot(keys, osName, es[j], k, p) ==> |es[j]| < |es[w]|)
  }

  /** At most one partial is the best of a slot. */
  lemma BestUnique(keys: seq<string>, osName: string, es: seq<string>, n: nat, k: string, p: string, w1: int, w2: int)
    requires n <= |es|
    requires Best(keys, osName, es, n, k, p, w1) && Best(keys, osName, es, n, k, p, w2)
    ensures w1 == w2
  {
    hide InSlot;
    assert |es[w1]| == |es[w2]|;
  }

  /** A slot some partial is filed under has a best partial. */
  lemma {:induction false} BestExists(keys: seq<string>, osName: string, es: seq<string>, n: nat, k: string, p: string, j: nat)
    requires n <= |es|
    requires j < n && InSlot(keys, osName, es[j], k, p)
    ensures exists w :: Best(keys, osName, es, n, k, p, w)
    decreases n
  {
    hide InSlot;
    if j == n - 1 && forall i :: 0 <= i < n - 1 ==> !InSlot(keys, osName, es[i], k, p) {
      assert Best(keys, osName, es, n, k, p, n - 1);
    } else {
      var j' :| 0 <= j' < n - 1 && InSlot(keys, osName, es[j'], k, p);
      BestExists(keys, osName, es, n - 1, k, p, j');
      var w :| Best(keys, osName, es, n - 1, k, p, w);
      BestStep(keys, osName, es, n, k, p, w);
    }
  }

  /** How the best partial of a slot changes when the `n`-th partial is
      considered: it takes over only when it is filed there and strictly
      longer. */
  lemma BestStep(keys: seq<string>, osName: string, es: seq<string>, n: nat, k: string, p: string, w: int)
    requires 0 < n <= |es|
    requires Best(keys, osName, es, n - 1, k, p, w)
    ensures var e := es[n - 1];
      if InSlot(keys, osName, e, k, p) && |e| > |es[w]| then Best(keys, osName, es, n, k, p, n - 1)
      else Best(keys, osName, es, n, k, p, w)
  {
    hide InSlot;
  }

  /** One turn of the second loop, seen from one slot: the slot the partial
      is filed under takes it unless it already holds a value at least as
      long; every other slot is untouched. */
  lemma AddPartialAt(g: Grouping, keys: seq<string>, osName: string, e: string, k: string, p: string)
    requires forall k :: k in keys ==> k in g
    ensures Entry(AddPartial(g, keys, osName, e), k, p) ==
      if InSlot(keys, osName, e, k, p) && !(Entry(g, k, p).Some? && |e| <= |Entry(g, k, p).value|)
      then Some(e)
      else Entry(g, k, p)
  {
  }

  /** The second loop, seen from one slot: an untouched slot keeps what the
      first loop put there, and a slot with partials ends up holding the best
      of them unless its earlier value is at least as long. */
  lemma {:induction false} AddPartialsAt(g: Grouping, keys: seq<string>, osName: string, es: seq<string>, n: nat, k: string, p: string)
    requires forall k :: k in keys ==> k in g
    requires n <= |es|
    ensures (forall j :: 0 <= j < n ==> !InSlot(keys, osName, es[j], k, p)) ==>
      Entry(AddPartials(g, keys, osName, es, n), k, p) == Entry(g, k, p)
    ensures forall w :: Best(keys, osName, es, n, k, p, w) ==>
      Entry(AddPartials(g, keys, osName, es, n), k, p) ==
        if Entry(g, k, p).Some? && |es[w]| <= |Entry(g, k, p).value| then Entry(g, k, p) else Some(es[w])
    decreases n
  {
    hide InSlot, AddPartial, Dominates;
    if n > 0 {
      var r := AddPartials(g, keys, osName, es, n - 1);
      AddPartialsAt(g, keys, osName, es, n - 1, k, p);
      AddPartialAt(r, keys, osName, es[n - 1], k, p);
      assert AddPartials(g, keys, osName, es, n) == AddPartial(r, keys, osName, es[n - 1]);
      forall w | Best(keys, osName, es, n, k, p, w)
        ensures Entry(AddPartials(g, keys, osName, es, n), k, p) ==
          if Entry(g, k, p).Some? && |es[w]| <= |Entry(g, k, p).value| then Entry(g, k, p) else Some(es[w])
      {
        if exists j :: 0 <= j < n - 1 && InSlot(keys, osName, es[j], k, p) {
          var j :| 0 <= j < n - 1 && InSlot(keys, osName, es[j], k, p);
          BestExists(keys, osName, es, n - 1, k, p, j);
          var w' :| Best(keys, osName, es, n - 1, k, p, w');
          BestStep(keys, osName, es, n, k, p, w');
          var e := es[n - 1];
          if InSlot(keys, osName, e, k, p) && |e| > |es[w']| {
            BestUnique(keys, osName, es, n, k, p, w, n - 1);
          } else {
            BestUnique(keys, osName, es, n, k, p, w, w');
          }
        } else {
          assert w == n - 1;
        }
      }
    }
  }

  lemma AddPartialKeys(g: Grouping, keys: seq<string>, osName: string, e: string)
    requires forall k :: k in keys ==> k in g
    ensures forall k :: k in AddPartial(g, keys, osName, e) <==> k in g
  {
  }

  /** The second loop opens no group and closes none. */
  lemma {:induction false} AddPartialsKeys(g: Grouping, keys: seq<string>, osName: string, es: seq<string>, n: nat)
    requires forall k :: k in keys ==> k in g
    requires n <= |es|
    ensures forall k :: k in AddPartials(g, keys, osName, es, n) <==> k in g
    decreases n
  {
    hide AddPartial;
    if n > 0 {
      AddPartialsKeys(g, keys, osName, es, n - 1);
      AddPartialKeys(AddPartials(g, keys, osName, es, n - 1), keys, osName, es[n - 1]);
    }
  }

  lemma {:induction false} RootKeysMembers(roots: seq<string>, n: nat)
    requires n <= |roots|
    ensures forall k :: k in RootKeys(roots, n) <==> exists i :: 0 <= i < n && TemplateKey(roots[i]) == k
    decreases n
  {
    hide TemplateKey;
    if n > 0 {
      RootKeysMembers(roots, n - 1);
      assert RootKeys(roots, n) == RootKeys(roots, n - 1) + [TemplateKey(roots[n - 1])];
    }
  }

  /** Every entry the first loop makes is a root template stored under its
      own path and its own key. */
  lemma {:induction false} GroupRootsEntry(roots: seq<string>, n: nat, k: string, p: string)
    requires n <= |roots|
    requires Entry(GroupRoots(roots, n), k, p).Some?
    ensures Entry(GroupRoots(roots, n), k, p).value == p
    ensures TemplateKey(p) == k
    ensures exists i :: 0 <= i < n && roots[i] == p
    decreases n
  {
    var e := roots[n - 1];
    if !(TemplateKey(e) == k && p == e) {
      GroupRootsEntry(roots, n - 1, k, p);
      var i :| 0 <= i < n - 1 && roots[i] == p;
      assert roots[i] == p;
    }
  }

  /** A root template stays in its group unless a later root has the same
      key. */
  lemma {:induction false} GroupRootsKeepsLast(roots: seq<string>, n: nat, i: nat)
    requires i < n <= |roots|
    requires forall j :: i < j < n ==> TemplateKey(roots[j]) != TemplateKey(roots[i])
    ensures Entry(GroupRoots(roots, n), TemplateKey(roots[i]), roots[i]) == Some(roots[i])
    decreases n
  {
    hide TemplateKey;
    if i < n - 1 {
      GroupRootsKeepsLast(roots, n - 1, i);
    }
  }

  /** A partial is only ever filed under a ".ptpl" path and a non-empty
      root key only ever names a ".tpl" root, so a root template's own path
      is never a partial's slot. */
  lemma SlotNotRootPath(keys: seq<string>, osName: string, e: string, k: string, p: string)
    requires TemplateKey(p) == k
    ensures !InSlot(keys, osName, e, k, p)
  {
  }

  /** Hence the first loop puts nothing in a partial's slot. */
  lemma GroupRootsMissSlot(roots: seq<string>, n: nat, keys: seq<string>, osName: string, e: string, k: string, p: string)
    requires n <= |roots|
    requires InSlot(keys, osName, e, k, p)
    ensures Entry(GroupRoots(roots, n), k, p) == None
  {
    if Entry(GroupRoots(roots, n), k, p).Some? {
      GroupRootsEntry(roots, n, k, p);
      SlotNotRootPath(keys, osName, e, k, p);
      assert false;
    }
  }

  /** `ListTemplates` has one group per distinct root key. */
  lemma GroupedKeys(roots: seq<string>, partials: seq<string>, osName: string)
    ensures forall k :: k in Grouped(roots, partials, osName) <==>
      exists i :: 0 <= i < |roots| && TemplateKey(roots[i]) == k
  {
    GroupRootsKeys(roots, |roots|);
    RootKeysMembers(roots, |roots|);
    AddPartialsKeys(GroupRoots(roots, |roots|), RootKeys(roots, |roots|), osName, partials, |partials|);
  }

  /** Each root template whose key no later root shares is in its group,
      stored under its own path. */
  lemma GroupedKeepsRoot(roots: seq<string>, partials: seq<string>, osName: string, i: nat)
    requires i < |roots|
    requires forall j :: i < j < |roots| ==> TemplateKey(roots[j]) != TemplateKey(roots[i])
    ensures Entry(Grouped(roots, partials, osName), TemplateKey(roots[i]), roots[i]) == Some(roots[i])
  {
    var keys := RootKeys(roots, |roots|);
    var k := TemplateKey(roots[i]);
    GroupRootsKeys(roots, |roots|);
    GroupRootsKeepsLast(roots, |roots|, i);
    forall j | 0 <= j < |partials|
      ensures !InSlot(keys, osName, partials[j], k, roots[i])
    {
      SlotNotRootPath(keys, osName, partials[j], k, roots[i]);
    }
    AddPartialsAt(GroupRoots(roots, |roots|), keys, osName, partials, |partials|, k, roots[i]);
  }

  /** Each slot that partials are filed under holds the longest of them,
      the first one listed among equally long ones. */
  lemma GroupedPartial(roots: seq<string>, partials: seq<string>, osName: string, k: string, p: string, w: int)
    requires Best(RootKeys(roots, |roots|), osName, partials, |partials|, k, p, w)
    ensures Entry(Grouped(roots, partials, osName), k, p) == Some(partials[w])
  {
    var keys := RootKeys(roots, |roots|);
    var g := GroupRoots(roots, |roots|);
    GroupRootsKeys(roots, |roots|);
    GroupRootsMissSlot(roots, |roots|, keys, osName, partials[w], k, p);
    AddPartialsAt(g, keys, osName, partials, |partials|, k, p);
  }

  /** A slot no partial is filed under keeps what the first loop put there. */
  lemma GroupedUntouched(roots: seq<string>, partials: seq<string>, osName: string, k: string, p: string)
    requires forall j :: 0 <= j < |partials| ==> !InSlot(RootKeys(roots, |roots|), osName, partials[j], k, p)
    ensures Entry(Grouped(roots, partials, osName), k, p) == Entry(GroupRoots(roots, |roots|), k, p)
  {
    hide GroupRoots, RootKeys;
    GroupRootsKeys(roots, |roots|);
    AddPartialsAt(GroupRoots(roots, |roots|), RootKeys(roots, |roots|), osName, partials, |partials|, k, p);
  }

  /** Nothing else is in the result: every entry is a root template under
      its own path or the best partial of its slot. */
  lemma GroupedEntry(roots: seq<string>, partials: seq<string>, osName: string, k: string, p: string)
    requires Entry(Grouped(roots, partials, osName), k, p).Some?
    ensures var v := Entry(Grouped(roots, partials, osName), k, p).value;
      (v == p && TemplateKey(p) == k && exists i :: 0 <= i < |roots| && roots[i] == p) ||
      (exists w :: Best(RootKeys(roots, |roots|), osName, partials, |partials|, k, p, w) && v == partials[w])
  {
    hide Grouped, GroupRoots, RootKeys, InSlot, Dominates;
    var keys := RootKeys(roots, |roots|);
    if j :| 0 <= j < |partials| && InSlot(keys, osName, partials[j], k, p) {
      BestExists(keys, osName, partials, |partials|, k, p, j);
      var w :| Best(keys, osName, partials, |partials|, k, p, w);
      GroupedPartial(roots, partials, osName, k, p, w);
    } else {
      GroupedUntouched(roots, partials, osName, k, p);
      GroupRootsEntry(roots, |roots|, k, p);
    }
  }

  /** The group the first loop leaves for a key is the one the last root
      with that key opened, and it holds only that root. */
  lemma {:induction false} GroupRootsLast(roots: seq<string>, n: nat, m: nat)
    requires m < n <= |roots|
    requires forall l :: m < l < n ==> TemplateKey(roots[l]) != TemplateKey(roots[m])
    ensures TemplateKey(roots[m]) in GroupRoots(roots, n)
    ensures GroupRoots(roots, n)[TemplateKey(roots[m])] == map[roots[m] := roots[m]]
    decreases n
  {
    hide TemplateKey;
    if m < n - 1 {
      GroupRootsLast(roots, n - 1, m);
    }
  }

  /** As written, a root template is lost when a later root has the same
      key and another path: keys are lower-cased, so "t/A.tpl" listed
      before "t/a.tpl" disappears from the result. */
  lemma GroupedDropsShadowedRoot(roots: seq<string>, partials: seq<string>, osName: string, i: nat, j: nat)
    requires i < j < |roots|
    requires TemplateKey(roots[j]) == TemplateKey(roots[i]) && roots[j] != roots[i]
    requires forall l :: j < l < |roots| ==> TemplateKey(roots[l]) != TemplateKey(roots[i])
    ensures Entry(Grouped(roots, partials, osName), TemplateKey(roots[i]), roots[i]) == None
  {
    var keys := RootKeys(roots, |roots|);
    var k := TemplateKey(roots[i]);
    GroupRootsLast(roots, |roots|, j);
    forall l | 0 <= l < |partials|
      ensures !InSlot(keys, osName, partials[l], k, roots[i])
    {
      SlotNotRootPath(keys, osName, partials[l], k, roots[i]);
    }
    GroupedUntouched(roots, partials, osName, k, roots[i]);
  }

  /** The first loop as evidently intended: a root joins the group of its
      key instead of replacing it. */
  function GroupRootsCorrected(roots: seq<string>, n: nat): Grouping
    requires n <= |roots|
  {
    if n == 0 then map[]
    else
      var g := GroupRootsCorrected(roots, n - 1);
      var e := roots[n - 1];
      var k := TemplateKey(e);
      g[k := (if k in g then g[k] else map[])[e := e]]
  }

  /** The corrected first loop opens the same groups as the original. */
  lemma {:induction false} GroupRootsCorrectedKeys(roots: seq<string>, n: nat)
    requires n <= |roots|
    ensures forall k :: k in GroupRootsCorrected(roots, n) <==> k in RootKeys(roots, n)
    decreases n
  {
    hide TemplateKey;
    if n > 0 {
      GroupRootsCorrectedKeys(roots, n - 1);
    }
  }

  /** The corrected first loop keeps every root under its own path. */
  lemma {:induction false} GroupRootsCorrectedKeepsAll(roots: seq<string>, n: nat, i: nat)
    requires i < n <= |roots|
    ensures Entry(GroupRootsCorrected(roots, n), TemplateKey(roots[i]), roots[i]) == Some(roots[i])
    decreases n
  {
    hide TemplateKey;
    if i < n - 1 {
      GroupRootsCorrectedKeepsAll(roots, n - 1, i);
    }
  }

  /** `ListTemplates` with the corrected first loop. */
  function GroupedCorrected(roots: seq<string>, partials: seq<string>, osName: string): Grouping
  {
    GroupRootsCorrectedKeys(roots, |roots|);
    AddPartials(GroupRootsCorrected(roots, |roots|), RootKeys(roots, |roots|), osName, partials, |partials|)
  }

  /** With the correction, every listed root template is in the result,
      stored as `templates[TemplateKey(e)][e] == e`, whatever other roots
      share its key. */
  lemma GroupedCorrectedKeepsEveryRoot(roots: seq<string>, partials: seq<string>, osName: string, i: nat)
    requires i < |roots|
    ensures Entry(GroupedCorrected(roots, partials, osName), TemplateKey(roots[i]), roots[i]) == Some(roots[i])
  {
    var keys := RootKeys(roots, |roots|);
    var k := TemplateKey(roots[i]);
    GroupRootsCorrectedKeys(roots, |roots|);
    GroupRootsCorrectedKeepsAll(roots, |roots|, i);
    forall l | 0 <= l < |partials|
      ensures !InSlot(keys, osName, partials[l], k, roots[i])
    {
      SlotNotRootPath(keys, osName, partials[l], k, roots[i]);
    }
    AddPartialsAt(GroupRootsCorrected(roots, |roots|), keys, osName, partials, |partials|, k, roots[i]);
  }
}
