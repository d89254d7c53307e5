/**
 * The reverse-edge map `cell_dependencies`: for each cell, the list of
 * formula cells that read it, one entry per reference.  This module holds
 * the graph notions the dependency engine is specified with: walks and
 * reachability, the tree shape the circularity check accepts, ranks that
 * certify the absence of cycles, and the edits `_update_dependencies`
 * makes to the lists.
 */
module DependencyGraph {
  import opened Coordinates

  type Graph = map<Coord, seq<Coord>>

  /** `cell_dependencies.get(u, [])`: the cells that read `u`. */
  function Succ(g: Graph, u: Coord): seq<Coord>
  {
    if u in g then g[u] else []
  }

  // ---------------------------------------------------------------------
  // Walks and reachability
  // ---------------------------------------------------------------------

  /** `p` is a walk from `s` to `v` along the edges of `g`. */
  ghost predicate Walk(g: Graph, p: seq<Coord>, s: Coord, v: Coord)
  {
    && |p| >= 1 && p[0] == s && p[|p| - 1] == v
    && forall k :: 0 <= k < |p| - 1 ==> p[k + 1] in Succ(g, p[k])
  }

  ghost predicate Reaches(g: Graph, s: Coord, v: Coord)
  {
    exists p :: Walk(g, p, s, v)
  }

  /** The cells that must be recomputed when `c` changes: those reachable through at least one edge. */
  ghost predicate Dependent(g: Graph, c: Coord, v: Coord)
  {
    exists i :: 0 <= i < |Succ(g, c)| && Reaches(g, Succ(g, c)[i], v)
  }

  lemma ReachesRefl(g: Graph, s: Coord)
    ensures Reaches(g, s, s)
  {
    assert Walk(g, [s], s, s);
  }

  lemma ReachesStep(g: Graph, s: Coord, u: Coord, v: Coord)
    requires Reaches(g, s, u) && v in Succ(g, u)
    ensures Reaches(g, s, v)
  {
    var p :| Walk(g, p, s, u);
    var q := p + [v];
    forall k | 0 <= k < |q| - 1
      ensures q[k + 1] in Succ(g, q[k])
    {
      if k < |p| - 1 {
        assert q[k] == p[k] && q[k + 1] == p[k + 1];
      }
    }
    assert Walk(g, q, s, v);
  }

  /** A walk of more than one cell leaves through one of the first cell's edges. */
  lemma ReachesFirst(g: Graph, u: Coord, v: Coord)
    requires Reaches(g, u, v)
    ensures v == u || Dependent(g, u, v)
  {
    var p :| Walk(g, p, u, v);
    if |p| > 1 {
      var w := p[1];
      assert Walk(g, p[1..], w, v) by {
        forall k | 0 <= k < |p[1..]| - 1
          ensures p[1..][k + 1] in Succ(g, p[1..][k])
        {
          assert p[1..][k] == p[k + 1] && p[1..][k + 1] == p[k + 2];
        }
      }
      var i :| 0 <= i < |Succ(g, u)| && Succ(g, u)[i] == w;
    }
  }

  /** A cell one edge past a dependent is a dependent. */
  lemma DependentStep(g: Graph, c: Coord, u: Coord, v: Coord)
    requires Dependent(g, c, u) && v in Succ(g, u)
    ensures Dependent(g, c, v)
  {
    var i :| 0 <= i < |Succ(g, c)| && Reaches(g, Succ(g, c)[i], u);
    ReachesStep(g, Succ(g, c)[i], u, v);
  }

  /** A dependent is the target of some edge. */
  lemma DependentIsTarget(g: Graph, c: Coord, v: Coord)
    requires Dependent(g, c, v)
    ensures exists u :: v in Succ(g, u)
  {
    var i :| 0 <= i < |Succ(g, c)| && Reaches(g, Succ(g, c)[i], v);
    var p :| Walk(g, p, Succ(g, c)[i], v);
    if |p| == 1 {
      assert v in Succ(g, c);
    } else {
      assert v in Succ(g, p[|p| - 2]);
    }
  }

  /** A set that contains `s` and is closed under the edges contains every cell `s` reaches. */
  ghost predicate Closed(g: Graph, cs: set<Coord>)
  {
    forall u, i :: u in cs && 0 <= i < |Succ(g, u)| ==> Succ(g, u)[i] in cs
  }

  lemma ClosedContainsReachable(g: Graph, s: Coord, cs: set<Coord>, v: Coord)
    requires s in cs && Closed(g, cs) && Reaches(g, s, v)
    ensures v in cs
  {
    var p :| Walk(g, p, s, v);
    var k := 0;
    while k < |p| - 1
      invariant 0 <= k < |p|
      invariant p[k] in cs
    {
      assert p[k + 1] in Succ(g, p[k]);
      var i :| 0 <= i < |Succ(g, p[k])| && Succ(g, p[k])[i] == p[k + 1];
      k := k + 1;
    }
  }

  // ---------------------------------------------------------------------
  // What the circularity check accepts
  // ---------------------------------------------------------------------

  /** No edge leaving a cell reachable from `s` leads back to `s`. */
  ghost predicate NoEdgeBack(g: Graph, s: Coord)
  {
    forall u, i :: Reaches(g, s, u) && 0 <= i < |Succ(g, u)| ==> Succ(g, u)[i] != s
  }

  /** No two edge entries leaving cells reachable from `s` share their target. */
  ghost predicate NoSharedTarget(g: Graph, s: Coord)
  {
    forall u1, i1, u2, i2 ::
      Reaches(g, s, u1) && Reaches(g, s, u2)
      && 0 <= i1 < |Succ(g, u1)| && 0 <= i2 < |Succ(g, u2)|
      && Succ(g, u1)[i1] == Succ(g, u2)[i2]
      ==> u1 == u2 && i1 == i2
  }

  /**
   * The part of the graph reachable from `s` is a tree rooted at `s`: every
   * reachable cell other than `s` is entered by exactly one edge entry, and
   * `s` by none.
   */
  ghost predicate TreeShaped(g: Graph, s: Coord)
  {
    NoEdgeBack(g, s) && NoSharedTarget(g, s)
  }

  /** A walk leaving `s` and returning to it is a cycle, and is reported. */
  lemma CycleThroughStartRejected(g: Graph, s: Coord)
    requires Dependent(g, s, s)
    ensures !TreeShaped(g, s)
  {
    var i :| 0 <= i < |Succ(g, s)| && Reaches(g, Succ(g, s)[i], s);
    var p :| Walk(g, p, Succ(g, s)[i], s);
    ReachesRefl(g, s);
    if |p| == 1 {
      assert Succ(g, s)[i] == s;
    } else {
      var u := p[|p| - 2];
      assert Walk(g, [s] + p[..|p| - 1], s, u) by {
        var q := [s] + p[..|p| - 1];
        forall k | 0 <= k < |q| - 1
          ensures q[k + 1] in Succ(g, q[k])
        {
          if k > 0 {
            assert q[k] == p[k - 1] && q[k + 1] == p[k];
          }
        }
      }
      var j :| 0 <= j < |Succ(g, u)| && Succ(g, u)[j] == s;
    }
  }

  /** A cycle: a closed walk of at least one edge. */
  ghost predicate Cycle(g: Graph, c: seq<Coord>)
  {
    |c| >= 2 && Walk(g, c, c[0], c[|c| - 1]) && c[0] == c[|c| - 1]
  }

  /**
   * Every cycle through a cell reachable from `s` is reported, not only the
   * cycles through `s`: in a tree every walk from the root that reaches a
   * cycle would have to enter it through a second edge.
   */
  lemma ReachableCycleRejected(g: Graph, s: Coord, c: seq<Coord>)
    requires Cycle(g, c) && Reaches(g, s, c[0])
    ensures !TreeShaped(g, s)
  {
    if NoSharedTarget(g, s) {
      forall t | 0 <= t < |c|
        ensures Reaches(g, s, c[t])
      {
        CycleMemberReachable(g, s, c, t);
      }
      var p :| Walk(g, p, s, c[0]);
      OnCycleBackwards(g, s, p, c[0], c, |p| - 1);
      var t :| 0 <= t < |c| && c[t] == p[0];
      var t' := if t == 0 then |c| - 1 else t;
      assert c[t'] in Succ(g, c[t' - 1]);
      var j :| 0 <= j < |Succ(g, c[t' - 1])| && Succ(g, c[t' - 1])[j] == c[t'];
      assert Reaches(g, s, c[t' - 1]) && Succ(g, c[t' - 1])[j] == s;
    }
  }

  lemma {:induction false} CycleMemberReachable(g: Graph, s: Coord, c: seq<Coord>, t: nat)
    requires Cycle(g, c) && Reaches(g, s, c[0]) && t < |c|
    ensures Reaches(g, s, c[t])
  {
    if t > 0 {
      CycleMemberReachable(g, s, c, t - 1);
      ReachesStep(g, s, c[t - 1], c[t]);
    }
  }

  /** Walking back along `p` from a cycle cell, a tree never leaves the cycle. */
  lemma {:induction false} OnCycleBackwards(g: Graph, s: Coord, p: seq<Coord>, v: Coord, c: seq<Coord>, k: nat)
    requires NoSharedTarget(g, s) && Cycle(g, c)
    requires forall t :: 0 <= t < |c| ==> Reaches(g, s, c[t])
    requires Walk(g, p, s, v) && k < |p| && p[k] in c
    ensures p[0] in c
  {
    if k > 0 {
      var t :| 0 <= t < |c| && c[t] == p[k];
      var t' := if t == 0 then |c| - 1 else t;
      assert c[t'] == p[k];
      var i2 :| 0 <= i2 < |Succ(g, c[t' - 1])| && Succ(g, c[t' - 1])[i2] == c[t'];
      var i1 :| 0 <= i1 < |Succ(g, p[k - 1])| && Succ(g, p[k - 1])[i1] == p[k];
      WalkPrefixReaches(g, p, s, v, k - 1);
      assert Reaches(g, s, c[t' - 1]) && Reaches(g, s, p[k - 1]);
      assert p[k - 1] == c[t' - 1];
      OnCycleBackwards(g, s, p, v, c, k - 1);
    }
  }

  /** Every cell on a walk from `s` is reachable from `s`. */
  lemma WalkPrefixReaches(g: Graph, p: seq<Coord>, s: Coord, v: Coord, k: nat)
    requires Walk(g, p, s, v) && k < |p|
    ensures Reaches(g, s, p[k])
  {
    var q := p[..k + 1];
    assert Walk(g, q, s, p[k]) by {
      forall m | 0 <= m < k
        ensures q[m + 1] in Succ(g, q[m])
      {
        assert q[m] == p[m] && q[m + 1] == p[m + 1];
      }
    }
  }

  /** A diamond (two cells reading one cell, both read by a fourth) is rejected although it has no cycle. */
  lemma DiamondRejected(g: Graph, a: Coord, b: Coord, c: Coord, d: Coord)
    requires b != c
    requires Succ(g, a) == [b, c] && Succ(g, b) == [d] && Succ(g, c) == [d]
    ensures !TreeShaped(g, a)
  {
    ReachesRefl(g, a);
    ReachesStep(g, a, a, b);
    ReachesStep(g, a, a, c);
    assert Succ(g, b)[0] == Succ(g, c)[0];
  }

  /** A formula that reads the same cell twice gives two equal entries, and is rejected. */
  lemma DuplicateEntryRejected(g: Graph, a: Coord, i: nat, j: nat)
    requires i < j < |Succ(g, a)| && Succ(g, a)[i] == Succ(g, a)[j]
    ensures !TreeShaped(g, a)
  {
    ReachesRefl(g, a);
  }

  // ---------------------------------------------------------------------
  // Ranks: a certificate that the graph has no cycle
  // ---------------------------------------------------------------------

  /** Every edge goes from a higher rank to a strictly lower one. */
  ghost predicate Ranked(g: Graph, rank: Coord -> nat)
  {
    forall u, v :: v in Succ(g, u) ==> rank(v) < rank(u)
  }

  lemma {:induction false} RankAlongWalk(g: Graph, rank: Coord -> nat, p: seq<Coord>, s: Coord, v: Coord)
    requires Ranked(g, rank) && Walk(g, p, s, v)
    ensures rank(v) <= rank(s)
    ensures |p| > 1 ==> rank(v) < rank(s)
    decreases |p|
  {
    if |p| > 1 {
      var q := p[..|p| - 1];
      assert Walk(g, q, s, p[|p| - 2]) by {
        forall k | 0 <= k < |q| - 1
          ensures q[k + 1] in Succ(g, q[k])
        {
          assert q[k] == p[k] && q[k + 1] == p[k + 1];
        }
      }
      RankAlongWalk(g, rank, q, s, p[|p| - 2]);
    }
  }

  /** A ranked graph has no cycle: no cell depends on itself. */
  lemma RankedHasNoCycle(g: Graph, rank: Coord -> nat, c: Coord)
    requires Ranked(g, rank)
    ensures !Dependent(g, c, c)
  {
    if Dependent(g, c, c) {
      var i :| 0 <= i < |Succ(g, c)| && Reaches(g, Succ(g, c)[i], c);
      var p :| Walk(g, p, Succ(g, c)[i], c);
      RankAlongWalk(g, rank, p, Succ(g, c)[i], c);
    }
  }

  /**
   * Ranks after an accepted edit of the formula at `x`: the cells `x` reaches
   * keep theirs, every other cell is raised above `x`.
   */
  ghost function Shifted(g: Graph, rank: Coord -> nat, x: Coord): Coord -> nat
  {
    v => if Reaches(g, x, v) then rank(v) else rank(v) + rank(x) + 1
  }

  /**
   * Rewiring the entries of one cell `x` keeps the graph free of cycles when
   * the check accepts it: every new edge enters `x`, and no cell `x`
   * reaches has an edge back into `x`.
   */
  lemma RewiredStaysRanked(g0: Graph, g: Graph, rank: Coord -> nat, x: Coord)
    requires Ranked(g0, rank)
    requires forall u, v :: v in Succ(g, u) && v != x ==> v in Succ(g0, u)
    requires NoEdgeBack(g, x)
    ensures Ranked(g, Shifted(g, rank, x))
  {
    var r := Shifted(g, rank, x);
    ReachesRefl(g, x);
    forall u, v | v in Succ(g, u)
      ensures r(v) < r(u)
    {
      if v == x {
        var i :| 0 <= i < |Succ(g, u)| && Succ(g, u)[i] == v;
        assert !Reaches(g, x, u);
      } else {
        assert rank(v) < rank(u);
        if Reaches(g, x, u) {
          ReachesStep(g, x, u, v);
        }
      }
    }
  }

  // ---------------------------------------------------------------------
  // Counting walks: the cascade's termination measure
  // ---------------------------------------------------------------------

  /** The number of walks that start at `u` (finite in a ranked graph). */
  ghost function Paths(g: Graph, rank: Coord -> nat, u: Coord): nat
    requires Ranked(g, rank)
    decreases rank(u), 1, 0
  {
    1 + SuccPaths(g, rank, u, 0)
  }

  ghost function SuccPaths(g: Graph, rank: Coord -> nat, u: Coord, i: nat): nat
    requires Ranked(g, rank)
    decreases rank(u), 0, |Succ(g, u)| - i
  {
    if i >= |Succ(g, u)| then 0
    else
      assert Succ(g, u)[i] in Succ(g, u);
      Paths(g, rank, Succ(g, u)[i]) + SuccPaths(g, rank, u, i + 1)
  }

  /** The walks from every entry of a work list. */
  ghost function WorkPaths(g: Graph, rank: Coord -> nat, ws: seq<Coord>): nat
    requires Ranked(g, rank)
  {
    if ws == [] then 0 else WorkPaths(g, rank, ws[..|ws| - 1]) + Paths(g, rank, ws[|ws| - 1])
  }

  lemma {:induction false} WorkPathsAppend(g: Graph, rank: Coord -> nat, a: seq<Coord>, b: seq<Coord>)
    requires Ranked(g, rank)
    ensures WorkPaths(g, rank, a + b) == WorkPaths(g, rank, a) + WorkPaths(g, rank, b)
    decreases |b|
  {
    if b == [] {
      assert a + b == a;
    } else {
      assert (a + b)[..|a + b| - 1] == a + b[..|b| - 1];
      WorkPathsAppend(g, rank, a, b[..|b| - 1]);
    }
  }

  lemma {:induction false} WorkPathsOfSucc(g: Graph, rank: Coord -> nat, u: Coord, i: nat)
    requires Ranked(g, rank) && i <= |Succ(g, u)|
    ensures WorkPaths(g, rank, Succ(g, u)[i..]) == SuccPaths(g, rank, u, i)
    decreases |Succ(g, u)| - i
  {
    var s := Succ(g, u);
    if i < |s| {
      WorkPathsOfSucc(g, rank, u, i + 1);
      assert s[i..] == [s[i]] + s[i + 1..];
      WorkPathsAppend(g, rank, [s[i]], s[i + 1..]);
      assert WorkPaths(g, rank, [s[i]]) == Paths(g, rank, s[i]) by {
        assert [s[i]][..0] == [];
      }
    }
  }

  /**
   * Replacing the last entry of a work list by its successors lowers the
   * number of walks by one: the cascade's loop terminates on a ranked graph.
   */
  lemma PopAndExtend(g: Graph, rank: Coord -> nat, ws: seq<Coord>)
    requires Ranked(g, rank) && |ws| > 0
    ensures WorkPaths(g, rank, ws[..|ws| - 1] + Succ(g, ws[|ws| - 1])) < WorkPaths(g, rank, ws)
  {
    var u := ws[|ws| - 1];
    WorkPathsAppend(g, rank, ws[..|ws| - 1], Succ(g, u));
    WorkPathsOfSucc(g, rank, u, 0);
    assert Succ(g, u)[0..] == Succ(g, u);
  }

  // ---------------------------------------------------------------------
  // The edits of `_update_dependencies`
  // ---------------------------------------------------------------------

  /** `list.remove(x)`: the first entry equal to `x` is removed (the list is kept when there is none). */
  function RemoveFirst(s: seq<Coord>, x: Coord): (r: seq<Coord>)
    ensures multiset(r) == multiset(s) - multiset{x}
    ensures forall v :: v in r ==> v in s
  {
    if s == [] then []
    else
      assert s == [s[0]] + s[1..];
      if s[0] == x then s[1..] else [s[0]] + RemoveFirst(s[1..], x)
  }

  /** `cell_dependencies[d].remove(x)`. */
  function RemoveEntry(g: Graph, x: Coord, d: Coord): Graph
  {
    if d in g then g[d := RemoveFirst(g[d], x)] else g
  }

  /** One entry `x` removed from the list of each cell of `ds`, in order. */
  function Unlink(g: Graph, x: Coord, ds: seq<Coord>): Graph
  {
    if ds == [] then g else RemoveEntry(Unlink(g, x, ds[..|ds| - 1]), x, ds[|ds| - 1])
  }

  /** The list of `d` created when missing, then `x` appended to it. */
  function AddEntry(g: Graph, x: Coord, d: Coord): Graph
  {
    g[d := Succ(g, d) + [x]]
  }

  /** `x` appended to the list of each cell of `ds`, in order. */
  function Link(g: Graph, x: Coord, ds: seq<Coord>): Graph
  {
    if ds == [] then g else AddEntry(Link(g, x, ds[..|ds| - 1]), x, ds[|ds| - 1])
  }

  /** How many times `f` is listed as reading `d`. */
  function Count(g: Graph, d: Coord, f: Coord): nat
  {
    multiset(Succ(g, d))[f]
  }

  /**
   * When each cell of `ds` lists `x` at least as often as `ds` names it,
   * unlinking removes exactly those entries and nothing else.
   */
  lemma {:induction false} UnlinkCounts(g: Graph, x: Coord, ds: seq<Coord>)
    requires forall d :: multiset(ds)[d] <= Count(g, d, x)
    ensures forall d, f :: Count(Unlink(g, x, ds), d, f)
                           == Count(g, d, f) - (if f == x then multiset(ds)[d] else 0)
  {
    if ds != [] {
      var init := ds[..|ds| - 1];
      var e := ds[|ds| - 1];
      assert ds == init + [e];
      assert multiset(ds) == multiset(init) + multiset{e};
      UnlinkCounts(g, x, init);
      var h := Unlink(g, x, init);
      assert Count(h, e, x) >= 1;
      RemoveEntryCounts(h, x, e);
      var g' := Unlink(g, x, ds);
      assert g' == RemoveEntry(h, x, e);
      forall d, f
        ensures Count(g', d, f) == Count(g, d, f) - (if f == x then multiset(ds)[d] else 0)
      {
        assert multiset(ds)[d] == multiset(init)[d] + (if d == e then 1 else 0);
      }
    }
  }

  /** Removing one listed entry `x` of `e` lowers that one count by one. */
  lemma RemoveEntryCounts(h: Graph, x: Coord, e: Coord)
    requires Count(h, e, x) >= 1
    ensures forall d, f :: Count(RemoveEntry(h, x, e), d, f)
                           == Count(h, d, f) - (if f == x && d == e then 1 else 0)
  {
    assert e in h;
    var h' := RemoveEntry(h, x, e);
    forall d, f
      ensures Count(h', d, f) == Count(h, d, f) - (if f == x && d == e then 1 else 0)
    {
      if d == e {
        assert Succ(h', e) == RemoveFirst(h[e], x);
      } else {
        assert Succ(h', d) == Succ(h, d);
      }
    }
  }

  /**
   * Under the same condition, when the first `k` cells of `ds` have been
   * unlinked, the next one still lists `x`.
   */
  lemma NextEntryPresent(g: Graph, x: Coord, ds: seq<Coord>, k: nat)
    requires forall d :: multiset(ds)[d] <= Count(g, d, x)
    requires k < |ds|
    ensures x in Succ(Unlink(g, x, ds[..k]), ds[k])
  {
    assert ds[..k + 1] == ds[..k] + [ds[k]];
    assert ds == ds[..k + 1] + ds[k + 1..];
    assert multiset(ds[..k + 1]) <= multiset(ds);
    UnlinkCounts(g, x, ds[..k]);
    assert Count(Unlink(g, x, ds[..k]), ds[k], x) >= 1;
  }

  /** Linking adds exactly one entry `x` per element of `ds`. */
  lemma {:induction false} LinkCounts(g: Graph, x: Coord, ds: seq<Coord>)
    ensures forall d, f :: Count(Link(g, x, ds), d, f)
                           == Count(g, d, f) + (if f == x then multiset(ds)[d] else 0)
  {
    if ds != [] {
      var init := ds[..|ds| - 1];
      assert ds == init + [ds[|ds| - 1]];
      LinkCounts(g, x, init);
    }
  }

  /** Unlinking only removes entries. */
  lemma {:induction false} UnlinkSubgraph(g: Graph, x: Coord, ds: seq<Coord>)
    ensures forall u, v :: v in Succ(Unlink(g, x, ds), u) ==> v in Succ(g, u)
  {
    if ds != [] {
      UnlinkSubgraph(g, x, ds[..|ds| - 1]);
    }
  }

  /** Linking only adds entries `x`. */
  lemma {:induction false} LinkOnlyAddsX(g: Graph, x: Coord, ds: seq<Coord>)
    ensures forall u, v :: v in Succ(Link(g, x, ds), u) && v != x ==> v in Succ(g, u)
  {
    if ds != [] {
      LinkOnlyAddsX(g, x, ds[..|ds| - 1]);
    }
  }
}
