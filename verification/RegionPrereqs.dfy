/** Region prerequisites: the tracker's memoised search over the region graph
    (build_poptracker_pack.py), and the region and location rules of Rules.py it is meant
    to match. */
module RegionPrereqs {
  import opened Dnf

  /** `own` is the region's requirement as a list of clauses. */
  datatype Region = Region(own: Dnf, connects: seq<string>, starting: bool)

  /** Regions in table order. */
  datatype Graph = Graph(names: seq<string>, regions: map<string, Region>) {
    ghost predicate Valid() {
      forall r :: r in names <==> r in regions
    }
  }

  function Links(name: string, connects: seq<string>, r: string): (ps: seq<string>)
    ensures forall p :: p in ps <==> p == name && r in connects
  {
    if connects == [] then []
    else
      var n := |connects| - 1;
      assert connects == connects[..n] + [connects[n]];
      Links(name, connects[..n], r) + if connects[n] == r then [name] else []
  }

  /** The regions among `ns` with an edge to `r`, once per edge. */
  function Inbound(g: Graph, ns: seq<string>, r: string): (ps: seq<string>)
    requires forall n :: n in ns ==> n in g.regions
    ensures forall p :: p in ps <==> p in ns && r in g.regions[p].connects
  {
    if ns == [] then []
    else
      var n := |ns| - 1;
      assert ns == ns[..n] + [ns[n]];
      Inbound(g, ns[..n], r) + Links(ns[n], g.regions[ns[n]].connects, r)
  }

  function Parents(g: Graph, r: string): (ps: seq<string>)
    requires g.Valid()
    ensures forall p :: p in ps <==> p in g.regions && r in g.regions[p].connects
  {
    Inbound(g, g.names, r)
  }

  method BuildInbound(g: Graph) returns (inbound: map<string, seq<string>>)
    requires g.Valid()
    ensures inbound.Keys == g.regions.Keys
    ensures forall r :: r in inbound ==> inbound[r] == Parents(g, r)
  {
    hide Inbound, Links;
    inbound := map r | r in g.regions :: [];
    var i := 0;
    InboundFirst(g);
    while i < |g.names|
      invariant 0 <= i <= |g.names| && inbound.Keys == g.regions.Keys
      invariant forall r :: r in inbound ==> inbound[r] == Inbound(g, g.names[..i], r)
    {
      InboundNext(g, i);
      inbound := AddLinks(inbound, g.names[i], g.regions[g.names[i]].connects);
      i := i + 1;
    }
    assert g.names[..i] == g.names;
  }

  lemma InboundFirst(g: Graph)
    requires g.Valid()
    ensures forall r :: Inbound(g, g.names[..0], r) == []
  {
    assert g.names[..0] == [];
  }

  lemma InboundNext(g: Graph, i: nat)
    requires g.Valid() && i < |g.names|
    ensures forall r :: Inbound(g, g.names[..i + 1], r) ==
                        Inbound(g, g.names[..i], r) + Links(g.names[i], g.regions[g.names[i]].connects, r)
  {
    var ns := g.names[..i + 1];
    assert ns[..i] == g.names[..i] && ns[i] == g.names[i];
  }

  method AddLinks(before: map<string, seq<string>>, name: string, targets: seq<string>)
    returns (inbound: map<string, seq<string>>)
    ensures inbound.Keys == before.Keys
    ensures forall r :: r in inbound ==> inbound[r] == before[r] + Links(name, targets, r)
  {
    inbound := before;
    var j := 0;
    while j < |targets|
      invariant 0 <= j <= |targets| && inbound.Keys == before.Keys
      invariant forall r :: r in inbound ==> inbound[r] == before[r] + Links(name, targets[..j], r)
    {
      assert targets[..j + 1][..j] == targets[..j];
      if targets[j] in inbound {
        inbound := inbound[targets[j] := inbound[targets[j]] + [name]];
      }
      j := j + 1;
    }
    assert targets[..j] == targets;
  }

  /** A region the search does not look behind. */
  predicate Root(g: Graph, r: string)
    requires g.Valid() && r in g.regions
  {
    g.regions[r].starting || Parents(g, r) == []
  }

  // --------------------------------------------------------------- the search

  /** `compute`: the clauses to enter `r`, and the cache afterwards. A region met again
      while it is still being computed counts as always accessible. */
  function Explore(g: Graph, r: string, cache: map<string, Dnf>, stack: set<string>): (Dnf, map<string, Dnf>)
    requires g.Valid() && r in g.regions
    decreases g.regions.Keys - stack, 1, 0
  {
    if r in cache then (cache[r], cache)
    else if r in stack then ([[]], cache)
    else if Root(g, r) then (g.regions[r].own, cache[r := g.regions[r].own])
    else
      assert g.regions.Keys - (stack + {r}) < g.regions.Keys - stack by {
        assert r in g.regions.Keys - stack;
      }
      var (above, known) := ExploreAll(g, Parents(g, r), cache, stack + {r}, []);
      var d := AddAll([], Cross(above, g.regions[r].own));
      (d, known[r := d])
  }

  /** The clauses of every region in `ps`, in order, added to `acc`. */
  function ExploreAll(g: Graph, ps: seq<string>, cache: map<string, Dnf>, stack: set<string>, acc: Dnf)
    : (Dnf, map<string, Dnf>)
    requires g.Valid() && forall p :: p in ps ==> p in g.regions
    decreases g.regions.Keys - stack, 2, |ps|
  {
    if ps == [] then (acc, cache)
    else
      var (d, known) := Explore(g, ps[0], cache, stack);
      ExploreAll(g, ps[1..], known, stack, AddAll(acc, d))
  }

  /** The search with its two tables. */
  class Search {
    const g: Graph
    const inbound: map<string, seq<string>>
    var cache: map<string, Dnf>
    var onStack: set<string>

    ghost predicate Ready() {
      && g.Valid() && inbound.Keys == g.regions.Keys
      && forall r :: r in inbound ==> inbound[r] == Parents(g, r)
    }

    constructor (g: Graph)
      requires g.Valid()
      ensures Ready() && this.g == g && cache == map[] && onStack == {}
    {
      var edges := BuildInbound(g);
      this.g := g;
      inbound := edges;
      cache := map[];
      onStack := {};
    }

    method Compute(r: string) returns (d: Dnf)
      requires Ready() && r in g.regions
      modifies this
      ensures (d, cache) == Explore(g, r, old(cache), old(onStack))
      ensures onStack == old(onStack)
      decreases g.regions.Keys - onStack, 1
    {
      if r in cache {
        return cache[r];
      }
      if r in onStack {
        return [[]];
      }
      ghost var start := onStack;
      onStack := onStack + {r};
      var own, parents := g.regions[r].own, inbound[r];
      if g.regions[r].starting || parents == [] {
        d := own;
      } else {
        assert g.regions.Keys - onStack < g.regions.Keys - start by {
          assert r in g.regions.Keys - start;
        }
        var above := ComputeAll(parents);
        d := JoinOwn(above, own);
      }
      onStack := onStack - {r};
      assert onStack == start;
      cache := cache[r := d];
    }

    /** The loop over the parents. */
    method ComputeAll(parents: seq<string>) returns (above: Dnf)
      requires Ready() && forall p :: p in parents ==> p in g.regions
      modifies this
      ensures (above, cache) == ExploreAll(g, parents, old(cache), old(onStack), [])
      ensures onStack == old(onStack)
      decreases g.regions.Keys - onStack, 2
    {
      above := [];
      var i := 0;
      while i < |parents|
        invariant 0 <= i <= |parents| && onStack == old(onStack)
        invariant ExploreAll(g, parents, old(cache), onStack, []) ==
                  ExploreAll(g, parents[i..], cache, onStack, above)
      {
        assert parents[i..][0] == parents[i] && parents[i..][1..] == parents[i + 1..];
        var clauses := Compute(parents[i]);
        above := AddClauses(above, clauses);
        i := i + 1;
      }
    }

    /** `{r: dnf_to_access_rules(compute(r)) for r in regions}`. */
    method BuildRules() returns (rules: map<string, seq<string>>)
      requires Ready() && cache == map[] && onStack == {}
      modifies this
      ensures rules == Prereqs(g, g.names, map[]).0
    {
      rules := map[];
      var i := 0;
      assert g.names[..0] == [];
      while i < |g.names|
        invariant 0 <= i <= |g.names| && onStack == {}
        invariant (rules, cache) == Prereqs(g, g.names[..i], map[])
      {
        assert g.names[..i + 1][..i] == g.names[..i];
        var d := Compute(g.names[i]);
        var access := DnfToAccessRules(d);
        rules := rules[g.names[i] := access];
        i := i + 1;
      }
      assert g.names[..i] == g.names;
    }
  }

  method AddClauses(acc: Dnf, more: Dnf) returns (all: Dnf)
    ensures all == AddAll(acc, more)
  {
    all := acc;
    var i := 0;
    while i < |more|
      invariant 0 <= i <= |more|
      invariant AddAll(acc, more) == AddAll(all, more[i..])
    {
      assert more[i..][0] == more[i] && more[i..][1..] == more[i + 1..];
      if more[i] !in all {
        all := all + [more[i]];
      }
      i := i + 1;
    }
  }

  /** The parents' clauses merged with the region's own. */
  method JoinOwn(above: Dnf, own: Dnf) returns (d: Dnf)
    ensures d == AddAll([], Cross(above, own))
  {
    if above == [] || own == [] {
      CrossNonempty(above, own);
      return [];
    }
    d := AndLists(above, own);
  }

  /** The rules of the first regions of the table and the cache after computing them. */
  function Prereqs(g: Graph, ns: seq<string>, cache: map<string, Dnf>): (map<string, seq<string>>, map<string, Dnf>)
    requires g.Valid() && forall n :: n in ns ==> n in g.regions
  {
    if ns == [] then (map[], cache)
    else
      var n := |ns| - 1;
      var (rules, known) := Prereqs(g, ns[..n], cache);
      var (d, after) := Explore(g, ns[n], known, {});
      (rules[ns[n] := AccessRules(d)], after)
  }

  // ----------------------------------------------- what it should have computed

  predicate OwnMet(g: Graph, r: string, val: Tracking)
    requires r in g.regions
  {
    DnfVal(g.regions[r].own, val)
  }

  /** A walk through the graph, ending in `region`. */
  datatype Path = At(region: string) | Via(before: Path, region: string)

  /** The region is flagged as a start, or no region leads to it. */
  predicate Begins(g: Graph, r: string)
    requires r in g.regions
  {
    g.regions[r].starting || forall q :: q in g.regions ==> r !in g.regions[q].connects
  }

  predicate LeadsTo(g: Graph, p: string, r: string) {
    p in g.regions && r in g.regions[p].connects
  }

  lemma RootMeans(g: Graph, r: string)
    requires g.Valid() && r in g.regions
    ensures Root(g, r) <==> Begins(g, r)
    ensures forall p :: p in Parents(g, r) <==> LeadsTo(g, p, r)
    ensures (exists p :: LeadsTo(g, p, r)) ==> (Root(g, r) <==> g.regions[r].starting)
  {
    if Parents(g, r) != [] {
      assert Parents(g, r)[0] in Parents(g, r);
    }
  }

  /** A path from where one can begin, along which every requirement is met. */
  predicate OpenPath(g: Graph, path: Path, val: Tracking)
    requires g.Valid()
  {
    && path.region in g.regions && OwnMet(g, path.region, val)
    && match path
       case At(r) => Begins(g, r)
       case Via(before, r) => LeadsTo(g, before.region, r) && OpenPath(g, before, val)
  }

  ghost predicate Reachable(g: Graph, r: string, val: Tracking)
    requires g.Valid()
  {
    exists path: Path :: path.region == r && OpenPath(g, path, val)
  }

  /** Reachability, one edge back. */
  lemma ReachStep(g: Graph, r: string, val: Tracking)
    requires g.Valid() && r in g.regions
    ensures Reachable(g, r, val) <==>
            OwnMet(g, r, val) && (Root(g, r) || exists q :: q in Parents(g, r) && Reachable(g, q, val))
  {
    hide OwnMet, Parents, Root, Begins, LeadsTo;
    RootMeans(g, r);
    if Reachable(g, r, val) {
      var path: Path :| path.region == r && OpenPath(g, path, val);
      if path.Via? {
        assert Reachable(g, path.before.region, val);
      }
    }
    if OwnMet(g, r, val) && Root(g, r) {
      assert OpenPath(g, At(r), val);
    }
    if q :| OwnMet(g, r, val) && q in Parents(g, r) && Reachable(g, q, val) {
      var path: Path :| path.region == q && OpenPath(g, path, val);
      assert OpenPath(g, Via(path, r), val);
    }
  }

  ghost predicate ParentIn(g: Graph, r: string, c: set<string>)
    requires g.Valid()
  {
    exists p :: p in Parents(g, r) && p in c
  }

  /** Regions whose requirements hold and each of which is a root or has a parent in the
      set: entering one of them never needs anything from outside. */
  ghost predicate Supported(g: Graph, good: set<string>, val: Tracking)
    requires g.Valid()
  {
    forall r :: r in good ==>
      r in g.regions && OwnMet(g, r, val) && (Root(g, r) || ParentIn(g, r, good))
  }

  ghost predicate Opens(cache: map<string, Dnf>, good: set<string>, val: Tracking) {
    forall k :: k in cache && k in good ==> DnfVal(cache[k], val)
  }

  ghost predicate SomeGood(ps: seq<string>, good: set<string>) {
    exists q :: q in ps && q in good
  }

  /** On every graph: a region of such a set gets clauses that hold. */
  lemma {:induction false} ExploreOpens(g: Graph, r: string, cache: map<string, Dnf>, stack: set<string>,
                                        good: set<string>, val: Tracking)
    requires g.Valid() && r in g.regions && Supported(g, good, val) && Opens(cache, good, val)
    ensures r in good ==> DnfVal(Explore(g, r, cache, stack).0, val)
    ensures Opens(Explore(g, r, cache, stack).1, good, val)
    decreases g.regions.Keys - stack, 1, 0
  {
    hide DnfVal;
    NoClause(val);
    if r !in cache && r !in stack && !Root(g, r) {
      assert r in g.regions.Keys - stack;
      var ps, own := Parents(g, r), g.regions[r].own;
      ExploreAllOpens(g, ps, cache, stack + {r}, [], good, val);
      var above := ExploreAll(g, ps, cache, stack + {r}, []).0;
      CrossVal(above, own, val);
      AddAllVal([], Cross(above, own), val);
    }
  }

  lemma {:induction false} ExploreAllOpens(g: Graph, ps: seq<string>, cache: map<string, Dnf>, stack: set<string>,
                                           acc: Dnf, good: set<string>, val: Tracking)
    requires g.Valid() && (forall p :: p in ps ==> p in g.regions)
    requires Supported(g, good, val) && Opens(cache, good, val)
    ensures SomeGood(ps, good) || DnfVal(acc, val) ==> DnfVal(ExploreAll(g, ps, cache, stack, acc).0, val)
    ensures Opens(ExploreAll(g, ps, cache, stack, acc).1, good, val)
    decreases g.regions.Keys - stack, 2, |ps|
  {
    hide DnfVal, Supported;
    if ps != [] {
      var (d, known) := Explore(g, ps[0], cache, stack);
      ExploreOpens(g, ps[0], cache, stack, good, val);
      AddAllVal(acc, d, val);
      ExploreAllOpens(g, ps[1..], known, stack, AddAll(acc, d), good, val);
    }
  }

  ghost predicate SomeReachable(g: Graph, ps: seq<string>, val: Tracking)
    requires g.Valid()
  {
    exists q :: q in ps && Reachable(g, q, val)
  }

  // ------------------------------------------------------------------- cycles

  /** A set of regions none of which is a start, each led to by one in the set. */
  ghost predicate Looped(g: Graph, c: set<string>)
    requires g.Valid()
  {
    c != {} && c <= g.regions.Keys && forall r :: r in c ==> !g.regions[r].starting && LedFrom(g, r, c)
  }

  ghost predicate LedFrom(g: Graph, r: string, c: set<string>) {
    exists p :: p in c && LeadsTo(g, p, r)
  }

  lemma LoopMember(g: Graph, r: string, c: set<string>)
    requires g.Valid() && r in g.regions
    ensures !Root(g, r) && ParentIn(g, r, c) <==> !g.regions[r].starting && LedFrom(g, r, c)
  {
    hide Root, Parents, LeadsTo;
    RootMeans(g, r);
  }

  lemma LoopedMeans(g: Graph, c: set<string>)
    requires g.Valid()
    ensures Looped(g, c) <==>
            c != {} && c <= g.regions.Keys && forall r :: r in c ==> !Root(g, r) && ParentIn(g, r, c)
  {
    hide Root, ParentIn, LedFrom;
    forall r | r in c && r in g.regions
      ensures !Root(g, r) && ParentIn(g, r, c) <==> !g.regions[r].starting && LedFrom(g, r, c)
    {
      LoopMember(g, r, c);
    }
  }

  /** No region that is not a root lies on a cycle of such regions. */
  ghost predicate Loopless(g: Graph)
    requires g.Valid()
  {
    forall c :: !Looped(g, c)
  }

  /** Ranks that rise along every edge to a region that is no start. */
  ghost predicate Ranked(g: Graph, rank: string -> nat)
    requires g.Valid()
  {
    forall r, p :: r in g.regions && !g.regions[r].starting && LeadsTo(g, p, r) ==> rank(p) < rank(r)
  }

  lemma RankedMeans(g: Graph, rank: string -> nat)
    requires g.Valid()
    ensures Ranked(g, rank) <==>
            forall r, p :: r in g.regions && !Root(g, r) && p in Parents(g, r) ==> rank(p) < rank(r)
  {
    hide Root, Parents, LeadsTo;
    forall r | r in g.regions
      ensures forall p :: p in Parents(g, r) <==> LeadsTo(g, p, r)
      ensures (exists p :: LeadsTo(g, p, r)) ==> (Root(g, r) <==> g.regions[r].starting)
    {
      RootMeans(g, r);
    }
  }

  lemma {:induction false} RankFalls(g: Graph, c: set<string>, rank: string -> nat, r: string)
    requires g.Valid() && Looped(g, c) && Ranked(g, rank) && r in c
    ensures false
    decreases rank(r)
  {
    hide Parents, Root, ParentIn, Looped, Ranked;
    LoopedMeans(g, c);
    RankedMeans(g, rank);
    var p := TheParent(g, r, c);
    RankFalls(g, c, rank, p);
  }

  lemma TheParent(g: Graph, r: string, c: set<string>) returns (p: string)
    requires g.Valid() && ParentIn(g, r, c)
    ensures p in Parents(g, r) && p in c
  {
    p :| p in Parents(g, r) && p in c;
  }

  /** Part of a ranking: parents of the ranked regions are ranked lower. */
  ghost predicate PartRanked(g: Graph, m: map<string, nat>)
    requires g.Valid()
  {
    && m.Keys <= g.regions.Keys && (forall r :: r in m ==> m[r] < |m|)
    && forall r, p :: r in m && !Root(g, r) && p in Parents(g, r) ==> p in m && m[p] < m[r]
  }

  /** While regions are left, one of them has every parent ranked. */
  lemma {:induction false} RankAll(g: Graph, m: map<string, nat>) returns (all: map<string, nat>)
    requires g.Valid() && Loopless(g) && PartRanked(g, m)
    ensures PartRanked(g, all) && all.Keys == g.regions.Keys
    decreases g.regions.Keys - m.Keys
  {
    hide Loopless, Root, ParentIn, Parents, PartRanked;
    var left := g.regions.Keys - m.Keys;
    if left == {} {
      FullRanked(g, m);
      return m;
    }
    var r := NextRanked(g, left);
    RankOne(g, m, r);
    assert g.regions.Keys - m[r := |m|].Keys < left by {
      assert r in left;
    }
    all := RankAll(g, m[r := |m|]);
  }

  lemma FullRanked(g: Graph, m: map<string, nat>)
    requires g.Valid() && PartRanked(g, m) && g.regions.Keys - m.Keys == {}
    ensures m.Keys == g.regions.Keys
  {
    hide Root, Parents;
    forall r | r in g.regions
      ensures r in m
    {
      assert r !in g.regions.Keys - m.Keys;
    }
  }

  lemma NextRanked(g: Graph, left: set<string>) returns (r: string)
    requires g.Valid() && Loopless(g) && left != {} && left <= g.regions.Keys
    ensures r in left && (Root(g, r) || !ParentIn(g, r, left))
  {
    hide Root, ParentIn, Looped;
    assert !Looped(g, left);
    LoopedMeans(g, left);
    r :| r in left && (Root(g, r) || !ParentIn(g, r, left));
  }

  lemma RankOne(g: Graph, m: map<string, nat>, r: string)
    requires g.Valid() && PartRanked(g, m) && r in g.regions && r !in m
    requires Root(g, r) || !ParentIn(g, r, g.regions.Keys - m.Keys)
    ensures PartRanked(g, m[r := |m|])
  {
    hide Root, Parents, ParentIn;
    var more := m[r := |m|];
    OneMore(m, r, |m|);
    forall s, p | s in more && !Root(g, s) && p in Parents(g, s)
      ensures p in more && more[p] < more[s]
    {
      if s == r {
        ParentRanked(g, m, r, p);
      }
    }
  }

  lemma ParentRanked(g: Graph, m: map<string, nat>, r: string, p: string)
    requires g.Valid() && p in Parents(g, r) && !ParentIn(g, r, g.regions.Keys - m.Keys)
    ensures p in m
  {
    assert p !in g.regions.Keys - m.Keys;
  }

  lemma OneMore(m: map<string, nat>, r: string, n: nat)
    requires r !in m
    ensures |m[r := n]| == |m| + 1
  {
    var more := m[r := n];
    assert more.Keys == m.Keys + {r};
    assert |more| == |more.Keys| && |m| == |m.Keys|;
  }

  /** Having no such set is having ranks. */
  lemma LooplessIsRanked(g: Graph)
    requires g.Valid()
    ensures Loopless(g) <==> exists rank :: Ranked(g, rank)
  {
    hide Loopless, Root, ParentIn, Parents;
    if Loopless(g) {
      var m := RankAll(g, map[]);
      var rank: string -> nat := (r: string) => if r in m then m[r] else 0;
      RankedMeans(g, rank);
      assert Ranked(g, rank);
    }
    if rank :| Ranked(g, rank) {
      RankedLoopless(g, rank);
    }
  }

  lemma RankedLoopless(g: Graph, rank: string -> nat)
    requires g.Valid() && Ranked(g, rank)
    ensures Loopless(g)
  {
    hide LeadsTo, Ranked;
    forall c
      ensures !Looped(g, c)
    {
      if Looped(g, c) {
        var r :| r in c;
        RankFalls(g, c, rank, r);
      }
    }
  }

  /** The regions being computed lead to `r`, each through one of its parents. */
  ghost predicate Chained(g: Graph, stack: set<string>, r: string)
    requires g.Valid()
  {
    forall s :: s in stack ==>
      s in g.regions && !Root(g, s) && ParentIn(g, s, stack + {r})
  }

  lemma ChainOn(g: Graph, stack: set<string>, r: string, p: string)
    requires g.Valid() && Chained(g, stack, r) && r in g.regions && !Root(g, r) && p in Parents(g, r)
    ensures Chained(g, stack + {r}, p)
  {
    hide Root, Parents;
    forall s | s in stack + {r}
      ensures s in g.regions && !Root(g, s) && ParentIn(g, s, stack + {r} + {p})
    {
      if s in stack {
        var q := TheParent(g, s, stack + {r});
        assert q in stack + {r} + {p};
      } else {
        assert p in stack + {r} + {p};
      }
    }
  }

  lemma NotOnStack(g: Graph, stack: set<string>, r: string)
    requires g.Valid() && Loopless(g) && Chained(g, stack, r)
    ensures r !in stack
  {
    hide Root, ParentIn, Looped;
    assert !Looped(g, stack);
    LoopedMeans(g, stack);
    assert r in stack ==> stack + {r} == stack;
  }

  ghost predicate NotLaxer(g: Graph, cache: map<string, Dnf>, val: Tracking)
    requires g.Valid()
  {
    forall k :: k in cache && DnfVal(cache[k], val) ==> Reachable(g, k, val)
  }

  /** Without cycles: clauses that hold belong to a region with an open path. */
  lemma {:induction false} ExploreNotLaxer(g: Graph, r: string, cache: map<string, Dnf>, stack: set<string>,
                                           val: Tracking)
    requires g.Valid() && r in g.regions && NotLaxer(g, cache, val)
    requires Loopless(g) && Chained(g, stack, r)
    ensures DnfVal(Explore(g, r, cache, stack).0, val) ==> Reachable(g, r, val)
    ensures NotLaxer(g, Explore(g, r, cache, stack).1, val)
    decreases g.regions.Keys - stack, 1, 0
  {
    hide DnfVal, Reachable, Loopless, Chained;
    NoClause(val);
    ReachStep(g, r, val);
    NotOnStack(g, stack, r);
    if r !in cache && !Root(g, r) {
      assert r in g.regions.Keys - stack;
      var ps, own := Parents(g, r), g.regions[r].own;
      forall p | p in ps
        ensures Chained(g, stack + {r}, p)
      {
        ChainOn(g, stack, r, p);
      }
      ExploreAllNotLaxer(g, ps, cache, stack + {r}, [], val);
      var above := ExploreAll(g, ps, cache, stack + {r}, []).0;
      CrossVal(above, own, val);
      AddAllVal([], Cross(above, own), val);
    }
  }

  lemma {:induction false} ExploreAllNotLaxer(g: Graph, ps: seq<string>, cache: map<string, Dnf>, stack: set<string>,
                                              acc: Dnf, val: Tracking)
    requires g.Valid() && (forall p :: p in ps ==> p in g.regions) && NotLaxer(g, cache, val)
    requires Loopless(g) && forall p :: p in ps ==> Chained(g, stack, p)
    ensures DnfVal(ExploreAll(g, ps, cache, stack, acc).0, val) ==> SomeReachable(g, ps, val) || DnfVal(acc, val)
    ensures NotLaxer(g, ExploreAll(g, ps, cache, stack, acc).1, val)
    decreases g.regions.Keys - stack, 2, |ps|
  {
    hide DnfVal, Reachable, Loopless, Chained;
    if ps != [] {
      var (d, known) := Explore(g, ps[0], cache, stack);
      assert ps[0] in ps;
      ExploreNotLaxer(g, ps[0], cache, stack, val);
      AddAllVal(acc, d, val);
      assert forall p :: p in ps[1..] ==> p in ps;
      ExploreAllNotLaxer(g, ps[1..], known, stack, AddAll(acc, d), val);
    }
  }

  // -------------------------------------------------------------- the main results

  ghost predicate CleanGraph(g: Graph) {
    forall r :: r in g.regions ==> CleanDnf(g.regions[r].own)
  }

  ghost predicate CleanCache(cache: map<string, Dnf>) {
    forall k :: k in cache ==> CleanDnf(cache[k])
  }

  lemma CrossKeepsClean(a: Dnf, b: Dnf)
    requires CleanDnf(a) && CleanDnf(b)
    ensures CleanDnf(AddAll([], Cross(a, b)))
  {
    forall c | c in Cross(a, b)
      ensures CleanClause(c)
    {
      var x, y := CrossFrom(a, b, c);
    }
  }

  lemma {:induction false} ExploreClean(g: Graph, r: string, cache: map<string, Dnf>, stack: set<string>)
    requires g.Valid() && r in g.regions && CleanGraph(g) && CleanCache(cache)
    ensures CleanDnf(Explore(g, r, cache, stack).0) && CleanCache(Explore(g, r, cache, stack).1)
    decreases g.regions.Keys - stack, 1, 0
  {
    hide CleanClause;
    assert CleanClause([]) by {
      EmptyClean();
    }
    if r !in cache && r !in stack && !Root(g, r) {
      assert r in g.regions.Keys - stack;
      ExploreAllClean(g, Parents(g, r), cache, stack + {r}, []);
      CrossKeepsClean(ExploreAll(g, Parents(g, r), cache, stack + {r}, []).0, g.regions[r].own);
    }
  }

  lemma EmptyClean()
    ensures CleanClause([])
  {
  }

  lemma {:induction false} ExploreAllClean(g: Graph, ps: seq<string>, cache: map<string, Dnf>, stack: set<string>,
                                           acc: Dnf)
    requires g.Valid() && (forall p :: p in ps ==> p in g.regions)
    requires CleanGraph(g) && CleanCache(cache) && CleanDnf(acc)
    ensures CleanDnf(ExploreAll(g, ps, cache, stack, acc).0) && CleanCache(ExploreAll(g, ps, cache, stack, acc).1)
    decreases g.regions.Keys - stack, 2, |ps|
  {
    hide CleanClause;
    if ps != [] {
      var (d, known) := Explore(g, ps[0], cache, stack);
      ExploreClean(g, ps[0], cache, stack);
      ExploreAllClean(g, ps[1..], known, stack, AddAll(acc, d));
    }
  }

  ghost predicate RulesOpen(rules: map<string, seq<string>>, good: set<string>, val: Tracking) {
    forall r :: r in rules && r in good ==> RulesVal(rules[r], val)
  }

  ghost predicate RulesNotLaxer(g: Graph, rules: map<string, seq<string>>, val: Tracking)
    requires g.Valid()
  {
    forall r :: r in rules && RulesVal(rules[r], val) ==> Reachable(g, r, val)
  }

  lemma {:induction false} PrereqsNamed(g: Graph, ns: seq<string>)
    requires g.Valid() && forall n :: n in ns ==> n in g.regions
    ensures forall r :: r in Prereqs(g, ns, map[]).0 <==> r in ns
  {
    hide AccessRules, Explore;
    if ns != [] {
      var n := |ns| - 1;
      assert ns == ns[..n] + [ns[n]];
      PrereqsNamed(g, ns[..n]);
    }
  }

  lemma {:induction false} PrereqsRules(g: Graph, ns: seq<string>)
    requires g.Valid() && CleanGraph(g) && forall n :: n in ns ==> n in g.regions
    ensures forall r :: r in Prereqs(g, ns, map[]).0 <==> r in ns
    ensures CleanCache(Prereqs(g, ns, map[]).1)
    ensures forall r :: r in ns ==> CleanRules(Prereqs(g, ns, map[]).0[r])
  {
    hide CleanRules, AccessRules, CleanDnf;
    if ns != [] {
      var n := |ns| - 1;
      assert ns == ns[..n] + [ns[n]];
      PrereqsRules(g, ns[..n]);
      ExploreClean(g, ns[n], Prereqs(g, ns[..n], map[]).1, {});
      AccessRulesClean(Explore(g, ns[n], Prereqs(g, ns[..n], map[]).1, {}).0);
    }
  }

  lemma {:induction false} PrereqsOpen(g: Graph, ns: seq<string>, good: set<string>, val: Tracking)
    requires g.Valid() && CleanGraph(g) && !val("false") && forall n :: n in ns ==> n in g.regions
    requires Supported(g, good, val)
    ensures RulesOpen(Prereqs(g, ns, map[]).0, good, val)
    ensures Opens(Prereqs(g, ns, map[]).1, good, val)
  {
    hide RulesVal, AccessRules, DnfVal, Supported, CleanDnf;
    if ns != [] {
      var n := |ns| - 1;
      var known := Prereqs(g, ns[..n], map[]).1;
      PrereqsOpen(g, ns[..n], good, val);
      PrereqsRules(g, ns[..n]);
      ExploreClean(g, ns[n], known, {});
      ExploreOpens(g, ns[n], known, {}, good, val);
      RulesMeaning(Explore(g, ns[n], known, {}).0, val);
    }
  }

  lemma {:induction false} PrereqsNotLaxer(g: Graph, ns: seq<string>, val: Tracking)
    requires g.Valid() && CleanGraph(g) && !val("false") && forall n :: n in ns ==> n in g.regions
    requires Loopless(g)
    ensures RulesNotLaxer(g, Prereqs(g, ns, map[]).0, val)
    ensures NotLaxer(g, Prereqs(g, ns, map[]).1, val)
  {
    hide RulesVal, AccessRules, DnfVal, Reachable, CleanDnf, Loopless;
    if ns != [] {
      var n := |ns| - 1;
      var known := Prereqs(g, ns[..n], map[]).1;
      PrereqsNotLaxer(g, ns[..n], val);
      PrereqsRules(g, ns[..n]);
      ExploreClean(g, ns[n], known, {});
      ExploreNotLaxer(g, ns[n], known, {}, val);
      RulesMeaning(Explore(g, ns[n], known, {}).0, val);
    }
  }

  lemma ReachableSupported(g: Graph, val: Tracking) returns (good: set<string>)
    requires g.Valid()
    ensures Supported(g, good, val) && forall r :: r in good <==> r in g.regions && Reachable(g, r, val)
  {
    hide OwnMet, Root, Reachable;
    good := set r | r in g.regions && Reachable(g, r, val);
    forall r | r in good
      ensures OwnMet(g, r, val) && (Root(g, r) || ParentIn(g, r, good))
    {
      ReachStep(g, r, val);
      if !Root(g, r) {
        var q :| q in Parents(g, r) && Reachable(g, q, val);
        assert q in good;
      }
    }
  }

  /** On every region graph, cyclic or not, each region gets rules, and they hold whenever
      some path from a root has every requirement on it met. */
  lemma PrereqsSound(g: Graph, r: string, val: Tracking)
    requires g.Valid() && CleanGraph(g) && !val("false") && r in g.regions
    ensures r in Prereqs(g, g.names, map[]).0
    ensures Reachable(g, r, val) ==> RulesVal(Prereqs(g, g.names, map[]).0[r], val)
  {
    hide RulesVal, Reachable, Supported;
    PrereqsRules(g, g.names);
    var good := ReachableSupported(g, val);
    PrereqsOpen(g, g.names, good, val);
  }

  /** Without a cycle among the regions that are no roots, they hold only then. */
  lemma PrereqsExact(g: Graph, r: string, val: Tracking)
    requires g.Valid() && CleanGraph(g) && !val("false") && r in g.regions && Loopless(g)
    ensures r in Prereqs(g, g.names, map[]).0
    ensures RulesVal(Prereqs(g, g.names, map[]).0[r], val) <==> Reachable(g, r, val)
  {
    hide RulesVal, Reachable, Loopless;
    PrereqsSound(g, r, val);
    PrereqsNotLaxer(g, g.names, val);
  }

  ghost predicate AllMet(g: Graph, c: set<string>, val: Tracking) {
    forall r :: r in c && r in g.regions ==> OwnMet(g, r, val)
  }

  /** The rules of region `r` hold. */
  ghost predicate Wide(g: Graph, r: string, val: Tracking)
    requires g.Valid() && forall n :: n in g.names ==> n in g.regions
  {
    var rules := Prereqs(g, g.names, map[]).0;
    r in rules && RulesVal(rules[r], val)
  }

  /** On a cycle, whose own requirements hold, the rules hold whatever the way in asks for
      and whatever the table order. */
  lemma LoopAlwaysOpen(g: Graph, c: set<string>, r: string, val: Tracking)
    requires g.Valid() && CleanGraph(g) && !val("false") && Looped(g, c) && r in c && AllMet(g, c, val)
    ensures Wide(g, r, val)
  {
    hide RulesVal, OwnMet, Root, ParentIn, CleanRules, Prereqs, Looped;
    LoopedMeans(g, c);
    PrereqsRules(g, g.names);
    PrereqsOpen(g, g.names, c, val);
  }

  /** The same regions and edges; the requirements may differ. */
  ghost predicate SameShape(g: Graph, h: Graph) {
    && g.names == h.names && g.regions.Keys == h.regions.Keys
    && forall r :: r in g.regions ==>
         g.regions[r].connects == h.regions[r].connects && g.regions[r].starting == h.regions[r].starting
  }

  lemma SameLooped(g: Graph, h: Graph, c: set<string>)
    requires g.Valid() && h.Valid() && SameShape(g, h) && Looped(g, c)
    ensures Looped(h, c)
  {
    hide LedFrom;
    forall r | r in c
      ensures LedFrom(h, r, c)
    {
      SameLed(g, h, r, c);
    }
  }

  lemma SameLed(g: Graph, h: Graph, r: string, c: set<string>)
    requires SameShape(g, h) && LedFrom(g, r, c)
    ensures LedFrom(h, r, c)
  {
    var p :| p in c && LeadsTo(g, p, r);
    assert LeadsTo(h, p, r);
  }

  lemma LoopSome(g: Graph, c: set<string>)
    requires g.Valid() && Looped(g, c)
    ensures c != {} && c <= g.regions.Keys
  {
  }

  lemma LoopNoStart(g: Graph, c: set<string>, r: string)
    requires g.Valid() && Looped(g, c) && r in c
    ensures r in g.regions && !Begins(g, r)
  {
    hide LeadsTo;
    var p :| p in c && LeadsTo(g, p, r);
    assert p in g.regions && r in g.regions[p].connects by {
      LeadsMeans(g, p, r);
    }
  }

  lemma LeadsMeans(g: Graph, p: string, r: string)
    ensures LeadsTo(g, p, r) <==> p in g.regions && r in g.regions[p].connects
  {
  }

  lemma SameLoopless(g: Graph, h: Graph)
    requires g.Valid() && h.Valid() && SameShape(g, h) && Loopless(g)
    ensures Loopless(h)
  {
    hide Looped;
    forall c
      ensures !Looped(h, c)
    {
      if Looped(h, c) {
        SameLooped(h, g, c);
      }
    }
  }

  /** Whatever the regions require and whatever holds, rules hold only for reachable regions. */
  ghost predicate AlwaysExact(g: Graph) {
    forall h: Graph, val: Tracking, r: string ::
      (h.Valid() && SameShape(g, h) && CleanGraph(h) && !val("false") && r in h.regions && Wide(h, r, val)) ==>
        Reachable(h, r, val)
  }

  /** Requirements under which only the set `c` is open. */
  function Locked(g: Graph, c: set<string>): Graph {
    Graph(g.names, map r | r in g.regions ::
            Region(if r in c then [[]] else [["locked"]], g.regions[r].connects, g.regions[r].starting))
  }

  lemma {:induction false} NoWayIn(g: Graph, c: set<string>, path: Path, val: Tracking)
    requires g.Valid() && Looped(g, c) && Locked(g, c).Valid() && Looped(Locked(g, c), c) && !val("locked")
    ensures !OpenPath(Locked(g, c), path, val)
  {
    hide OwnMet, Locked, Looped, Begins, LeadsTo;
    LockedMet(g, c, path.region, val);
    if path.region in c {
      LoopNoStart(Locked(g, c), c, path.region);
    }
    if path.Via? {
      NoWayIn(g, c, path.before, val);
    }
  }

  lemma LockedMet(g: Graph, c: set<string>, r: string, val: Tracking)
    requires !val("locked")
    ensures r in Locked(g, c).regions ==> (OwnMet(Locked(g, c), r, val) <==> r in c)
  {
    NoClause(val);
    if r in g.regions && r !in c {
      assert "locked" in ["locked"];
    }
  }

  /** The search is exact on a shape of graph, for all requirements and valuations, if and
      only if no set of its regions that are no roots is closed under having a parent. */
  lemma ExactlyWhenLoopless(g: Graph)
    requires g.Valid()
    ensures AlwaysExact(g) <==> Loopless(g)
  {
    hide Wide, Reachable, Looped, SameShape, CleanGraph, AlwaysExact;
    if Loopless(g) {
      LooplessExact(g);
    } else {
      var c :| Looped(g, c);
      LockedWide(g, c);
    }
  }

  lemma LooplessExact(g: Graph)
    requires g.Valid() && Loopless(g)
    ensures AlwaysExact(g)
  {
    hide RulesVal, Reachable, Loopless, SameShape, CleanGraph, Prereqs;
    forall h: Graph, val: Tracking, r: string |
        h.Valid() && SameShape(g, h) && CleanGraph(h) && !val("false") && r in h.regions && Wide(h, r, val)
      ensures Reachable(h, r, val)
    {
      SameLoopless(g, h);
      PrereqsExact(h, r, val);
    }
  }

  lemma LockedShape(g: Graph, c: set<string>)
    requires g.Valid()
    ensures Locked(g, c).Valid() && SameShape(g, Locked(g, c)) && CleanGraph(Locked(g, c))
  {
    EmptyClean();
  }

  lemma LockedClosed(g: Graph, c: set<string>, r: string, val: Tracking)
    requires g.Valid() && Looped(g, c) && Locked(g, c).Valid() && Looped(Locked(g, c), c) && !val("locked")
    ensures !Reachable(Locked(g, c), r, val)
  {
    hide Looped, OpenPath, Locked;
    forall path: Path
      ensures !OpenPath(Locked(g, c), path, val)
    {
      NoWayIn(g, c, path, val);
    }
  }

  lemma LockedOpen(g: Graph, c: set<string>, val: Tracking)
    requires !val("locked")
    ensures AllMet(Locked(g, c), c, val)
  {
    hide OwnMet, Locked;
    forall q | q in c && q in Locked(g, c).regions
      ensures OwnMet(Locked(g, c), q, val)
    {
      LockedMet(g, c, q, val);
    }
  }

  lemma LockedWide(g: Graph, c: set<string>)
    requires g.Valid() && Looped(g, c)
    ensures !AlwaysExact(g)
  {
    hide Prereqs, Locked, SameShape, CleanGraph, Looped, AllMet, Wide, Reachable;
    var h, val: Tracking := Locked(g, c), (t: string) => false;
    LockedShape(g, c);
    SameLooped(g, h, c);
    LoopSome(h, c);
    var r := AnyOf(c);
    LockedOpen(g, c, val);
    LoopAlwaysOpen(h, c, r, val);
    LockedClosed(g, c, r, val);
  }

  lemma AnyOf(c: set<string>) returns (r: string)
    requires c != {}
    ensures r in c
  {
    r :| r in c;
  }

  // ------------------------------------------------ the logic it stands in for

  /** Regions the start connects to: the flagged ones, or all when none is flagged. */
  predicate LogicStart(g: Graph, r: string)
    requires r in g.regions
  {
    g.regions[r].starting || forall q :: q in g.regions ==> !g.regions[q].starting
  }

  /** Which regions' requirements hold in the state. */
  type Opening = string -> bool

  /** Every exit asks for the requirement of the region it leaves. */
  ghost predicate LogicPath(g: Graph, path: Path, open: Opening) {
    && path.region in g.regions
    && match path
       case At(r) => LogicStart(g, r)
       case Via(before, r) =>
         && before.region in g.regions && open(before.region)
         && r in g.regions[before.region].connects && LogicPath(g, before, open)
  }

  ghost predicate LogicReached(g: Graph, r: string, open: Opening) {
    exists path: Path :: path.region == r && LogicPath(g, path, open)
  }

  /** A location's rule asks for its own requirement and its region's. */
  ghost predicate LocationOpen(g: Graph, r: string, own: bool, open: Opening) {
    LogicReached(g, r, open) && open(r) && own
  }

  ghost predicate SameRoots(g: Graph)
    requires g.Valid()
  {
    forall r :: r in g.regions ==> (Begins(g, r) <==> LogicStart(g, r))
  }

  /** The roots are the starting regions when every parentless region is flagged. */
  lemma FlaggedRoots(g: Graph)
    requires g.Valid() && (exists r :: r in g.regions && g.regions[r].starting)
    requires forall r :: r in g.regions && Begins(g, r) ==> g.regions[r].starting
    ensures SameRoots(g)
  {
  }

  /** The opening is what the clauses say. */
  ghost predicate SameOpening(g: Graph, open: Opening, val: Tracking) {
    forall r :: r in g.regions ==> open(r) == OwnMet(g, r, val)
  }

  lemma {:induction false} SamePath(g: Graph, path: Path, open: Opening, val: Tracking)
    requires g.Valid() && SameRoots(g) && SameOpening(g, open, val)
    ensures OpenPath(g, path, val) <==> LogicPath(g, path, open) && path.region in g.regions && open(path.region)
  {
    hide OwnMet;
    if path.Via? {
      SamePath(g, path.before, open, val);
    }
  }

  lemma SamePaths(g: Graph, r: string, open: Opening, val: Tracking)
    requires g.Valid() && r in g.regions && SameRoots(g) && SameOpening(g, open, val)
    ensures Reachable(g, r, val) <==> LogicReached(g, r, open) && open(r)
  {
    hide OpenPath, LogicPath, OwnMet;
    if Reachable(g, r, val) {
      var path: Path :| path.region == r && OpenPath(g, path, val);
      SamePath(g, path, open, val);
    }
    if LogicReached(g, r, open) && open(r) {
      var path: Path :| path.region == r && LogicPath(g, path, open);
      SamePath(g, path, open, val);
    }
  }

  /** The opening is at least what the clauses say. */
  ghost predicate WiderOpening(g: Graph, open: Opening, val: Tracking) {
    forall r :: r in g.regions && OwnMet(g, r, val) ==> open(r)
  }

  lemma {:induction false} WiderPath(g: Graph, path: Path, open: Opening, val: Tracking)
    requires g.Valid() && SameRoots(g) && WiderOpening(g, open, val) && OpenPath(g, path, val)
    ensures LogicPath(g, path, open) && path.region in g.regions && open(path.region)
  {
    hide OwnMet;
    if path.Via? {
      WiderPath(g, path.before, open, val);
    }
  }

  lemma WiderReach(g: Graph, r: string, open: Opening, val: Tracking)
    requires g.Valid() && SameRoots(g) && WiderOpening(g, open, val) && Reachable(g, r, val)
    ensures LogicReached(g, r, open) && open(r)
  {
    hide OpenPath, LogicPath, OwnMet;
    var path: Path :| path.region == r && OpenPath(g, path, val);
    WiderPath(g, path, open, val);
  }

  /** On every graph without cycles among the regions that are no roots, and whose roots
      are its starting regions, the rules of a region hold exactly when the logic opens a
      location there that asks for nothing itself, `open` being any way to tell in the
      logic which requirements hold that agrees with the clauses. */
  lemma PrereqsMatchLogic(g: Graph, r: string, open: Opening, val: Tracking)
    requires g.Valid() && CleanGraph(g) && !val("false") && r in g.regions
    requires Loopless(g) && SameRoots(g) && SameOpening(g, open, val)
    ensures r in Prereqs(g, g.names, map[]).0
    ensures RulesVal(Prereqs(g, g.names, map[]).0[r], val) <==> LocationOpen(g, r, true, open)
  {
    hide RulesVal, Reachable, LogicReached, Loopless;
    PrereqsExact(g, r, val);
    SamePaths(g, r, open, val);
  }

  /** Two regions that ask for nothing and only reach each other. */
  function Loop(a: string, b: string): Graph {
    Graph([a, b], map[a := Region([[]], [b], false), b := Region([[]], [a], false)])
  }

  /** No path leads into the loop, yet its rules are left out and the tracker shows
      everything there. */
  lemma CycleAlwaysOpen(a: string, b: string, val: Tracking)
    requires a != b
    ensures Loop(a, b).Valid() && CleanGraph(Loop(a, b)) && !Reachable(Loop(a, b), a, val)
    ensures AccessRules(Explore(Loop(a, b), a, map[], {}).0) == []
  {
    hide Explore, ExploreAll, AccessRules, Reachable, Inbound, Begins;
    var g := Loop(a, b);
    LoopBegins(a, b);
    EmptyClean();
    OnlyParent(g, a, b, a, b);
    OnlyParent(g, a, b, b, a);
    assert forall r :: r in g.regions ==> r == a || r == b;
    NoRootNoPath(g, a, val);
    TwoCycle(g, a, b);
  }

  lemma LoopBegins(a: string, b: string)
    requires a != b
    ensures !Begins(Loop(a, b), a) && !Begins(Loop(a, b), b)
  {
    var g := Loop(a, b);
    assert b in g.regions && a in g.regions[b].connects;
    assert a in g.regions && b in g.regions[a].connects;
  }

  lemma NoRootNoPath(g: Graph, r: string, val: Tracking)
    requires g.Valid() && forall q :: q in g.regions ==> !Begins(g, q)
    ensures !Reachable(g, r, val)
  {
    forall path: Path
      ensures !OpenPath(g, path, val)
    {
      NoOpenPath(g, path, val);
    }
  }

  lemma {:induction false} NoOpenPath(g: Graph, path: Path, val: Tracking)
    requires g.Valid() && forall q :: q in g.regions ==> !Begins(g, q)
    ensures !OpenPath(g, path, val)
  {
    if path.Via? {
      NoOpenPath(g, path.before, val);
    }
  }

  lemma OnlyParent(g: Graph, a: string, b: string, r: string, p: string)
    requires g.Valid() && g.names == [a, b] && p != r && ((r == a && p == b) || (r == b && p == a))
    requires g.regions[p].connects == [r] && g.regions[r].connects == [p]
    ensures Parents(g, r) == [p]
  {
    hide Inbound, Links;
    OneLink(p, r, r);
    OneLink(r, p, r);
    TwoNames(g, a, b, r);
  }

  lemma TwoNames(g: Graph, a: string, b: string, r: string)
    requires a in g.regions && b in g.regions
    ensures Inbound(g, [a, b], r) == Links(a, g.regions[a].connects, r) + Links(b, g.regions[b].connects, r)
  {
    hide Links;
    assert [a][..0] == [] && Inbound(g, [], r) == [];
    assert Inbound(g, [a], r) == Links(a, g.regions[a].connects, r);
    assert [a, b][..1] == [a];
  }

  lemma OneLink(name: string, target: string, r: string)
    ensures Links(name, [target], r) == if target == r then [name] else []
  {
    assert [target][..0] == [];
  }

  lemma TwoCycle(g: Graph, a: string, b: string)
    requires g.Valid() && a in g.regions && b in g.regions && a != b
    requires Parents(g, a) == [b] && Parents(g, b) == [a]
    requires !g.regions[a].starting && !g.regions[b].starting
    requires g.regions[a].own == [[]] && g.regions[b].own == [[]]
    ensures AccessRules(Explore(g, a, map[], {}).0) == []
  {
    hide Parents, Cross, AddAll;
    FreeProduct();
    assert [a][1..] == [] && [b][1..] == [];
    assert {} + {a} == {a};
    assert Explore(g, a, map[], {a} + {b}) == ([[]], map[]);
    assert ExploreAll(g, [a], map[], {a} + {b}, []) == ([[]], map[]);
    assert Explore(g, b, map[], {a}).0 == [[]];
    assert ExploreAll(g, [b], map[], {a}, []).0 == [[]];
    assert Explore(g, a, map[], {}).0 == [[]];
  }

  lemma FreeProduct()
    ensures AddAll([], [[]]) == [[]] && AddAll([], Cross([[]], [[]])) == [[]]
  {
    var none: Dnf := [[]];
    assert none[1..] == [];
    assert AddAll([], none) == AddAll([] + [none[0]], none[1..]);
    assert CrossOne([], none) == none;
    assert Cross(none, none) == CrossOne([], none) + Cross([], none);
  }
}
