/** Talkatoo's orders (talkatoo_order.py): a randomised greedy builder over a reachability
    oracle, and its projection onto kingdoms. */
module TalkatooOrder {
  import opened Text

  // ---------------------------------------------------------------- the oracle

  /** Whether a location can be reached once these locations have been collected. */
  type Reach = (multiset<string>, string) -> bool

  /** Collecting more never puts a location out of reach. */
  ghost predicate Monotone(reach: Reach) {
    forall s: multiset<string>, t: multiset<string>, l: string :: s <= t && reach(s, l) ==> reach(t, l)
  }

  /** The pair of callbacks over one state. */
  class Oracle {
    const reach: Reach
    var collected: multiset<string>

    constructor (reach: Reach, start: multiset<string>)
      ensures this.reach == reach && collected == start
    {
      this.reach := reach;
      collected := start;
    }

    predicate CanReach(loc: string)
      reads this
    {
      reach(collected, loc)
    }

    method Collect(loc: string)
      modifies this
      ensures collected == old(collected) + multiset{loc}
    {
      collected := collected + multiset{loc};
    }
  }

  // ---------------------------------------------------------------- the builder

  function Reachable(reach: Reach, s: multiset<string>, locs: seq<string>): (r: seq<string>)
    ensures forall l :: l in r <==> l in locs && reach(s, l)
  {
    if locs == [] then []
    else (if reach(s, locs[0]) then [locs[0]] else []) + Reachable(reach, s, locs[1..])
  }

  /** `remaining.remove(x)`: the first occurrence goes. */
  function Without(locs: seq<string>, x: string): (r: seq<string>)
    requires x in locs
    ensures |r| == |locs| - 1
    ensures multiset(r) == multiset(locs) - multiset{x}
  {
    assert locs == [locs[0]] + locs[1..];
    if locs[0] == x then locs[1..] else [locs[0]] + Without(locs[1..], x)
  }

  /** `rng.choice`: the next random number picks an entry; any entry can come up. */
  function Choice(options: seq<string>, picks: seq<nat>): (x: string)
    requires options != []
    ensures x in options
  {
    options[(if picks == [] then 0 else picks[0]) % |options|]
  }

  function Later(picks: seq<nat>): seq<nat> {
    if picks == [] then [] else picks[1..]
  }

  /** The order that the random numbers `picks` lead to from state `s`. */
  function Greedy(reach: Reach, locs: seq<string>, picks: seq<nat>, s: multiset<string>): Option<seq<string>>
    decreases |locs|
  {
    if locs == [] then Some([])
    else
      var options := Sorted(Reachable(reach, s, locs));
      if options == [] then None
      else
        var pick := Choice(options, picks);
        SortedTerms(Reachable(reach, s, locs));
        match Greedy(reach, Without(locs, pick), Later(picks), s + multiset{pick})
        case None => None
        case Some(rest) => Some([pick] + rest)
  }

  method FindSafePermutation(locs: seq<string>, picks: seq<nat>, oracle: Oracle) returns (r: Option<seq<string>>)
    modifies oracle
    ensures r == Greedy(oracle.reach, locs, picks, old(oracle.collected))
    ensures r.Some? ==> oracle.collected == old(oracle.collected) + multiset(r.value)
  {
    hide Greedy, Sorted, Reachable, Without, Choice;
    var remaining, order, rng := locs, [], picks;
    BehindNone(Greedy(oracle.reach, locs, picks, oracle.collected));
    while remaining != []
      invariant oracle.collected == old(oracle.collected) + multiset(order)
      invariant Greedy(oracle.reach, locs, picks, old(oracle.collected)) ==
                Behind(order, Greedy(oracle.reach, remaining, rng, oracle.collected))
      decreases |remaining|
    {
      var reachable := Sorted(Reachable(oracle.reach, oracle.collected, remaining));
      GreedyStep(oracle.reach, remaining, rng, oracle.collected);
      if reachable == [] {
        return None;
      }
      var pick := Choice(reachable, rng);
      ghost var after := oracle.collected + multiset{pick};
      BehindOne(order, pick, Greedy(oracle.reach, Without(remaining, pick), Later(rng), after));
      order := order + [pick];
      remaining := Without(remaining, pick);
      rng := Later(rng);
      oracle.Collect(pick);
    }
    GreedyEnd(oracle.reach, rng, oracle.collected, order);
    return Some(order);
  }

  function Behind(done: seq<string>, r: Option<seq<string>>): Option<seq<string>> {
    match r
    case None => None
    case Some(rest) => Some(done + rest)
  }

  lemma GreedyStep(reach: Reach, locs: seq<string>, picks: seq<nat>, s: multiset<string>)
    requires locs != []
    ensures var options := Sorted(Reachable(reach, s, locs));
            if options == [] then Greedy(reach, locs, picks, s) == None
            else
              var pick := Choice(options, picks);
              && pick in locs
              && Greedy(reach, locs, picks, s) ==
                 Behind([pick], Greedy(reach, Without(locs, pick), Later(picks), s + multiset{pick}))
  {
    hide Sorted, Reachable, Choice, Without;
    SortedTerms(Reachable(reach, s, locs));
  }

  lemma GreedyEnd(reach: Reach, picks: seq<nat>, s: multiset<string>, done: seq<string>)
    ensures Behind(done, Greedy(reach, [], picks, s)) == Some(done)
  {
    assert done + [] == done;
  }

  lemma BehindNone(r: Option<seq<string>>)
    ensures Behind([], r) == r
  {
    if r.Some? {
      assert [] + r.value == r.value;
    }
  }

  lemma BehindOne(done: seq<string>, x: string, r: Option<seq<string>>)
    ensures Behind(done, Behind([x], r)) == Behind(done + [x], r)
  {
    if r.Some? {
      assert done + ([x] + r.value) == done + [x] + r.value;
    }
  }

  // -------------------------------------------------------------- what it finds

  /** Each entry is reachable once those before it are collected. */
  predicate Safe(reach: Reach, order: seq<string>, s: multiset<string>) {
    order == [] || (reach(s, order[0]) && Safe(reach, order[1..], s + multiset{order[0]}))
  }

  /** A safe order of exactly these locations. */
  predicate SafeOrder(reach: Reach, locs: seq<string>, order: seq<string>, s: multiset<string>) {
    multiset(order) == multiset(locs) && Safe(reach, order, s)
  }

  lemma {:induction false} MoreIsSafe(reach: Reach, order: seq<string>, s: multiset<string>, t: multiset<string>)
    requires Monotone(reach) && s <= t && Safe(reach, order, s)
    ensures Safe(reach, order, t)
  {
    if order != [] {
      MoreIsSafe(reach, order[1..], s + multiset{order[0]}, t + multiset{order[0]});
    }
  }

  /** A safe order stays safe when one of its reachable entries is taken first. */
  lemma {:induction false} TakeFirst(reach: Reach, order: seq<string>, x: string, s: multiset<string>)
    requires Monotone(reach) && Safe(reach, order, s) && x in order
    ensures Safe(reach, Without(order, x), s + multiset{x})
  {
    if order[0] != x {
      hide Without, Safe;
      var y, rest := order[0], order[1..];
      SafeHead(reach, order, s);
      WithoutHead(order, x);
      TakeFirst(reach, rest, x, s + multiset{y});
      Swapped(s, x, y);
      SafeCons(reach, y, Without(rest, x), s + multiset{x});
    }
  }

  lemma SafeHead(reach: Reach, order: seq<string>, s: multiset<string>)
    requires order != [] && Safe(reach, order, s)
    ensures reach(s, order[0]) && Safe(reach, order[1..], s + multiset{order[0]})
  {
  }

  lemma NothingSafe(reach: Reach, s: multiset<string>)
    ensures Safe(reach, [], s)
  {
  }

  lemma SafeCons(reach: Reach, y: string, rest: seq<string>, s: multiset<string>)
    requires reach(s, y) && Safe(reach, rest, s + multiset{y})
    ensures Safe(reach, [y] + rest, s)
  {
    assert ([y] + rest)[1..] == rest;
  }

  lemma WithoutHead(order: seq<string>, x: string)
    requires x in order && order[0] != x
    ensures x in order[1..] && Without(order, x) == [order[0]] + Without(order[1..], x)
  {
    assert order == [order[0]] + order[1..];
  }

  lemma Swapped(s: multiset<string>, x: string, y: string)
    ensures s + multiset{y} + multiset{x} == s + multiset{x} + multiset{y}
    ensures s <= s + multiset{x}
  {
  }

  /** What comes back is a safe order, whatever the oracle. */
  lemma {:induction false} GreedySound(reach: Reach, locs: seq<string>, picks: seq<nat>, s: multiset<string>)
    ensures Greedy(reach, locs, picks, s).Some? ==> SafeOrder(reach, locs, Greedy(reach, locs, picks, s).value, s)
    decreases |locs|
  {
    if locs != [] {
      hide Sorted, Reachable, Choice, Without, Safe;
      var options := Sorted(Reachable(reach, s, locs));
      SortedTerms(Reachable(reach, s, locs));
      NothingSafe(reach, s);
      if options != [] {
        var pick := Choice(options, picks);
        GreedySound(reach, Without(locs, pick), Later(picks), s + multiset{pick});
        var rest := Greedy(reach, Without(locs, pick), Later(picks), s + multiset{pick});
        if rest.Some? {
          PutBack(locs, pick, rest.value);
          SafeCons(reach, pick, rest.value, s);
        }
      }
    }
  }

  lemma PutBack(locs: seq<string>, x: string, rest: seq<string>)
    requires x in locs && multiset(rest) == multiset(Without(locs, x))
    ensures multiset([x] + rest) == multiset(locs)
  {
    assert x in multiset(locs);
    assert multiset([x] + rest) == multiset{x} + multiset(rest);
  }

  /** The builder fails only when there is no safe order at all. */
  lemma {:induction false} GreedyComplete(reach: Reach, locs: seq<string>, picks: seq<nat>, s: multiset<string>,
                                          order: seq<string>)
    requires Monotone(reach) && SafeOrder(reach, locs, order, s)
    ensures Greedy(reach, locs, picks, s).Some?
    decreases |locs|
  {
    if locs != [] {
      SameSize(order, locs);
      assert order[0] in multiset(order);
      assert order[0] in Reachable(reach, s, locs);
      SortedTerms(Reachable(reach, s, locs));
      var options := Sorted(Reachable(reach, s, locs));
      assert options != [];
      var pick := Choice(options, picks);
      assert pick in multiset(locs);
      TakeFirst(reach, order, pick, s);
      GreedyComplete(reach, Without(locs, pick), Later(picks), s + multiset{pick}, Without(order, pick));
    }
  }

  lemma SameSize(a: seq<string>, b: seq<string>)
    requires multiset(a) == multiset(b)
    ensures |a| == |b|
  {
    assert |multiset(a)| == |a| && |multiset(b)| == |b|;
  }

  ghost predicate HasSafeOrder(reach: Reach, locs: seq<string>, s: multiset<string>) {
    exists order :: SafeOrder(reach, locs, order, s)
  }

  /** For every monotone oracle and every sequence of random picks, an order comes back
      exactly when a safe one exists, and it is safe. */
  lemma GreedyExact(reach: Reach, locs: seq<string>, picks: seq<nat>, s: multiset<string>)
    requires Monotone(reach)
    ensures Greedy(reach, locs, picks, s).Some? <==> HasSafeOrder(reach, locs, s)
    ensures Greedy(reach, locs, picks, s).Some? ==> SafeOrder(reach, locs, Greedy(reach, locs, picks, s).value, s)
  {
    GreedySound(reach, locs, picks, s);
    if order :| SafeOrder(reach, locs, order, s) {
      GreedyComplete(reach, locs, picks, s, order);
    }
  }

  /** Every safe order is the outcome of some random picks. */
  lemma {:induction false} EveryOrderPossible(reach: Reach, locs: seq<string>, order: seq<string>, s: multiset<string>)
    returns (picks: seq<nat>)
    requires SafeOrder(reach, locs, order, s)
    ensures Greedy(reach, locs, picks, s) == Some(order)
    decreases |locs|
  {
    SameSize(order, locs);
    picks := [];
    if locs != [] {
      hide Greedy, Sorted, Reachable, Without, Choice, SafeOrder;
      SafeTail(reach, locs, order, s);
      var x := order[0];
      SortedTerms(Reachable(reach, s, locs));
      var options := Sorted(Reachable(reach, s, locs));
      assert x in options;
      var rest := EveryOrderPossible(reach, Without(locs, x), order[1..], s + multiset{x});
      picks := PickFirst(options, x, rest);
      GreedyStep(reach, locs, picks, s);
    }
  }

  lemma SafeTail(reach: Reach, locs: seq<string>, order: seq<string>, s: multiset<string>)
    requires SafeOrder(reach, locs, order, s) && order != []
    ensures order[0] in locs && reach(s, order[0]) && [order[0]] + order[1..] == order
    ensures SafeOrder(reach, Without(locs, order[0]), order[1..], s + multiset{order[0]})
  {
    hide Without;
    var x := order[0];
    assert order == [x] + order[1..] && x in multiset(order);
  }

  lemma PickFirst(options: seq<string>, x: string, rest: seq<nat>) returns (picks: seq<nat>)
    requires x in options
    ensures Choice(options, picks) == x && Later(picks) == rest
  {
    var i: nat :| i < |options| && options[i] == x;
    picks := [i] + rest;
    assert i % |options| == i;
  }

  lemma {:induction false} ReachableCount(reach: Reach, s: multiset<string>, locs: seq<string>, x: string)
    ensures multiset(Reachable(reach, s, locs))[x] == if reach(s, x) then multiset(locs)[x] else 0
  {
    if locs != [] {
      assert locs == [locs[0]] + locs[1..];
      ReachableCount(reach, s, locs[1..], x);
    }
  }

  /** The options are sorted before one is picked, so the order in which the locations are
      listed makes no difference. */
  lemma {:induction false} ListingIrrelevant(reach: Reach, locs: seq<string>, other: seq<string>, picks: seq<nat>,
                                             s: multiset<string>)
    requires multiset(locs) == multiset(other)
    ensures Greedy(reach, locs, picks, s) == Greedy(reach, other, picks, s)
    decreases |locs|
  {
    hide Greedy, Sorted, Reachable, Choice, Without;
    assert |locs| == |multiset(locs)| == |multiset(other)| == |other|;
    if locs == [] {
      assert other == [];
    } else {
      var a, b := Reachable(reach, s, locs), Reachable(reach, s, other);
      forall x
        ensures multiset(a)[x] == multiset(b)[x]
      {
        ReachableCount(reach, s, locs, x);
        ReachableCount(reach, s, other, x);
      }
      assert multiset(a) == multiset(b);
      SortedSame(a, b);
      GreedyStep(reach, locs, picks, s);
      GreedyStep(reach, other, picks, s);
      if Sorted(a) != [] {
        var pick := Choice(Sorted(a), picks);
        ListingIrrelevant(reach, Without(locs, pick), Without(other, pick), Later(picks), s + multiset{pick});
      }
    }
  }

  // ------------------------------------------------------------- window safety

  /** Some entry among the next `window` is reachable. */
  predicate WindowOpen(reach: Reach, order: seq<string>, window: nat, s: multiset<string>) {
    exists i :: 0 <= i < window && i < |order| && reach(s, order[i])
  }

  predicate WindowSafe(reach: Reach, order: seq<string>, window: nat, s: multiset<string>) {
    order == [] ||
    (WindowOpen(reach, order, window, s) && WindowSafe(reach, order[1..], window, s + multiset{order[0]}))
  }

  method IsSphereSafe(order: seq<string>, window: nat, oracle: Oracle) returns (safe: bool)
    modifies oracle
    ensures safe == WindowSafe(oracle.reach, order, window, old(oracle.collected))
  {
    var i := 0;
    assert order[0..] == order;
    while i < |order|
      invariant 0 <= i <= |order|
      invariant WindowSafe(oracle.reach, order, window, old(oracle.collected)) ==
                WindowSafe(oracle.reach, order[i..], window, oracle.collected)
    {
      var upcoming := order[i..];
      assert upcoming[0] == order[i] && upcoming[1..] == order[i + 1..];
      var open := AnyReachable(upcoming, window, oracle);
      if !open {
        return false;
      }
      oracle.Collect(order[i]);
      i := i + 1;
    }
    return true;
  }

  method AnyReachable(upcoming: seq<string>, window: nat, oracle: Oracle) returns (open: bool)
    ensures open == WindowOpen(oracle.reach, upcoming, window, oracle.collected)
  {
    var k := 0;
    while k < window && k < |upcoming|
      invariant 0 <= k <= window
      invariant forall i :: 0 <= i < k && i < |upcoming| ==> !oracle.reach(oracle.collected, upcoming[i])
    {
      if oracle.CanReach(upcoming[k]) {
        return true;
      }
      k := k + 1;
    }
    return false;
  }

  /** With what comes before `i` collected, something among what comes next is reachable. */
  predicate OpenAt(reach: Reach, order: seq<string>, window: nat, s: multiset<string>, i: nat)
    requires i <= |order|
  {
    exists j :: i <= j < i + window && j < |order| && reach(s + multiset(order[..i]), order[j])
  }

  lemma OpenFirst(reach: Reach, order: seq<string>, window: nat, s: multiset<string>)
    ensures OpenAt(reach, order, window, s, 0) <==> WindowOpen(reach, order, window, s)
  {
    assert s + multiset(order[..0]) == s;
  }

  lemma OpenLater(reach: Reach, order: seq<string>, window: nat, s: multiset<string>, i: nat)
    requires i < |order|
    ensures OpenAt(reach, order, window, s, i + 1) <==>
            OpenAt(reach, order[1..], window, s + multiset{order[0]}, i)
  {
    var more := order[1..];
    assert order[..i + 1] == [order[0]] + more[..i];
    assert s + multiset{order[0]} + multiset(more[..i]) == s + multiset(order[..i + 1]);
    forall j | i < j < |order|
      ensures order[j] == more[j - 1]
    {
    }
    assert forall j :: i <= j < |more| ==> more[j] == order[j + 1];
  }

  /** The check asks that this holds at every point of the order. */
  lemma {:induction false} WindowMeans(reach: Reach, order: seq<string>, window: nat, s: multiset<string>)
    ensures WindowSafe(reach, order, window, s) <==>
            forall i :: 0 <= i < |order| ==> OpenAt(reach, order, window, s, i)
  {
    hide OpenAt, WindowOpen;
    if order != [] {
      var more, t := order[1..], s + multiset{order[0]};
      WindowMeans(reach, more, window, t);
      OpenFirst(reach, order, window, s);
      forall i | 0 <= i < |more|
        ensures OpenAt(reach, more, window, t, i) <==> OpenAt(reach, order, window, s, i + 1)
      {
        OpenLater(reach, order, window, s, i);
      }
      forall i | 0 < i < |order|
        ensures OpenAt(reach, order, window, s, i) <==> OpenAt(reach, more, window, t, i - 1)
      {
        OpenLater(reach, order, window, s, i - 1);
      }
    }
  }

  /** A safe order passes the check for every window of at least 1; with window 1 the check
      accepts nothing else. */
  lemma {:induction false} SafeIsWindowSafe(reach: Reach, order: seq<string>, window: nat, s: multiset<string>)
    requires window >= 1
    ensures Safe(reach, order, s) ==> WindowSafe(reach, order, window, s)
    ensures window == 1 && WindowSafe(reach, order, window, s) ==> Safe(reach, order, s)
  {
    if order != [] {
      SafeIsWindowSafe(reach, order[1..], window, s + multiset{order[0]});
    }
  }

  // ----------------------------------------------------------- pools by kingdom

  predicate IsPrefixChar(c: char) {
    'a' <= c <= 'z' || 'A' <= c <= 'Z' || c == '\'' || c == ' '
  }

  /** `_split_kingdom_prefix` on names without line breaks. */
  function SplitPrefix(name: string): Option<(string, string)> {
    var k := IndexOf(name, ':');
    if 0 < k < |name| - 1 && forall i :: 0 <= i < k ==> IsPrefixChar(name[i])
    then Some((Strip(name[..k]), Strip(name[k + 1..])))
    else None
  }

  /** A filled location: its name, and whether it is flagged progression or holds the
      victory item. */
  datatype Filled = Filled(name: string, progression: bool, victory: bool)

  /** The kingdom whose pool the location joins. */
  function PoolKingdom(l: Filled): Option<string> {
    if l.progression || l.victory || SplitPrefix(l.name).None? || SplitPrefix(l.name).value.0 == "Capture" then None
    else Some(SplitPrefix(l.name).value.0)
  }

  /** The name is a kingdom, made of letters, apostrophes and blanks, a colon and more. */
  predicate Written(name: string, kingdom: string, rest: string) {
    && name == kingdom + ":" + rest && kingdom != "" && rest != ""
    && forall c :: c in kingdom ==> 'a' <= c <= 'z' || 'A' <= c <= 'Z' || c == '\'' || c == ' '
  }

  lemma WrittenSplits(name: string, kingdom: string, rest: string)
    requires Written(name, kingdom, rest)
    ensures SplitPrefix(name) == Some((Strip(kingdom), Strip(rest)))
  {
    hide Strip;
    assert name == kingdom + [':'] + rest;
    IndexOfAt(kingdom, ':', rest);
    assert name[..|kingdom|] == kingdom && name[|kingdom| + 1..] == rest;
    assert forall i :: 0 <= i < |kingdom| ==> kingdom[i] in kingdom;
  }

  lemma SplitIsWritten(name: string)
    requires SplitPrefix(name).Some?
    ensures exists kingdom, rest ::
              Written(name, kingdom, rest) && SplitPrefix(name) == Some((Strip(kingdom), Strip(rest)))
  {
    hide Strip;
    var k := IndexOf(name, ':');
    assert name == name[..k] + [':'] + name[k + 1..];
    assert Written(name, name[..k], name[k + 1..]);
  }

  /** A location joins the pool of its kingdom unless it is progression, the victory, a
      capture, or its name names no kingdom. */
  lemma PoolExactly(l: Filled, kingdom: string)
    ensures PoolKingdom(l) == Some(kingdom) <==>
            && !l.progression && !l.victory && kingdom != "Capture"
            && exists k, rest :: Written(l.name, k, rest) && Strip(k) == kingdom
  {
    hide Strip, Written;
    if SplitPrefix(l.name).Some? {
      SplitIsWritten(l.name);
    }
    forall k, rest | Written(l.name, k, rest)
      ensures SplitPrefix(l.name) == Some((Strip(k), Strip(rest)))
    {
      WrittenSplits(l.name, k, rest);
    }
  }

  /** The pools hold the names of these locations and of no others. */
  lemma {:induction false} PoolHolds(locs: seq<Filled>, kingdom: string, name: string)
    ensures name in PoolOf(locs, kingdom) <==>
            exists l :: l in locs && l.name == name && PoolKingdom(l) == Some(kingdom)
    ensures name in Pool(locs) <==> exists l :: l in locs && l.name == name && PoolKingdom(l).Some?
  {
    hide PoolKingdom;
    if locs != [] {
      var n := |locs| - 1;
      assert locs == locs[..n] + [locs[n]];
      PoolHolds(locs[..n], kingdom, name);
    }
  }

  /** Names of the pool locations of one kingdom, in table order. */
  function PoolOf(locs: seq<Filled>, kingdom: string): seq<string> {
    if locs == [] then []
    else
      var n := |locs| - 1;
      PoolOf(locs[..n], kingdom) + if PoolKingdom(locs[n]) == Some(kingdom) then [locs[n].name] else []
  }

  /** All pool locations, in table order. */
  /** A pool keeps the order of the table. */
  lemma {:induction false} PoolInOrder(a: seq<Filled>, b: seq<Filled>, kingdom: string)
    ensures PoolOf(a + b, kingdom) == PoolOf(a, kingdom) + PoolOf(b, kingdom)
  {
    hide PoolKingdom;
    if b == [] {
      assert a + b == a;
    } else {
      var n := |b| - 1;
      assert (a + b)[..|a + b| - 1] == a + b[..n] && (a + b)[|a + b| - 1] == b[n];
      PoolInOrder(a, b[..n], kingdom);
    }
  }

  function Pool(locs: seq<Filled>): seq<string> {
    if locs == [] then []
    else
      var n := |locs| - 1;
      Pool(locs[..n]) + if PoolKingdom(locs[n]).Some? then [locs[n].name] else []
  }

  lemma PoolNext(locs: seq<Filled>, i: nat)
    requires i < |locs|
    ensures forall k :: PoolOf(locs[..i + 1], k) ==
                        PoolOf(locs[..i], k) + if PoolKingdom(locs[i]) == Some(k) then [locs[i].name] else []
  {
    assert locs[..i + 1][..i] == locs[..i];
  }

  /** `pools` holds the nonempty pools of the locations seen, `kingdoms` their names. */
  ghost predicate Collected(kingdoms: seq<string>, pools: map<string, seq<string>>, locs: seq<Filled>) {
    && (forall k :: k in kingdoms <==> k in pools) && NoRepeats(kingdoms)
    && (forall k :: k in pools ==> pools[k] == PoolOf(locs, k) != [])
    && (forall k :: PoolOf(locs, k) != [] ==> k in pools)
  }

  lemma CollectedNext(kingdoms: seq<string>, pools: map<string, seq<string>>, locs: seq<Filled>, i: nat)
    requires i < |locs| && Collected(kingdoms, pools, locs[..i])
    ensures match PoolKingdom(locs[i])
            case None => Collected(kingdoms, pools, locs[..i + 1])
            case Some(k) =>
              if k in pools then Collected(kingdoms, pools[k := pools[k] + [locs[i].name]], locs[..i + 1])
              else Collected(kingdoms + [k], pools[k := [locs[i].name]], locs[..i + 1])
  {
    hide PoolOf, PoolKingdom;
    PoolNext(locs, i);
    if PoolKingdom(locs[i]).Some? && PoolKingdom(locs[i]).value !in pools {
      var k := PoolKingdom(locs[i]).value;
      assert PoolOf(locs[..i], k) == [];
      assert [] + [locs[i].name] == [locs[i].name];
    }
  }

  /** `collect_pool_per_kingdom`: kingdoms in the order they first appear, and their pools. */
  method CollectPools(locs: seq<Filled>) returns (kingdoms: seq<string>, pools: map<string, seq<string>>)
    ensures Collected(kingdoms, pools, locs)
  {
    hide Collected;
    kingdoms, pools := [], map[];
    var i := 0;
    NothingCollected(locs);
    while i < |locs|
      invariant 0 <= i <= |locs|
      invariant Collected(kingdoms, pools, locs[..i])
    {
      CollectedNext(kingdoms, pools, locs, i);
      var kingdom := PoolKingdom(locs[i]);
      if kingdom.Some? {
        var k := kingdom.value;
        if k in pools {
          pools := pools[k := pools[k] + [locs[i].name]];
        } else {
          kingdoms := kingdoms + [k];
          pools := pools[k := [locs[i].name]];
        }
      }
      i := i + 1;
    }
    assert locs[..i] == locs;
  }

  lemma NothingCollected(locs: seq<Filled>)
    ensures Collected([], map[], locs[..0])
  {
    assert locs[..0] == [];
  }

  // ------------------------------------------------------------- the projection

  function KingdomOf(name: string): string {
    match SplitPrefix(name)
    case None => ""
    case Some((k, _)) => k
  }

  function ShineOf(name: string): string {
    match SplitPrefix(name)
    case None => ""
    case Some((_, shine)) => shine
  }

  /** What stands before the colon is the kingdom, what stands behind it the moon. */
  lemma NameParts(name: string, kingdom: string, rest: string)
    requires Written(name, kingdom, rest)
    ensures KingdomOf(name) == Strip(kingdom) && ShineOf(name) == Strip(rest)
  {
    hide Strip;
    WrittenSplits(name, kingdom, rest);
  }

  /** The entries of one kingdom, in the global order. */
  function Onto(order: seq<string>, kingdom: string): (r: seq<string>)
    ensures forall l :: l in r <==> l in order && KingdomOf(l) == kingdom
  {
    if order == [] then []
    else
      var n := |order| - 1;
      assert order == order[..n] + [order[n]];
      Onto(order[..n], kingdom) + if KingdomOf(order[n]) == kingdom then [order[n]] else []
  }

  function Shines(names: seq<string>): (r: seq<string>)
    ensures |r| == |names|
    ensures forall i :: 0 <= i < |r| ==> r[i] == ShineOf(names[i])
  {
    seq(|names|, i requires 0 <= i < |names| => ShineOf(names[i]))
  }

  method Project(order: seq<string>, kingdoms: set<string>) returns (lists: map<string, seq<string>>)
    requires forall l :: l in order ==> SplitPrefix(l).Some? && KingdomOf(l) in kingdoms
    ensures lists.Keys == kingdoms
    ensures forall k :: k in lists ==> lists[k] == Shines(Onto(order, k))
  {
    hide Onto, Shines, KingdomOf, ShineOf;
    lists := map k | k in kingdoms :: [];
    var i := 0;
    OntoNothing(order);
    while i < |order|
      invariant 0 <= i <= |order| && lists.Keys == kingdoms
      invariant forall k :: k in lists ==> lists[k] == Shines(Onto(order[..i], k))
    {
      OntoNext(order, i);
      SplitNames(order[i]);
      var (kingdom, shine) := SplitPrefix(order[i]).value;
      lists := lists[kingdom := lists[kingdom] + [shine]];
      i := i + 1;
    }
    assert order[..i] == order;
  }

  lemma OntoNothing(order: seq<string>)
    ensures forall k :: Shines(Onto(order[..0], k)) == []
  {
    assert order[..0] == [];
  }

  lemma SplitNames(name: string)
    ensures SplitPrefix(name).Some? ==> SplitPrefix(name).value == (KingdomOf(name), ShineOf(name))
  {
  }

  lemma OntoNext(order: seq<string>, i: nat)
    requires i < |order|
    ensures forall k :: Shines(Onto(order[..i + 1], k)) ==
                        Shines(Onto(order[..i], k)) + if KingdomOf(order[i]) == k then [ShineOf(order[i])] else []
  {
    assert order[..i + 1][..i] == order[..i];
  }

  /** Counting an entry in its kingdom's list counts it in the order: the lists partition
      the pool. */
  lemma {:induction false} OntoPartitions(order: seq<string>, l: string)
    ensures multiset(Onto(order, KingdomOf(l)))[l] == multiset(order)[l]
  {
    if order != [] {
      var n := |order| - 1;
      assert order == order[..n] + [order[n]];
      OntoPartitions(order[..n], l);
    }
  }

  /** Position of the first entry not yet collected, or the length. */
  function FirstLeft(list: seq<string>, got: set<string>): (i: nat)
    ensures i <= |list|
    ensures forall j :: 0 <= j < i ==> list[j] in got
    ensures i < |list| ==> list[i] !in got
  {
    if list == [] || list[0] !in got then 0
    else
      var i := FirstLeft(list[1..], got);
      assert forall j :: 1 <= j < 1 + i ==> list[j] == list[1..][j - 1];
      1 + i
  }

  lemma {:induction false} FirstLeftAppend(a: seq<string>, b: seq<string>, got: set<string>)
    ensures FirstLeft(a, got) < |a| ==> FirstLeft(a + b, got) == FirstLeft(a, got)
    ensures FirstLeft(a, got) == |a| ==> FirstLeft(a + b, got) == |a| + FirstLeft(b, got)
  {
    if a == [] {
      assert a + b == b;
    } else {
      assert (a + b)[1..] == a[1..] + b;
      FirstLeftAppend(a[1..], b, got);
    }
  }

  /** The earliest uncollected entry of the order is the first uncollected one of its own
      kingdom's list. */
  lemma {:induction false} FirstOfItsKingdom(order: seq<string>, got: set<string>)
    requires FirstLeft(order, got) < |order|
    ensures var x := order[FirstLeft(order, got)];
            var list := Onto(order, KingdomOf(x));
            FirstLeft(list, got) < |list| && list[FirstLeft(list, got)] == x
  {
    var n := |order| - 1;
    var front, last := order[..n], order[n];
    assert order == front + [last];
    FirstLeftAppend(front, [last], got);
    if FirstLeft(front, got) < n {
      FirstOfItsKingdom(front, got);
      var x := front[FirstLeft(front, got)];
      var part := Onto(front, KingdomOf(x));
      FirstLeftAppend(part, if KingdomOf(last) == KingdomOf(x) then [last] else [], got);
    } else {
      var part := Onto(front, KingdomOf(last));
      AllGot(part, front, got);
      FirstLeftAppend(part, [last], got);
    }
  }

  lemma AllGot(part: seq<string>, whole: seq<string>, got: set<string>)
    requires (forall l :: l in part ==> l in whole) && FirstLeft(whole, got) == |whole|
    ensures FirstLeft(part, got) == |part|
  {
    forall x | x in part
      ensures x in got
    {
      assert x in whole;
    }
  }

  lemma {:induction false} SafeAt(reach: Reach, order: seq<string>, s: multiset<string>, i: nat)
    requires Safe(reach, order, s) && i < |order|
    ensures reach(s + multiset(order[..i]), order[i])
  {
    if i == 0 {
      assert s + multiset(order[..0]) == s;
    } else {
      SafeAt(reach, order[1..], s + multiset{order[0]}, i - 1);
      assert order[..i] == [order[0]] + order[1..][..i - 1];
      assert s + multiset{order[0]} + multiset(order[1..][..i - 1]) == s + multiset(order[..i]);
    }
  }

  /** Distinct entries that have all been collected are part of what was collected. */
  lemma {:induction false} PrefixCollected(order: seq<string>, i: nat, got: set<string>)
    requires NoRepeats(order) && i <= |order| && forall j :: 0 <= j < i ==> order[j] in got
    ensures multiset(order[..i]) <= multiset(got)
  {
    var part := order[..i];
    forall x
      ensures multiset(part)[x] <= multiset(got)[x]
    {
      OnceInPart(part, x);
    }
  }

  lemma {:induction false} OnceInPart(part: seq<string>, x: string)
    requires NoRepeats(part)
    ensures multiset(part)[x] <= 1 && (multiset(part)[x] == 1 ==> x in part)
  {
    if part != [] {
      var n := |part| - 1;
      assert part == part[..n] + [part[n]];
      OnceInPart(part[..n], x);
    }
  }

  /** The window Talkatoo offers in one kingdom: the next entries not yet collected. */
  predicate OffersReachable(reach: Reach, list: seq<string>, got: set<string>, s: multiset<string>) {
    FirstLeft(list, got) < |list| && reach(s, list[FirstLeft(list, got)])
  }

  /** No deadlock: in every run, whichever pool moons have been collected, as long as one is
      left, the earliest one left in the global order is reachable and stands first among
      those left of its own kingdom. */
  lemma NeverDeadlocks(reach: Reach, locs: seq<string>, picks: seq<nat>, start: multiset<string>, got: set<string>)
    requires Monotone(reach) && NoRepeats(locs) && Greedy(reach, locs, picks, start).Some?
    requires exists l :: l in locs && l !in got
    ensures var order := Greedy(reach, locs, picks, start).value;
            && FirstLeft(order, got) < |order|
            && OffersReachable(reach, Onto(order, KingdomOf(order[FirstLeft(order, got)])), got, start + multiset(got))
  {
    var order := Greedy(reach, locs, picks, start).value;
    GreedySound(reach, locs, picks, start);
    SameRepeats(locs, order);
    var l :| l in locs && l !in got;
    assert l in multiset(locs) && l in order;
    var i := FirstLeft(order, got);
    SafeAt(reach, order, start, i);
    PrefixCollected(order, i, got);
    assert start + multiset(order[..i]) <= start + multiset(got);
    FirstOfItsKingdom(order, got);
  }

  lemma SameRepeats(a: seq<string>, b: seq<string>)
    requires multiset(a) == multiset(b) && NoRepeats(a)
    ensures NoRepeats(b)
  {
    forall i, j | 0 <= i < j < |b|
      ensures b[i] != b[j]
    {
      OnceInPart(a, b[i]);
      if b[i] == b[j] {
        TwiceIn(b, i, j);
      }
    }
  }

  lemma TwiceIn(b: seq<string>, i: nat, j: nat)
    requires i < j < |b| && b[i] == b[j]
    ensures multiset(b)[b[i]] >= 2
  {
    assert b == b[..j] + [b[j]] + b[j + 1..];
    assert b[i] in b[..j];
    assert multiset(b) == multiset(b[..j]) + multiset{b[j]} + multiset(b[j + 1..]);
  }

  // ------------------------------------------------------------- the whole build

  /** Every pool, kingdom after kingdom. */
  function Flat(kingdoms: seq<string>, pools: map<string, seq<string>>): seq<string>
    requires forall k :: k in kingdoms ==> k in pools
  {
    if kingdoms == [] then []
    else
      var n := |kingdoms| - 1;
      assert kingdoms == kingdoms[..n] + [kingdoms[n]];
      Flat(kingdoms[..n], pools) + pools[kingdoms[n]]
  }

  lemma {:induction false} PoolCount(locs: seq<Filled>, k: string, l: string)
    ensures multiset(PoolOf(locs, k))[l] == if KingdomOf(l) == k then multiset(Pool(locs))[l] else 0
  {
    if locs != [] {
      PoolCount(locs[..|locs| - 1], k, l);
    }
  }

  lemma {:induction false} FlatCount(kingdoms: seq<string>, pools: map<string, seq<string>>, locs: seq<Filled>,
                                     l: string)
    requires NoRepeats(kingdoms) && forall k :: k in kingdoms ==> k in pools && pools[k] == PoolOf(locs, k)
    ensures multiset(Flat(kingdoms, pools))[l] == if KingdomOf(l) in kingdoms then multiset(Pool(locs))[l] else 0
  {
    hide PoolOf, Pool, KingdomOf;
    if kingdoms != [] {
      var n := |kingdoms| - 1;
      assert kingdoms == kingdoms[..n] + [kingdoms[n]];
      FlatCount(kingdoms[..n], pools, locs, l);
      PoolCount(locs, kingdoms[n], l);
    }
  }

  /** The flattened pools are the pool. */
  lemma FlatIsPool(kingdoms: seq<string>, pools: map<string, seq<string>>, locs: seq<Filled>)
    requires Collected(kingdoms, pools, locs)
    ensures multiset(Flat(kingdoms, pools)) == multiset(Pool(locs))
  {
    forall l
      ensures multiset(Flat(kingdoms, pools))[l] == multiset(Pool(locs))[l]
    {
      FlatCount(kingdoms, pools, locs, l);
      PoolCount(locs, KingdomOf(l), l);
    }
  }

  lemma {:induction false} PoolNames(locs: seq<Filled>)
    ensures forall l :: l in Pool(locs) ==> SplitPrefix(l).Some? && PoolOf(locs, KingdomOf(l)) != []
  {
    hide SplitPrefix;
    if locs != [] {
      PoolNames(locs[..|locs| - 1]);
    }
  }

  method Flatten(kingdoms: seq<string>, pools: map<string, seq<string>>) returns (all: seq<string>)
    requires forall k :: k in kingdoms ==> k in pools
    ensures all == Flat(kingdoms, pools)
  {
    all := [];
    var i := 0;
    while i < |kingdoms|
      invariant 0 <= i <= |kingdoms|
      invariant all == Flat(kingdoms[..i], pools)
    {
      assert kingdoms[..i + 1][..i] == kingdoms[..i];
      all := all + pools[kingdoms[i]];
      i := i + 1;
    }
    assert kingdoms[..i] == kingdoms;
  }

  /** The lists are the projections of one safe order of the whole pool. */
  ghost predicate FromSafeOrder(lists: map<string, seq<string>>, locs: seq<Filled>, reach: Reach, s: multiset<string>) {
    exists order :: SafeOrder(reach, Pool(locs), order, s) && Projects(lists, order)
  }

  ghost predicate Projects(lists: map<string, seq<string>>, order: seq<string>) {
    && (forall k :: k in lists ==> lists[k] == Shines(Onto(order, k)))
    && (forall l :: l in order ==> KingdomOf(l) in lists)
  }

  /** `build_talkatoo_order`: it raises exactly when no safe order of the pool exists. */
  method BuildOrder(locs: seq<Filled>, picks: seq<nat>, oracle: Oracle) returns (r: Result<map<string, seq<string>>>)
    requires Monotone(oracle.reach)
    modifies oracle
    ensures r.Raised? <==> !HasSafeOrder(oracle.reach, Pool(locs), old(oracle.collected))
    ensures r.Ok? ==> FromSafeOrder(r.value, locs, oracle.reach, old(oracle.collected))
  {
    hide Collected, PoolOf, Pool, SplitPrefix, Greedy, Safe, Onto, Shines, KingdomOf;
    ghost var start := oracle.collected;
    var kingdoms, pools := CollectPools(locs);
    KingdomsOfPools(kingdoms, pools, locs);
    var all := Flatten(kingdoms, pools);
    FlatIsPool(kingdoms, pools, locs);
    GreedyExact(oracle.reach, all, picks, start);
    SamePool(oracle.reach, all, Pool(locs), start);
    var order := FindSafePermutation(all, picks, oracle);
    if order.None? {
      return Raised;
    }
    PoolNames(locs);
    forall l | l in order.value
      ensures SplitPrefix(l).Some? && KingdomOf(l) in pools.Keys
    {
      assert l in multiset(order.value) && l in Pool(locs);
    }
    var lists := Project(order.value, pools.Keys);
    assert Projects(lists, order.value);
    return Ok(lists);
  }

  lemma KingdomsOfPools(kingdoms: seq<string>, pools: map<string, seq<string>>, locs: seq<Filled>)
    requires Collected(kingdoms, pools, locs)
    ensures forall k :: k in kingdoms ==> k in pools
    ensures forall k :: PoolOf(locs, k) != [] ==> k in pools
  {
  }

  lemma SamePool(reach: Reach, a: seq<string>, b: seq<string>, s: multiset<string>)
    requires multiset(a) == multiset(b)
    ensures HasSafeOrder(reach, a, s) <==> HasSafeOrder(reach, b, s)
    ensures forall order :: SafeOrder(reach, a, order, s) <==> SafeOrder(reach, b, order, s)
  {
    hide Safe;
    if order :| SafeOrder(reach, a, order, s) {
      assert SafeOrder(reach, b, order, s);
    }
    if order :| SafeOrder(reach, b, order, s) {
      assert SafeOrder(reach, a, order, s);
    }
  }
}
