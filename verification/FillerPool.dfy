/** Balancing the item pool against the locations (`adjust_filler_items` of __init__.py). */
module FillerPool {

  /** Everything else, progression above all, is kept. */
  datatype Class = Filler | Trap | Useful | Kept

  /** Items of one player are equal when their names are. */
  datatype Item = Item(name: string, kind: Class)

  // -------------------------------------------------------------- the top-up

  /** Traps to add, rounded down. */
  function TrapCount(extras: nat, percent: nat, traps: seq<Item>): nat {
    if traps == [] then 0 else extras * percent / 100
  }

  /** `random.choice(traps)` for the `i`-th trap. */
  function Choice(traps: seq<Item>, picks: seq<nat>, i: nat): (x: Item)
    requires traps != []
    ensures x in traps
  {
    traps[(if i < |picks| then picks[i] else 0) % |traps|]
  }

  function Chosen(traps: seq<Item>, picks: seq<nat>, n: nat): (r: seq<Item>)
    requires traps != [] || n == 0
    ensures |r| == n
    ensures forall x :: x in r ==> x in traps
  {
    if n == 0 then [] else Chosen(traps, picks, n - 1) + [Choice(traps, picks, n - 1)]
  }

  function Fillers(n: nat, filler: Item): (r: seq<Item>)
    ensures |r| == n && forall x :: x in r ==> x == filler
  {
    seq(n, _ => filler)
  }

  /** Extra items: so many traps, the rest filler. */
  function Extra(extras: nat, percent: nat, traps: seq<Item>, picks: seq<nat>, filler: Item): seq<Item> {
    var t := TrapCount(extras, percent, traps);
    Chosen(traps, picks, t) + Fillers(if t <= extras then extras - t else 0, filler)
  }

  lemma ExtraCount(extras: nat, percent: nat, traps: seq<Item>, picks: seq<nat>, filler: Item)
    requires percent <= 100
    ensures |Extra(extras, percent, traps, picks, filler)| == extras
  {
    if traps != [] {
      Share(extras, percent);
    }
  }

  /** Of the items added, the given percentage rounded down are traps, none where there are no
      traps to choose from, and they come first; the rest is filler. */
  lemma TrapShare(extras: nat, percent: nat, traps: seq<Item>, picks: seq<nat>, filler: Item)
    requires percent <= 100
    ensures exists t: nat ::
              && t <= extras
              && (if traps == [] then t == 0 else 100 * t <= extras * percent < 100 * t + 100)
              && |Extra(extras, percent, traps, picks, filler)| == extras
              && (forall i :: 0 <= i < t ==> Extra(extras, percent, traps, picks, filler)[i] in traps)
              && (forall i :: t <= i < extras ==> Extra(extras, percent, traps, picks, filler)[i] == filler)
  {
    ExtraCount(extras, percent, traps, picks, filler);
    var t := TrapCount(extras, percent, traps);
    if traps != [] {
      Share(extras, percent);
    }
    var e := Extra(extras, percent, traps, picks, filler);
    assert forall i :: 0 <= i < t ==> e[i] == Chosen(traps, picks, t)[i];
    assert forall i :: t <= i < extras ==> e[i] == Fillers(extras - t, filler)[i - t];
    assert traps != [] ==> 100 * t <= extras * percent < 100 * t + 100;
    assert t <= extras;
  }

  lemma {:induction false} MorePicks(traps: seq<Item>, picks: seq<nat>, more: nat, n: nat)
    requires (traps != [] || n == 0) && n <= |picks|
    ensures Chosen(traps, picks + [more], n) == Chosen(traps, picks, n)
  {
    if n > 0 {
      MorePicks(traps, picks, more, n - 1);
    }
  }

  /** Any traps can be drawn, in any order and with repetitions. */
  lemma {:induction false} EveryDraw(traps: seq<Item>, want: seq<Item>) returns (picks: seq<nat>)
    requires traps != [] && forall x :: x in want ==> x in traps
    ensures |picks| == |want| && Chosen(traps, picks, |want|) == want
  {
    hide Choice;
    picks := [];
    if want != [] {
      var n := |want| - 1;
      assert want == want[..n] + [want[n]];
      var front := EveryDraw(traps, want[..n]);
      assert want[n] in want && want[n] in traps;
      var i: nat :| i < |traps| && traps[i] == want[n];
      picks := front + [i];
      MorePicks(traps, front, i, n);
      DrawnHere(traps, picks, n, i);
    }
  }

  lemma DrawnHere(traps: seq<Item>, picks: seq<nat>, n: nat, i: nat)
    requires i < |traps| && n < |picks| && picks[n] == i
    ensures Choice(traps, picks, n) == traps[i]
  {
    assert i % |traps| == i;
  }

  lemma Share(extras: nat, percent: nat)
    requires percent <= 100
    ensures extras * percent / 100 <= extras
  {
    assert extras * percent <= extras * 100;
  }

  // -------------------------------------------------------------- the cutting

  function OfClass(pool: seq<Item>, c: Class): (r: seq<Item>)
    ensures forall x :: x in r <==> x in pool && x.kind == c
  {
    if pool == [] then []
    else
      assert pool == [pool[0]] + pool[1..];
      (if pool[0].kind == c then [pool[0]] else []) + OfClass(pool[1..], c)
  }

  function Reversed(s: seq<Item>): (r: seq<Item>)
    ensures |r| == |s|
  {
    if s == [] then [] else [s[|s| - 1]] + Reversed(s[..|s| - 1])
  }

  /** The items in the order they are popped: fillers, then traps, then useful ones, each
      from the end of its shuffled list. */
  function Victims(fillers: seq<Item>, traps: seq<Item>, useful: seq<Item>): seq<Item> {
    Reversed(fillers) + Reversed(traps) + Reversed(useful)
  }

  /** `item_pool.remove(x)`: the first item of that name goes. */
  function Strike(pool: seq<Item>, name: string): seq<Item> {
    if pool == [] then []
    else if pool[0].name == name then pool[1..]
    else [pool[0]] + Strike(pool[1..], name)
  }

  function StrikeAll(pool: seq<Item>, victims: seq<Item>): seq<Item>
    decreases |victims|
  {
    if victims == [] then pool else StrikeAll(Strike(pool, victims[0].name), victims[1..])
  }

  function Take(s: seq<Item>, n: nat): seq<Item> {
    if n <= |s| then s[..n] else s
  }

  /** The pool after cutting `n` items. */
  function Cut(pool: seq<Item>, n: nat, fillers: seq<Item>, traps: seq<Item>, useful: seq<Item>): seq<Item> {
    StrikeAll(pool, Take(Victims(fillers, traps, useful), n))
  }

  /** Shuffled lists of the pool's fillers, traps and useful items. */
  ghost predicate Dealt(pool: seq<Item>, fillers: seq<Item>, traps: seq<Item>, useful: seq<Item>) {
    && multiset(fillers) == multiset(OfClass(pool, Filler))
    && multiset(traps) == multiset(OfClass(pool, Trap))
    && multiset(useful) == multiset(OfClass(pool, Useful))
  }

  method AdjustFillerItems(start: seq<Item>, locations: nat, percent: nat, traps: seq<Item>, picks: seq<nat>,
                           filler: Item, fillers: seq<Item>, trapItems: seq<Item>, useful: seq<Item>)
    returns (pool: seq<Item>)
    requires percent <= 100 && Dealt(start, fillers, trapItems, useful)
    ensures locations >= |start| ==> pool == start + Extra(locations - |start|, percent, traps, picks, filler)
    ensures locations < |start| ==> pool == Cut(start, |start| - locations, fillers, trapItems, useful)
  {
    hide Cut, Extra;
    if locations >= |start| {
      pool := TopUp(start, locations - |start|, percent, traps, picks, filler);
    } else {
      pool := CutDown(start, |start| - locations, fillers, trapItems, useful);
    }
  }

  method TopUp(start: seq<Item>, extras: nat, percent: nat, traps: seq<Item>, picks: seq<nat>, filler: Item)
    returns (pool: seq<Item>)
    requires percent <= 100
    ensures pool == start + Extra(extras, percent, traps, picks, filler)
  {
    Share(extras, percent);
    var trapCount := TrapCount(extras, percent, traps);
    pool := start;
    for i := 0 to trapCount
      invariant pool == start + Chosen(traps, picks, i)
    {
      pool := pool + [Choice(traps, picks, i)];
    }
    ghost var topped := pool;
    for i := 0 to extras - trapCount
      invariant pool == topped + Fillers(i, filler)
    {
      assert Fillers(i + 1, filler) == Fillers(i, filler) + [filler];
      pool := pool + [filler];
    }
  }

  method CutDown(start: seq<Item>, extras: nat, fillers0: seq<Item>, traps0: seq<Item>, useful0: seq<Item>)
    returns (pool: seq<Item>)
    ensures pool == Cut(start, extras, fillers0, traps0, useful0)
  {
    hide Strike, Victims, StrikeAll, Take;
    pool := start;
    var fillers, traps, useful := fillers0, traps0, useful0;
    var left := extras;
    while left > 0
      invariant left >= 0
      invariant Cut(start, extras, fillers0, traps0, useful0) == Cut(pool, left, fillers, traps, useful)
    {
      ghost var victims := Victims(fillers, traps, useful);
      NextVictim(fillers, traps, useful);
      var popped;
      if fillers != [] {
        popped, fillers := fillers[|fillers| - 1], fillers[..|fillers| - 1];
      } else if traps != [] {
        popped, traps := traps[|traps| - 1], traps[..|traps| - 1];
      } else if useful != [] {
        popped, useful := useful[|useful| - 1], useful[..|useful| - 1];
      } else {
        break;
      }
      PopOne(pool, left, victims, popped, Victims(fillers, traps, useful));
      pool := Strike(pool, popped.name);
      left := left - 1;
    }
    PopEnd(pool, left, fillers, traps, useful);
  }

  lemma NextVictim(fillers: seq<Item>, traps: seq<Item>, useful: seq<Item>)
    ensures var v := Victims(fillers, traps, useful);
            if fillers != [] then v == [fillers[|fillers| - 1]] + Victims(fillers[..|fillers| - 1], traps, useful)
            else if traps != [] then v == [traps[|traps| - 1]] + Victims(fillers, traps[..|traps| - 1], useful)
            else if useful != [] then v == [useful[|useful| - 1]] + Victims(fillers, traps, useful[..|useful| - 1])
            else v == []
  {
  }

  lemma PopOne(pool: seq<Item>, n: nat, victims: seq<Item>, x: Item, rest: seq<Item>)
    requires n > 0 && victims == [x] + rest
    ensures StrikeAll(pool, Take(victims, n)) == StrikeAll(Strike(pool, x.name), Take(rest, n - 1))
  {
    hide Strike;
    assert Take(victims, n) == [x] + Take(rest, n - 1);
    assert ([x] + Take(rest, n - 1))[1..] == Take(rest, n - 1);
  }

  lemma PopEnd(pool: seq<Item>, n: nat, fillers: seq<Item>, traps: seq<Item>, useful: seq<Item>)
    requires n == 0 || (fillers == [] && traps == [] && useful == [])
    ensures Cut(pool, n, fillers, traps, useful) == pool
  {
    assert Take(Victims(fillers, traps, useful), n) == [];
  }

  // ------------------------------------------------------------------ the size

  function Names(s: seq<Item>): multiset<string> {
    if s == [] then multiset{} else multiset{s[0].name} + Names(s[1..])
  }

  /** Names of the items that may be cut. */
  function OpenNames(pool: seq<Item>): multiset<string> {
    if pool == [] then multiset{}
    else AsOpen(pool[0]) + OpenNames(pool[1..])
  }

  function KeptItems(pool: seq<Item>): multiset<Item> {
    if pool == [] then multiset{}
    else AsKept(pool[0]) + KeptItems(pool[1..])
  }

  function AsKept(x: Item): multiset<Item> {
    if x.kind == Kept then multiset{x} else multiset{}
  }

  function AsOpen(x: Item): multiset<string> {
    if x.kind == Kept then multiset{} else multiset{x.name}
  }

  lemma {:induction false} Sizes(pool: seq<Item>)
    ensures |Names(pool)| == |pool| == |KeptItems(pool)| + |OpenNames(pool)|
    ensures OpenNames(pool) <= Names(pool)
  {
    if pool != [] {
      Sizes(pool[1..]);
    }
  }

  lemma {:induction false} NamesAppend(a: seq<Item>, b: seq<Item>)
    ensures Names(a + b) == Names(a) + Names(b)
  {
    if a == [] {
      assert a + b == b;
    } else {
      assert (a + b)[1..] == a[1..] + b;
      NamesAppend(a[1..], b);
    }
  }

  lemma {:induction false} NamesReversed(s: seq<Item>)
    ensures Names(Reversed(s)) == Names(s)
  {
    hide Names;
    if s == [] {
      assert Reversed(s) == s;
    } else {
      var n := |s| - 1;
      NamesReversed(s[..n]);
      NamesAppend(s[..n], [s[n]]);
      NamesAppend([s[n]], Reversed(s[..n]));
      assert s == s[..n] + [s[n]];
    }
  }

  lemma TakeOut(b: seq<Item>, x: Item) returns (rest: seq<Item>)
    requires x in b
    ensures multiset(b) == multiset(rest) + multiset{x} && Names(b) == Names(rest) + multiset{x.name}
  {
    var k :| 0 <= k < |b| && b[k] == x;
    var pre, post := b[..k], b[k + 1..];
    assert b == pre + ([x] + post);
    rest := pre + post;
    NamesAppend(pre, [x] + post);
    NamesAppend(pre, post);
    assert ([x] + post)[1..] == post;
    assert multiset([x] + post) == multiset{x} + multiset(post);
  }

  lemma SplitHead(a: seq<Item>)
    requires a != []
    ensures multiset(a) == multiset(a[1..]) + multiset{a[0]}
    ensures Names(a) == Names(a[1..]) + multiset{a[0].name}
  {
    assert a == [a[0]] + a[1..];
  }

  lemma SameLeft(a: multiset<Item>, b: multiset<Item>, x: Item)
    requires a + multiset{x} == b + multiset{x}
    ensures a == b
  {
    assert a == (a + multiset{x}) - multiset{x} && b == (b + multiset{x}) - multiset{x};
  }

  /** The names of a reordering. */
  lemma {:induction false} SameNames(a: seq<Item>, b: seq<Item>)
    requires multiset(a) == multiset(b)
    ensures Names(a) == Names(b)
    decreases |a|
  {
    hide Names;
    if a == [] {
      assert |multiset(a)| == 0 && |multiset(b)| == |b|;
      assert a == b;
    } else {
      var x := a[0];
      assert x in multiset(a) && x in multiset(b);
      var rest := TakeOut(b, x);
      SplitHead(a);
      SameLeft(multiset(a[1..]), multiset(rest), x);
      SameNames(a[1..], rest);
    }
  }

  lemma {:induction false} NamesByClass(pool: seq<Item>)
    ensures Names(OfClass(pool, Filler)) + Names(OfClass(pool, Trap)) + Names(OfClass(pool, Useful)) == OpenNames(pool)
  {
    hide Names;
    if pool == [] {
      assert Names([]) == multiset{} by {
        NoNames();
      }
    } else {
      NamesByClass(pool[1..]);
      ClassHead(pool, Filler);
      ClassHead(pool, Trap);
      ClassHead(pool, Useful);
    }
  }

  lemma NoNames()
    ensures Names([]) == multiset{}
  {
  }

  lemma ClassHead(pool: seq<Item>, c: Class)
    requires pool != []
    ensures Names(OfClass(pool, c)) ==
            (if pool[0].kind == c then multiset{pool[0].name} else multiset{}) + Names(OfClass(pool[1..], c))
  {
    assert ([pool[0]] + OfClass(pool[1..], c))[1..] == OfClass(pool[1..], c);
    assert [] + OfClass(pool[1..], c) == OfClass(pool[1..], c);
  }

  /** What is popped in the end is every item that may be cut. */
  lemma VictimNames(pool: seq<Item>, fillers: seq<Item>, traps: seq<Item>, useful: seq<Item>)
    requires Dealt(pool, fillers, traps, useful)
    ensures Names(Victims(fillers, traps, useful)) == OpenNames(pool)
    ensures |Victims(fillers, traps, useful)| == |OpenNames(pool)|
  {
    hide Names, OpenNames, Reversed;
    SameNames(fillers, OfClass(pool, Filler));
    SameNames(traps, OfClass(pool, Trap));
    SameNames(useful, OfClass(pool, Useful));
    NamesByClass(pool);
    NamesReversed(fillers);
    NamesReversed(traps);
    NamesReversed(useful);
    NamesAppend(Reversed(fillers) + Reversed(traps), Reversed(useful));
    NamesAppend(Reversed(fillers), Reversed(traps));
    Sizes(Victims(fillers, traps, useful));
  }

  lemma TakeNames(v: seq<Item>, n: nat)
    ensures Names(Take(v, n)) <= Names(v)
    ensures |Take(v, n)| == if n <= |v| then n else |v|
  {
    if n <= |v| {
      assert v == v[..n] + v[n..];
      NamesAppend(v[..n], v[n..]);
    }
  }

  function First(pool: seq<Item>, name: string): (x: Item)
    requires name in Names(pool)
    ensures x.name == name
  {
    if pool[0].name == name then pool[0] else First(pool[1..], name)
  }

  lemma {:induction false} StrikeNames(pool: seq<Item>, name: string)
    requires name in Names(pool)
    ensures |Strike(pool, name)| == |pool| - 1
    ensures Names(pool) == Names(Strike(pool, name)) + multiset{name}
  {
    if pool[0].name != name {
      StrikeNames(pool[1..], name);
      var rest := Strike(pool[1..], name);
      assert ([pool[0]] + rest)[1..] == rest;
    }
  }

  lemma {:induction false} StrikeKept(pool: seq<Item>, name: string)
    requires name in Names(pool)
    ensures KeptItems(pool) == KeptItems(Strike(pool, name)) + AsKept(First(pool, name))
  {
    hide KeptItems, OpenNames, AsKept, AsOpen;
    assert pool == [pool[0]] + pool[1..];
    PartsHead(pool[0], pool[1..]);
    if pool[0].name != name {
      StrikeKept(pool[1..], name);
      PartsHead(pool[0], Strike(pool[1..], name));
    }
  }

  lemma {:induction false} StrikeOpen(pool: seq<Item>, name: string)
    requires name in Names(pool)
    ensures OpenNames(pool) == OpenNames(Strike(pool, name)) + AsOpen(First(pool, name))
  {
    hide KeptItems, OpenNames, AsKept, AsOpen;
    assert pool == [pool[0]] + pool[1..];
    PartsHead(pool[0], pool[1..]);
    if pool[0].name != name {
      StrikeOpen(pool[1..], name);
      PartsHead(pool[0], Strike(pool[1..], name));
    }
  }

  lemma PartsHead(x: Item, rest: seq<Item>)
    ensures KeptItems([x] + rest) == AsKept(x) + KeptItems(rest)
    ensures OpenNames([x] + rest) == AsOpen(x) + OpenNames(rest)
  {
    assert ([x] + rest)[1..] == rest;
  }

  /** Striking takes the first item of that name, whatever its class. */
  lemma StrikeTakesFirst(pool: seq<Item>, name: string)
    requires name in Names(pool)
    ensures var x, rest := First(pool, name), Strike(pool, name);
            && |rest| == |pool| - 1
            && Names(pool) == Names(rest) + multiset{name}
            && KeptItems(pool) == KeptItems(rest) + AsKept(x) && OpenNames(pool) == OpenNames(rest) + AsOpen(x)
  {
    StrikeNames(pool, name);
    StrikeKept(pool, name);
    StrikeOpen(pool, name);
  }

  lemma Cancel(a: multiset<string>, b: multiset<string>, x: string)
    requires multiset{x} + a <= b + multiset{x}
    ensures a <= b
  {
    forall y
      ensures a[y] <= b[y]
    {
      assert (multiset{x} + a)[y] <= (b + multiset{x})[y];
    }
  }

  /** One pop of the loop, in `pool` names or in those that may go. */
  lemma StrikeNext(pool: seq<Item>, victims: seq<Item>)
    requires victims != [] && Names(victims) <= Names(pool)
    ensures var name := victims[0].name;
            && name in Names(pool)
            && Names(victims[1..]) <= Names(Strike(pool, name))
            && (Names(victims) <= OpenNames(pool) && First(pool, name).kind != Kept ==>
                Names(victims[1..]) <= OpenNames(Strike(pool, name)))
  {
    hide Strike, OpenNames, KeptItems, First;
    var name := victims[0].name;
    assert Names(victims) == multiset{name} + Names(victims[1..]);
    assert name in Names(victims);
    StrikeTakesFirst(pool, name);
    Cancel(Names(victims[1..]), Names(Strike(pool, name)), name);
    if Names(victims) <= OpenNames(pool) && First(pool, name).kind != Kept {
      Cancel(Names(victims[1..]), OpenNames(Strike(pool, name)), name);
    }
  }

  lemma {:induction false} StrikeAllSize(pool: seq<Item>, victims: seq<Item>)
    requires Names(victims) <= Names(pool)
    ensures |StrikeAll(pool, victims)| == |pool| - |victims|
    decreases |victims|
  {
    hide Strike, Names;
    if victims != [] {
      var name := victims[0].name;
      StrikeNext(pool, victims);
      StrikeTakesFirst(pool, name);
      StrikeAllSize(Strike(pool, name), victims[1..]);
    }
  }

  /** Every run of the cutting branch ends at the location count, or with the kept items
      when there are more of those. */
  lemma CutSize(pool: seq<Item>, locations: nat, fillers: seq<Item>, traps: seq<Item>, useful: seq<Item>)
    requires Dealt(pool, fillers, traps, useful) && locations <= |pool|
    ensures var kept := |KeptItems(pool)|;
            |Cut(pool, |pool| - locations, fillers, traps, useful)| == if kept <= locations then locations else kept
  {
    hide Strike, Victims, OfClass, StrikeAll, Take, Names, OpenNames, KeptItems;
    var v := Victims(fillers, traps, useful);
    VictimNames(pool, fillers, traps, useful);
    Sizes(pool);
    TakeNames(v, |pool| - locations);
    StrikeAllSize(pool, Take(v, |pool| - locations));
  }

  function Rank(c: Class): nat {
    match c
    case Filler => 0
    case Trap => 1
    case Useful => 2
    case Kept => 3
  }

  lemma {:induction false} ReversedSame(s: seq<Item>)
    ensures multiset(Reversed(s)) == multiset(s)
  {
    if s != [] {
      var n := |s| - 1;
      assert s == s[..n] + [s[n]];
      ReversedSame(s[..n]);
    }
  }

  /** Traps are popped only after every filler, useful items only after every trap. */
  lemma PopOrder(pool: seq<Item>, fillers: seq<Item>, traps: seq<Item>, useful: seq<Item>)
    requires Dealt(pool, fillers, traps, useful)
    ensures var v := Victims(fillers, traps, useful);
            forall i, j :: 0 <= i < j < |v| ==> Rank(v[i].kind) <= Rank(v[j].kind)
  {
    ReversedSame(fillers);
    ReversedSame(traps);
    ReversedSame(useful);
    KindsOf(Reversed(fillers), OfClass(pool, Filler), Filler);
    KindsOf(Reversed(traps), OfClass(pool, Trap), Trap);
    KindsOf(Reversed(useful), OfClass(pool, Useful), Useful);
  }

  lemma KindsOf(s: seq<Item>, part: seq<Item>, c: Class)
    requires multiset(s) == multiset(part) && forall x :: x in part ==> x.kind == c
    ensures forall i :: 0 <= i < |s| ==> s[i].kind == c
  {
    forall i | 0 <= i < |s|
      ensures s[i].kind == c
    {
      assert s[i] in multiset(s) && s[i] in part;
    }
  }

  // ------------------------------------------------------------ what is conserved

  /** Some kept item stands before an item of its name that may be cut. */
  predicate Blocked(pool: seq<Item>) {
    pool != [] &&
    ((pool[0].kind == Kept && pool[0].name in OpenNames(pool[1..])) || Blocked(pool[1..]))
  }

  lemma {:induction false} ClearFirst(pool: seq<Item>, name: string)
    requires !Blocked(pool) && name in OpenNames(pool) && name in Names(pool)
    ensures First(pool, name).kind != Kept
  {
    if pool[0].name != name {
      ClearFirst(pool[1..], name);
    }
  }

  lemma {:induction false} StrikeStaysClear(pool: seq<Item>, name: string)
    requires !Blocked(pool) && name in Names(pool)
    ensures !Blocked(Strike(pool, name))
  {
    if pool[0].name != name {
      StrikeStaysClear(pool[1..], name);
      StrikeTakesFirst(pool[1..], name);
      var rest := Strike(pool[1..], name);
      assert ([pool[0]] + rest)[1..] == rest;
    }
  }

  lemma {:induction false} StrikeStaysBlocked(pool: seq<Item>, name: string)
    requires Blocked(pool) && name in Names(pool) && First(pool, name).kind != Kept
    ensures Blocked(Strike(pool, name))
  {
    if pool[0].name != name {
      var rest := Strike(pool[1..], name);
      assert ([pool[0]] + rest)[1..] == rest;
      if Blocked(pool[1..]) {
        StrikeStaysBlocked(pool[1..], name);
      } else {
        StrikeTakesFirst(pool[1..], name);
      }
    }
  }

  lemma HeadName(victims: seq<Item>)
    requires victims != []
    ensures victims[0].name in Names(victims)
  {
  }

  /** Without such a pair every strike hits an item that may go. */
  lemma {:induction false} ClearKeeps(pool: seq<Item>, victims: seq<Item>)
    requires !Blocked(pool) && Names(victims) <= OpenNames(pool)
    ensures KeptItems(StrikeAll(pool, victims)) == KeptItems(pool)
    decreases |victims|
  {
    hide Strike, OpenNames, KeptItems, Blocked, First, Names;
    if victims != [] {
      var name := victims[0].name;
      Sizes(pool);
      HeadName(victims);
      StrikeNext(pool, victims);
      ClearFirst(pool, name);
      StrikeTakesFirst(pool, name);
      StrikeStaysClear(pool, name);
      ClearKeeps(Strike(pool, name), victims[1..]);
    }
  }

  lemma {:induction false} BlockedHasOpen(pool: seq<Item>)
    requires Blocked(pool)
    ensures |OpenNames(pool)| > 0
  {
    if !(pool[0].kind == Kept && pool[0].name in OpenNames(pool[1..])) {
      BlockedHasOpen(pool[1..]);
    }
  }

  lemma {:induction false} NeverMoreKept(pool: seq<Item>, victims: seq<Item>)
    requires Names(victims) <= Names(pool)
    ensures |KeptItems(StrikeAll(pool, victims))| <= |KeptItems(pool)|
    decreases |victims|
  {
    hide Strike, OpenNames, KeptItems, First, Names;
    if victims != [] {
      var name := victims[0].name;
      StrikeNext(pool, victims);
      StrikeTakesFirst(pool, name);
      NeverMoreKept(Strike(pool, name), victims[1..]);
    }
  }

  /** With such a pair, cutting every item that may go costs a kept one. */
  lemma {:induction false} BlockedLoses(pool: seq<Item>, victims: seq<Item>)
    requires Blocked(pool) && |victims| >= |OpenNames(pool)| && Names(victims) <= Names(pool)
    ensures |KeptItems(StrikeAll(pool, victims))| < |KeptItems(pool)|
    decreases |victims|
  {
    hide Strike, OpenNames, KeptItems, First, Blocked, Names;
    BlockedHasOpen(pool);
    var name := victims[0].name;
    StrikeNext(pool, victims);
    StrikeTakesFirst(pool, name);
    if First(pool, name).kind == Kept {
      NeverMoreKept(Strike(pool, name), victims[1..]);
    } else {
      StrikeStaysBlocked(pool, name);
      BlockedLoses(Strike(pool, name), victims[1..]);
    }
  }

  /** However many items are cut and however the lists are shuffled, the kept items stay. */
  ghost predicate AlwaysConserves(pool: seq<Item>) {
    forall n: nat, fillers: seq<Item>, traps: seq<Item>, useful: seq<Item> ::
      Dealt(pool, fillers, traps, useful) ==>
      KeptItems(Cut(pool, n, fillers, traps, useful)) == KeptItems(pool)
  }

  /** Removal goes by name, so kept items are conserved in every run exactly when none of
      them stands before an item of its name that may be cut. */
  lemma ConservedExactly(pool: seq<Item>)
    ensures AlwaysConserves(pool) <==> !Blocked(pool)
  {
    hide StrikeAll, Victims, Take, Blocked, Names, OpenNames, KeptItems;
    if !Blocked(pool) {
      forall n: nat, fillers: seq<Item>, traps: seq<Item>, useful: seq<Item> | Dealt(pool, fillers, traps, useful)
        ensures KeptItems(Cut(pool, n, fillers, traps, useful)) == KeptItems(pool)
      {
        VictimNames(pool, fillers, traps, useful);
        TakeNames(Victims(fillers, traps, useful), n);
        ClearKeeps(pool, Take(Victims(fillers, traps, useful), n));
      }
    } else {
      var f, t, u := OfClass(pool, Filler), OfClass(pool, Trap), OfClass(pool, Useful);
      var v := Victims(f, t, u);
      VictimNames(pool, f, t, u);
      Sizes(pool);
      TakeNames(v, |v|);
      BlockedLoses(pool, Take(v, |v|));
      assert Dealt(pool, f, t, u);
      assert |KeptItems(Cut(pool, |v|, f, t, u))| < |KeptItems(pool)|;
    }
  }

  /** A demoted copy behind its kept namesake: the pool is cut to size, and what goes is the
      progression item. */
  lemma DemotedCopyCosts(name: string)
    ensures var pool := [Item(name, Kept), Item(name, Filler)];
            && Dealt(pool, [pool[1]], [], [])
            && Cut(pool, 1, [pool[1]], [], []) == [pool[1]]
  {
    var kept, demoted := Item(name, Kept), Item(name, Filler);
    var pool := [kept, demoted];
    assert pool[1..] == [demoted] && [demoted][1..] == [];
    OnlyDemoted(kept, demoted, Filler);
    OnlyDemoted(kept, demoted, Trap);
    OnlyDemoted(kept, demoted, Useful);
    assert Reversed([]) == [] && Reversed([demoted]) == [demoted];
    assert Victims([demoted], [], []) == [demoted];
    assert Take([demoted], 1) == [demoted];
    assert StrikeAll(pool, [demoted]) == StrikeAll(Strike(pool, name), []);
  }

  lemma OnlyDemoted(kept: Item, demoted: Item, c: Class)
    requires kept.kind == Kept && demoted.kind == Filler && c != Kept
    ensures OfClass([kept, demoted], c) == if c == Filler then [demoted] else []
  {
    assert [kept, demoted][1..] == [demoted] && [demoted][1..] == [];
    assert OfClass([demoted], c) == if c == Filler then [demoted] else [];
  }
}
