/** Which items leave the pool when it is cut, and that pools as the world builds them are
    cut in order. */
module PoolOrder {
  import opened FillerPool

  // -------------------------------------------------------- what leaves, and when

  /** Lower ranks are to leave first; `Kept` not at all. */
  function Level(x: Item): nat {
    Rank(x.kind)
  }

  predicate Lowest(x: Item, pool: seq<Item>) {
    forall y :: y in pool ==> Level(x) <= Level(y)
  }

  /** Every item that leaves is of the lowest class left in the pool: no trap goes while
      there is filler, nothing useful while there is a trap, nothing kept while anything
      else is left. */
  predicate Orderly(pool: seq<Item>, victims: seq<Item>)
    decreases |victims|
  {
    victims == [] ||
    (victims[0].name in Names(pool) && Lowest(First(pool, victims[0].name), pool) &&
     Orderly(Strike(pool, victims[0].name), victims[1..]))
  }

  /** Every item that leaves is equal, class included, to the one that was popped. */
  predicate AsPopped(pool: seq<Item>, victims: seq<Item>)
    decreases |victims|
  {
    victims == [] ||
    (victims[0].name in Names(pool) && First(pool, victims[0].name) == victims[0] &&
     AsPopped(Strike(pool, victims[0].name), victims[1..]))
  }

  predicate LowerNamesake(x: Item, rest: seq<Item>) {
    exists y :: y in rest && y.name == x.name && Level(y) < Level(x)
  }

  /** Some item stands before one of its name that is to leave earlier. */
  predicate Disordered(pool: seq<Item>) {
    pool != [] && (LowerNamesake(pool[0], pool[1..]) || Disordered(pool[1..]))
  }

  ghost predicate AlwaysOrderly(pool: seq<Item>) {
    forall n: nat, fillers: seq<Item>, traps: seq<Item>, useful: seq<Item> ::
      Dealt(pool, fillers, traps, useful) ==> Orderly(pool, Take(Victims(fillers, traps, useful), n))
  }

  ghost predicate AlwaysAsPopped(pool: seq<Item>) {
    forall n: nat, fillers: seq<Item>, traps: seq<Item>, useful: seq<Item> ::
      Dealt(pool, fillers, traps, useful) ==> AsPopped(pool, Take(Victims(fillers, traps, useful), n))
  }

  // ------------------------------------------------------------ the open items

  function AsOpenItem(x: Item): multiset<Item> {
    if x.kind == Kept then multiset{} else multiset{x}
  }

  /** The items that may be cut. */
  function OpenItems(pool: seq<Item>): multiset<Item> {
    if pool == [] then multiset{} else AsOpenItem(pool[0]) + OpenItems(pool[1..])
  }

  lemma {:induction false} OpenIn(pool: seq<Item>, x: Item)
    ensures x in OpenItems(pool) <==> x in pool && x.kind != Kept
  {
    if pool != [] {
      OpenIn(pool[1..], x);
      assert pool == [pool[0]] + pool[1..];
    }
  }

  lemma {:induction false} InNames(pool: seq<Item>, x: Item)
    requires x in pool
    ensures x.name in Names(pool)
  {
    if pool[0] != x {
      assert pool == [pool[0]] + pool[1..];
      InNames(pool[1..], x);
    }
  }

  lemma {:induction false} ItemsByClass(pool: seq<Item>)
    ensures multiset(OfClass(pool, Filler)) + multiset(OfClass(pool, Trap)) + multiset(OfClass(pool, Useful)) ==
            OpenItems(pool)
  {
    if pool != [] {
      ItemsByClass(pool[1..]);
      PartHead(pool, Filler);
      PartHead(pool, Trap);
      PartHead(pool, Useful);
    }
  }

  lemma PartHead(pool: seq<Item>, c: Class)
    requires pool != []
    ensures multiset(OfClass(pool, c)) ==
            (if pool[0].kind == c then multiset{pool[0]} else multiset{}) + multiset(OfClass(pool[1..], c))
  {
    var rest := OfClass(pool[1..], c);
    assert multiset([pool[0]] + rest) == multiset{pool[0]} + multiset(rest);
    assert [] + rest == rest;
  }

  lemma VictimItems(pool: seq<Item>, fillers: seq<Item>, traps: seq<Item>, useful: seq<Item>)
    requires Dealt(pool, fillers, traps, useful)
    ensures multiset(Victims(fillers, traps, useful)) == OpenItems(pool)
  {
    hide OfClass, Reversed, OpenItems;
    ReversedSame(fillers);
    ReversedSame(traps);
    ReversedSame(useful);
    ItemsByClass(pool);
  }

  lemma {:induction false} FirstIn(pool: seq<Item>, name: string)
    requires name in Names(pool)
    ensures First(pool, name) in pool
  {
    if pool[0].name != name {
      assert pool == [pool[0]] + pool[1..];
      FirstIn(pool[1..], name);
    }
  }

  lemma {:induction false} StrikeItems(pool: seq<Item>, name: string)
    requires name in Names(pool)
    ensures OpenItems(pool) == OpenItems(Strike(pool, name)) + AsOpenItem(First(pool, name))
  {
    hide AsOpenItem;
    if pool[0].name != name {
      StrikeItems(pool[1..], name);
      OpenHead(pool[0], Strike(pool[1..], name));
    }
  }

  lemma OpenHead(x: Item, rest: seq<Item>)
    ensures OpenItems([x] + rest) == AsOpenItem(x) + OpenItems(rest)
  {
    assert ([x] + rest)[1..] == rest;
  }

  // ----------------------------------------------------------------- sorted pops

  predicate Sorted(v: seq<Item>) {
    v == [] || (Lowest(v[0], v[1..]) && Sorted(v[1..]))
  }

  lemma {:induction false} SortedByIndex(v: seq<Item>)
    requires forall i, j :: 0 <= i < j < |v| ==> Level(v[i]) <= Level(v[j])
    ensures Sorted(v)
  {
    if v != [] {
      var rest := v[1..];
      forall i, j | 0 <= i < j < |rest|
        ensures Level(rest[i]) <= Level(rest[j])
      {
        assert rest[i] == v[i + 1] && rest[j] == v[j + 1];
      }
      SortedByIndex(rest);
    }
  }

  lemma VictimsSorted(pool: seq<Item>, fillers: seq<Item>, traps: seq<Item>, useful: seq<Item>)
    requires Dealt(pool, fillers, traps, useful)
    ensures Sorted(Victims(fillers, traps, useful))
  {
    hide Victims, Dealt, Sorted;
    PopOrder(pool, fillers, traps, useful);
    var v := Victims(fillers, traps, useful);
    SortedByIndex(v);
  }

  /** The popped item is lowest in the pool it is popped for. */
  lemma PoppedLowest(pool: seq<Item>, v: seq<Item>)
    requires v != [] && multiset(v) == OpenItems(pool) && Sorted(v)
    ensures v[0] in pool && v[0].kind != Kept && Lowest(v[0], pool)
  {
    hide OpenItems, Sorted;
    var x := v[0];
    assert v == [x] + v[1..] && x in multiset(v);
    OpenIn(pool, x);
    assert Lowest(x, v[1..]) by {
      SortedHead(v);
    }
    forall y | y in pool
      ensures Level(x) <= Level(y)
    {
      OpenIn(pool, y);
      if y.kind != Kept {
        assert y in multiset(v);
      }
    }
  }

  lemma SortedHead(v: seq<Item>)
    requires v != [] && Sorted(v)
    ensures Lowest(v[0], v[1..]) && Sorted(v[1..])
  {
  }

  lemma PopItem(pool: seq<Item>, v: seq<Item>)
    requires v != [] && multiset(v) == OpenItems(pool)
    requires v[0].name in Names(pool) && First(pool, v[0].name) == v[0] && v[0].kind != Kept
    ensures multiset(v[1..]) == OpenItems(Strike(pool, v[0].name))
  {
    hide OpenItems, Strike;
    StrikeItems(pool, v[0].name);
    assert v == [v[0]] + v[1..];
    assert multiset(v) == multiset{v[0]} + multiset(v[1..]);
    SameLeft(multiset(v[1..]), OpenItems(Strike(pool, v[0].name)), v[0]);
  }

  lemma TakeOne(v: seq<Item>, n: nat)
    ensures n == 0 || v == [] ==> Take(v, n) == []
    ensures n > 0 && v != [] ==> Take(v, n) != [] && Take(v, n)[0] == v[0] && Take(v, n)[1..] == Take(v[1..], n - 1)
  {
  }

  /** Popped items leave in order when they are the ones that leave. */
  lemma {:induction false} PoppedOrderly(pool: seq<Item>, v: seq<Item>, n: nat)
    requires multiset(v) == OpenItems(pool) && Sorted(v) && AsPopped(pool, Take(v, n))
    ensures Orderly(pool, Take(v, n))
    decreases n
  {
    hide OpenItems, Sorted, Strike, First, Names, Take;
    TakeOne(v, n);
    if n > 0 && v != [] {
      PoppedLowest(pool, v);
      PopItem(pool, v);
      SortedHead(v);
      PoppedOrderly(Strike(pool, v[0].name), v[1..], n - 1);
    }
  }

  // ------------------------------------------------------------- ordered pools

  lemma {:induction false} FirstLowest(pool: seq<Item>, y: Item)
    requires !Disordered(pool) && y in pool && y.name in Names(pool)
    ensures Level(First(pool, y.name)) <= Level(y)
  {
    assert pool == [pool[0]] + pool[1..];
    if pool[0].name == y.name {
      assert y != pool[0] ==> y in pool[1..];
    } else {
      InNames(pool[1..], y);
      FirstLowest(pool[1..], y);
    }
  }

  lemma {:induction false} StrikeSubset(pool: seq<Item>, name: string)
    ensures forall y :: y in Strike(pool, name) ==> y in pool
  {
    if pool != [] {
      assert pool == [pool[0]] + pool[1..];
      if pool[0].name != name {
        StrikeSubset(pool[1..], name);
      }
    }
  }

  lemma {:induction false} StrikeStaysOrdered(pool: seq<Item>, name: string)
    requires !Disordered(pool)
    ensures !Disordered(Strike(pool, name))
  {
    if pool != [] && pool[0].name != name {
      StrikeSubset(pool[1..], name);
      StrikeStaysOrdered(pool[1..], name);
      var rest := Strike(pool[1..], name);
      assert ([pool[0]] + rest)[1..] == rest;
    }
  }

  lemma {:induction false} OrderedAsPopped(pool: seq<Item>, v: seq<Item>, n: nat)
    requires multiset(v) == OpenItems(pool) && Sorted(v) && !Disordered(pool)
    ensures AsPopped(pool, Take(v, n))
    decreases n
  {
    hide OpenItems, Sorted, Strike, Names, Take, Disordered;
    TakeOne(v, n);
    if n > 0 && v != [] {
      PoppedStruck(pool, v);
      PopItem(pool, v);
      SortedHead(v);
      StrikeStaysOrdered(pool, v[0].name);
      OrderedAsPopped(Strike(pool, v[0].name), v[1..], n - 1);
    }
  }

  lemma PoppedStruck(pool: seq<Item>, v: seq<Item>)
    requires v != [] && multiset(v) == OpenItems(pool) && Sorted(v) && !Disordered(pool)
    ensures v[0].name in Names(pool) && First(pool, v[0].name) == v[0] && v[0].kind != Kept
  {
    hide OpenItems, Sorted, Strike, Names, Disordered;
    PoppedLowest(pool, v);
    InNames(pool, v[0]);
    FirstLowest(pool, v[0]);
    FirstIn(pool, v[0].name);
    var x := First(pool, v[0].name);
    assert Level(x) == Level(v[0]);
  }

  // ---------------------------------------------------------- disordered pools

  lemma {:induction false} LowerIsOpen(pool: seq<Item>)
    requires Disordered(pool)
    ensures exists y :: y in pool && y.kind != Kept
  {
    assert pool == [pool[0]] + pool[1..];
    if !LowerNamesake(pool[0], pool[1..]) {
      LowerIsOpen(pool[1..]);
    }
  }

  /** Striking a lowest item leaves the offending pair in place. */
  lemma {:induction false} StrikeStaysDisordered(pool: seq<Item>, name: string)
    requires Disordered(pool) && name in Names(pool) && Lowest(First(pool, name), pool)
    ensures Disordered(Strike(pool, name))
  {
    var rest := pool[1..];
    assert pool == [pool[0]] + rest;
    if pool[0].name != name {
      var left := Strike(rest, name);
      assert ([pool[0]] + left)[1..] == left;
      if Disordered(rest) {
        StrikeStaysDisordered(rest, name);
      } else {
        var y :| y in rest && y.name == pool[0].name && Level(y) < Level(pool[0]);
        StrikeLeaves(rest, name, y);
      }
    }
  }

  lemma {:induction false} StrikeLeaves(pool: seq<Item>, name: string, y: Item)
    requires y in pool && y.name != name
    ensures y in Strike(pool, name)
  {
    assert pool == [pool[0]] + pool[1..];
    if pool[0].name != name && y != pool[0] {
      StrikeLeaves(pool[1..], name, y);
    }
  }

  lemma {:induction false} DisorderShows(pool: seq<Item>, victims: seq<Item>)
    requires Disordered(pool) && |victims| >= |OpenItems(pool)|
    ensures !Orderly(pool, victims)
    decreases |victims|
  {
    hide OpenItems, Disordered, Strike, First, Names;
    LowerIsOpen(pool);
    var y :| y in pool && y.kind != Kept;
    OpenIn(pool, y);
    assert |OpenItems(pool)| > 0;
    var name := victims[0].name;
    if name in Names(pool) && Lowest(First(pool, name), pool) {
      assert Level(First(pool, name)) <= Level(y);
      StrikeItems(pool, name);
      StrikeStaysDisordered(pool, name);
      DisorderShows(Strike(pool, name), victims[1..]);
    }
  }

  lemma SomeDeal(pool: seq<Item>)
    ensures Dealt(pool, OfClass(pool, Filler), OfClass(pool, Trap), OfClass(pool, Useful))
  {
  }

  /** Removal goes by name, yet in every run exactly the popped items leave, and in order of
      class, if and only if no item stands before one of its name of a lower class. */
  lemma InOrderExactly(pool: seq<Item>)
    ensures AlwaysAsPopped(pool) <==> !Disordered(pool)
    ensures AlwaysOrderly(pool) <==> !Disordered(pool)
  {
    hide AsPopped, Orderly, Victims, Disordered, Dealt, OpenItems, Sorted, Take;
    forall n: nat, fillers: seq<Item>, traps: seq<Item>, useful: seq<Item> | Dealt(pool, fillers, traps, useful)
      ensures var v := Take(Victims(fillers, traps, useful), n);
              && (AsPopped(pool, v) ==> Orderly(pool, v))
              && (!Disordered(pool) ==> AsPopped(pool, v))
    {
      var v := Victims(fillers, traps, useful);
      VictimItems(pool, fillers, traps, useful);
      VictimsSorted(pool, fillers, traps, useful);
      if !Disordered(pool) {
        OrderedAsPopped(pool, v, n);
      }
      if AsPopped(pool, Take(v, n)) {
        PoppedOrderly(pool, v, n);
      }
    }
    if Disordered(pool) {
      DisorderedRun(pool);
    }
  }

  lemma DisorderedRun(pool: seq<Item>)
    requires Disordered(pool)
    ensures !AlwaysOrderly(pool)
  {
    hide Orderly, Victims, Disordered, Dealt, OpenItems;
    var f, t, u := OfClass(pool, Filler), OfClass(pool, Trap), OfClass(pool, Useful);
    var v := Victims(f, t, u);
    SomeDeal(pool);
    VictimItems(pool, f, t, u);
    assert |multiset(v)| == |v|;
    assert Take(v, |v|) == v;
    DisorderShows(pool, v);
  }

  // ------------------------------------------------------ the pools there are

  /** What the item table says of a name. */
  datatype Flags = Flags(trap: bool, useful: bool, progression: bool, skipBalancing: bool)

  function ClassOf(f: Flags): Class {
    if f.progression || f.skipBalancing then Kept else if f.useful then Useful else if f.trap then Trap else Filler
  }

  const METRO_MOONS := ["Metro Kingdom Power Moon", "Metro Kingdom Multi-Moon"]

  /** The class an item of that name has when the pool is adjusted. */
  function FinalClass(table: map<string, Flags>, festival: bool, name: string): Class
    requires name in table
  {
    if festival && name in METRO_MOONS then Filler else ClassOf(table[name])
  }

  predicate Built(pool: seq<Item>, table: map<string, Flags>, festival: bool) {
    forall x :: x in pool ==> x.name in table && x.kind == FinalClass(table, festival, x.name)
  }

  /** `create_item` for every copy of every name, and the festival trim: what has nowhere to
      land is dropped and the moons of Metro become filler, all by name. */
  method BuildPool(table: map<string, Flags>, copies: seq<string>, festival: bool, dropped: set<string>)
    returns (pool: seq<Item>)
    requires forall n :: n in copies ==> n in table
    ensures Built(pool, table, festival)
    ensures !festival ==> Named(pool) == copies
    ensures forall x :: x in Named(pool) <==> x in copies && !(festival && x in dropped)
    ensures forall x :: x in Named(pool) ==> multiset(Named(pool))[x] == multiset(copies)[x]
  {
    pool := [];
    var i := 0;
    while i < |copies|
      invariant 0 <= i <= |copies| && Named(pool) == copies[..i]
      invariant Built(pool, table, false)
    {
      assert copies[..i + 1] == copies[..i] + [copies[i]];
      NamedSnoc(pool, Item(copies[i], ClassOf(table[copies[i]])));
      pool := pool + [Item(copies[i], ClassOf(table[copies[i]]))];
      i := i + 1;
    }
    assert copies[..i] == copies;
    if festival {
      pool := FestivalTrim(table, pool, dropped);
    }
  }

  function Named(pool: seq<Item>): seq<string> {
    if pool == [] then [] else Named(pool[..|pool| - 1]) + [pool[|pool| - 1].name]
  }

  lemma NamedSnoc(pool: seq<Item>, x: Item)
    ensures Named(pool + [x]) == Named(pool) + [x.name]
  {
    assert (pool + [x])[..|pool|] == pool;
  }

  function Without(names: seq<string>, dropped: set<string>): (r: seq<string>)
    ensures forall x :: x in r <==> x in names && x !in dropped
    ensures forall x :: x !in dropped ==> multiset(r)[x] == multiset(names)[x]
  {
    if names == [] then []
    else
      var n := |names| - 1;
      assert names == names[..n] + [names[n]];
      Without(names[..n], dropped) + if names[n] in dropped then [] else [names[n]]
  }

  lemma NothingNamed(dropped: set<string>)
    ensures Named([]) == [] && Without([], dropped) == []
  {
  }

  lemma WithoutSnoc(names: seq<string>, name: string, dropped: set<string>)
    ensures Without(names + [name], dropped) == Without(names, dropped) + if name in dropped then [] else [name]
  {
    assert (names + [name])[..|names|] == names;
  }

  method FestivalTrim(table: map<string, Flags>, start: seq<Item>, dropped: set<string>) returns (pool: seq<Item>)
    requires Built(start, table, false)
    ensures Built(pool, table, true) && Named(pool) == Without(Named(start), dropped)
  {
    hide Named, Without;
    pool := [];
    var i := 0;
    NothingNamed(dropped);
    while i < |start|
      invariant 0 <= i <= |start| && Built(pool, table, true)
      invariant Named(pool) == Without(Named(start[..i]), dropped)
    {
      var it := start[i];
      assert start[..i + 1] == start[..i] + [it];
      NamedSnoc(start[..i], it);
      WithoutSnoc(Named(start[..i]), it.name, dropped);
      if it.name !in dropped {
        var kind := if it.name in METRO_MOONS then Filler else it.kind;
        NamedSnoc(pool, Item(it.name, kind));
        pool := pool + [Item(it.name, kind)];
      }
      i := i + 1;
    }
    assert start[..i] == start;
  }

  lemma {:induction false} ByNameOrdered(pool: seq<Item>)
    requires forall x, y :: x in pool && y in pool && x.name == y.name ==> x.kind == y.kind
    ensures !Disordered(pool) && !Blocked(pool)
  {
    if pool != [] {
      var rest := pool[1..];
      assert pool == [pool[0]] + rest;
      ByNameOrdered(rest);
      if pool[0].kind == Kept && pool[0].name in OpenNames(rest) {
        var y := OpenNamed(rest, pool[0].name);
      }
    }
  }

  lemma {:induction false} OpenNamed(pool: seq<Item>, name: string) returns (y: Item)
    requires name in OpenNames(pool)
    ensures y in pool && y.name == name && y.kind != Kept
  {
    assert pool == [pool[0]] + pool[1..];
    if pool[0].kind != Kept && pool[0].name == name {
      y := pool[0];
    } else {
      y := OpenNamed(pool[1..], name);
    }
  }

  /** Items get their class by name until the pool is adjusted, and dropping or shuffling
      some does not change that: every such pool is cut in order, of exactly the popped
      items, and keeps all its kept ones. */
  lemma BuiltPoolsConserve(pool: seq<Item>, table: map<string, Flags>, festival: bool)
    requires Built(pool, table, festival)
    ensures AlwaysConserves(pool) && AlwaysAsPopped(pool) && AlwaysOrderly(pool)
  {
    hide AlwaysConserves, AlwaysAsPopped, AlwaysOrderly, Disordered, Blocked;
    ByNameOrdered(pool);
    ConservedExactly(pool);
    InOrderExactly(pool);
  }

  // ---------------------------------------------------- progression stays

  predicate MetroMoon(name: string) {
    name == "Metro Kingdom Power Moon" || name == "Metro Kingdom Multi-Moon"
  }

  /** The item table flags the name as progression, balanced or not, and it is no moon of
      Metro in a game that ends at the festival. */
  predicate Advances(name: string, table: map<string, Flags>, festival: bool) {
    && name in table && (table[name].progression || table[name].skipBalancing)
    && !(festival && MetroMoon(name))
  }

  /** What becomes of the flags: progression is kept whatever else is set; below it useful
      ranks over trap and trap over nothing. */
  lemma BuiltKinds(pool: seq<Item>, table: map<string, Flags>, festival: bool, x: Item)
    requires Built(pool, table, festival) && x in pool
    ensures x.kind == Kept <==> Advances(x.name, table, festival)
    ensures var f, open := table[x.name], !(festival && MetroMoon(x.name)) && !Advances(x.name, table, festival);
            && (x.kind == Useful <==> open && f.useful)
            && (x.kind == Trap <==> open && !f.useful && f.trap)
            && (x.kind == Filler <==> (open && !f.useful && !f.trap) || (festival && MetroMoon(x.name)))
  {
    assert METRO_MOONS == ["Metro Kingdom Power Moon", "Metro Kingdom Multi-Moon"];
  }

  /** The items whose names advance, as often as they are there. */
  function Advancing(pool: seq<Item>, table: map<string, Flags>, festival: bool): multiset<Item> {
    if pool == [] then multiset{}
    else
      (if Advances(pool[0].name, table, festival) then multiset{pool[0]} else multiset{})
      + Advancing(pool[1..], table, festival)
  }

  lemma {:induction false} AdvancingAreKept(pool: seq<Item>, table: map<string, Flags>, festival: bool)
    requires Built(pool, table, festival)
    ensures Advancing(pool, table, festival) == KeptItems(pool)
  {
    hide Advances;
    if pool != [] {
      assert pool == [pool[0]] + pool[1..];
      BuiltKinds(pool, table, festival, pool[0]);
      AdvancingAreKept(pool[1..], table, festival);
    }
  }

  lemma {:induction false} StrikeAllSubset(pool: seq<Item>, victims: seq<Item>)
    ensures forall x :: x in StrikeAll(pool, victims) ==> x in pool
    decreases |victims|
  {
    hide Strike;
    if victims != [] {
      StrikeSubset(pool, victims[0].name);
      StrikeAllSubset(Strike(pool, victims[0].name), victims[1..]);
    }
  }

  /** Whatever is dealt and however many have to go, cutting a built pool leaves every item
      whose name advances, as often as it was there. */
  lemma ProgressionStays(pool: seq<Item>, table: map<string, Flags>, festival: bool, n: nat, fillers: seq<Item>,
                         traps: seq<Item>, useful: seq<Item>)
    requires Built(pool, table, festival) && Dealt(pool, fillers, traps, useful)
    ensures Built(Cut(pool, n, fillers, traps, useful), table, festival)
    ensures Advancing(Cut(pool, n, fillers, traps, useful), table, festival) == Advancing(pool, table, festival)
  {
    hide Advancing, KeptItems, Dealt, StrikeAll, Victims, Take, AlwaysAsPopped, AlwaysOrderly;
    BuiltPoolsConserve(pool, table, festival);
    StrikeAllSubset(pool, Take(Victims(fillers, traps, useful), n));
    AdvancingAreKept(pool, table, festival);
    AdvancingAreKept(Cut(pool, n, fillers, traps, useful), table, festival);
  }

  lemma {:induction false} AdvancingAppend(a: seq<Item>, b: seq<Item>, table: map<string, Flags>, festival: bool)
    ensures Advancing(a + b, table, festival) == Advancing(a, table, festival) + Advancing(b, table, festival)
  {
    hide Advances;
    if a == [] {
      assert a + b == b;
    } else {
      assert (a + b)[1..] == a[1..] + b;
      AdvancingAppend(a[1..], b, table, festival);
    }
  }

  lemma {:induction false} NoneAdvance(pool: seq<Item>, table: map<string, Flags>, festival: bool)
    requires forall x :: x in pool ==> !Advances(x.name, table, festival)
    ensures Advancing(pool, table, festival) == multiset{}
  {
    if pool != [] {
      assert pool == [pool[0]] + pool[1..];
      NoneAdvance(pool[1..], table, festival);
    }
  }

  /** Every run of `adjust_filler_items` on a built pool, topping up or cutting down: where the
      traps and the filler do not advance themselves, the items that do are the same ones
      after it. */
  lemma AdjustingKeepsProgression(start: seq<Item>, pool: seq<Item>, locations: nat, percent: nat, trapNames: seq<Item>,
                                  picks: seq<nat>, filler: Item, fillers: seq<Item>, traps: seq<Item>,
                                  useful: seq<Item>, table: map<string, Flags>, festival: bool)
    requires percent <= 100 && Built(start, table, festival) && Dealt(start, fillers, traps, useful)
    requires locations >= |start| ==> pool == start + Extra(locations - |start|, percent, trapNames, picks, filler)
    requires locations < |start| ==> pool == Cut(start, |start| - locations, fillers, traps, useful)
    requires forall x :: x in trapNames || x == filler ==> !Advances(x.name, table, festival)
    ensures Advancing(pool, table, festival) == Advancing(start, table, festival)
  {
    hide Advances, Advancing, Cut, Dealt, Built;
    if locations >= |start| {
      var extra := Extra(locations - |start|, percent, trapNames, picks, filler);
      AdvancingAppend(start, extra, table, festival);
      NoneAdvance(extra, table, festival);
    } else {
      ProgressionStays(start, table, festival, |start| - locations, fillers, traps, useful);
    }
  }
}
