/** The kingdom gate randomiser (kingdom_gates.py): a transfer walk that keeps the total. */
module KingdomGates {
  import opened Text
  import KingdomMoons
  import RuleReader
  import Syntax

  const SPREAD := 5
  const STEPS_PER_KINGDOM := 16

  type Table = map<string, int>

  function Max(a: int, b: int): int {
    if a >= b then a else b
  }

  // -------------------------------------------------------------- capacities

  function Capacity(pool: seq<string>, kingdom: string): nat {
    3 * multiset(pool)[KingdomMoons.MultiMoon(kingdom)] + multiset(pool)[KingdomMoons.PowerMoon(kingdom)]
  }

  method CountName(pool: seq<string>, name: string) returns (n: nat)
    ensures n == multiset(pool)[name]
  {
    n := 0;
    var i := 0;
    while i < |pool|
      invariant 0 <= i <= |pool| && n == multiset(pool[..i])[name]
    {
      assert pool[..i + 1] == pool[..i] + [pool[i]];
      if pool[i] == name {
        n := n + 1;
      }
      i := i + 1;
    }
    assert pool[..i] == pool;
  }

  method PoolGateCapacities(pool: seq<string>, kingdoms: seq<string>) returns (caps: map<string, nat>)
    ensures forall k :: k in caps <==> k in kingdoms
    ensures forall k :: k in caps ==>
              caps[k] == 3 * multiset(pool)[k + " Kingdom Multi-Moon"] + multiset(pool)[k + " Kingdom Power Moon"]
  {
    caps := map[];
    var i := 0;
    while i < |kingdoms|
      invariant 0 <= i <= |kingdoms|
      invariant forall k :: k in caps <==> k in kingdoms[..i]
      invariant forall k :: k in caps ==> caps[k] == Capacity(pool, k)
    {
      assert kingdoms[..i + 1] == kingdoms[..i] + [kingdoms[i]];
      var mm := CountName(pool, KingdomMoons.MultiMoon(kingdoms[i]));
      var pm := CountName(pool, KingdomMoons.PowerMoon(kingdoms[i]));
      caps := caps[kingdoms[i] := 3 * mm + pm];
      i := i + 1;
    }
    assert kingdoms[..i] == kingdoms;
  }

  // ------------------------------------------------------------------ the walk

  /** The gated kingdoms in table order, their vanilla gates and the pool's capacities;
      a kingdom without a capacity is not clamped. */
  datatype Setup = Setup(names: seq<string>, base: Table, caps: map<string, nat>) {
    ghost predicate Valid() {
      && (forall k :: k in names ==> k in base)
      && NoRepeats(names)
    }

    function Lo(k: string): int
      requires k in base
    {
      Max(1, base[k] - SPREAD)
    }

    function Hi(k: string): int
      requires k in base
    {
      if k in caps then KingdomMoons.Min(base[k] + SPREAD, caps[k]) else base[k] + SPREAD
    }

    /** The pool cannot supply even the least gate. */
    predicate Frozen(k: string)
      requires k in base
    {
      Hi(k) < Lo(k)
    }

    function Start(k: string): int
      requires k in base
    {
      if Frozen(k) then Max(1, Hi(k))
      else if Lo(k) <= base[k] <= Hi(k) then base[k] else Hi(k)
    }

    function StartTable(ns: seq<string>): (t: Table)
      requires forall k :: k in ns ==> k in base
      ensures forall k :: k in t <==> k in ns
      ensures forall k :: k in t ==> t[k] == Start(k)
    {
      if ns == [] then map[]
      else
        var n := |ns| - 1;
        assert ns == ns[..n] + [ns[n]];
        StartTable(ns[..n])[ns[n] := Start(ns[n])]
    }

    function Walkers(ns: seq<string>): (ws: seq<string>)
      requires forall k :: k in ns ==> k in base
      ensures forall k :: k in ws <==> k in ns && !Frozen(k)
      ensures |ws| <= |ns|
    {
      if ns == [] then []
      else
        var n := |ns| - 1;
        assert ns == ns[..n] + [ns[n]];
        Walkers(ns[..n]) + if Frozen(ns[n]) then [] else [ns[n]]
    }

    /** One transfer, when it keeps both kingdoms inside their bounds. */
    function Transfer(t: Table, a: string, b: string): (u: Table)
      requires a in base && b in base && a in t && b in t
      ensures u.Keys == t.Keys && (a == b ==> u == t) && t[a] <= u[a] <= t[a] + 1 && t[b] - 1 <= u[b] <= t[b]
    {
      if a != b && t[a] < Hi(a) && t[b] > Lo(b) then t[a := t[a] + 1][b := t[b] - 1] else t
    }

    /** The walk: `rolls` are pairs of random numbers, one pair a step. */
    function Walk(t: Table, ws: seq<string>, rolls: seq<(nat, nat)>, steps: nat): Table
      requires ws != [] && forall k :: k in ws ==> k in base && k in t
      decreases steps
    {
      if steps == 0 then t
      else
        var (i, j) := Roll(rolls);
        Walk(Transfer(t, Pick(ws, i), Pick(ws, j)), ws, Later(rolls), steps - 1)
    }

    /** `roll_kingdom_gates`. */
    function Rolled(rolls: seq<(nat, nat)>): Table
      requires Valid()
    {
      var ws := Walkers(names);
      if |ws| >= 2 then Walk(StartTable(names), ws, rolls, STEPS_PER_KINGDOM * |ws|) else StartTable(names)
    }
  }

  /** `walkers[rng.randint(0, len(walkers) - 1)]`. */
  function Pick(ws: seq<string>, i: nat): (k: string)
    requires ws != []
    ensures k in ws
  {
    ws[i % |ws|]
  }

  function Roll(rolls: seq<(nat, nat)>): (nat, nat) {
    if rolls == [] then (0, 0) else rolls[0]
  }

  function Later(rolls: seq<(nat, nat)>): seq<(nat, nat)> {
    if rolls == [] then [] else rolls[1..]
  }

  method RollKingdomGates(s: Setup, rolls: seq<(nat, nat)>) returns (value: Table)
    requires s.Valid()
    ensures value == s.Rolled(rolls)
  {
    hide Setup.Walk, Setup.StartTable, Setup.Walkers;
    var start, walkers, lo, hi := FillTables(s);
    value := start;
    if |walkers| >= 2 {
      value := WalkAll(s, start, walkers, lo, hi, rolls);
    }
  }

  /** The bounds the walk keeps to. */
  ghost predicate HasBounds(s: Setup, walkers: seq<string>, lo: Table, hi: Table) {
    forall k :: k in walkers ==> k in s.base && k in lo && k in hi && lo[k] == s.Lo(k) && hi[k] == s.Hi(k)
  }

  method FillTables(s: Setup) returns (value: Table, walkers: seq<string>, lo: Table, hi: Table)
    requires s.Valid()
    ensures value == s.StartTable(s.names) && walkers == s.Walkers(s.names) && HasBounds(s, walkers, lo, hi)
  {
    hide Setup.StartTable, Setup.Walkers, Setup.Lo, Setup.Hi, Setup.Start, Setup.Frozen, HasBounds;
    value, walkers, lo, hi := map[], [], map[], map[];
    var i := 0;
    NoneYet(s);
    while i < |s.names|
      invariant 0 <= i <= |s.names| && HasBounds(s, walkers, lo, hi)
      invariant value == s.StartTable(s.names[..i]) && walkers == s.Walkers(s.names[..i])
    {
      var kingdom := s.names[i];
      OneMore(s, i);
      var kLo, kHi, start := Enter(s, kingdom);
      FrozenMeans(s, kingdom);
      if kHi >= kLo {
        MoreBounds(s, walkers, lo, hi, kingdom);
        lo, hi := lo[kingdom := kLo], hi[kingdom := kHi];
        walkers := walkers + [kingdom];
      }
      value := value[kingdom := start];
      i := i + 1;
    }
    assert s.names[..i] == s.names;
  }

  lemma MoreBounds(s: Setup, walkers: seq<string>, lo: Table, hi: Table, k: string)
    requires k in s.base && HasBounds(s, walkers, lo, hi)
    ensures HasBounds(s, walkers + [k], lo[k := s.Lo(k)], hi[k := s.Hi(k)])
  {
  }

  lemma FrozenMeans(s: Setup, k: string)
    requires k in s.base
    ensures s.Frozen(k) <==> s.Hi(k) < s.Lo(k)
  {
  }

  /** Bounds and first value of one kingdom. */
  method Enter(s: Setup, kingdom: string) returns (kLo: int, kHi: int, start: int)
    requires kingdom in s.base
    ensures kLo == s.Lo(kingdom) && kHi == s.Hi(kingdom) && start == s.Start(kingdom)
  {
    var vanilla := s.base[kingdom];
    kLo, kHi := Max(1, vanilla - SPREAD), vanilla + SPREAD;
    if kingdom in s.caps {
      kHi := KingdomMoons.Min(kHi, s.caps[kingdom]);
    }
    if kHi < kLo {
      start := Max(1, kHi);
    } else {
      start := if kLo <= vanilla <= kHi then vanilla else kHi;
    }
  }

  lemma NoneYet(s: Setup)
    requires s.Valid()
    ensures s.StartTable(s.names[..0]) == map[] && s.Walkers(s.names[..0]) == []
    ensures HasBounds(s, [], map[], map[])
  {
    assert s.names[..0] == [];
  }

  lemma OneMore(s: Setup, i: nat)
    requires s.Valid() && i < |s.names|
    ensures var k := s.names[i];
            && s.StartTable(s.names[..i + 1]) == s.StartTable(s.names[..i])[k := s.Start(k)]
            && s.Walkers(s.names[..i + 1]) == s.Walkers(s.names[..i]) + if s.Frozen(k) then [] else [k]
  {
    hide Setup.Frozen, Setup.Start;
    assert s.names[..i + 1][..i] == s.names[..i];
  }

  lemma WalkStep(s: Setup, t: Table, ws: seq<string>, rolls: seq<(nat, nat)>, steps: nat)
    requires ws != [] && steps > 0 && forall k :: k in ws ==> k in s.base && k in t
    ensures var (i, j) := Roll(rolls);
            s.Walk(t, ws, rolls, steps) ==
            s.Walk(s.Transfer(t, Pick(ws, i), Pick(ws, j)), ws, Later(rolls), steps - 1)
  {
  }

  lemma WalkDone(s: Setup, t: Table, ws: seq<string>, rolls: seq<(nat, nat)>)
    requires ws != [] && forall k :: k in ws ==> k in s.base && k in t
    ensures s.Walk(t, ws, rolls, 0) == t
  {
  }

  method WalkAll(s: Setup, start: Table, walkers: seq<string>, lo: Table, hi: Table, rolls: seq<(nat, nat)>)
    returns (value: Table)
    requires walkers != [] && HasBounds(s, walkers, lo, hi) && forall k :: k in walkers ==> k in start
    ensures value == s.Walk(start, walkers, rolls, STEPS_PER_KINGDOM * |walkers|)
  {
    hide Pick, Setup.Lo, Setup.Hi, Setup.Walk;
    value := start;
    var left, rng := STEPS_PER_KINGDOM * |walkers|, rolls;
    while left > 0
      invariant 0 <= left && value.Keys == start.Keys
      invariant s.Walk(start, walkers, rolls, STEPS_PER_KINGDOM * |walkers|) == s.Walk(value, walkers, rng, left)
    {
      var (i, j) := Roll(rng);
      var a, b := Pick(walkers, i), Pick(walkers, j);
      assert a in walkers && b in walkers;
      WalkStep(s, value, walkers, rng, left);
      rng, left := Later(rng), left - 1;
      if a != b && value[a] < hi[a] && value[b] > lo[b] {
        value := value[a := value[a] + 1];
        value := value[b := value[b] - 1];
      }
    }
    WalkDone(s, value, walkers, rng);
  }

  // ---------------------------------------------------------------- safety

  function Total(t: Table, ns: seq<string>): int
    requires forall k :: k in ns ==> k in t
  {
    if ns == [] then 0
    else
      var n := |ns| - 1;
      assert ns == ns[..n] + [ns[n]];
      Total(t, ns[..n]) + t[ns[n]]
  }

  /** A table a walk may pass through. */
  ghost predicate Fair(s: Setup, t: Table)
    requires s.Valid()
  {
    && (forall k :: k in t <==> k in s.names)
    && (forall k :: k in s.names ==>
        if s.Frozen(k) then t[k] == s.Start(k) else s.Lo(k) <= t[k] <= s.Hi(k))
  }

  lemma {:induction false} TotalUpdate(t: Table, ns: seq<string>, k: string, x: int)
    requires NoRepeats(ns) && forall n :: n in ns ==> n in t
    ensures Total(t[k := x], ns) == if k in ns then Total(t, ns) - t[k] + x else Total(t, ns)
  {
    if ns != [] {
      var n := |ns| - 1;
      assert ns == ns[..n] + [ns[n]];
      TotalUpdate(t, ns[..n], k, x);
      if k == ns[n] {
        assert forall i :: 0 <= i < n ==> ns[i] != k;
        assert k !in ns[..n];
      }
    }
  }

  lemma TransferKeeps(s: Setup, t: Table, a: string, b: string)
    requires s.Valid() && Fair(s, t) && a in s.names && b in s.names && !s.Frozen(a) && !s.Frozen(b)
    ensures Fair(s, s.Transfer(t, a, b))
    ensures Total(s.Transfer(t, a, b), s.names) == Total(t, s.names)
  {
    hide Total;
    if a != b && t[a] < s.Hi(a) && t[b] > s.Lo(b) {
      TotalUpdate(t, s.names, a, t[a] + 1);
      TotalUpdate(t[a := t[a] + 1], s.names, b, t[b] - 1);
    }
  }

  lemma InTable(s: Setup, t: Table)
    requires s.Valid() && Fair(s, t)
    ensures forall k :: k in s.names ==> k in s.base && k in t
  {
  }

  lemma {:induction false} WalkKeeps(s: Setup, t: Table, ws: seq<string>, rolls: seq<(nat, nat)>, steps: nat)
    requires s.Valid() && Fair(s, t) && ws != []
    requires forall k :: k in ws ==> k in s.names && !s.Frozen(k)
    ensures Fair(s, s.Walk(t, ws, rolls, steps))
    ensures Total(s.Walk(t, ws, rolls, steps), s.names) == Total(t, s.names)
    decreases steps
  {
    hide Pick, Fair, Total, Setup.Transfer;
    InTable(s, t);
    if steps > 0 {
      var (i, j) := Roll(rolls);
      TransferKeeps(s, t, Pick(ws, i), Pick(ws, j));
      WalkKeeps(s, s.Transfer(t, Pick(ws, i), Pick(ws, j)), ws, Later(rolls), steps - 1);
    }
  }

  ghost predicate VanillaPositive(s: Setup)
    requires s.Valid()
  {
    forall k :: k in s.names ==> s.base[k] >= 1
  }

  lemma StartFair(s: Setup)
    requires s.Valid() && VanillaPositive(s)
    ensures Fair(s, s.StartTable(s.names))
  {
  }

  /** Every run of random numbers: good gates, and the total of the starting table. */
  lemma GatesSafe(s: Setup, rolls: seq<(nat, nat)>)
    requires s.Valid() && VanillaPositive(s)
    ensures GoodGates(s, s.Rolled(rolls))
    ensures Total(s.Rolled(rolls), s.names) == Total(s.StartTable(s.names), s.names)
  {
    hide Fair, GoodGates, Total, Setup.Walk, Setup.StartTable, Setup.Walkers;
    StartFair(s);
    var ws, t := s.Walkers(s.names), s.StartTable(s.names);
    FairIsGood(s, t);
    if |ws| >= 2 {
      var u := s.Walk(t, ws, rolls, STEPS_PER_KINGDOM * |ws|);
      WalkKeeps(s, t, ws, rolls, STEPS_PER_KINGDOM * |ws|);
      FairIsGood(s, u);
    }
  }

  /** What the option promises of a gate: at least 1, within 5 of vanilla, and no more than the
      pool can pay. Where the pool cannot pay even the least of these, it is all that the pool
      can pay, but at least 1. */
  predicate GoodGate(vanilla: int, cap: Option<nat>, gate: int) {
    if cap.Some? && (cap.value < 1 || cap.value < vanilla - 5) then gate == if cap.value >= 1 then cap.value else 1
    else gate >= 1 && vanilla - 5 <= gate <= vanilla + 5 && (cap.Some? ==> gate <= cap.value)
  }

  function CapOf(s: Setup, k: string): Option<nat> {
    if k in s.caps then Some(s.caps[k]) else None
  }

  ghost predicate GoodGates(s: Setup, t: Table)
    requires s.Valid()
  {
    && (forall k :: k in t <==> k in s.names)
    && (forall k :: k in s.names ==> GoodGate(s.base[k], CapOf(s, k), t[k]))
  }

  lemma FairIsGood(s: Setup, t: Table)
    requires s.Valid() && VanillaPositive(s)
    ensures Fair(s, t) <==> GoodGates(s, t)
  {
  }

  lemma {:induction false} SameTotal(t: Table, u: Table, ns: seq<string>)
    requires forall k :: k in ns ==> k in t && k in u && t[k] == u[k]
    ensures Total(t, ns) == Total(u, ns)
  {
    if ns != [] {
      assert ns == ns[..|ns| - 1] + [ns[|ns| - 1]];
      SameTotal(t, u, ns[..|ns| - 1]);
    }
  }

  /** What a kingdom starts with: its vanilla gate, but no more than the pool can pay and no
      less than one. */
  function Clamped(s: Setup, k: string): int
    requires k in s.base
  {
    if k in s.caps && s.caps[k] < s.base[k] then (if s.caps[k] >= 1 then s.caps[k] else 1) else s.base[k]
  }

  lemma StartIsClamped(s: Setup, k: string)
    requires k in s.base && s.base[k] >= 1
    ensures s.Start(k) == Clamped(s, k)
  {
  }

  function SumOf(s: Setup, ns: seq<string>): int
    requires forall k :: k in ns ==> k in s.base
  {
    if ns == [] then 0
    else
      var n := |ns| - 1;
      assert ns == ns[..n] + [ns[n]];
      SumOf(s, ns[..n]) + Clamped(s, ns[n])
  }

  lemma {:induction false} StartTotal(s: Setup, t: Table, ns: seq<string>)
    requires forall k :: k in ns ==> k in s.base && k in t && s.base[k] >= 1 && t[k] == s.Start(k)
    ensures Total(t, ns) == SumOf(s, ns)
  {
    hide Setup.Start, Clamped;
    if ns != [] {
      var n := |ns| - 1;
      assert ns == ns[..n] + [ns[n]];
      StartTotal(s, t, ns[..n]);
      StartIsClamped(s, ns[n]);
    }
  }

  /** The total of every rolled table: the vanilla gates, each cut to what the pool can pay but
      at least one. */
  lemma RolledTotal(s: Setup, rolls: seq<(nat, nat)>)
    requires s.Valid() && VanillaPositive(s)
    ensures GoodGates(s, s.Rolled(rolls)) && Total(s.Rolled(rolls), s.names) == SumOf(s, s.names)
  {
    hide Setup.Rolled, Total, Setup.Start, GoodGate;
    GatesSafe(s, rolls);
    StartTotal(s, s.StartTable(s.names), s.names);
  }

  /** With capacities of at least vanilla the total is the vanilla total. */
  lemma VanillaTotal(s: Setup, rolls: seq<(nat, nat)>)
    requires s.Valid() && VanillaPositive(s)
    requires forall k :: k in s.names && k in s.caps ==> s.caps[k] >= s.base[k]
    ensures GoodGates(s, s.Rolled(rolls)) && Total(s.Rolled(rolls), s.names) == Total(s.base, s.names)
  {
    hide Setup.Rolled, Total, GoodGate;
    GatesSafe(s, rolls);
    SameTotal(s.StartTable(s.names), s.base, s.names);
  }

  // ----------------------------------------------------- every outcome is possible

  function Gap(t: Table, u: Table, k: string): nat
    requires k in t && k in u
  {
    if t[k] < u[k] then u[k] - t[k] else t[k] - u[k]
  }

  function Distance(t: Table, u: Table, ns: seq<string>): nat
    requires forall k :: k in ns ==> k in t && k in u
  {
    if ns == [] then 0
    else
      var n := |ns| - 1;
      assert ns == ns[..n] + [ns[n]];
      Distance(t, u, ns[..n]) + Gap(t, u, ns[n])
  }

  lemma {:induction false} DistanceUpdate(t: Table, u: Table, ns: seq<string>, k: string, x: int)
    requires NoRepeats(ns) && forall n :: n in ns ==> n in t && n in u
    ensures Distance(t[k := x], u, ns) ==
            if k in ns then Distance(t, u, ns) - Gap(t, u, k) + Gap(t[k := x], u, k) else Distance(t, u, ns)
  {
    if ns != [] {
      var n := |ns| - 1;
      assert ns == ns[..n] + [ns[n]];
      DistanceUpdate(t, u, ns[..n], k, x);
      if k == ns[n] {
        assert forall i :: 0 <= i < n ==> ns[i] != k;
        assert k !in ns[..n];
      }
    }
  }

  /** If no gate is too low, the table's total is at least the goal's; equal only when the
      tables are. */
  lemma {:induction false} NoneLower(t: Table, u: Table, ns: seq<string>)
    requires forall k :: k in ns ==> k in t && k in u && t[k] >= u[k]
    ensures Total(t, ns) == Total(u, ns) + Distance(t, u, ns)
  {
    if ns != [] {
      assert ns == ns[..|ns| - 1] + [ns[|ns| - 1]];
      NoneLower(t, u, ns[..|ns| - 1]);
    }
  }

  lemma {:induction false} NoneHigher(t: Table, u: Table, ns: seq<string>)
    requires forall k :: k in ns ==> k in t && k in u && t[k] <= u[k]
    ensures Total(u, ns) == Total(t, ns) + Distance(t, u, ns)
  {
    if ns != [] {
      assert ns == ns[..|ns| - 1] + [ns[|ns| - 1]];
      NoneHigher(t, u, ns[..|ns| - 1]);
    }
  }

  lemma {:induction false} ZeroDistance(t: Table, u: Table, ns: seq<string>)
    requires (forall k :: k in ns ==> k in t && k in u) && Distance(t, u, ns) == 0
    ensures forall k :: k in ns ==> t[k] == u[k]
  {
    if ns != [] {
      assert ns == ns[..|ns| - 1] + [ns[|ns| - 1]];
      ZeroDistance(t, u, ns[..|ns| - 1]);
    }
  }

  /** Two fair tables of one total that differ: some gate can still rise while another
      falls. */
  lemma Unsettled(s: Setup, t: Table, u: Table) returns (a: string, b: string)
    requires s.Valid() && Fair(s, t) && Fair(s, u) && Total(t, s.names) == Total(u, s.names)
    requires Distance(t, u, s.names) > 0
    ensures a in s.names && b in s.names && !s.Frozen(a) && !s.Frozen(b)
    ensures t[a] < u[a] && t[b] > u[b]
  {
    if forall k :: k in s.names ==> t[k] >= u[k] {
      NoneLower(t, u, s.names);
      assert false;
    }
    if forall k :: k in s.names ==> t[k] <= u[k] {
      NoneHigher(t, u, s.names);
      assert false;
    }
    a :| a in s.names && t[a] < u[a];
    b :| b in s.names && t[b] > u[b];
  }

  /** Where in a list. */
  lemma PlaceOf(ws: seq<string>, k: string) returns (i: nat)
    requires k in ws
    ensures Pick(ws, i) == k
  {
    i :| i < |ws| && ws[i] == k;
    assert i % |ws| == i;
  }

  lemma TransferCloser(s: Setup, t: Table, u: Table, a: string, b: string)
    requires s.Valid() && Fair(s, t) && Fair(s, u) && a in s.names && b in s.names && !s.Frozen(a) && !s.Frozen(b)
    requires t[a] < u[a] && t[b] > u[b]
    ensures Fair(s, s.Transfer(t, a, b)) && Total(s.Transfer(t, a, b), s.names) == Total(t, s.names)
    ensures Distance(s.Transfer(t, a, b), u, s.names) == Distance(t, u, s.names) - 2
  {
    TransferKeeps(s, t, a, b);
    DistanceUpdate(t, u, s.names, a, t[a] + 1);
    DistanceUpdate(t[a := t[a] + 1], u, s.names, b, t[b] - 1);
  }

  lemma FairEqual(s: Setup, t: Table, u: Table)
    requires s.Valid() && Fair(s, t) && Fair(s, u) && Distance(t, u, s.names) == 0
    ensures t == u
  {
    ZeroDistance(t, u, s.names);
  }

  /** A walk with enough steps can end in any fair table of the same total. */
  lemma {:induction false} WalkTo(s: Setup, t: Table, u: Table, ws: seq<string>, steps: nat)
    returns (rolls: seq<(nat, nat)>)
    requires s.Valid() && Fair(s, t) && Fair(s, u) && Total(t, s.names) == Total(u, s.names)
    requires ws == s.Walkers(s.names) && ws != [] && Distance(t, u, s.names) <= 2 * steps
    ensures s.Walk(t, ws, rolls, steps) == u
    decreases steps
  {
    hide Pick, Fair, Total, Distance, Setup.Transfer, Setup.Walkers, Setup.Walk, Roll, Later;
    rolls := [];
    InTable(s, t);
    InTable(s, u);
    if steps == 0 {
      WalkDone(s, t, ws, rolls);
      FairEqual(s, t, u);
    } else if Distance(t, u, s.names) == 0 {
      StandStill(s, t, ws, steps);
      FairEqual(s, t, u);
    } else {
      var a, b := Unsettled(s, t, u);
      TransferCloser(s, t, u, a, b);
      var i := PlaceOf(ws, a);
      var j := PlaceOf(ws, b);
      var rest := WalkTo(s, s.Transfer(t, a, b), u, ws, steps - 1);
      rolls := [(i, j)] + rest;
      FirstRoll(i, j, rest);
      WalkStep(s, t, ws, rolls, steps);
    }
  }

  lemma FirstRoll(i: nat, j: nat, rest: seq<(nat, nat)>)
    ensures Roll([(i, j)] + rest) == (i, j) && Later([(i, j)] + rest) == rest
  {
  }

  lemma {:induction false} StandStill(s: Setup, t: Table, ws: seq<string>, steps: nat)
    requires ws != [] && forall k :: k in ws ==> k in s.base && k in t
    ensures s.Walk(t, ws, [], steps) == t
    decreases steps
  {
    if steps > 0 {
      StandStill(s, t, ws, steps - 1);
    }
  }

  lemma GapSmall(s: Setup, t: Table, u: Table, k: string)
    requires s.Valid() && Fair(s, t) && Fair(s, u) && k in s.names
    ensures Gap(t, u, k) <= if s.Frozen(k) then 0 else 10
  {
  }

  lemma {:induction false} NearEnough(s: Setup, t: Table, u: Table, ns: seq<string>)
    requires s.Valid() && Fair(s, t) && Fair(s, u) && forall k :: k in ns ==> k in s.names
    ensures Distance(t, u, ns) <= 10 * |s.Walkers(ns)|
  {
    hide Fair, Gap, Setup.Frozen;
    InTable(s, t);
    InTable(s, u);
    if ns != [] {
      var n := |ns| - 1;
      assert ns == ns[..n] + [ns[n]];
      NearEnough(s, t, u, ns[..n]);
      GapSmall(s, t, u, ns[n]);
    }
  }

  lemma TwoOf(ws: seq<string>, a: string, b: string)
    requires a in ws && b in ws && a != b
    ensures |ws| >= 2
  {
  }

  /** Every outcome is possible: each table of good gates whose total is that of the vanilla
      gates, each cut to what the pool can pay but at least one, is rolled by some random
      sequence within the fixed step budget. */
  lemma EveryTablePossible(s: Setup, u: Table) returns (rolls: seq<(nat, nat)>)
    requires s.Valid() && VanillaPositive(s)
    requires GoodGates(s, u) && Total(u, s.names) == SumOf(s, s.names)
    ensures s.Rolled(rolls) == u
  {
    hide Fair, GoodGate, Total, Distance, Setup.Walk, Setup.StartTable, Setup.Walkers, Setup.Frozen, Setup.Start;
    StartFair(s);
    FairIsGood(s, u);
    var t, ws := s.StartTable(s.names), s.Walkers(s.names);
    InTable(s, t);
    StartTotal(s, t, s.names);
    InTable(s, u);
    NearEnough(s, t, u, s.names);
    if |ws| >= 2 {
      rolls := WalkTo(s, t, u, ws, STEPS_PER_KINGDOM * |ws|);
    } else {
      rolls := [];
      if Distance(t, u, s.names) > 0 {
        var a, b := Unsettled(s, t, u);
        TwoOf(ws, a, b);
      }
      FairEqual(s, t, u);
    }
  }

  // ------------------------------------------------------------- the step budget

  function Idle(n: nat): (rolls: seq<(nat, nat)>)
    ensures |rolls| == n
  {
    if n == 0 then [] else [(0, 0)] + Idle(n - 1)
  }

  lemma IdleAhead(n: nat, rest: seq<(nat, nat)>)
    ensures n == 0 ==> Idle(n) + rest == rest
    ensures n > 0 ==> Roll(Idle(n) + rest) == (0, 0) && Later(Idle(n) + rest) == Idle(n - 1) + rest
  {
  }

  lemma {:induction false} WalkIdle(s: Setup, t: Table, ws: seq<string>, n: nat, rest: seq<(nat, nat)>, steps: nat)
    requires ws != [] && forall k :: k in ws ==> k in s.base && k in t
    ensures s.Walk(t, ws, Idle(n) + rest, n + steps) == s.Walk(t, ws, rest, steps)
    decreases n
  {
    hide Pick, Setup.Transfer, Setup.Walk, Idle, Later, Roll;
    IdleAhead(n, rest);
    if n > 0 {
      WalkStep(s, t, ws, Idle(n) + rest, n + steps);
      WalkIdle(s, t, ws, n - 1, rest, steps);
    }
  }

  /** The budget is 16 steps for each kingdom that walks: the last of them still counts, and
      what the generator would give after it is never asked for. */
  lemma LastStep(s: Setup, ws: seq<string>, i: nat, j: nat, more: seq<(nat, nat)>)
    requires s.Valid() && ws == s.Walkers(s.names) && |ws| >= 2
    ensures s.Rolled(Idle(16 * |ws| - 1) + ([(i, j)] + more)) ==
            s.Transfer(s.StartTable(s.names), ws[i % |ws|], ws[j % |ws|])
  {
    hide Setup.Transfer, Setup.StartTable, Setup.Walkers, Setup.Walk, Idle;
    WalkLast(s, s.StartTable(s.names), ws, i, j, more, 16 * |ws| - 1);
  }

  lemma WalkLast(s: Setup, t: Table, ws: seq<string>, i: nat, j: nat, more: seq<(nat, nat)>, n: nat)
    requires ws != [] && forall k :: k in ws ==> k in s.base && k in t
    ensures s.Walk(t, ws, Idle(n) + ([(i, j)] + more), n + 1) == s.Transfer(t, ws[i % |ws|], ws[j % |ws|])
  {
    hide Setup.Transfer, Idle;
    var rest := [(i, j)] + more;
    WalkIdle(s, t, ws, n, rest, 1);
    assert Roll(rest) == (i, j);
  }

  // ------------------------------------------------------- the rule it feeds

  /** A rolled gate is one the pool can pay: with capacities taken from the pool, the
      `KingdomMoons` rule for it holds once every moon of the kingdom has been received,
      provided the kingdom has any. */
  lemma RolledGateOpens(s: Setup, rolls: seq<(nat, nat)>, gates: Table, pool: seq<string>, k: string,
                        counts: RuleReader.Counts, calls: RuleReader.Calls)
    requires s.Valid() && VanillaPositive(s) && gates == s.Rolled(rolls) && k in s.names && k in gates
    requires Syntax.GoodName(k)
    requires k in s.caps && s.caps[k] == Capacity(pool, k) >= 1
    requires counts(KingdomMoons.MultiMoon(k)) >= multiset(pool)[KingdomMoons.MultiMoon(k)]
    requires counts(KingdomMoons.PowerMoon(k)) >= multiset(pool)[KingdomMoons.PowerMoon(k)]
    ensures KingdomMoons.Says(
              KingdomMoons.Gate(k, gates[k], multiset(pool)[KingdomMoons.MultiMoon(k)],
                                multiset(pool)[KingdomMoons.PowerMoon(k)]), counts, calls)
  {
    hide KingdomMoons.Says, KingdomMoons.Gate, KingdomMoons.MultiMoon, KingdomMoons.PowerMoon, RuleReader.CheckRequire;
    hide Setup.Rolled, Fair;
    GatesSafe(s, rolls);
    KingdomMoons.GateIsPower(k, gates[k], multiset(pool)[KingdomMoons.MultiMoon(k)],
                             multiset(pool)[KingdomMoons.PowerMoon(k)], counts, calls);
  }
}
