/** Entrance shuffle (entrance_logic.py): the pool filter and the remap rows, and the
    console's lookup that sends a player walking through doors (ApState.cpp and
    EntranceShuffleHook.cpp). */
module EntranceRemap {
  import opened Text

  /** A subarea's record; a missing or empty field is the empty text. */
  datatype Subarea = Subarea(stage: string, entryId: string, exitDest: string, exitId: string)

  type Stages = map<string, Subarea>

  datatype Row = Row(isExit: bool, from: string, toStage: string, toId: string)

  /** A door and the interior behind it. */
  datatype Pair = Pair(door: string, interior: string)

  // ------------------------------------------------------------------ the pool

  /** `is_round_trippable`. */
  predicate RoundTrippable(name: string, t: Stages) {
    name in t && t[name].stage != "" && t[name].entryId != ""
  }

  function Kept(names: seq<string>, excluded: set<string>, t: Stages): (r: seq<string>)
    ensures forall n :: n in r <==> n in names && n !in excluded && RoundTrippable(n, t)
  {
    if names == [] then []
    else
      var n := |names| - 1;
      assert names == names[..n] + [names[n]];
      Kept(names[..n], excluded, t)
      + if names[n] !in excluded && RoundTrippable(names[n], t) then [names[n]] else []
  }

  method BuildEntrancePool(subareas: seq<string>, exclusions: seq<seq<string>>, t: Stages) returns (pool: seq<string>)
    ensures forall n :: n in pool <==>
              && n in subareas && !(exists e :: e in exclusions && n in e)
              && n in t && t[n].stage != "" && t[n].entryId != ""
    ensures multiset(pool) <= multiset(subareas) && Ascending(pool)
  {
    var excluded: set<string> := {};
    var i := 0;
    while i < |exclusions|
      invariant 0 <= i <= |exclusions|
      invariant forall n :: n in excluded <==> exists e :: e in exclusions[..i] && n in e
    {
      assert exclusions[..i + 1] == exclusions[..i] + [exclusions[i]];
      excluded := excluded + set n | n in exclusions[i];
      i := i + 1;
    }
    assert exclusions[..i] == exclusions;
    var kept := Filter(subareas, excluded, t);
    SortedTerms(kept);
    SortedAscending(kept);
    KeptFew(subareas, excluded, t);
    pool := Sorted(kept);
  }

  method Filter(names: seq<string>, excluded: set<string>, t: Stages) returns (kept: seq<string>)
    ensures kept == Kept(names, excluded, t)
  {
    kept := [];
    var i := 0;
    while i < |names|
      invariant 0 <= i <= |names|
      invariant kept == Kept(names[..i], excluded, t)
    {
      assert names[..i + 1][..i] == names[..i];
      if names[i] !in excluded && RoundTrippable(names[i], t) {
        kept := kept + [names[i]];
      }
      i := i + 1;
    }
    assert names[..i] == names;
  }

  lemma {:induction false} KeptFew(names: seq<string>, excluded: set<string>, t: Stages)
    ensures multiset(Kept(names, excluded, t)) <= multiset(names)
  {
    if names != [] {
      var n := |names| - 1;
      assert names == names[..n] + [names[n]];
      KeptFew(names[..n], excluded, t);
    }
  }

  // ------------------------------------------------------------------ the rows

  predicate FullExit(s: Subarea) {
    s.exitDest != "" && s.exitId != ""
  }

  /** The rows of one pair; an identity pair and one with an unknown name have none. */
  function PairRows(p: Pair, t: Stages): seq<Row> {
    if p.door == p.interior || p.door !in t || p.interior !in t then []
    else
      var d, i := t[p.door], t[p.interior];
      (if d.stage != "" && i.stage != "" && i.entryId != "" then [Row(false, d.stage, i.stage, i.entryId)] else [])
      + (if i.stage != "" && FullExit(d) then [Row(true, i.stage, d.exitDest, d.exitId)] else [])
  }

  function Rows(pairs: seq<Pair>, t: Stages): seq<Row> {
    if pairs == [] then [] else PairRows(pairs[0], t) + Rows(pairs[1..], t)
  }

  method CompileStageRemaps(pairs: seq<Pair>, t: Stages) returns (rows: seq<Row>)
    ensures rows == Rows(pairs, t)
  {
    hide Rows, PairRows;
    rows := [];
    var k := 0;
    RowsStart(pairs, t);
    while k < |pairs|
      invariant 0 <= k <= |pairs|
      invariant Rows(pairs, t) == rows + Rows(pairs[k..], t)
    {
      RowsStep(rows, pairs, t, k);
      rows := AppendPair(rows, pairs[k], t);
      k := k + 1;
    }
    RowsEnd(rows, pairs, t);
  }

  lemma RowsStart(pairs: seq<Pair>, t: Stages)
    ensures Rows(pairs, t) == [] + Rows(pairs[0..], t)
  {
    assert pairs[0..] == pairs;
  }

  lemma RowsStep(done: seq<Row>, pairs: seq<Pair>, t: Stages, k: nat)
    requires k < |pairs|
    ensures done + Rows(pairs[k..], t) == done + PairRows(pairs[k], t) + Rows(pairs[k + 1..], t)
  {
    hide PairRows;
    assert pairs[k..][0] == pairs[k] && pairs[k..][1..] == pairs[k + 1..];
  }

  lemma RowsEnd(done: seq<Row>, pairs: seq<Pair>, t: Stages)
    ensures done + Rows(pairs[|pairs|..], t) == done
  {
    assert pairs[|pairs|..] == [];
  }

  method AppendPair(before: seq<Row>, p: Pair, t: Stages) returns (rows: seq<Row>)
    ensures rows == before + PairRows(p, t)
  {
    rows := before;
    if p.door == p.interior || p.door !in t || p.interior !in t {
      return;
    }
    var d, i := t[p.door], t[p.interior];
    if d.stage != "" && i.stage != "" && i.entryId != "" {
      rows := rows + [Row(false, d.stage, i.stage, i.entryId)];
    }
    if i.stage != "" && FullExit(d) {
      rows := rows + [Row(true, i.stage, d.exitDest, d.exitId)];
    }
  }

  /** The row leads from the door into the interior, or from the interior to where the door's
      own interior lets out, and has everything: its key, and the stage and the place there. */
  predicate Joins(r: Row, p: Pair, t: Stages) {
    && p.door != p.interior && p.door in t && p.interior in t
    && r.from != "" && r.toStage != "" && r.toId != ""
    && r == if r.isExit then Row(true, t[p.interior].stage, t[p.door].exitDest, t[p.door].exitId)
            else Row(false, t[p.door].stage, t[p.interior].stage, t[p.interior].entryId)
  }

  /** Whatever the pairs: the rows are those that join one of them. */
  lemma {:induction false} RowsExactly(pairs: seq<Pair>, t: Stages, r: Row)
    ensures r in Rows(pairs, t) <==> exists p :: p in pairs && Joins(r, p, t)
  {
    if pairs != [] {
      assert pairs == [pairs[0]] + pairs[1..];
      RowsExactly(pairs[1..], t, r);
      assert r in PairRows(pairs[0], t) <==> Joins(r, pairs[0], t);
    }
  }

  // ------------------------------------------------------------ the console's part

  datatype Coord = Coord(stage: string, id: string)

  function FirstRow(rows: seq<Row>, isExit: bool, key: string): Option<Row> {
    if rows == [] then None
    else if rows[0].isExit == isExit && rows[0].from == key then Some(rows[0])
    else FirstRow(rows[1..], isExit, key)
  }

  /** Entry rows by destination first, then exit rows by the stage being left. */
  function Lookup(rows: seq<Row>, dest: string, cur: string): Option<Row> {
    var entry := if dest != "" then FirstRow(rows, false, dest) else None;
    if entry.Some? then entry
    else if cur != "" then FirstRow(rows, true, cur)
    else None
  }

  method LookupEntranceRemap(rows: seq<Row>, dest: string, cur: string) returns (hit: Option<Row>)
    ensures hit == Lookup(rows, dest, cur)
  {
    hit := None;
    if dest != "" {
      hit := FindRow(rows, false, dest);
    }
    if hit.None? && cur != "" {
      hit := FindRow(rows, true, cur);
    }
  }

  method FindRow(rows: seq<Row>, isExit: bool, key: string) returns (hit: Option<Row>)
    ensures hit == FirstRow(rows, isExit, key)
  {
    var i := 0;
    assert rows[0..] == rows;
    while i < |rows|
      invariant 0 <= i <= |rows|
      invariant FirstRow(rows, isExit, key) == FirstRow(rows[i..], isExit, key)
    {
      assert rows[i..][0] == rows[i] && rows[i..][1..] == rows[i + 1..];
      if rows[i].isExit == isExit && rows[i].from == key {
        return Some(rows[i]);
      }
      i := i + 1;
    }
    return None;
  }

  /** Where a stage change ends up; a reload of the current stage is left alone. */
  function Redirect(rows: seq<Row>, cur: string, to: Coord): Coord {
    if to.stage == "" || to.stage == cur then to
    else
      match Lookup(rows, to.stage, cur)
      case None => to
      case Some(row) => Coord(row.toStage, row.toId)
  }

  /** Whatever the rows, reloading a stage is not redirected. */
  lemma ReloadStays(rows: seq<Row>, at: Coord)
    ensures Redirect(rows, at.stage, at) == at
  {
  }

  // ------------------------------------------------------- what the rows contain

  /** A shuffle of round-trippable subareas with distinct stages. */
  ghost predicate Shuffle(pairs: seq<Pair>, t: Stages) {
    && (forall p :: p in pairs ==> RoundTrippable(p.door, t) && RoundTrippable(p.interior, t))
    && (forall i, j :: 0 <= i < j < |pairs| ==> t[pairs[i].door].stage != t[pairs[j].door].stage)
    && (forall i, j :: 0 <= i < j < |pairs| ==> t[pairs[i].interior].stage != t[pairs[j].interior].stage)
  }

  lemma ShuffleTail(pairs: seq<Pair>, t: Stages)
    requires pairs != [] && Shuffle(pairs, t)
    ensures Shuffle(pairs[1..], t)
    ensures forall p :: p in pairs[1..] ==>
              t[p.door].stage != t[pairs[0].door].stage && t[p.interior].stage != t[pairs[0].interior].stage
  {
  }

  lemma {:induction false} FirstRowAppend(a: seq<Row>, b: seq<Row>, isExit: bool, key: string)
    ensures FirstRow(a + b, isExit, key) ==
            if FirstRow(a, isExit, key).Some? then FirstRow(a, isExit, key) else FirstRow(b, isExit, key)
  {
    if a == [] {
      assert a + b == b;
    } else {
      assert (a + b)[1..] == a[1..] + b;
      FirstRowAppend(a[1..], b, isExit, key);
    }
  }

  /** The rows of one pair, looked up. */
  lemma PairLookup(p: Pair, t: Stages, isExit: bool, key: string)
    requires RoundTrippable(p.door, t) && RoundTrippable(p.interior, t)
    ensures FirstRow(PairRows(p, t), isExit, key) ==
            if p.door == p.interior then None
            else if !isExit && key == t[p.door].stage then
              Some(Row(false, key, t[p.interior].stage, t[p.interior].entryId))
            else if isExit && key == t[p.interior].stage && FullExit(t[p.door]) then
              Some(Row(true, key, t[p.door].exitDest, t[p.door].exitId))
            else None
  {
    if p.door != p.interior {
      var d, i := t[p.door], t[p.interior];
      var entry, exits := [Row(false, d.stage, i.stage, i.entryId)],
                          if FullExit(d) then [Row(true, i.stage, d.exitDest, d.exitId)] else [];
      assert entry[1..] == [] && (exits != [] ==> exits[1..] == []);
      FirstRowAppend(entry, exits, isExit, key);
    }
  }

  lemma {:induction false} NoRow(pairs: seq<Pair>, t: Stages, isExit: bool, key: string)
    requires Shuffle(pairs, t)
    requires forall p :: p in pairs ==> key != if isExit then t[p.interior].stage else t[p.door].stage
    ensures FirstRow(Rows(pairs, t), isExit, key) == None
  {
    if pairs != [] {
      ShuffleTail(pairs, t);
      assert pairs[0] in pairs;
      PairLookup(pairs[0], t, isExit, key);
      NoRow(pairs[1..], t, isExit, key);
      FirstRowAppend(PairRows(pairs[0], t), Rows(pairs[1..], t), isExit, key);
    }
  }

  /** Looking a pair up by its door's stage, or by its interior's, finds that pair's row. */
  lemma {:induction false} RowOf(pairs: seq<Pair>, t: Stages, p: Pair, isExit: bool)
    requires Shuffle(pairs, t) && p in pairs
    ensures var key := if isExit then t[p.interior].stage else t[p.door].stage;
            FirstRow(Rows(pairs, t), isExit, key) == FirstRow(PairRows(p, t), isExit, key)
  {
    var key := if isExit then t[p.interior].stage else t[p.door].stage;
    ShuffleTail(pairs, t);
    FirstRowAppend(PairRows(pairs[0], t), Rows(pairs[1..], t), isExit, key);
    if p == pairs[0] {
      NoRow(pairs[1..], t, isExit, key);
    } else {
      RowOf(pairs[1..], t, p, isExit);
      PairLookup(pairs[0], t, isExit, key);
      assert p in pairs[1..];
    }
  }

  /** Rows of one kind whose key is `key`. */
  function CountRows(rows: seq<Row>, isExit: bool, key: string): nat {
    if rows == [] then 0
    else (if rows[0].isExit == isExit && rows[0].from == key then 1 else 0) + CountRows(rows[1..], isExit, key)
  }

  lemma {:induction false} CountAppend(a: seq<Row>, b: seq<Row>, isExit: bool, key: string)
    ensures CountRows(a + b, isExit, key) == CountRows(a, isExit, key) + CountRows(b, isExit, key)
  {
    if a == [] {
      assert a + b == b;
    } else {
      assert (a + b)[1..] == a[1..] + b;
      CountAppend(a[1..], b, isExit, key);
    }
  }

  lemma PairCount(p: Pair, t: Stages, isExit: bool, key: string)
    requires RoundTrippable(p.door, t) && RoundTrippable(p.interior, t)
    ensures CountRows(PairRows(p, t), isExit, key) ==
            if p.door != p.interior
               && (if isExit then key == t[p.interior].stage && FullExit(t[p.door]) else key == t[p.door].stage)
            then 1 else 0
  {
    if p.door != p.interior {
      var d, i := t[p.door], t[p.interior];
      var entry, exits := [Row(false, d.stage, i.stage, i.entryId)],
                          if FullExit(d) then [Row(true, i.stage, d.exitDest, d.exitId)] else [];
      assert entry[1..] == [] && (exits != [] ==> exits[1..] == []);
      CountAppend(entry, exits, isExit, key);
    }
  }

  lemma {:induction false} CountNone(pairs: seq<Pair>, t: Stages, isExit: bool, key: string)
    requires Shuffle(pairs, t)
    requires forall p :: p in pairs ==> key != if isExit then t[p.interior].stage else t[p.door].stage
    ensures CountRows(Rows(pairs, t), isExit, key) == 0
  {
    if pairs != [] {
      ShuffleTail(pairs, t);
      assert pairs[0] in pairs;
      PairCount(pairs[0], t, isExit, key);
      CountNone(pairs[1..], t, isExit, key);
      CountAppend(PairRows(pairs[0], t), Rows(pairs[1..], t), isExit, key);
    }
  }

  /** Within each kind every key occurs at most once, and each door that leads elsewhere
      has exactly one entry row. */
  lemma {:induction false} KeysUnique(pairs: seq<Pair>, t: Stages, isExit: bool, key: string)
    requires Shuffle(pairs, t)
    ensures CountRows(Rows(pairs, t), isExit, key) <= 1
    ensures !isExit ==> forall p :: p in pairs && t[p.door].stage == key ==>
              CountRows(Rows(pairs, t), false, key) == if p.door == p.interior then 0 else 1
  {
    if pairs != [] {
      ShuffleTail(pairs, t);
      var p, rest := pairs[0], pairs[1..];
      assert p in pairs && pairs == [p] + rest;
      PairCount(p, t, isExit, key);
      CountAppend(PairRows(p, t), Rows(rest, t), isExit, key);
      KeysUnique(rest, t, isExit, key);
      if key == if isExit then t[p.interior].stage else t[p.door].stage {
        CountNone(rest, t, isExit, key);
      }
    }
  }

  predicate SameStage(m: string, n: string, t: Stages) {
    m in t && n in t && t[m].stage == t[n].stage
  }

  function Zip(pool: seq<string>, shuffled: seq<string>): (pairs: seq<Pair>)
    requires |pool| == |shuffled|
    ensures |pairs| == |pool|
    ensures forall i :: 0 <= i < |pairs| ==> pairs[i] == Pair(pool[i], shuffled[i])
  {
    seq(|pool|, i requires 0 <= i < |pool| => Pair(pool[i], shuffled[i]))
  }

  /** Any reordering of a pool whose stages are distinct is such a shuffle. */
  lemma ShuffledPool(pool: seq<string>, shuffled: seq<string>, t: Stages)
    requires |pool| == |shuffled| && multiset(pool) == multiset(shuffled)
    requires forall i :: 0 <= i < |pool| ==> RoundTrippable(pool[i], t)
    requires forall i, j :: 0 <= i < j < |pool| ==> !SameStage(pool[i], pool[j], t)
    ensures Shuffle(Zip(pool, shuffled), t)
  {
    forall k | 0 <= k < |shuffled|
      ensures shuffled[k] in pool
    {
      assert shuffled[k] in multiset(shuffled);
    }
    forall i, j | 0 <= i < j < |shuffled|
      ensures t[shuffled[i]].stage != t[shuffled[j]].stage
    {
      NotRepeated(pool, shuffled, t, i, j);
      StagesDiffer(pool, t, shuffled[i], shuffled[j]);
    }
    ZipParts(pool, shuffled);
  }

  lemma ZipParts(doors: seq<string>, interiors: seq<string>)
    requires |doors| == |interiors|
    ensures forall p :: p in Zip(doors, interiors) ==> p.door in doors && p.interior in interiors
  {
  }

  lemma StagesDiffer(pool: seq<string>, t: Stages, x: string, y: string)
    requires x in pool && y in pool && x != y && forall i :: 0 <= i < |pool| ==> pool[i] in t
    requires forall i, j :: 0 <= i < j < |pool| ==> !SameStage(pool[i], pool[j], t)
    ensures t[x].stage != t[y].stage
  {
    var a :| 0 <= a < |pool| && pool[a] == x;
    var b :| 0 <= b < |pool| && pool[b] == y;
    assert !SameStage(pool[a], pool[b], t) || !SameStage(pool[b], pool[a], t);
  }

  lemma NotRepeated(pool: seq<string>, shuffled: seq<string>, t: Stages, i: nat, j: nat)
    requires multiset(pool) == multiset(shuffled) && i < j < |shuffled|
    requires forall k :: 0 <= k < |pool| ==> RoundTrippable(pool[k], t)
    requires forall a, b :: 0 <= a < b < |pool| ==> !SameStage(pool[a], pool[b], t)
    ensures shuffled[i] != shuffled[j]
  {
    if shuffled[i] == shuffled[j] {
      assert shuffled == shuffled[..j] + [shuffled[j]] + shuffled[j + 1..];
      assert shuffled[i] in shuffled[..j];
      assert multiset(shuffled)[shuffled[i]] >= 2;
      TwoPlaces(pool, shuffled[i]);
    }
  }

  lemma {:induction false} TwoPlaces(pool: seq<string>, x: string)
    requires multiset(pool)[x] >= 2
    ensures exists a, b :: 0 <= a < b < |pool| && pool[a] == pool[b]
  {
    var n := |pool| - 1;
    assert pool == pool[..n] + [pool[n]];
    if pool[n] == x {
      assert x in multiset(pool[..n]);
      var a :| 0 <= a < n && pool[..n][a] == x;
      assert pool[a] == pool[n];
    } else {
      TwoPlaces(pool[..n], x);
      var a, b :| 0 <= a < b < n && pool[..n][a] == pool[..n][b];
      assert pool[a] == pool[b];
    }
  }

  // ------------------------------------------------------- walking through doors

  /** Outside in some kingdom, or inside after having gone through `door`. */
  datatype Place = Outside(at: Coord) | Inside(at: Coord, door: string)

  /** Through a door, out by the subarea's forward exit, or back along the return stack,
      which leads to where the door was entered. */
  datatype Move = Enter(door: string) | Leave(interior: string) | Return

  /** Where each door stands. */
  type Homes = string -> Coord

  function Entry(s: Subarea): Coord {
    Coord(s.stage, s.entryId)
  }

  function Exit(s: Subarea): Coord {
    Coord(s.exitDest, s.exitId)
  }

  predicate IsDoor(pairs: seq<Pair>, d: string) {
    exists p :: p in pairs && p.door == d
  }

  predicate IsInterior(pairs: seq<Pair>, i: string) {
    exists p :: p in pairs && p.interior == i
  }

  /** One move; None when it cannot be made here. A door is entered from the stage it
      stands in; a forward exit belongs to the subarea the player is in. */
  function Step(pairs: seq<Pair>, t: Stages, home: Homes, place: Place, m: Move): Option<Place> {
    match (place, m)
    case (Outside(at), Enter(d)) =>
      if IsDoor(pairs, d) && d in t && home(d).stage == at.stage
      then Some(Inside(Redirect(Rows(pairs, t), at.stage, Entry(t[d])), d))
      else None
    case (Inside(at, d), Leave(i)) =>
      if IsInterior(pairs, i) && i in t && t[i].stage == at.stage && FullExit(t[i])
      then Some(Outside(Redirect(Rows(pairs, t), at.stage, Exit(t[i]))))
      else None
    case (Inside(_, d), Return) => Some(Outside(home(d)))
    case _ => None
  }

  function Run(pairs: seq<Pair>, t: Stages, home: Homes, place: Place, moves: seq<Move>): Option<Place>
    decreases |moves|
  {
    if moves == [] then Some(place)
    else
      match Step(pairs, t, home, place, moves[0])
      case None => None
      case Some(next) => Run(pairs, t, home, next, moves[1..])
  }

  /** Doors stand in stages that are not shuffled, where their own full exits lead. */
  ghost predicate Overworld(pairs: seq<Pair>, t: Stages, home: Homes)
    requires Shuffle(pairs, t)
  {
    forall p :: p in pairs ==> Standing(p.door, pairs, t, home) && Standing(p.interior, pairs, t, home)
  }

  ghost predicate Standing(n: string, pairs: seq<Pair>, t: Stages, home: Homes)
    requires Shuffle(pairs, t) && n in t
  {
    && (forall q :: q in pairs ==> home(n).stage != t[q.door].stage && home(n).stage != t[q.interior].stage)
    && (FullExit(t[n]) ==> home(n) == Exit(t[n]))
  }

  /** Leaving the stage `cur` by its exit is sent elsewhere: the interior of a pair whose door
      has a full exit. */
  predicate Sends(q: Pair, t: Stages, cur: string)
    requires q.door in t && q.interior in t
  {
    q.door != q.interior && FullExit(t[q.door]) && t[q.interior].stage == cur
  }

  /** Entering door D from any stage but its own, another interior included. Unless D leads to
      itself the exit of that interior does not matter: D arrives in the interior behind it.
      A door that leads to itself has no row of its own, so it is taken for the exit of the
      stage it stands in where that stage has one. */
  lemma EnterFrom(pairs: seq<Pair>, t: Stages, p: Pair, cur: string)
    requires Shuffle(pairs, t) && p in pairs && cur != t[p.door].stage
    ensures var at := Redirect(Rows(pairs, t), cur, Entry(t[p.door]));
            && (p.door != p.interior ==> at == Entry(t[p.interior]))
            && (forall q :: q in pairs && p.door == p.interior && Sends(q, t, cur) ==> at == Exit(t[q.door]))
            && (at == Entry(t[p.interior]) <==>
                p.door != p.interior
                || forall q :: q in pairs && Sends(q, t, cur) ==> Exit(t[q.door]) == Entry(t[p.interior]))
  {
    hide FirstRow, Rows, PairRows;
    RowOf(pairs, t, p, false);
    PairLookup(p, t, false, t[p.door].stage);
    if p.door == p.interior {
      if q :| q in pairs && t[q.interior].stage == cur {
        RowOf(pairs, t, q, true);
        PairLookup(q, t, true, cur);
        forall r | r in pairs && Sends(r, t, cur)
          ensures r == q
        {
          SameInterior(pairs, t, q, r);
        }
      } else {
        NoRow(pairs, t, true, cur);
      }
    }
  }

  lemma SameInterior(pairs: seq<Pair>, t: Stages, q: Pair, r: Pair)
    requires Shuffle(pairs, t) && q in pairs && r in pairs && t[q.interior].stage == t[r.interior].stage
    ensures q == r
  {
    var a :| 0 <= a < |pairs| && pairs[a] == q;
    var b :| 0 <= b < |pairs| && pairs[b] == r;
  }

  /** Two subareas swapped and a door `d` left as it is: gone through from the stage that
      `a` now leads to, `d` leads out to where `a` stands. */
  lemma NestedDoorMissed(a: string, b: string, d: string, pairs: seq<Pair>, t: Stages)
    requires a != b && pairs == [Pair(a, b), Pair(b, a), Pair(d, d)]
    requires RoundTrippable(a, t) && RoundTrippable(b, t) && RoundTrippable(d, t) && FullExit(t[a])
    requires t[a].stage != t[b].stage && t[a].stage != t[d].stage && t[b].stage != t[d].stage
    ensures Shuffle(pairs, t)
    ensures Redirect(Rows(pairs, t), t[b].stage, Entry(t[d])) == Exit(t[a])
  {
    hide Rows, Redirect, FullExit;
    assert forall p :: p in pairs <==> p == pairs[0] || p == pairs[1] || p == pairs[2];
    assert Sends(pairs[0], t, t[b].stage);
    EnterFrom(pairs, t, pairs[2], t[b].stage);
  }

  /** Entering door D from where it stands arrives in the interior behind it. */
  lemma EnterArrives(pairs: seq<Pair>, t: Stages, home: Homes, p: Pair)
    requires Shuffle(pairs, t) && Overworld(pairs, t, home) && p in pairs
    ensures Redirect(Rows(pairs, t), home(p.door).stage, Entry(t[p.door])) == Entry(t[p.interior])
  {
    hide FirstRow, Rows, PairRows;
    var cur := home(p.door).stage;
    assert Standing(p.door, pairs, t, home);
    RowOf(pairs, t, p, false);
    PairLookup(p, t, false, t[p.door].stage);
    NoRow(pairs, t, true, cur);
  }

  /** Leaving by the forward exit leads to the door's own exterior exactly when the door
      has a full exit or leads to itself; otherwise to the interior's. */
  lemma LeaveLeads(pairs: seq<Pair>, t: Stages, home: Homes, p: Pair)
    requires Shuffle(pairs, t) && Overworld(pairs, t, home) && p in pairs && FullExit(t[p.interior])
    ensures Redirect(Rows(pairs, t), t[p.interior].stage, Exit(t[p.interior])) ==
            if p.door == p.interior || FullExit(t[p.door]) then home(p.door) else Exit(t[p.interior])
  {
    hide FirstRow, Rows, PairRows;
    assert Standing(p.interior, pairs, t, home) && Standing(p.door, pairs, t, home);
    assert p.door == p.interior ==> home(p.door) == Exit(t[p.interior]);
    NoRow(pairs, t, false, t[p.interior].exitDest);
    RowOf(pairs, t, p, true);
    PairLookup(p, t, true, t[p.interior].stage);
  }

  /** The pair brings a player back to the kingdom the door stands in. */
  predicate ComesHome(p: Pair, t: Stages, home: Homes)
    requires p.door in t && p.interior in t
  {
    || p.door == p.interior || FullExit(t[p.door]) || !FullExit(t[p.interior])
    || t[p.interior].exitDest == home(p.door).stage
  }

  ghost predicate AllComeHome(pairs: seq<Pair>, t: Stages, home: Homes)
    requires Shuffle(pairs, t)
  {
    forall p :: p in pairs ==> ComesHome(p, t, home)
  }

  /** Inside, the player is where the door leads; outside, in the kingdom it started in. */
  ghost predicate AtHome(pairs: seq<Pair>, t: Stages, home: Homes, place: Place, stage: string)
    requires Shuffle(pairs, t)
  {
    match place
    case Outside(at) => at.stage == stage
    case Inside(at, d) => exists p :: p in pairs && p.door == d && at == Entry(t[p.interior]) && home(d).stage == stage
  }

  lemma StepKeeps(pairs: seq<Pair>, t: Stages, home: Homes, place: Place, m: Move, stage: string)
    requires Shuffle(pairs, t) && Overworld(pairs, t, home) && AllComeHome(pairs, t, home)
    requires AtHome(pairs, t, home, place, stage) && Step(pairs, t, home, place, m).Some?
    ensures AtHome(pairs, t, home, Step(pairs, t, home, place, m).value, stage)
  {
    hide Redirect, Rows;
    match m
    case Enter(d) =>
      var p :| p in pairs && p.door == d;
      EnterArrives(pairs, t, home, p);
    case Leave(i) =>
      var p :| p in pairs && p.door == place.door && place.at == Entry(t[p.interior]);
      OneInterior(pairs, t, p, i);
      LeaveLeads(pairs, t, home, p);
      assert Standing(p.interior, pairs, t, home);
    case Return =>
  }

  lemma OneInterior(pairs: seq<Pair>, t: Stages, p: Pair, i: string)
    requires Shuffle(pairs, t) && p in pairs && IsInterior(pairs, i) && i in t && t[i].stage == t[p.interior].stage
    ensures i == p.interior
  {
    var q :| q in pairs && q.interior == i;
    var a :| 0 <= a < |pairs| && pairs[a] == p;
    var b :| 0 <= b < |pairs| && pairs[b] == q;
  }

  lemma {:induction false} RunKeeps(pairs: seq<Pair>, t: Stages, home: Homes, place: Place, moves: seq<Move>,
                                    stage: string)
    requires Shuffle(pairs, t) && Overworld(pairs, t, home) && AllComeHome(pairs, t, home)
    requires AtHome(pairs, t, home, place, stage) && Run(pairs, t, home, place, moves).Some?
    ensures AtHome(pairs, t, home, Run(pairs, t, home, place, moves).value, stage)
    decreases |moves|
  {
    hide Step, AtHome;
    if moves != [] {
      StepKeeps(pairs, t, home, place, moves[0], stage);
      RunKeeps(pairs, t, home, Step(pairs, t, home, place, moves[0]).value, moves[1..], stage);
    }
  }

  /** Wherever a run through the shuffled doors comes out, it is in the stage it began in. */
  ghost predicate NeverStranded(pairs: seq<Pair>, t: Stages, home: Homes) {
    forall start: Coord, moves: seq<Move> ::
      var last := Run(pairs, t, home, Outside(start), moves);
      last.Some? && last.value.Outside? ==> last.value.at.stage == start.stage
  }

  /** No run is ever stranded in a foreign kingdom exactly when every pair comes home: the
      pool filter does not ask for that, since it lets in doors without a full exit. */
  lemma StrandedExactly(pairs: seq<Pair>, t: Stages, home: Homes)
    requires Shuffle(pairs, t) && Overworld(pairs, t, home)
    ensures NeverStranded(pairs, t, home) <==> AllComeHome(pairs, t, home)
  {
    hide Run, Step;
    if AllComeHome(pairs, t, home) {
      forall start: Coord, moves: seq<Move> |
          Run(pairs, t, home, Outside(start), moves).Some? && Run(pairs, t, home, Outside(start), moves).value.Outside?
        ensures Run(pairs, t, home, Outside(start), moves).value.at.stage == start.stage
      {
        RunKeeps(pairs, t, home, Outside(start), moves, start.stage);
      }
    } else {
      var p :| p in pairs && !ComesHome(p, t, home);
      var moves := StrandingRun(pairs, t, home, p);
    }
  }

  /** In by the door, out by the pipe. */
  lemma StrandingRun(pairs: seq<Pair>, t: Stages, home: Homes, p: Pair) returns (moves: seq<Move>)
    requires Shuffle(pairs, t) && Overworld(pairs, t, home) && p in pairs && !ComesHome(p, t, home)
    ensures Run(pairs, t, home, Outside(home(p.door)), moves) == Some(Outside(Exit(t[p.interior])))
    ensures Exit(t[p.interior]).stage != home(p.door).stage
  {
    hide Redirect, Rows;
    moves := [Enter(p.door), Leave(p.interior)];
    EnterArrives(pairs, t, home, p);
    LeaveLeads(pairs, t, home, p);
    var start, inside := Outside(home(p.door)), Inside(Entry(t[p.interior]), p.door);
    assert Step(pairs, t, home, start, moves[0]) == Some(inside);
    assert Step(pairs, t, home, inside, moves[1]) == Some(Outside(Exit(t[p.interior])));
    assert moves[1..] == [moves[1]] && moves[1..][1..] == [];
    assert Run(pairs, t, home, Outside(Exit(t[p.interior])), []) == Some(Outside(Exit(t[p.interior])));
    assert Run(pairs, t, home, inside, [moves[1]]) == Some(Outside(Exit(t[p.interior])));
  }

  /** A boss arena without an exit of its own and a cave with one: the filter pools both,
      and swapping them strands whoever enters the arena. */
  lemma PooledYetStranding(home: Homes)
    requires home("Arena") == Coord("MoonWorldHomeStage", "arena")
    requires home("Cave") == Coord("SandWorldHomeStage", "cave")
    ensures var t := map["Arena" := Subarea("ArenaStage", "in", "", ""),
                         "Cave" := Subarea("CaveStage", "in", "SandWorldHomeStage", "cave")];
            var pairs := [Pair("Arena", "Cave"), Pair("Cave", "Arena")];
            && RoundTrippable("Arena", t) && RoundTrippable("Cave", t)
            && Shuffle(pairs, t) && Overworld(pairs, t, home) && !NeverStranded(pairs, t, home)
  {
    var t := map["Arena" := Subarea("ArenaStage", "in", "", ""),
                 "Cave" := Subarea("CaveStage", "in", "SandWorldHomeStage", "cave")];
    var pairs := [Pair("Arena", "Cave"), Pair("Cave", "Arena")];
    SwapStrands("Arena", "Cave", pairs, t, home);
  }

  /** Swapping a subarea that has no exit of its own with one that has. */
  lemma SwapStrands(a: string, b: string, pairs: seq<Pair>, t: Stages, home: Homes)
    requires a != b && a in t && b in t && pairs == [Pair(a, b), Pair(b, a)]
    requires RoundTrippable(a, t) && RoundTrippable(b, t) && t[a].stage != t[b].stage
    requires !FullExit(t[a]) && FullExit(t[b]) && home(b) == Exit(t[b]) && home(a).stage != home(b).stage
    requires forall x, y :: x in {a, b} && y in {a, b} ==> home(x).stage != t[y].stage
    ensures Shuffle(pairs, t) && Overworld(pairs, t, home) && !NeverStranded(pairs, t, home)
  {
    hide Run, Redirect, Rows, NeverStranded, RoundTrippable, FullExit;
    var p, q := pairs[0], pairs[1];
    assert forall r :: r in pairs <==> r == p || r == q;
    assert a in {a, b} && b in {a, b};
    assert p in pairs && !ComesHome(p, t, home);
    StrandedExactly(pairs, t, home);
  }
}
