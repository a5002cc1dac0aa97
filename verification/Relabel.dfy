/** Putting other atoms in the place of items, on trees and on tokens. */
module Relabel {
  import opened Syntax
  import opened Scanner

  type Naming = Atom -> Atom

  function Renamed(e: Expr, h: Naming): Expr
    decreases e
  {
    match e
    case One(u) => One(RenamedUnit(u, h))
    case More(u, w, rest) => More(RenamedUnit(u, h), w, Renamed(rest, h))
  }

  function RenamedUnit(u: Unit, h: Naming): Unit
    decreases u
  {
    match u
    case Leaf(a) => Leaf(h(a))
    case Not(x) => Not(RenamedUnit(x, h))
    case Paren(e) => Paren(Renamed(e, h))
  }

  /** An atom's value when it is read under its new name. */
  function Under(h: Naming, v: Valuation): Valuation {
    (a: Atom) => v(h(a))
  }

  lemma {:induction false} RenamedUnitVal(u: Unit, h: Naming, v: Valuation)
    ensures UnitVal(RenamedUnit(u, h), v) == UnitVal(u, Under(h, v))
    decreases u
  {
    match u
    case Leaf(_) =>
    case Not(x) => RenamedUnitVal(x, h, v);
    case Paren(e) => RenamedVal(e, h, v);
  }

  lemma {:induction false} RenamedVal(e: Expr, h: Naming, v: Valuation)
    ensures Val(Renamed(e, h), v) == Val(e, Under(h, v))
    decreases e, 1
  {
    RenamedUnitVal(e.u, h, v);
    if e.More? {
      RenamedFrom(UnitVal(e.u, Under(h, v)), e.w.op, e.rest, h, v);
    }
  }

  lemma {:induction false} RenamedFrom(acc: bool, op: Op, e: Expr, h: Naming, v: Valuation)
    ensures ValFrom(acc, op, Renamed(e, h), v) == ValFrom(acc, op, e, Under(h, v))
    decreases e, 0
  {
    RenamedUnitVal(e.u, h, v);
    if e.More? {
      RenamedFrom(Apply(op, acc, UnitVal(e.u, Under(h, v))), e.w.op, e.rest, h, v);
    }
  }

  lemma {:induction false} RenamedUnitShape(u: Unit, h: Naming, p: Atom -> bool, q: Atom -> bool)
    requires UnitAtoms(u, p) && forall a :: p(a) ==> q(h(a))
    ensures UnitAtoms(RenamedUnit(u, h), q)
    ensures UnitSingleBangs(u) ==> UnitSingleBangs(RenamedUnit(u, h))
    decreases u
  {
    match u
    case Leaf(_) =>
    case Not(x) => RenamedUnitShape(x, h, p, q);
    case Paren(e) => RenamedShape(e, h, p, q);
  }

  lemma {:induction false} RenamedShape(e: Expr, h: Naming, p: Atom -> bool, q: Atom -> bool)
    requires AllAtoms(e, p) && forall a :: p(a) ==> q(h(a))
    ensures AllAtoms(Renamed(e, h), q)
    ensures SingleBangs(e) ==> SingleBangs(Renamed(e, h))
    decreases e
  {
    RenamedUnitShape(e.u, h, p, q);
    if e.More? {
      RenamedShape(e.rest, h, p, q);
    }
  }

  // ------------------------------------------------------------------ tokens

  /** Every atom token renamed. */
  function RenamedToks(ts: seq<Tok>, h: Naming): (r: seq<Tok>)
    ensures |r| == |ts|
  {
    seq(|ts|, i requires 0 <= i < |ts| => if ts[i].A? then A(h(ts[i].a)) else ts[i])
  }

  lemma RenamedAppend(a: seq<Tok>, b: seq<Tok>, h: Naming)
    ensures RenamedToks(a + b, h) == RenamedToks(a, h) + RenamedToks(b, h)
  {
  }

  lemma {:induction false} RenamedUnitToks(u: Unit, h: Naming)
    ensures RenamedToks(UnitToks(u), h) == UnitToks(RenamedUnit(u, h))
    decreases u
  {
    match u
    case Leaf(_) =>
    case Not(x) =>
      RenamedUnitToks(x, h);
      RenamedAppend([Bang], UnitToks(x), h);
    case Paren(e) =>
      RenamedTokens(e, h);
      RenamedAppend([LP], Toks(e), h);
      RenamedAppend([LP] + Toks(e), [RP], h);
  }

  /** Renaming on tokens is renaming the tree. */
  lemma {:induction false} RenamedTokens(e: Expr, h: Naming)
    ensures RenamedToks(Toks(e), h) == Toks(Renamed(e, h))
    decreases e
  {
    match e
    case One(u) => RenamedUnitToks(u, h);
    case More(u, w, rest) =>
      RenamedUnitToks(u, h);
      RenamedTokens(rest, h);
      RenamedAppend(UnitToks(u), [W(w)], h);
      RenamedAppend(UnitToks(u) + [W(w)], Toks(rest), h);
  }

  /** Tokens with the items in `done` already renamed. */
  function Swapped(ts: seq<Tok>, done: set<Atom>, h: Naming): (r: seq<Tok>)
    ensures |r| == |ts|
  {
    seq(|ts|, i requires 0 <= i < |ts| => if IsItem(ts[i]) && ts[i].a in done then A(h(ts[i].a)) else ts[i])
  }

  /** Tokens whose text can be searched for items. */
  ghost predicate Readable(ts: seq<Tok>) {
    GoodToks(ts) && NoCalls(ts) && Spaced(ts)
  }

  ghost predicate KeepsGood(done: set<Atom>, h: Naming) {
    forall a :: a in done ==> GoodAtom(h(a)) && !h(a).Call?
  }

  lemma SwappedShape(ts: seq<Tok>, done: set<Atom>, h: Naming)
    requires Readable(ts) && KeepsGood(done, h)
    ensures Readable(Swapped(ts, done, h))
  {
    var r := Swapped(ts, done, h);
    forall t | t in r
      ensures GoodTok(t) && !IsCall(t)
    {
      var i :| 0 <= i < |r| && r[i] == t;
      assert ts[i] in ts;
    }
  }

  /** One more item renamed, when no other has come to bear its name that is not to keep it. */
  lemma SwapOne(ts: seq<Tok>, done: set<Atom>, a: Atom, h: Naming)
    requires (a.Item? || a.ItemN?) && forall b :: b in done && h(b) == a ==> h(a) == a
    ensures PutItem(Swapped(ts, done, h), a, h(a)) == Swapped(ts, done + {a}, h)
  {
  }

  lemma PutItemShape(ts: seq<Tok>, a: Atom, r: Atom)
    requires Readable(ts) && GoodAtom(r) && !r.Call?
    ensures Readable(PutItem(ts, a, r))
  {
    var put := PutItem(ts, a, r);
    forall t | t in put
      ensures GoodTok(t) && !IsCall(t)
    {
      var i :| 0 <= i < |put| && put[i] == t;
      assert ts[i] in ts;
    }
  }

  lemma SwappedNone(ts: seq<Tok>, h: Naming)
    ensures Swapped(ts, {}, h) == ts
  {
  }

  lemma SwappedAll(ts: seq<Tok>, done: set<Atom>, h: Naming)
    requires forall t :: t in ts && t.A? ==> if IsItem(t) then t.a in done else h(t.a) == t.a
    ensures Swapped(ts, done, h) == RenamedToks(ts, h)
  {
    forall i | 0 <= i < |ts|
      ensures Swapped(ts, done, h)[i] == RenamedToks(ts, h)[i]
    {
      assert ts[i] in ts;
    }
  }

  // --------------------------------------------------------- the items of a text

  function AtomSet(atoms: seq<Atom>): set<Atom> {
    set a | a in atoms
  }

  lemma AtomSetHead(done: set<Atom>, atoms: seq<Atom>)
    requires atoms != []
    ensures done + {atoms[0]} + AtomSet(atoms[1..]) == done + AtomSet(atoms)
  {
    assert atoms == [atoms[0]] + atoms[1..];
  }

  lemma AtomTextsHead(atoms: seq<Atom>)
    requires atoms != []
    ensures AtomTexts(atoms) != [] && AtomTexts(atoms)[0] == AtomText(atoms[0])
    ensures AtomTexts(atoms)[1..] == AtomTexts(atoms[1..])
  {
  }

  lemma {:induction false} ItemsCovered(ts: seq<Tok>)
    requires GoodToks(ts)
    ensures forall t :: t in ts && IsItem(t) ==> t.a in ItemsOf(ts)
    ensures forall a :: a in ItemsOf(ts) ==> IsNeed(a)
  {
    if ts != [] {
      assert ts[0] in ts;
      ItemsCovered(ts[1..]);
      assert ts == [ts[0]] + ts[1..];
    }
  }
}
