/** Filling the calls of a requirement tree with chains, on trees and on tokens. */
module Splice {
  import opened Syntax
  import opened Scanner

  predicate IsPlain(a: Atom) {
    GoodAtom(a) && !a.Call?
  }

  /** An operand no neighbouring connective can reach into: no leading `!`, no calls. */
  ghost predicate Sealed(u: Unit) {
    !u.Not? && UnitAtoms(u, IsPlain) && UnitSingleBangs(u)
  }

  lemma {:induction false} PlainIsGood(e: Expr)
    requires AllAtoms(e, IsPlain)
    ensures AllAtoms(e, GoodAtom)
    decreases e
  {
    match e
    case One(u) => PlainUnitIsGood(u);
    case More(u, _, rest) =>
      PlainUnitIsGood(u);
      PlainIsGood(rest);
  }

  lemma {:induction false} PlainUnitIsGood(u: Unit)
    requires UnitAtoms(u, IsPlain)
    ensures UnitAtoms(u, GoodAtom)
    decreases u
  {
    match u
    case Leaf(_) =>
    case Not(x) => PlainUnitIsGood(x);
    case Paren(e) => PlainIsGood(e);
  }

  /** Text that can be put where a call stood: a chain without calls. */
  ghost predicate PlainChain(e: Expr) {
    AllAtoms(e, IsPlain) && SingleBangs(e)
  }

  type Fillings = (string, string) -> Expr

  ghost predicate PlainFillings(g: Fillings) {
    forall f, x :: PlainChain(g(f, x))
  }

  /** The chain `c`, then `d`. */
  function Link(c: Expr, w: Word, d: Expr): Expr {
    match c
    case One(u) => More(u, w, d)
    case More(u, z, rest) => More(u, z, Link(rest, w, d))
  }

  /** A `!` before a chain reaches its first operand. */
  function Negated(c: Expr): Expr {
    match c
    case One(u) => One(Not(u))
    case More(u, w, rest) => More(Not(u), w, rest)
  }

  /** What is read when every call's text is replaced by its filling's: the operands of a
      filling become operands of the chain around the call. */
  function Fill(e: Expr, g: Fillings): Expr
    decreases e
  {
    match e
    case One(u) => FillUnit(u, g)
    case More(u, w, rest) => Link(FillUnit(u, g), w, Fill(rest, g))
  }

  function FillUnit(u: Unit, g: Fillings): Expr
    decreases u
  {
    match u
    case Leaf(a) => if a.Call? then g(a.func, a.args) else One(u)
    case Not(x) => Negated(FillUnit(x, g))
    case Paren(e) => One(Paren(Fill(e, g)))
  }

  /** An atom's value when calls are read through their fillings. */
  function Through(g: Fillings, v: Valuation): Valuation {
    (a: Atom) => if a.Call? then Val(g(a.func, a.args), v) else v(a)
  }

  /** One operand without a leading `!`. */
  predicate Firm(c: Expr) {
    c.One? && !c.u.Not?
  }

  /** Every call is filled with one operand or stands first in its chain, not after `!`. */
  predicate Placed(e: Expr, g: Fillings) {
    UnitPlaced(e.u, g, true) && (e.More? ==> LaterPlaced(e.rest, g))
  }

  predicate LaterPlaced(e: Expr, g: Fillings) {
    UnitPlaced(e.u, g, false) && (e.More? ==> LaterPlaced(e.rest, g))
  }

  predicate UnitPlaced(u: Unit, g: Fillings, first: bool) {
    match u
    case Leaf(a) => a.Call? && !first ==> Firm(g(a.func, a.args))
    case Not(x) => UnitPlaced(x, g, false)
    case Paren(e) => Placed(e, g)
  }

  lemma {:induction false} LinkFrom(acc: bool, op: Op, c: Expr, w: Word, d: Expr, v: Valuation)
    ensures ValFrom(acc, op, Link(c, w, d), v) == ValFrom(ValFrom(acc, op, c, v), w.op, d, v)
    decreases c
  {
    if c.More? {
      LinkFrom(Apply(op, acc, UnitVal(c.u, v)), c.w.op, c.rest, w, d, v);
    }
  }

  lemma LinkVal(c: Expr, w: Word, d: Expr, v: Valuation)
    ensures Val(Link(c, w, d), v) == ValFrom(Val(c, v), w.op, d, v)
  {
    if c.More? {
      LinkFrom(UnitVal(c.u, v), c.w.op, c.rest, w, d, v);
    }
  }

  lemma {:induction false} FirmUnit(u: Unit, g: Fillings)
    requires UnitPlaced(u, g, false) && UnitSingleBangs(u)
    ensures FillUnit(u, g).One? && (!u.Not? ==> Firm(FillUnit(u, g)))
    decreases u
  {
    match u
    case Leaf(_) =>
    case Not(x) => FirmUnit(x, g);
    case Paren(_) =>
  }

  lemma {:induction false} FillUnitVal(u: Unit, g: Fillings, v: Valuation, first: bool)
    requires UnitPlaced(u, g, first) && UnitSingleBangs(u)
    ensures Val(FillUnit(u, g), v) == UnitVal(u, Through(g, v))
    decreases u
  {
    match u
    case Leaf(_) =>
    case Not(x) =>
      FillUnitVal(x, g, v, false);
      FirmUnit(x, g);
    case Paren(e) => FillVal(e, g, v);
  }

  /** So placed, the fillings are read as operands. */
  lemma {:induction false} FillVal(e: Expr, g: Fillings, v: Valuation)
    requires Placed(e, g) && SingleBangs(e)
    ensures Val(Fill(e, g), v) == Val(e, Through(g, v))
    decreases e, 1
  {
    match e
    case One(u) => FillUnitVal(u, g, v, true);
    case More(u, w, rest) =>
      FillUnitVal(u, g, v, true);
      LinkVal(FillUnit(u, g), w, Fill(rest, g), v);
      FillValFrom(UnitVal(u, Through(g, v)), w.op, rest, g, v);
  }

  lemma {:induction false} FillValFrom(acc: bool, op: Op, e: Expr, g: Fillings, v: Valuation)
    requires LaterPlaced(e, g) && SingleBangs(e)
    ensures ValFrom(acc, op, Fill(e, g), v) == ValFrom(acc, op, e, Through(g, v))
    decreases e, 0
  {
    FillUnitVal(e.u, g, v, false);
    FirmUnit(e.u, g);
    if e.More? {
      FillValFrom(Apply(op, acc, UnitVal(e.u, Through(g, v))), e.w.op, e.rest, g, v);
    }
  }

  lemma {:induction false} LinkShape(c: Expr, w: Word, d: Expr, p: Atom -> bool)
    ensures AllAtoms(c, p) && AllAtoms(d, p) ==> AllAtoms(Link(c, w, d), p)
    ensures SingleBangs(c) && SingleBangs(d) ==> SingleBangs(Link(c, w, d))
    decreases c
  {
    if c.More? {
      LinkShape(c.rest, w, d, p);
    }
  }

  lemma {:induction false} FillUnitPlain(u: Unit, g: Fillings)
    requires PlainFillings(g) && UnitAtoms(u, GoodAtom)
    ensures AllAtoms(FillUnit(u, g), IsPlain)
    decreases u
  {
    match u
    case Leaf(a) =>
      if a.Call? {
        assert PlainChain(g(a.func, a.args));
      }
    case Not(x) => FillUnitPlain(x, g);
    case Paren(e) => FillPlain(e, g);
  }

  lemma {:induction false} FillPlain(e: Expr, g: Fillings)
    requires PlainFillings(g) && AllAtoms(e, GoodAtom)
    ensures AllAtoms(Fill(e, g), IsPlain)
    decreases e
  {
    FillUnitPlain(e.u, g);
    if e.More? {
      FillPlain(e.rest, g);
      LinkShape(FillUnit(e.u, g), e.w, Fill(e.rest, g), IsPlain);
    }
  }

  lemma {:induction false} FillUnitBangs(u: Unit, g: Fillings, first: bool)
    requires PlainFillings(g) && UnitPlaced(u, g, first) && UnitSingleBangs(u)
    ensures SingleBangs(FillUnit(u, g))
    decreases u
  {
    match u
    case Leaf(a) =>
      if a.Call? {
        assert PlainChain(g(a.func, a.args));
      }
    case Not(x) =>
      FillUnitBangs(x, g, false);
      FirmUnit(x, g);
    case Paren(e) => FillBangs(e, g);
  }

  lemma {:induction false} FillBangs(e: Expr, g: Fillings)
    requires PlainFillings(g) && Placed(e, g) && SingleBangs(e)
    ensures SingleBangs(Fill(e, g))
    decreases e, 1
  {
    FillUnitBangs(e.u, g, true);
    if e.More? {
      LaterBangs(e.rest, g);
      LinkShape(FillUnit(e.u, g), e.w, Fill(e.rest, g), IsPlain);
    }
  }

  lemma {:induction false} LaterBangs(e: Expr, g: Fillings)
    requires PlainFillings(g) && LaterPlaced(e, g) && SingleBangs(e)
    ensures SingleBangs(Fill(e, g))
    decreases e, 0
  {
    FillUnitBangs(e.u, g, false);
    if e.More? {
      LaterBangs(e.rest, g);
      LinkShape(FillUnit(e.u, g), e.w, Fill(e.rest, g), IsPlain);
    }
  }

  /** Where every filling is one operand, every call is placed. */
  lemma {:induction false} FirmPlaced(e: Expr, g: Fillings)
    requires forall c :: c in CallsOf(Toks(e)) ==> Firm(g(c.0, c.1))
    ensures Placed(e, g) && LaterPlaced(e, g)
    decreases e
  {
    match e
    case One(u) => FirmUnitPlaced(u, g);
    case More(u, w, rest) =>
      CallsOfAppend(UnitToks(u) + [W(w)], Toks(rest));
      CallsOfAppend(UnitToks(u), [W(w)]);
      FirmUnitPlaced(u, g);
      FirmPlaced(rest, g);
  }

  lemma {:induction false} FirmUnitPlaced(u: Unit, g: Fillings)
    requires forall c :: c in CallsOf(UnitToks(u)) ==> Firm(g(c.0, c.1))
    ensures UnitPlaced(u, g, true) && UnitPlaced(u, g, false)
    decreases u
  {
    match u
    case Leaf(a) =>
      if a.Call? {
        assert (a.func, a.args) in CallsOf([A(a)]);
      }
    case Not(x) =>
      CallsOfAppend([Bang], UnitToks(x));
      FirmUnitPlaced(x, g);
    case Paren(e) =>
      CallsOfAppend([LP] + Toks(e), [RP]);
      CallsOfAppend([LP], Toks(e));
      FirmPlaced(e, g);
  }

  // ------------------------------------------------------------------ tokens

  /** Tokens with the calls in `done` already filled. */
  function Filled(ts: seq<Tok>, done: set<(string, string)>, g: Fillings): seq<Tok> {
    if ts == [] then []
    else
      (if IsCall(ts[0]) && (ts[0].a.func, ts[0].a.args) in done
       then Toks(g(ts[0].a.func, ts[0].a.args)) else [ts[0]])
      + Filled(ts[1..], done, g)
  }

  lemma {:induction false} FilledAppend(a: seq<Tok>, b: seq<Tok>, done: set<(string, string)>, g: Fillings)
    ensures Filled(a + b, done, g) == Filled(a, done, g) + Filled(b, done, g)
  {
    if a == [] {
      assert a + b == b;
    } else {
      assert (a + b)[1..] == a[1..] + b;
      FilledAppend(a[1..], b, done, g);
    }
  }

  lemma FilledSingle(t: Tok, done: set<(string, string)>, g: Fillings)
    requires !IsCall(t)
    ensures Filled([t], done, g) == [t]
  {
    assert [t][1..] == [];
    assert Filled([], done, g) == [];
  }

  lemma {:induction false} FilledNone(ts: seq<Tok>, g: Fillings)
    ensures Filled(ts, {}, g) == ts
  {
    if ts != [] {
      FilledNone(ts[1..], g);
      assert ts == [ts[0]] + ts[1..];
    }
  }

  lemma {:induction false} PutCallAppend(a: seq<Tok>, b: seq<Tok>, f: string, x: string, r: seq<Tok>)
    ensures PutCall(a + b, f, x, r) == PutCall(a, f, x, r) + PutCall(b, f, x, r)
  {
    if a == [] {
      assert a + b == b;
    } else {
      assert (a + b)[1..] == a[1..] + b;
      PutCallAppend(a[1..], b, f, x, r);
    }
  }

  lemma {:induction false} PutCallNone(ts: seq<Tok>, f: string, x: string, r: seq<Tok>)
    requires NoCalls(ts)
    ensures PutCall(ts, f, x, r) == ts
  {
    if ts != [] {
      assert ts[0] in ts;
      PutCallNone(ts[1..], f, x, r);
    }
  }

  lemma ChainToks(e: Expr)
    requires PlainChain(e)
    ensures NoCalls(Toks(e)) && GoodToks(Toks(e))
  {
    AtomToks(e, IsPlain);
  }

  /** One more call filled. */
  lemma {:induction false} FillOne(ts: seq<Tok>, done: set<(string, string)>, f: string, x: string, g: Fillings)
    requires PlainFillings(g)
    ensures PutCall(Filled(ts, done, g), f, x, Toks(g(f, x))) == Filled(ts, done + {(f, x)}, g)
  {
    if ts != [] {
      var r := Toks(g(f, x));
      var t := ts[0];
      var later := Filled(ts[1..], done, g);
      FillOne(ts[1..], done, f, x, g);
      if IsCall(t) && (t.a.func, t.a.args) in done {
        var head := Toks(g(t.a.func, t.a.args));
        ChainToks(g(t.a.func, t.a.args));
        PutCallAppend(head, later, f, x, r);
        PutCallNone(head, f, x, r);
      } else {
        assert Filled(ts, done, g) == [t] + later;
        assert ([t] + later)[1..] == later;
      }
    }
  }

  lemma {:induction false} FilledGood(ts: seq<Tok>, done: set<(string, string)>, g: Fillings)
    requires PlainFillings(g) && GoodToks(ts)
    ensures GoodToks(Filled(ts, done, g))
  {
    if ts != [] {
      assert ts[0] in ts;
      FilledGood(ts[1..], done, g);
      if IsCall(ts[0]) {
        ChainToks(g(ts[0].a.func, ts[0].a.args));
      }
    }
  }

  function CallSet(found: seq<(string, string)>): set<(string, string)> {
    set p | p in found
  }

  predicate Covers(done: set<(string, string)>, ts: seq<Tok>) {
    forall t :: t in ts && IsCall(t) ==> (t.a.func, t.a.args) in done
  }

  lemma {:induction false} CallsCovered(ts: seq<Tok>)
    requires GoodToks(ts)
    ensures Covers(CallSet(CallsOf(ts)), ts)
    ensures forall p :: p in CallsOf(ts) ==> GoodAtom(Call(p.0, p.1))
  {
    if ts != [] {
      assert ts[0] in ts;
      CallsCovered(ts[1..]);
      assert ts == [ts[0]] + ts[1..];
      assert forall p :: p in CallsOf(ts[1..]) ==> p in CallsOf(ts);
    }
  }

  lemma {:induction false} LinkToks(c: Expr, w: Word, d: Expr)
    ensures Toks(Link(c, w, d)) == Toks(c) + [W(w)] + Toks(d)
    decreases c
  {
    if c.More? {
      LinkToks(c.rest, w, d);
    }
  }

  lemma NegatedToks(c: Expr)
    ensures Toks(Negated(c)) == [Bang] + Toks(c)
  {
  }

  lemma {:induction false} FilledUnit(u: Unit, done: set<(string, string)>, g: Fillings)
    requires Covers(done, UnitToks(u))
    ensures Filled(UnitToks(u), done, g) == Toks(FillUnit(u, g))
    decreases u
  {
    match u
    case Leaf(a) =>
      assert A(a) in UnitToks(u);
      assert [A(a)][1..] == [] && Filled([], done, g) == [];
    case Not(x) =>
      FilledUnit(x, done, g);
      FilledAppend([Bang], UnitToks(x), done, g);
      FilledSingle(Bang, done, g);
      NegatedToks(FillUnit(x, g));
    case Paren(e) =>
      FilledExpr(e, done, g);
      FilledAppend([LP] + Toks(e), [RP], done, g);
      FilledAppend([LP], Toks(e), done, g);
      FilledSingle(LP, done, g);
      FilledSingle(RP, done, g);
  }

  /** Filling every call on tokens is filling the tree. */
  lemma {:induction false} FilledExpr(e: Expr, done: set<(string, string)>, g: Fillings)
    requires Covers(done, Toks(e))
    ensures Filled(Toks(e), done, g) == Toks(Fill(e, g))
    decreases e
  {
    match e
    case One(u) => FilledUnit(u, done, g);
    case More(u, w, rest) =>
      FilledUnit(u, done, g);
      FilledExpr(rest, done, g);
      FilledAppend(UnitToks(u) + [W(w)], Toks(rest), done, g);
      FilledAppend(UnitToks(u), [W(w)], done, g);
      FilledSingle(W(w), done, g);
      LinkToks(FillUnit(u, g), w, Fill(rest, g));
  }
}
