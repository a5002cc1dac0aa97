/** Requirement text as the compilers build it: operands joined by `and` or `or`, with
    the empty text standing for "no requirement". */
module Terms {
  import opened Text
  import opened Syntax
  import opened Scanner
  import opened RuleReader

  const AND := Word(And, false)
  const OR := Word(Or, false)

  /** `[p for p in parts if p]`. */
  function NonEmpty(parts: seq<string>): (r: seq<string>)
    ensures forall p :: p in r <==> p in parts && p != ""
  {
    if parts == [] then []
    else if parts[0] != "" then [parts[0]] + NonEmpty(parts[1..])
    else NonEmpty(parts[1..])
  }

  /** The same without repetitions, the first occurrence kept. */
  function Distinct(parts: seq<string>, seen: set<string>): (r: seq<string>)
    ensures forall p :: p in r <==> p in parts && p != "" && p !in seen
  {
    if parts == [] then []
    else if parts[0] != "" && parts[0] !in seen then [parts[0]] + Distinct(parts[1..], seen + {parts[0]})
    else Distinct(parts[1..], seen)
  }

  /** Nothing is left twice. */
  lemma {:induction false} DistinctOnce(parts: seq<string>, seen: set<string>)
    ensures NoRepeats(Distinct(parts, seen))
  {
    if parts != [] {
      DistinctOnce(parts[1..], seen);
      DistinctOnce(parts[1..], seen + {parts[0]});
    }
  }

  function Wrap(parts: seq<string>, w: Word): string {
    if parts == [] then ""
    else if |parts| == 1 then parts[0]
    else "(" + Join(WordText(w), parts) + ")"
  }

  /** `and_join` of compile_moon_logic.py. */
  function AndJoin(parts: seq<string>): string {
    Wrap(Distinct(parts, {}), AND)
  }

  /** `_and_join` of entrance_logic.py, which keeps repetitions. */
  function PlainAndJoin(parts: seq<string>): string {
    Wrap(NonEmpty(parts), AND)
  }

  /** `or_join`. */
  function OrJoin(parts: seq<string>): string {
    Wrap(NonEmpty(parts), OR)
  }

  // ------------------------------------------------------- what the text means

  /** What an operand may be made of: its atoms, and whether `!` and an `or` before an
      `and` are ruled out. */
  datatype Shape = Shape(atoms: Atom -> bool, tidy: bool)

  const PLAIN_TERM := Shape(IsNeed, true)
  const ANY_TERM := Shape(GoodAtom, false)

  /** Text of one operand of shape `p`. */
  ghost predicate IsTerm(s: string, p: Shape) {
    exists u :: TermTree(u, p) && PrintUnit(u) == s
  }

  ghost predicate TermTree(u: Unit, p: Shape) {
    && !u.Not? && UnitAtoms(u, p.atoms) && UnitSingleBangs(u)
    && (p.tidy ==> UnitBangless(u) && UnitAndsFirst(u))
  }

  ghost function TermOf(s: string, p: Shape): (u: Unit)
    requires IsTerm(s, p)
    ensures TermTree(u, p) && PrintUnit(u) == s
  {
    var u :| TermTree(u, p) && PrintUnit(u) == s;
    u
  }

  /** A requirement: nothing, or one operand. */
  ghost predicate IsReq(s: string, p: Shape) {
    s == "" || IsTerm(s, p)
  }

  /** Every rule function, called as text of shape `p` may call it, answers with a bool or a
      sealed operand. */
  ghost predicate Disciplined(calls: Calls, p: Shape) {
    forall f, x :: p.atoms(Call(f, x)) ==> SealedAnswer(calls(f, x))
  }

  /** Text of items alone calls nothing. */
  lemma PlainShape(calls: Calls)
    ensures Disciplined(calls, PLAIN_TERM) && Stronger(PLAIN_TERM)
  {
  }

  /** The rule reader accepts the text in this state. */
  predicate Holds(s: string, counts: Counts, calls: Calls) {
    CheckRequire(s, counts, calls) == Ok(true)
  }

  predicate EachHolds(parts: seq<string>, counts: Counts, calls: Calls) {
    forall q :: q in parts ==> Holds(q, counts, calls)
  }

  predicate SomeHolds(parts: seq<string>, counts: Counts, calls: Calls) {
    exists q :: q in parts && Holds(q, counts, calls)
  }

  ghost predicate EachTerm(parts: seq<string>, p: Shape) {
    forall q :: q in parts ==> IsTerm(q, p)
  }

  ghost predicate EachReq(parts: seq<string>, p: Shape) {
    forall q :: q in parts ==> IsReq(q, p)
  }

  /** `kept` holds the nonempty texts of `parts`. */
  ghost predicate Keeps(kept: seq<string>, parts: seq<string>) {
    forall q :: q in kept <==> q in parts && q != ""
  }

  ghost predicate Stronger(p: Shape) {
    forall a :: p.atoms(a) ==> GoodAtom(a)
  }

  lemma {:induction false} WeakenUnit(u: Unit, p: Atom -> bool, q: Atom -> bool)
    requires UnitAtoms(u, p) && forall a :: p(a) ==> q(a)
    ensures UnitAtoms(u, q)
    decreases u
  {
    match u
    case Leaf(_) =>
    case Not(x) => WeakenUnit(x, p, q);
    case Paren(e) => WeakenExpr(e, p, q);
  }

  lemma {:induction false} WeakenExpr(e: Expr, p: Atom -> bool, q: Atom -> bool)
    requires AllAtoms(e, p) && forall a :: p(a) ==> q(a)
    ensures AllAtoms(e, q)
    decreases e
  {
    match e
    case One(u) => WeakenUnit(u, p, q);
    case More(u, _, rest) =>
      WeakenUnit(u, p, q);
      WeakenExpr(rest, p, q);
  }

  /** What fits a narrow shape fits a wider one. */
  ghost predicate Within(p: Shape, q: Shape) {
    (forall a :: p.atoms(a) ==> q.atoms(a)) && (q.tidy ==> p.tidy)
  }

  lemma WidenTree(u: Unit, p: Shape, q: Shape)
    requires TermTree(u, p) && Within(p, q)
    ensures TermTree(u, q)
  {
    WeakenUnit(u, p.atoms, q.atoms);
  }

  lemma WidenReq(s: string, p: Shape, q: Shape)
    requires IsReq(s, p) && Within(p, q)
    ensures IsReq(s, q)
    ensures IsTerm(s, p) ==> IsTerm(s, q)
  {
    if IsTerm(s, p) {
      WidenTree(TermOf(s, p), p, q);
    }
  }

  /** The reader on one operand. */
  lemma ReadTree(u: Unit, p: Shape, counts: Counts, calls: Calls)
    requires TermTree(u, p) && Stronger(p) && Disciplined(calls, p)
    ensures CheckRequire(PrintUnit(u), counts, calls) == Ok(UnitVal(u, Truth(counts, calls)))
  {
    hide CheckRequire;
    WidenTree(u, p, ANY_TERM);
    CallsSealed(One(u), p, calls);
    ReaderCorrect(One(u), counts, calls);
  }

  lemma CallsSealed(e: Expr, p: Shape, calls: Calls)
    requires AllAtoms(e, p.atoms) && Disciplined(calls, p)
    ensures SplicesOperands(CallsOf(Toks(e)), calls) && Answered(e, calls)
  {
    hide SealedAnswer, Answered;
    AtomToks(e, p.atoms);
    forall c | c in CallsOf(Toks(e))
      ensures SealedAnswer(calls(c.0, c.1))
    {
      CallsAre(Toks(e), c);
    }
    SealedPlaced(e, calls);
  }

  lemma ReadTerm(s: string, p: Shape, counts: Counts, calls: Calls)
    requires IsTerm(s, p) && Stronger(p) && Disciplined(calls, p)
    ensures CheckRequire(s, counts, calls) == Ok(UnitVal(TermOf(s, p), Truth(counts, calls)))
    ensures s != ""
  {
    hide CheckRequire;
    var u := TermOf(s, p);
    ReadTree(u, p, counts, calls);
    OperandNonempty(u, p);
  }

  lemma OperandNonempty(u: Unit, p: Shape)
    requires TermTree(u, p) && Stronger(p)
    ensures PrintUnit(u) != ""
  {
    WidenTree(u, p, ANY_TERM);
    PrintNonempty(One(u));
    assert Toks(One(u)) == UnitToks(u);
  }

  // --------------------------------------------------------------- the joins

  function ChainTree(us: seq<Unit>, w: Word): Expr
    requires us != []
  {
    if |us| == 1 then One(us[0]) else More(us[0], w, ChainTree(us[1..], w))
  }

  function Prints(us: seq<Unit>): (r: seq<string>)
    ensures |r| == |us|
  {
    seq(|us|, i requires 0 <= i < |us| => PrintUnit(us[i]))
  }

  lemma PrintMore(u: Unit, w: Word, rest: Expr)
    ensures Print(More(u, w, rest)) == PrintUnit(u) + WordText(w) + Print(rest)
  {
    FlatMore(u, w, rest, PLAIN);
    Regroup(PrintUnit(u), WordText(w), Print(rest));
  }

  lemma {:induction false} PrintChain(us: seq<Unit>, w: Word)
    requires us != []
    ensures Print(ChainTree(us, w)) == Join(WordText(w), Prints(us))
  {
    if |us| == 1 {
      PrintOne(us[0]);
    } else {
      hide Print, PrintUnit, WordText;
      PrintChain(us[1..], w);
      PrintMore(us[0], w, ChainTree(us[1..], w));
      assert Prints(us)[0] == PrintUnit(us[0]) && Prints(us)[1..] == Prints(us[1..]);
    }
  }

  lemma PrintOne(u: Unit)
    ensures Print(One(u)) == PrintUnit(u)
  {
  }

  lemma PrintParen(e: Expr)
    ensures PrintUnit(Paren(e)) == "(" + Print(e) + ")"
  {
    FlatParen(e, PLAIN);
    Regroup("(", Print(e), ")");
  }

  lemma {:induction false} ChainShape(us: seq<Unit>, w: Word, p: Shape)
    requires us != [] && forall i :: 0 <= i < |us| ==> TermTree(us[i], p)
    ensures AllAtoms(ChainTree(us, w), p.atoms) && SingleBangs(ChainTree(us, w))
    ensures p.tidy ==> Bangless(ChainTree(us, w)) && AndsFirst(ChainTree(us, w))
  {
    if |us| > 1 {
      ChainShape(us[1..], w, p);
    }
  }

  predicate AllTrue(us: seq<Unit>, v: Valuation) {
    forall i :: 0 <= i < |us| ==> UnitVal(us[i], v)
  }

  predicate SomeTrue(us: seq<Unit>, v: Valuation) {
    exists i :: 0 <= i < |us| && UnitVal(us[i], v)
  }

  lemma AllTrueHead(us: seq<Unit>, v: Valuation)
    requires us != []
    ensures AllTrue(us, v) == (UnitVal(us[0], v) && AllTrue(us[1..], v))
    ensures SomeTrue(us, v) == (UnitVal(us[0], v) || SomeTrue(us[1..], v))
  {
    assert forall i :: 0 <= i < |us[1..]| ==> us[1..][i] == us[i + 1];
    if SomeTrue(us, v) && !UnitVal(us[0], v) {
      var i :| 0 <= i < |us| && UnitVal(us[i], v);
      assert us[1..][i - 1] == us[i];
    }
    if AllTrue(us[1..], v) {
      assert forall i :: 1 <= i < |us| ==> us[i] == us[1..][i - 1];
    }
  }

  lemma {:induction false} ChainFrom(acc: bool, us: seq<Unit>, w: Word, v: Valuation)
    requires us != []
    ensures ValFrom(acc, w.op, ChainTree(us, w), v) ==
            if w.op == And then acc && AllTrue(us, v) else acc || SomeTrue(us, v)
    decreases |us|
  {
    AllTrueHead(us, v);
    if |us| > 1 {
      ChainFrom(Apply(w.op, acc, UnitVal(us[0], v)), us[1..], w, v);
    }
  }

  /** A chain with one connective is a conjunction or a disjunction. */
  lemma ChainVal(us: seq<Unit>, w: Word, v: Valuation)
    requires us != []
    ensures Val(ChainTree(us, w), v) == if w.op == And then AllTrue(us, v) else SomeTrue(us, v)
  {
    AllTrueHead(us, v);
    if |us| > 1 {
      ChainFrom(UnitVal(us[0], v), us[1..], w, v);
    }
  }

  ghost function TermsOf(parts: seq<string>, p: Shape): (us: seq<Unit>)
    requires forall i :: 0 <= i < |parts| ==> IsTerm(parts[i], p)
    ensures |us| == |parts|
    ensures forall i :: 0 <= i < |us| ==> TermTree(us[i], p) && PrintUnit(us[i]) == parts[i]
  {
    if parts == [] then [] else [TermOf(parts[0], p)] + TermsOf(parts[1..], p)
  }

  /** What wraps a nonempty list of operands is the operand of their chain. */
  lemma WrapTree(parts: seq<string>, w: Word, p: Shape) returns (us: seq<Unit>, u: Unit)
    requires parts != [] && forall i :: 0 <= i < |parts| ==> IsTerm(parts[i], p)
    ensures TermTree(u, p) && PrintUnit(u) == Wrap(parts, w)
    ensures |us| == |parts|
    ensures forall i :: 0 <= i < |us| ==> TermTree(us[i], p) && PrintUnit(us[i]) == parts[i]
    ensures forall v :: UnitVal(u, v) == if w.op == And then AllTrue(us, v) else SomeTrue(us, v)
  {
    us := TermsOf(parts, p);
    if |parts| == 1 {
      u := us[0];
      forall v
        ensures UnitVal(u, v) == if w.op == And then AllTrue(us, v) else SomeTrue(us, v)
      {
        ChainVal(us, w, v);
      }
    } else {
      var e := ChainTree(us, w);
      u := Paren(e);
      PrintChain(us, w);
      PrintParen(e);
      assert Prints(us) == parts;
      ChainShape(us, w, p);
      forall v
        ensures UnitVal(u, v) == if w.op == And then AllTrue(us, v) else SomeTrue(us, v)
      {
        ChainVal(us, w, v);
      }
    }
  }

  /** Reading wrapped operands. */
  lemma WrapReads(parts: seq<string>, w: Word, p: Shape, counts: Counts, calls: Calls)
    requires parts != [] && EachTerm(parts, p) && Stronger(p) && Disciplined(calls, p)
    ensures IsTerm(Wrap(parts, w), p) && Wrap(parts, w) != ""
    ensures CheckRequire(Wrap(parts, w), counts, calls) ==
            Ok(if w.op == And then EachHolds(parts, counts, calls) else SomeHolds(parts, counts, calls))
  {
    hide CheckRequire;
    EachAt(parts, p);
    var us, u := WrapTree(parts, w, p);
    ReadTree(u, p, counts, calls);
    OperandNonempty(u, p);
    TreesHold(parts, us, p, counts, calls);
  }

  lemma EachAt(parts: seq<string>, p: Shape)
    requires EachTerm(parts, p)
    ensures forall i :: 0 <= i < |parts| ==> IsTerm(parts[i], p)
  {
    forall i | 0 <= i < |parts|
      ensures IsTerm(parts[i], p)
    {
      assert parts[i] in parts;
    }
  }

  lemma TreesHold(parts: seq<string>, us: seq<Unit>, p: Shape, counts: Counts, calls: Calls)
    requires |us| == |parts| && Stronger(p) && Disciplined(calls, p)
    requires forall i :: 0 <= i < |us| ==> TermTree(us[i], p) && PrintUnit(us[i]) == parts[i]
    ensures AllTrue(us, Truth(counts, calls)) == EachHolds(parts, counts, calls)
    ensures SomeTrue(us, Truth(counts, calls)) == SomeHolds(parts, counts, calls)
  {
    var v := Truth(counts, calls);
    forall i | 0 <= i < |parts|
      ensures Holds(parts[i], counts, calls) == UnitVal(us[i], v)
    {
      ReadTree(us[i], p, counts, calls);
    }
    HoldsAt(parts, counts, calls);
  }

  lemma HoldsAt(parts: seq<string>, counts: Counts, calls: Calls)
    ensures EachHolds(parts, counts, calls) == forall i :: 0 <= i < |parts| ==> Holds(parts[i], counts, calls)
    ensures SomeHolds(parts, counts, calls) == exists i :: 0 <= i < |parts| && Holds(parts[i], counts, calls)
  {
    if EachHolds(parts, counts, calls) {
      assert forall i :: 0 <= i < |parts| ==> parts[i] in parts;
    }
    if i :| 0 <= i < |parts| && Holds(parts[i], counts, calls) {
      assert parts[i] in parts;
    }
  }

  lemma KeptTerms(parts: seq<string>, kept: seq<string>, p: Shape, counts: Counts, calls: Calls)
    requires EachReq(parts, p) && Keeps(kept, parts)
    ensures EachTerm(kept, p)
    ensures EachHolds(kept, counts, calls) == EachHolds(parts, counts, calls)
    ensures SomeHolds(kept, counts, calls) == exists q :: q in parts && q != "" && Holds(q, counts, calls)
  {
    if EachHolds(kept, counts, calls) {
      forall q | q in parts
        ensures Holds(q, counts, calls)
      {
        if q != "" {
          assert q in kept;
        }
      }
    }
  }

  lemma JoinAll(parts: seq<string>, kept: seq<string>, p: Shape, counts: Counts, calls: Calls)
    requires EachReq(parts, p) && Keeps(kept, parts) && Stronger(p) && Disciplined(calls, p)
    ensures IsReq(Wrap(kept, AND), p)
    ensures CheckRequire(Wrap(kept, AND), counts, calls) == Ok(EachHolds(parts, counts, calls))
  {
    KeptTerms(parts, kept, p, counts, calls);
    if kept != [] {
      WrapReads(kept, AND, p, counts, calls);
    }
  }

  /** `and_join` is conjunction: nothing joined holds always, repetitions and empty parts
      change nothing. */
  lemma AndJoinReads(parts: seq<string>, p: Shape, counts: Counts, calls: Calls)
    requires EachReq(parts, p) && Stronger(p) && Disciplined(calls, p)
    ensures IsReq(AndJoin(parts), p) && IsReq(PlainAndJoin(parts), p)
    ensures CheckRequire(AndJoin(parts), counts, calls) == Ok(EachHolds(parts, counts, calls))
    ensures CheckRequire(PlainAndJoin(parts), counts, calls) == Ok(EachHolds(parts, counts, calls))
  {
    JoinAll(parts, Distinct(parts, {}), p, counts, calls);
    JoinAll(parts, NonEmpty(parts), p, counts, calls);
  }

  predicate AllEmpty(parts: seq<string>) {
    forall q :: q in parts ==> q == ""
  }

  /** `or_join` is disjunction over the parts that say something: an empty part, though
      it holds in every state, is dropped, and only when all are empty does the result hold
      for free. */
  lemma OrJoinReads(parts: seq<string>, p: Shape, counts: Counts, calls: Calls)
    requires EachReq(parts, p) && Stronger(p) && Disciplined(calls, p)
    ensures IsReq(OrJoin(parts), p)
    ensures CheckRequire(OrJoin(parts), counts, calls) ==
            Ok(AllEmpty(parts) || exists q :: q in parts && q != "" && Holds(q, counts, calls))
  {
    var kept := NonEmpty(parts);
    KeptTerms(parts, kept, p, counts, calls);
    if kept == [] {
      assert forall q :: q in parts && q != "" ==> q in kept;
    } else {
      WrapReads(kept, OR, p, counts, calls);
      assert kept[0] in kept && kept[0] in parts;
    }
  }

  /** Operands, at least one of them, joined either way give an operand. */
  lemma TermsJoin(parts: seq<string>, p: Shape, counts: Counts, calls: Calls)
    requires parts != [] && EachTerm(parts, p) && Stronger(p) && Disciplined(calls, p)
    ensures IsTerm(OrJoin(parts), p) && OrJoin(parts) != ""
    ensures CheckRequire(OrJoin(parts), counts, calls) == Ok(SomeHolds(parts, counts, calls))
    ensures IsTerm(AndJoin(parts), p) && AndJoin(parts) != ""
    ensures CheckRequire(AndJoin(parts), counts, calls) == Ok(EachHolds(parts, counts, calls))
    ensures IsTerm(PlainAndJoin(parts), p) && PlainAndJoin(parts) != ""
    ensures CheckRequire(PlainAndJoin(parts), counts, calls) == Ok(EachHolds(parts, counts, calls))
  {
    TermsNonempty(parts, p, counts, calls);
    assert parts[0] in parts;
    KeepsAll(parts, Distinct(parts, {}), p, counts, calls);
    KeepsAll(parts, NonEmpty(parts), p, counts, calls);
  }

  lemma TermsNonempty(parts: seq<string>, p: Shape, counts: Counts, calls: Calls)
    requires EachTerm(parts, p) && Stronger(p) && Disciplined(calls, p)
    ensures "" !in parts
  {
    forall q | q in parts
      ensures q != ""
    {
      ReadTerm(q, p, counts, calls);
    }
  }

  lemma KeepsAll(parts: seq<string>, kept: seq<string>, p: Shape, counts: Counts, calls: Calls)
    requires parts != [] && EachTerm(parts, p) && "" !in parts && Keeps(kept, parts)
    requires Stronger(p) && Disciplined(calls, p)
    ensures IsTerm(Wrap(kept, AND), p) && Wrap(kept, AND) != ""
    ensures CheckRequire(Wrap(kept, AND), counts, calls) == Ok(EachHolds(parts, counts, calls))
    ensures IsTerm(Wrap(kept, OR), p) && Wrap(kept, OR) != ""
    ensures CheckRequire(Wrap(kept, OR), counts, calls) == Ok(SomeHolds(parts, counts, calls))
  {
    assert parts[0] in parts && parts[0] in kept;
    assert EachTerm(kept, p);
    WrapReads(kept, AND, p, counts, calls);
    WrapReads(kept, OR, p, counts, calls);
    assert forall q :: q in kept <==> q in parts;
  }

  lemma AppendHolds(a: seq<string>, b: seq<string>, counts: Counts, calls: Calls)
    ensures EachHolds(a + b, counts, calls) == (EachHolds(a, counts, calls) && EachHolds(b, counts, calls))
    ensures SomeHolds(a + b, counts, calls) == (SomeHolds(a, counts, calls) || SomeHolds(b, counts, calls))
  {
    assert forall t :: t in a + b <==> t in a || t in b;
  }

  lemma AppendTerms(a: seq<string>, b: seq<string>, p: Shape)
    requires EachTerm(a, p) && EachTerm(b, p)
    ensures EachTerm(a + b, p)
  {
    assert forall t :: t in a + b <==> t in a || t in b;
  }

  lemma OneText(t: string, counts: Counts, calls: Calls)
    ensures EachHolds([t], counts, calls) == Holds(t, counts, calls)
    ensures SomeHolds([t], counts, calls) == Holds(t, counts, calls)
  {
    assert t in [t];
  }

  lemma EmptyHolds(counts: Counts, calls: Calls)
    ensures Holds("", counts, calls)
  {
  }

  // ------------------------------------------------------------ single items

  function Pipe(name: string): string {
    AtomText(Item(name))
  }

  function PipeN(name: string, digits: string): string {
    AtomText(ItemN(name, digits))
  }

  /** `|Name|` and `|Name:n|` hold when the state has at least one, at least `n`. */
  lemma ItemReads(a: Atom, counts: Counts, calls: Calls)
    requires (a.Item? || a.ItemN?) && GoodAtom(a)
    ensures IsTerm(AtomText(a), PLAIN_TERM)
    ensures CheckRequire(AtomText(a), counts, calls) == Ok(ItemMet(a, counts))
  {
    LeafText(a);
    assert TermTree(Leaf(a), PLAIN_TERM);
    PlainShape(calls);
    ReadTree(Leaf(a), PLAIN_TERM, counts, calls);
  }
}
