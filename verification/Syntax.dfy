/** The requirement language shared by the moon compilers, the rule readers and
    the tracker: its trees, the text they print to, and their two readings. */
module Syntax {
  import opened Text

  datatype Op = And | Or

  /** A connective as written: lower case in compiled rules, upper case in the
      strings that KingdomMoons returns. */
  datatype Word = Word(op: Op, upper: bool)

  /** `0`/`1`, `|Name|`, `|Name:digits|` or `{Name(args)}`. */
  datatype Atom =
    | Bit(b: bool)
    | Item(item: string)
    | ItemN(item: string, digits: string)
    | Call(func: string, args: string)

  datatype Unit = Leaf(a: Atom) | Not(u: Unit) | Paren(e: Expr)

  /** A chain of units joined by connectives. */
  datatype Expr = One(u: Unit) | More(u: Unit, w: Word, rest: Expr)

  // ---------------------------------------------------------------- meaning

  type Valuation = Atom -> bool

  function Apply(op: Op, x: bool, y: bool): bool {
    match op
    case And => x && y
    case Or => x || y
  }

  function UnitVal(u: Unit, v: Valuation): bool
    decreases u
  {
    match u
    case Leaf(a) => v(a)
    case Not(x) => !UnitVal(x, v)
    case Paren(e) => Val(e, v)
  }

  /** The reading of Rules.py: `and` and `or` are equally strong and group left. */
  function Val(e: Expr, v: Valuation): bool
    decreases e
  {
    match e
    case One(u) => UnitVal(u, v)
    case More(u, w, rest) => ValFrom(UnitVal(u, v), w.op, rest, v)
  }

  function ValFrom(acc: bool, op: Op, e: Expr, v: Valuation): bool
    decreases e
  {
    match e
    case One(u) => Apply(op, acc, UnitVal(u, v))
    case More(u, w, rest) => ValFrom(Apply(op, acc, UnitVal(u, v)), w.op, rest, v)
  }

  // ------------------------------------------------------------------- text

  datatype Tok = LP | RP | Bang | W(w: Word) | A(a: Atom)

  function UnitToks(u: Unit): seq<Tok> {
    match u
    case Leaf(a) => [A(a)]
    case Not(x) => [Bang] + UnitToks(x)
    case Paren(e) => [LP] + Toks(e) + [RP]
  }

  function Toks(e: Expr): seq<Tok> {
    match e
    case One(u) => UnitToks(u)
    case More(u, w, rest) => UnitToks(u) + [W(w)] + Toks(rest)
  }

  /** Which connectives have already been rewritten to `&` and `|`. */
  datatype Style = Style(ands: bool, ors: bool)

  const PLAIN := Style(false, false)

  function Keyword(op: Op): string {
    match op
    case And => "and"
    case Or => "or"
  }

  function Sign(op: Op): char {
    match op
    case And => '&'
    case Or => '|'
  }

  function Spelled(w: Word): string {
    match w
    case Word(And, false) => "and"
    case Word(And, true) => "AND"
    case Word(Or, false) => "or"
    case Word(Or, true) => "OR"
  }

  function WordText(w: Word): string {
    " " + Spelled(w) + " "
  }

  function Body(a: Atom): string
    requires a.Item? || a.ItemN?
  {
    match a
    case Item(n) => n
    case ItemN(n, d) => n + ":" + d
  }

  function BitText(b: bool): string {
    if b then "1" else "0"
  }

  function AtomText(a: Atom): string {
    match a
    case Bit(b) => BitText(b)
    case Call(f, x) => "{" + f + "(" + x + ")}"
    case _ => "|" + Body(a) + "|"
  }

  function TokText(t: Tok, sty: Style): string {
    match t
    case LP => "("
    case RP => ")"
    case Bang => "!"
    case A(a) => AtomText(a)
    case W(w) =>
      if (w.op == And && sty.ands) || (w.op == Or && sty.ors) then [Sign(w.op)] else WordText(w)
  }

  function Flat(ts: seq<Tok>, sty: Style): string {
    if ts == [] then "" else TokText(ts[0], sty) + Flat(ts[1..], sty)
  }

  lemma {:induction false} FlatAppend(a: seq<Tok>, b: seq<Tok>, sty: Style)
    ensures Flat(a + b, sty) == Flat(a, sty) + Flat(b, sty)
  {
    if a == [] {
      assert a + b == b;
    } else {
      assert (a + b)[1..] == a[1..] + b;
      FlatAppend(a[1..], b, sty);
    }
  }

  lemma FlatMore(u: Unit, w: Word, rest: Expr, sty: Style)
    ensures Flat(Toks(More(u, w, rest)), sty) ==
            Flat(UnitToks(u), sty) + (TokText(W(w), sty) + Flat(Toks(rest), sty))
  {
    var tail := [W(w)] + Toks(rest);
    assert tail[0] == W(w) && tail[1..] == Toks(rest);
    assert Toks(More(u, w, rest)) == UnitToks(u) + tail;
    FlatAppend(UnitToks(u), tail, sty);
  }

  lemma FlatParen(e: Expr, sty: Style)
    ensures Flat(UnitToks(Paren(e)), sty) == "(" + (Flat(Toks(e), sty) + ")")
  {
    var ts := UnitToks(Paren(e));
    assert ts[0] == LP && ts[1..] == Toks(e) + [RP];
    FlatAppend(Toks(e), [RP], sty);
    assert [RP][1..] == [];
    assert Flat([RP], sty) == ")" + "" == ")";
  }

  function Print(e: Expr): string {
    Flat(Toks(e), PLAIN)
  }

  function PrintUnit(u: Unit): string {
    Flat(UnitToks(u), PLAIN)
  }

  lemma LeafText(a: Atom)
    ensures PrintUnit(Leaf(a)) == AtomText(a)
  {
    assert [A(a)][1..] == [];
    assert Flat([A(a)], PLAIN) == AtomText(a) + "" == AtomText(a);
  }

  /** `|n0| op0 |n1| op1 ..`. */
  function ItemChain(names: seq<string>, ops: seq<Op>): Expr
    requires |names| == |ops| + 1
  {
    if ops == [] then One(Leaf(Item(names[0])))
    else More(Leaf(Item(names[0])), Word(ops[0], false), ItemChain(names[1..], ops[1..]))
  }

  // --------------------------------------------------- the well-formed domain

  /** Names an item may have: what Rules.py would strip, split or take for a call is
      excluded. */
  predicate GoodName(n: string) {
    && n != "" && Trimmed(n)
    && '|' !in n && ':' !in n && '{' !in n && '}' !in n
    && n[0] != '@' && n[0] != '$' && n[0] != ')'
  }

  predicate GoodAtom(a: Atom) {
    match a
    case Bit(_) => true
    case Item(n) => GoodName(n)
    case ItemN(n, d) => GoodName(n) && AllDigits(d)
    case Call(f, x) =>
      && f != "" && (forall c :: c in f ==> IsWord(c))
      && ')' !in x && '{' !in x && '}' !in x
  }

  /** An item, with or without a count. */
  predicate IsNeed(a: Atom) {
    GoodAtom(a) && (a.Item? || a.ItemN?)
  }

  function NeedCount(a: Atom): nat
    requires IsNeed(a)
  {
    if a.Item? then 1 else NatValue(a.digits)
  }

  /** Every atom satisfies `p`. */
  ghost predicate AllAtoms(e: Expr, p: Atom -> bool) {
    match e
    case One(u) => UnitAtoms(u, p)
    case More(u, _, rest) => UnitAtoms(u, p) && AllAtoms(rest, p)
  }

  ghost predicate UnitAtoms(u: Unit, p: Atom -> bool) {
    match u
    case Leaf(a) => p(a)
    case Not(x) => UnitAtoms(x, p)
    case Paren(e) => AllAtoms(e, p)
  }

  /** No `!` stands directly before another `!`. */
  predicate SingleBangs(e: Expr) {
    match e
    case One(u) => UnitSingleBangs(u)
    case More(u, _, rest) => UnitSingleBangs(u) && SingleBangs(rest)
  }

  predicate UnitSingleBangs(u: Unit) {
    match u
    case Leaf(_) => true
    case Not(x) => !x.Not? && UnitSingleBangs(x)
    case Paren(e) => SingleBangs(e)
  }

  /** No `!` at all. */
  predicate Bangless(e: Expr) {
    match e
    case One(u) => UnitBangless(u)
    case More(u, _, rest) => UnitBangless(u) && Bangless(rest)
  }

  predicate UnitBangless(u: Unit) {
    match u
    case Leaf(_) => true
    case Not(_) => false
    case Paren(e) => Bangless(e)
  }

  /** In no chain does an `or` stand before an `and`. */
  predicate AndsFirst(e: Expr) {
    match e
    case One(u) => UnitAndsFirst(u)
    case More(u, w, rest) =>
      && UnitAndsFirst(u) && AndsFirst(rest)
      && (w.op == Or && rest.More? ==> rest.w.op == Or)
  }

  predicate UnitAndsFirst(u: Unit) {
    match u
    case Leaf(_) => true
    case Not(x) => UnitAndsFirst(x)
    case Paren(e) => AndsFirst(e)
  }
}
