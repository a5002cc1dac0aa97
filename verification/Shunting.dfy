/** `infix_to_postfix` and `evaluate_postfix` of Rules.py. Both stacks are written
    with their top first. */
module Shunting {
  import opened Text
  import opened Syntax

  predicate IsOp(c: char) {
    c == '&' || c == '|' || c == '!'
  }

  /** The table `prec`. */
  function Prec(c: char): int {
    if c == '!' then 3 else 2
  }

  /** The operator stack and the postfix text built so far. */
  datatype State = State(stack: string, out: string)

  /** Pops the operators that bind at least as tightly as `c`. */
  function PopTighter(c: char, st: State): State
    decreases |st.stack|
  {
    if st.stack != "" && st.stack[0] != '(' && Prec(c) <= Prec(st.stack[0]) then
      PopTighter(c, State(st.stack[1..], st.out + [st.stack[0]]))
    else st
  }

  /** Pops down to the nearest `(`, which stays. */
  function PopToParen(st: State): State
    decreases |st.stack|
  {
    if st.stack != "" && st.stack[0] != '(' then
      PopToParen(State(st.stack[1..], st.out + [st.stack[0]]))
    else st
  }

  /** One character of `infix_to_postfix`. */
  function Step(c: char, st: State): Result<State> {
    if IsDigit(c) then Ok(State(st.stack, st.out + [c]))
    else if IsOp(c) then
      var p := PopTighter(c, st);
      Ok(State([c] + p.stack, p.out))
    else if c == '(' then Ok(State("(" + st.stack, st.out))
    else if c == ')' then
      var p := PopToParen(st);
      if p.stack == "" then Raised else Ok(State(p.stack[1..], p.out))
    else Ok(st)
  }

  function Feed(s: string, st: State): Result<State> {
    if s == "" then Ok(st)
    else
      match Step(s[0], st)
      case Raised => Raised
      case Ok(st') => Feed(s[1..], st')
  }

  function Postfix(s: string): Result<string> {
    match Feed(s, State("", ""))
    case Raised => Raised
    case Ok(st) => Ok(st.out + st.stack)
  }

  method InfixToPostfix(expr: string) returns (r: Result<string>)
    ensures r == Postfix(expr)
  {
    var stack, postfix := "", "";
    var i := 0;
    while i < |expr|
      invariant 0 <= i <= |expr|
      invariant Feed(expr, State("", "")) == Feed(expr[i..], State(stack, postfix))
    {
      var c := expr[i];
      ghost var st := State(stack, postfix);
      assert expr[i..][0] == c && expr[i..][1..] == expr[i + 1..];
      if IsDigit(c) {
        postfix := postfix + [c];
      } else if IsOp(c) {
        while stack != "" && stack[0] != '(' && Prec(c) <= Prec(stack[0])
          invariant PopTighter(c, st) == PopTighter(c, State(stack, postfix))
          decreases |stack|
        {
          postfix, stack := postfix + [stack[0]], stack[1..];
        }
        stack := [c] + stack;
      } else if c == '(' {
        stack := "(" + stack;
      } else if c == ')' {
        while stack != "" && stack[0] != '('
          invariant PopToParen(st) == PopToParen(State(stack, postfix))
          decreases |stack|
        {
          postfix, stack := postfix + [stack[0]], stack[1..];
        }
        if stack == "" {
          return Raised;
        }
        stack := stack[1..];
      }
      i := i + 1;
    }
    assert expr[i..] == "";
    ghost var all := postfix + stack;
    assert Postfix(expr) == Ok(all);
    while stack != ""
      invariant all == postfix + stack
      decreases |stack|
    {
      postfix, stack := postfix + [stack[0]], stack[1..];
    }
    assert postfix == all;
    return Ok(postfix);
  }

  /** `evaluate_postfix` from a stack `vs`. */
  function Run(s: string, vs: seq<bool>): Result<bool> {
    if s == "" then
      if |vs| == 1 then Ok(vs[0]) else Raised
    else if s[0] == '0' then Run(s[1..], [false] + vs)
    else if s[0] == '1' then Run(s[1..], [true] + vs)
    else if s[0] == '&' then
      if |vs| < 2 then Raised else Run(s[1..], [vs[1] && vs[0]] + vs[2..])
    else if s[0] == '|' then
      if |vs| < 2 then Raised else Run(s[1..], [vs[1] || vs[0]] + vs[2..])
    else if s[0] == '!' then
      if |vs| < 1 then Raised else Run(s[1..], [!vs[0]] + vs[1..])
    else Run(s[1..], vs)
  }

  method EvaluatePostfix(expr: string) returns (r: Result<bool>)
    ensures r == Run(expr, [])
  {
    var stack: seq<bool> := [];
    var i := 0;
    while i < |expr|
      invariant 0 <= i <= |expr|
      invariant Run(expr, []) == Run(expr[i..], stack)
    {
      var c := expr[i];
      assert expr[i..][0] == c && expr[i..][1..] == expr[i + 1..];
      if c == '0' {
        stack := [false] + stack;
      } else if c == '1' {
        stack := [true] + stack;
      } else if c == '&' {
        if |stack| < 2 { return Raised; }
        stack := [stack[1] && stack[0]] + stack[2..];
      } else if c == '|' {
        if |stack| < 2 { return Raised; }
        stack := [stack[1] || stack[0]] + stack[2..];
      } else if c == '!' {
        if |stack| < 1 { return Raised; }
        stack := [!stack[0]] + stack[1..];
      }
      i := i + 1;
    }
    if |stack| != 1 { return Raised; }
    return Ok(stack[0]);
  }

  /** Both stages. */
  function Evaluate(s: string): Result<bool> {
    match Postfix(s)
    case Raised => Raised
    case Ok(p) => Run(p, [])
  }

  // ------------------------------------------------- correctness of the pair

  /** The style once every connective has been rewritten to a sign. */
  const SIGNS := Style(true, true)

  predicate BitsOnly(a: Atom) {
    a.Bit?
  }

  predicate BitVal(a: Atom) {
    a.Bit? && a.b
  }

  /** The postfix text of a unit: what is written at once, then what waits. */
  function UnitPost(u: Unit): string
    requires UnitAtoms(u, BitsOnly)
    decreases u
  {
    UnitOut(u) + UnitWait(u)
  }

  function UnitOut(u: Unit): string
    requires UnitAtoms(u, BitsOnly)
    decreases u, 0
  {
    match u
    case Leaf(a) => BitText(a.b)
    case Not(x) => UnitPost(x)
    case Paren(e) => Post("", e)
  }

  function UnitWait(u: Unit): string {
    if u.Not? then "!" else ""
  }

  /** Postfix text of a chain that starts with the operator `pend` waiting. */
  function Post(pend: string, e: Expr): string
    requires AllAtoms(e, BitsOnly)
    decreases e
  {
    match e
    case One(u) => UnitPost(u) + pend
    case More(u, w, rest) => UnitPost(u) + pend + Post([Sign(w.op)], rest)
  }

  /** What is left on the stack after the chain. */
  function Waiting(pend: string, e: Expr): string
    decreases e
  {
    match e
    case One(u) => UnitWait(u) + pend
    case More(_, w, rest) => Waiting([Sign(w.op)], rest)
  }

  function Written(pend: string, e: Expr): string
    requires AllAtoms(e, BitsOnly)
    decreases e
  {
    match e
    case One(u) => UnitOut(u)
    case More(u, w, rest) => UnitPost(u) + pend + Written([Sign(w.op)], rest)
  }

  predicate Pending(pend: string) {
    pend == "" || pend == "&" || pend == "|"
  }

  predicate Base(stack: string) {
    stack == "" || stack[0] == '('
  }

  lemma {:induction false} FeedAppend(a: string, b: string, st: State)
    ensures Feed(a + b, st) ==
            match Feed(a, st) case Raised => Raised case Ok(st') => Feed(b, st')
  {
    if a == "" {
      assert a + b == b;
    } else {
      assert (a + b)[0] == a[0] && (a + b)[1..] == a[1..] + b;
      match Step(a[0], st)
      case Raised =>
      case Ok(st') => FeedAppend(a[1..], b, st');
    }
  }

  /** A text of operators in front of a base is popped whole. */
  lemma {:induction false} PopAll(c: char, ops: string, base: string, out: string)
    requires Base(base) && (c == '&' || c == '|')
    requires forall x :: x in ops ==> IsOp(x)
    ensures PopTighter(c, State(ops + base, out)) == State(base, out + ops)
    ensures PopToParen(State(ops + base, out)) == State(base, out + ops)
  {
    if ops == "" {
      assert ops + base == base && out + ops == out;
    } else {
      assert ops[0] in ops;
      assert (ops + base)[0] == ops[0] && (ops + base)[1..] == ops[1..] + base;
      PopAll(c, ops[1..], base, out + [ops[0]]);
      assert out + [ops[0]] + ops[1..] == out + ops;
    }
  }

  lemma {:induction false} WaitingOps(pend: string, e: Expr)
    requires Pending(pend) && AllAtoms(e, BitsOnly)
    ensures forall x :: x in Waiting(pend, e) ==> IsOp(x)
    ensures Written(pend, e) + Waiting(pend, e) == Post(pend, e)
    decreases e
  {
    match e
    case One(u) =>
    case More(u, w, rest) => WaitingOps([Sign(w.op)], rest);
  }

  lemma {:induction false} FeedUnit(u: Unit, stack: string, out: string)
    requires UnitAtoms(u, BitsOnly) && UnitSingleBangs(u)
    requires u.Not? ==> stack == "" || stack[0] != '!'
    ensures Feed(Flat(UnitToks(u), SIGNS), State(stack, out)) ==
            Ok(State(UnitWait(u) + stack, out + UnitOut(u)))
    decreases u
  {
    match u
    case Leaf(a) => FeedLeaf(a, stack, out);
    case Not(x) =>
      assert UnitToks(u)[1..] == UnitToks(x);
      var s := Flat(UnitToks(x), SIGNS);
      assert Flat(UnitToks(u), SIGNS) == "!" + s;
      assert ("!" + s)[1..] == s;
      assert PopTighter('!', State(stack, out)) == State(stack, out);
      FeedUnit(x, "!" + stack, out);
      assert UnitWait(x) + ("!" + stack) == "!" + stack;
      assert UnitOut(x) + UnitWait(x) == UnitOut(x);
    case Paren(e) =>
      FlatParen(e, SIGNS);
      FeedExpr(e, "(" + stack, "", out);
      assert "" + ("(" + stack) == "(" + stack;
      WaitingOps("", e);
      FeedParen(Flat(Toks(e), SIGNS), Waiting("", e), Written("", e), stack, out);
      assert UnitWait(u) + stack == stack;
  }

  lemma FeedLeaf(a: Atom, stack: string, out: string)
    requires a.Bit?
    ensures Feed(Flat([A(a)], SIGNS), State(stack, out)) == Ok(State("" + stack, out + BitText(a.b)))
  {
    var s := BitText(a.b);
    assert Flat([A(a)], SIGNS) == s + Flat([], SIGNS) == s;
    assert s[1..] == "" && [s[0]] == s && "" + stack == stack;
    assert Feed("", State(stack, out + s)) == Ok(State(stack, out + s));
  }

  /** A closing parenthesis flushes what waits above its partner. */
  lemma FeedClose(ops: string, stack: string, out: string)
    requires forall x :: x in ops ==> IsOp(x)
    ensures Feed(")", State(ops + ("(" + stack), out)) == Ok(State(stack, out + ops))
  {
    PopAll('&', ops, "(" + stack, out);
    assert ("(" + stack)[1..] == stack && ")"[1..] == "";
  }

  lemma FeedParen(inner: string, wait: string, written: string, stack: string, out: string)
    requires forall x :: x in wait ==> IsOp(x)
    requires Feed(inner, State("(" + stack, out)) == Ok(State(wait + ("(" + stack), out + written))
    ensures Feed("(" + (inner + ")"), State(stack, out)) == Ok(State(stack, out + (written + wait)))
  {
    FeedOpen(inner + ")", stack, out);
    FeedAppend(inner, ")", State("(" + stack, out));
    FeedClose(wait, stack, out + written);
    assert out + written + wait == out + (written + wait);
  }

  lemma FeedOpen(later: string, stack: string, out: string)
    ensures Feed("(" + later, State(stack, out)) == Feed(later, State("(" + stack, out))
  {
    assert ("(" + later)[0] == '(' && ("(" + later)[1..] == later;
  }

  lemma {:induction false} FeedExpr(e: Expr, base: string, pend: string, out: string)
    requires AllAtoms(e, BitsOnly) && SingleBangs(e)
    requires Base(base) && Pending(pend)
    ensures Feed(Flat(Toks(e), SIGNS), State(pend + base, out)) ==
            Ok(State(Waiting(pend, e) + base, out + Written(pend, e)))
    decreases e
  {
    hide Feed, Flat, UnitPost, UnitOut, UnitWait;
    match e
    case One(u) =>
      NotOnTop(pend, base);
      FeedUnit(u, pend + base, out);
      Regroup(UnitWait(u), pend, base);
    case More(u, w, rest) =>
      NotOnTop(pend, base);
      FeedUnit(u, pend + base, out);
      FeedMore(u, w, rest, base, pend, out);
      FeedExpr(rest, base, [Sign(w.op)], out + (UnitPost(u) + pend));
      WrittenMore(pend, u, w, rest, out);
  }

  lemma Shuffle(a: string, b: string, c: string, d: string)
    ensures a + b + (c + d) == a + (b + c + d)
  {
  }

  lemma WrittenMore(pend: string, u: Unit, w: Word, rest: Expr, out: string)
    requires UnitAtoms(u, BitsOnly) && AllAtoms(rest, BitsOnly)
    ensures out + (UnitPost(u) + pend) + Written([Sign(w.op)], rest) == out + Written(pend, More(u, w, rest))
  {
  }

  lemma FeedMore(u: Unit, w: Word, rest: Expr, base: string, pend: string, out: string)
    requires UnitAtoms(u, BitsOnly) && Base(base) && Pending(pend)
    requires Feed(Flat(UnitToks(u), SIGNS), State(pend + base, out)) ==
             Ok(State(UnitWait(u) + (pend + base), out + UnitOut(u)))
    ensures Feed(Flat(Toks(More(u, w, rest)), SIGNS), State(pend + base, out)) ==
            Feed(Flat(Toks(rest), SIGNS), State([Sign(w.op)] + base, out + (UnitPost(u) + pend)))
  {
    FlatMore(u, w, rest, SIGNS);
    FeedJoined(Flat(UnitToks(u), SIGNS), w.op, Flat(Toks(rest), SIGNS), base, pend, UnitWait(u),
               out, out + UnitOut(u));
    Shuffle(out, UnitOut(u), UnitWait(u), pend);
  }

  lemma NotOnTop(pend: string, base: string)
    requires Base(base) && Pending(pend)
    ensures pend + base == "" || (pend + base)[0] != '!'
  {
    assert pend == "" ==> pend + base == base;
  }

  /** A sign flushes what waits and takes its place. */
  lemma FeedSign(op: Op, ops: string, base: string, out: string, later: string)
    requires Base(base) && forall x :: x in ops ==> IsOp(x)
    ensures Feed([Sign(op)] + later, State(ops + base, out)) ==
            Feed(later, State([Sign(op)] + base, out + ops))
  {
    var c := Sign(op);
    PopAll(c, ops, base, out);
    assert ([c] + later)[0] == c && ([c] + later)[1..] == later;
  }

  /** A unit's text, then a sign, from a base with `pend` waiting on it. */
  lemma FeedJoined(first: string, op: Op, later: string, base: string, pend: string, wait: string,
                   out: string, out': string)
    requires Base(base) && Pending(pend) && (wait == "" || wait == "!")
    requires Feed(first, State(pend + base, out)) == Ok(State(wait + (pend + base), out'))
    ensures Feed(first + ([Sign(op)] + later), State(pend + base, out)) ==
            Feed(later, State([Sign(op)] + base, out' + (wait + pend)))
  {
    hide Feed;
    FeedAppend(first, [Sign(op)] + later, State(pend + base, out));
    Regroup(wait, pend, base);
    FeedSign(op, wait + pend, base, out', later);
  }

  lemma {:induction false} RunUnit(u: Unit, rest: string, vs: seq<bool>)
    requires UnitAtoms(u, BitsOnly)
    ensures Run(UnitPost(u) + rest, vs) == Run(rest, [UnitVal(u, BitVal)] + vs)
    decreases u
  {
    match u
    case Leaf(a) =>
      var s := BitText(a.b);
      assert UnitPost(u) + rest == s + rest;
      assert (s + rest)[0] == s[0] && (s + rest)[1..] == rest;
    case Not(x) =>
      assert UnitPost(u) + rest == UnitPost(x) + ("!" + rest);
      RunUnit(x, "!" + rest, vs);
      var vs' := [UnitVal(x, BitVal)] + vs;
      assert ("!" + rest)[0] == '!' && ("!" + rest)[1..] == rest;
      assert vs'[1..] == vs;
    case Paren(e) =>
      assert UnitPost(u) == Post("", e);
      RunExpr("", false, e, rest, vs);
      assert [] + vs == vs;
  }

  /** The operand below the waiting operator, if there is one. */
  function Below(pend: string, acc: bool): seq<bool> {
    if pend == "" then [] else [acc]
  }

  function Combined(pend: string, acc: bool, x: bool): bool {
    if pend == "" then x else Apply(OpOf(pend), acc, x)
  }

  function OpOf(pend: string): Op {
    if pend == "&" then And else Or
  }

  /** The value of the chain, continuing from the operand below the operator. */
  function ChainVal(pend: string, acc: bool, e: Expr): bool {
    if pend == "" then Val(e, BitVal) else ValFrom(acc, OpOf(pend), e, BitVal)
  }

  lemma {:induction false} RunExpr(pend: string, acc: bool, e: Expr, rest: string, vs: seq<bool>)
    requires AllAtoms(e, BitsOnly) && Pending(pend)
    ensures Run(Post(pend, e) + rest, Below(pend, acc) + vs) == Run(rest, [ChainVal(pend, acc, e)] + vs)
    decreases e
  {
    match e
    case One(u) =>
      assert Post(pend, e) + rest == UnitPost(u) + (pend + rest);
      RunUnit(u, pend + rest, Below(pend, acc) + vs);
      RunPending(pend, acc, UnitVal(u, BitVal), rest, vs);
    case More(u, w, later) =>
      var c := [Sign(w.op)];
      var tail := Post(c, later) + rest;
      var acc' := Combined(pend, acc, UnitVal(u, BitVal));
      PostMore(pend, u, w, later, rest);
      RunUnit(u, pend + tail, Below(pend, acc) + vs);
      RunPending(pend, acc, UnitVal(u, BitVal), tail, vs);
      RunExpr(c, acc', later, rest, vs);
      assert OpOf(c) == w.op;
  }

  lemma PostMore(pend: string, u: Unit, w: Word, later: Expr, rest: string)
    requires UnitAtoms(u, BitsOnly) && AllAtoms(later, BitsOnly)
    ensures Post(pend, More(u, w, later)) + rest ==
            UnitPost(u) + (pend + (Post([Sign(w.op)], later) + rest))
  {
  }

  lemma RunPending(pend: string, acc: bool, x: bool, rest: string, vs: seq<bool>)
    requires Pending(pend)
    ensures Run(pend + rest, [x] + (Below(pend, acc) + vs)) == Run(rest, [Combined(pend, acc, x)] + vs)
  {
    if pend == "" {
      assert pend + rest == rest && Below(pend, acc) + vs == vs;
    } else {
      var st := [x] + (Below(pend, acc) + vs);
      assert (pend + rest)[0] == pend[0] && (pend + rest)[1..] == rest;
      assert st[2..] == vs && st[0] == x && st[1] == acc;
    }
  }

  /** For every chain over 0, 1, `&`, `|`, `!` and parentheses in which no `!`
      directly follows another, the two stages never raise and compute the reading
      in which `!` binds tightest and `&`/`|` group left with equal strength. */
  lemma ShuntingYardCorrect(e: Expr)
    requires AllAtoms(e, BitsOnly) && SingleBangs(e)
    ensures Evaluate(Flat(Toks(e), SIGNS)) == Ok(Val(e, BitVal))
  {
    FeedExpr(e, "", "", "");
    assert "" + "" == "";
    assert Waiting("", e) + "" == Waiting("", e) && "" + Written("", e) == Written("", e);
    WaitingOps("", e);
    RunExpr("", false, e, "", []);
    assert Post("", e) + "" == Post("", e);
    assert Below("", false) + [] == [] && [Val(e, BitVal)] + [] == [Val(e, BitVal)];
    assert Run("", [Val(e, BitVal)]) == Ok(Val(e, BitVal));
  }

  // ------------------------------------------------------------- doubled bangs

  /** The second `!` of two pops the first before its operand is written. */
  lemma FeedBangs(later: string, stack: string, out: string)
    requires stack == "" || stack[0] != '!'
    requires stack == "" || stack[0] == '(' || stack[0] == '&' || stack[0] == '|'
    ensures Feed("!!" + later, State(stack, out)) == Feed(later, State("!" + stack, out + "!"))
  {
    var s, t := "!!" + later, "!" + later;
    assert s[0] == '!' && s[1..] == t && t[0] == '!' && t[1..] == later;
    var one := State("!" + stack, out);
    assert Step('!', State(stack, out)) == Ok(one);
    assert one.stack[0] == '!' && one.stack[1..] == stack;
    assert PopTighter('!', one) == PopTighter('!', State(stack, out + "!")) == State(stack, out + "!");
    assert Feed(s, State(stack, out)) == Feed(t, one);
  }

  /** Two `!` and an operand. */
  lemma FeedDoubled(v: Unit, stack: string, out: string)
    requires UnitAtoms(v, BitsOnly) && UnitSingleBangs(v) && !v.Not?
    requires stack == "" || stack == "&" || stack == "|"
    ensures Feed("!!" + Flat(UnitToks(v), SIGNS), State(stack, out)) ==
            Ok(State("!" + stack, out + ("!" + UnitPost(v))))
  {
    hide Feed, Flat;
    FeedBangs(Flat(UnitToks(v), SIGNS), stack, out);
    FeedUnit(v, "!" + stack, out + "!");
    assert UnitWait(v) + ("!" + stack) == "!" + stack && UnitOut(v) + UnitWait(v) == UnitOut(v);
    assert out + "!" + UnitOut(v) == out + ("!" + UnitOut(v));
  }

  /** At the start of a text a doubled `!` finds nothing to negate, and the evaluator
      raises. */
  lemma DoubledBangRaises(v: Unit)
    requires UnitAtoms(v, BitsOnly) && UnitSingleBangs(v) && !v.Not?
    ensures Evaluate("!!" + Flat(UnitToks(v), SIGNS)) == Raised
  {
    hide Feed, Flat;
    FeedDoubled(v, "", "");
    var p := "" + ("!" + UnitPost(v)) + ("!" + "");
    assert p[0] == '!';
    assert Run(p, []) == Raised;
  }

  /** After an operand `x` it negates that: `x & !!y` is read as `!x & !y`, and `|` the same
      way. Nothing raises, and the answer is right exactly when one of the two holds. */
  lemma DoubledBangMisreads(u: Unit, op: Op, v: Unit)
    requires UnitAtoms(u, BitsOnly) && UnitSingleBangs(u)
    requires UnitAtoms(v, BitsOnly) && UnitSingleBangs(v) && !v.Not?
    ensures var x, y := UnitVal(u, BitVal), UnitVal(v, BitVal);
            var r := Evaluate(Flat(UnitToks(u), SIGNS) + ([Sign(op)] + ("!!" + Flat(UnitToks(v), SIGNS))));
            && r == Ok(Apply(op, !x, !y))
            && (r == Ok(Apply(op, x, y)) <==> x != y)
  {
    hide Feed, Flat, Run;
    FeedMisread(u, op, v);
    RunMisread(u, op, v);
  }

  function Misread(u: Unit, op: Op, v: Unit): string
    requires UnitAtoms(u, BitsOnly) && UnitAtoms(v, BitsOnly)
  {
    UnitPost(u) + ("!" + (UnitPost(v) + ("!" + [Sign(op)])))
  }

  lemma FeedMisread(u: Unit, op: Op, v: Unit)
    requires UnitAtoms(u, BitsOnly) && UnitSingleBangs(u)
    requires UnitAtoms(v, BitsOnly) && UnitSingleBangs(v) && !v.Not?
    ensures Postfix(Flat(UnitToks(u), SIGNS) + ([Sign(op)] + ("!!" + Flat(UnitToks(v), SIGNS)))) ==
            Ok(Misread(u, op, v))
  {
    hide Feed, Flat, UnitPost;
    var first, later := Flat(UnitToks(u), SIGNS), "!!" + Flat(UnitToks(v), SIGNS);
    FeedUnit(u, "", "");
    assert UnitWait(u) + "" == UnitWait(u) && "" + UnitOut(u) == UnitOut(u);
    FeedAppend(first, [Sign(op)] + later, State("", ""));
    assert UnitWait(u) + "" == UnitWait(u) && [Sign(op)] + "" == [Sign(op)];
    FeedSign(op, UnitWait(u), "", UnitOut(u), later);
    UnitPostParts(u);
    FeedDoubled(v, [Sign(op)], UnitPost(u));
    Regroup(UnitPost(u), "!" + UnitPost(v), "!" + [Sign(op)]);
    Regroup("!", UnitPost(v), "!" + [Sign(op)]);
  }

  lemma UnitPostParts(u: Unit)
    requires UnitAtoms(u, BitsOnly)
    ensures UnitPost(u) == UnitOut(u) + UnitWait(u)
  {
  }

  lemma RunMisread(u: Unit, op: Op, v: Unit)
    requires UnitAtoms(u, BitsOnly) && UnitAtoms(v, BitsOnly)
    ensures Run(Misread(u, op, v), []) == Ok(Apply(op, !UnitVal(u, BitVal), !UnitVal(v, BitVal)))
  {
    hide UnitPost, UnitVal, Run;
    var x, y, last := UnitVal(u, BitVal), UnitVal(v, BitVal), "!" + [Sign(op)];
    RunUnit(u, "!" + (UnitPost(v) + last), []);
    assert [x] + [] == [x] && [!x] + [] == [!x];
    RunBang(UnitPost(v) + last, x, []);
    RunUnit(v, last, [!x]);
    RunBang([Sign(op)], y, [!x]);
    RunSign(op, !x, !y);
  }

  lemma RunBang(rest: string, x: bool, vs: seq<bool>)
    ensures Run("!" + rest, [x] + vs) == Run(rest, [!x] + vs)
  {
    assert ("!" + rest)[0] == '!' && ("!" + rest)[1..] == rest && ([x] + vs)[1..] == vs;
  }

  lemma RunSign(op: Op, x: bool, y: bool)
    ensures Run([Sign(op)], [y] + [x]) == Ok(Apply(op, x, y))
  {
    assert [Sign(op)][1..] == "" && ([y] + [x])[2..] == [];
    var r := [Apply(op, x, y)];
    assert Run("", r) == Ok(r[0]);
    assert r + [] == r;
  }

  // ------------------------------------------------------------ other characters

  predicate Speaks(c: char) {
    c == '0' || c == '1' || c == '&' || c == '|' || c == '!' || c == '(' || c == ')'
  }

  /** What is left of a text without the characters that say nothing. */
  function Spoken(s: string): string {
    if s == "" then "" else (if Speaks(s[0]) then [s[0]] else "") + Spoken(s[1..])
  }

  lemma {:induction false} SpokenAppend(a: string, b: string)
    ensures Spoken(a + b) == Spoken(a) + Spoken(b)
  {
    if a == "" {
      assert a + b == b;
    } else {
      assert (a + b)[0] == a[0] && (a + b)[1..] == a[1..] + b;
      SpokenAppend(a[1..], b);
    }
  }

  function Cleaned(st: State): State {
    State(st.stack, Spoken(st.out))
  }

  predicate AllSpeak(s: string) {
    forall i :: 0 <= i < |s| ==> Speaks(s[i])
  }

  lemma {:induction false} SpokenAll(s: string)
    requires AllSpeak(s)
    ensures Spoken(s) == s
  {
    if s != "" {
      SpokenAll(s[1..]);
      assert s == [s[0]] + s[1..];
    }
  }

  lemma SpokenOne(out: string, c: char)
    ensures Spoken(out + [c]) == if Speaks(c) then Spoken(out) + [c] else Spoken(out)
  {
    SpokenAppend(out, [c]);
    assert [c][1..] == "";
  }

  lemma {:induction false} PopsCleaned(c: char, st: State)
    requires AllSpeak(st.stack)
    ensures PopTighter(c, Cleaned(st)) == Cleaned(PopTighter(c, st)) && AllSpeak(PopTighter(c, st).stack)
    ensures PopToParen(Cleaned(st)) == Cleaned(PopToParen(st)) && AllSpeak(PopToParen(st).stack)
    decreases |st.stack|
  {
    if st.stack != "" && st.stack[0] != '(' {
      SpokenOne(st.out, st.stack[0]);
      PopsCleaned(c, State(st.stack[1..], st.out + [st.stack[0]]));
    }
  }

  lemma {:induction false} FeedCleaned(s: string, st: State)
    requires AllSpeak(st.stack)
    ensures match Feed(s, st)
            case Raised => Feed(Spoken(s), Cleaned(st)) == Raised
            case Ok(t) => Feed(Spoken(s), Cleaned(st)) == Ok(Cleaned(t)) && AllSpeak(t.stack)
  {
    hide PopTighter, PopToParen, Spoken;
    FeedEmpty(st);
    if s != "" {
      StepCleaned(s[0], st);
      SpokenHead(s);
      if Speaks(s[0]) {
        FeedHead(s[0], Spoken(s[1..]), Cleaned(st));
      }
      if Step(s[0], st).Ok? {
        FeedCleaned(s[1..], Step(s[0], st).value);
      }
    }
  }

  lemma FeedEmpty(st: State)
    ensures Feed("", st) == Ok(st) && Spoken("") == ""
  {
  }

  lemma SpokenHead(s: string)
    requires s != ""
    ensures Spoken(s) == (if Speaks(s[0]) then [s[0]] else "") + Spoken(s[1..])
    ensures !Speaks(s[0]) ==> Spoken(s) == Spoken(s[1..])
  {
  }

  lemma FeedHead(c: char, s: string, st: State)
    ensures Feed([c] + s, st) == match Step(c, st) case Raised => Raised case Ok(t) => Feed(s, t)
  {
    assert ([c] + s)[1..] == s;
  }

  lemma StepCleaned(c: char, st: State)
    requires AllSpeak(st.stack)
    ensures Speaks(c) ==>
              match Step(c, st)
              case Raised => Step(c, Cleaned(st)) == Raised
              case Ok(t) => Step(c, Cleaned(st)) == Ok(Cleaned(t)) && AllSpeak(t.stack)
    ensures !Speaks(c) ==> Step(c, st).Ok? && Cleaned(Step(c, st).value) == Cleaned(st)
                           && Step(c, st).value.stack == st.stack
  {
    hide PopTighter, PopToParen, Spoken;
    PopsCleaned(c, st);
    SpokenOne(st.out, c);
  }

  lemma {:induction false} RunCleaned(p: string, vs: seq<bool>)
    ensures Run(Spoken(p), vs) == Run(p, vs)
    decreases |p|
  {
    if p != "" {
      var rest := p[1..];
      SpokenHead(p);
      if Speaks(p[0]) {
        assert ([p[0]] + Spoken(rest))[1..] == Spoken(rest);
      }
      match p[0]
      case '0' => RunCleaned(rest, [false] + vs);
      case '1' => RunCleaned(rest, [true] + vs);
      case '&' => if |vs| >= 2 { RunCleaned(rest, [vs[1] && vs[0]] + vs[2..]); }
      case '|' => if |vs| >= 2 { RunCleaned(rest, [vs[1] || vs[0]] + vs[2..]); }
      case '!' => if |vs| >= 1 { RunCleaned(rest, [!vs[0]] + vs[1..]); }
      case _ => RunCleaned(rest, vs);
    }
  }

  /** Blanks, letters and all other characters say nothing: leaving them out changes neither
      the answer nor whether there is one. */
  lemma OthersIgnored(s: string)
    ensures Evaluate(s) == Evaluate(Spoken(s))
  {
    hide Feed, Run, Spoken;
    var st := State("", "");
    FeedEmpty(st);
    assert Cleaned(st) == st;
    FeedCleaned(s, st);
    match Feed(s, st)
    case Raised =>
    case Ok(t) =>
      SpokenAppend(t.out, t.stack);
      SpokenAll(t.stack);
      RunCleaned(t.out + t.stack, []);
      RunCleaned(Spoken(t.out) + t.stack, []);
      SpokenTwice(t.out, t.stack);
  }

  lemma {:induction false} SpokenTwice(a: string, b: string)
    requires AllSpeak(b)
    ensures Spoken(Spoken(a) + b) == Spoken(a) + b
  {
    SpokenSpeaks(a);
    SpokenAll(Spoken(a) + b);
  }

  lemma {:induction false} SpokenSpeaks(a: string)
    ensures AllSpeak(Spoken(a))
  {
    if a != "" {
      SpokenSpeaks(a[1..]);
    }
  }
}
