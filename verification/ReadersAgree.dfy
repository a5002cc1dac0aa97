/** Two readers of one language: the rule reader of Rules.py, where `and` and `or` are
    equally strong, and the tracker pack's parser, where `and` binds tighter. */
module ReadersAgree {
  import opened Text
  import opened Syntax
  import opened PackParser
  import opened PackMeaning
  import opened RuleReader
  import opened Terms
  import opened MoonCompiler

  // ------------------------------------------------------- the tree's meaning

  type Having = (string, nat) -> bool
  type Saying = (string, seq<string>) -> bool

  predicate AstVal(a: Ast, has: Having, says: Saying) {
    match a
    case True => true
    case False => false
    case Need(n, k) => has(n, k)
    case Func(f, xs) => says(f, xs)
    case AllOf(cs) => forall i :: 0 <= i < |cs| ==> AstVal(cs[i], has, says)
    case AnyOf(cs) => exists i :: 0 <= i < |cs| && AstVal(cs[i], has, says)
  }

  /** The truth the tracker gives an atom. */
  function PackTruth(has: Having, says: Saying): Valuation {
    (a: Atom) => AstVal(AstAtom(a), has, says)
  }

  /** The reading in which `and` binds tighter. */
  function UnitPrec(u: Unit, v: Valuation): bool
    decreases u, 0
  {
    match u
    case Leaf(a) => v(a)
    case Not(x) => !UnitPrec(x, v)
    case Paren(e) => PrecVal(e, v)
  }

  function RunVal(e: Expr, v: Valuation): bool
    decreases e, 0
  {
    match e
    case One(u) => UnitPrec(u, v)
    case More(u, w, rest) => UnitPrec(u, v) && (w.op == And ==> RunVal(rest, v))
  }

  function PrecVal(e: Expr, v: Valuation): bool
    decreases e, 1
  {
    RunVal(e, v) ||
    match Later(e)
    case None => false
    case Some(rest) => PrecVal(rest, v)
  }

  function LaterVal(l: Option<Expr>, v: Valuation): bool {
    match l
    case None => false
    case Some(rest) => PrecVal(rest, v)
  }

  predicate AllVal(cs: seq<Ast>, has: Having, says: Saying) {
    forall i :: 0 <= i < |cs| ==> AstVal(cs[i], has, says)
  }

  predicate AnyVal(cs: seq<Ast>, has: Having, says: Saying) {
    exists i :: 0 <= i < |cs| && AstVal(cs[i], has, says)
  }

  lemma AllHead(a: Ast, cs: seq<Ast>, has: Having, says: Saying)
    ensures AllVal([a] + cs, has, says) == (AstVal(a, has, says) && AllVal(cs, has, says))
    ensures AnyVal([a] + cs, has, says) == (AstVal(a, has, says) || AnyVal(cs, has, says))
  {
    hide AstVal;
    AllFirst(a, cs, has, says);
    AnyFirst(a, cs, has, says);
  }

  lemma AllFirst(a: Ast, cs: seq<Ast>, has: Having, says: Saying)
    ensures AllVal([a] + cs, has, says) == (AstVal(a, has, says) && AllVal(cs, has, says))
  {
    hide AstVal;
    var all := [a] + cs;
    assert all[0] == a && |all| == |cs| + 1;
    if AllVal(all, has, says) {
      forall i | 0 <= i < |cs|
        ensures AstVal(cs[i], has, says)
      {
        assert all[i + 1] == cs[i];
      }
    }
  }

  lemma AnyFirst(a: Ast, cs: seq<Ast>, has: Having, says: Saying)
    ensures AnyVal([a] + cs, has, says) == (AstVal(a, has, says) || AnyVal(cs, has, says))
  {
    hide AstVal;
    var all := [a] + cs;
    assert all[0] == a && |all| == |cs| + 1;
    if i :| 0 <= i < |cs| && AstVal(cs[i], has, says) {
      assert all[i + 1] == cs[i];
    }
  }

  lemma GroupVal(cs: seq<Ast>, has: Having, says: Saying)
    requires cs != []
    ensures AstVal(AndOf(cs), has, says) == AllVal(cs, has, says)
    ensures AstVal(OrOf(cs), has, says) == AnyVal(cs, has, says)
  {
  }

  lemma {:induction false} RunMeaning(e: Expr, has: Having, says: Saying)
    requires Bangless(e)
    ensures AllVal(FirstRun(e), has, says) == RunVal(e, PackTruth(has, says))
    decreases e, 0
  {
    hide AstVal;
    match e
    case One(u) =>
      UnitMeaning(u, has, says);
      AllHead(AstUnit(u), [], has, says);
      assert [AstUnit(u)] + [] == [AstUnit(u)];
    case More(u, w, rest) =>
      UnitMeaning(u, has, says);
      if w.op == And {
        RunMeaning(rest, has, says);
        AllHead(AstUnit(u), FirstRun(rest), has, says);
      } else {
        AllHead(AstUnit(u), [], has, says);
        assert [AstUnit(u)] + [] == [AstUnit(u)];
      }
  }

  lemma {:induction false} LaterBangless(e: Expr)
    requires Bangless(e)
    ensures Later(e).Some? ==> Bangless(Later(e).value)
  {
    if e.More? && e.w.op == And {
      LaterBangless(e.rest);
    }
  }

  lemma {:induction false} RunsMeaning(e: Expr, has: Having, says: Saying)
    requires Bangless(e)
    ensures AnyVal(AstRuns(e), has, says) == PrecVal(e, PackTruth(has, says))
    decreases e, 1
  {
    hide AstVal, FirstRun, RunVal;
    RunMeaning(e, has, says);
    GroupVal(FirstRun(e), has, says);
    LaterBangless(e);
    RunsSplit(e, []);
    var head := AndOf(FirstRun(e));
    assert [] + [head] == [head] && [] + AstRuns(e) == AstRuns(e);
    AllHead(head, LaterRuns(Later(e)), has, says);
    if Later(e).Some? {
      RunsMeaning(Later(e).value, has, says);
    }
  }

  lemma {:induction false} UnitMeaning(u: Unit, has: Having, says: Saying)
    requires UnitBangless(u)
    ensures AstVal(AstUnit(u), has, says) == UnitPrec(u, PackTruth(has, says))
    decreases u
  {
    hide AstVal;
    match u
    case Leaf(a) =>
    case Paren(e) =>
      RunsMeaning(e, has, says);
      GroupVal(AstRuns(e), has, says);
  }

  /** The parsed tree means the tighter-`and` reading of what was printed. */
  lemma TreeMeaning(e: Expr, has: Having, says: Saying)
    requires Bangless(e)
    ensures AstVal(AstOf(e), has, says) == PrecVal(e, PackTruth(has, says))
  {
    hide AstVal;
    RunsMeaning(e, has, says);
    GroupVal(AstRuns(e), has, says);
  }

  // ----------------------------------------- where the two readings coincide

  /** Only `or`s are left in the chain. */
  predicate OrsOnly(e: Expr) {
    e.More? ==> e.w.op == Or && OrsOnly(e.rest)
  }

  lemma {:induction false} AfterOr(e: Expr)
    requires e.More? && AndsFirst(e) && e.w.op == Or
    ensures OrsOnly(e)
  {
    if e.rest.More? {
      AfterOr(e.rest);
    }
  }

  lemma {:induction false} UnitsAgree(u: Unit, v: Valuation)
    requires UnitAndsFirst(u)
    ensures UnitVal(u, v) == UnitPrec(u, v)
    decreases u
  {
    match u
    case Leaf(_) =>
    case Not(x) => UnitsAgree(x, v);
    case Paren(e) => TreesAgree(e, v);
  }

  /** Readings agree in every state when no chain has an `or` before an `and`. */
  lemma {:induction false} TreesAgree(e: Expr, v: Valuation)
    requires AndsFirst(e)
    ensures Val(e, v) == PrecVal(e, v)
    decreases e
  {
    UnitsAgree(e.u, v);
    if e.More? {
      TailAgrees(UnitVal(e.u, v), e.w.op, e.rest, v);
      if e.w.op == Or {
        AfterOr(e);
      }
    }
  }

  lemma {:induction false} TailAgrees(acc: bool, op: Op, e: Expr, v: Valuation)
    requires AndsFirst(e)
    ensures op == And ==> ValFrom(acc, op, e, v) == ((acc && RunVal(e, v)) || LaterVal(Later(e), v))
    ensures op == Or && OrsOnly(e) ==> ValFrom(acc, op, e, v) == (acc || PrecVal(e, v))
    decreases e
  {
    UnitsAgree(e.u, v);
    if e.More? {
      TailAgrees(Apply(op, acc, UnitVal(e.u, v)), e.w.op, e.rest, v);
      if e.w.op == Or {
        AfterOr(e);
      }
    }
  }

  // -------------------------------------------------------- and only there

  /** What decides an atom's truth: the item it names, or the call. */
  function Label(a: Atom): string {
    match a
    case Bit(b) => BitText(b)
    case Call(f, x) => "{" + f + "(" + x + ")}"
    case _ => a.item
  }

  function Labels(e: Expr): set<string> {
    match e
    case One(u) => UnitLabels(u)
    case More(u, _, rest) => UnitLabels(u) + Labels(rest)
  }

  function UnitLabels(u: Unit): set<string> {
    match u
    case Leaf(a) => {Label(a)}
    case Not(x) => UnitLabels(x)
    case Paren(e) => Labels(e)
  }

  /** No two atoms share a label. */
  predicate Apart(e: Expr) {
    match e
    case One(u) => UnitApart(u)
    case More(u, _, rest) => UnitApart(u) && Apart(rest) && UnitLabels(u) !! Labels(rest)
  }

  predicate UnitApart(u: Unit) {
    match u
    case Leaf(_) => true
    case Not(x) => UnitApart(x)
    case Paren(e) => Apart(e)
  }

  /** The state in which exactly these labels hold. */
  function Held(held: set<string>): Valuation {
    (a: Atom) => Label(a) in held
  }

  lemma {:induction false} AllHeld(e: Expr, h: set<string>)
    requires Bangless(e) && Labels(e) <= h
    ensures Val(e, Held(h)) && RunVal(e, Held(h)) && PrecVal(e, Held(h))
    ensures forall acc, op :: acc || op == Or ==> ValFrom(acc, op, e, Held(h))
    decreases e
  {
    UnitHeld(e.u, h);
    if e.More? {
      AllHeld(e.rest, h);
    }
  }

  lemma {:induction false} UnitHeld(u: Unit, h: set<string>)
    requires UnitBangless(u) && UnitLabels(u) <= h
    ensures UnitVal(u, Held(h)) && UnitPrec(u, Held(h))
    decreases u
  {
    match u
    case Leaf(_) =>
    case Paren(e) => AllHeld(e, h);
  }

  lemma {:induction false} NoneHeld(e: Expr, h: set<string>)
    requires Bangless(e) && Labels(e) !! h
    ensures !Val(e, Held(h)) && !RunVal(e, Held(h)) && !PrecVal(e, Held(h)) && !LaterVal(Later(e), Held(h))
    ensures forall acc, op :: !acc || op == And ==> !ValFrom(acc, op, e, Held(h))
    decreases e
  {
    UnitNoneHeld(e.u, h);
    if e.More? {
      NoneHeld(e.rest, h);
    }
  }

  lemma {:induction false} UnitNoneHeld(u: Unit, h: set<string>)
    requires UnitBangless(u) && UnitLabels(u) !! h
    ensures !UnitVal(u, Held(h)) && !UnitPrec(u, Held(h))
    decreases u
  {
    match u
    case Leaf(_) =>
    case Paren(e) => NoneHeld(e, h);
  }

  /** Only the labels of the chain matter. */
  lemma {:induction false} SameHeld(e: Expr, h: set<string>, k: set<string>)
    requires forall l :: l in Labels(e) ==> (l in h <==> l in k)
    ensures Val(e, Held(h)) == Val(e, Held(k)) && RunVal(e, Held(h)) == RunVal(e, Held(k))
    ensures PrecVal(e, Held(h)) == PrecVal(e, Held(k)) && LaterVal(Later(e), Held(h)) == LaterVal(Later(e), Held(k))
    ensures forall acc, op :: ValFrom(acc, op, e, Held(h)) == ValFrom(acc, op, e, Held(k))
    decreases e
  {
    UnitSameHeld(e.u, h, k);
    if e.More? {
      SameHeld(e.rest, h, k);
    }
  }

  lemma {:induction false} UnitSameHeld(u: Unit, h: set<string>, k: set<string>)
    requires forall l :: l in UnitLabels(u) ==> (l in h <==> l in k)
    ensures UnitVal(u, Held(h)) == UnitVal(u, Held(k)) && UnitPrec(u, Held(h)) == UnitPrec(u, Held(k))
    decreases u
  {
    match u
    case Leaf(_) =>
    case Not(x) => UnitSameHeld(x, h, k);
    case Paren(e) => SameHeld(e, h, k);
  }

  /** The labels before the first `or`. */
  function RunLabels(e: Expr): (r: set<string>)
    ensures r <= Labels(e)
  {
    match e
    case One(u) => UnitLabels(u)
    case More(u, w, rest) => UnitLabels(u) + if w.op == And then RunLabels(rest) else {}
  }

  /** With just the first run held, the run holds, but a false operand in front of it stays
      false to the end when read from the left. */
  lemma {:induction false} RunHeld(e: Expr, h: set<string>)
    requires Bangless(e) && Apart(e) && h * Labels(e) == RunLabels(e)
    ensures RunVal(e, Held(h)) && !ValFrom(false, And, e, Held(h))
    decreases e
  {
    var mine := UnitLabels(e.u);
    assert mine <= h by {
      assert mine <= RunLabels(e);
    }
    UnitHeld(e.u, h);
    if e.More? {
      RestOfRun(h, mine, Labels(e.rest), if e.w.op == And then RunLabels(e.rest) else {});
      if e.w.op == And {
        RunHeld(e.rest, h);
      } else {
        NoneHeld(e.rest, h);
      }
    }
  }

  lemma RestOfRun(h: set<string>, mine: set<string>, later: set<string>, run: set<string>)
    requires mine !! later && run <= later && h * (mine + later) == mine + run
    ensures h * later == run
  {
    forall l
      ensures l in h * later <==> l in run
    {
      assert l in h * (mine + later) <==> l in mine + run;
    }
  }

  /** A chain that has an `or` before an `and` somewhere, however deep: a state in which the
      tight reading holds and the left one does not. */
  lemma {:induction false} Separate(e: Expr) returns (h: set<string>)
    requires Bangless(e) && Apart(e) && !AndsFirst(e)
    ensures h <= Labels(e) && !Val(e, Held(h)) && PrecVal(e, Held(h))
    decreases e
  {
    match e
    case One(u) =>
      h := SeparateUnit(u);
    case More(u, w, rest) =>
      if !UnitAndsFirst(u) {
        var k := SeparateUnit(u);
        h := k + if w.op == And then RunLabels(rest) else {};
        PartsInUnit(u, w, rest, k, h);
      } else if !AndsFirst(rest) {
        var k := Separate(rest);
        h := k + if w.op == And then UnitLabels(u) else {};
        PartsInRest(u, w, rest, k, h);
      } else {
        h := UnitLabels(u);
        PartsHere(u, w, rest);
      }
  }

  lemma {:induction false} SeparateUnit(u: Unit) returns (h: set<string>)
    requires UnitBangless(u) && UnitApart(u) && !UnitAndsFirst(u)
    ensures h <= UnitLabels(u) && !UnitVal(u, Held(h)) && UnitPrec(u, Held(h))
    decreases u
  {
    match u
    case Paren(e) => h := Separate(e);
  }

  lemma PartsHere(u: Unit, w: Word, rest: Expr)
    requires UnitBangless(u) && Bangless(rest) && Apart(More(u, w, rest))
    requires w.op == Or && rest.More? && rest.w.op == And
    ensures !Val(More(u, w, rest), Held(UnitLabels(u))) && PrecVal(More(u, w, rest), Held(UnitLabels(u)))
  {
    var v := Held(UnitLabels(u));
    UnitHeld(u, UnitLabels(u));
    assert Labels(rest.rest) !! UnitLabels(u);
    NoneHeld(rest.rest, UnitLabels(u));
    assert ValFrom(true, Or, rest, v) == ValFrom(true, And, rest.rest, v);
    assert RunVal(More(u, w, rest), v);
  }

  lemma PartsInUnit(u: Unit, w: Word, rest: Expr, k: set<string>, h: set<string>)
    requires Bangless(rest) && Apart(More(u, w, rest)) && k <= UnitLabels(u)
    requires h == k + if w.op == And then RunLabels(rest) else {}
    requires !UnitVal(u, Held(k)) && UnitPrec(u, Held(k))
    ensures !Val(More(u, w, rest), Held(h)) && PrecVal(More(u, w, rest), Held(h))
  {
    UnitSameHeld(u, h, k);
    assert Val(More(u, w, rest), Held(h)) == ValFrom(UnitVal(u, Held(h)), w.op, rest, Held(h));
    if w.op == And {
      assert h * Labels(rest) == RunLabels(rest);
      RunHeld(rest, h);
    } else {
      assert h == k;
      NoneHeld(rest, h);
    }
    assert RunVal(More(u, w, rest), Held(h));
  }

  lemma PartsInRest(u: Unit, w: Word, rest: Expr, k: set<string>, h: set<string>)
    requires UnitBangless(u) && Apart(More(u, w, rest)) && k <= Labels(rest)
    requires h == k + if w.op == And then UnitLabels(u) else {}
    requires !Val(rest, Held(k)) && PrecVal(rest, Held(k))
    ensures !Val(More(u, w, rest), Held(h)) && PrecVal(More(u, w, rest), Held(h))
  {
    SameHeld(rest, h, k);
    if w.op == And {
      UnitHeld(u, h);
    } else {
      UnitNoneHeld(u, h);
    }
  }

  // ---------------------------------------------------------- on the strings

  function Has(counts: Counts): Having {
    (n: string, k: nat) => counts(n) >= k
  }

  /** On every call that text of shape `p` may make, the tracker's helper answers as the rule
      function does. */
  ghost predicate SameCalls(p: Shape, says: Saying, counts: Counts, calls: Calls) {
    forall f, x :: p.atoms(Call(f, x)) ==>
      says(f, ArgTexts(ArgTokens(x), [], "")) == Truth(counts, calls)(Call(f, x))
  }

  lemma {:induction false} BanglessIsSingle(e: Expr)
    requires Bangless(e)
    ensures SingleBangs(e)
    decreases e
  {
    UnitBanglessIsSingle(e.u);
    if e.More? {
      BanglessIsSingle(e.rest);
    }
  }

  lemma {:induction false} UnitBanglessIsSingle(u: Unit)
    requires UnitBangless(u)
    ensures UnitSingleBangs(u)
    decreases u
  {
    match u
    case Leaf(_) =>
    case Paren(e) => BanglessIsSingle(e);
  }

  lemma {:induction false} SameVal(e: Expr, p: Atom -> bool, v: Valuation, q: Valuation)
    requires AllAtoms(e, p) && forall a :: p(a) ==> v(a) == q(a)
    ensures PrecVal(e, v) == PrecVal(e, q) && RunVal(e, v) == RunVal(e, q)
    ensures LaterVal(Later(e), v) == LaterVal(Later(e), q)
    decreases e
  {
    SameUnit(e.u, p, v, q);
    if e.More? {
      SameVal(e.rest, p, v, q);
    }
  }

  lemma {:induction false} SameUnit(u: Unit, p: Atom -> bool, v: Valuation, q: Valuation)
    requires UnitAtoms(u, p) && forall a :: p(a) ==> v(a) == q(a)
    ensures UnitPrec(u, v) == UnitPrec(u, q)
    decreases u
  {
    match u
    case Leaf(_) =>
    case Not(x) => SameUnit(x, p, v, q);
    case Paren(e) => SameVal(e, p, v, q);
  }

  const PACK_TERM := Shape(PackAtom, true)

  lemma SameTruth(p: Shape, says: Saying, counts: Counts, calls: Calls)
    requires Within(p, PACK_TERM) && SameCalls(p, says, counts, calls)
    ensures forall a :: p.atoms(a) ==> Truth(counts, calls)(a) == PackTruth(Has(counts), says)(a)
  {
    forall a | p.atoms(a)
      ensures Truth(counts, calls)(a) == PackTruth(Has(counts), says)(a)
    {
      match a
      case Item(n) =>
      case ItemN(n, d) =>
      case Call(f, x) =>
    }
  }

  /** A whole requirement of shape `p` without `!` in which no `or` stands before an `and`. */
  ghost predicate TidyTree(e: Expr, p: Shape) {
    AllAtoms(e, p.atoms) && Bangless(e) && AndsFirst(e)
  }

  lemma TidyPack(e: Expr, p: Shape)
    requires TidyTree(e, p) && Within(p, PACK_TERM)
    ensures PackExpr(e) && AllAtoms(e, GoodAtom) && SingleBangs(e)
  {
    BanglessIsSingle(e);
    WeakenExpr(e, p.atoms, PackAtom);
    WeakenExpr(e, PackAtom, GoodAtom);
  }

  /** The rule reader and the parsed tree say the same of one text in one state. */
  ghost predicate Alike(s: string, counts: Counts, calls: Calls, says: Saying) {
    && ParseRequires(s).Ok?
    && CheckRequire(s, counts, calls) == Ok(AstVal(ParseRequires(s).value, Has(counts), says))
  }

  /** Both readers give one truth value to every requirement in whose chains no `or`
      stands before an `and`. */
  lemma ReadersAgree(e: Expr, p: Shape, counts: Counts, calls: Calls, says: Saying)
    requires TidyTree(e, p) && Within(p, PACK_TERM)
    requires Answered(e, calls) && SameCalls(p, says, counts, calls)
    ensures Alike(Print(e), counts, calls, says)
  {
    hide CheckRequire, ParseRequires, AstVal, Print, Truth, PackTruth, Answered;
    TidyPack(e, p);
    ReaderPlaced(e, counts, calls);
    ParsePrint(e);
    TreeMeaning(e, Has(counts), says);
    TreesAgree(e, Truth(counts, calls));
    SameTruth(p, says, counts, calls);
    SameVal(e, p.atoms, Truth(counts, calls), PackTruth(Has(counts), says));
  }

  // ------------------------------------------------- exactly, on printed text

  /** An item asked for at least once and at most `k` times. */
  predicate Demand(a: Atom, k: nat) {
    IsNeed(a) && 1 <= NeedCount(a) <= k
  }

  function UpTo(k: nat): Atom -> bool {
    (a: Atom) => Demand(a, k)
  }

  /** Enough of each of these items, and none of any other. */
  function Stock(held: set<string>, k: nat): Counts {
    (n: string) => if n in held then k else 0
  }

  lemma StockVals(h: set<string>, k: nat, calls: Calls, says: Saying)
    ensures forall a :: Demand(a, k) ==> Truth(Stock(h, k), calls)(a) == Held(h)(a)
    ensures forall a :: Demand(a, k) ==> PackTruth(Has(Stock(h, k)), says)(a) == Held(h)(a)
  {
    forall a | Demand(a, k)
      ensures Truth(Stock(h, k), calls)(a) == Held(h)(a) && PackTruth(Has(Stock(h, k)), says)(a) == Held(h)(a)
    {
      match a
      case Item(n) =>
      case ItemN(n, d) =>
    }
  }

  /** Whatever is owned and whatever the functions of either program answer. */
  ghost predicate AlwaysAlike(s: string) {
    forall counts, calls, says :: Alike(s, counts, calls, says)
  }

  /** Some bound on the counts the text asks for. */
  ghost predicate Demands(e: Expr) {
    exists k: nat :: AllAtoms(e, UpTo(k))
  }

  lemma DemandShape(k: nat, calls: Calls)
    ensures Within(Shape(UpTo(k), true), PACK_TERM) && Disciplined(calls, Shape(UpTo(k), true))
    ensures forall says, counts :: SameCalls(Shape(UpTo(k), true), says, counts, calls)
  {
  }

  /** On text over distinct items, of any depth, the two readers always agree if and only if
      in no chain an `or` stands before an `and`. */
  lemma AgreeExactly(e: Expr)
    requires Demands(e) && Bangless(e) && Apart(e)
    ensures AlwaysAlike(Print(e)) <==> AndsFirst(e)
  {
    hide Alike, Print, Apart;
    var k: nat :| AllAtoms(e, UpTo(k));
    if AndsFirst(e) {
      forall counts, calls, says
        ensures Alike(Print(e), counts, calls, says)
      {
        DemandShape(k, calls);
        CallsSealed(e, Shape(UpTo(k), true), calls);
        ReadersAgree(e, Shape(UpTo(k), true), counts, calls, says);
      }
    } else {
      var h := Separate(e);
      var calls: Calls := (f: string, x: string) => Flag(true);
      var says: Saying := (f: string, xs: seq<string>) => true;
      PartedState(e, k, h, calls, says);
    }
  }

  lemma PartedState(e: Expr, k: nat, h: set<string>, calls: Calls, says: Saying)
    requires AllAtoms(e, UpTo(k)) && Bangless(e) && !Val(e, Held(h)) && PrecVal(e, Held(h))
    ensures !Alike(Print(e), Stock(h, k), calls, says)
  {
    hide CheckRequire, ParseRequires, AstVal, Print, Truth, PackTruth, Held, Stock;
    var counts, p := Stock(h, k), Shape(UpTo(k), true);
    DemandShape(k, calls);
    BanglessIsSingle(e);
    WeakenExpr(e, UpTo(k), PackAtom);
    WeakenExpr(e, UpTo(k), GoodAtom);
    CallsSealed(e, p, calls);
    ReaderCorrect(e, counts, calls);
    ParsePrint(e);
    TreeMeaning(e, Has(counts), says);
    StockVals(h, k, calls, says);
    SameLeft(e, UpTo(k), Truth(counts, calls), Held(h));
    SameVal(e, UpTo(k), PackTruth(Has(counts), says), Held(h));
  }

  predicate NoOrThenAnd(ops: seq<Op>) {
    |ops| < 2 || (!(ops[0] == Or && ops[1] == And) && NoOrThenAnd(ops[1..]))
  }

  predicate Different(names: seq<string>) {
    names == [] || (names[0] !in names[1..] && Different(names[1..]))
  }

  lemma {:induction false} ChainIsTidy(names: seq<string>, ops: seq<Op>)
    requires |names| == |ops| + 1 && (forall n :: n in names ==> GoodName(n)) && Different(names)
    ensures var e := ItemChain(names, ops);
            && AllAtoms(e, UpTo(1)) && Bangless(e) && Apart(e) && (AndsFirst(e) <==> NoOrThenAnd(ops))
            && forall l :: l in Labels(e) <==> l in names
    decreases |ops|
  {
    hide GoodName;
    assert names == [names[0]] + names[1..];
    if ops != [] {
      ChainIsTidy(names[1..], ops[1..]);
    }
  }

  /** For a chain of different items the condition is on its connectives alone. */
  lemma ChainsAgreeExactly(names: seq<string>, ops: seq<Op>)
    requires |names| == |ops| + 1 && (forall n :: n in names ==> GoodName(n)) && Different(names)
    ensures AlwaysAlike(Print(ItemChain(names, ops))) <==> NoOrThenAnd(ops)
  {
    hide AlwaysAlike, Print;
    ChainIsTidy(names, ops);
    AgreeExactly(ItemChain(names, ops));
  }

  /** `|b| and |c|`. */
  function Both(b: string, c: string): Expr {
    More(Leaf(Item(b)), AND, One(Leaf(Item(c))))
  }

  /** `|a| or |b| and |c|`. */
  function Mixed(a: string, b: string, c: string): Expr {
    More(Leaf(Item(a)), OR, Both(b, c))
  }

  /** Where an `or` does stand before an `and`: one text, read as `(a or b) and c` by the
      rules and as `a or (b and c)` by the tracker. They part exactly when `a` is held and
      `c` is not. */
  lemma MixedChainParts(a: string, b: string, c: string, counts: Counts, calls: Calls, says: Saying)
    requires GoodName(a) && GoodName(b) && GoodName(c)
    ensures Print(Mixed(a, b, c)) == "|" + a + "| or |" + b + "| and |" + c + "|"
    ensures ParseRequires(Print(Mixed(a, b, c))).Ok?
    ensures (CheckRequire(Print(Mixed(a, b, c)), counts, calls) ==
             Ok(AstVal(ParseRequires(Print(Mixed(a, b, c))).value, Has(counts), says)))
            <==> !(counts(a) >= 1 && counts(c) < 1)
  {
    hide CheckRequire, ParseRequires, Print, AstVal, GoodName;
    var e := Mixed(a, b, c);
    MixedText(a, b, c);
    MixedShape(a, b, c);
    PlainShape(calls);
    CallsSealed(e, PLAIN_TERM, calls);
    ReaderCorrect(e, counts, calls);
    ParsePrint(e);
    TreeMeaning(e, Has(counts), says);
    MixedVals(a, b, c, counts, calls, says);
  }

  lemma MixedText(a: string, b: string, c: string)
    ensures Print(Mixed(a, b, c)) == "|" + a + "| or |" + b + "| and |" + c + "|"
  {
    hide Both;
    BothText(b, c);
    PrintMore(Leaf(Item(a)), OR, Both(b, c));
    LeafText(Item(a));
    OrText("|" + a, b + "| and |" + c + "|");
  }

  lemma OrText(s: string, t: string)
    ensures s + "|" + WordText(OR) + ("|" + t) == s + "| or |" + t
  {
  }

  lemma BothText(b: string, c: string)
    ensures Print(Both(b, c)) == "|" + (b + "| and |" + c + "|")
  {
    PrintMore(Leaf(Item(b)), AND, One(Leaf(Item(c))));
    LeafText(Item(b));
    LeafText(Item(c));
  }

  lemma MixedShape(a: string, b: string, c: string)
    requires GoodName(a) && GoodName(b) && GoodName(c)
    ensures AllAtoms(Mixed(a, b, c), GoodAtom) && PackExpr(Mixed(a, b, c)) && SingleBangs(Mixed(a, b, c))
    ensures AllAtoms(Mixed(a, b, c), IsNeed)
  {
    var last := One(Leaf(Item(c)));
    assert AllAtoms(last, IsNeed) && AllAtoms(last, GoodAtom) && AllAtoms(last, PackAtom);
    assert Bangless(last) && SingleBangs(last);
    var pair := Both(b, c);
    assert AllAtoms(pair, IsNeed) && AllAtoms(pair, GoodAtom) && AllAtoms(pair, PackAtom);
    assert Bangless(pair) && SingleBangs(pair);
  }

  lemma ItemVal(n: string, counts: Counts, calls: Calls, says: Saying)
    requires GoodName(n)
    ensures Truth(counts, calls)(Item(n)) == (counts(n) >= 1)
    ensures PackTruth(Has(counts), says)(Item(n)) == (counts(n) >= 1)
  {
    assert AstAtom(Item(n)) == Need(n, 1) && AstVal(Need(n, 1), Has(counts), says) == Has(counts)(n, 1);
  }

  lemma MixedVals(a: string, b: string, c: string, counts: Counts, calls: Calls, says: Saying)
    requires GoodName(a) && GoodName(b) && GoodName(c)
    ensures Val(Mixed(a, b, c), Truth(counts, calls)) == ((counts(a) >= 1 || counts(b) >= 1) && counts(c) >= 1)
    ensures PrecVal(Mixed(a, b, c), PackTruth(Has(counts), says)) ==
            (counts(a) >= 1 || (counts(b) >= 1 && counts(c) >= 1))
  {
    hide Truth, PackTruth, GoodName;
    var v, q, last := Truth(counts, calls), PackTruth(Has(counts), says), One(Leaf(Item(c)));
    ItemVal(a, counts, calls, says);
    ItemVal(b, counts, calls, says);
    ItemVal(c, counts, calls, says);
    var pair := Both(b, c);
    assert Later(last) == None && RunVal(last, q) == q(Item(c));
    assert Later(pair) == None && RunVal(pair, q) == (q(Item(b)) && q(Item(c)));
    assert PrecVal(pair, q) == RunVal(pair, q);
    assert Later(Mixed(a, b, c)) == Some(pair) && RunVal(Mixed(a, b, c), q) == q(Item(a));
    var two := v(Item(a)) || v(Item(b));
    assert Val(Mixed(a, b, c), v) == ValFrom(v(Item(a)), Or, pair, v);
    assert ValFrom(v(Item(a)), Or, pair, v) == ValFrom(two, And, last, v);
    assert ValFrom(two, And, last, v) == (two && v(Item(c)));
  }

  lemma PackShapes()
    ensures Stronger(PACK_TERM) && Within(PLAIN_TERM, PACK_TERM)
  {
  }

  /** The same for requirement text as the joins build it; no text is no requirement. */
  lemma JoinsAgree(s: string, p: Shape, counts: Counts, calls: Calls, says: Saying)
    requires IsReq(s, p) && Within(p, PACK_TERM)
    requires Disciplined(calls, p) && SameCalls(p, says, counts, calls)
    ensures Alike(s, counts, calls, says)
  {
    if s != "" {
      hide CheckRequire, ParseRequires, AstVal;
      var u := TermOf(s, p);
      CallsSealed(One(u), p, calls);
      ReadersAgree(One(u), p, counts, calls, says);
    }
  }

  /** From moon record to tracker: the compiled text, gates and all, parses, and the
      parsed tree holds exactly when the record is met and every gate holds. */
  lemma TrackerReadsMoon(rec: Record, gates: seq<string>, p: Shape, counts: Counts, calls: Calls, says: Saying)
    requires Known(rec) && GoodGroups(rec.groups) && EachReq(gates, p)
    requires Within(PLAIN_TERM, p) && Within(p, PACK_TERM)
    requires Disciplined(calls, p) && SameCalls(p, says, counts, calls)
    ensures MoonText(Baked, rec).Ok?
    ensures ParseRequires(AndJoin([MoonText(Baked, rec).value] + gates)).Ok?
    ensures AstVal(ParseRequires(AndJoin([MoonText(Baked, rec).value] + gates)).value, Has(counts), says) ==
            (MoonMet(Baked, rec, counts) && EachHolds(gates, counts, calls))
  {
    hide CheckRequire, ParseRequires, AstVal;
    PackShapes();
    CompiledRuleCorrect(rec, gates, p, counts, calls);
    JoinsAgree(AndJoin([MoonText(Baked, rec).value] + gates), p, counts, calls, says);
  }
}
