/** `KingdomMoons` of hooks/Rules.py: the leave gate of a kingdom, returned as
    requirement text over its Power Moons and Multi-Moons. */
module KingdomMoons {
  import opened Text
  import opened Syntax
  import opened Scanner
  import opened Splice
  import opened RuleReader
  import opened Terms
  import opened DoorReader

  const AND_UPPER := Word(And, true)
  const OR_UPPER := Word(Or, true)

  function PowerMoon(kingdom: string): string {
    kingdom + " Kingdom Power Moon"
  }

  function MultiMoon(kingdom: string): string {
    kingdom + " Kingdom Multi-Moon"
  }

  /** Power Moons still needed next to `mm` Multi-Moons. */
  function StillNeeded(n: int, mm: nat): nat {
    if n - 3 * mm > 0 then n - 3 * mm else 0
  }

  function MultiPart(kingdom: string, mm: nat): seq<string> {
    if mm == 0 then []
    else if mm == 1 then [Pipe(MultiMoon(kingdom))]
    else [PipeN(MultiMoon(kingdom), NatText(mm))]
  }

  function PowerPart(kingdom: string, pm: nat): seq<string> {
    if pm > 0 then [PipeN(PowerMoon(kingdom), NatText(pm))] else []
  }

  function Clause(kingdom: string, n: int, mm: nat): string {
    Wrap(MultiPart(kingdom, mm) + PowerPart(kingdom, StillNeeded(n, mm)), AND_UPPER)
  }

  /** The clauses for the first `k` Multi-Moon counts that the pool supports. */
  function Clauses(kingdom: string, n: int, pmPool: nat, k: nat): seq<string> {
    if k == 0 then []
    else
      Clauses(kingdom, n, pmPool, k - 1)
      + (if StillNeeded(n, k - 1) > pmPool then [] else [Clause(kingdom, n, k - 1)])
  }

  function Gate(kingdom: string, n: int, mmPool: nat, pmPool: nat): Answer {
    if n <= 0 then Flag(true)
    else
      var clauses := Clauses(kingdom, n, pmPool, mmPool + 1);
      if clauses == [] then Flag(false) else Spliced(Wrap(clauses, OR_UPPER))
  }

  method LeaveGate(kingdom: string, n: int, mmPool: nat, pmPool: nat) returns (r: Answer)
    ensures r == Gate(kingdom, n, mmPool, pmPool)
  {
    hide Wrap, PipeN;
    if n <= 0 {
      return Flag(true);
    }
    var clauses: seq<string> := [];
    for mm := 0 to mmPool + 1
      invariant clauses == Clauses(kingdom, n, pmPool, mm)
    {
      var needed := StillNeeded(n, mm);
      if needed <= pmPool {
        var sub := MultiPart(kingdom, mm);
        if needed > 0 {
          sub := sub + [PipeN(PowerMoon(kingdom), NatText(needed))];
        }
        assert sub == MultiPart(kingdom, mm) + PowerPart(kingdom, needed);
        if sub == [] {
          return Flag(true);
        }
        clauses := clauses + [Wrap(sub, AND_UPPER)];
      }
    }
    return if clauses == [] then Flag(false) else Spliced(Wrap(clauses, OR_UPPER));
  }

  // ------------------------------------------------------------- its meaning

  lemma MoonNames(kingdom: string)
    requires GoodName(kingdom)
    ensures GoodName(PowerMoon(kingdom)) && GoodName(MultiMoon(kingdom))
  {
    PowerSuffix();
    MultiSuffix();
    Suffixed(kingdom, " Kingdom Power Moon");
    Suffixed(kingdom, " Kingdom Multi-Moon");
  }

  predicate GoodSuffix(s: string) {
    s != "" && !IsSpace(s[|s| - 1]) && '|' !in s && ':' !in s && '{' !in s && '}' !in s
  }

  lemma Suffixed(name: string, suffix: string)
    requires GoodName(name) && GoodSuffix(suffix)
    ensures GoodName(name + suffix)
  {
  }

  lemma PowerSuffix()
    ensures GoodSuffix(" Kingdom Power Moon")
  {
  }

  lemma MultiSuffix()
    ensures GoodSuffix(" Kingdom Multi-Moon")
  {
  }

  /** One way to pay: `mm` Multi-Moons and what is still needed in Power Moons. */
  predicate Pays(kingdom: string, n: int, mm: nat, counts: Counts) {
    counts(MultiMoon(kingdom)) >= mm && counts(PowerMoon(kingdom)) >= StillNeeded(n, mm)
  }

  lemma MultiRead(kingdom: string, mm: nat, counts: Counts, calls: Calls)
    requires GoodName(MultiMoon(kingdom))
    ensures EachTerm(MultiPart(kingdom, mm), PLAIN_TERM)
    ensures EachHolds(MultiPart(kingdom, mm), counts, calls) == (counts(MultiMoon(kingdom)) >= mm)
  {
    var name := MultiMoon(kingdom);
    if mm == 1 {
      ItemReads(Item(name), counts, calls);
      OneText(Pipe(name), counts, calls);
    } else if mm > 1 {
      ItemReads(ItemN(name, NatText(mm)), counts, calls);
      OneText(PipeN(name, NatText(mm)), counts, calls);
    }
  }

  lemma PowerRead(kingdom: string, pm: nat, counts: Counts, calls: Calls)
    requires GoodName(PowerMoon(kingdom))
    ensures EachTerm(PowerPart(kingdom, pm), PLAIN_TERM)
    ensures EachHolds(PowerPart(kingdom, pm), counts, calls) == (counts(PowerMoon(kingdom)) >= pm)
  {
    var name := PowerMoon(kingdom);
    if pm > 0 {
      ItemReads(ItemN(name, NatText(pm)), counts, calls);
      OneText(PipeN(name, NatText(pm)), counts, calls);
    }
  }

  lemma ClauseReads(kingdom: string, n: int, mm: nat, counts: Counts, calls: Calls)
    requires n > 0 && GoodName(kingdom)
    ensures IsTerm(Clause(kingdom, n, mm), PLAIN_TERM)
    ensures Holds(Clause(kingdom, n, mm), counts, calls) == Pays(kingdom, n, mm, counts)
  {
    hide CheckRequire;
    MoonNames(kingdom);
    var a, b := MultiPart(kingdom, mm), PowerPart(kingdom, StillNeeded(n, mm));
    MultiRead(kingdom, mm, counts, calls);
    PowerRead(kingdom, StillNeeded(n, mm), counts, calls);
    assert a + b != [];
    AppendHolds(a, b, counts, calls);
    AppendTerms(a, b, PLAIN_TERM);
    WrapReads(a + b, AND_UPPER, PLAIN_TERM, counts, calls);
  }

  predicate SomeClause(kingdom: string, n: int, pmPool: nat, k: nat, counts: Counts) {
    exists mm: nat :: mm < k && StillNeeded(n, mm) <= pmPool && Pays(kingdom, n, mm, counts)
  }

  lemma {:induction false} ClausesRead(kingdom: string, n: int, pmPool: nat, k: nat, counts: Counts, calls: Calls)
    requires n > 0 && GoodName(kingdom)
    ensures EachTerm(Clauses(kingdom, n, pmPool, k), PLAIN_TERM)
    ensures SomeHolds(Clauses(kingdom, n, pmPool, k), counts, calls) == SomeClause(kingdom, n, pmPool, k, counts)
  {
    hide CheckRequire, EachTerm, SomeHolds, Clause, IsTerm, SomeClause;
    if k == 0 {
      NoClauses(kingdom, n, pmPool, counts, calls);
    } else {
      ClausesRead(kingdom, n, pmPool, k - 1, counts, calls);
      ClauseReads(kingdom, n, k - 1, counts, calls);
      AddedClause(Clauses(kingdom, n, pmPool, k - 1), Clause(kingdom, n, k - 1), PLAIN_TERM, counts, calls);
      SomeClauseLast(kingdom, n, pmPool, k, counts);
    }
  }

  lemma NoClauses(kingdom: string, n: int, pmPool: nat, counts: Counts, calls: Calls)
    requires n > 0
    ensures Clauses(kingdom, n, pmPool, 0) == [] && !SomeClause(kingdom, n, pmPool, 0, counts)
    ensures EachTerm([], PLAIN_TERM) && !SomeHolds([], counts, calls)
  {
  }

  lemma AddedClause(front: seq<string>, c: string, p: Shape, counts: Counts, calls: Calls)
    requires EachTerm(front, p) && IsTerm(c, p)
    ensures EachTerm(front + [c], p) && front + [] == front
    ensures SomeHolds(front + [c], counts, calls) == (SomeHolds(front, counts, calls) || Holds(c, counts, calls))
  {
    hide CheckRequire;
    OneText(c, counts, calls);
    AppendHolds(front, [c], counts, calls);
    AppendTerms(front, [c], p);
  }

  lemma SomeClauseLast(kingdom: string, n: int, pmPool: nat, k: nat, counts: Counts)
    requires k > 0
    ensures SomeClause(kingdom, n, pmPool, k, counts) ==
            (SomeClause(kingdom, n, pmPool, k - 1, counts) ||
             (StillNeeded(n, k - 1) <= pmPool && Pays(kingdom, n, k - 1, counts)))
  {
  }

  function Min(a: int, b: int): (m: int)
    ensures m == a || m == b
  {
    if a <= b then a else b
  }

  /** The Odyssey power a state has in the kingdom, no more than the pool can give. */
  function Power(kingdom: string, mmPool: nat, pmPool: nat, counts: Counts): nat {
    3 * Min(counts(MultiMoon(kingdom)), mmPool) + Min(counts(PowerMoon(kingdom)), pmPool)
  }

  /** Paying in some supported way is having the power: using every Multi-Moon one has is
      always best. */
  lemma SomeClauseIsPower(kingdom: string, n: int, mmPool: nat, pmPool: nat, counts: Counts)
    requires n > 0
    ensures SomeClause(kingdom, n, pmPool, mmPool + 1, counts) == (Power(kingdom, mmPool, pmPool, counts) >= n)
  {
    var best := Min(counts(MultiMoon(kingdom)), mmPool);
    if Power(kingdom, mmPool, pmPool, counts) >= n {
      assert StillNeeded(n, best) <= pmPool && Pays(kingdom, n, best, counts);
    }
  }

  /** What an answer says in a state. */
  predicate Says(ans: Answer, counts: Counts, calls: Calls) {
    match ans
    case Flag(b) => b
    case Spliced(s) => Holds(s, counts, calls)
  }

  /** For every kingdom, threshold and pool the gate is a bool or one sealed operand, and it
      holds in a state exactly when three per Multi-Moon and one per Power Moon, as far as
      the pool supplies them, reach the threshold. */
  lemma GateIsPower(kingdom: string, n: int, mmPool: nat, pmPool: nat, counts: Counts, calls: Calls)
    requires GoodName(kingdom)
    ensures SealedAnswer(Gate(kingdom, n, mmPool, pmPool))
    ensures Says(Gate(kingdom, n, mmPool, pmPool), counts, calls) ==
            (Power(kingdom, mmPool, pmPool, counts) >= n)
  {
    if n > 0 {
      var clauses := Clauses(kingdom, n, pmPool, mmPool + 1);
      ClausesRead(kingdom, n, pmPool, mmPool + 1, counts, calls);
      SomeClauseIsPower(kingdom, n, mmPool, pmPool, counts);
      if clauses != [] {
        WrapReads(clauses, OR_UPPER, PLAIN_TERM, counts, calls);
        TermIsOperand(Wrap(clauses, OR_UPPER));
      }
    }
  }

  // ------------------------------------------------------------ the rule function

  /** The threshold that counts: the rolled one where there is a table of them, but only if
      the argument is a number at all. */
  function Threshold(kingdom: string, number: string, rolled: Option<map<string, int>>): Option<int> {
    match ParseInt(Strip(number))
    case None => None
    case Some(n) => Some(if rolled.Some? && kingdom in rolled.value then rolled.value[kingdom] else n)
  }

  /** `KingdomMoons(kingdom, number)` with the pool's item counts. */
  function RuleAnswer(kingdom: string, number: string, rolled: Option<map<string, int>>, items: map<string, nat>)
    : Answer
  {
    var k := Strip(kingdom);
    match Threshold(k, number, rolled)
    case None => Flag(false)
    case Some(n) => Gate(k, n, Supply(items, MultiMoon(k)), Supply(items, PowerMoon(k)))
  }

  /** Item names of the pool are good names. */
  predicate GoodPool(items: map<string, nat>) {
    forall n :: n in items ==> GoodName(n)
  }

  /** Whatever is owned, an answer to `KingdomMoons(kingdom, number)` says that the second
      argument is a number and that the power the pool can supply reaches the threshold
      that counts. */
  ghost predicate AnswersPower(ans: Answer, kingdom: string, number: string, rolled: Option<map<string, int>>,
                               items: map<string, nat>)
  {
    && SealedAnswer(ans)
    && forall counts, calls :: Says(ans, counts, calls) <==> Powered(kingdom, number, rolled, items, counts)
  }

  predicate Powered(kingdom: string, number: string, rolled: Option<map<string, int>>, items: map<string, nat>,
                    counts: Counts)
  {
    var k := Strip(kingdom);
    match ParseInt(Strip(number))
    case None => false
    case Some(n) =>
      Power(k, Supply(items, MultiMoon(k)), Supply(items, PowerMoon(k)), counts)
      >= if rolled.Some? && k in rolled.value then rolled.value[k] else n
  }

  method KingdomMoonsRule(kingdom: string, number: string, rolled: Option<map<string, int>>,
                          items: map<string, nat>)
    returns (r: Answer)
    requires GoodPool(items)
    ensures r == RuleAnswer(kingdom, number, rolled, items)
    ensures AnswersPower(r, kingdom, number, rolled, items)
  {
    hide Gate, ParseInt, AnswersPower;
    RuleIsPower(kingdom, number, rolled, items);
    var k := Strip(kingdom);
    var parsed := ParseInt(Strip(number));
    if parsed.None? {
      return Flag(false);
    }
    var n := parsed.value;
    if rolled.Some? && k in rolled.value {
      n := rolled.value[k];
    }
    r := LeaveGate(k, n, Supply(items, MultiMoon(k)), Supply(items, PowerMoon(k)));
  }

  /** Whatever the arguments, the rule function keeps the discipline and answers so. */
  lemma RuleIsPower(kingdom: string, number: string, rolled: Option<map<string, int>>, items: map<string, nat>)
    requires GoodPool(items)
    ensures AnswersPower(RuleAnswer(kingdom, number, rolled, items), kingdom, number, rolled, items)
  {
    hide Gate, Says, Power, Strip, SealedAnswer, GoodName;
    var k := Strip(kingdom);
    var ans := RuleAnswer(kingdom, number, rolled, items);
    SealedRule(kingdom, number, rolled, items);
    forall counts, calls
      ensures Says(ans, counts, calls) <==> Powered(kingdom, number, rolled, items, counts)
    {
      match Threshold(k, number, rolled)
      case None => FlagSays(counts, calls);
      case Some(n) => SuppliedGate(kingdom, n, items, counts, calls);
    }
  }

  lemma SealedRule(kingdom: string, number: string, rolled: Option<map<string, int>>, items: map<string, nat>)
    requires GoodPool(items)
    ensures SealedAnswer(RuleAnswer(kingdom, number, rolled, items))
  {
    hide Gate, Power, Strip, SealedAnswer, GoodName;
    var counts: Counts, calls: Calls := (n: string) => 0, (f: string, x: string) => Flag(true);
    match Threshold(Strip(kingdom), number, rolled)
    case None => FlagSays(counts, calls);
    case Some(n) => SuppliedGate(kingdom, n, items, counts, calls);
  }

  /** The gate for a kingdom of which the pool may have nothing. */
  lemma SuppliedGate(kingdom: string, n: int, items: map<string, nat>, counts: Counts, calls: Calls)
    requires GoodPool(items)
    ensures var k := Strip(kingdom);
            var mm, pm := Supply(items, MultiMoon(k)), Supply(items, PowerMoon(k));
            && SealedAnswer(Gate(k, n, mm, pm))
            && (Says(Gate(k, n, mm, pm), counts, calls) <==> Power(k, mm, pm, counts) >= n)
  {
    hide Gate, Says, Power, Strip, SealedAnswer, GoodName;
    var k := Strip(kingdom);
    if MultiMoon(k) in items || PowerMoon(k) in items {
      KingdomNamed(kingdom);
      GateIsPower(k, n, Supply(items, MultiMoon(k)), Supply(items, PowerMoon(k)), counts, calls);
    } else {
      NothingSupplied(k, n, counts, calls);
    }
  }

  /** A kingdom with an item of a good name has a good name. */
  lemma KingdomNamed(kingdom: string)
    requires GoodName(PowerMoon(Strip(kingdom))) || GoodName(MultiMoon(Strip(kingdom)))
    ensures GoodName(Strip(kingdom))
  {
    var k := Strip(kingdom);
    StripEnds(kingdom);
    if GoodName(PowerMoon(k)) {
      PrefixGood(k, " Kingdom Power Moon");
    } else {
      PrefixGood(k, " Kingdom Multi-Moon");
    }
  }

  lemma StripEnds(s: string)
    ensures Trimmed(Strip(s))
  {
    var l := StripLeft(s);
    assert Strip(s) != "" ==> Strip(s)[0] == l[0];
  }

  lemma PrefixGood(k: string, suffix: string)
    requires GoodName(k + suffix) && Trimmed(k) && suffix != "" && suffix[0] == ' '
    ensures GoodName(k)
  {
    assert k == "" ==> k + suffix == suffix;
    assert forall c :: c in k ==> c in k + suffix;
    assert k != "" ==> (k + suffix)[0] == k[0];
  }

  lemma NothingSupplied(k: string, n: int, counts: Counts, calls: Calls)
    ensures SealedAnswer(Gate(k, n, 0, 0))
    ensures Says(Gate(k, n, 0, 0), counts, calls) <==> Power(k, 0, 0, counts) >= n
  {
    if n > 0 {
      assert Clauses(k, n, 0, 0) == [] && StillNeeded(n, 0) == n;
      assert Clauses(k, n, 0, 1) == [];
    }
  }

  lemma FlagSays(counts: Counts, calls: Calls)
    ensures SealedAnswer(Flag(false)) && !Says(Flag(false), counts, calls)
  {
  }

  lemma TermIsOperand(s: string)
    requires IsTerm(s, PLAIN_TERM)
    ensures IsOperand(s)
  {
    WeakenUnit(TermOf(s, PLAIN_TERM), IsNeed, IsPlain);
    assert Sealed(TermOf(s, PLAIN_TERM));
  }

  // --------------------------------------------------- the rule in a requirement

  /** A sealed answer contributes what the rule reader says of it. */
  lemma AnswerSays(f: string, x: string, counts: Counts, calls: Calls)
    requires SealedAnswer(calls(f, x))
    ensures Truth(counts, calls)(Call(f, x)) == Says(calls(f, x), counts, calls)
  {
    assert Answers(calls)(f, x) == CallChain(calls(f, x));
    assert Truth(counts, calls)(Call(f, x)) == Val(CallChain(calls(f, x)), PlainVal(counts));
    match calls(f, x)
    case Flag(b) =>
      FlagVal(b, counts);
    case Spliced(s) =>
      hide CheckRequire;
      var u := OperandOf(s);
      assert CallChain(calls(f, x)) == One(u);
      SealedReads(u, counts, calls);
  }

  lemma FlagVal(b: bool, counts: Counts)
    ensures Val(One(Leaf(Bit(b))), PlainVal(counts)) == b
  {
    assert PlainVal(counts)(Bit(b)) == b;
  }

  lemma SealedReads(u: Unit, counts: Counts, calls: Calls)
    requires Sealed(u)
    ensures CheckRequire(PrintUnit(u), counts, calls) == Ok(UnitVal(u, PlainVal(counts)))
  {
    hide CheckRequire;
    var p := Shape(IsPlain, false);
    assert TermTree(u, p) && Stronger(p) && Disciplined(calls, p);
    ReadTree(u, p, counts, calls);
    forall a | IsPlain(a)
      ensures Truth(counts, calls)(a) == PlainVal(counts)(a)
    {
    }
    SameLeftUnit(u, IsPlain, Truth(counts, calls), PlainVal(counts));
  }

  /** The rule function as the readers call it: two arguments, else it raises. */
  function GateFn(rolled: Option<map<string, int>>, items: map<string, nat>): RuleFn {
    (args: seq<string>) => if |args| == 2 then Ok(RuleAnswer(args[0], args[1], rolled, items)) else Raised
  }

  function GateText(kingdom: string, number: string): string {
    "{KingdomMoons(" + kingdom + "," + number + ")}"
  }

  lemma TwoArgs(kingdom: string, number: string)
    ensures Join(",", [kingdom, number]) == kingdom + "," + number
  {
    JoinCons(kingdom, [number], ',');
    JoinSingle(number, ',');
    assert [kingdom] + [number] == [kingdom, number];
  }

  lemma GateCallGood(kingdom: string, number: string)
    requires Writable([kingdom, number])
    ensures GoodAtom(Call("KingdomMoons", kingdom + "," + number))
  {
    assert forall c :: c in "KingdomMoons" ==> 'A' <= c <= 'Z' || 'a' <= c <= 'z';
    assert kingdom in [kingdom, number] && number in [kingdom, number];
  }

  lemma GateAtom(kingdom: string, number: string)
    requires Writable([kingdom, number])
    ensures var a := CallOn("KingdomMoons", [kingdom, number]);
            && GoodAtom(a) && AllAtoms(One(Leaf(a)), GoodAtom)
            && Print(One(Leaf(a))) == GateText(kingdom, number)
            && CallsOf(Toks(One(Leaf(a)))) == [("KingdomMoons", Join(",", [kingdom, number]))]
  {
    hide Writable, GoodAtom, Join;
    TwoArgs(kingdom, number);
    GateCallGood(kingdom, number);
    var a := Call("KingdomMoons", kingdom + "," + number);
    LeafText(a);
    PrintOne(Leaf(a));
    GateTextIs(kingdom, number);
    assert [A(a)][1..] == [] && Toks(One(Leaf(a))) == UnitToks(Leaf(a)) == [A(a)];
    assert CallsOf([A(a)]) == [(a.func, a.args)] + CallsOf([]);
  }

  lemma GateTextIs(kingdom: string, number: string)
    ensures AtomText(Call("KingdomMoons", kingdom + "," + number)) == GateText(kingdom, number)
  {
  }

  /** `{KingdomMoons(kingdom,number)}` put to the rule reader, whatever the two texts are: it
      never raises and holds exactly when the number is one and the power that the pool can
      supply reaches the threshold. */
  lemma GateChecked(kingdom: string, number: string, rolled: Option<map<string, int>>, items: map<string, nat>,
                    counts: Counts, table: RuleTable)
    requires GoodPool(items) && Writable([kingdom, number])
    requires table("KingdomMoons") == Some(GateFn(rolled, items))
    ensures Checked(GateText(kingdom, number), counts, table) == Ok(Powered(kingdom, number, rolled, items, counts))
  {
    hide Checked, RuleAnswer, SealedAnswer, Says, Powered, GoodPool, Print, GateText, CallRaises, Answered, Truth;
    var args, calls := [kingdom, number], RuleCalls(table);
    var x := Join(",", args);
    var e := One(Leaf(Call("KingdomMoons", x)));
    GateAtom(kingdom, number);
    CallOnArgs("KingdomMoons", args, table);
    assert GateFn(rolled, items)(args) == Ok(RuleAnswer(kingdom, number, rolled, items));
    RuleIsPower(kingdom, number, rolled, items);
    SealedPlaced(e, calls);
    CheckedReads(e, counts, table);
    AnswerSays("KingdomMoons", x, counts, calls);
  }

  /** The same text put to the door reader. */
  lemma GateAtDoor(kingdom: string, number: string, rolled: Option<map<string, int>>, items: map<string, nat>,
                   counts: Counts, table: RuleTable)
    requires GoodPool(items) && Writable([kingdom, number])
    requires table("KingdomMoons") == Some(GateFn(rolled, items))
    ensures EvalFull(GateText(kingdom, number), counts, DoorCalls(table)) ==
            Ok(Powered(kingdom, number, rolled, items, counts))
  {
    hide EvalFull, RuleAnswer, SealedAnswer, Says, Powered, GoodPool, Print, GateText, DoorTruth, ChainAnswer, Strip;
    hide CallArgs;
    var args, calls := [kingdom, number], DoorCalls(table);
    var x := Join(",", args);
    var e := One(Leaf(Call("KingdomMoons", x)));
    GateAtom(kingdom, number);
    CallArgsGiven(args);
    var stripped := StripAll(args);
    assert stripped == [Strip(kingdom), Strip(number)];
    assert calls("KingdomMoons", x) == RuleAnswer(Strip(kingdom), Strip(number), rolled, items);
    StrippedAnswer(kingdom, number, rolled, items);
    RuleIsPower(kingdom, number, rolled, items);
    SealedAtDoor("KingdomMoons", x, counts, calls);
    FullCorrect(e, counts, calls);
  }

  lemma StrippedAnswer(kingdom: string, number: string, rolled: Option<map<string, int>>, items: map<string, nat>)
    ensures RuleAnswer(Strip(kingdom), Strip(number), rolled, items) == RuleAnswer(kingdom, number, rolled, items)
  {
    hide Strip;
    StripIsTrimmed(kingdom);
    StripIsTrimmed(number);
  }

  /** A sealed answer contributes the same to the door reader. */
  lemma SealedAtDoor(f: string, x: string, counts: Counts, calls: Calls)
    requires SealedAnswer(calls(f, x))
    ensures ChainAnswer(calls(f, x))
    ensures DoorTruth(counts, calls)(Call(f, x)) == Says(calls(f, x), counts, calls)
  {
    SealedIsPlain(calls(f, x));
    AnswerTruth(f, x, counts, calls);
    match calls(f, x)
    case Flag(_) =>
    case Spliced(s) =>
      hide CheckRequire, EvalInterior;
      var u := OperandOf(s);
      assert Toks(One(u)) == UnitToks(u);
      ReplaceAllRefinesOnePass(One(u), counts, calls);
  }
}
