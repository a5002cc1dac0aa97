/** `checkRequireStringForArea` of Rules.py: calls by textual substitution, then
    items by textual substitution, then connectives, then the shunting-yard. */
module RuleReader {
  import opened Text
  import opened Syntax
  import opened Scanner
  import opened Relabel
  import opened Splice
  import Shunting

  type Counts = string -> nat

  /** What a rule function hands back: a bool, or requirement text to splice in. */
  datatype Answer = Flag(b: bool) | Spliced(s: string)

  type Calls = (string, string) -> Answer

  function AnswerText(ans: Answer): string {
    match ans
    case Flag(b) => BitText(b)
    case Spliced(s) => s
  }

  /** A rule function on its argument list; it may raise. */
  type RuleFn = seq<string> -> Result<Answer>

  /** The functions of hooks/Rules.py by name. */
  type RuleTable = string -> Option<RuleFn>

  /** The argument text split at its commas; no text is no argument. */
  function RuleArgs(x: string): seq<string> {
    if x == "" then [] else SplitOn(x, ',')
  }

  /** Arguments without commas come back one by one, whatever else is in them. */
  lemma ArgsGiven(args: seq<string>)
    requires args != [""] && forall a :: a in args ==> ',' !in a
    ensures RuleArgs(Join(",", args)) == args
  {
    if args != [] {
      SplitJoin(args, ',');
      if |args| > 1 {
        JoinNonempty(args, ',');
      }
    }
  }

  /** A call of an unknown function, or of one that raises on its arguments. */
  predicate CallRaises(table: RuleTable, f: string, x: string) {
    table(f).None? || table(f).value(RuleArgs(x)).Raised?
  }

  /** What the other calls answer. */
  function RuleCalls(table: RuleTable): Calls {
    (f: string, x: string) => if CallRaises(table, f, x) then Flag(false) else table(f).value(RuleArgs(x)).value
  }

  /** The loop over `re.findall` of calls. */
  function ReplaceCalls(s: string, found: seq<(string, string)>, calls: Calls): string
    decreases |found|
  {
    if found == [] then s
    else
      var (f, x) := found[0];
      ReplaceCalls(Replace(s, CallText(f, x), AnswerText(calls(f, x))), found[1..], calls)
  }

  /** `m.lstrip('|@$').rstrip('|')`. */
  function StripMarks(m: string): string {
    StripBars(StripMarksLeft(m))
  }

  function StripMarksLeft(m: string): string {
    if m != "" && (m[0] == '|' || m[0] == '@' || m[0] == '$') then StripMarksLeft(m[1..]) else m
  }

  function StripBars(m: string): string {
    if m != "" && m[|m| - 1] == '|' then StripBars(m[..|m| - 1]) else m
  }

  /** Name and count text of a matched item. */
  function ItemParts(m: string): (string, string) {
    var item := StripMarks(m);
    var parts := SplitOn(item, ':');
    if |parts| > 1 then (Strip(parts[0]), Strip(parts[1])) else (item, "1")
  }

  /** One round of the loop over matched items. Categories and the counts `all`,
      `half` and `%` are outside the model and raise here. */
  function ReplaceItem(s: string, m: string, counts: Counts): Result<string>
    requires m != ""
  {
    if |m| >= 2 && m[1] == '@' then Raised
    else
      var (name, count) := ItemParts(m);
      match ParseInt(count)
      case None => Raised
      case Some(n) =>
        var s1 := if counts(name) >= n then Replace(s, m, "1") else s;
        Ok(if counts(name) <= n then Replace(s1, m, "0") else s1)
  }

  function ReplaceItems(s: string, found: seq<string>, counts: Counts): Result<string>
    requires forall i :: 0 <= i < |found| ==> found[i] != ""
    decreases |found|
  {
    if found == [] then Ok(s)
    else
      match ReplaceItem(s, found[0], counts)
      case Raised => Raised
      case Ok(s') => ReplaceItems(s', found[1..], counts)
  }

  /** `\s?\bKW\b\s?` at the start of `s`, ignoring case: the length of the match, 0 for
      none. `prev` tells whether the character before `s` is a word character. */
  function KeywordAt(s: string, prev: bool, kw: string): (n: nat)
    requires kw != ""
    ensures n <= |s|
  {
    var k := if s != "" && IsSpace(s[0]) then 1 else 0;
    var end := k + |kw|;
    if || |s| < end || Lower(s[k..end]) != kw || (k == 0 && prev)
       || (|s| > end && IsWord(s[end])) then 0
    else if |s| > end && IsSpace(s[end]) then end + 1
    else end
  }

  /** `re.sub` of a keyword by a sign. */
  function SubKeyword(s: string, prev: bool, kw: string, sign: char): string
    requires kw != ""
    decreases |s|
  {
    if s == "" then ""
    else
      var n := KeywordAt(s, prev, kw);
      if n == 0 then [s[0]] + SubKeyword(s[1..], IsWord(s[0]), kw, sign)
      else [sign] + SubKeyword(s[n..], IsWord(s[n - 1]), kw, sign)
  }

  /** Connectives to signs, then both shunting-yard stages. */
  function Finish(s: string): Result<bool> {
    Shunting.Evaluate(SubKeyword(SubKeyword(s, false, "and", '&'), false, "or", '|'))
  }

  /** The whole reader. */
  function CheckRequire(s: string, counts: Counts, calls: Calls): Result<bool> {
    if s == "" then Ok(true)
    else
      var s1 := ReplaceCalls(s, FindCalls(s), calls);
      match ReplaceItems(s1, FindItems(s1), counts)
      case Raised => Raised
      case Ok(s2) => Finish(s2)
  }

  /** The reader over the rule functions there are: a call that fails ends it. */
  function Checked(s: string, counts: Counts, table: RuleTable): Result<bool> {
    if exists c :: c in FindCalls(s) && CallRaises(table, c.0, c.1) then Raised
    else CheckRequire(s, counts, RuleCalls(table))
  }

  method CheckRequireString(requires_: string, counts: Counts, table: RuleTable) returns (r: Result<bool>)
    ensures r == Checked(requires_, counts, table)
  {
    if requires_ == "" {
      return Ok(true);
    }
    var spliced := SpliceFoundCalls(requires_, table);
    if spliced.Raised? {
      return Raised;
    }
    var replaced := ReplaceFoundItems(spliced.value, counts);
    if replaced.Raised? {
      return Raised;
    }
    var list := SubKeyword(replaced.value, false, "and", '&');
    list := SubKeyword(list, false, "or", '|');
    var postfix := Shunting.InfixToPostfix(list);
    match postfix {
      case Raised => return Raised;
      case Ok(p) => r := Shunting.EvaluatePostfix(p);
    }
  }

  /** The first loop of the reader. */
  method SpliceFoundCalls(s: string, table: RuleTable) returns (r: Result<string>)
    ensures r == if exists c :: c in FindCalls(s) && CallRaises(table, c.0, c.1) then Raised
                 else Ok(ReplaceCalls(s, FindCalls(s), RuleCalls(table)))
  {
    hide Replace, FindCalls, CallText, SplitOn, ReplaceCalls, RuleCalls;
    var list, found, i := s, FindCalls(s), 0;
    while i < |found|
      invariant 0 <= i <= |found|
      invariant forall c :: c in found[..i] ==> !CallRaises(table, c.0, c.1)
      invariant ReplaceCalls(s, found, RuleCalls(table)) == ReplaceCalls(list, found[i..], RuleCalls(table))
    {
      var (f, x) := found[i];
      assert found[i] in found && found[..i + 1] == found[..i] + [found[i]];
      ReplaceNext(list, found, i, table);
      CallTextGiven(f, x);
      var func := table(f);
      if func.None? {
        assert CallRaises(table, found[i].0, found[i].1);
        return Raised;
      }
      var result := func.value(RuleArgs(x));
      match result {
        case Raised =>
          assert CallRaises(table, found[i].0, found[i].1);
          return Raised;
        case Ok(Flag(b)) => list := Replace(list, CallText(f, x), if b then "1" else "0");
        case Ok(Spliced(t)) => list := Replace(list, CallText(f, x), t);
      }
      i := i + 1;
    }
    assert found[..i] == found && found[i..] == [];
    ReplaceNone(list, table);
    return Ok(list);
  }

  lemma CallTextGiven(f: string, x: string)
    ensures CallText(f, x) != ""
  {
  }

  lemma ReplaceNone(list: string, table: RuleTable)
    ensures ReplaceCalls(list, [], RuleCalls(table)) == list
  {
  }

  lemma ReplaceNext(list: string, found: seq<(string, string)>, i: nat, table: RuleTable)
    requires i < |found|
    ensures var (f, x) := found[i];
            !CallRaises(table, f, x) ==>
              ReplaceCalls(list, found[i..], RuleCalls(table)) ==
              ReplaceCalls(Replace(list, CallText(f, x), AnswerText(table(f).value(RuleArgs(x)).value)), found[i + 1..],
                           RuleCalls(table))
  {
    hide Replace, CallText, AnswerText, SplitOn;
    assert found[i..][0] == found[i] && found[i..][1..] == found[i + 1..];
  }

  method ReplaceFoundItem(s: string, m: string, counts: Counts) returns (r: Result<string>)
    requires m != ""
    ensures r == ReplaceItem(s, m, counts)
  {
    if |m| >= 2 && m[1] == '@' {
      return Raised;
    }
    var (name, count) := ItemParts(m);
    var parsed := ParseInt(count);
    if parsed.None? {
      return Raised;
    }
    var list, total := s, counts(name);
    if total >= parsed.value {
      list := Replace(list, m, "1");
    }
    if total <= parsed.value {
      list := Replace(list, m, "0");
    }
    return Ok(list);
  }

  /** The second loop of the reader. */
  method ReplaceFoundItems(s: string, counts: Counts) returns (r: Result<string>)
    ensures r == ReplaceItems(s, FindItems(s), counts)
  {
    var list := s;
    var found := FindItems(list);
    var i := 0;
    while i < |found|
      invariant 0 <= i <= |found|
      invariant ReplaceItems(s, found, counts) == ReplaceItems(list, found[i..], counts)
    {
      var m := found[i];
      assert found[i..][0] == m && found[i..][1..] == found[i + 1..];
      var step := ReplaceFoundItem(list, m, counts);
      match step {
        case Raised => return Raised;
        case Ok(l) => list := l;
      }
      i := i + 1;
    }
    return Ok(list);
  }

  /** How many copies the item pool has. */
  function Supply(items: map<string, nat>, name: string): nat {
    if name in items then items[name] else 0
  }

  // ---------------------------------------------------------- what it means

  /** An item is met when the state holds enough of it. */
  predicate ItemMet(a: Atom, counts: Counts)
    requires a.Item? || (a.ItemN? && AllDigits(a.digits))
  {
    counts(a.item) >= (if a.Item? then 1 else NatValue(a.digits))
  }

  function PlainVal(counts: Counts): Valuation {
    (a: Atom) => match a
      case Bit(b) => b
      case Call(_, _) => false
      case _ => GoodAtom(a) && ItemMet(a, counts)
  }

  /** Text that stands for one sealed operand: a single atom or a parenthesised chain,
      without calls. */
  ghost predicate IsOperand(s: string) {
    exists u :: Sealed(u) && PrintUnit(u) == s
  }

  ghost function OperandOf(s: string): (u: Unit)
    requires IsOperand(s)
    ensures Sealed(u) && PrintUnit(u) == s
  {
    var u :| Sealed(u) && PrintUnit(u) == s;
    u
  }

  /** An answer is a bool or the text of one sealed operand. */
  ghost predicate SealedAnswer(ans: Answer) {
    ans.Spliced? ==> IsOperand(ans.s)
  }

  /** Every call among `found` is answered so. */
  ghost predicate SplicesOperands(found: seq<(string, string)>, calls: Calls) {
    forall p :: p in found ==> SealedAnswer(calls(p.0, p.1))
  }

  /** Text of a whole chain without calls. */
  ghost predicate IsChain(s: string) {
    exists e :: PlainChain(e) && Print(e) == s
  }

  ghost function ChainOf(s: string): (e: Expr)
    requires IsChain(s)
    ensures PlainChain(e) && Print(e) == s
  {
    var e :| PlainChain(e) && Print(e) == s;
    e
  }

  /** An answer is a bool or the text of any chain. */
  ghost predicate PlainAnswer(ans: Answer) {
    ans.Spliced? ==> IsChain(ans.s)
  }

  ghost predicate SplicesChains(found: seq<(string, string)>, calls: Calls) {
    forall p :: p in found ==> PlainAnswer(calls(p.0, p.1))
  }

  lemma SealedIsPlain(ans: Answer)
    requires SealedAnswer(ans)
    ensures PlainAnswer(ans)
  {
    if ans.Spliced? {
      assert PlainChain(One(OperandOf(ans.s)));
      assert Print(One(OperandOf(ans.s))) == ans.s;
    }
  }

  /** What an answer puts where the call stood. */
  ghost function CallChain(ans: Answer): (c: Expr)
    ensures PlainChain(c) && (SealedAnswer(ans) ==> Firm(c))
  {
    match ans
    case Flag(b) => One(Leaf(Bit(b)))
    case Spliced(s) =>
      if IsOperand(s) then One(OperandOf(s))
      else if IsChain(s) then ChainOf(s)
      else One(Leaf(Bit(false)))
  }

  ghost function Answers(calls: Calls): Fillings {
    (f, x) => CallChain(calls(f, x))
  }

  lemma AnswersPlain(calls: Calls)
    ensures PlainFillings(Answers(calls))
  {
    forall f, x
      ensures PlainChain(Answers(calls)(f, x))
    {
      assert Answers(calls)(f, x) == CallChain(calls(f, x));
    }
  }

  /** The truth of an atom in a state. */
  ghost function Truth(counts: Counts, calls: Calls): Valuation {
    Through(Answers(calls), PlainVal(counts))
  }

  // ------------------------------------------------------ pass 1, the calls

  lemma AnswerPrints(ans: Answer)
    requires PlainAnswer(ans)
    ensures Print(CallChain(ans)) == AnswerText(ans)
  {
    match ans
    case Flag(b) =>
      LeafText(Bit(b));
      assert Toks(One(Leaf(Bit(b)))) == UnitToks(Leaf(Bit(b)));
    case Spliced(s) =>
      if IsOperand(s) {
        assert Toks(One(OperandOf(s))) == UnitToks(OperandOf(s));
      }
  }

  lemma {:induction false} ReplaceCallsFlat(
    ts: seq<Tok>, done: set<(string, string)>, found: seq<(string, string)>, calls: Calls)
    requires SplicesChains(found, calls) && GoodToks(ts)
    requires forall p :: p in found ==> GoodAtom(Call(p.0, p.1))
    ensures ReplaceCalls(Flat(Filled(ts, done, Answers(calls)), PLAIN), found, calls) ==
            Flat(Filled(ts, done + CallSet(found), Answers(calls)), PLAIN)
    decreases |found|
  {
    hide Flat, Filled, Answers, GoodAtom, GoodToks, Replace;
    if found == [] {
      assert done + CallSet(found) == done;
    } else {
      var (f, x) := found[0];
      assert found[0] in found;
      FirstCallRound(ts, done, f, x, calls);
      assert forall p :: p in found[1..] ==> p in found;
      ReplaceCallsFlat(ts, done + {(f, x)}, found[1..], calls);
      assert found == [found[0]] + found[1..];
      assert done + {(f, x)} + CallSet(found[1..]) == done + CallSet(found);
    }
  }

  lemma FirstCallRound(ts: seq<Tok>, done: set<(string, string)>, f: string, x: string, calls: Calls)
    requires PlainAnswer(calls(f, x)) && GoodToks(ts) && GoodAtom(Call(f, x))
    ensures Replace(Flat(Filled(ts, done, Answers(calls)), PLAIN), CallText(f, x), AnswerText(calls(f, x))) ==
            Flat(Filled(ts, done + {(f, x)}, Answers(calls)), PLAIN)
  {
    var g := Answers(calls);
    AnswersPlain(calls);
    FilledGood(ts, done, g);
    AnswerPrints(calls(f, x));
    ReplaceCallFlat(Filled(ts, done, g), f, x, Toks(g(f, x)));
    FillOne(ts, done, f, x, g);
  }

  /** After the first pass the text is that of the resolved tree. */
  lemma CallPass(e: Expr, calls: Calls)
    requires AllAtoms(e, GoodAtom) && SplicesChains(CallsOf(Toks(e)), calls)
    ensures ReplaceCalls(Print(e), FindCalls(Print(e)), calls) == Print(Fill(e, Answers(calls)))
  {
    var ts := Toks(e);
    AtomToks(e, GoodAtom);
    FindCallsFlat(ts);
    CallsCovered(ts);
    FilledNone(ts, Answers(calls));
    ReplaceCallsFlat(ts, {}, CallsOf(ts), calls);
    assert {} + CallSet(CallsOf(ts)) == CallSet(CallsOf(ts));
    FilledExpr(e, CallSet(CallsOf(ts)), Answers(calls));
  }

  // ------------------------------------------------------ pass 2, the items

  lemma StripBarsOne(b: string)
    requires b != "" && b[|b| - 1] != '|'
    ensures StripBars(b + "|") == b
  {
    var t := b + "|";
    assert t[..|t| - 1] == b;
  }

  lemma StripMarksOf(a: Atom)
    requires GoodAtom(a) && (a.Item? || a.ItemN?)
    ensures StripMarks(AtomText(a)) == Body(a)
  {
    BodyChars(a);
    var t := AtomText(a);
    var b := Body(a);
    assert t[1..] == b + "|" && (b + "|")[0] == b[0];
    assert StripMarksLeft(t) == b + "|";
    assert b[|b| - 1] in b;
    StripBarsOne(b);
  }

  lemma SplitCounted(n: string, d: string)
    requires GoodName(n) && AllDigits(d)
    ensures SplitOn(n + ":" + d, ':') == [n, d]
  {
    var t := n + [':'] + d;
    NotDigitIn(d, ':');
    IndexOfAt(n, ':', d);
    IndexOfNone(d, ':');
    assert t[..|n|] == n && t[|n| + 1..] == d;
    assert SplitOn(d, ':') == [d];
  }

  lemma TrimmedDigits(d: string)
    requires AllDigits(d)
    ensures Trimmed(d)
  {
    assert d[0] in d && d[|d| - 1] in d;
  }

  lemma ItemPartsOf(a: Atom)
    requires GoodAtom(a) && (a.Item? || a.ItemN?)
    ensures ItemParts(AtomText(a)) == (a.item, if a.Item? then "1" else a.digits)
  {
    StripMarksOf(a);
    match a
    case Item(n) =>
      IndexOfNone(n, ':');
    case ItemN(n, d) =>
      SplitCounted(n, d);
      TrimmedDigits(d);
      StripTrimmed(d);
      StripTrimmed(n);
  }

  lemma NeedOf(a: Atom)
    requires GoodAtom(a) && (a.Item? || a.ItemN?)
    ensures ParseInt(if a.Item? then "1" else a.digits) == Some(if a.Item? then 1 else NatValue(a.digits))
  {
    assert AllDigits("1");
    assert "1"[..0] == "" && NatValue("") == 0;
    assert NatValue("1") == 1;
    PlainInt("1");
    if a.ItemN? {
      PlainInt(a.digits);
    }
  }

  lemma PutItemTwice(ts: seq<Tok>, a: Atom, b: bool, c: bool)
    requires a.Item? || a.ItemN?
    ensures PutItem(PutItem(ts, a, Bit(b)), a, Bit(c)) == PutItem(ts, a, Bit(b))
  {
  }

  lemma NoCategory(a: Atom)
    requires IsNeed(a)
    ensures |AtomText(a)| >= 2 && AtomText(a)[1] != '@'
    ensures AtomText(Bit(true)) == "1" && AtomText(Bit(false)) == "0"
  {
    BodyChars(a);
    assert AtomText(a)[1] == a.item[0];
  }

  /** One round of the item loop, both of whose branches may fire. */
  lemma ItemRound(ts: seq<Tok>, a: Atom, counts: Counts)
    requires Readable(ts) && IsNeed(a)
    ensures ReplaceItem(Flat(ts, PLAIN), AtomText(a), counts) ==
            Ok(Flat(PutItem(ts, a, Bit(ItemMet(a, counts))), PLAIN))
  {
    hide Flat, PutItem, ItemParts, ParseInt, Replace, AtomText, GoodName, GoodToks, Spaced;
    NoCategory(a);
    ItemPartsOf(a);
    NeedOf(a);
    var need := if a.Item? then 1 else NatValue(a.digits);
    if counts(a.item) >= need {
      ReplaceItemFlat(ts, a, Bit(true));
      if counts(a.item) <= need {
        PutItemShape(ts, a, Bit(true));
        ReplaceItemFlat(PutItem(ts, a, Bit(true)), a, Bit(false));
        PutItemTwice(ts, a, true, false);
      }
    } else {
      ReplaceItemFlat(ts, a, Bit(false));
    }
  }

  /** Every atom weighed. */
  function Weigh(counts: Counts): Naming {
    (a: Atom) => Bit(PlainVal(counts)(a))
  }

  lemma {:induction false} ReplaceItemsFlat(ts: seq<Tok>, done: set<Atom>, atoms: seq<Atom>, counts: Counts)
    requires Readable(ts) && forall a :: a in atoms ==> IsNeed(a)
    ensures ReplaceItems(Flat(Swapped(ts, done, Weigh(counts)), PLAIN), AtomTexts(atoms), counts) ==
            Ok(Flat(Swapped(ts, done + AtomSet(atoms), Weigh(counts)), PLAIN))
    decreases |atoms|
  {
    if atoms == [] {
      assert done + AtomSet(atoms) == done;
    } else {
      var a := atoms[0];
      assert a in atoms;
      FirstRound(ts, done, a, counts);
      AtomTextsHead(atoms);
      ReplaceItemsFlat(ts, done + {a}, atoms[1..], counts);
      AtomSetHead(done, atoms);
    }
  }

  lemma WeighNeed(a: Atom, counts: Counts)
    requires IsNeed(a)
    ensures (a.Item? || a.ItemN?) && Weigh(counts)(a) == Bit(ItemMet(a, counts))
  {
    assert Weigh(counts)(a) == Bit(PlainVal(counts)(a));
    assert PlainVal(counts)(a) == ItemMet(a, counts);
  }

  lemma WeighedAll(ts: seq<Tok>, done: set<Atom>, counts: Counts)
    requires forall t :: t in ts && t.A? ==> IsPlain(t.a)
    requires forall t :: t in ts && IsItem(t) ==> t.a in done
    ensures Swapped(ts, done, Weigh(counts)) == RenamedToks(ts, Weigh(counts))
  {
    hide Swapped;
    forall t | t in ts && t.A? && !IsItem(t)
      ensures Weigh(counts)(t.a) == t.a
    {
      assert t.a == Bit(t.a.b) && PlainVal(counts)(t.a) == t.a.b;
      assert Weigh(counts)(t.a) == Bit(PlainVal(counts)(t.a));
    }
    SwappedAll(ts, done, Weigh(counts));
  }

  lemma FirstRound(ts: seq<Tok>, done: set<Atom>, a: Atom, counts: Counts)
    requires Readable(ts) && IsNeed(a)
    ensures ReplaceItem(Flat(Swapped(ts, done, Weigh(counts)), PLAIN), AtomText(a), counts) ==
            Ok(Flat(Swapped(ts, done + {a}, Weigh(counts)), PLAIN))
  {
    hide ReplaceItem, Flat, Swapped, Readable, IsNeed, AtomText;
    var h := Weigh(counts);
    WeighNeed(a, counts);
    SwappedShape(ts, done, h);
    ItemRound(Swapped(ts, done, h), a, counts);
    SwapOne(ts, done, a, h);
  }

  /** The tree with every item weighed. */
  function Bits(e: Expr, counts: Counts): Expr {
    Renamed(e, Weigh(counts))
  }

  lemma BitsVal(e: Expr, counts: Counts)
    requires SingleBangs(e) && AllAtoms(e, IsPlain)
    ensures Val(Bits(e, counts), Shunting.BitVal) == Val(e, PlainVal(counts))
    ensures AllAtoms(Bits(e, counts), Shunting.BitsOnly) && SingleBangs(Bits(e, counts))
  {
    RenamedVal(e, Weigh(counts), Shunting.BitVal);
    RenamedShape(e, Weigh(counts), IsPlain, Shunting.BitsOnly);
    SameLeft(e, IsPlain, Under(Weigh(counts), Shunting.BitVal), PlainVal(counts));
  }

  lemma {:induction false} SameLeft(e: Expr, p: Atom -> bool, v: Valuation, q: Valuation)
    requires AllAtoms(e, p) && forall a :: p(a) ==> v(a) == q(a)
    ensures Val(e, v) == Val(e, q) && forall acc, op :: ValFrom(acc, op, e, v) == ValFrom(acc, op, e, q)
    decreases e
  {
    SameLeftUnit(e.u, p, v, q);
    if e.More? {
      SameLeft(e.rest, p, v, q);
    }
  }

  lemma {:induction false} SameLeftUnit(u: Unit, p: Atom -> bool, v: Valuation, q: Valuation)
    requires UnitAtoms(u, p) && forall a :: p(a) ==> v(a) == q(a)
    ensures UnitVal(u, v) == UnitVal(u, q)
    decreases u
  {
    match u
    case Leaf(_) =>
    case Not(x) => SameLeftUnit(x, p, v, q);
    case Paren(e) => SameLeft(e, p, v, q);
  }

  /** After the second pass the text is that of the tree of bits. */
  lemma ItemPass(e: Expr, counts: Counts)
    requires AllAtoms(e, IsPlain)
    ensures ReplaceItems(Print(e), FindItems(Print(e)), counts) == Ok(Print(Bits(e, counts)))
  {
    hide ReplaceItems, Flat, GoodAtom;
    var ts, h := Toks(e), Weigh(counts);
    AtomToks(e, IsPlain);
    SpacedExpr(e);
    FindItemsFlat(ts);
    ItemsCovered(ts);
    SwappedNone(ts, h);
    ReplaceItemsFlat(ts, {}, ItemsOf(ts), counts);
    WeighedAll(ts, {} + AtomSet(ItemsOf(ts)), counts);
    RenamedTokens(e, h);
  }

  // ------------------------------------------------ pass 3, the connectives

  predicate OnlyBits(ts: seq<Tok>) {
    forall t :: t in ts && t.A? ==> t.a.Bit?
  }

  /** A character that cannot start a match is copied. */
  lemma CopyChar(c: char, s: string, prev: bool, kw: string, sign: char)
    requires kw != "" && !IsSpace(c) && LowerChar(c) != kw[0]
    ensures SubKeyword([c] + s, prev, kw, sign) == [c] + SubKeyword(s, IsWord(c), kw, sign)
  {
    var t := [c] + s;
    assert t[0] == c && t[1..] == s;
    if |t| >= |kw| {
      assert Lower(t[0..|kw|])[0] == LowerChar(c);
    }
    assert KeywordAt(t, prev, kw) == 0;
  }

  lemma CopyBlank(s: string, prev: bool, kw: string, sign: char)
    requires kw != "" && kw[0] != ' ' && (s == "" || LowerChar(s[0]) != kw[0])
    ensures SubKeyword(" " + s, prev, kw, sign) == " " + SubKeyword(s, false, kw, sign)
  {
    var t := " " + s;
    assert t[0] == ' ' && t[1..] == s;
    if |t| >= 1 + |kw| {
      assert Lower(t[1..1 + |kw|])[0] == LowerChar(s[0]);
    }
    assert KeywordAt(t, prev, kw) == 0;
  }

  lemma LowerSpelled(w: Word)
    ensures Lower(Spelled(w)) == Keyword(w.op)
  {
  }

  lemma TakeText(word: string, kw: string, s: string, prev: bool, sign: char)
    requires kw != "" && Lower(word) == kw
    ensures SubKeyword(" " + word + " " + s, prev, kw, sign) == [sign] + SubKeyword(s, false, kw, sign)
  {
    var t := " " + word + " " + s;
    var k := |kw|;
    assert t[1..1 + k] == word;
    assert t[0] == ' ' && t[1 + k] == ' ';
    assert t[k + 2..] == s;
    assert KeywordAt(t, prev, kw) == k + 2;
  }

  lemma TakeKeyword(w: Word, s: string, prev: bool, sign: char)
    ensures SubKeyword(WordText(w) + s, prev, Keyword(w.op), sign) ==
            [sign] + SubKeyword(s, false, Keyword(w.op), sign)
  {
    LowerSpelled(w);
    TakeText(Spelled(w), Keyword(w.op), s, prev, sign);
  }

  /** In the and-pass an `or` is copied. */
  lemma CopyOr(w: Word, s: string, prev: bool)
    requires w.op == Or && (s == "" || LowerChar(s[0]) != 'a')
    ensures SubKeyword(WordText(w) + s, prev, "and", '&') == WordText(w) + SubKeyword(s, false, "and", '&')
  {
    var o, r := Spelled(w)[0], Spelled(w)[1];
    assert Spelled(w) == [o] + [r];
    CopyFour(o, r, s, prev);
    FourText(o, r, s);
    FourText(o, r, SubKeyword(s, false, "and", '&'));
  }

  lemma FourText(o: char, r: char, s: string)
    ensures " " + ([o] + [r]) + " " + s == " " + ([o] + ([r] + (" " + s)))
  {
  }

  lemma CopyFour(o: char, r: char, s: string, prev: bool)
    requires LowerChar(o) == 'o' && LowerChar(r) == 'r' && (s == "" || LowerChar(s[0]) != 'a')
    ensures SubKeyword(" " + ([o] + ([r] + (" " + s))), prev, "and", '&') ==
            " " + ([o] + ([r] + (" " + SubKeyword(s, false, "and", '&'))))
  {
    CopyBlank(s, IsWord(r), "and", '&');
    CopyChar(r, " " + s, IsWord(o), "and", '&');
    CopyChar(o, [r] + (" " + s), false, "and", '&');
    CopyBlank([o] + ([r] + (" " + s)), prev, "and", '&');
  }

  lemma FirstChar(ts: seq<Tok>, sty: Style)
    requires OnlyBits(ts)
    ensures Flat(ts, sty) == "" ||
            Flat(ts, sty)[0] in {'(', ')', '!', '0', '1', ' ', '&', '|'}
  {
    if ts != [] {
      assert ts[0] in ts;
      FlatSplit(ts, sty);
    }
  }

  lemma SingleChar(t: Tok, sty: Style)
    requires t.A? ==> t.a.Bit?
    requires t.W? ==> (t.w.op == And && sty.ands) || (t.w.op == Or && sty.ors)
    ensures |TokText(t, sty)| == 1
    ensures var c := TokText(t, sty)[0];
            !IsSpace(c) && LowerChar(c) != 'a' && LowerChar(c) != 'o'
  {
  }

  lemma {:induction false} AndPass(ts: seq<Tok>, prev: bool)
    requires OnlyBits(ts)
    ensures SubKeyword(Flat(ts, PLAIN), prev, "and", '&') == Flat(ts, Style(true, false))
    decreases |ts|
  {
    if ts != [] {
      var t, s := ts[0], Flat(ts[1..], PLAIN);
      assert t in ts;
      FlatSplit(ts, PLAIN);
      FlatSplit(ts, Style(true, false));
      if t.W? && t.w.op == And {
        TakeKeyword(t.w, s, prev, '&');
        AndPass(ts[1..], false);
      } else if t.W? {
        FirstChar(ts[1..], PLAIN);
        CopyOr(t.w, s, prev);
        AndPass(ts[1..], false);
      } else {
        SingleChar(t, PLAIN);
        var c := TokText(t, PLAIN)[0];
        assert TokText(t, PLAIN) == [c];
        CopyChar(c, s, prev, "and", '&');
        AndPass(ts[1..], IsWord(c));
      }
    }
  }

  lemma {:induction false} OrPass(ts: seq<Tok>, prev: bool)
    requires OnlyBits(ts)
    ensures SubKeyword(Flat(ts, Style(true, false)), prev, "or", '|') == Flat(ts, Shunting.SIGNS)
    decreases |ts|
  {
    if ts != [] {
      var sty := Style(true, false);
      var t, s := ts[0], Flat(ts[1..], sty);
      assert t in ts;
      FlatSplit(ts, sty);
      FlatSplit(ts, Shunting.SIGNS);
      if t.W? && t.w.op == Or {
        TakeKeyword(t.w, s, prev, '|');
        OrPass(ts[1..], false);
      } else {
        SingleChar(t, sty);
        var c := TokText(t, sty)[0];
        assert TokText(t, sty) == [c];
        CopyChar(c, s, prev, "or", '|');
        OrPass(ts[1..], IsWord(c));
      }
    }
  }

  lemma FinishBits(e: Expr)
    requires AllAtoms(e, Shunting.BitsOnly) && SingleBangs(e)
    ensures Finish(Print(e)) == Ok(Val(e, Shunting.BitVal))
  {
    AtomToks(e, Shunting.BitsOnly);
    AndPass(Toks(e), false);
    OrPass(Toks(e), false);
    Shunting.ShuntingYardCorrect(e);
  }

  // ---------------------------------------------------------- the whole reader

  lemma PrintNonempty(e: Expr)
    requires AllAtoms(e, GoodAtom)
    ensures Print(e) != ""
  {
    ExprEnds(e);
    FlatSplit(Toks(e), PLAIN);
  }

  /** For every printed requirement over good names, every state and all rule functions that
      answer its calls with bools or chains, the reader gives the left-grouping reading of
      the chains as they come to stand in the text, unless two `!` meet there. */
  lemma ReaderSplices(e: Expr, counts: Counts, calls: Calls)
    requires AllAtoms(e, GoodAtom) && SplicesChains(CallsOf(Toks(e)), calls)
    requires SingleBangs(Fill(e, Answers(calls)))
    ensures CheckRequire(Print(e), counts, calls) == Ok(Val(Fill(e, Answers(calls)), PlainVal(counts)))
  {
    hide Finish, ReplaceCalls, ReplaceItems;
    PrintNonempty(e);
    CallPass(e, calls);
    var r := Fill(e, Answers(calls));
    AnswersPlain(calls);
    FillPlain(e, Answers(calls));
    ItemPass(r, counts);
    BitsVal(r, counts);
    FinishBits(Bits(r, counts));
  }

  /** Every call is answered with a bool or a chain, and where that is more than one sealed
      operand the call stands first in its chain, not after `!`. */
  ghost predicate Answered(e: Expr, calls: Calls) {
    SplicesChains(CallsOf(Toks(e)), calls) && Placed(e, Answers(calls))
  }

  /** So placed, answers are read as operands: the reader never raises and gives the reading
      of the tree. */
  lemma ReaderPlaced(e: Expr, counts: Counts, calls: Calls)
    requires AllAtoms(e, GoodAtom) && SingleBangs(e) && Answered(e, calls)
    ensures CheckRequire(Print(e), counts, calls) == Ok(Val(e, Truth(counts, calls)))
  {
    hide CheckRequire, PlainAnswer;
    AnswersPlain(calls);
    FillBangs(e, Answers(calls));
    ReaderSplices(e, counts, calls);
    FillVal(e, Answers(calls), PlainVal(counts));
  }

  /** Rule functions that answer with bools or sealed operands may be called anywhere. */
  lemma ReaderCorrect(e: Expr, counts: Counts, calls: Calls)
    requires AllAtoms(e, GoodAtom) && SingleBangs(e) && SplicesOperands(CallsOf(Toks(e)), calls)
    ensures CheckRequire(Print(e), counts, calls) == Ok(Val(e, Truth(counts, calls)))
  {
    hide CheckRequire, SealedAnswer, PlainAnswer;
    SealedPlaced(e, calls);
    ReaderPlaced(e, counts, calls);
  }

  lemma SealedPlaced(e: Expr, calls: Calls)
    requires SplicesOperands(CallsOf(Toks(e)), calls)
    ensures Answered(e, calls)
  {
    hide SealedAnswer, PlainAnswer;
    forall p | p in CallsOf(Toks(e))
      ensures PlainAnswer(calls(p.0, p.1)) && Firm(Answers(calls)(p.0, p.1))
    {
      SealedIsPlain(calls(p.0, p.1));
      assert Answers(calls)(p.0, p.1) == CallChain(calls(p.0, p.1));
    }
    FirmPlaced(e, Answers(calls));
  }

  // ------------------------------------------------ the functions there are

  /** A call written with a list of arguments. */
  function CallOn(f: string, args: seq<string>): Atom {
    Call(f, Join(",", args))
  }

  /** Arguments a call can be written with. */
  predicate Writable(args: seq<string>) {
    args != [""] && forall a :: a in args ==> ',' !in a && ')' !in a && '{' !in a && '}' !in a
  }

  /** The function is handed that list: its answer is spliced in, and if it raises or is
      missing so does the reader. */
  lemma CallOnArgs(f: string, args: seq<string>, table: RuleTable)
    requires Writable(args)
    ensures var x := Join(",", args);
            && (CallRaises(table, f, x) <==> table(f).None? || table(f).value(args).Raised?)
            && (!CallRaises(table, f, x) ==> RuleCalls(table)(f, x) == table(f).value(args).value)
  {
    ArgsGiven(args);
  }

  /** Over a table of functions none of which fails on the calls of a requirement, the
      reader gives the reading of the tree; one that fails ends it. */
  lemma CheckedReads(e: Expr, counts: Counts, table: RuleTable)
    requires AllAtoms(e, GoodAtom) && SingleBangs(e) && Answered(e, RuleCalls(table))
    ensures Checked(Print(e), counts, table) ==
            if exists c :: c in CallsOf(Toks(e)) && CallRaises(table, c.0, c.1) then Raised
            else Ok(Val(e, Truth(counts, RuleCalls(table))))
  {
    hide CheckRequire, FindCalls, Answered, CallRaises;
    AtomToks(e, GoodAtom);
    FindCallsFlat(Toks(e));
    ReaderPlaced(e, counts, RuleCalls(table));
  }

  // ----------------------------------------------------- items as they may be written

  /** Marks before a name are skipped, name and count are trimmed, and what follows a second
      colon is passed over. */
  lemma ItemWritten(marks: string, name: string, count: string, more: string)
    requires (forall c :: c in marks ==> c == '|' || c == '@' || c == '$')
    requires name != "" && name[0] != '|' && name[0] != '@' && name[0] != '$' && '|' !in name && ':' !in name
    requires '|' !in count && ':' !in count && '|' !in more && (more == "" || more[0] == ':')
    ensures ItemParts("|" + marks + name + "|") == (name, "1")
    ensures ItemParts("|" + marks + (name + ":" + count + more) + "|") == (Strip(name), Strip(count))
  {
    hide Strip, SplitOn;
    assert name[|name| - 1] in name;
    MarksSkipped(marks, name);
    SplitNone(name, ':');
    var body := name + ":" + count + more;
    assert body[0] == name[0] && body[|body| - 1] != '|' by {
      if more != "" {
        assert more[|more| - 1] in more;
      } else if count != "" {
        assert count[|count| - 1] in count;
      }
    }
    MarksSkipped(marks, body);
    var rest := count + more;
    assert body == name + [':'] + rest;
    SplitFirst(name, ':', rest);
    FirstPart(count, more);
  }

  lemma FirstPart(count: string, more: string)
    requires ':' !in count && (more == "" || more[0] == ':')
    ensures SplitOn(count + more, ':')[0] == count
  {
    hide SplitOn;
    if more == "" {
      assert count + more == count;
      SplitNone(count, ':');
    } else {
      assert count + more == count + [':'] + more[1..];
      SplitFirst(count, ':', more[1..]);
    }
  }

  lemma MarksSkipped(marks: string, body: string)
    requires (forall c :: c in marks ==> c == '|' || c == '@' || c == '$')
    requires body != "" && body[0] != '|' && body[0] != '@' && body[0] != '$' && body[|body| - 1] != '|'
    ensures StripMarks("|" + marks + body + "|") == body
  {
    var m := "|" + marks;
    LeftMarks(m, body + "|");
    assert "|" + marks + body + "|" == m + (body + "|");
    assert (body + "|")[0] == body[0];
    StripBarsOne(body);
  }

  lemma {:induction false} LeftMarks(m: string, t: string)
    requires (forall c :: c in m ==> c == '|' || c == '@' || c == '$')
    ensures StripMarksLeft(m + t) == StripMarksLeft(t)
  {
    if m == "" {
      assert m + t == t;
    } else {
      assert (m + t)[0] == m[0] && (m + t)[1..] == m[1..] + t;
      assert m[0] in m && forall c :: c in m[1..] ==> c in m;
      LeftMarks(m[1..], t);
    }
  }

  /** An item whose count is no integer ends the reader, unless it is a category's. */
  lemma BadCountRaises(marks: string, name: string, count: string, s: string, counts: Counts)
    requires (forall c :: c in marks ==> c == '$')
    requires name != "" && name[0] != '|' && name[0] != '@' && name[0] != '$' && '|' !in name && ':' !in name
    requires '|' !in count && ':' !in count && ParseInt(Strip(count)).None?
    ensures ReplaceItem(s, "|" + marks + (name + ":" + count) + "|", counts).Raised?
  {
    hide ItemParts, Strip, ParseInt;
    ItemWritten(marks, name, count, "");
    assert name + ":" + count + "" == name + ":" + count;
  }

  // ------------------------------------------------------------- where a keyword is one

  lemma {:induction false} InWord(w: string, kw: string, sign: char)
    requires kw != "" && forall c :: c in w ==> IsWord(c)
    ensures SubKeyword(w, true, kw, sign) == w
  {
    if w != "" {
      assert w[0] in w && w == [w[0]] + w[1..];
      assert KeywordAt(w, true, kw) == 0;
      InWord(w[1..], kw, sign);
    }
  }

  /** Within a longer word a keyword is none. */
  lemma WordKept(w: string, kw: string, sign: char)
    requires kw != "" && (forall c :: c in w ==> IsWord(c)) && Lower(w) != kw
    ensures SubKeyword(w, false, kw, sign) == w
  {
    if w != "" {
      assert w[0] in w && w == [w[0]] + w[1..];
      assert KeywordAt(w, false, kw) == 0 by {
        if |w| == |kw| {
          assert w[0..|kw|] == w;
        } else if |w| > |kw| {
          assert w[|kw|] in w;
        }
      }
      InWord(w[1..], kw, sign);
    }
  }

  /** Between parentheses it needs no blanks, and its case does not matter. */
  lemma TightKeyword(w: string, s: string, prev: bool, kw: string, sign: char)
    requires kw != "" && Lower(w) == kw && !IsSpace(w[0]) && kw[0] != ')' && IsWord(w[|w| - 1])
    ensures SubKeyword(")" + w + "(" + s, prev, kw, sign) == ")" + [sign] + SubKeyword("(" + s, true, kw, sign)
  {
    hide SubKeyword, Lower;
    var t := w + "(" + s;
    assert ")" + w + "(" + s == [')'] + t;
    CopyChar(')', t, prev, kw, sign);
    TakeTight(w, s, kw, sign);
    assert [')'] + ([sign] + SubKeyword("(" + s, true, kw, sign)) == ")" + [sign] + SubKeyword("(" + s, true, kw, sign);
  }

  lemma TakeTight(w: string, s: string, kw: string, sign: char)
    requires kw != "" && Lower(w) == kw && !IsSpace(w[0]) && IsWord(w[|w| - 1])
    ensures SubKeyword(w + "(" + s, false, kw, sign) == [sign] + SubKeyword("(" + s, true, kw, sign)
  {
    var t := w + "(" + s;
    assert t[0] == w[0] && t[0..|kw|] == w && t[|kw|] == '(' && t[|kw|..] == "(" + s;
    assert KeywordAt(t, false, kw) == |kw|;
  }

  // ---------------------------------------------------------- what is left out

  lemma {:induction false} CategoryAmong(s: string, found: seq<string>, counts: Counts)
    requires forall i :: 0 <= i < |found| ==> found[i] != ""
    requires exists m :: m in found && |m| >= 2 && m[1] == '@'
    ensures ReplaceItems(s, found, counts) == Raised
    decreases |found|
  {
    hide ReplaceItem;
    var m :| m in found && |m| >= 2 && m[1] == '@';
    assert ReplaceItem(s, m, counts) == Raised by {
      CategoryStops(s, m, counts);
    }
    if found[0] != m && ReplaceItem(s, found[0], counts).Ok? {
      assert m in found[1..];
      CategoryAmong(ReplaceItem(s, found[0], counts).value, found[1..], counts);
    }
  }

  lemma CategoryStops(s: string, m: string, counts: Counts)
    requires |m| >= 2 && m[1] == '@'
    ensures ReplaceItem(s, m, counts) == Raised
  {
  }

  /** Nothing is said of a text that asks for a category. */
  lemma CategoryRaises(s: string, counts: Counts, calls: Calls)
    requires FindCalls(s) == [] && exists m :: m in FindItems(s) && |m| >= 2 && m[1] == '@'
    ensures CheckRequire(s, counts, calls) == Raised
  {
    hide FindCalls, FindItems, ReplaceItems;
    assert s != "" by {
      NoItems();
    }
    assert ReplaceCalls(s, [], calls) == s;
    CategoryAmong(s, FindItems(s), counts);
  }

  lemma NoItems()
    ensures FindItems("") == []
  {
  }
}
