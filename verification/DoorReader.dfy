/** `evaluate_interior_requires` and `evaluate_full_requires` of entrance_logic.py:
    one left-to-right pass over items, and calls spliced one at a time. */
module DoorReader {
  import opened Text
  import opened Syntax
  import opened Scanner
  import opened Relabel
  import opened Splice
  import opened RuleReader
  import Shunting

  // ------------------------------------------------------------ the readers

  /** Whether a matched item's body is met; `int` may raise. */
  function BodyMet(body: string, counts: Counts): Result<bool> {
    SegmentsMet(SplitOn(body, ':'), counts)
  }

  function SegmentsMet(segments: seq<string>, counts: Counts): Result<bool>
    requires segments != []
  {
    var name := Strip(segments[0]);
    if |segments| == 1 then Ok(counts(name) >= 1)
    else
      match ParseInt(Strip(segments[1]))
      case None => Raised
      case Some(n) => Ok(counts(name) >= n)
  }

  /** How a matched body is weighed. */
  type Scale = string -> Result<bool>

  function StateScale(counts: Counts): Scale {
    (body: string) => BodyMet(body, counts)
  }

  /** The pass over items: everything between matches is copied. */
  function OnePass(s: string, scale: Scale): Result<string>
    decreases |s|
  {
    if s == "" then Ok("")
    else
      var n := ItemAt(s);
      if n == 0 then Prepend([s[0]], OnePass(s[1..], scale))
      else
        match scale(s[1..n - 1])
        case Raised => Raised
        case Ok(b) => Prepend(BitText(b), OnePass(s[n..], scale))
  }

  function SpaceRun(s: string): (n: nat)
    ensures n <= |s|
  {
    if s != "" && IsSpace(s[0]) then 1 + SpaceRun(s[1..]) else 0
  }

  /** `\s+kw\s+` at the start of `s`, ignoring case: the length of the match, 0 for none. */
  function SpacedAt(s: string, kw: string): (n: nat)
    requires kw != ""
    ensures n <= |s|
  {
    var k := SpaceRun(s);
    var end := k + |kw|;
    if k == 0 || |s| < end || Lower(s[k..end]) != kw then 0
    else
      var j := SpaceRun(s[end..]);
      if j == 0 then 0 else end + j
  }

  function SubSpaced(s: string, kw: string, sign: char): string
    requires kw != ""
    decreases |s|
  {
    if s == "" then ""
    else
      var n := SpacedAt(s, kw);
      if n == 0 then [s[0]] + SubSpaced(s[1..], kw, sign) else [sign] + SubSpaced(s[n..], kw, sign)
  }

  /** `evaluate_interior_requires`: a malformed string counts as true. */
  function EvalInterior(s: string, counts: Counts): Result<bool> {
    if s == "" then Ok(true)
    else
      match OnePass(s, StateScale(counts))
      case Raised => Raised
      case Ok(r) =>
        var t := Strip(SubSpaced(SubSpaced(r, "and", '&'), "or", '|'));
        if t == "" then Ok(true)
        else
          match Shunting.Evaluate(t)
          case Raised => Ok(true)
          case Ok(b) => Ok(b)
  }

  method EvaluateInterior(s: string, counts: Counts) returns (r: Result<bool>)
    ensures r == EvalInterior(s, counts)
  {
    if s == "" {
      return Ok(true);
    }
    var weighed := WeighItems(s, StateScale(counts));
    if weighed.Raised? {
      return Raised;
    }
    var t := Strip(SubSpaced(SubSpaced(weighed.value, "and", '&'), "or", '|'));
    if t == "" {
      return Ok(true);
    }
    var postfix := Shunting.InfixToPostfix(t);
    if postfix.Raised? {
      return Ok(true);
    }
    var value := Shunting.EvaluatePostfix(postfix.value);
    return if value.Raised? then Ok(true) else value;
  }

  /** The loop over matched items, collecting the parts. */
  method WeighItems(s: string, scale: Scale) returns (r: Result<string>)
    ensures r == OnePass(s, scale)
  {
    var parts, rest := "", s;
    PrependTwice("", "", OnePass(s, scale));
    while rest != ""
      invariant OnePass(s, scale) == Prepend(parts, OnePass(rest, scale))
      decreases |rest|
    {
      var n := ItemAt(rest);
      if n == 0 {
        PrependTwice(parts, [rest[0]], OnePass(rest[1..], scale));
        parts, rest := parts + [rest[0]], rest[1..];
      } else {
        var met := scale(rest[1..n - 1]);
        if met.Raised? {
          return Raised;
        }
        PrependTwice(parts, BitText(met.value), OnePass(rest[n..], scale));
        parts, rest := parts + BitText(met.value), rest[n..];
      }
    }
    assert parts + "" == parts;
    return Ok(parts);
  }

  /** Position of the first call, if any. */
  function FirstCall(s: string): (r: Option<(nat, CallMatch)>)
    ensures r.Some? ==> r.value.0 + r.value.1.len <= |s|
    decreases |s|
  {
    if s == "" then None
    else
      match CallAt(s)
      case Some(m) => Some((0, m))
      case None =>
        match FirstCall(s[1..])
        case None => None
        case Some((i, m)) => Some((i + 1, m))
  }

  /** What replaces a call: text goes in parentheses, empty text counts as true. */
  function SpliceText(ans: Answer): string {
    match ans
    case Flag(b) => BitText(b)
    case Spliced(s) => if s == "" then "1" else "(" + s + ")"
  }

  const SPLICE_LIMIT: nat := 16

  /** The first call spliced, if there is one. */
  function SpliceFirst(s: string, calls: Calls): Option<string> {
    match FirstCall(s)
    case None => None
    case Some((i, m)) => Some(s[..i] + SpliceText(calls(m.func, m.args)) + s[i + m.len..])
  }

  type Splicer = string -> Option<string>

  function FirstSplicer(calls: Calls): Splicer {
    (s: string) => SpliceFirst(s, calls)
  }

  /** At most `n` rounds of splicing. */
  function SpliceCalls(s: string, splice: Splicer, n: nat): string
    decreases n
  {
    if n == 0 then s
    else
      match splice(s)
      case None => s
      case Some(t) => SpliceCalls(t, splice, n - 1)
  }

  /** `evaluate_full_requires`. */
  function EvalFull(s: string, counts: Counts, calls: Calls): Result<bool> {
    if s == "" then Ok(true)
    else EvalInterior(SpliceCalls(s, FirstSplicer(calls), SPLICE_LIMIT), counts)
  }

  /** The argument text split at its commas, every part stripped. */
  function CallArgs(x: string): seq<string> {
    if Strip(x) == "" then [] else StripAll(SplitOn(Strip(x), ','))
  }

  /** Arguments without commas come back one by one, stripped. */
  lemma CallArgsGiven(args: seq<string>)
    requires forall a :: a in args ==> ',' !in a
    requires |args| == 1 ==> Strip(args[0]) != ""
    ensures CallArgs(Join(",", args)) == StripAll(args)
  {
    hide SplitOn, Strip;
    if args == [] {
      NoArgument();
    } else if |args| == 1 {
      StripIsTrimmed(args[0]);
      StripKeeps(args[0], ',');
      SplitNone(Strip(args[0]), ',');
    } else {
      CommaIsNoSpace();
      SplitStripped(args, ',');
    }
  }

  lemma NoArgument()
    ensures Strip("") == ""
  {
  }

  lemma CommaIsNoSpace()
    ensures !IsSpace(',')
  {
  }

  /** What a call is taken to answer: an unknown or raising function counts as true. */
  function DoorCalls(table: RuleTable): Calls {
    (f: string, x: string) =>
      match table(f)
      case None => Flag(true)
      case Some(fn) =>
        match fn(CallArgs(x))
        case Raised => Flag(true)
        case Ok(ans) => ans
  }

  method EvaluateFull(s: string, counts: Counts, table: RuleTable) returns (r: Result<bool>)
    ensures r == EvalFull(s, counts, DoorCalls(table))
  {
    if s == "" {
      return Ok(true);
    }
    var expr := SpliceUpTo(s, FirstSplicer(DoorCalls(table)), SPLICE_LIMIT);
    r := EvaluateInterior(expr, counts);
  }

  /** The bounded loop over calls. */
  method SpliceUpTo(s: string, splice: Splicer, limit: nat) returns (expr: string)
    ensures expr == SpliceCalls(s, splice, limit)
  {
    expr := s;
    var n := limit;
    while n > 0
      invariant SpliceCalls(s, splice, limit) == SpliceCalls(expr, splice, n)
      decreases n
    {
      var spliced := splice(expr);
      if spliced.None? {
        break;
      }
      expr, n := spliced.value, n - 1;
    }
  }

  // ------------------------------------------------------- the pass on tokens

  lemma {:induction false} OnePassSkips(t: string, s: string, scale: Scale)
    requires '|' !in t
    ensures OnePass(t + s, scale) == Prepend(t, OnePass(s, scale))
  {
    if t == "" {
      assert t + s == s;
      PrependTwice("", "", OnePass(s, scale));
    } else {
      assert (t + s)[0] == t[0] && (t + s)[1..] == t[1..] + s;
      OnePassSkips(t[1..], s, scale);
      PrependTwice([t[0]], t[1..], OnePass(s, scale));
      assert [t[0]] + t[1..] == t;
    }
  }

  lemma OnePassHit(body: string, s: string, scale: Scale)
    requires '|' !in body && body != "" && scale(body).Ok?
    ensures OnePass("|" + body + "|" + s, scale) ==
            Prepend(BitText(scale(body).value), OnePass(s, scale))
  {
    ItemAtItem(body, s);
  }

  lemma SegmentsOf(n: string, d: string, counts: Counts)
    requires GoodName(n) && AllDigits(d)
    ensures SegmentsMet([n], counts) == Ok(counts(n) >= 1)
    ensures SegmentsMet([n, d], counts) == Ok(counts(n) >= NatValue(d))
  {
    hide ParseInt, Strip;
    TrimmedDigits(d);
    StripTrimmed(d);
    StripTrimmed(n);
    PlainInt(d);
  }

  lemma BodyMetOf(a: Atom, counts: Counts)
    requires GoodAtom(a) && (a.Item? || a.ItemN?)
    ensures BodyMet(Body(a), counts) == Ok(ItemMet(a, counts))
  {
    match a
    case Item(n) =>
      SplitNone(n, ':');
      assert AllDigits("1");
      SegmentsOf(n, "1", counts);
    case ItemN(n, d) =>
      SplitCounted(n, d);
      SegmentsOf(n, d, counts);
  }

  /** One pass over printed tokens weighs every item where it stands. */
  lemma {:induction false} OnePassFlat(ts: seq<Tok>, counts: Counts)
    requires forall t :: t in ts && t.A? ==> IsPlain(t.a)
    ensures OnePass(Flat(ts, PLAIN), StateScale(counts)) == Ok(Flat(RenamedToks(ts, Weigh(counts)), PLAIN))
  {
    hide Flat, PlainVal, StateScale, IsPlain;
    if ts == [] {
      OnePassNothing(counts);
    } else {
      hide OnePass;
      var t := ts[0];
      assert t in ts;
      FlatSplit(ts, PLAIN);
      OnePassFlat(ts[1..], counts);
      var later := RenamedToks(ts[1..], Weigh(counts));
      var head := if t.A? then A(Bit(PlainVal(counts)(t.a))) else t;
      assert RenamedToks(ts, Weigh(counts)) == [head] + later;
      FlatHead(head, later, PLAIN);
      OnePassTok(t, Flat(ts[1..], PLAIN), Flat(later, PLAIN), counts);
    }
  }

  lemma OnePassNothing(counts: Counts)
    ensures OnePass(Flat([], PLAIN), StateScale(counts)) == Ok(Flat([], PLAIN)) && RenamedToks([], Weigh(counts)) == []
  {
  }

  lemma OnePassTok(t: Tok, s: string, later: string, counts: Counts)
    requires (t.A? ==> IsPlain(t.a)) && OnePass(s, StateScale(counts)) == Ok(later)
    ensures OnePass(TokText(t, PLAIN) + s, StateScale(counts)) ==
            Ok(TokText(if t.A? then A(Bit(PlainVal(counts)(t.a))) else t, PLAIN) + later)
  {
    if IsItem(t) {
      BodyChars(t.a);
      BodyMetOf(t.a, counts);
      OnePassHit(Body(t.a), s, StateScale(counts));
    } else {
      QuietToks(t);
      OnePassSkips(TokText(t, PLAIN), s, StateScale(counts));
    }
  }

  // --------------------------------------------------- the connectives, again

  lemma SpacedCopy(c: char, s: string, kw: string, sign: char)
    requires kw != "" && !IsSpace(c)
    ensures SubSpaced([c] + s, kw, sign) == [c] + SubSpaced(s, kw, sign)
  {
    var t := [c] + s;
    assert t[0] == c && t[1..] == s;
  }

  lemma SpacedBlank(s: string, kw: string, sign: char)
    requires kw != "" && (s == "" || (!IsSpace(s[0]) && LowerChar(s[0]) != kw[0]))
    ensures SubSpaced(" " + s, kw, sign) == " " + SubSpaced(s, kw, sign)
  {
    var t := " " + s;
    assert t[0] == ' ' && t[1..] == s;
    assert SpaceRun(t) == 1;
    if |t| >= 1 + |kw| {
      assert Lower(t[1..1 + |kw|])[0] == LowerChar(s[0]);
    }
    assert SpacedAt(t, kw) == 0;
  }

  lemma SpacedTake(word: string, kw: string, s: string, sign: char)
    requires kw != "" && Lower(word) == kw && !IsSpace(word[0]) && (s == "" || !IsSpace(s[0]))
    ensures SubSpaced(" " + word + " " + s, kw, sign) == [sign] + SubSpaced(s, kw, sign)
  {
    var t := " " + word + " " + s;
    var k := |kw|;
    assert t[0] == ' ' && t[1] == word[0];
    assert SpaceRun(t[1..]) == 0 && SpaceRun(t) == 1;
    assert t[1..1 + k] == word;
    var u := t[1 + k..];
    assert u == " " + s && u[1..] == s;
    assert SpaceRun(u) == 1;
    assert t[k + 2..] == s;
    assert SpacedAt(t, kw) == k + 2;
  }

  /** In the and-pass an `or` is copied. */
  lemma SpacedOr(w: Word, s: string)
    requires w.op == Or && (s == "" || (!IsSpace(s[0]) && LowerChar(s[0]) != 'a'))
    ensures SubSpaced(WordText(w) + s, "and", '&') == WordText(w) + SubSpaced(s, "and", '&')
  {
    var o, r := Spelled(w)[0], Spelled(w)[1];
    assert Spelled(w) == [o] + [r];
    SpacedBlank(s, "and", '&');
    SpacedCopy(r, " " + s, "and", '&');
    SpacedCopy(o, [r] + (" " + s), "and", '&');
    SpacedBlank([o] + ([r] + (" " + s)), "and", '&');
    FourText(o, r, s);
    FourText(o, r, SubSpaced(s, "and", '&'));
  }

  predicate NoDoubleWords(ts: seq<Tok>) {
    forall i :: 0 <= i < |ts| - 1 ==> ts[i].W? ==> !ts[i + 1].W?
  }

  lemma NextChar(ts: seq<Tok>, sty: Style)
    requires OnlyBits(ts) && (ts == [] || !ts[0].W?)
    ensures Flat(ts, sty) == "" || Flat(ts, sty)[0] in {'(', ')', '!', '0', '1'}
  {
    if ts != [] {
      assert ts[0] in ts;
      FlatSplit(ts, sty);
    }
  }

  lemma {:induction false} AndPassSpaced(ts: seq<Tok>)
    requires OnlyBits(ts) && NoDoubleWords(ts)
    ensures SubSpaced(Flat(ts, PLAIN), "and", '&') == Flat(ts, Style(true, false))
    decreases |ts|
  {
    if ts != [] {
      var t, s := ts[0], Flat(ts[1..], PLAIN);
      assert t in ts;
      FlatSplit(ts, PLAIN);
      FlatSplit(ts, Style(true, false));
      AndPassSpaced(ts[1..]);
      if t.W? {
        assert ts[1..] != [] ==> ts[1..][0] == ts[1];
        NextChar(ts[1..], PLAIN);
        if t.w.op == And {
          LowerSpelled(t.w);
          SpacedTake(Spelled(t.w), "and", s, '&');
        } else {
          SpacedOr(t.w, s);
        }
      } else {
        SingleChar(t, PLAIN);
        var c := TokText(t, PLAIN)[0];
        assert TokText(t, PLAIN) == [c];
        SpacedCopy(c, s, "and", '&');
      }
    }
  }

  lemma {:induction false} OrPassSpaced(ts: seq<Tok>)
    requires OnlyBits(ts) && NoDoubleWords(ts)
    ensures SubSpaced(Flat(ts, Style(true, false)), "or", '|') == Flat(ts, Shunting.SIGNS)
    decreases |ts|
  {
    if ts != [] {
      var sty := Style(true, false);
      var t, s := ts[0], Flat(ts[1..], sty);
      assert t in ts;
      FlatSplit(ts, sty);
      FlatSplit(ts, Shunting.SIGNS);
      OrPassSpaced(ts[1..]);
      if t.W? && t.w.op == Or {
        assert ts[1..] != [] ==> ts[1..][0] == ts[1];
        NextChar(ts[1..], sty);
        LowerSpelled(t.w);
        SpacedTake(Spelled(t.w), "or", s, '|');
      } else {
        SingleChar(t, sty);
        var c := TokText(t, sty)[0];
        assert TokText(t, sty) == [c];
        SpacedCopy(c, s, "or", '|');
      }
    }
  }

  lemma LastChar(ts: seq<Tok>, sty: Style)
    requires ts != [] && OnlyBits(ts) && !ts[|ts| - 1].W?
    ensures Flat(ts, sty) != "" && !IsSpace(Flat(ts, sty)[|Flat(ts, sty)| - 1])
  {
    var n := |ts| - 1;
    var z := ts[n];
    assert z in ts && ts == ts[..n] + [z];
    FlatAppend(ts[..n], [z], sty);
    FlatHead(z, [], sty);
    assert Flat([z], sty) == TokText(z, sty) + "" == TokText(z, sty);
  }

  lemma SignsTrimmed(e: Expr)
    requires AllAtoms(e, Shunting.BitsOnly)
    ensures Flat(Toks(e), Shunting.SIGNS) != ""
    ensures Strip(Flat(Toks(e), Shunting.SIGNS)) == Flat(Toks(e), Shunting.SIGNS)
  {
    hide Flat, Strip, Toks;
    AtomToks(e, Shunting.BitsOnly);
    ExprEnds(e);
    NextChar(Toks(e), Shunting.SIGNS);
    LastChar(Toks(e), Shunting.SIGNS);
    StripTrimmed(Flat(Toks(e), Shunting.SIGNS));
  }

  /** On every printed requirement without calls the one-pass reader is defined and
      gives the left-grouping reading of the tree. */
  lemma InteriorCorrect(e: Expr, counts: Counts)
    requires AllAtoms(e, IsPlain) && SingleBangs(e)
    ensures EvalInterior(Print(e), counts) == Ok(Val(e, PlainVal(counts)))
  {
    AtomToks(e, IsPlain);
    OnePassFlat(Toks(e), counts);
    RenamedTokens(e, Weigh(counts));
    var b := Bits(e, counts);
    BitsVal(e, counts);
    AtomToks(b, Shunting.BitsOnly);
    SpacedExpr(b);
    AndPassSpaced(Toks(b));
    OrPassSpaced(Toks(b));
    SignsTrimmed(b);
    Shunting.ShuntingYardCorrect(b);
    PlainIsGood(e);
    PrintNonempty(e);
  }

  lemma {:induction false} NoCallsFound(ts: seq<Tok>)
    requires NoCalls(ts)
    ensures CallsOf(ts) == []
  {
    if ts != [] {
      assert ts[0] in ts;
      NoCallsFound(ts[1..]);
    }
  }

  /** Replacing item texts everywhere, item by item, refines the single pass: on every
      printed requirement without calls the two readers answer alike. */
  lemma ReplaceAllRefinesOnePass(e: Expr, counts: Counts, calls: Calls)
    requires AllAtoms(e, IsPlain) && SingleBangs(e)
    ensures CheckRequire(Print(e), counts, calls) == EvalInterior(Print(e), counts)
  {
    InteriorCorrect(e, counts);
    AtomToks(e, IsPlain);
    NoCallsFound(Toks(e));
    PlainIsGood(e);
    ReaderCorrect(e, counts, calls);
    FillNothing(e, Answers(calls));
    FillVal(e, Answers(calls), PlainVal(counts));
  }

  lemma {:induction false} FillNothing(e: Expr, g: Fillings)
    requires AllAtoms(e, IsPlain)
    ensures Fill(e, g) == e && Placed(e, g) && LaterPlaced(e, g)
    decreases e
  {
    match e
    case One(u) => FillUnitNothing(u, g);
    case More(u, _, rest) =>
      FillUnitNothing(u, g);
      FillNothing(rest, g);
  }

  lemma {:induction false} FillUnitNothing(u: Unit, g: Fillings)
    requires UnitAtoms(u, IsPlain)
    ensures FillUnit(u, g) == One(u) && UnitPlaced(u, g, true) && UnitPlaced(u, g, false)
    decreases u
  {
    match u
    case Leaf(_) =>
    case Not(x) => FillUnitNothing(x, g);
    case Paren(e) => FillNothing(e, g);
  }

  // ------------------------------------------------------ splicing the calls

  /** An answer is a bool, nothing, or the text of any chain. */
  ghost predicate ChainAnswer(ans: Answer) {
    ans.Spliced? ==> ans.s == "" || IsChain(ans.s)
  }

  ghost function DoorUnit(ans: Answer): (u: Unit)
    ensures Sealed(u)
  {
    match ans
    case Flag(b) => Leaf(Bit(b))
    case Spliced(s) =>
      if s == "" then Leaf(Bit(true))
      else if IsChain(s) then Paren(ChainOf(s))
      else Leaf(Bit(false))
  }

  ghost function DoorAnswers(calls: Calls): Fillings {
    (f, x) => One(DoorUnit(calls(f, x)))
  }

  lemma DoorText(ans: Answer)
    requires ChainAnswer(ans)
    ensures PrintUnit(DoorUnit(ans)) == SpliceText(ans)
  {
    match ans
    case Flag(b) => BitUnitText(b);
    case Spliced(s) =>
      if s == "" {
        BitUnitText(true);
      } else {
        FlatParen(ChainOf(s), PLAIN);
        Regroup("(", s, ")");
      }
  }

  lemma BitUnitText(b: bool)
    ensures PrintUnit(Leaf(Bit(b))) == BitText(b)
  {
    assert [A(Bit(b))][1..] == [];
    assert Flat([A(Bit(b))], PLAIN) == BitText(b) + "" == BitText(b);
  }

  lemma {:induction false} FirstCallSkips(t: string, s: string)
    requires '{' !in t
    ensures FirstCall(t + s) ==
            match FirstCall(s) case None => None case Some((i, m)) => Some((i + |t|, m))
  {
    if t == "" {
      assert t + s == s;
    } else {
      assert (t + s)[0] == t[0] && (t + s)[1..] == t[1..] + s;
      FirstCallSkips(t[1..], s);
    }
  }

  lemma {:induction false} FirstCallNone(ts: seq<Tok>)
    requires GoodToks(ts) && NoCalls(ts)
    ensures FirstCall(Flat(ts, PLAIN)) == None
  {
    if ts != [] {
      assert ts[0] in ts;
      FlatSplit(ts, PLAIN);
      FirstCallNone(ts[1..]);
      QuietToks(ts[0]);
      FirstCallSkips(TokText(ts[0], PLAIN), Flat(ts[1..], PLAIN));
    }
  }

  lemma {:induction false} QuietFlat(ts: seq<Tok>)
    requires GoodToks(ts) && NoCalls(ts)
    ensures '{' !in Flat(ts, PLAIN)
  {
    if ts != [] {
      assert ts[0] in ts;
      FlatSplit(ts, PLAIN);
      QuietFlat(ts[1..]);
      QuietToks(ts[0]);
    }
  }

  /** The call that is found first is the first call token. */
  lemma FirstCallFlat(pre: seq<Tok>, f: string, x: string, post: seq<Tok>)
    requires GoodToks(pre) && NoCalls(pre) && GoodAtom(Call(f, x))
    ensures var s := Flat(pre, PLAIN) + (CallText(f, x) + Flat(post, PLAIN));
            FirstCall(s) == Some((|Flat(pre, PLAIN)|, CallMatch(f, x, |CallText(f, x)|)))
  {
    var p, q := Flat(pre, PLAIN), Flat(post, PLAIN);
    QuietFlat(pre);
    FirstCallSkips(p, CallText(f, x) + q);
    CallAtCall(f, x, q);
  }

  /** Index of the first call token. */
  function FirstCallTok(ts: seq<Tok>): (i: nat)
    ensures i <= |ts|
    ensures NoCalls(ts[..i])
    ensures i < |ts| ==> IsCall(ts[i])
  {
    if ts == [] || IsCall(ts[0]) then 0
    else
      var j := FirstCallTok(ts[1..]);
      assert ts[..j + 1] == [ts[0]] + ts[1..][..j];
      j + 1
  }

  /** One splice, on text and on tokens. */
  lemma SpliceOne(pre: seq<Tok>, f: string, x: string, post: seq<Tok>, calls: Calls, n: nat)
    requires GoodToks(pre) && NoCalls(pre) && GoodAtom(Call(f, x)) && ChainAnswer(calls(f, x))
    ensures SpliceCalls(Flat(pre + [A(Call(f, x))] + post, PLAIN), FirstSplicer(calls), n + 1) ==
            SpliceCalls(Flat(pre + UnitToks(DoorUnit(calls(f, x))) + post, PLAIN), FirstSplicer(calls), n)
  {
    FlatThree(pre, [A(Call(f, x))], post);
    FlatCall(f, x);
    DoorText(calls(f, x));
    FlatThree(pre, UnitToks(DoorUnit(calls(f, x))), post);
    FirstCallFlat(pre, f, x, post);
    SpliceText1(Flat(pre, PLAIN), f, x, Flat(post, PLAIN), calls, n);
  }

  lemma SpliceText1(p: string, f: string, x: string, q: string, calls: Calls, n: nat)
    requires FirstCall(p + (CallText(f, x) + q)) == Some((|p|, CallMatch(f, x, |CallText(f, x)|)))
    ensures SpliceCalls(p + (CallText(f, x) + q), FirstSplicer(calls), n + 1) ==
            SpliceCalls(p + (SpliceText(calls(f, x)) + q), FirstSplicer(calls), n)
  {
    CutMiddle(p, CallText(f, x), q);
    var t := p + (SpliceText(calls(f, x)) + q);
    assert p + SpliceText(calls(f, x)) + q == t;
    assert FirstSplicer(calls)(p + (CallText(f, x) + q)) == Some(t);
  }

  lemma FlatCall(f: string, x: string)
    ensures Flat([A(Call(f, x))], PLAIN) == CallText(f, x)
  {
    FlatHead(A(Call(f, x)), [], PLAIN);
    assert CallText(f, x) + "" == CallText(f, x);
    assert [A(Call(f, x))] + [] == [A(Call(f, x))];
  }

  lemma FlatThree(a: seq<Tok>, b: seq<Tok>, c: seq<Tok>)
    ensures Flat(a + b + c, PLAIN) == Flat(a, PLAIN) + (Flat(b, PLAIN) + Flat(c, PLAIN))
  {
    assert a + b + c == a + (b + c);
    FlatAppend(a, b + c, PLAIN);
    FlatAppend(b, c, PLAIN);
  }

  lemma CutMiddle(p: string, c: string, q: string)
    ensures (p + (c + q))[..|p|] == p && (p + (c + q))[|p| + |c|..] == q
  {
  }

  ghost predicate ChainAnswers(found: seq<(string, string)>, calls: Calls) {
    forall p :: p in found ==> ChainAnswer(calls(p.0, p.1))
  }

  /** Tokens with a call, split at the first one. */
  lemma SplitAtCall(ts: seq<Tok>) returns (pre: seq<Tok>, f: string, x: string, post: seq<Tok>)
    requires FirstCallTok(ts) < |ts|
    ensures NoCalls(pre) && ts == pre + [A(Call(f, x))] + post
    ensures |CallsOf(ts)| > 0
  {
    hide CallsOf;
    var i := FirstCallTok(ts);
    pre, f, x, post := ts[..i], ts[i].a.func, ts[i].a.args, ts[i + 1..];
    assert ts[i] == A(Call(f, x));
    TokSplit(ts, i);
    CountSplit(pre, f, x, post, []);
  }

  lemma TokSplit(ts: seq<Tok>, i: nat)
    requires i < |ts|
    ensures ts == ts[..i] + [ts[i]] + ts[i + 1..]
  {
  }

  lemma SpliceNothing(ts: seq<Tok>, done: set<(string, string)>, calls: Calls, n: nat)
    requires GoodToks(ts) && FirstCallTok(ts) == |ts|
    ensures SpliceCalls(Flat(ts, PLAIN), FirstSplicer(calls), n) == Flat(Filled(ts, done, DoorAnswers(calls)), PLAIN)
  {
    assert ts[..|ts|] == ts;
    FilledQuiet(ts, done, DoorAnswers(calls));
    FirstCallNone(ts);
  }

  /** What the splicing loop needs of its tokens with `n` rounds left. */
  ghost predicate Spliceable(ts: seq<Tok>, done: set<(string, string)>, calls: Calls, n: nat) {
    GoodToks(ts) && Covers(done, ts) && ChainAnswers(CallsOf(ts), calls) && |CallsOf(ts)| <= n
  }

  /** With at least as many rounds as calls, every call is spliced. */
  lemma {:induction false} SpliceAll(ts: seq<Tok>, done: set<(string, string)>, calls: Calls, n: nat, goal: seq<Tok>)
    requires Spliceable(ts, done, calls, n) && Filled(ts, done, DoorAnswers(calls)) == goal
    ensures SpliceCalls(Flat(ts, PLAIN), FirstSplicer(calls), n) == Flat(goal, PLAIN)
    decreases n
  {
    if FirstCallTok(ts) == |ts| {
      SpliceNothing(ts, done, calls, n);
    } else {
      var after := SpliceNext(ts, done, calls, n);
      SpliceAll(after, done, calls, n - 1, goal);
    }
  }

  lemma SpliceNext(ts: seq<Tok>, done: set<(string, string)>, calls: Calls, n: nat) returns (after: seq<Tok>)
    requires Spliceable(ts, done, calls, n) && FirstCallTok(ts) < |ts|
    ensures n > 0 && Spliceable(after, done, calls, n - 1)
    ensures SpliceCalls(Flat(ts, PLAIN), FirstSplicer(calls), n) ==
            SpliceCalls(Flat(after, PLAIN), FirstSplicer(calls), n - 1)
    ensures Filled(ts, done, DoorAnswers(calls)) == Filled(after, done, DoorAnswers(calls))
  {
    var pre, f, x, post := SplitAtCall(ts);
    after := SpliceStep(ts, pre, f, x, post, done, calls, n);
  }

  lemma SpliceStep(ts: seq<Tok>, pre: seq<Tok>, f: string, x: string, post: seq<Tok>, done: set<(string, string)>,
                   calls: Calls, n: nat) returns (after: seq<Tok>)
    requires n > 0 && Spliceable(ts, done, calls, n)
    requires NoCalls(pre) && ts == pre + [A(Call(f, x))] + post
    ensures Spliceable(after, done, calls, n - 1)
    ensures SpliceCalls(Flat(ts, PLAIN), FirstSplicer(calls), n) ==
            SpliceCalls(Flat(after, PLAIN), FirstSplicer(calls), n - 1)
    ensures Filled(ts, done, DoorAnswers(calls)) == Filled(after, done, DoorAnswers(calls))
  {
    hide Filled, SpliceCalls, Flat;
    after := pre + Toks(DoorAnswers(calls)(f, x)) + post;
    SpliceShape(pre, f, x, post, done, calls, n);
    SpliceOne(pre, f, x, post, calls, n - 1);
    FilledAround(pre, f, x, post, done, DoorAnswers(calls));
  }

  lemma SpliceShape(pre: seq<Tok>, f: string, x: string, post: seq<Tok>, done: set<(string, string)>,
                    calls: Calls, n: nat)
    requires n > 0 && Spliceable(pre + [A(Call(f, x))] + post, done, calls, n) && NoCalls(pre)
    ensures Spliceable(pre + Toks(DoorAnswers(calls)(f, x)) + post, done, calls, n - 1)
    ensures GoodToks(pre) && GoodAtom(Call(f, x)) && ChainAnswer(calls(f, x)) && (f, x) in done
    ensures NoCalls(Toks(DoorAnswers(calls)(f, x)))
  {
    var ts, g := pre + [A(Call(f, x))] + post, DoorAnswers(calls);
    assert A(Call(f, x)) in ts;
    assert forall t :: t in pre ==> t in ts;
    DoorPlain(calls);
    ChainToks(g(f, x));
    CountSplit(pre, f, x, post, Toks(g(f, x)));
    assert (f, x) in CallsOf(ts);
    assert forall p :: p in CallsOf(post) ==> p in CallsOf(ts);
    AfterSplice(pre, f, x, post, done, g);
  }

  lemma AfterSplice(pre: seq<Tok>, f: string, x: string, post: seq<Tok>, done: set<(string, string)>, g: Fillings)
    requires PlainFillings(g)
    requires GoodToks(pre + [A(Call(f, x))] + post) && Covers(done, pre + [A(Call(f, x))] + post)
    ensures GoodToks(pre + Toks(g(f, x)) + post) && Covers(done, pre + Toks(g(f, x)) + post)
  {
    ChainToks(g(f, x));
    var ts, after := pre + [A(Call(f, x))] + post, pre + Toks(g(f, x)) + post;
    forall t | t in after
      ensures GoodTok(t) && (IsCall(t) ==> (t.a.func, t.a.args) in done)
    {
      assert t in pre || t in Toks(g(f, x)) || t in post;
      assert t in pre || t in post ==> t in ts;
    }
  }

  /** Filling before and after the splice gives the same tokens. */
  lemma FilledAround(pre: seq<Tok>, f: string, x: string, post: seq<Tok>, done: set<(string, string)>, g: Fillings)
    requires NoCalls(pre) && NoCalls(Toks(g(f, x))) && (f, x) in done
    ensures Filled(pre + [A(Call(f, x))] + post, done, g) == Filled(pre + Toks(g(f, x)) + post, done, g)
  {
    var u := Toks(g(f, x));
    FilledAppend(pre + u, post, done, g);
    FilledAppend(pre, u, done, g);
    FilledQuiet(u, done, g);
    FilledAppend(pre + [A(Call(f, x))], post, done, g);
    FilledAppend(pre, [A(Call(f, x))], done, g);
    FilledCall(f, x, done, g);
  }

  lemma FilledCall(f: string, x: string, done: set<(string, string)>, g: Fillings)
    requires (f, x) in done
    ensures Filled([A(Call(f, x))], done, g) == Toks(g(f, x))
  {
    assert [A(Call(f, x))][1..] == [] && Filled([], done, g) == [];
  }

  lemma {:induction false} FilledQuiet(ts: seq<Tok>, done: set<(string, string)>, g: Fillings)
    requires NoCalls(ts)
    ensures Filled(ts, done, g) == ts
  {
    hide IsCall;
    if ts != [] {
      assert ts[0] in ts && forall t :: t in ts[1..] ==> t in ts;
      FilledQuiet(ts[1..], done, g);
      assert ts == [ts[0]] + ts[1..];
    }
  }

  lemma CallsOfOne(f: string, x: string)
    ensures CallsOf([A(Call(f, x))]) == [(f, x)]
  {
    assert [A(Call(f, x))][1..] == [] && CallsOf([]) == [];
  }

  /** Calls around tokens `mid` that follow tokens without calls. */
  lemma CallsAround(pre: seq<Tok>, mid: seq<Tok>, post: seq<Tok>)
    requires NoCalls(pre)
    ensures CallsOf(pre + mid + post) == CallsOf(mid) + CallsOf(post)
  {
    NoCallsFound(pre);
    CallsOfAppend(pre + mid, post);
    CallsOfAppend(pre, mid);
    assert [] + CallsOf(mid) == CallsOf(mid);
  }

  lemma CountSplit(pre: seq<Tok>, f: string, x: string, post: seq<Tok>, u: seq<Tok>)
    requires NoCalls(pre) && NoCalls(u)
    ensures CallsOf(pre + [A(Call(f, x))] + post) == [(f, x)] + CallsOf(post)
    ensures CallsOf(pre + u + post) == CallsOf(post)
  {
    CallsOfOne(f, x);
    NoCallsFound(u);
    CallsAround(pre, [A(Call(f, x))], post);
    CallsAround(pre, u, post);
    assert [] + CallsOf(post) == CallsOf(post);
  }

  lemma DoorPlain(calls: Calls)
    ensures PlainFillings(DoorAnswers(calls))
  {
    forall f, x
      ensures PlainChain(DoorAnswers(calls)(f, x))
    {
      assert DoorAnswers(calls)(f, x) == One(DoorUnit(calls(f, x)));
    }
  }

  /** The truth of an atom for the door reader. */
  ghost function DoorTruth(counts: Counts, calls: Calls): Valuation {
    Through(DoorAnswers(calls), PlainVal(counts))
  }

  /** Splicing is compositional: with at most 16 calls, each answered by a bool, by
      nothing or by any chain without calls, the full reader gives the tree's reading with
      every call standing for the truth of its answer. */
  lemma FullCorrect(e: Expr, counts: Counts, calls: Calls)
    requires AllAtoms(e, GoodAtom) && SingleBangs(e)
    requires ChainAnswers(CallsOf(Toks(e)), calls) && |CallsOf(Toks(e))| <= 16
    ensures EvalFull(Print(e), counts, calls) == Ok(Val(e, DoorTruth(counts, calls)))
  {
    var ts, g := Toks(e), DoorAnswers(calls);
    AtomToks(e, GoodAtom);
    CallsCovered(ts);
    SpliceAll(ts, CallSet(CallsOf(ts)), calls, SPLICE_LIMIT, Filled(ts, CallSet(CallsOf(ts)), g));
    FilledExpr(e, CallSet(CallsOf(ts)), g);
    DoorPlain(calls);
    assert forall c :: c in CallsOf(ts) ==> Firm(g(c.0, c.1));
    FirmPlaced(e, g);
    FillPlain(e, g);
    FillBangs(e, g);
    InteriorCorrect(Fill(e, g), counts);
    FillVal(e, g, PlainVal(counts));
    PrintNonempty(e);
  }

  /** A spliced answer counts as what the reader says of its own text. */
  lemma AnswerTruth(f: string, x: string, counts: Counts, calls: Calls)
    requires ChainAnswer(calls(f, x))
    ensures Ok(DoorTruth(counts, calls)(Call(f, x))) ==
            match calls(f, x) case Flag(b) => Ok(b) case Spliced(s) => EvalInterior(s, counts)
  {
    var u := DoorUnit(calls(f, x));
    assert DoorAnswers(calls)(f, x) == One(u);
    assert DoorTruth(counts, calls)(Call(f, x)) == UnitVal(u, PlainVal(counts));
    match calls(f, x)
    case Flag(_) =>
    case Spliced(s) =>
      if s != "" {
        InteriorCorrect(ChainOf(s), counts);
      }
  }

  /** A call of an unknown function, or of one that raises on its arguments. */
  predicate Fails(f: string, x: string, table: RuleTable) {
    table(f).None? || table(f).value(CallArgs(x)).Raised?
  }

  /** The same functions, some of them missing or raising where they did not. */
  ghost predicate Breaks(broken: RuleTable, table: RuleTable) {
    forall f, x :: Fails(f, x, broken) || DoorCalls(broken)(f, x) == DoorCalls(table)(f, x)
  }

  lemma FailedTruth(f: string, x: string, counts: Counts, table: RuleTable)
    requires Fails(f, x, table)
    ensures DoorTruth(counts, DoorCalls(table))(Call(f, x))
  {
    AnswerTruth(f, x, counts, DoorCalls(table));
  }

  /** Without `!`, more true atoms make no requirement false. */
  lemma {:induction false} MoreVal(e: Expr, v: Valuation, q: Valuation)
    requires Bangless(e) && forall a :: v(a) ==> q(a)
    ensures Val(e, v) ==> Val(e, q)
    decreases e, 1
  {
    MoreUnitVal(e.u, v, q);
    if e.More? && Val(e, v) {
      MoreFrom(UnitVal(e.u, v), UnitVal(e.u, q), e.w.op, e.rest, v, q);
    }
  }

  lemma {:induction false} MoreFrom(acc: bool, more: bool, op: Op, e: Expr, v: Valuation, q: Valuation)
    requires Bangless(e) && (acc ==> more) && ValFrom(acc, op, e, v) && forall a :: v(a) ==> q(a)
    ensures ValFrom(more, op, e, q)
    decreases e, 0
  {
    MoreUnitVal(e.u, v, q);
    if e.More? {
      MoreFrom(Apply(op, acc, UnitVal(e.u, v)), Apply(op, more, UnitVal(e.u, q)), e.w.op, e.rest, v, q);
    }
  }

  lemma {:induction false} MoreUnitVal(u: Unit, v: Valuation, q: Valuation)
    requires UnitBangless(u) && forall a :: v(a) ==> q(a)
    ensures UnitVal(u, v) ==> UnitVal(u, q)
    decreases u
  {
    match u
    case Leaf(_) =>
    case Paren(e) => MoreVal(e, v, q);
  }

  lemma MoreTruth(counts: Counts, broken: RuleTable, table: RuleTable)
    requires Breaks(broken, table)
    ensures forall a :: DoorTruth(counts, DoorCalls(table))(a) ==> DoorTruth(counts, DoorCalls(broken))(a)
  {
    hide DoorCalls;
    forall a | DoorTruth(counts, DoorCalls(table))(a)
      ensures DoorTruth(counts, DoorCalls(broken))(a)
    {
      if a.Call? {
        if Fails(a.func, a.args, broken) {
          FailedTruth(a.func, a.args, counts, broken);
        } else {
          SameAnswer(a.func, a.args, counts, DoorCalls(broken), DoorCalls(table));
        }
      }
    }
  }

  lemma SameAnswer(f: string, x: string, counts: Counts, c: Calls, d: Calls)
    requires c(f, x) == d(f, x)
    ensures DoorTruth(counts, c)(Call(f, x)) == DoorTruth(counts, d)(Call(f, x))
  {
    assert DoorAnswers(c)(f, x) == DoorAnswers(d)(f, x);
  }

  lemma BrokenChains(found: seq<(string, string)>, broken: RuleTable, table: RuleTable)
    requires Breaks(broken, table) && ChainAnswers(found, DoorCalls(table))
    ensures ChainAnswers(found, DoorCalls(broken))
  {
    forall p | p in found
      ensures ChainAnswer(DoorCalls(broken)(p.0, p.1))
    {
      if !Fails(p.0, p.1, broken) {
        assert DoorCalls(broken)(p.0, p.1) == DoorCalls(table)(p.0, p.1);
      }
    }
  }

  /** The reader fails open: whichever rule functions go missing or start to raise, a text
      without `!` that let the player through still does. */
  lemma FailsOpen(e: Expr, counts: Counts, broken: RuleTable, table: RuleTable)
    requires AllAtoms(e, GoodAtom) && Bangless(e) && SingleBangs(e) && Breaks(broken, table)
    requires ChainAnswers(CallsOf(Toks(e)), DoorCalls(table)) && |CallsOf(Toks(e))| <= 16
    ensures EvalFull(Print(e), counts, DoorCalls(table)) == Ok(true) ==>
              EvalFull(Print(e), counts, DoorCalls(broken)) == Ok(true)
  {
    hide EvalFull, DoorCalls, Breaks, ChainAnswers, DoorTruth;
    BrokenChains(CallsOf(Toks(e)), broken, table);
    FullCorrect(e, counts, DoorCalls(table));
    FullCorrect(e, counts, DoorCalls(broken));
    MoreTruth(counts, broken, table);
    MoreVal(e, DoorTruth(counts, DoorCalls(table)), DoorTruth(counts, DoorCalls(broken)));
  }

  // ------------------------------------------------------- where the readers part

  /** Two operands joined by a keyword without blanks. */
  function Tight(x: bool, y: bool): string {
    "(" + BitText(x) + ")and(" + BitText(y) + ")"
  }

  /** The rule reader takes the keyword for one. The door reader wants blanks around it, finds
      two operands and nothing between them, and lets the player through. */
  lemma TightAndParts(x: bool, y: bool, counts: Counts, calls: Calls)
    ensures CheckRequire(Tight(x, y), counts, calls) == Ok(x && y)
    ensures EvalInterior(Tight(x, y), counts) == Ok(true)
  {
    hide CheckRequire, EvalInterior;
    TightToRules(x, y, counts, calls);
    TightAtDoor(x, y, counts);
  }

  lemma NothingToReplace(s: string)
    requires '{' !in s && '|' !in s
    ensures FindCalls(s) == [] && FindItems(s) == []
  {
    FindCallsSkips(s, "");
    FindItemsSkips(s, "");
    assert s + "" == s;
  }

  lemma {:induction false} NoKeyword(s: string, prev: bool, kw: string, sign: char)
    requires kw != "" && forall c :: c in s ==> !IsSpace(c) && LowerChar(c) != kw[0]
    ensures SubKeyword(s, prev, kw, sign) == s
  {
    hide SubKeyword;
    if s == "" {
      NoText(prev, kw, sign);
    } else {
      assert s[0] in s && s == [s[0]] + s[1..];
      assert forall c :: c in s[1..] ==> c in s;
      CopyChar(s[0], s[1..], prev, kw, sign);
      NoKeyword(s[1..], IsWord(s[0]), kw, sign);
    }
  }

  lemma NoText(prev: bool, kw: string, sign: char)
    requires kw != ""
    ensures SubKeyword("", prev, kw, sign) == ""
  {
  }

  lemma TightToRules(x: bool, y: bool, counts: Counts, calls: Calls)
    ensures CheckRequire(Tight(x, y), counts, calls) == Ok(x && y)
  {
    hide SubKeyword, FindCalls, FindItems, Shunting.Evaluate;
    var s := Tight(x, y);
    NothingToReplace(s);
    var a, b := BitText(x), BitText(y);
    var u := "(" + a + ")&(" + b + ")";
    TightSigns(a, b);
    assert SubKeyword(u, false, "or", '|') == u by {
      assert forall c :: c in u ==> c == '(' || c == ')' || c == '&' || c == '0' || c == '1';
      NoKeyword(u, false, "or", '|');
    }
    TightTree(x, y);
    assert Finish(s) == Ok(x && y);
    assert ReplaceCalls(s, [], calls) == s && ReplaceItems(s, [], counts) == Ok(s);
  }

  lemma TightSigns(a: string, b: string)
    requires |a| == 1 && |b| == 1 && IsDigit(a[0]) && IsDigit(b[0])
    ensures SubKeyword("(" + a + ")and(" + b + ")", false, "and", '&') == "(" + a + ")&(" + b + ")"
  {
    hide SubKeyword;
    var rest := b + ")";
    var mid := ")" + "and" + "(" + rest;
    assert "(" + a + ")and(" + b + ")" == ['('] + ([a[0]] + mid);
    CopyChar('(', [a[0]] + mid, false, "and", '&');
    CopyChar(a[0], mid, false, "and", '&');
    assert Lower("and") == "and";
    TightKeyword("and", rest, true, "and", '&');
    assert forall c :: c in "(" + rest ==> c == '(' || c == ')' || IsDigit(c);
    NoKeyword("(" + rest, true, "and", '&');
    assert ['('] + ([a[0]] + (")" + "&" + ("(" + rest))) == "(" + a + ")&(" + b + ")";
  }

  lemma TightTree(x: bool, y: bool)
    ensures Shunting.Evaluate("(" + BitText(x) + ")&(" + BitText(y) + ")") == Ok(x && y)
  {
    hide Shunting.Evaluate;
    var l, r := Paren(One(Leaf(Bit(x)))), Paren(One(Leaf(Bit(y))));
    var last := One(r);
    var e := More(l, Word(And, false), last);
    assert AllAtoms(One(Leaf(Bit(x))), Shunting.BitsOnly) && AllAtoms(One(Leaf(Bit(y))), Shunting.BitsOnly);
    assert SingleBangs(One(Leaf(Bit(x)))) && SingleBangs(One(Leaf(Bit(y))));
    assert AllAtoms(last, Shunting.BitsOnly) && SingleBangs(last);
    Shunting.ShuntingYardCorrect(e);
    BitParen(x);
    BitParen(y);
    FlatMore(l, Word(And, false), last, Shunting.SIGNS);
    assert Toks(last) == UnitToks(r);
    assert TokText(W(Word(And, false)), Shunting.SIGNS) == "&";
    TightText(BitText(x), BitText(y));
    assert Val(One(Leaf(Bit(x))), Shunting.BitVal) == x && Val(One(Leaf(Bit(y))), Shunting.BitVal) == y;
    assert Val(e, Shunting.BitVal) == ValFrom(x, And, last, Shunting.BitVal) == (x && y);
  }

  lemma TightText(a: string, b: string)
    ensures "(" + (a + ")") + ("&" + ("(" + (b + ")"))) == "(" + a + ")&(" + b + ")"
  {
  }

  lemma BitParen(b: bool)
    ensures Flat(UnitToks(Paren(One(Leaf(Bit(b))))), Shunting.SIGNS) == "(" + (BitText(b) + ")")
  {
    var e := One(Leaf(Bit(b)));
    FlatParen(e, Shunting.SIGNS);
    assert Toks(e) == UnitToks(Leaf(Bit(b))) == [A(Bit(b))] && [A(Bit(b))][1..] == [];
    assert Flat([A(Bit(b))], Shunting.SIGNS) == BitText(b) + Flat([], Shunting.SIGNS);
    assert BitText(b) + "" == BitText(b);
  }

  /** The keyword stands at `i` with a blank on either side. */
  predicate Bounded(s: string, kw: string, i: nat) {
    && 0 < i && i + |kw| < |s| && Lower(s[i..i + |kw|]) == kw
    && IsSpace(s[i - 1]) && IsSpace(s[i + |kw|])
  }

  /** One blank is not enough. */
  lemma {:induction false} BlanksNeeded(s: string, kw: string, sign: char)
    requires kw != "" && forall i: nat :: !Bounded(s, kw, i)
    ensures SubSpaced(s, kw, sign) == s
  {
    hide SpacedAt, Bounded;
    if s != "" {
      NoneHere(s, kw);
      forall i: nat
        ensures !Bounded(s[1..], kw, i)
      {
        NoneLater(s, kw, i);
      }
      assert s == [s[0]] + s[1..];
      BlanksNeeded(s[1..], kw, sign);
    }
  }

  lemma NoneHere(s: string, kw: string)
    requires kw != "" && !Bounded(s, kw, SpaceRun(s))
    ensures SpacedAt(s, kw) == 0
  {
    hide Lower;
    RunBlank(s);
  }

  lemma NoneLater(s: string, kw: string, i: nat)
    requires s != "" && !Bounded(s, kw, i + 1)
    ensures !Bounded(s[1..], kw, i)
  {
    hide Lower;
    if 0 < i && i + |kw| < |s[1..]| {
      assert s[1..][i..i + |kw|] == s[i + 1..i + 1 + |kw|];
    }
  }

  lemma {:induction false} RunBlank(s: string)
    ensures SpaceRun(s) > 0 ==> IsSpace(s[SpaceRun(s) - 1])
  {
    if s != "" && IsSpace(s[0]) {
      RunBlank(s[1..]);
    }
  }

  lemma TightAtDoor(x: bool, y: bool, counts: Counts)
    ensures EvalInterior(Tight(x, y), counts) == Ok(true)
  {
    hide Shunting.Evaluate, SubSpaced, OnePass;
    var s := Tight(x, y);
    assert forall c :: c in s ==> !IsSpace(c) && c != '|';
    OnePassSkips(s, "", StateScale(counts));
    NoPass(StateScale(counts));
    assert s + "" == s;
    BlanksNeeded(s, "and", '&');
    BlanksNeeded(s, "or", '|');
    StripTrimmed(s);
    NoSign(x, y);
  }

  lemma NoPass(scale: Scale)
    ensures OnePass("", scale) == Ok("")
  {
  }

  lemma NoSign(x: bool, y: bool)
    ensures Shunting.Evaluate(Tight(x, y)) == Raised
  {
    hide Shunting.Evaluate;
    var a, b := BitText(x), BitText(y);
    Shunting.OthersIgnored(Tight(x, y));
    TightSpoken(a, b);
    PairRaises(a, b, "(" + a + ")" + ("(" + b + ")"));
  }

  lemma TightSpoken(a: string, b: string)
    requires (a == "0" || a == "1") && (b == "0" || b == "1")
    ensures Shunting.Spoken("(" + a + ")and(" + b + ")") == "(" + a + ")" + ("(" + b + ")")
  {
    hide Shunting.Spoken;
    var l, r := "(" + a + ")", "(" + b + ")";
    assert "(" + a + ")and(" + b + ")" == l + ("and" + r);
    Shunting.SpokenAppend(l, "and" + r);
    Shunting.SpokenAppend("and", r);
    Shunting.SpokenAll(l);
    Shunting.SpokenAll(r);
    AndSilent();
    assert "" + r == r;
  }

  lemma AndSilent()
    ensures Shunting.Spoken("and") == ""
  {
    assert "and"[1..] == "nd" && "nd"[1..] == "d" && "d"[1..] == "";
  }

  lemma PairRaises(a: string, b: string, s: string)
    requires (a == "0" || a == "1") && (b == "0" || b == "1") && s == "(" + a + ")" + ("(" + b + ")")
    ensures Shunting.Evaluate(s) == Raised
  {
    hide Shunting.Feed, Shunting.Run;
    OneGroup(a, "(" + b + ")", "");
    OneGroup(b, "", a);
    assert ("(" + a + ")") + ("(" + b + ")") == s && ("(" + b + ")") + "" == "(" + b + ")";
    assert "" + a == a;
    Shunting.FeedEmpty(Shunting.State("", a + b));
    TwoLeft(a, b);
    assert (a + b) + "" == a + b;
  }

  lemma OneGroup(a: string, rest: string, out: string)
    requires a == "0" || a == "1"
    ensures Shunting.Feed("(" + a + ")" + rest, Shunting.State("", out)) ==
            Shunting.Feed(rest, Shunting.State("", out + a))
  {
    hide Shunting.Feed;
    var s0, s1 := Shunting.State("", out), Shunting.State("(", out);
    var s2, s3 := Shunting.State("(", out + a), Shunting.State("", out + a);
    assert "(" + a + ")" + rest == ['('] + ([a[0]] + ([')'] + rest));
    assert "(" + "" == "(" && [a[0]] == a;
    Shunting.FeedHead('(', [a[0]] + ([')'] + rest), s0);
    Shunting.FeedHead(a[0], [')'] + rest, s1);
    Shunting.FeedHead(')', rest, s2);
    assert Shunting.Step('(', s0) == Ok(s1) && Shunting.Step(a[0], s1) == Ok(s2);
    assert Shunting.PopToParen(s2) == s2 && "("[1..] == "";
  }

  lemma TwoLeft(a: string, b: string)
    requires (a == "0" || a == "1") && (b == "0" || b == "1")
    ensures Shunting.Run(a + b, []) == Raised
  {
    var p := a + b;
    assert p[0] == a[0] && p[1..] == b && b[1..] == "";
    var v, w := a == "1", b == "1";
    assert [v] + [] == [v];
    assert Shunting.Run(p, []) == Shunting.Run(b, [v]);
    assert Shunting.Run(b, [v]) == Shunting.Run("", [w] + [v]);
  }

  /** An item whose count is no integer is an error here, too. */
  lemma BadCountAtDoor(name: string, count: string, s: string, counts: Counts)
    requires name != "" && '|' !in name && ':' !in name && '|' !in count && ':' !in count
    requires ParseInt(Strip(count)).None?
    ensures EvalInterior("|" + (name + ":" + count) + "|" + s, counts) == Raised
  {
    hide ParseInt, Strip, SplitOn;
    var body := name + ":" + count;
    assert body == name + [':'] + count;
    SplitFirst(name, ':', count);
    SplitNone(count, ':');
    assert BodyMet(body, counts) == Raised;
    ItemAtItem(body, s);
    assert "|" + body + "|" + s != "";
  }
}
