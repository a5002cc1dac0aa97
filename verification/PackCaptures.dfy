/** `OptAll`, `OptOne` and the option calls in the rules and in the tracker. */
module PackCaptures {
  import opened Text
  import opened Syntax
  import opened Scanner
  import opened Splice
  import opened RuleReader
  import opened PackLexer
  import opened PackParser
  import opened PackRules
  import opened PackMeaning
  import opened ReadersAgree
  import opened Terms
  import opened TrackerText
  import opened Dnf
  import opened OptItems
  import opened PackState

  /** A requirement over items that can be an argument: no parentheses. */
  ghost predicate Argument(e: Expr) {
    NeedsOnly(e) && '(' !in Print(e) && ')' !in Print(e)
  }

  lemma {:induction false} NoBraces(ts: seq<Tok>)
    requires GoodToks(ts) && NoCalls(ts) && forall t :: t in ts && t.A? ==> IsNeed(t.a)
    ensures '{' !in Flat(ts, PLAIN) && '}' !in Flat(ts, PLAIN)
  {
    if ts != [] {
      assert ts[0] in ts;
      NoBraces(ts[1..]);
      FlatSplit(ts, PLAIN);
      NoBraceTok(ts[0]);
    }
  }

  lemma NoBraceTok(t: Tok)
    requires t.A? ==> IsNeed(t.a)
    ensures '{' !in TokText(t, PLAIN) && '}' !in TokText(t, PLAIN)
  {
    if t.A? && t.a.ItemN? {
      assert forall c :: c in t.a.digits ==> '0' <= c <= '9';
    }
  }

  /** The call is one that both programs read: the tracker makes it the tree of its
      argument. */
  lemma OptAllTracked(e: Expr)
    requires Argument(e)
    ensures TrackAtom(Call("OptAll", Print(e)))
    ensures var t := AstAtom(Call("OptAll", Print(e)));
            && t.Func? && t.func == "OptAll" && |t.args| == 1
            && ParseRequires(t.args[0]) == Ok(AstOf(e))
  {
    hide ParseRequires, Print, WellCalled, CleanAst, GoodAtom, Tokenize, ArgTexts, ArgTokens, Emit, ExprTokens, AstOf;
    var a := Call("OptAll", Print(e));
    OptAllAtom(e);
    AtomTree(a);
    assert AtomText(a) == "{" + "OptAll" + "(" + Print(e) + ")}";
    OptAllName();
    OptAllKeepsTree("OptAll", e);
    NeedsTracked(e);
    SoundTree(e);
    var arg := Strip(Emit(ExprTokens(e)));
    assert AstAtom(a) == Func("OptAll", [arg]);
    OptAllSound(arg);
  }

  lemma OptAllName()
    ensures PlainWord("OptAll") && WordToken("OptAll") == Ident("OptAll")
    ensures forall c :: c in "OptAll" ==> IsWord(c)
  {
  }

  lemma OptAllAtom(e: Expr)
    requires Argument(e)
    ensures PackAtom(Call("OptAll", Print(e)))
  {
    hide Tokenize, ExprTokens, Flat, IsNeed;
    NeedToks(e);
    AtomToks(e, IsNeed);
    NoBraces(Toks(e));
    NeedTokens(e);
    PrintTokens(e, "");
    assert Print(e) + "" == Print(e);
    EmptyTokens();
    OptAllName();
  }

  lemma EmptyTokens()
    ensures Tokenize("") == Ok([])
  {
  }

  lemma NeedsTracked(e: Expr)
    requires NeedsOnly(e)
    ensures AllAtoms(e, TrackAtom)
  {
    hide GoodName;
    WeakenExpr(e, IsNeed, TrackAtom);
  }

  lemma OptAllSound(arg: string)
    requires ParseRequires(arg).Ok? && WellCalled(ParseRequires(arg).value) && CleanAst(ParseRequires(arg).value)
    ensures WellCalled(Func("OptAll", [arg])) && CleanAst(Func("OptAll", [arg]))
  {
    hide ParseRequires;
  }

  /** The tracker's term for the item says what the state says. */
  function ItemTold(counts: Counts, val: Tracking): Atom -> bool {
    (a: Atom) => IsNeed(a) && (NeedMet(a.item, NeedCount(a), val) <==> counts(a.item) >= NeedCount(a))
  }

  /** With captures in the pool it holds as many as are asked for, without them none. */
  function Stocked(pool: Pool, off: bool): Atom -> bool {
    (a: Atom) =>
      IsNeed(a) && if off then Supply(pool.items, a.item) == 0 else Supply(pool.items, a.item) >= NeedCount(a)
  }

  /** Where the tracker's switch says whether the pool holds captures, its `OptAll` says what
      the rule function's answer comes to in the text. */
  lemma OptAllTold(e: Expr, counts: Counts, pool: Pool, calls: Calls, val: Tracking)
    requires Argument(e) && AndsFirst(e) && calls("OptAll", Print(e)) == OptAll(Print(e), pool)
    requires AllAtoms(e, ItemTold(counts, val)) && AllAtoms(e, Stocked(pool, val(CAPTURES_OFF)))
    ensures TrackerVal(AstAtom(Call("OptAll", Print(e))), val) <==>
            Truth(counts, calls)(Call("OptAll", Print(e)))
  {
    hide Print, Truth, OptAll, TrackerVal, WellCalled, CleanAst, ParseRequires, AstAtom, AstOf, Enough;
    OptAllTracked(e);
    OptAllShown(AstAtom(Call("OptAll", Print(e))), val);
    BanglessIsSingle(e);
    OptAllReads(e, counts, pool, calls);
    NeedTokens(e);
    TreeTruth(AstOf(e), val);
    TreeMeaning(e, HasIn(val), Helpers(val));
    TreesAgree(e, Enough(counts, pool));
    if val(CAPTURES_OFF) {
      NothingAsked(e, counts, pool);
    } else {
      BothAtoms(e, ItemTold(counts, val), Stocked(pool, false));
      AskedAlike(e, counts, pool, val);
    }
  }

  lemma OptAllShown(t: Ast, val: Tracking)
    requires t.Func? && t.func == "OptAll" && |t.args| == 1 && ParseRequires(t.args[0]).Ok?
    ensures TrackerVal(t, val) <==> val(CAPTURES_OFF) || TrackerVal(ParseRequires(t.args[0]).value, val)
  {
    hide ParseRequires;
  }

  lemma {:induction false} AllMet(e: Expr, p: Atom -> bool, v: Valuation)
    requires AllAtoms(e, p) && Bangless(e) && forall a :: p(a) ==> v(a)
    ensures Val(e, v) && forall op :: ValFrom(true, op, e, v)
    decreases e
  {
    UnitMet(e.u, p, v);
    if e.More? {
      AllMet(e.rest, p, v);
    }
  }

  lemma {:induction false} UnitMet(u: Unit, p: Atom -> bool, v: Valuation)
    requires UnitAtoms(u, p) && UnitBangless(u) && forall a :: p(a) ==> v(a)
    ensures UnitVal(u, v)
    decreases u
  {
    match u
    case Leaf(_) =>
    case Paren(e) => AllMet(e, p, v);
  }

  /** Of what the pool does not hold nothing is asked. */
  lemma NothingAsked(e: Expr, counts: Counts, pool: Pool)
    requires AllAtoms(e, Stocked(pool, true)) && Bangless(e)
    ensures Val(e, Enough(counts, pool))
  {
    AllMet(e, Stocked(pool, true), Enough(counts, pool));
  }

  lemma AskedAlike(e: Expr, counts: Counts, pool: Pool, val: Tracking)
    requires AllAtoms(e, BothOf(ItemTold(counts, val), Stocked(pool, false))) && Bangless(e)
    ensures PrecVal(e, TrackTruth(val)) == PrecVal(e, Enough(counts, pool))
  {
    hide NeedMet;
    var p := BothOf(ItemTold(counts, val), Stocked(pool, false));
    forall a | p(a)
      ensures TrackTruth(val)(a) == Enough(counts, pool)(a)
    {
      NeedTree(a);
      assert TrackTruth(val)(a) == AstVal(Need(a.item, NeedCount(a)), HasIn(val), Helpers(val));
    }
    SameVal(e, p, TrackTruth(val), Enough(counts, pool));
  }

  lemma NeedTree(a: Atom)
    requires IsNeed(a)
    ensures AstAtom(a) == Need(a.item, NeedCount(a))
  {
  }

  /** `|x| AND ({OptAll(y)} OR ..)`, as the capture locations write it. */
  function CaptureRule(x: string, y: string, rest: Expr): Expr {
    More(Leaf(Item(x)), Word(And, true), One(Paren(More(Leaf(Call("OptAll", y)), Word(Or, true), rest))))
  }

  /** There `OptAll` stands where its answer is read as one operand, whatever the other
      functions splice, as long as that is sealed. */
  lemma CaptureTracked(x: string, e: Expr, rest: Expr, p: Shape, pool: Pool, calls: Calls)
    requires Argument(e) && calls("OptAll", Print(e)) == OptAll(Print(e), pool)
    requires AllAtoms(CaptureRule(x, Print(e), rest), p.atoms)
    requires Bangless(rest) && AndsFirst(rest) && OrsOnly(rest) && SplicesOperands(CallsOf(Toks(rest)), calls)
    ensures TrackText(Print(CaptureRule(x, Print(e), rest)), p, calls)
  {
    hide Print, OptAll, Answers, SealedAnswer, PlainAnswer, CaptureRule;
    var all := CaptureRule(x, Print(e), rest);
    BanglessIsSingle(e);
    OptAllReads(e, (n: string) => 0, pool, calls);
    SealedPlaced(rest, calls);
    CaptureCalls(x, Print(e), rest);
    forall c | c in CallsOf(Toks(all))
      ensures PlainAnswer(calls(c.0, c.1))
    {
      assert c == ("OptAll", Print(e)) || c in CallsOf(Toks(rest));
    }
    LaterFirm(rest, calls);
    CapturePlaced(x, Print(e), rest, Answers(calls));
    CaptureShape(x, Print(e), rest);
    assert TidyTree(all, p) && Answered(all, calls);
  }

  lemma CapturePlaced(x: string, y: string, rest: Expr, g: Fillings)
    requires LaterPlaced(rest, g)
    ensures Placed(CaptureRule(x, y, rest), g)
  {
    var inner := More(Leaf(Call("OptAll", y)), Word(Or, true), rest);
    assert Placed(inner, g);
    assert UnitPlaced(Paren(inner), g, false);
    assert LaterPlaced(One(Paren(inner)), g);
    assert UnitPlaced(Leaf(Item(x)), g, true);
  }

  lemma CaptureShape(x: string, y: string, rest: Expr)
    requires Bangless(rest) && AndsFirst(rest) && OrsOnly(rest)
    ensures Bangless(CaptureRule(x, y, rest)) && AndsFirst(CaptureRule(x, y, rest))
  {
    var inner := More(Leaf(Call("OptAll", y)), Word(Or, true), rest);
    assert Bangless(inner) && AndsFirst(inner);
    assert UnitBangless(Paren(inner)) && UnitAndsFirst(Paren(inner));
    assert Bangless(One(Paren(inner))) && AndsFirst(One(Paren(inner)));
  }

  lemma LaterFirm(e: Expr, calls: Calls)
    requires SplicesOperands(CallsOf(Toks(e)), calls)
    ensures LaterPlaced(e, Answers(calls))
  {
    hide SealedAnswer;
    forall p | p in CallsOf(Toks(e))
      ensures Firm(Answers(calls)(p.0, p.1))
    {
      assert SealedAnswer(calls(p.0, p.1));
      assert Answers(calls)(p.0, p.1) == CallChain(calls(p.0, p.1));
    }
    FirmPlaced(e, Answers(calls));
  }

  lemma CaptureCalls(x: string, y: string, rest: Expr)
    ensures CallsOf(Toks(CaptureRule(x, y, rest))) == [("OptAll", y)] + CallsOf(Toks(rest))
  {
    hide Toks;
    var inner := More(Leaf(Call("OptAll", y)), Word(Or, true), rest);
    var pre, mid := [A(Item(x)), W(Word(And, true)), LP], [A(Call("OptAll", y)), W(Word(Or, true))];
    CaptureToks(x, y, rest);
    CallsOfAppend(pre + mid + Toks(rest), [RP]);
    CallsOfAppend(pre + mid, Toks(rest));
    CallsOfAppend(pre, mid);
    FewCalls(x, y);
  }

  lemma CaptureToks(x: string, y: string, rest: Expr)
    ensures Toks(CaptureRule(x, y, rest)) ==
            [A(Item(x)), W(Word(And, true)), LP] + [A(Call("OptAll", y)), W(Word(Or, true))] + Toks(rest) + [RP]
  {
    var inner := More(Leaf(Call("OptAll", y)), Word(Or, true), rest);
    assert Toks(inner) == [A(Call("OptAll", y)), W(Word(Or, true))] + Toks(rest);
    assert Toks(One(Paren(inner))) == [LP] + Toks(inner) + [RP];
  }

  lemma FewCalls(x: string, y: string)
    ensures CallsOf([A(Item(x)), W(Word(And, true)), LP]) == [] && CallsOf([RP]) == []
    ensures CallsOf([A(Call("OptAll", y)), W(Word(Or, true))]) == [("OptAll", y)]
  {
    var pre, mid := [A(Item(x)), W(Word(And, true)), LP], [A(Call("OptAll", y)), W(Word(Or, true))];
    assert pre[1..] == [W(Word(And, true)), LP] && pre[1..][1..] == [LP] && [LP][1..] == [];
    assert mid[1..] == [W(Word(Or, true))] && mid[1..][1..] == [] && [RP][1..] == [];
    assert CallsOf(mid[1..]) == [] && CallsOf([LP]) == [];
  }

  // ---------------------------------------------------------------- one capture

  /** An item's name as an argument: the reader's marks do not start it. */
  predicate NameArg(n: string) {
    GoodName(n) && (|n| > 1 ==> n[1] != '@')
  }

  /** `OptOne` on a bare name answers with that item, asked for once if the pool has it. */
  lemma OptOneName(n: string, pool: Pool)
    requires NameArg(n)
    ensures OptOne(n, pool) == AtomText(ItemN(n, NatText(Clamp(1, Supply(pool.items, n)))))
  {
    hide NatText, SplitOn;
    assert n[|n| - 1] in n && n[0] in n;
    assert StripMarksLeft(n) == n && StripBars(n) == n;
    PlainSplit(n);
    OneCount();
    AskedAs(n, NatText(Clamp(1, Supply(pool.items, n))));
  }

  lemma AskedAs(n: string, d: string)
    ensures "|" + n + ":" + d + "|" == AtomText(ItemN(n, d))
  {
  }

  /** So both programs say the same of `{OptOne(name)}` where the tracker's switch says
      whether the pool holds captures. */
  lemma OptOneTold(n: string, counts: Counts, pool: Pool, calls: Calls, val: Tracking)
    requires NameArg(n) && CodeFor(n) != "" && ArgTexts(ArgTokens(n), [], "") == [n]
    requires calls("OptOne", n) == Spliced(OptOne(n, pool))
    requires ItemTold(counts, val)(Item(n)) && Stocked(pool, val(CAPTURES_OFF))(Item(n))
    ensures PlainAnswer(calls("OptOne", n))
    ensures TrackerVal(AstAtom(Call("OptOne", n)), val) <==> Truth(counts, calls)(Call("OptOne", n))
  {
    hide CodeFor, ArgTexts, ArgTokens, OptOne, Truth, PlainAnswer, NatText;
    var cut := ItemN(n, NatText(Clamp(1, Supply(pool.items, n))));
    OptOneName(n, pool);
    assert IsPlain(cut) && UnitAtoms(Leaf(cut), IsPlain) && UnitSingleBangs(Leaf(cut));
    assert PlainChain(One(Leaf(cut)));
    LeafText(cut);
    PrintOne(Leaf(cut));
    ChainTruth("OptOne", n, One(Leaf(cut)), counts, calls);
    assert PlainVal(counts)(cut) == ItemMet(cut, counts);
    OptOneShown(n, val);
  }

  lemma OptOneShown(n: string, val: Tracking)
    ensures TrackerVal(Func("OptOne", [n]), val) <==> val(CAPTURES_OFF) || val(CodeFor(n))
  {
    hide CodeFor;
  }

  // -------------------------------------------------------------------- options

  /** The option calls go by the options of the slot, and whether captures are in by the one
      named so. */
  lemma YamlShown(opt: string, shelf: Shelf, lua: LuaFns)
    requires '|' !in opt
    ensures TrackerVal(Func("YamlEnabled", [opt]), PackState.Says(shelf, lua)) <==> Strip(opt) in shelf.settings.on
    ensures TrackerVal(Func("YamlDisabled", [opt]), PackState.Says(shelf, lua)) <==> Strip(opt) !in shelf.settings.on
    ensures PackState.Says(shelf, lua)(CAPTURES_OFF) <==> "capturesanity" !in shelf.settings.on
  {
    hide Strip, PackState.Says;
    StripKeeps(opt, '|');
    OptionShown(Strip(opt), shelf, lua);
    CapturesShown(shelf, lua);
    YamlTerms(opt, PackState.Says(shelf, lua));
  }

  lemma YamlTerms(opt: string, val: Tracking)
    ensures TrackerVal(Func("YamlEnabled", [opt]), val) <==> val("$is_opt|" + Strip(opt))
    ensures TrackerVal(Func("YamlDisabled", [opt]), val) <==> val("$is_opt_off|" + Strip(opt))
  {
    hide Strip;
  }

  // --------------------------------------------------------------- other helpers

  /** A call of a helper asks the function named by its words, with its arguments. */
  lemma HelperAsked(words: seq<string>, args: seq<string>, shelf: Shelf, lua: LuaFns)
    requires words != [] && (forall w :: w in words ==> Capitalised(w)) && Join("", words) !in WRAPPERS
    requires Join("_", Lowered(words)) !in LOOKUPS && '|' !in Join("_", Lowered(words))
    requires args != [] && forall x :: x in args ==> '|' !in x
    ensures TrackerVal(Func(Join("", words), args), PackState.Says(shelf, lua)) <==>
            lua(Join("_", Lowered(words)), StripAll(args))
  {
    hide SplitOn, LuaCall, SnakeCase, Lowered, Join, StripAll;
    var f, xs := Join("_", Lowered(words)), StripAll(args);
    SnakeWords(words);
    HelperMet(Join("", words), args, PackState.Says(shelf, lua));
    forall x | x in xs
      ensures '|' !in x
    {
      StrippedArg(args, x);
    }
    ManyArgs(f, xs);
    OtherLua(f, xs, shelf, lua);
  }

  lemma StrippedArg(args: seq<string>, x: string)
    requires (forall y :: y in args ==> '|' !in y) && x in StripAll(args)
    ensures '|' !in x
  {
    hide Strip;
    var i :| 0 <= i < |args| && x == Strip(args[i]);
    StripKeeps(args[i], '|');
  }

  lemma HelperMet(f: string, args: seq<string>, val: Tracking)
    requires f !in WRAPPERS && args != []
    ensures TrackerVal(Func(f, args), val) <==> val("$" + SnakeCase(f) + "|" + Join("|", StripAll(args)))
  {
    hide SnakeCase, Join, StripAll;
    assert "$" + SnakeCase(f) + ("|" + Join("|", StripAll(args))) ==
           "$" + SnakeCase(f) + "|" + Join("|", StripAll(args));
  }

  /** Asking for a value of items shows nothing, whatever has been received. */
  lemma ValueCallNever(spec: string, shelf: Shelf, lua: LuaFns)
    requires '|' !in spec
    ensures !TrackerVal(Func("ItemValue", [spec]), PackState.Says(shelf, lua))
  {
    hide Strip, PackState.Says;
    StripKeeps(spec, '|');
    ValueNever(Strip(spec), shelf, lua);
    ValueTerm(spec, PackState.Says(shelf, lua));
  }

  lemma ValueTerm(spec: string, val: Tracking)
    ensures TrackerVal(Func("ItemValue", [spec]), val) <==> val("$item_value|" + Strip(spec))
  {
    hide Strip;
  }
}
