/** Requirement text that the tracker and the logic read alike, from characters to clauses. */
module TrackerText {
  import opened Text
  import opened Syntax
  import opened PackLexer
  import opened PackParser
  import opened PackMeaning
  import opened ReadersAgree
  import opened RuleReader
  import opened Terms
  import opened Dnf
  import opened PackRules

  /** An atom the tracker can translate: a call has the arguments its conversion wants, and
      no comma gets into a term. */
  predicate TrackAtom(a: Atom) {
    PackAtom(a) && WellCalled(AstAtom(a)) && CleanAst(AstAtom(a))
  }

  /** Requirement text of shape `p` without `!` whose chains have their `and`s first and in
      which the rule functions' answers are read as operands. */
  ghost predicate TrackText(s: string, p: Shape, calls: Calls) {
    s == "" || exists e :: TidyTree(e, p) && Answered(e, calls) && Print(e) == s
  }

  /** A call without arguments by a nine-letter name. */
  lemma PlainCallTracked(f: string)
    requires |f| == 9 && forall c :: c in f ==> 'A' <= c <= 'Z' || 'a' <= c <= 'z'
    ensures TrackAtom(Call(f, ""))
  {
    hide Tokenize, ArgTexts, WordToken, WellCalled, CleanAst;
    NineLetters(f);
    NoArgs();
    assert AstAtom(Call(f, "")) == Func(f, []);
    LoneFunc(f);
  }

  lemma NineLetters(f: string)
    requires |f| == 9
    ensures WordToken(f) == Ident(f)
  {
  }

  lemma NoArgs()
    ensures Tokenize("") == Ok([]) && ArgTexts([], [], "") == []
  {
    assert Strip("") == "";
  }

  lemma LoneFunc(f: string)
    requires |f| == 9 && NoComma(f)
    ensures WellCalled(Func(f, [])) && CleanAst(Func(f, []))
  {
    hide CodeFor, ParseRequires;
  }

  /** The calls that the conversion treats in a way of their own. */
  const WRAPPERS := ["OptOne", "OptAll", "YamlDisabled", "YamlEnabled", "KingdomMoons", "ItemValue"]

  /** A name that the tokenizer takes for a name. */
  predicate CallName(f: string) {
    f != "" && (forall c :: c in f ==> IsWord(c)) && WordToken(f) == Ident(f)
  }

  /** Text that is one call without arguments becomes one term: the helper named by the
      words of the call's name. */
  lemma HelperClauses(words: seq<string>)
    requires words != [] && forall w :: w in words ==> Capitalised(w)
    requires CallName(Join("", words)) && Join("", words) !in WRAPPERS
    ensures RequiresDnf("{" + Join("", words) + "()}") == Ok([["$" + Join("_", Lowered(words))]])
  {
    hide Tokenize, ArgTexts, WordToken, ParseRequires, SnakeCase, Lowered, Join;
    var f := Join("", words);
    SnakeWords(words);
    NoArgs();
    assert GoodAtom(Call(f, ""));
    AtomTree(Call(f, ""));
    CallWritten(f);
    assert AstAtom(Call(f, "")) == Func(f, []);
    HelperTerm(f);
  }

  lemma CallWritten(f: string)
    ensures AtomText(Call(f, "")) == "{" + f + "()}"
  {
  }

  lemma HelperTerm(f: string)
    requires f !in WRAPPERS
    ensures ToDnf(Func(f, [])) == Ok([["$" + SnakeCase(f)]])
  {
    hide SnakeCase;
  }

  lemma TwoWords(a: string, b: string)
    ensures Join("", [a, b]) == a + b && Join("_", Lowered([a, b])) == Lower(a) + "_" + Lower(b)
  {
    hide Lower;
    assert [a, b][1..] == [b] && Lowered([a, b]) == [Lower(a), Lower(b)];
    assert [Lower(a), Lower(b)][1..] == [Lower(b)];
  }

  lemma SandPeaceWords()
    ensures Capitalised("Sand") && Capitalised("Peace")
    ensures Lower("Sand") == "sand" && Lower("Peace") == "peace"
  {
  }

  lemma SandPeaceName()
    ensures "Sand" + "Peace" == "SandPeace" && "sand" + "_" + "peace" == "sand_peace"
    ensures CallName("SandPeace") && "SandPeace" !in WRAPPERS
  {
    hide WordToken;
    NineLetters("SandPeace");
    assert |"SandPeace"| == 9 && |"OptOne"| == 6 && |"OptAll"| == 6 && |"YamlDisabled"| == 12;
    assert |"YamlEnabled"| == 11 && |"KingdomMoons"| == 12 && "ItemValue"[0] == 'I';
    assert forall c :: c in "SandPeace" ==> 'A' <= c <= 'Z' || 'a' <= c <= 'z';
  }

  /** The peace of Sand is asked of `sand_peace`. */
  lemma SandPeaceTerm()
    ensures RequiresDnf("{SandPeace()}") == Ok([["$sand_peace"]])
  {
    hide RequiresDnf, CallName, Capitalised, Lower, Lowered, Join;
    SandPeaceWords();
    SandPeaceName();
    TwoWords("Sand", "Peace");
    HelperClauses(["Sand", "Peace"]);
    assert "{" + "SandPeace" + "()}" == "{SandPeace()}" && "$" + "sand_peace" == "$sand_peace";
  }

  const TRACK_TERM := Shape(TrackAtom, true)

  lemma TrackShapes()
    ensures Stronger(TRACK_TERM) && Within(PLAIN_TERM, TRACK_TERM) && Within(TRACK_TERM, PACK_TERM)
  {
  }

  lemma JoinTracks(s: string, p: Shape, calls: Calls)
    requires IsReq(s, p) && p.tidy && Disciplined(calls, p)
    ensures TrackText(s, p, calls)
  {
    hide Answered, Print;
    if s != "" {
      var u := TermOf(s, p);
      CallsSealed(One(u), p, calls);
      PrintOne(u);
      assert TidyTree(One(u), p) && Print(One(u)) == s;
    }
  }

  // ------------------------------------------------- the tree can be translated

  predicate AllSound(cs: seq<Ast>) {
    forall i :: 0 <= i < |cs| ==> WellCalled(cs[i]) && CleanAst(cs[i])
  }

  lemma SoundHead(a: Ast, cs: seq<Ast>)
    requires WellCalled(a) && CleanAst(a) && AllSound(cs)
    ensures AllSound([a] + cs)
  {
    hide WellCalled, CleanAst;
    var all := [a] + cs;
    assert forall i :: 0 <= i < |all| ==> all[i] == if i == 0 then a else cs[i - 1];
  }

  lemma SoundGroup(cs: seq<Ast>)
    requires cs != [] && AllSound(cs)
    ensures WellCalled(AndOf(cs)) && CleanAst(AndOf(cs)) && WellCalled(OrOf(cs)) && CleanAst(OrOf(cs))
  {
  }

  lemma {:induction false} SoundRun(e: Expr)
    requires AllAtoms(e, TrackAtom) && Bangless(e)
    ensures AllSound(FirstRun(e))
    decreases e, 0
  {
    hide WellCalled, CleanAst;
    SoundUnit(e.u);
    if e.More? && e.w.op == And {
      SoundRun(e.rest);
      SoundHead(AstUnit(e.u), FirstRun(e.rest));
    } else {
      SoundHead(AstUnit(e.u), []);
      assert [AstUnit(e.u)] + [] == [AstUnit(e.u)];
    }
  }

  lemma {:induction false} LaterTracks(e: Expr)
    requires AllAtoms(e, TrackAtom) && Bangless(e)
    ensures Later(e).Some? ==> AllAtoms(Later(e).value, TrackAtom) && Bangless(Later(e).value)
  {
    if e.More? && e.w.op == And {
      LaterTracks(e.rest);
    }
  }

  lemma {:induction false} SoundRuns(e: Expr)
    requires AllAtoms(e, TrackAtom) && Bangless(e)
    ensures AllSound(AstRuns(e))
    decreases e, 1
  {
    hide WellCalled, CleanAst, FirstRun, AndOf;
    var head := AndOf(FirstRun(e));
    SoundRun(e);
    SoundGroup(FirstRun(e));
    LaterTracks(e);
    if Later(e).Some? {
      SoundRuns(Later(e).value);
      SoundHead(head, AstRuns(Later(e).value));
    } else {
      SoundHead(head, []);
      assert [head] + [] == [head];
    }
  }

  lemma {:induction false} SoundUnit(u: Unit)
    requires UnitAtoms(u, TrackAtom) && UnitBangless(u)
    ensures WellCalled(AstUnit(u)) && CleanAst(AstUnit(u))
    decreases u
  {
    hide WellCalled, CleanAst, OrOf;
    match u
    case Leaf(_) =>
    case Paren(e) =>
      SoundRuns(e);
      SoundGroup(AstRuns(e));
  }

  lemma SoundTree(e: Expr)
    requires AllAtoms(e, TrackAtom) && Bangless(e)
    ensures WellCalled(AstOf(e)) && CleanAst(AstOf(e))
  {
    hide WellCalled, CleanAst;
    SoundRuns(e);
    SoundGroup(AstRuns(e));
  }

  // ------------------------------------------------------ the items in the tree

  /** A judgement on a name and the count asked of it. */
  type Judge = (string, nat) -> bool

  predicate AllNeeds(a: Ast, q: Judge) {
    match a
    case Need(n, k) => q(n, k)
    case AllOf(cs) => forall i :: 0 <= i < |cs| ==> AllNeeds(cs[i], q)
    case AnyOf(cs) => forall i :: 0 <= i < |cs| ==> AllNeeds(cs[i], q)
    case _ => true
  }

  /** Every item the tracker finds in the text, with its count, passes. */
  predicate TextNeeds(s: string, q: Judge) {
    match ParseRequires(s)
    case Raised => true
    case Ok(a) => AllNeeds(a, q)
  }

  predicate EachNeeds(cs: seq<Ast>, q: Judge) {
    forall i :: 0 <= i < |cs| ==> AllNeeds(cs[i], q)
  }

  function NeedLeaf(q: Judge): Atom -> bool {
    (a: Atom) => AllNeeds(AstAtom(a), q)
  }

  lemma GroupNeeds(cs: seq<Ast>, q: Judge)
    requires cs != []
    ensures AllNeeds(AndOf(cs), q) == EachNeeds(cs, q) == AllNeeds(OrOf(cs), q)
  {
  }

  lemma EachNeedsHead(a: Ast, cs: seq<Ast>, q: Judge)
    ensures EachNeeds([a] + cs, q) == (AllNeeds(a, q) && EachNeeds(cs, q))
  {
    hide AllNeeds;
    var all := [a] + cs;
    assert all[0] == a && |all| == |cs| + 1;
    if EachNeeds(all, q) {
      forall i | 0 <= i < |cs|
        ensures AllNeeds(cs[i], q)
      {
        assert all[i + 1] == cs[i];
      }
    }
  }

  lemma {:induction false} LeavesPass(e: Expr, q: Judge)
    requires Bangless(e) && EachNeeds(AstRuns(e), q)
    ensures AllAtoms(e, NeedLeaf(q))
    decreases e, 1
  {
    hide AllNeeds, FirstRun, AndOf;
    EachNeedsHead(AndOf(FirstRun(e)), LaterRuns(Later(e)), q);
    assert AstRuns(e) == [AndOf(FirstRun(e))] + LaterRuns(Later(e));
    GroupNeeds(FirstRun(e), q);
    RunPasses(e, q);
  }

  lemma {:induction false} RunPasses(e: Expr, q: Judge)
    requires Bangless(e) && EachNeeds(FirstRun(e), q) && EachNeeds(LaterRuns(Later(e)), q)
    ensures AllAtoms(e, NeedLeaf(q))
    decreases e, 0
  {
    hide AllNeeds;
    match e
    case One(u) =>
      EachNeedsHead(AstUnit(u), [], q);
      assert [AstUnit(u)] + [] == [AstUnit(u)];
      UnitPasses(u, q);
    case More(u, w, rest) =>
      if w.op == And {
        EachNeedsHead(AstUnit(u), FirstRun(rest), q);
        RunPasses(rest, q);
      } else {
        EachNeedsHead(AstUnit(u), [], q);
        assert [AstUnit(u)] + [] == [AstUnit(u)];
        LeavesPass(rest, q);
      }
      UnitPasses(u, q);
  }

  lemma {:induction false} UnitPasses(u: Unit, q: Judge)
    requires UnitBangless(u) && AllNeeds(AstUnit(u), q)
    ensures UnitAtoms(u, NeedLeaf(q))
    decreases u
  {
    hide AllNeeds;
    match u
    case Leaf(_) =>
    case Paren(e) =>
      GroupNeeds(AstRuns(e), q);
      LeavesPass(e, q);
  }

  // ------------------------------------------------------- and means the same

  function HasIn(val: Tracking): Having {
    (n: string, k: nat) => NeedMet(n, k, val)
  }

  /** What the tracker makes of a call. */
  function Helpers(val: Tracking): Saying {
    (f: string, args: seq<string>) => TrackerVal(Func(f, args), val)
  }

  lemma {:induction false} TreeTruth(a: Ast, val: Tracking)
    ensures TrackerVal(a, val) == AstVal(a, HasIn(val), Helpers(val))
    decreases a
  {
    if a.AllOf? || a.AnyOf? {
      forall i | 0 <= i < |a.children|
        ensures TrackerVal(a.children[i], val) == AstVal(a.children[i], HasIn(val), Helpers(val))
      {
        TreeTruth(a.children[i], val);
      }
    }
  }

  /** The tracker's truth of an atom. */
  function TrackTruth(val: Tracking): Valuation {
    PackTruth(HasIn(val), Helpers(val))
  }

  /** A requirement tree that prints as `s`, its items passing `q`. */
  lemma TreeOf(s: string, p: Shape, q: Judge, calls: Calls) returns (e: Expr)
    requires s != "" && TrackText(s, p, calls) && Within(p, TRACK_TERM) && TextNeeds(s, q)
    ensures TidyTree(e, p) && Answered(e, calls) && Print(e) == s && AllAtoms(e, NeedLeaf(q))
    ensures ParseRequires(s) == Ok(AstOf(e)) && WellCalled(AstOf(e)) && CleanAst(AstOf(e))
  {
    hide ParseRequires, WellCalled, CleanAst, AllNeeds, Print, Answered;
    e :| TidyTree(e, p) && Answered(e, calls) && Print(e) == s;
    WeakenExpr(e, p.atoms, TrackAtom);
    WeakenExpr(e, TrackAtom, PackAtom);
    ParsePrint(e);
    SoundTree(e);
    GroupNeeds(AstRuns(e), q);
    LeavesPass(e, q);
  }

  /** Both values of a tree: the tracker's, and the rule reader's. */
  lemma TreeValues(e: Expr, p: Shape, counts: Counts, calls: Calls, val: Tracking)
    requires TidyTree(e, p) && Within(p, TRACK_TERM) && Answered(e, calls)
    ensures TrackerVal(AstOf(e), val) == PrecVal(e, TrackTruth(val))
    ensures CheckRequire(Print(e), counts, calls) == Ok(PrecVal(e, Truth(counts, calls)))
  {
    hide CheckRequire, TrackerVal, AstVal, Print, Truth, PackTruth, WellCalled, CleanAst, Answered;
    TreeTruth(AstOf(e), val);
    TreeMeaning(e, HasIn(val), Helpers(val));
    TrackShapes();
    TidyPack(e, p);
    ReaderPlaced(e, counts, calls);
    TreesAgree(e, Truth(counts, calls));
  }

  function BothOf(p: Atom -> bool, q: Atom -> bool): Atom -> bool {
    (a: Atom) => p(a) && q(a)
  }

  lemma {:induction false} BothAtoms(e: Expr, p: Atom -> bool, q: Atom -> bool)
    requires AllAtoms(e, p) && AllAtoms(e, q)
    ensures AllAtoms(e, BothOf(p, q))
    decreases e
  {
    BothUnitAtoms(e.u, p, q);
    if e.More? {
      BothAtoms(e.rest, p, q);
    }
  }

  lemma {:induction false} BothUnitAtoms(u: Unit, p: Atom -> bool, q: Atom -> bool)
    requires UnitAtoms(u, p) && UnitAtoms(u, q)
    ensures UnitAtoms(u, BothOf(p, q))
    decreases u
  {
    match u
    case Leaf(_) =>
    case Not(x) => BothUnitAtoms(x, p, q);
    case Paren(e) => BothAtoms(e, p, q);
  }

  /** Without `!`, more true atoms make no requirement false. */
  lemma {:induction false} MoreHolds(e: Expr, p: Atom -> bool, v: Valuation, q: Valuation)
    requires AllAtoms(e, p) && Bangless(e) && forall a :: p(a) && v(a) ==> q(a)
    ensures PrecVal(e, v) ==> PrecVal(e, q)
    ensures RunVal(e, v) ==> RunVal(e, q)
    ensures LaterVal(Later(e), v) ==> LaterVal(Later(e), q)
    decreases e
  {
    MoreHoldsUnit(e.u, p, v, q);
    PrecParts(e, v);
    PrecParts(e, q);
    if e.More? {
      MoreHolds(e.rest, p, v, q);
    }
  }

  lemma PrecParts(e: Expr, v: Valuation)
    ensures PrecVal(e, v) == (RunVal(e, v) || LaterVal(Later(e), v))
    ensures e.More? ==> Later(e) == if e.w.op == Or then Some(e.rest) else Later(e.rest)
  {
  }

  lemma {:induction false} MoreHoldsUnit(u: Unit, p: Atom -> bool, v: Valuation, q: Valuation)
    requires UnitAtoms(u, p) && UnitBangless(u) && forall a :: p(a) && v(a) ==> q(a)
    ensures UnitPrec(u, v) ==> UnitPrec(u, q)
    decreases u
  {
    match u
    case Leaf(_) =>
    case Paren(e) => MoreHolds(e, p, v, q);
  }

  // --------------------------------------------------------------- the results

  /** The tracker's terms say of the item what the state says. */
  function Tells(counts: Counts, val: Tracking): Judge {
    (n: string, k: nat) => NeedMet(n, k, val) <==> counts(n) >= k
  }

  /** They say no more than that. */
  function Admits(counts: Counts, val: Tracking): Judge {
    (n: string, k: nat) => NeedMet(n, k, val) ==> counts(n) >= k
  }

  /** On every call that text of shape `p` may make, the tracker's helper agrees with the
      rule function. */
  ghost predicate CallsTold(p: Shape, counts: Counts, calls: Calls, val: Tracking) {
    SameCalls(p, Helpers(val), counts, calls)
  }

  /** There it says no more. */
  ghost predicate CallsAdmitted(p: Shape, counts: Counts, calls: Calls, val: Tracking) {
    forall f, x :: p.atoms(Call(f, x)) && TrackerVal(AstAtom(Call(f, x)), val) ==> Truth(counts, calls)(Call(f, x))
  }

  /** The text has clauses, at least one, without commas. */
  predicate Translates(s: string) {
    match RequiresDnf(s)
    case Raised => false
    case Ok(d) => d != [] && CleanDnf(d)
  }

  /** They hold. */
  predicate ClausesHold(s: string, val: Tracking) {
    match RequiresDnf(s)
    case Raised => false
    case Ok(d) => DnfVal(d, val)
  }

  lemma ClausesOf(s: string, val: Tracking)
    requires ParseRequires(s).Ok? && WellCalled(ParseRequires(s).value)
    requires CleanAst(ParseRequires(s).value) && !val("false")
    ensures Translates(s) && (ClausesHold(s, val) <==> TrackerVal(ParseRequires(s).value, val))
  {
    hide ParseRequires, WellCalled, CleanAst, TrackerVal, DnfVal, CleanDnf, RulesVal, AccessRules, RequiresDnf;
    RequirementTranslated(s, val);
  }

  lemma EmptyText(counts: Counts, calls: Calls, val: Tracking)
    ensures ParseRequires("") == Ok(True) && WellCalled(True) && CleanAst(True) && TrackerVal(True, val)
    ensures CheckRequire("", counts, calls) == Ok(true)
  {
  }

  /** Text of such a shape never raises in either program, and the clauses the tracker makes
      of it hold exactly when the rule reader of the logic accepts it. */
  lemma TextTranslated(s: string, p: Shape, counts: Counts, calls: Calls, val: Tracking)
    requires TrackText(s, p, calls) && Within(p, TRACK_TERM) && CallsTold(p, counts, calls, val)
    requires TextNeeds(s, Tells(counts, val)) && !val("false")
    ensures Translates(s) && CheckRequire(s, counts, calls).Ok?
    ensures ClausesHold(s, val) <==> Holds(s, counts, calls)
  {
    hide CheckRequire, ParseRequires, WellCalled, CleanAst, TrackerVal, Print, AstOf, Truth, Translates, ClausesHold;
    hide TextNeeds, NeedLeaf, TrackTruth, Answered;
    if s == "" {
      EmptyText(counts, calls, val);
    } else {
      var q := Tells(counts, val);
      var e := TreeOf(s, p, q, calls);
      TreeValues(e, p, counts, calls, val);
      BothAtoms(e, p.atoms, NeedLeaf(q));
      AtomsTold(p, counts, calls, val);
      SameVal(e, BothOf(p.atoms, NeedLeaf(q)), TrackTruth(val), Truth(counts, calls));
    }
    ClausesOf(s, val);
  }

  lemma AtomsTold(p: Shape, counts: Counts, calls: Calls, val: Tracking)
    requires Within(p, TRACK_TERM) && CallsTold(p, counts, calls, val)
    ensures forall a :: BothOf(p.atoms, NeedLeaf(Tells(counts, val)))(a) ==>
                          TrackTruth(val)(a) == Truth(counts, calls)(a)
  {
    hide TrackerVal, WellCalled, CleanAst, NeedMet;
    forall a | p.atoms(a) && NeedLeaf(Tells(counts, val))(a)
      ensures TrackTruth(val)(a) == Truth(counts, calls)(a)
    {
      match a
      case Item(_) =>
      case ItemN(_, _) =>
      case Call(_, _) =>
    }
  }

  /** When the tracker's terms admit no more than the state, neither do the clauses. */
  lemma TextAdmitted(s: string, p: Shape, counts: Counts, calls: Calls, val: Tracking)
    requires TrackText(s, p, calls) && Within(p, TRACK_TERM) && CallsAdmitted(p, counts, calls, val)
    requires TextNeeds(s, Admits(counts, val)) && !val("false")
    ensures Translates(s) && CheckRequire(s, counts, calls).Ok?
    ensures ClausesHold(s, val) ==> Holds(s, counts, calls)
  {
    hide CheckRequire, ParseRequires, WellCalled, CleanAst, TrackerVal, Print, AstOf, Truth, Translates, ClausesHold;
    hide TextNeeds, NeedLeaf, TrackTruth, Answered;
    if s == "" {
      EmptyText(counts, calls, val);
    } else {
      var q := Admits(counts, val);
      var e := TreeOf(s, p, q, calls);
      TreeValues(e, p, counts, calls, val);
      BothAtoms(e, p.atoms, NeedLeaf(q));
      AtomsAdmitted(p, counts, calls, val);
      MoreHolds(e, BothOf(p.atoms, NeedLeaf(q)), TrackTruth(val), Truth(counts, calls));
    }
    ClausesOf(s, val);
  }

  lemma AtomsAdmitted(p: Shape, counts: Counts, calls: Calls, val: Tracking)
    requires Within(p, TRACK_TERM) && CallsAdmitted(p, counts, calls, val)
    ensures forall a :: BothOf(p.atoms, NeedLeaf(Admits(counts, val)))(a) && TrackTruth(val)(a) ==>
                          Truth(counts, calls)(a)
  {
    hide TrackerVal, WellCalled, CleanAst, NeedMet;
    forall a | p.atoms(a) && NeedLeaf(Admits(counts, val))(a) && TrackTruth(val)(a)
      ensures Truth(counts, calls)(a)
    {
      match a
      case Item(_) =>
      case ItemN(_, _) =>
      case Call(_, _) =>
    }
  }
}
