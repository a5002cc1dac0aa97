/** `gates_for` of compile_moon_logic.py: the gates joined onto a moon's own text. */
module MoonGates {
  import opened Text
  import opened Syntax
  import opened RuleReader
  import opened Terms
  import opened MoonCompiler
  import Vocabulary

  /** `name.split(": ", 1)[0]`. */
  function Prefix(name: string): string {
    if |name| < 2 then name
    else if name[..2] == ": " then ""
    else [name[0]] + Prefix(name[1..])
  }

  function HighJump(): string {
    OrJoin(Frags([Backflip, SideFlip, SpinJump, TripleJump, PoundJump]))
  }

  function LakeGate(): string {
    OrJoin([Pipe("Zipper"),
            AndJoin([HighJump(), Pipe("Cap Bounce"),
                     OrJoin([PipeN("Progressive Ground Pound", "2"), Pipe("Wall Slide")])])])
  }

  function KingdomGate(prefix: string): Option<string> {
    if prefix == "Metro" || prefix == "Bowser's" then Some(Pipe("Spark pylon"))
    else if prefix == "Lake" then Some(LakeGate())
    else None
  }

  function RockCapture(prefix: string): Option<string> {
    if prefix == "Cap" then Some(Pipe("Paragoomba"))
    else if prefix == "Luncheon" then Some(Pipe("Lava Bubble"))
    else None
  }

  function CaveTraversal(): string {
    OrJoin([AndJoin(Pipes(["Parabones", "Banzai Bill", "Spark pylon"])),
            AndJoin([JumpFrag(PoundJump), Pipe("Cap Bounce"), Pipe("Wall Slide")])])
  }

  function ExtraGate(name: string): Option<string> {
    if name == "Sand: Employees Only" then Some(PipeN("Progressive Crouch", "1")) else None
  }

  function BossGate(name: string): Option<string> {
    if name == "Sand: Showdown on the Inverted Pyramid" then Some(Pipe("Bullet Bill"))
    else if name == "Sand: The Hole in the Desert" then Some(AndJoin(Pipes(["Bullet Bill", "Knucklotec's Fist"])))
    else if name == "Lake: Broodals Over the Lake" then Some(Pipe("Zipper"))
    else None
  }

  function Listed(gate: Option<string>): seq<string> {
    match gate
    case None => []
    case Some(g) => [g]
  }

  /** The names and tables that the run computes before it compiles. */
  datatype Context = Context(
    subareaGate: map<string, string>,
    scenarioGate: map<string, string>,
    behindRock: set<string>,
    inCave: set<string>)

  function RockGates(name: string, ctx: Context): seq<string> {
    if name in ctx.behindRock then Listed(RockCapture(Prefix(name))) else []
  }

  function ScenarioGates(name: string, ctx: Context): seq<string> {
    if name in ctx.scenarioGate && ctx.scenarioGate[name] != "" then [ctx.scenarioGate[name]] else []
  }

  function CaveGates(name: string, ctx: Context): seq<string> {
    if name in ctx.inCave then [CaveTraversal()] else []
  }

  function SubareaGates(name: string, ctx: Context): seq<string> {
    if name in ctx.subareaGate then [ctx.subareaGate[name]] else []
  }

  function GatesFor(name: string, ctx: Context): seq<string> {
    Listed(KingdomGate(Prefix(name))) + RockGates(name, ctx) + ScenarioGates(name, ctx) + CaveGates(name, ctx)
    + SubareaGates(name, ctx) + Listed(ExtraGate(name)) + Listed(BossGate(name))
  }

  /** `gates_for`, growing its list. */
  method CollectGates(name: string, ctx: Context) returns (out: seq<string>)
    ensures out == GatesFor(name, ctx)
    ensures AlwaysMean(out, name, ctx)
  {
    hide AlwaysMean;
    var prefix := Prefix(name);
    out := Listed(KingdomGate(prefix));
    if name in ctx.behindRock {
      out := out + Listed(RockCapture(prefix));
    }
    ghost var one := Listed(KingdomGate(prefix)) + RockGates(name, ctx);
    assert out == one;
    out := CollectRecorded(name, ctx, out);
    out := out + Listed(ExtraGate(name));
    out := out + Listed(BossGate(name));
    GatesAlwaysMean(name, ctx);
  }

  /** The gates recorded for this location: its scenario, the cave and its subarea. */
  method CollectRecorded(name: string, ctx: Context, start: seq<string>) returns (out: seq<string>)
    ensures out == start + ScenarioGates(name, ctx) + CaveGates(name, ctx) + SubareaGates(name, ctx)
  {
    out := start;
    if name in ctx.scenarioGate && ctx.scenarioGate[name] != "" {
      out := out + [ctx.scenarioGate[name]];
    }
    assert out == start + ScenarioGates(name, ctx);
    ghost var two := out;
    if name in ctx.inCave {
      out := out + [CaveTraversal()];
    }
    assert out == two + CaveGates(name, ctx);
    if name in ctx.subareaGate {
      out := out + [ctx.subareaGate[name]];
    }
  }

  // ----------------------------------------------------- what the gates mean

  lemma OwnReads(name: string, counts: Counts, calls: Calls)
    requires GoodName(name)
    ensures IsTerm(Pipe(name), PLAIN_TERM)
    ensures Holds(Pipe(name), counts, calls) == (counts(name) >= 1)
  {
    ItemReads(Item(name), counts, calls);
  }

  lemma TwoRead(a: string, b: string, counts: Counts, calls: Calls)
    requires IsTerm(a, PLAIN_TERM) && IsTerm(b, PLAIN_TERM)
    ensures IsTerm(OrJoin([a, b]), PLAIN_TERM)
    ensures Holds(OrJoin([a, b]), counts, calls) == (Holds(a, counts, calls) || Holds(b, counts, calls))
  {
    hide CheckRequire;
    PairText(a, b, counts, calls);
    TermsJoin([a, b], PLAIN_TERM, counts, calls);
  }

  lemma ThreeRead(a: string, b: string, c: string, counts: Counts, calls: Calls)
    requires IsTerm(a, PLAIN_TERM) && IsTerm(b, PLAIN_TERM) && IsTerm(c, PLAIN_TERM)
    ensures IsTerm(AndJoin([a, b, c]), PLAIN_TERM)
    ensures Holds(AndJoin([a, b, c]), counts, calls) ==
            (Holds(a, counts, calls) && Holds(b, counts, calls) && Holds(c, counts, calls))
  {
    ThreeTexts([a, b, c], a, b, c, PLAIN_TERM, counts, calls);
    TermsJoin([a, b, c], PLAIN_TERM, counts, calls);
  }

  lemma ThreeTexts(parts: seq<string>, a: string, b: string, c: string, p: Shape, counts: Counts, calls: Calls)
    requires parts == [a, b, c]
    requires IsTerm(a, p) && IsTerm(b, p) && IsTerm(c, p)
    ensures EachTerm(parts, p)
    ensures EachHolds(parts, counts, calls) ==
            (Holds(a, counts, calls) && Holds(b, counts, calls) && Holds(c, counts, calls))
  {
    assert forall q :: q in parts <==> q == a || q == b || q == c;
  }

  predicate CanJumpHigh(counts: Counts) {
    CanJump(Backflip, counts) || CanJump(SideFlip, counts) || CanJump(SpinJump, counts)
    || CanJump(TripleJump, counts) || CanJump(PoundJump, counts)
  }

  lemma HighJumpReads(counts: Counts, calls: Calls)
    ensures IsTerm(HighJump(), PLAIN_TERM)
    ensures Holds(HighJump(), counts, calls) == CanJumpHigh(counts)
  {
    var ks := [Backflip, SideFlip, SpinJump, TripleJump, PoundJump];
    FragsRead(ks, counts, calls);
    SomeOfFive(counts);
  }

  lemma SomeOfFive(counts: Counts)
    ensures SomeJump([Backflip, SideFlip, SpinJump, TripleJump, PoundJump], counts) == CanJumpHigh(counts)
  {
    var ks := [Backflip, SideFlip, SpinJump, TripleJump, PoundJump];
    assert Backflip in ks && SideFlip in ks && SpinJump in ks && TripleJump in ks && PoundJump in ks;
  }

  /** Lake's overworld: the Zipper, or a high jump, a Cap Bounce and a Dive or Wall Slide. */
  predicate LakeMet(counts: Counts) {
    || counts("Zipper") >= 1
    || (CanJumpHigh(counts) && counts("Cap Bounce") >= 1 &&
        (counts("Progressive Ground Pound") >= 2 || counts("Wall Slide") >= 1))
  }

  lemma LakeGateReads(counts: Counts, calls: Calls)
    ensures IsTerm(LakeGate(), PLAIN_TERM)
    ensures Holds(LakeGate(), counts, calls) == LakeMet(counts)
  {
    hide CheckRequire, CanJumpHigh, HighJump, AndJoin, OrJoin, AtomText;
    HighJumpReads(counts, calls);
    Vocabulary.JumpNames();
    OwnReads("Cap Bounce", counts, calls);
    Vocabulary.ProgressiveNames();
    SmallCounts();
    var dive := PipeN("Progressive Ground Pound", "2");
    ItemReads(ItemN("Progressive Ground Pound", "2"), counts, calls);
    Vocabulary.WallNames();
    OwnReads("Wall Slide", counts, calls);
    var last := OrJoin([dive, Pipe("Wall Slide")]);
    TwoRead(dive, Pipe("Wall Slide"), counts, calls);
    ThreeRead(HighJump(), Pipe("Cap Bounce"), last, counts, calls);
    Vocabulary.GateNames();
    OwnReads("Zipper", counts, calls);
    TwoRead(Pipe("Zipper"), AndJoin([HighJump(), Pipe("Cap Bounce"), last]), counts, calls);
  }

  /** The Moon Cave asks for the three captures or for the three moves. */
  predicate CaveMet(counts: Counts) {
    || (counts("Parabones") >= 1 && counts("Banzai Bill") >= 1 && counts("Spark pylon") >= 1)
    || (CanJump(PoundJump, counts) && counts("Cap Bounce") >= 1 && counts("Wall Slide") >= 1)
  }

  lemma CaveReads(counts: Counts, calls: Calls)
    ensures IsTerm(CaveTraversal(), PLAIN_TERM)
    ensures Holds(CaveTraversal(), counts, calls) == CaveMet(counts)
  {
    CaveCaptures(counts, calls);
    CaveMoves(counts, calls);
    TwoRead(AndJoin(Pipes(["Parabones", "Banzai Bill", "Spark pylon"])),
            AndJoin([JumpFrag(PoundJump), Pipe("Cap Bounce"), Pipe("Wall Slide")]), counts, calls);
  }

  lemma CaveCaptures(counts: Counts, calls: Calls)
    ensures var q := AndJoin(Pipes(["Parabones", "Banzai Bill", "Spark pylon"]));
            && IsTerm(q, PLAIN_TERM)
            && Holds(q, counts, calls) ==
               (counts("Parabones") >= 1 && counts("Banzai Bill") >= 1 && counts("Spark pylon") >= 1)
  {
    Vocabulary.CaveNames();
    OwnReads("Parabones", counts, calls);
    OwnReads("Banzai Bill", counts, calls);
    Vocabulary.GateNames();
    OwnReads("Spark pylon", counts, calls);
    PipesOfThree("Parabones", "Banzai Bill", "Spark pylon");
    ThreeRead(Pipe("Parabones"), Pipe("Banzai Bill"), Pipe("Spark pylon"), counts, calls);
  }

  lemma PipesOfThree(a: string, b: string, c: string)
    ensures Pipes([a, b, c]) == [Pipe(a), Pipe(b), Pipe(c)]
  {
  }

  lemma CaveMoves(counts: Counts, calls: Calls)
    ensures var q := AndJoin([JumpFrag(PoundJump), Pipe("Cap Bounce"), Pipe("Wall Slide")]);
            && IsTerm(q, PLAIN_TERM)
            && Holds(q, counts, calls) ==
               (CanJump(PoundJump, counts) && counts("Cap Bounce") >= 1 && counts("Wall Slide") >= 1)
  {
    JumpReads(PoundJump, counts, calls);
    Vocabulary.JumpNames();
    OwnReads("Cap Bounce", counts, calls);
    Vocabulary.WallNames();
    OwnReads("Wall Slide", counts, calls);
    ThreeRead(JumpFrag(PoundJump), Pipe("Cap Bounce"), Pipe("Wall Slide"), counts, calls);
  }

  // ------------------------------------------------- what a location's place asks

  /** The location's name says that it is in this kingdom. */
  predicate In(name: string, kingdom: string) {
    name == kingdom || kingdom + ": " <= name
  }

  predicate KingdomMet(name: string, counts: Counts) {
    && (In(name, "Metro") || In(name, "Bowser's") ==> counts("Spark pylon") >= 1)
    && (In(name, "Lake") ==> LakeMet(counts))
  }

  predicate RockMet(name: string, counts: Counts) {
    && (In(name, "Cap") ==> counts("Paragoomba") >= 1)
    && (In(name, "Luncheon") ==> counts("Lava Bubble") >= 1)
  }

  /** A colon and a blank within. */
  predicate HasMark(s: string) {
    |s| >= 2 && (s[..2] == ": " || HasMark(s[1..]))
  }

  /** The prefix is cut at the first such mark; without one it is the whole name. */
  lemma {:induction false} PrefixCuts(name: string)
    ensures !HasMark(Prefix(name))
    ensures if HasMark(name) then Prefix(name) + ": " <= name else Prefix(name) == name
    ensures Prefix(name) != "" ==> name != "" && Prefix(name)[0] == name[0]
  {
    if |name| >= 2 && name[..2] != ": " {
      var rest := Prefix(name[1..]);
      PrefixCuts(name[1..]);
      assert name == [name[0]] + name[1..] && ([name[0]] + rest)[1..] == rest;
      assert rest != "" ==> ([name[0]] + rest)[..2] == name[..2];
      if HasMark(name) {
        SameStart(name[0], rest + ": ", name[1..]);
        assert [name[0]] + rest + ": " == [name[0]] + (rest + ": ");
      }
    }
  }

  lemma SameStart(c: char, a: string, b: string)
    requires a <= b
    ensures [c] + a <= [c] + b
  {
    assert b == a + b[|a|..];
    assert [c] + b == [c] + a + b[|a|..];
  }

  lemma {:induction false} PrefixGiven(kingdom: string, rest: string)
    requires !HasMark(kingdom)
    ensures Prefix(kingdom + ": " + rest) == kingdom
  {
    var name := kingdom + ": " + rest;
    if kingdom == "" {
      assert name[..2] == ": ";
    } else {
      assert name[..2] != ": " by {
        if |kingdom| >= 2 {
          assert name[..2] == kingdom[..2];
        } else {
          assert name[1] == ':';
        }
      }
      assert name[1..] == kingdom[1..] + ": " + rest;
      PrefixGiven(kingdom[1..], rest);
    }
  }

  /** It is a kingdom's name exactly when the location's name says so. */
  lemma PrefixIs(name: string, kingdom: string)
    requires !HasMark(kingdom)
    ensures Prefix(name) == kingdom <==> In(name, kingdom)
  {
    hide Prefix;
    PrefixCuts(name);
    if kingdom + ": " <= name {
      var rest := name[|kingdom| + 2..];
      assert name == kingdom + ": " + rest;
      PrefixGiven(kingdom, rest);
    }
  }

  lemma {:induction false} NoMark(s: string)
    requires ':' !in s
    ensures !HasMark(s)
  {
    if |s| >= 2 {
      assert s[0] in s && s[..2][0] == s[0];
      NoMark(s[1..]);
    }
  }

  lemma KingdomNamed(name: string, kingdom: string)
    requires ':' !in kingdom
    ensures Prefix(name) == kingdom <==> In(name, kingdom)
  {
    NoMark(kingdom);
    PrefixIs(name, kingdom);
  }

  /** The gates go by the kingdom in the name. */
  lemma KingdomsNamed(name: string)
    ensures Prefix(name) == "Metro" <==> In(name, "Metro")
    ensures Prefix(name) == "Bowser's" <==> In(name, "Bowser's")
    ensures Prefix(name) == "Lake" <==> In(name, "Lake")
    ensures Prefix(name) == "Cap" <==> In(name, "Cap")
    ensures Prefix(name) == "Luncheon" <==> In(name, "Luncheon")
  {
    hide Prefix, In;
    KingdomNamed(name, "Metro");
    KingdomNamed(name, "Bowser's");
    KingdomNamed(name, "Lake");
    KingdomNamed(name, "Cap");
    KingdomNamed(name, "Luncheon");
  }

  predicate BossMet(name: string, counts: Counts) {
    && (name == "Sand: Showdown on the Inverted Pyramid" || name == "Sand: The Hole in the Desert" ==>
        counts("Bullet Bill") >= 1)
    && (name == "Sand: The Hole in the Desert" ==> counts("Knucklotec's Fist") >= 1)
    && (name == "Lake: Broodals Over the Lake" ==> counts("Zipper") >= 1)
  }

  /** Everything the place of a location asks for: its kingdom's overworld, its moon rock,
      its scenario, the cave, its subarea, its own item and its boss. */
  predicate PlaceMet(name: string, ctx: Context, counts: Counts, calls: Calls) {
    && KingdomMet(name, counts)
    && (name in ctx.behindRock ==> RockMet(name, counts))
    && (name in ctx.scenarioGate ==> Holds(ctx.scenarioGate[name], counts, calls))
    && (name in ctx.inCave ==> CaveMet(counts))
    && (name in ctx.subareaGate ==> Holds(ctx.subareaGate[name], counts, calls))
    && (name == "Sand: Employees Only" ==> counts("Progressive Crouch") >= 1)
    && BossMet(name, counts)
  }

  /** Gates that are requirements of shape `p` and hold together exactly when `met`. */
  ghost predicate GatesMean(gates: seq<string>, met: bool, p: Shape, counts: Counts, calls: Calls) {
    EachReq(gates, p) && EachHolds(gates, counts, calls) == met
  }

  lemma NoGates(p: Shape, counts: Counts, calls: Calls)
    ensures GatesMean([], true, p, counts, calls)
  {
  }

  lemma OneGate(s: string, met: bool, p: Shape, counts: Counts, calls: Calls)
    requires IsTerm(s, PLAIN_TERM) && Within(PLAIN_TERM, p) && Holds(s, counts, calls) == met
    ensures GatesMean([s], met, p, counts, calls)
  {
    hide Holds;
    WidenReq(s, PLAIN_TERM, p);
    OneText(s, counts, calls);
  }

  lemma MoreGates(a: seq<string>, x: bool, b: seq<string>, y: bool, p: Shape, counts: Counts, calls: Calls)
    requires GatesMean(a, x, p, counts, calls) && GatesMean(b, y, p, counts, calls)
    ensures GatesMean(a + b, x && y, p, counts, calls)
  {
    hide Holds;
    AppendHolds(a, b, counts, calls);
  }

  lemma KingdomGateRead(name: string, p: Shape, counts: Counts, calls: Calls)
    requires Within(PLAIN_TERM, p)
    ensures GatesMean(Listed(KingdomGate(Prefix(name))), KingdomMet(name, counts), p, counts, calls)
  {
    hide Holds, LakeGate, LakeMet, GatesMean, Prefix, In;
    var prefix := Prefix(name);
    KingdomsNamed(name);
    NoGates(p, counts, calls);
    if prefix == "Lake" {
      LakeGateReads(counts, calls);
      OneGate(LakeGate(), LakeMet(counts), p, counts, calls);
    } else if KingdomGate(prefix).Some? {
      Vocabulary.GateNames();
      OwnReads("Spark pylon", counts, calls);
      OneGate(Pipe("Spark pylon"), counts("Spark pylon") >= 1, p, counts, calls);
    }
  }

  lemma RockGateRead(name: string, p: Shape, counts: Counts, calls: Calls)
    requires Within(PLAIN_TERM, p)
    ensures GatesMean(Listed(RockCapture(Prefix(name))), RockMet(name, counts), p, counts, calls)
  {
    hide Holds, GatesMean, Prefix, In;
    var prefix := Prefix(name);
    KingdomsNamed(name);
    NoGates(p, counts, calls);
    Vocabulary.GateNames();
    if RockCapture(prefix).Some? {
      var c := if prefix == "Cap" then "Paragoomba" else "Lava Bubble";
      OwnReads(c, counts, calls);
      OneGate(Pipe(c), counts(c) >= 1, p, counts, calls);
    }
  }

  lemma CaveGateRead(p: Shape, counts: Counts, calls: Calls)
    requires Within(PLAIN_TERM, p)
    ensures GatesMean([CaveTraversal()], CaveMet(counts), p, counts, calls)
  {
    hide Holds, CaveTraversal;
    CaveReads(counts, calls);
    OneGate(CaveTraversal(), CaveMet(counts), p, counts, calls);
  }

  lemma ExtraGateRead(name: string, p: Shape, counts: Counts, calls: Calls)
    requires Within(PLAIN_TERM, p)
    ensures GatesMean(Listed(ExtraGate(name)), name == "Sand: Employees Only" ==> counts("Progressive Crouch") >= 1,
                      p, counts, calls)
  {
    hide GatesMean;
    NoGates(p, counts, calls);
    Vocabulary.ProgressiveNames();
    SmallCounts();
    ItemReads(ItemN("Progressive Crouch", "1"), counts, calls);
    OneGate(PipeN("Progressive Crouch", "1"), counts("Progressive Crouch") >= 1, p, counts, calls);
  }

  lemma FistGate(counts: Counts, calls: Calls)
    ensures var q := AndJoin(Pipes(["Bullet Bill", "Knucklotec's Fist"]));
            && IsTerm(q, PLAIN_TERM)
            && Holds(q, counts, calls) == (counts("Bullet Bill") >= 1 && counts("Knucklotec's Fist") >= 1)
  {
    Vocabulary.CaveNames();
    Vocabulary.BossNames();
    var a, b := Item("Bullet Bill"), Item("Knucklotec's Fist");
    PairReads(a, b, counts, calls);
    assert Pipes(["Bullet Bill", "Knucklotec's Fist"]) == [AtomText(a), AtomText(b)];
  }

  lemma BossGateRead(name: string, p: Shape, counts: Counts, calls: Calls)
    requires Within(PLAIN_TERM, p)
    ensures GatesMean(Listed(BossGate(name)), BossMet(name, counts), p, counts, calls)
  {
    hide Holds, GatesMean, AndJoin, Pipes, Pipe, GoodName, IsTerm;
    NoGates(p, counts, calls);
    var fist := AndJoin(Pipes(["Bullet Bill", "Knucklotec's Fist"]));
    FistGate(counts, calls);
    OneGate(fist, counts("Bullet Bill") >= 1 && counts("Knucklotec's Fist") >= 1, p, counts, calls);
    Vocabulary.CaveNames();
    OwnReads("Bullet Bill", counts, calls);
    OneGate(Pipe("Bullet Bill"), counts("Bullet Bill") >= 1, p, counts, calls);
    Vocabulary.GateNames();
    OwnReads("Zipper", counts, calls);
    OneGate(Pipe("Zipper"), counts("Zipper") >= 1, p, counts, calls);
  }

  /** The recorded gates are requirements. */
  ghost predicate GoodContext(ctx: Context, p: Shape) {
    && (forall n :: n in ctx.subareaGate ==> IsReq(ctx.subareaGate[n], p))
    && (forall n :: n in ctx.scenarioGate ==> IsReq(ctx.scenarioGate[n], p))
  }

  lemma RecordedGateRead(s: string, p: Shape, counts: Counts, calls: Calls)
    requires IsReq(s, p)
    ensures GatesMean([s], Holds(s, counts, calls), p, counts, calls)
  {
    hide Holds;
    OneText(s, counts, calls);
  }

  lemma RecordedGatesRead(name: string, ctx: Context, p: Shape, counts: Counts, calls: Calls)
    requires GoodContext(ctx, p)
    ensures GatesMean(ScenarioGates(name, ctx),
                      name in ctx.scenarioGate ==> Holds(ctx.scenarioGate[name], counts, calls), p, counts, calls)
    ensures GatesMean(SubareaGates(name, ctx),
                      name in ctx.subareaGate ==> Holds(ctx.subareaGate[name], counts, calls), p, counts, calls)
  {
    hide Holds, GatesMean;
    NoGates(p, counts, calls);
    EmptyHolds(counts, calls);
    if name in ctx.scenarioGate {
      RecordedGateRead(ctx.scenarioGate[name], p, counts, calls);
    }
    if name in ctx.subareaGate {
      RecordedGateRead(ctx.subareaGate[name], p, counts, calls);
    }
  }

  /** The gates collected for a location hold together exactly when its place's demands
      are met. */
  lemma GatesRead(name: string, ctx: Context, p: Shape, counts: Counts, calls: Calls)
    requires GoodContext(ctx, p) && Within(PLAIN_TERM, p)
    ensures GatesMean(GatesFor(name, ctx), PlaceMet(name, ctx, counts, calls), p, counts, calls)
  {
    hide Holds, GatesMean, KingdomGate, RockCapture, ScenarioGates, SubareaGates, CaveTraversal, ExtraGate, BossGate;
    hide Prefix, KingdomMet, RockMet, CaveMet, BossMet;
    var prefix := Prefix(name);
    NoGates(p, counts, calls);
    KingdomGateRead(name, p, counts, calls);
    RockGateRead(name, p, counts, calls);
    RecordedGatesRead(name, ctx, p, counts, calls);
    CaveGateRead(p, counts, calls);
    ExtraGateRead(name, p, counts, calls);
    BossGateRead(name, p, counts, calls);
    var a, x := Listed(KingdomGate(prefix)), KingdomMet(name, counts);
    MoreGates(a, x, RockGates(name, ctx), name in ctx.behindRock ==> RockMet(name, counts), p, counts, calls);
    a, x := a + RockGates(name, ctx), x && (name in ctx.behindRock ==> RockMet(name, counts));
    var scenario := name in ctx.scenarioGate ==> Holds(ctx.scenarioGate[name], counts, calls);
    MoreGates(a, x, ScenarioGates(name, ctx), scenario, p, counts, calls);
    a, x := a + ScenarioGates(name, ctx), x && scenario;
    MoreGates(a, x, CaveGates(name, ctx), name in ctx.inCave ==> CaveMet(counts), p, counts, calls);
    a, x := a + CaveGates(name, ctx), x && (name in ctx.inCave ==> CaveMet(counts));
    var subarea := name in ctx.subareaGate ==> Holds(ctx.subareaGate[name], counts, calls);
    MoreGates(a, x, SubareaGates(name, ctx), subarea, p, counts, calls);
    a, x := a + SubareaGates(name, ctx), x && subarea;
    var extra := name == "Sand: Employees Only" ==> counts("Progressive Crouch") >= 1;
    MoreGates(a, x, Listed(ExtraGate(name)), extra, p, counts, calls);
    MoreGates(a + Listed(ExtraGate(name)), x && extra, Listed(BossGate(name)), BossMet(name, counts), p, counts, calls);
  }

  /** Whatever shape the recorded gates have and whatever the state, the list is made of
      requirements of that shape, and they hold together exactly when the place's demands
      are met. */
  ghost predicate AlwaysMean(gates: seq<string>, name: string, ctx: Context) {
    forall p: Shape, counts: Counts, calls: Calls ::
      (GoodContext(ctx, p) && Within(PLAIN_TERM, p)) ==>
        GatesMean(gates, PlaceMet(name, ctx, counts, calls), p, counts, calls)
  }

  lemma GatesAlwaysMean(name: string, ctx: Context)
    ensures AlwaysMean(GatesFor(name, ctx), name, ctx)
  {
    hide GatesFor, GatesMean, PlaceMet, GoodContext, Within;
    forall p: Shape, counts: Counts, calls: Calls |
        GoodContext(ctx, p) && Within(PLAIN_TERM, p)
      ensures GatesMean(GatesFor(name, ctx), PlaceMet(name, ctx, counts, calls), p, counts, calls)
    {
      GatesRead(name, ctx, p, counts, calls);
    }
  }

  /** The rule written for a location holds exactly when its record is met and so is
      everything its place asks for. */
  lemma LocationRuleCorrect(name: string, rec: Record, ctx: Context, p: Shape, counts: Counts, calls: Calls)
    requires Known(rec) && GoodGroups(rec.groups)
    requires GoodContext(ctx, p) && Within(PLAIN_TERM, p) && Stronger(p) && Disciplined(calls, p)
    ensures MoonText(Baked, rec).Ok?
    ensures IsReq(AndJoin([MoonText(Baked, rec).value] + GatesFor(name, ctx)), p)
    ensures CheckRequire(AndJoin([MoonText(Baked, rec).value] + GatesFor(name, ctx)), counts, calls) ==
            Ok(MoonMet(Baked, rec, counts) && PlaceMet(name, ctx, counts, calls))
  {
    hide CheckRequire, GatesFor, PlaceMet, MoonMet, MoonText;
    GatesRead(name, ctx, p, counts, calls);
    CompiledRuleCorrect(rec, GatesFor(name, ctx), p, counts, calls);
  }
}
