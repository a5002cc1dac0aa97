/** compile_moon_logic.py and its twin in entrance_logic.py: structured moon records
    to requirement text. */
module MoonCompiler {
  import opened Text
  import opened Syntax
  import opened RuleReader
  import opened Terms
  import Vocabulary

  /** Which of the two compilers: the one whose rules are baked into the location
      table, or the one for shuffled interiors. */
  datatype Dialect = Baked | Interior

  /** A way to reach a moon. */
  datatype Method = Method(jump: Option<string>, throws: seq<string>, other: seq<string>)

  /** A moon's record; absent methods are None. */
  datatype Record = Record(methods: seq<Option<Method>>, groups: seq<seq<string>>)

  datatype JumpKey = DoubleJump | TripleJump | CapBounce | Backflip | SideFlip | SpinJump | PoundJump

  // ------------------------------------------------------------------ tables

  function Join2(d: Dialect, parts: seq<string>): string {
    if d.Baked? then AndJoin(parts) else PlainAndJoin(parts)
  }

  function JumpFrag(k: JumpKey): string {
    match k
    case DoubleJump => PipeN("Progressive Jump", "1")
    case TripleJump => PipeN("Progressive Jump", "2")
    case CapBounce => Pipe("Cap Bounce")
    case Backflip => AndJoin([Pipe("Backflip"), PipeN("Progressive Crouch", "1")])
    case SideFlip => Pipe("Side Flip")
    case SpinJump => Pipe("Spin")
    case PoundJump => AndJoin([Pipe("Ground Pound Jump"), PipeN("Progressive Ground Pound", "1")])
  }

  function LongJumpFrag(): string {
    AndJoin([Pipe("Long Jump"), PipeN("Progressive Crouch", "1")])
  }

  /** HEIGHT_SATISFIERS; the interior table has no spin jump. */
  function Satisfiers(d: Dialect, height: string): Option<seq<JumpKey>> {
    var vault := if d.Baked? then [CapBounce, Backflip, SideFlip, SpinJump, PoundJump, TripleJump]
                 else [CapBounce, Backflip, SideFlip, PoundJump, TripleJump];
    if height == "double" then Some([DoubleJump] + vault)
    else if height == "cap_return" || height == "backflip" then Some(vault)
    else if height == "gpj" then Some([PoundJump, TripleJump])
    else if height == "triple" then Some([TripleJump])
    else None
  }

  function ThrowItem(t: string): Option<string> {
    if t == "up" then Some("Up Throw")
    else if t == "down" then Some("Down Throw")
    else if t == "spin" then Some("Spin Throw")
    else None
  }

  /** OTHER_FRAG: the item asked for and its count suffix, 0 for no suffix; None inside
      for "free". */
  function OtherNeed(o: string): Option<Option<(string, nat)>> {
    if o == "ground_pound" then Some(Some(("Progressive Ground Pound", 1)))
    else if o == "dive" then Some(Some(("Progressive Ground Pound", 2)))
    else if o == "crouch" then Some(Some(("Progressive Crouch", 1)))
    else if o == "roll" || o == "bonk_roll" then Some(Some(("Progressive Crouch", 2)))
    else if o == "roll_boost" then Some(Some(("Progressive Crouch", 3)))
    else if o == "wall_slide" then Some(Some(("Wall Slide", 0)))
    else if o == "climb" then Some(Some(("Climb", 0)))
    else if o == "cap_bounce" then Some(Some(("Cap Bounce", 0)))
    else if o == "single" then Some(None)
    else None
  }

  function NeedAtom(n: (string, nat)): Atom {
    if n.1 == 0 then Item(n.0) else ItemN(n.0, NatText(n.1))
  }

  /** Captures that are always there. */
  predicate FreeCapture(d: Dialect, c: string) {
    c == "Frog" || c == "Chain Chomp" || (d.Baked? && c == "Broode's Chain Chomp")
  }

  // --------------------------------------------------------------- compilers

  function Pipes(names: seq<string>): (r: seq<string>)
    ensures |r| == |names|
    ensures forall i :: 0 <= i < |r| ==> r[i] == Pipe(names[i])
  {
    seq(|names|, i requires 0 <= i < |names| => Pipe(names[i]))
  }

  function Gating(d: Dialect, g: seq<string>): (r: seq<string>)
    ensures forall c :: c in r <==> c in g && !FreeCapture(d, c)
  {
    if g == [] then []
    else if FreeCapture(d, g[0]) then Gating(d, g[1..])
    else [g[0]] + Gating(d, g[1..])
  }

  /** The parts of `capture_term`; None as soon as a group is free. */
  function GroupParts(d: Dialect, groups: seq<seq<string>>): Option<seq<string>> {
    if groups == [] then Some([])
    else
      var items := Gating(d, groups[0]);
      if items == [] then None
      else
        match GroupParts(d, groups[1..])
        case None => None
        case Some(rest) => Some([Join2(d, Pipes(items))] + rest)
  }

  function CaptureTerm(d: Dialect, groups: seq<seq<string>>): Option<string> {
    if groups == [] then None
    else
      match GroupParts(d, groups)
      case None => None
      case Some(parts) => Some(OrJoin(parts))
  }

  function Frags(ks: seq<JumpKey>): (r: seq<string>)
    ensures |r| == |ks|
    ensures forall i :: 0 <= i < |r| ==> r[i] == JumpFrag(ks[i])
  {
    seq(|ks|, i requires 0 <= i < |ks| => JumpFrag(ks[i]))
  }

  function JumpTerms(d: Dialect, jump: Option<string>): seq<string> {
    match jump
    case None => []
    case Some(h) =>
      if h == "long_jump" then [LongJumpFrag()]
      else
        match Satisfiers(d, h)
        case None => []
        case Some(ks) => [OrJoin(Frags(ks))]
  }

  /** Texts of the throws; an unknown throw raises in the baked compiler and is skipped
      in the other. */
  function ThrowTexts(d: Dialect, throws: seq<string>): Result<seq<string>> {
    if throws == [] then Ok([])
    else
      match ThrowTexts(d, throws[1..])
      case Raised => Raised
      case Ok(rest) =>
        match ThrowItem(throws[0])
        case Some(n) => Ok([Pipe(n)] + rest)
        case None => if d.Baked? then Raised else Ok(rest)
  }

  function ThrowTerms(d: Dialect, throws: seq<string>): Result<seq<string>> {
    if throws == [] || "neutral" in throws || "none" in throws then Ok([])
    else
      match ThrowTexts(d, throws)
      case Raised => Raised
      case Ok(texts) => Ok([OrJoin(texts)])
  }

  function OtherTerm(d: Dialect, o: string, groups: seq<seq<string>>): Result<seq<string>> {
    if o == "capture" then
      match CaptureTerm(d, groups)
      case None => Ok([])
      case Some(t) => Ok([t])
    else
      match OtherNeed(o)
      case None => if d.Baked? then Raised else Ok([])
      case Some(None) => Ok([])
      case Some(Some(n)) => Ok([AtomText(NeedAtom(n))])
  }

  function OtherTerms(d: Dialect, other: seq<string>, groups: seq<seq<string>>): Result<seq<string>> {
    if other == [] then Ok([])
    else
      var n := |other| - 1;
      match OtherTerms(d, other[..n], groups)
      case Raised => Raised
      case Ok(front) =>
        match OtherTerm(d, other[n], groups)
        case Raised => Raised
        case Ok(last) => Ok(front + last)
  }

  function MethodText(d: Dialect, m: Method, groups: seq<seq<string>>): Result<string> {
    match ThrowTerms(d, m.throws)
    case Raised => Raised
    case Ok(throws) =>
      match OtherTerms(d, m.other, groups)
      case Raised => Raised
      case Ok(other) => Ok(Join2(d, JumpTerms(d, m.jump) + throws + other))
  }

  /** `compile_method`, growing its list of terms. */
  method CompileMethod(d: Dialect, m: Method, groups: seq<seq<string>>) returns (r: Result<string>)
    ensures r == MethodText(d, m, groups)
  {
    var terms := JumpTerms(d, m.jump);
    var throws := ThrowTerms(d, m.throws);
    if throws.Raised? {
      return Raised;
    }
    terms := terms + throws.value;
    var other := CollectOther(d, m.other, groups);
    if other.Raised? {
      return Raised;
    }
    terms := terms + other.value;
    return Ok(Join2(d, terms));
  }

  /** Its loop over `other_required`. */
  method CollectOther(d: Dialect, other: seq<string>, groups: seq<seq<string>>) returns (r: Result<seq<string>>)
    ensures r == OtherTerms(d, other, groups)
  {
    hide CaptureTerm, OtherNeed, PipeN;
    var terms: seq<string> := [];
    var i := 0;
    while i < |other|
      invariant 0 <= i <= |other|
      invariant OtherTerms(d, other[..i], groups) == Ok(terms)
    {
      var next := OtherTerm(d, other[i], groups);
      assert other[..i + 1][..i] == other[..i] && other[..i + 1][i] == other[i];
      if next.Raised? {
        OtherRaises(d, other, groups, i + 1);
        return Raised;
      }
      terms := terms + next.value;
      i := i + 1;
    }
    assert other[..i] == other;
    return Ok(terms);
  }

  lemma {:induction false} OtherRaises(d: Dialect, other: seq<string>, groups: seq<seq<string>>, k: nat)
    requires k <= |other| && OtherTerms(d, other[..k], groups).Raised?
    ensures OtherTerms(d, other, groups).Raised?
    decreases |other| - k
  {
    if k == |other| {
      assert other[..k] == other;
    } else {
      assert other[..k + 1][..k] == other[..k];
      OtherRaises(d, other, groups, k + 1);
    }
  }

  /** The distinct texts of the methods that are there, in order. */
  function MethodTexts(d: Dialect, methods: seq<Option<Method>>, groups: seq<seq<string>>): Result<seq<string>> {
    if methods == [] then Ok([])
    else
      var n := |methods| - 1;
      match MethodTexts(d, methods[..n], groups)
      case Raised => Raised
      case Ok(texts) => AddMethod(d, methods[n], groups, texts)
  }

  function AddMethod(d: Dialect, m: Option<Method>, groups: seq<seq<string>>, texts: seq<string>): Result<seq<string>> {
    match m
    case None => Ok(texts)
    case Some(m) =>
      match MethodText(d, m, groups)
      case Raised => Raised
      case Ok(t) => Ok(if t in texts then texts else texts + [t])
  }

  lemma NextMethod(d: Dialect, methods: seq<Option<Method>>, groups: seq<seq<string>>, i: nat, texts: seq<string>)
    requires i < |methods| && MethodTexts(d, methods[..i], groups) == Ok(texts)
    ensures MethodTexts(d, methods[..i + 1], groups) == AddMethod(d, methods[i], groups, texts)
  {
    assert methods[..i + 1][..i] == methods[..i];
    assert methods[..i + 1][i] == methods[i];
  }

  /** `compile_moon` and `compile_interior_requires`. */
  function MoonText(d: Dialect, rec: Record): Result<string> {
    match MethodTexts(d, rec.methods, rec.groups)
    case Raised => Raised
    case Ok(texts) => Ok(if "" in texts then "" else OrJoin(texts))
  }

  method CompileMoon(d: Dialect, rec: Record) returns (r: Result<string>)
    ensures r == MoonText(d, rec)
  {
    var exprs: seq<string> := [];
    var i := 0;
    while i < |rec.methods|
      invariant 0 <= i <= |rec.methods|
      invariant MethodTexts(d, rec.methods[..i], rec.groups) == Ok(exprs)
    {
      NextMethod(d, rec.methods, rec.groups, i, exprs);
      if rec.methods[i].Some? {
        var e := CompileMethod(d, rec.methods[i].value, rec.groups);
        if e.Raised? {
          MethodRaises(d, rec.methods, rec.groups, i + 1);
          return Raised;
        }
        if e.value !in exprs {
          exprs := exprs + [e.value];
        }
      }
      i := i + 1;
    }
    assert rec.methods[..|rec.methods|] == rec.methods;
    return Ok(if "" in exprs then "" else OrJoin(exprs));
  }

  lemma {:induction false} MethodRaises(d: Dialect, methods: seq<Option<Method>>, groups: seq<seq<string>>, k: nat)
    requires k <= |methods| && MethodTexts(d, methods[..k], groups).Raised?
    ensures MethodTexts(d, methods, groups).Raised?
    decreases |methods| - k
  {
    if k == |methods| {
      assert methods[..k] == methods;
    } else {
      assert methods[..k + 1][..k] == methods[..k];
      MethodRaises(d, methods, groups, k + 1);
    }
  }

  // ------------------------------------------------ what a record asks for

  /** The tier of height a jump reaches, from the apexes in the design notes. */
  function Tier(k: JumpKey): nat {
    match k
    case DoubleJump => 1
    case CapBounce | Backflip | SideFlip | SpinJump => 2
    case PoundJump => 3
    case TripleJump => 4
  }

  /** The tier a minimum height asks for. */
  function Floor(height: string): Option<nat> {
    if height == "double" then Some(1)
    else if height == "cap_return" || height == "backflip" then Some(2)
    else if height == "gpj" then Some(3)
    else if height == "triple" then Some(4)
    else None
  }

  predicate CanJump(k: JumpKey, counts: Counts) {
    match k
    case DoubleJump => counts("Progressive Jump") >= 1
    case TripleJump => counts("Progressive Jump") >= 2
    case CapBounce => counts("Cap Bounce") >= 1
    case Backflip => counts("Backflip") >= 1 && counts("Progressive Crouch") >= 1
    case SideFlip => counts("Side Flip") >= 1
    case SpinJump => counts("Spin") >= 1
    case PoundJump => counts("Ground Pound Jump") >= 1 && counts("Progressive Ground Pound") >= 1
  }

  /** Height is a floor: any known jump that reaches it will do. */
  predicate JumpMet(d: Dialect, jump: Option<string>, counts: Counts) {
    match jump
    case None => true
    case Some(h) =>
      if h == "long_jump" then counts("Long Jump") >= 1 && counts("Progressive Crouch") >= 1
      else
        match Floor(h)
        case None => true
        case Some(f) => exists k :: Tier(k) >= f && (d.Interior? ==> k != SpinJump) && CanJump(k, counts)
  }

  /** The words that a record may use for throws and for other needs. */
  const THROWS := ["up", "down", "spin"]
  const NEEDS := ["ground_pound", "dive", "crouch", "roll", "bonk_roll", "roll_boost", "wall_slide", "climb",
                  "cap_bounce", "single"]

  predicate CanThrow(t: string, counts: Counts) {
    || (t == "up" && counts("Up Throw") >= 1)
    || (t == "down" && counts("Down Throw") >= 1)
    || (t == "spin" && counts("Spin Throw") >= 1)
  }

  /** Any of the throws will do. */
  predicate ThrowsMet(throws: seq<string>, counts: Counts) {
    throws == [] || "neutral" in throws || "none" in throws || exists t :: t in throws && CanThrow(t, counts)
  }

  /** Captures that need no item: two everywhere, Broode's where rules are baked. */
  predicate AlwaysThere(d: Dialect, c: string) {
    c in ["Frog", "Chain Chomp"] || (d == Baked && c == "Broode's Chain Chomp")
  }

  /** Every capture of the group is free or owned. */
  predicate GroupMet(d: Dialect, g: seq<string>, counts: Counts) {
    forall c :: c in g ==> AlwaysThere(d, c) || counts(c) >= 1
  }

  predicate AllFree(d: Dialect, g: seq<string>) {
    forall c :: c in g ==> AlwaysThere(d, c)
  }

  /** Some group is met. */
  predicate SomeGroup(d: Dialect, groups: seq<seq<string>>, counts: Counts) {
    exists g :: g in groups && GroupMet(d, g, counts)
  }

  /** Some group of captures is owned in full, always-available ones counting as owned. */
  predicate CapturesMet(d: Dialect, groups: seq<seq<string>>, counts: Counts) {
    groups == [] || SomeGroup(d, groups, counts)
  }

  /** Moves are levels of a progressive item: a dive is the second of Ground Pound, a roll
      the second of Crouch and a roll boost its third. A single jump asks for nothing. */
  predicate CanDo(o: string, counts: Counts) {
    var pounds, crouches := counts("Progressive Ground Pound"), counts("Progressive Crouch");
    && (o == "ground_pound" ==> pounds >= 1)
    && (o == "dive" ==> pounds >= 2)
    && (o == "crouch" ==> crouches >= 1)
    && (o == "roll" || o == "bonk_roll" ==> crouches >= 2)
    && (o == "roll_boost" ==> crouches >= 3)
    && (o == "wall_slide" ==> counts("Wall Slide") >= 1)
    && (o == "climb" ==> counts("Climb") >= 1)
    && (o == "cap_bounce" ==> counts("Cap Bounce") >= 1)
  }

  predicate OtherMet(d: Dialect, o: string, groups: seq<seq<string>>, counts: Counts) {
    if o == "capture" then CapturesMet(d, groups, counts) else CanDo(o, counts)
  }

  predicate OthersMet(d: Dialect, other: seq<string>, groups: seq<seq<string>>, counts: Counts) {
    forall o :: o in other ==> OtherMet(d, o, groups, counts)
  }

  predicate MethodMet(d: Dialect, m: Method, groups: seq<seq<string>>, counts: Counts) {
    && JumpMet(d, m.jump, counts)
    && ThrowsMet(m.throws, counts)
    && OthersMet(d, m.other, groups, counts)
  }

  /** A moon asks for one of its methods, or for nothing when it has none. */
  predicate MoonMet(d: Dialect, rec: Record, counts: Counts) {
    (forall m :: m in rec.methods ==> m.None?) ||
    exists m :: m in rec.methods && m.Some? && MethodMet(d, m.value, rec.groups, counts)
  }

  /** Capture names are item names. */
  predicate GoodGroups(groups: seq<seq<string>>) {
    forall g, c :: g in groups && c in g ==> GoodName(c)
  }

  /** The words of one method. */
  predicate KnownMethod(m: Method) {
    && (forall t :: t in m.throws ==> t in THROWS || t == "neutral" || t == "none")
    && (forall o :: o in m.other ==> o == "capture" || o in NEEDS)
  }

  /** Every throw and every other need is a word there is. */
  predicate Known(rec: Record) {
    forall m :: m in rec.methods && m.Some? ==> KnownMethod(m.value)
  }

  /** The tables know exactly these words and ask for what they mean. */
  lemma ThrowMeans(t: string, counts: Counts)
    ensures ThrowItem(t).Some? <==> t in THROWS
    ensures CanThrow(t, counts) <==> ThrowItem(t).Some? && counts(ThrowItem(t).value) >= 1
  {
  }

  lemma NeedMeans(o: string, counts: Counts)
    ensures OtherNeed(o).Some? <==> o in NEEDS
    ensures CanDo(o, counts) <==>
            match OtherNeed(o)
            case Some(Some(n)) => counts(n.0) >= 1 && counts(n.0) >= n.1
            case _ => true
  {
  }

  lemma FreeMeans(d: Dialect)
    ensures forall c :: FreeCapture(d, c) <==> AlwaysThere(d, c)
  {
  }

  // ------------------------------------------------------------ the vocabulary

  lemma SmallCounts()
    ensures AllDigits("1") && AllDigits("2") && AllDigits("3")
    ensures NatValue("1") == 1 && NatValue("2") == 2 && NatValue("3") == 3
  {
    assert "1"[..0] == "" && "2"[..0] == "" && "3"[..0] == "";
    assert NatValue("") == 0;
  }

  /** Two items joined by `and`. */
  lemma PairReads(a: Atom, b: Atom, counts: Counts, calls: Calls)
    requires (a.Item? || a.ItemN?) && GoodAtom(a) && (b.Item? || b.ItemN?) && GoodAtom(b)
    ensures IsTerm(AndJoin([AtomText(a), AtomText(b)]), PLAIN_TERM)
    ensures CheckRequire(AndJoin([AtomText(a), AtomText(b)]), counts, calls) ==
            Ok(ItemMet(a, counts) && ItemMet(b, counts))
  {
    hide CheckRequire;
    ItemReads(a, counts, calls);
    ItemReads(b, counts, calls);
    PairText(AtomText(a), AtomText(b), counts, calls);
    TermsJoin([AtomText(a), AtomText(b)], PLAIN_TERM, counts, calls);
  }

  lemma PairText(a: string, b: string, counts: Counts, calls: Calls)
    ensures EachHolds([a, b], counts, calls) == (Holds(a, counts, calls) && Holds(b, counts, calls))
    ensures SomeHolds([a, b], counts, calls) == (Holds(a, counts, calls) || Holds(b, counts, calls))
  {
    assert [a, b] == [a] + [b];
    AppendHolds([a], [b], counts, calls);
    OneText(a, counts, calls);
    OneText(b, counts, calls);
  }

  lemma JumpReads(k: JumpKey, counts: Counts, calls: Calls)
    ensures IsTerm(JumpFrag(k), PLAIN_TERM)
    ensures CheckRequire(JumpFrag(k), counts, calls) == Ok(CanJump(k, counts))
  {
    SmallCounts();
    match k
    case DoubleJump =>
      Vocabulary.ProgressiveNames();
      ItemReads(ItemN("Progressive Jump", "1"), counts, calls);
    case TripleJump =>
      Vocabulary.ProgressiveNames();
      ItemReads(ItemN("Progressive Jump", "2"), counts, calls);
    case CapBounce =>
      Vocabulary.JumpNames();
      ItemReads(Item("Cap Bounce"), counts, calls);
    case Backflip =>
      Vocabulary.JumpNames();
      Vocabulary.ProgressiveNames();
      PairReads(Item("Backflip"), ItemN("Progressive Crouch", "1"), counts, calls);
    case SideFlip =>
      Vocabulary.JumpNames();
      ItemReads(Item("Side Flip"), counts, calls);
    case SpinJump =>
      Vocabulary.JumpNames();
      ItemReads(Item("Spin"), counts, calls);
    case PoundJump =>
      Vocabulary.LongNames();
      Vocabulary.ProgressiveNames();
      PairReads(Item("Ground Pound Jump"), ItemN("Progressive Ground Pound", "1"), counts, calls);
  }

  lemma LongJumpReads(counts: Counts, calls: Calls)
    ensures IsTerm(LongJumpFrag(), PLAIN_TERM)
    ensures CheckRequire(LongJumpFrag(), counts, calls) ==
            Ok(counts("Long Jump") >= 1 && counts("Progressive Crouch") >= 1)
  {
    Vocabulary.LongNames();
    Vocabulary.ProgressiveNames();
    SmallCounts();
    PairReads(Item("Long Jump"), ItemN("Progressive Crouch", "1"), counts, calls);
  }

  /** The table lists exactly the known jumps at or above the height's tier. */
  lemma SatisfiersAreTiers(d: Dialect, h: string)
    ensures Satisfiers(d, h).Some? <==> Floor(h).Some?
    ensures Satisfiers(d, h).Some? ==> Satisfiers(d, h).value != [] && forall k ::
              k in Satisfiers(d, h).value <==> Tier(k) >= Floor(h).value && (d.Interior? ==> k != SpinJump)
  {
    var vault := if d.Baked? then [CapBounce, Backflip, SideFlip, SpinJump, PoundJump, TripleJump]
                 else [CapBounce, Backflip, SideFlip, PoundJump, TripleJump];
    assert CapBounce in vault && Backflip in vault && SideFlip in vault && PoundJump in vault && TripleJump in vault;
    assert SpinJump in vault <==> d.Baked?;
  }

  lemma JumpTermsRead(d: Dialect, jump: Option<string>, counts: Counts, calls: Calls)
    ensures EachTerm(JumpTerms(d, jump), PLAIN_TERM)
    ensures EachHolds(JumpTerms(d, jump), counts, calls) == JumpMet(d, jump, counts)
  {
    if jump.Some? && jump.value == "long_jump" {
      LongJumpReads(counts, calls);
      OneText(LongJumpFrag(), counts, calls);
    } else if jump.Some? {
      HeightRead(d, jump.value, counts, calls);
    }
  }

  lemma HeightRead(d: Dialect, h: string, counts: Counts, calls: Calls)
    requires h != "long_jump"
    ensures EachTerm(JumpTerms(d, Some(h)), PLAIN_TERM)
    ensures EachHolds(JumpTerms(d, Some(h)), counts, calls) == JumpMet(d, Some(h), counts)
  {
    hide CheckRequire;
    SatisfiersAreTiers(d, h);
    match Satisfiers(d, h)
    case None =>
    case Some(ks) =>
      FragsRead(ks, counts, calls);
      OneText(OrJoin(Frags(ks)), counts, calls);
      assert SomeJump(ks, counts) ==
             (exists k :: Tier(k) >= Floor(h).value && (d.Interior? ==> k != SpinJump) && CanJump(k, counts));
  }

  predicate SomeJump(ks: seq<JumpKey>, counts: Counts) {
    exists k :: k in ks && CanJump(k, counts)
  }

  lemma FragsRead(ks: seq<JumpKey>, counts: Counts, calls: Calls)
    requires ks != []
    ensures IsTerm(OrJoin(Frags(ks)), PLAIN_TERM) && OrJoin(Frags(ks)) != ""
    ensures Holds(OrJoin(Frags(ks)), counts, calls) == SomeJump(ks, counts)
  {
    hide CheckRequire;
    var parts := Frags(ks);
    forall i | 0 <= i < |parts|
      ensures IsTerm(parts[i], PLAIN_TERM) && Holds(parts[i], counts, calls) == CanJump(ks[i], counts)
    {
      JumpReads(ks[i], counts, calls);
    }
    ByIndex(parts);
    TermsJoin(parts, PLAIN_TERM, counts, calls);
    HoldsAt(parts, counts, calls);
    if k :| k in ks && CanJump(k, counts) {
      var i :| 0 <= i < |ks| && ks[i] == k;
      assert Holds(parts[i], counts, calls);
    }
  }

  lemma ByIndex(parts: seq<string>)
    requires forall i :: 0 <= i < |parts| ==> IsTerm(parts[i], PLAIN_TERM)
    ensures EachTerm(parts, PLAIN_TERM)
  {
    forall q | q in parts
      ensures IsTerm(q, PLAIN_TERM)
    {
      var i :| 0 <= i < |parts| && parts[i] == q;
    }
  }

  lemma {:induction false} ThrowTextsRead(d: Dialect, throws: seq<string>, counts: Counts, calls: Calls)
    requires forall t :: t in throws ==> t in THROWS
    ensures ThrowTexts(d, throws).Ok? && |ThrowTexts(d, throws).value| == |throws|
    ensures forall i :: 0 <= i < |throws| ==>
              var q := ThrowTexts(d, throws).value[i];
              IsTerm(q, PLAIN_TERM) && Holds(q, counts, calls) == CanThrow(throws[i], counts)
  {
    hide CheckRequire, IsTerm, ThrowItem, Pipe, CanThrow;
    if throws != [] {
      ThrowMeans(throws[0], counts);
      assert throws[0] in throws && forall t :: t in throws[1..] ==> t in throws;
      ThrowTextsRead(d, throws[1..], counts, calls);
      ThrowReads(throws[0], counts, calls);
    }
  }

  lemma ThrowReads(t: string, counts: Counts, calls: Calls)
    requires t in THROWS
    ensures ThrowItem(t).Some?
    ensures var q := Pipe(ThrowItem(t).value);
            IsTerm(q, PLAIN_TERM) && Holds(q, counts, calls) == CanThrow(t, counts)
  {
    ThrowMeans(t, counts);
    Vocabulary.ThrowNames();
    ItemReads(Item(ThrowItem(t).value), counts, calls);
  }

  lemma ThrowTermsRead(d: Dialect, throws: seq<string>, counts: Counts, calls: Calls)
    requires forall t :: t in throws ==> t in THROWS || t == "neutral" || t == "none"
    ensures ThrowTerms(d, throws).Ok?
    ensures EachTerm(ThrowTerms(d, throws).value, PLAIN_TERM)
    ensures EachHolds(ThrowTerms(d, throws).value, counts, calls) == ThrowsMet(throws, counts)
  {
    hide CheckRequire, CanThrow;
    if throws != [] && "neutral" !in throws && "none" !in throws {
      ThrowTextsRead(d, throws, counts, calls);
      var parts := ThrowTexts(d, throws).value;
      ByIndex(parts);
      TermsJoin(parts, PLAIN_TERM, counts, calls);
      OneText(OrJoin(parts), counts, calls);
      HoldsAt(parts, counts, calls);
      if t :| t in throws && CanThrow(t, counts) {
        var i :| 0 <= i < |throws| && throws[i] == t;
        assert Holds(parts[i], counts, calls);
      }
      if i :| 0 <= i < |parts| && Holds(parts[i], counts, calls) {
        assert throws[i] in throws;
      }
    }
  }

  lemma GroupReads(d: Dialect, names: seq<string>, counts: Counts, calls: Calls)
    requires names != [] && (forall c :: c in names ==> GoodName(c))
    ensures IsTerm(Join2(d, Pipes(names)), PLAIN_TERM)
    ensures Holds(Join2(d, Pipes(names)), counts, calls) == forall c :: c in names ==> counts(c) >= 1
  {
    var parts := Pipes(names);
    forall i | 0 <= i < |parts|
      ensures IsTerm(parts[i], PLAIN_TERM) && Holds(parts[i], counts, calls) == (counts(names[i]) >= 1)
    {
      assert names[i] in names;
      ItemReads(Item(names[i]), counts, calls);
    }
    ByIndex(parts);
    TermsJoin(parts, PLAIN_TERM, counts, calls);
    HoldsAt(parts, counts, calls);
    OwnedAt(names, counts);
  }

  lemma OwnedAt(names: seq<string>, counts: Counts)
    ensures (forall c :: c in names ==> counts(c) >= 1) == forall i :: 0 <= i < |names| ==> counts(names[i]) >= 1
  {
    if forall c :: c in names ==> counts(c) >= 1 {
      assert forall i :: 0 <= i < |names| ==> names[i] in names;
    }
  }

  lemma GatingReads(d: Dialect, g: seq<string>, counts: Counts, calls: Calls)
    requires (forall c :: c in g ==> GoodName(c))
    ensures Gating(d, g) == [] <==> AllFree(d, g)
    ensures Gating(d, g) != [] ==>
              var q := Join2(d, Pipes(Gating(d, g)));
              IsTerm(q, PLAIN_TERM) && Holds(q, counts, calls) == GroupMet(d, g, counts)
  {
    hide CheckRequire;
    FreeMeans(d);
    var items := Gating(d, g);
    if items != [] {
      assert items[0] in items;
      GroupReads(d, items, counts, calls);
    } else {
      assert forall c :: c in g && !FreeCapture(d, c) ==> c in items;
    }
  }

  predicate SomeFree(d: Dialect, groups: seq<seq<string>>) {
    exists g :: g in groups && AllFree(d, g)
  }

  lemma {:induction false} GroupPartsRead(d: Dialect, groups: seq<seq<string>>, counts: Counts, calls: Calls)
    requires GoodGroups(groups)
    ensures GroupParts(d, groups).None? <==> SomeFree(d, groups)
    ensures GroupParts(d, groups).Some? ==>
              var parts := GroupParts(d, groups).value;
              && (groups != [] ==> parts != []) && EachTerm(parts, PLAIN_TERM)
              && SomeHolds(parts, counts, calls) == SomeGroup(d, groups, counts)
  {
    hide CheckRequire;
    if groups != [] {
      var g, rest := groups[0], groups[1..];
      assert g in groups && groups == [g] + rest;
      assert forall h :: h in rest ==> h in groups;
      GatingReads(d, g, counts, calls);
      GroupPartsRead(d, rest, counts, calls);
      GroupsHead(d, g, rest, counts);
      if Gating(d, g) != [] && GroupParts(d, rest).Some? {
        var q, parts := Join2(d, Pipes(Gating(d, g))), GroupParts(d, rest).value;
        OneText(q, counts, calls);
        AppendHolds([q], parts, counts, calls);
        AppendTerms([q], parts, PLAIN_TERM);
      }
    }
  }

  lemma GroupsHead(d: Dialect, g: seq<string>, rest: seq<seq<string>>, counts: Counts)
    ensures SomeFree(d, [g] + rest) == (AllFree(d, g) || SomeFree(d, rest))
    ensures SomeGroup(d, [g] + rest, counts) == (GroupMet(d, g, counts) || SomeGroup(d, rest, counts))
  {
    assert forall h :: h in [g] + rest <==> h == g || h in rest;
  }

  /** The capture term says that some group is met, and is missing only when one is met
      for free. */
  lemma CaptureReads(d: Dialect, groups: seq<seq<string>>, counts: Counts, calls: Calls)
    requires GoodGroups(groups)
    ensures CaptureTerm(d, groups).None? ==> CapturesMet(d, groups, counts)
    ensures CaptureTerm(d, groups).Some? ==>
              var q := CaptureTerm(d, groups).value;
              IsTerm(q, PLAIN_TERM) && Holds(q, counts, calls) == CapturesMet(d, groups, counts)
  {
    hide CheckRequire;
    GroupPartsRead(d, groups, counts, calls);
    if groups != [] {
      match GroupParts(d, groups)
      case None =>
        var g :| g in groups && AllFree(d, g);
        assert GroupMet(d, g, counts);
      case Some(parts) => TermsJoin(parts, PLAIN_TERM, counts, calls);
    }
  }

  lemma NeedGood(o: string)
    requires OtherNeed(o).Some? && OtherNeed(o).value.Some?
    ensures var a := NeedAtom(OtherNeed(o).value.value);
            GoodAtom(a) && (a.Item? || a.ItemN?)
  {
    Vocabulary.ProgressiveNames();
    Vocabulary.WallNames();
    Vocabulary.JumpNames();
  }

  lemma OtherReads(d: Dialect, o: string, groups: seq<seq<string>>, counts: Counts, calls: Calls)
    requires GoodGroups(groups) && (o == "capture" || o in NEEDS)
    ensures OtherTerm(d, o, groups).Ok?
    ensures EachTerm(OtherTerm(d, o, groups).value, PLAIN_TERM)
    ensures EachHolds(OtherTerm(d, o, groups).value, counts, calls) == OtherMet(d, o, groups, counts)
  {
    hide CanDo;
    NeedMeans(o, counts);
    if o == "capture" {
      CaptureReads(d, groups, counts, calls);
      if CaptureTerm(d, groups).Some? {
        OneText(CaptureTerm(d, groups).value, counts, calls);
      }
    } else if OtherNeed(o).value.Some? {
      NeedGood(o);
      var a := NeedAtom(OtherNeed(o).value.value);
      ItemReads(a, counts, calls);
      OneText(AtomText(a), counts, calls);
    }
  }

  lemma {:induction false} OtherTermsRead(d: Dialect, other: seq<string>, groups: seq<seq<string>>,
                                          counts: Counts, calls: Calls)
    requires GoodGroups(groups)
    requires forall o :: o in other ==> o == "capture" || o in NEEDS
    ensures OtherTerms(d, other, groups).Ok?
    ensures EachTerm(OtherTerms(d, other, groups).value, PLAIN_TERM)
    ensures EachHolds(OtherTerms(d, other, groups).value, counts, calls) == OthersMet(d, other, groups, counts)
  {
    hide CheckRequire;
    if other != [] {
      var n := |other| - 1;
      assert other == other[..n] + [other[n]];
      OtherTermsRead(d, other[..n], groups, counts, calls);
      OtherReads(d, other[n], groups, counts, calls);
      var front, last := OtherTerms(d, other[..n], groups).value, OtherTerm(d, other[n], groups).value;
      AppendHolds(front, last, counts, calls);
      AppendTerms(front, last, PLAIN_TERM);
      OthersLast(d, other[..n], other[n], groups, counts);
    }
  }

  lemma OthersLast(d: Dialect, front: seq<string>, o: string, groups: seq<seq<string>>, counts: Counts)
    ensures OthersMet(d, front + [o], groups, counts) ==
            (OthersMet(d, front, groups, counts) && OtherMet(d, o, groups, counts))
  {
    assert forall x :: x in front + [o] <==> x in front || x == o;
  }

  /** A method compiles to text that is read as "every one of its needs is met". */
  lemma MethodReads(d: Dialect, m: Method, groups: seq<seq<string>>, counts: Counts, calls: Calls)
    requires GoodGroups(groups) && KnownMethod(m)
    ensures MethodText(d, m, groups).Ok?
    ensures IsReq(MethodText(d, m, groups).value, PLAIN_TERM)
    ensures CheckRequire(MethodText(d, m, groups).value, counts, calls) == Ok(MethodMet(d, m, groups, counts))
  {
    hide CheckRequire;
    JumpTermsRead(d, m.jump, counts, calls);
    ThrowTermsRead(d, m.throws, counts, calls);
    OtherTermsRead(d, m.other, groups, counts, calls);
    var jump := JumpTerms(d, m.jump);
    var throws := ThrowTerms(d, m.throws).value;
    var other := OtherTerms(d, m.other, groups).value;
    AppendHolds(jump, throws, counts, calls);
    AppendTerms(jump, throws, PLAIN_TERM);
    AppendHolds(jump + throws, other, counts, calls);
    AppendTerms(jump + throws, other, PLAIN_TERM);
    AndJoinReads(jump + throws + other, PLAIN_TERM, counts, calls);
  }

  predicate SomeMethod(d: Dialect, methods: seq<Option<Method>>, groups: seq<seq<string>>, counts: Counts) {
    exists m :: m in methods && m.Some? && MethodMet(d, m.value, groups, counts)
  }

  predicate NoMethods(methods: seq<Option<Method>>) {
    forall m :: m in methods ==> m.None?
  }

  lemma NoTexts(d: Dialect, groups: seq<seq<string>>, counts: Counts, calls: Calls)
    ensures !SomeHolds([], counts, calls) && !SomeMethod(d, [], groups, counts)
  {
  }

  lemma {:induction false} MethodTextsRead(d: Dialect, methods: seq<Option<Method>>, groups: seq<seq<string>>,
                                           counts: Counts, calls: Calls)
    requires GoodGroups(groups)
    requires forall m :: m in methods && m.Some? ==> KnownMethod(m.value)
    ensures MethodTexts(d, methods, groups).Ok?
    ensures EachReq(MethodTexts(d, methods, groups).value, PLAIN_TERM)
    ensures MethodTexts(d, methods, groups).value == [] <==> NoMethods(methods)
    ensures SomeHolds(MethodTexts(d, methods, groups).value, counts, calls) == SomeMethod(d, methods, groups, counts)
  {
    hide CheckRequire, IsTerm, MethodText, KnownMethod, GoodGroups, MethodMet, SomeHolds, SomeMethod;
    if methods == [] {
      NoTexts(d, groups, counts, calls);
    } else {
      var n := |methods| - 1;
      var m, front := methods[n], methods[..n];
      assert m in methods && methods == front + [m];
      MethodTextsRead(d, front, groups, counts, calls);
      var texts := MethodTexts(d, front, groups).value;
      SomeMethodLast(d, front, m, groups, counts);
      if m.Some? {
        MethodReads(d, m.value, groups, counts, calls);
        var t := MethodText(d, m.value, groups).value;
        SomeHoldsLast(texts, t, counts, calls);
        assert !NoMethods(methods);
      }
    }
  }

  lemma SomeMethodLast(d: Dialect, front: seq<Option<Method>>, m: Option<Method>, groups: seq<seq<string>>,
                       counts: Counts)
    ensures SomeMethod(d, front + [m], groups, counts) ==
            (SomeMethod(d, front, groups, counts) || (m.Some? && MethodMet(d, m.value, groups, counts)))
    ensures NoMethods(front + [m]) == (NoMethods(front) && m.None?)
  {
    assert forall x :: x in front ==> x in front + [m];
    assert m in front + [m];
  }

  lemma SomeHoldsLast(texts: seq<string>, t: string, counts: Counts, calls: Calls)
    ensures SomeHolds(texts + [t], counts, calls) == (SomeHolds(texts, counts, calls) || Holds(t, counts, calls))
    ensures t in texts ==>
              SomeHolds(texts, counts, calls) == (SomeHolds(texts, counts, calls) || Holds(t, counts, calls))
  {
    AppendHolds(texts, [t], counts, calls);
    OneText(t, counts, calls);
  }

  /** The compiled text of every record over the known vocabulary is read, in every state,
      as "some method has all its needs met, or there is no method". */
  lemma MoonReads(d: Dialect, rec: Record, counts: Counts, calls: Calls)
    requires Known(rec) && GoodGroups(rec.groups)
    ensures MoonText(d, rec).Ok? && IsReq(MoonText(d, rec).value, PLAIN_TERM)
    ensures CheckRequire(MoonText(d, rec).value, counts, calls) == Ok(MoonMet(d, rec, counts))
  {
    hide CheckRequire;
    MethodTextsRead(d, rec.methods, rec.groups, counts, calls);
    var texts := MethodTexts(d, rec.methods, rec.groups).value;
    if "" in texts {
      EmptyHolds(counts, calls);
      assert SomeHolds(texts, counts, calls);
    } else {
      PlainShape(calls);
      OrJoinReads(texts, PLAIN_TERM, counts, calls);
      assert texts != [] ==> texts[0] in texts && texts[0] != "";
      assert SomeHolds(texts, counts, calls) == exists q :: q in texts && q != "" && Holds(q, counts, calls);
    }
  }

  /** End to end: the rule written for a moon, its own text with every gate joined on,
      holds exactly when the record is met and every gate holds. */
  lemma CompiledRuleCorrect(rec: Record, gates: seq<string>, p: Shape, counts: Counts, calls: Calls)
    requires Known(rec) && GoodGroups(rec.groups)
    requires EachReq(gates, p) && Stronger(p) && Within(PLAIN_TERM, p) && Disciplined(calls, p)
    ensures MoonText(Baked, rec).Ok?
    ensures IsReq(AndJoin([MoonText(Baked, rec).value] + gates), p)
    ensures CheckRequire(AndJoin([MoonText(Baked, rec).value] + gates), counts, calls) ==
            Ok(MoonMet(Baked, rec, counts) && EachHolds(gates, counts, calls))
  {
    hide CheckRequire;
    MoonReads(Baked, rec, counts, calls);
    var own := MoonText(Baked, rec).value;
    WidenReq(own, PLAIN_TERM, p);
    AppendHolds([own], gates, counts, calls);
    OneText(own, counts, calls);
    AndJoinReads([own] + gates, p, counts, calls);
  }

  // ------------------------------------------------------------- what raises

  /** A word that is none, in a list of throws that is looked at, or among the other needs. */
  predicate Misspelt(m: Method) {
    || ("neutral" !in m.throws && "none" !in m.throws && exists t :: t in m.throws && t !in THROWS)
    || exists o :: o in m.other && o != "capture" && o !in NEEDS
  }

  lemma {:induction false} ThrowsRaise(d: Dialect, throws: seq<string>)
    ensures ThrowTexts(d, throws).Raised? <==> d == Baked && exists t :: t in throws && t !in THROWS
  {
    hide ThrowItem;
    if throws != [] {
      assert throws == [throws[0]] + throws[1..];
      ThrowMeans(throws[0], (n: string) => 0);
      ThrowsRaise(d, throws[1..]);
    }
  }

  lemma {:induction false} OthersRaise(d: Dialect, other: seq<string>, groups: seq<seq<string>>)
    ensures OtherTerms(d, other, groups).Raised? <==>
            d == Baked && exists o :: o in other && o != "capture" && o !in NEEDS
  {
    hide OtherNeed, CaptureTerm;
    if other != [] {
      var n := |other| - 1;
      assert other == other[..n] + [other[n]];
      NeedMeans(other[n], (n: string) => 0);
      OthersRaise(d, other[..n], groups);
    }
  }

  lemma MethodRaised(d: Dialect, m: Method, groups: seq<seq<string>>)
    ensures MethodText(d, m, groups).Raised? <==> d == Baked && Misspelt(m)
  {
    hide ThrowTexts, OtherTerms, Join2, JumpTerms;
    ThrowsRaise(d, m.throws);
    OthersRaise(d, m.other, groups);
  }

  lemma {:induction false} MethodsRaised(d: Dialect, methods: seq<Option<Method>>, groups: seq<seq<string>>)
    ensures MethodTexts(d, methods, groups).Raised? <==>
            d == Baked && exists m :: m in methods && m.Some? && Misspelt(m.value)
    ensures MethodTexts(d, methods, groups).Ok? ==> NoRepeats(MethodTexts(d, methods, groups).value)
  {
    hide MethodText, Misspelt;
    if methods != [] {
      var n := |methods| - 1;
      assert methods == methods[..n] + [methods[n]];
      MethodsRaised(d, methods[..n], groups);
      if methods[n].Some? {
        MethodRaised(d, methods[n].value, groups);
      }
    }
  }

  /** The baked compiler raises exactly on a record with a word that is none, the other one on
      no record; and no alternative is compiled twice. */
  lemma MoonRaises(d: Dialect, rec: Record)
    ensures MoonText(d, rec).Raised? <==> d == Baked && exists m :: m in rec.methods && m.Some? && Misspelt(m.value)
    ensures MethodTexts(d, rec.methods, rec.groups).Ok? ==> NoRepeats(MethodTexts(d, rec.methods, rec.groups).value)
  {
    hide MethodTexts, Misspelt;
    MethodsRaised(d, rec.methods, rec.groups);
  }
}
