/** `main` of compile_moon_logic.py: which requirement is written for which location. */
module MoonTable {
  import opened Text
  import opened Syntax
  import opened RuleReader
  import opened Terms
  import opened MoonCompiler
  import opened MoonGates
  import Vocabulary

  /** A record of moon_requirements.json and the location it stands for, if any. */
  datatype Entry = Entry(location: string, rec: Record)

  /** A subarea whose own gate stands in for the rules of its moons. */
  datatype FullGated = FullGated(gate: string, members: seq<string>)

  /** What a run reads: the records, the full gates, the locations left to others and the
      tables behind the gates. */
  datatype Inputs = Inputs(entries: seq<Entry>, full: seq<FullGated>, junk: set<string>, ctx: Context)

  /** The last record for `name`. */
  function RecordOf(entries: seq<Entry>, name: string): Option<Record> {
    if entries == [] then None
    else
      var n := |entries| - 1;
      if entries[n].location == name && name != "" then Some(entries[n].rec) else RecordOf(entries[..n], name)
  }

  /** The gate of the last subarea that lists `name`. */
  function FullGateOf(full: seq<FullGated>, name: string): Option<string> {
    if full == [] then None
    else
      var n := |full| - 1;
      if name in full[n].members then Some(full[n].gate) else FullGateOf(full[..n], name)
  }

  function CompiledRule(entries: seq<Entry>, x: Inputs, name: string): Option<string> {
    if name in x.junk then None
    else
      match RecordOf(entries, name)
      case None => None
      case Some(rec) =>
        match MoonText(Baked, rec)
        case Raised => None
        case Ok(own) => Some(AndJoin([own] + GatesFor(name, x.ctx)))
  }

  /** What ends up as the requirement of `name`; None when the run leaves it alone. */
  function WrittenRule(x: Inputs, full: seq<FullGated>, name: string): Option<string> {
    if name !in x.junk && FullGateOf(full, name).Some? then FullGateOf(full, name)
    else CompiledRule(x.entries, x, name)
  }

  /** A record that has to be compiled and names a word the tables do not know. */
  predicate Unknown(e: Entry, junk: set<string>) {
    e.location != "" && e.location !in junk && MoonText(Baked, e.rec).Raised?
  }

  function RuleIn(m: map<string, string>, n: string): Option<string> {
    if n in m then Some(m[n]) else None
  }

  /** The table after the first records. */
  ghost predicate CompiledAll(m: map<string, string>, entries: seq<Entry>, x: Inputs) {
    forall n :: RuleIn(m, n) == CompiledRule(entries, x, n)
  }

  /** The table after the first full gates. */
  ghost predicate WrittenAll(m: map<string, string>, x: Inputs, full: seq<FullGated>) {
    forall n :: RuleIn(m, n) == WrittenRule(x, full, n)
  }

  /** The compile loop and the loop over the full gates after it. */
  method CompileTable(x: Inputs) returns (r: Result<map<string, string>>)
    ensures r.Raised? <==> exists e :: e in x.entries && Unknown(e, x.junk)
    ensures r.Ok? ==> WrittenAll(r.value, x, x.full)
    ensures r.Ok? ==> forall n :: n in r.value <==> n !in x.junk && (Recorded(x.entries, n) || Gated(x.full, n))
  {
    hide MoonText, AndJoin, GatesFor, CompiledAll, Recorded, Gated;
    var compiled: map<string, string> := map[];
    var i := 0;
    NoEntries(x);
    while i < |x.entries|
      invariant 0 <= i <= |x.entries|
      invariant forall e :: e in x.entries[..i] ==> !Unknown(e, x.junk)
      invariant CompiledAll(compiled, x.entries[..i], x)
    {
      var e := x.entries[i];
      assert x.entries[..i + 1] == x.entries[..i] + [e];
      NextEntry(compiled, x, i);
      if e.location != "" && e.location !in x.junk {
        var base := CompileMoon(Baked, e.rec);
        if base.Raised? {
          assert Unknown(e, x.junk);
          return Raised;
        }
        var gates := CollectGates(e.location, x.ctx);
        compiled := compiled[e.location := AndJoin([base.value] + gates)];
      }
      i := i + 1;
    }
    assert x.entries[..i] == x.entries;
    compiled := ReplaceGated(x, compiled);
    forall n
      ensures n in compiled <==> n !in x.junk && (Recorded(x.entries, n) || Gated(x.full, n))
    {
      assert RuleIn(compiled, n) == WrittenRule(x, x.full, n);
      RuleWritten(x, n);
    }
    r := Ok(compiled);
  }

  predicate Recorded(entries: seq<Entry>, name: string) {
    name != "" && exists e :: e in entries && e.location == name
  }

  predicate Gated(full: seq<FullGated>, name: string) {
    exists f :: f in full && name in f.members
  }

  lemma {:induction false} RecordOfAny(entries: seq<Entry>, name: string)
    ensures RecordOf(entries, name).Some? <==> Recorded(entries, name)
    ensures RecordOf(entries, name).Some? ==>
              exists e :: e in entries && e.location == name && e.rec == RecordOf(entries, name).value
  {
    if entries != [] {
      assert entries == entries[..|entries| - 1] + [entries[|entries| - 1]];
      RecordOfAny(entries[..|entries| - 1], name);
    }
  }

  lemma {:induction false} FullGateOfAny(full: seq<FullGated>, name: string)
    ensures FullGateOf(full, name).Some? <==> Gated(full, name)
  {
    if full != [] {
      assert full == full[..|full| - 1] + [full[|full| - 1]];
      FullGateOfAny(full[..|full| - 1], name);
    }
  }

  /** Where every record can be compiled: the names that get a rule. */
  lemma RuleWritten(x: Inputs, name: string)
    requires forall e :: e in x.entries ==> !Unknown(e, x.junk)
    ensures WrittenRule(x, x.full, name).Some? <==>
            name !in x.junk && (Recorded(x.entries, name) || Gated(x.full, name))
  {
    hide MoonText, AndJoin, GatesFor, Recorded, Gated, RecordOf, FullGateOf;
    RecordOfAny(x.entries, name);
    FullGateOfAny(x.full, name);
    if name !in x.junk && RecordOf(x.entries, name).Some? {
      var e :| e in x.entries && e.location == name && e.rec == RecordOf(x.entries, name).value;
      assert name != "" by {
        Nameless(x.entries, name);
      }
      assert !Unknown(e, x.junk);
    }
  }

  lemma Nameless(entries: seq<Entry>, name: string)
    requires Recorded(entries, name)
    ensures name != ""
  {
  }

  lemma NoEntries(x: Inputs)
    ensures CompiledAll(map[], x.entries[..0], x)
  {
  }

  lemma NextRecord(entries: seq<Entry>, i: nat, n: string)
    requires i < |entries|
    ensures RecordOf(entries[..i + 1], n) ==
            if entries[i].location == n && n != "" then Some(entries[i].rec) else RecordOf(entries[..i], n)
  {
    var more := entries[..i + 1];
    assert more[..i] == entries[..i] && more[i] == entries[i] && |more| == i + 1;
  }

  lemma NextEntry(m: map<string, string>, x: Inputs, i: nat)
    requires i < |x.entries| && CompiledAll(m, x.entries[..i], x)
    ensures var e := x.entries[i];
            if e.location == "" || e.location in x.junk then CompiledAll(m, x.entries[..i + 1], x)
            else MoonText(Baked, e.rec).Ok? ==>
              var rule := AndJoin([MoonText(Baked, e.rec).value] + GatesFor(e.location, x.ctx));
              CompiledAll(m[e.location := rule], x.entries[..i + 1], x)
  {
    hide MoonText, AndJoin, GatesFor, RecordOf;
    var e := x.entries[i];
    var taken := e.location != "" && e.location !in x.junk && MoonText(Baked, e.rec).Ok?;
    var more := if taken then m[e.location := AndJoin([MoonText(Baked, e.rec).value] + GatesFor(e.location, x.ctx))]
                else m;
    if taken || e.location == "" || e.location in x.junk {
      forall n
        ensures RuleIn(more, n) == CompiledRule(x.entries[..i + 1], x, n)
      {
        NextRecord(x.entries, i, n);
        assert RuleIn(m, n) == CompiledRule(x.entries[..i], x, n);
      }
    }
  }

  method ReplaceGated(x: Inputs, before: map<string, string>) returns (compiled: map<string, string>)
    requires CompiledAll(before, x.entries, x)
    ensures WrittenAll(compiled, x, x.full)
  {
    hide CompiledAll, WrittenAll;
    compiled := before;
    var i := 0;
    NoGated(before, x);
    while i < |x.full|
      invariant 0 <= i <= |x.full|
      invariant WrittenAll(compiled, x, x.full[..i])
    {
      ghost var start := compiled;
      compiled := ReplaceMembers(compiled, x.full[i], x.junk);
      NextGated(start, compiled, x, i);
      i := i + 1;
    }
    assert x.full[..i] == x.full;
  }

  lemma NoGated(m: map<string, string>, x: Inputs)
    requires CompiledAll(m, x.entries, x)
    ensures WrittenAll(m, x, x.full[..0])
  {
  }

  lemma NextGated(start: map<string, string>, m: map<string, string>, x: Inputs, i: nat)
    requires i < |x.full| && WrittenAll(start, x, x.full[..i])
    requires forall n :: RuleIn(m, n) ==
                         if n in x.full[i].members && n !in x.junk then Some(x.full[i].gate) else RuleIn(start, n)
    ensures WrittenAll(m, x, x.full[..i + 1])
  {
    hide CompiledRule, RuleIn;
    assert x.full[..i + 1][..i] == x.full[..i];
  }

  /** One full gate goes to every member that is not left to others. */
  method ReplaceMembers(start: map<string, string>, f: FullGated, junk: set<string>)
    returns (compiled: map<string, string>)
    ensures forall n :: RuleIn(compiled, n) ==
                        if n in f.members && n !in junk then Some(f.gate) else RuleIn(start, n)
  {
    compiled := start;
    var k := 0;
    while k < |f.members|
      invariant 0 <= k <= |f.members|
      invariant forall n :: RuleIn(compiled, n) ==
                            if n in f.members[..k] && n !in junk then Some(f.gate) else RuleIn(start, n)
    {
      assert f.members[..k + 1] == f.members[..k] + [f.members[k]];
      if f.members[k] !in junk {
        compiled := compiled[f.members[k] := f.gate];
      }
      k := k + 1;
    }
    assert f.members[..k] == f.members;
  }

  // ------------------------------------------------------------- what it means

  /** Every record can be compiled, and all recorded gates are requirements of shape `p`. */
  ghost predicate GoodInputs(x: Inputs, p: Shape) {
    && (forall e :: e in x.entries ==> Known(e.rec) && GoodGroups(e.rec.groups))
    && (forall f :: f in x.full ==> IsReq(f.gate, p))
    && GoodContext(x.ctx, p)
  }

  /** What a location asks for: its subarea's full gate where there is one, else one way to
      the moon and everything about the place. */
  predicate Asked(x: Inputs, name: string, counts: Counts, calls: Calls) {
    match FullGateOf(x.full, name)
    case Some(gate) => Holds(gate, counts, calls)
    case None =>
      match RecordOf(x.entries, name)
      case None => false
      case Some(rec) => MoonMet(Baked, rec, counts) && PlaceMet(name, x.ctx, counts, calls)
  }

  lemma {:induction false} RecordIn(entries: seq<Entry>, name: string)
    ensures RecordOf(entries, name).Some? ==> exists e :: e in entries && e.rec == RecordOf(entries, name).value
  {
    if entries != [] && !(entries[|entries| - 1].location == name && name != "") {
      RecordIn(entries[..|entries| - 1], name);
    }
  }

  lemma {:induction false} FullGateIn(full: seq<FullGated>, name: string)
    ensures FullGateOf(full, name).Some? ==>
              exists f :: f in full && name in f.members && f.gate == FullGateOf(full, name).value
  {
    if full != [] && name !in full[|full| - 1].members {
      FullGateIn(full[..|full| - 1], name);
    }
  }

  /** Of every location that is not left to others and has a record or a full gate: a rule
      is written, and the rule reader accepts it exactly when what is asked for is met. */
  lemma WrittenRuleCorrect(x: Inputs, name: string, p: Shape, counts: Counts, calls: Calls)
    requires GoodInputs(x, p) && Within(PLAIN_TERM, p) && Stronger(p) && Disciplined(calls, p)
    requires name !in x.junk && (FullGateOf(x.full, name).Some? || RecordOf(x.entries, name).Some?)
    ensures WrittenRule(x, x.full, name).Some? && IsReq(WrittenRule(x, x.full, name).value, p)
    ensures Holds(WrittenRule(x, x.full, name).value, counts, calls) <==> Asked(x, name, counts, calls)
  {
    hide CheckRequire, MoonText, MoonMet, PlaceMet, AndJoin, GatesFor;
    FullGateIn(x.full, name);
    if FullGateOf(x.full, name).None? {
      RecordIn(x.entries, name);
      LocationRuleCorrect(name, RecordOf(x.entries, name).value, x.ctx, p, counts, calls);
    }
  }

  // ---------------------------------------------------- the one full gate there is

  const SAND_PEACE := Call("SandPeace", "")

  const BULLET := Pipe("Bullet Bill")
  const DIVE := PipeN("Progressive Ground Pound", "2")
  const SLIDE := Pipe("Wall Slide")

  /** `(|Bullet Bill| and |Progressive Ground Pound:2| and |Wall Slide|)`. */
  const JAXI_MOVES := "(" + (BULLET + " and " + (DIVE + " and " + SLIDE)) + ")"

  /** `({SandPeace()} or (..))`. */
  const JAXI_GATE := "(" + (AtomText(SAND_PEACE) + " or " + JAXI_MOVES) + ")"

  lemma AndThree(a: string, b: string, c: string)
    requires a != "" && b != "" && c != "" && a != b && a != c && b != c
    ensures AndJoin([a, b, c]) == "(" + (a + " and " + (b + " and " + c)) + ")"
  {
    assert [a, b, c][1..] == [b, c] && [b, c][1..] == [c] && [c][1..] == [];
    var none: set<string> := {};
    assert Distinct([c], none + {a} + {b}) == [c];
    assert Distinct([b, c], none + {a}) == [b] + [c] == [b, c];
    assert Distinct([a, b, c], none) == [a] + [b, c] == [a, b, c];
    assert WordText(AND) == " and ";
    assert Join(" and ", [b, c]) == b + " and " + c;
  }

  lemma OrTwo(a: string, b: string)
    requires a != "" && b != ""
    ensures OrJoin([a, b]) == "(" + (a + " or " + b) + ")"
  {
    assert [a, b][1..] == [b] && [b][1..] == [];
    var none: seq<string> := [];
    assert NonEmpty(none) == none && [b] + none == [b];
    assert NonEmpty([b]) == [b] + NonEmpty([b][1..]) == [b];
    assert NonEmpty([a, b]) == [a] + NonEmpty([a, b][1..]) == [a] + [b] == [a, b];
    assert WordText(OR) == " or ";
    assert Join(" or ", [b]) == b && Join(" or ", [a, b]) == a + " or " + b;
  }

  lemma JaxiText()
    ensures JAXI_MOVES == AndJoin([BULLET, DIVE, SLIDE])
    ensures JAXI_GATE == OrJoin([AtomText(SAND_PEACE), JAXI_MOVES])
  {
    hide AndJoin, OrJoin;
    assert |BULLET| == 13 && |DIVE| == 28 && |SLIDE| == 12;
    AndThree(BULLET, DIVE, SLIDE);
    OrTwo(AtomText(SAND_PEACE), JAXI_MOVES);
  }

  lemma JaxiMovesRead(counts: Counts, calls: Calls)
    ensures IsTerm(JAXI_MOVES, PLAIN_TERM)
    ensures Holds(JAXI_MOVES, counts, calls) ==
            (counts("Bullet Bill") >= 1 && counts("Progressive Ground Pound") >= 2 && counts("Wall Slide") >= 1)
  {
    hide CheckRequire, AndJoin, AtomText;
    JaxiText();
    Vocabulary.CaveNames();
    OwnReads("Bullet Bill", counts, calls);
    Vocabulary.ProgressiveNames();
    SmallCounts();
    ItemReads(ItemN("Progressive Ground Pound", "2"), counts, calls);
    Vocabulary.WallNames();
    OwnReads("Wall Slide", counts, calls);
    ThreeRead(BULLET, DIVE, SLIDE, counts, calls);
  }

  /** Items and the peace of Sand. */
  const PEACE_TERM := Shape((a: Atom) => IsNeed(a) || a == SAND_PEACE, true)

  lemma PeaceShape(calls: Calls)
    requires SealedAnswer(calls("SandPeace", ""))
    ensures Stronger(PEACE_TERM) && Within(PLAIN_TERM, PEACE_TERM) && Disciplined(calls, PEACE_TERM)
  {
    hide SealedAnswer;
  }

  lemma PeaceReads(counts: Counts, calls: Calls)
    requires SealedAnswer(calls("SandPeace", ""))
    ensures IsTerm(AtomText(SAND_PEACE), PEACE_TERM)
    ensures Holds(AtomText(SAND_PEACE), counts, calls) == Truth(counts, calls)(SAND_PEACE)
  {
    hide CheckRequire, SealedAnswer, Truth;
    LeafText(SAND_PEACE);
    PeaceShape(calls);
    assert TermTree(Leaf(SAND_PEACE), PEACE_TERM);
    ReadTree(Leaf(SAND_PEACE), PEACE_TERM, counts, calls);
  }

  /** Jaxi driving opens with the peace of Sand, whatever its rule function says that is, or
      with the three moves of the hard way. */
  lemma JaxiReads(counts: Counts, calls: Calls)
    requires SealedAnswer(calls("SandPeace", ""))
    ensures IsReq(JAXI_GATE, PEACE_TERM)
    ensures Holds(JAXI_GATE, counts, calls) <==>
            || Truth(counts, calls)(SAND_PEACE)
            || (counts("Bullet Bill") >= 1 && counts("Progressive Ground Pound") >= 2 && counts("Wall Slide") >= 1)
  {
    hide CheckRequire, AtomText, OrJoin, Truth, SealedAnswer;
    JaxiText();
    PeaceShape(calls);
    PeaceReads(counts, calls);
    JaxiMovesRead(counts, calls);
    WidenReq(JAXI_MOVES, PLAIN_TERM, PEACE_TERM);
    PairText(AtomText(SAND_PEACE), JAXI_MOVES, counts, calls);
    TermsJoin([AtomText(SAND_PEACE), JAXI_MOVES], PEACE_TERM, counts, calls);
  }

  // ------------------------------------------------------------ which entry counts

  /** Of several records for a location the last one counts, and so of several full gates. */
  lemma LastCounts(entries: seq<Entry>, e: Entry, full: seq<FullGated>, f: FullGated, name: string)
    ensures name != "" ==> RecordOf(entries + [e], name) ==
                           if e.location == name then Some(e.rec) else RecordOf(entries, name)
    ensures FullGateOf(full + [f], name) == if name in f.members then Some(f.gate) else FullGateOf(full, name)
    ensures RecordOf([], name) == None && FullGateOf([], name) == None && RecordOf(entries, "") == None
  {
    assert (entries + [e])[..|entries|] == entries && (full + [f])[..|full|] == full;
    NoLocation(entries);
  }

  lemma {:induction false} NoLocation(entries: seq<Entry>)
    ensures RecordOf(entries, "") == None
  {
    if entries != [] {
      NoLocation(entries[..|entries| - 1]);
    }
  }

  /** The run is stopped by a record with a word that is none, and by nothing else. */
  lemma UnknownMeans(e: Entry, junk: set<string>)
    ensures Unknown(e, junk) <==>
            && e.location != "" && e.location !in junk
            && exists m :: m in e.rec.methods && m.Some? && Misspelt(m.value)
  {
    hide MoonText, Misspelt;
    MoonRaises(Baked, e.rec);
  }
}
