/** The interior compiler of entrance_logic.py beside the moon compiler it is said to mirror. */
module CompilersAgree {
  import opened Text
  import opened Syntax
  import opened Splice
  import opened RuleReader
  import opened Terms
  import opened MoonCompiler
  import DoorReader
  import Vocabulary

  lemma JumpLaxer(jump: Option<string>, counts: Counts)
    requires JumpMet(Interior, jump, counts)
    ensures JumpMet(Baked, jump, counts)
  {
    if jump.Some? && jump.value != "long_jump" && Floor(jump.value).Some? {
      var k :| Tier(k) >= Floor(jump.value).value && k != SpinJump && CanJump(k, counts);
    }
  }

  lemma CapturesLaxer(groups: seq<seq<string>>, counts: Counts)
    requires CapturesMet(Interior, groups, counts)
    ensures CapturesMet(Baked, groups, counts)
  {
    if groups != [] {
      var g :| g in groups && GroupMet(Interior, g, counts);
      assert GroupMet(Baked, g, counts);
    }
  }

  lemma MethodLaxer(m: Method, groups: seq<seq<string>>, counts: Counts)
    requires MethodMet(Interior, m, groups, counts)
    ensures MethodMet(Baked, m, groups, counts)
  {
    JumpLaxer(m.jump, counts);
    forall o | o in m.other
      ensures OtherMet(Baked, o, groups, counts)
    {
      assert OtherMet(Interior, o, groups, counts);
      if o == "capture" {
        CapturesLaxer(groups, counts);
      }
    }
  }

  /** The interior compiler is never laxer than the baked one: on every record over the
      shared vocabulary, whatever its one-pass reader accepts the rule reader accepts. */
  lemma InteriorNeverLaxer(rec: Record, counts: Counts, calls: Calls)
    requires Known(rec) && GoodGroups(rec.groups)
    ensures MoonText(Interior, rec).Ok? && MoonText(Baked, rec).Ok?
    ensures DoorReader.EvalInterior(MoonText(Interior, rec).value, counts) == Ok(MoonMet(Interior, rec, counts))
    ensures DoorReader.EvalInterior(MoonText(Interior, rec).value, counts) == Ok(true) ==>
            Holds(MoonText(Baked, rec).value, counts, calls)
  {
    hide CheckRequire, DoorReader.EvalInterior, MoonText, MoonMet;
    MoonReads(Interior, rec, counts, calls);
    MoonReads(Baked, rec, counts, calls);
    DoorReadsReq(MoonText(Interior, rec).value, counts, calls);
    if MoonMet(Interior, rec, counts) {
      MoonLaxer(rec, counts);
    }
  }

  /** Item-only text reads the same for the rule reader and in one pass. */
  lemma DoorReadsReq(t: string, counts: Counts, calls: Calls)
    requires IsReq(t, PLAIN_TERM)
    ensures DoorReader.EvalInterior(t, counts) == CheckRequire(t, counts, calls)
  {
    if t != "" {
      var u := TermOf(t, PLAIN_TERM);
      WeakenUnit(u, IsNeed, IsPlain);
      DoorReader.ReplaceAllRefinesOnePass(One(u), counts, calls);
    }
  }

  lemma MoonLaxer(rec: Record, counts: Counts)
    requires GoodGroups(rec.groups) && MoonMet(Interior, rec, counts)
    ensures MoonMet(Baked, rec, counts)
  {
    if !NoMethods(rec.methods) {
      var m :| m in rec.methods && m.Some? && MethodMet(Interior, m.value, rec.groups, counts);
      MethodLaxer(m.value, rec.groups, counts);
    }
  }

  // --------------------------------------------------- when they do agree

  /** Broode's Chain Chomp is owned, and a spin jump is not the only way to a height of
      tier two. */
  predicate NothingMissing(counts: Counts) {
    && counts("Broode's Chain Chomp") >= 1
    && (counts("Spin") >= 1 ==> exists k :: k != SpinJump && Tier(k) >= 2 && CanJump(k, counts))
  }

  lemma JumpStricter(jump: Option<string>, counts: Counts)
    requires NothingMissing(counts) && JumpMet(Baked, jump, counts)
    ensures JumpMet(Interior, jump, counts)
  {
    if jump.Some? && jump.value != "long_jump" && Floor(jump.value).Some? {
      var f := Floor(jump.value).value;
      var k :| Tier(k) >= f && CanJump(k, counts);
      if k == SpinJump {
        var other :| other != SpinJump && Tier(other) >= 2 && CanJump(other, counts);
        assert Tier(other) >= f;
      }
    }
  }

  lemma CapturesStricter(groups: seq<seq<string>>, counts: Counts)
    requires NothingMissing(counts) && CapturesMet(Baked, groups, counts)
    ensures CapturesMet(Interior, groups, counts)
  {
    if groups != [] {
      var g :| g in groups && GroupMet(Baked, g, counts);
      assert GroupMet(Interior, g, counts);
    }
  }

  lemma MethodStricter(m: Method, groups: seq<seq<string>>, counts: Counts)
    requires NothingMissing(counts) && MethodMet(Baked, m, groups, counts)
    ensures MethodMet(Interior, m, groups, counts)
  {
    hide NothingMissing;
    JumpStricter(m.jump, counts);
    forall o | o in m.other
      ensures OtherMet(Interior, o, groups, counts)
    {
      assert OtherMet(Baked, o, groups, counts);
      if o == "capture" {
        CapturesStricter(groups, counts);
      }
    }
  }

  lemma MoonStricter(rec: Record, counts: Counts)
    requires NothingMissing(counts) && MoonMet(Baked, rec, counts)
    ensures MoonMet(Interior, rec, counts)
  {
    hide NothingMissing;
    if !NoMethods(rec.methods) {
      var m :| m in rec.methods && m.Some? && MethodMet(Baked, m.value, rec.groups, counts);
      MethodStricter(m.value, rec.groups, counts);
    }
  }

  /** A record whose one method is `m`. */
  function OneWay(m: Method, groups: seq<seq<string>>): Record {
    Record([Some(m)], groups)
  }

  lemma OneWayMet(d: Dialect, m: Method, groups: seq<seq<string>>, counts: Counts)
    ensures MoonMet(d, OneWay(m, groups), counts) == MethodMet(d, m, groups, counts)
  {
    assert Some(m) in [Some(m)];
  }

  /** A moon behind Broode's Chain Chomp. */
  lemma ChompSeparates(counts: Counts, c: string) returns (rec: Record)
    requires c == "Broode's Chain Chomp" && counts(c) < 1
    ensures Known(rec) && (forall g, n :: g in rec.groups && n in g ==> n == c)
    ensures MoonMet(Baked, rec, counts) && !MoonMet(Interior, rec, counts)
  {
    var m, g := Method(None, [], ["capture"]), [c];
    rec := OneWay(m, [g]);
    assert AlwaysThere(Baked, c) && !AlwaysThere(Interior, c);
    assert g[0] == c && [g][0] == g && m.other[0] == "capture";
    assert GroupMet(Baked, g, counts) && !GroupMet(Interior, g, counts);
    assert OtherMet(Baked, "capture", [g], counts) && !OtherMet(Interior, "capture", [g], counts);
    OneWayMet(Baked, m, [g], counts);
    OneWayMet(Interior, m, [g], counts);
  }

  /** A moon of height tier two. */
  lemma SpinSeparates(counts: Counts) returns (rec: Record)
    requires counts("Spin") >= 1 && forall k :: k != SpinJump && Tier(k) >= 2 ==> !CanJump(k, counts)
    ensures Known(rec) && rec.groups == []
    ensures MoonMet(Baked, rec, counts) && !MoonMet(Interior, rec, counts)
  {
    var m := Method(Some("backflip"), [], []);
    rec := OneWay(m, []);
    assert Tier(SpinJump) >= 2 && CanJump(SpinJump, counts);
    OneWayMet(Baked, m, [], counts);
    OneWayMet(Interior, m, [], counts);
  }

  /** In every other state some record separates them. */
  lemma InteriorStricter(counts: Counts) returns (rec: Record)
    requires !NothingMissing(counts)
    ensures Known(rec) && GoodGroups(rec.groups)
    ensures MoonMet(Baked, rec, counts) && !MoonMet(Interior, rec, counts)
  {
    hide GoodName, MoonMet, Known;
    if counts("Broode's Chain Chomp") < 1 {
      rec := ChompSeparates(counts, "Broode's Chain Chomp");
      Vocabulary.BossNames();
    } else {
      rec := SpinSeparates(counts);
    }
  }

  /** Each compiler's text, put to its own reader, gives the same answer. */
  ghost predicate AcceptAlike(rec: Record, counts: Counts, calls: Calls) {
    match (MoonText(Interior, rec), MoonText(Baked, rec))
    case (Ok(inside), Ok(baked)) =>
      DoorReader.EvalInterior(inside, counts) == Ok(true) <==> Holds(baked, counts, calls)
    case _ => false
  }

  ghost predicate AlwaysAlike(counts: Counts, calls: Calls) {
    forall rec :: Known(rec) && GoodGroups(rec.groups) ==> AcceptAlike(rec, counts, calls)
  }

  lemma AlikeMeans(rec: Record, counts: Counts, calls: Calls)
    requires Known(rec) && GoodGroups(rec.groups)
    ensures AcceptAlike(rec, counts, calls) <==> (MoonMet(Interior, rec, counts) <==> MoonMet(Baked, rec, counts))
  {
    hide CheckRequire, DoorReader.EvalInterior, MoonText, MoonMet;
    MoonReads(Interior, rec, counts, calls);
    MoonReads(Baked, rec, counts, calls);
    DoorReadsReq(MoonText(Interior, rec).value, counts, calls);
  }

  /** The two compilers accept the same on every record in exactly the states in which the
      missing free capture is owned and the missing jump is not needed. */
  lemma MirrorsExactlyWhen(counts: Counts, calls: Calls)
    ensures AlwaysAlike(counts, calls) <==> NothingMissing(counts)
  {
    hide AcceptAlike, MoonMet, NothingMissing;
    if NothingMissing(counts) {
      forall rec | Known(rec) && GoodGroups(rec.groups)
        ensures AcceptAlike(rec, counts, calls)
      {
        AlikeMeans(rec, counts, calls);
        if MoonMet(Interior, rec, counts) {
          MoonLaxer(rec, counts);
        }
        if MoonMet(Baked, rec, counts) {
          MoonStricter(rec, counts);
        }
      }
    } else {
      var rec := InteriorStricter(counts);
      AlikeMeans(rec, counts, calls);
    }
  }
}
