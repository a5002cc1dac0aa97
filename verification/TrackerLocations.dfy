/** The access rules the tracker pack ships for a location (`emit_locations` of
    build_poptracker_pack.py), and that they say what the logic says. */
module TrackerLocations {
  import opened Text
  import opened ReadersAgree
  import opened RuleReader
  import opened Terms
  import opened Dnf
  import opened PackRules
  import opened RegionPrereqs
  import opened RegionTable
  import opened TrackerText
  import opened PackState
  import opened MoonTable

  /** What a location adds to its own requirement and its region's: the terms of the
      options its categories depend on, the goal when it is a victory location, and
      whether it is out of the festival's scope or blocked by Talkatoo. */
  datatype Extras = Extras(options: seq<string>, goal: Option<nat>, outOfFestival: bool, talkatoo: bool)

  function OptionTerm(opt: string): string {
    "$is_opt|" + opt
  }

  function GoalTerm(goal: nat): string {
    "$is_goal|" + NatText(goal)
  }

  const TALKATOO_OFF := "$is_opt_off|talkatoo_mode"

  predicate IsOptionOf(t: string, categories: seq<string>, gates: map<string, seq<string>>) {
    exists c :: c in categories && c in gates && exists o :: o in gates[c] && t == OptionTerm(o)
  }

  /** The option terms of a location's categories, each once. */
  method OptionTerms(categories: seq<string>, gates: map<string, seq<string>>) returns (terms: seq<string>)
    ensures forall t :: t in terms <==> IsOptionOf(t, categories, gates)
    ensures forall i, j :: 0 <= i < j < |terms| ==> terms[i] != terms[j]
  {
    terms := [];
    var i := 0;
    while i < |categories|
      invariant 0 <= i <= |categories|
      invariant forall t :: t in terms <==> IsOptionOf(t, categories[..i], gates)
      invariant forall i, j :: 0 <= i < j < |terms| ==> terms[i] != terms[j]
    {
      var c := categories[i];
      assert categories[..i + 1] == categories[..i] + [c];
      var opts := if c in gates then gates[c] else [];
      ghost var before := terms;
      var k := 0;
      while k < |opts|
        invariant 0 <= k <= |opts|
        invariant forall t :: t in terms <==> t in before || exists o :: o in opts[..k] && t == OptionTerm(o)
        invariant forall i, j :: 0 <= i < j < |terms| ==> terms[i] != terms[j]
      {
        assert opts[..k + 1] == opts[..k] + [opts[k]];
        if OptionTerm(opts[k]) !in terms {
          terms := terms + [OptionTerm(opts[k])];
        }
        k := k + 1;
      }
      assert opts[..k] == opts;
      i := i + 1;
    }
    assert categories[..i] == categories;
  }

  /** `clause + [t for t in terms if t not in clause]` for every clause. */
  function WithTerms(d: Dnf, terms: seq<string>): (r: Dnf)
    ensures |r| == |d|
    ensures forall i :: 0 <= i < |r| ==> r[i] == d[i] + Missing(terms, d[i])
  {
    seq(|d|, i requires 0 <= i < |d| => d[i] + Missing(terms, d[i]))
  }

  function Missing(terms: seq<string>, c: Clause): (r: seq<string>)
    ensures forall t :: t in r <==> t in terms && t !in c
  {
    if terms == [] then []
    else (if terms[0] in c then [] else [terms[0]]) + Missing(terms[1..], c)
  }

  function ExtraTerms(x: Extras): seq<string> {
    (match x.goal case None => [] case Some(n) => [GoalTerm(n)])
    + (if x.outOfFestival then [GoalTerm(0)] else [])
    + (if x.talkatoo then [TALKATOO_OFF] else [])
  }

  function WithEach(d: Dnf, terms: seq<string>): Dnf
    decreases |terms|
  {
    if terms == [] then d else WithEach(WithTerms(d, [terms[0]]), terms[1..])
  }

  function LocationDnf(own: Dnf, regionRules: seq<string>, x: Extras): Dnf {
    var d := if regionRules == [] then own else AndDnfs(SplitRules(regionRules), own);
    WithEach(WithTerms(d, x.options), ExtraTerms(x))
  }

  /** `_and_term`. */
  method AndTerm(d: Dnf, term: string) returns (r: Dnf)
    ensures r == WithTerms(d, [term])
  {
    r := [];
    var i := 0;
    while i < |d|
      invariant 0 <= i <= |d| && |r| == i
      invariant forall k :: 0 <= k < i ==> r[k] == d[k] + Missing([term], d[k])
    {
      assert [term][1..] == [];
      assert d[i] + [] == d[i];
      r := r + [if term in d[i] then d[i] else d[i] + [term]];
      i := i + 1;
    }
  }

  /** The rules of one location, built up in the source's order. */
  method LocationRules(own: Dnf, regionRules: seq<string>, x: Extras) returns (rules: seq<string>)
    ensures rules == AccessRules(LocationDnf(own, regionRules, x))
  {
    var d := own;
    if regionRules != [] {
      d := AndLists(SplitRules(regionRules), d);
    }
    ghost var start := d;
    if x.options != [] {
      d := WithTerms(d, x.options);
    }
    NoTerms(start);
    assert d == WithTerms(start, x.options);
    EachExtra(d, x);
    if x.goal.Some? {
      d := AndTerm(d, GoalTerm(x.goal.value));
    }
    if x.outOfFestival {
      d := AndTerm(d, GoalTerm(0));
    }
    if x.talkatoo {
      d := AndTerm(d, TALKATOO_OFF);
    }
    rules := DnfToAccessRules(d);
  }

  lemma NoTerms(d: Dnf)
    ensures WithTerms(d, []) == d
  {
    assert forall i :: 0 <= i < |d| ==> d[i] + [] == d[i];
  }

  lemma EachExtra(d: Dnf, x: Extras)
    ensures WithEach(d, ExtraTerms(x)) ==
            var a := if x.goal.Some? then WithTerms(d, [GoalTerm(x.goal.value)]) else d;
            var b := if x.outOfFestival then WithTerms(a, [GoalTerm(0)]) else a;
            if x.talkatoo then WithTerms(b, [TALKATOO_OFF]) else b
  {
    hide GoalTerm, WithTerms;
    var goal := if x.goal.Some? then [GoalTerm(x.goal.value)] else [];
    var festival := if x.outOfFestival then [GoalTerm(0)] else [];
    var talkatoo := if x.talkatoo then [TALKATOO_OFF] else [];
    EachAppend(d, goal + festival, talkatoo);
    EachAppend(d, goal, festival);
    OneExtra(d, x.goal.Some?, goal);
    OneExtra(WithEach(d, goal), x.outOfFestival, festival);
    OneExtra(WithEach(d, goal + festival), x.talkatoo, talkatoo);
  }

  lemma OneExtra(d: Dnf, there: bool, terms: seq<string>)
    requires if there then |terms| == 1 else terms == []
    ensures WithEach(d, terms) == if there then WithTerms(d, [terms[0]]) else d
  {
    hide WithTerms;
    if there {
      assert terms[1..] == [] && terms == [terms[0]];
    }
  }

  lemma {:induction false} EachAppend(d: Dnf, a: seq<string>, b: seq<string>)
    ensures WithEach(d, a + b) == WithEach(WithEach(d, a), b)
    decreases |a|
  {
    hide WithTerms;
    if a == [] {
      assert a + b == b;
    } else {
      assert (a + b)[0] == a[0] && (a + b)[1..] == a[1..] + b;
      EachAppend(WithTerms(d, [a[0]]), a[1..], b);
    }
  }

  // ---------------------------------------------------------- what they mean

  lemma WithTermsVal(d: Dnf, terms: seq<string>, val: Tracking)
    ensures DnfVal(WithTerms(d, terms), val) == (DnfVal(d, val) && ClauseVal(terms, val))
  {
    var r := WithTerms(d, terms);
    forall i | 0 <= i < |d|
      ensures ClauseVal(r[i], val) == (ClauseVal(d[i], val) && ClauseVal(terms, val))
    {
      TermsAdded(d[i], terms, val);
    }
    if DnfVal(r, val) {
      var c :| c in r && ClauseVal(c, val);
      var i :| 0 <= i < |r| && r[i] == c;
      assert d[i] in d;
    }
    if DnfVal(d, val) && ClauseVal(terms, val) {
      var c :| c in d && ClauseVal(c, val);
      var i :| 0 <= i < |d| && d[i] == c;
      assert r[i] in r;
    }
  }

  lemma TermsAdded(c: Clause, terms: seq<string>, val: Tracking)
    ensures ClauseVal(c + Missing(terms, c), val) == (ClauseVal(c, val) && ClauseVal(terms, val))
  {
    assert forall t :: t in c + Missing(terms, c) <==> t in c || t in terms;
  }

  lemma {:induction false} WithEachVal(d: Dnf, terms: seq<string>, val: Tracking)
    ensures DnfVal(WithEach(d, terms), val) == (DnfVal(d, val) && ClauseVal(terms, val))
    decreases |terms|
  {
    hide DnfVal, WithTerms;
    if terms != [] {
      var t := terms[0];
      assert terms == [t] + terms[1..] && t in [t];
      WithTermsVal(d, [t], val);
      WithEachVal(WithTerms(d, [t]), terms[1..], val);
      assert forall s :: s in terms <==> s == t || s in terms[1..];
    }
  }

  lemma WithTermsClean(d: Dnf, terms: seq<string>)
    requires CleanDnf(d) && CleanClause(terms)
    ensures CleanDnf(WithTerms(d, terms))
  {
    forall c | c in WithTerms(d, terms)
      ensures CleanClause(c)
    {
      var i :| 0 <= i < |d| && c == d[i] + Missing(terms, d[i]);
      assert d[i] in d;
    }
  }

  lemma {:induction false} WithEachClean(d: Dnf, terms: seq<string>)
    requires CleanDnf(d) && CleanClause(terms)
    ensures CleanDnf(WithEach(d, terms))
    decreases |terms|
  {
    hide CleanDnf, WithTerms;
    if terms != [] {
      assert terms[0] in terms && forall t :: t in terms[1..] ==> t in terms;
      WithTermsClean(d, [terms[0]]);
      WithEachClean(WithTerms(d, [terms[0]]), terms[1..]);
    }
  }

  lemma ExtraTermsClean(x: Extras)
    ensures CleanClause(ExtraTerms(x))
  {
    forall n: nat
      ensures CleanTerm(GoalTerm(n))
    {
      assert forall c :: c in NatText(n) ==> IsDigit(c);
    }
    assert CleanTerm(TALKATOO_OFF);
  }

  lemma AndDnfsClean(a: Dnf, b: Dnf)
    requires CleanDnf(a) && CleanDnf(b)
    ensures CleanDnf(AndDnfs(a, b))
  {
    CrossKeepsClean(a, b);
  }

  /** Every option is on, the goal is the victory's, the festival does not hide the location
      and Talkatoo does not block it. */
  predicate ExtrasMet(x: Extras, val: Tracking) {
    && (forall t :: t in x.options ==> val(t))
    && (x.goal.Some? ==> val(GoalTerm(x.goal.value)))
    && (x.outOfFestival ==> val(GoalTerm(0)))
    && (x.talkatoo ==> val(TALKATOO_OFF))
  }

  lemma ExtrasVal(x: Extras, val: Tracking)
    ensures ClauseVal(x.options, val) && ClauseVal(ExtraTerms(x), val) <==> ExtrasMet(x, val)
  {
    hide GoalTerm;
    var goal := match x.goal case None => [] case Some(n) => [GoalTerm(n)];
    var festival := if x.outOfFestival then [GoalTerm(0)] else [];
    var talkatoo := if x.talkatoo then [TALKATOO_OFF] else [];
    assert ExtraTerms(x) == goal + festival + talkatoo;
    assert forall t :: t in ExtraTerms(x) <==> t in goal || t in festival || t in talkatoo;
    assert x.goal.Some? ==> GoalTerm(x.goal.value) in goal;
    assert x.outOfFestival ==> GoalTerm(0) in festival;
    assert x.talkatoo ==> TALKATOO_OFF in talkatoo;
  }

  /** The terms of the options that the location's categories depend on. */
  ghost predicate OptionsOf(terms: seq<string>, categories: seq<string>, gates: map<string, seq<string>>) {
    forall t :: t in terms <==> IsOptionOf(t, categories, gates)
  }

  /** In the tracker as it is: every option of every category is on, the goal is the
      victory's, it is the first where the festival leaves the location out, and Talkatoo is
      off where it would block it. */
  lemma ExtrasMean(x: Extras, categories: seq<string>, gates: map<string, seq<string>>, shelf: Shelf, lua: LuaFns)
    requires OptionsOf(x.options, categories, gates)
    requires forall c, o :: c in gates && o in gates[c] ==> '|' !in o
    ensures ExtrasMet(x, Says(shelf, lua)) <==>
            && (forall c, o :: c in categories && c in gates && o in gates[c] ==> o in shelf.settings.on)
            && (x.goal.Some? ==> shelf.settings.goal == x.goal.value)
            && (x.outOfFestival ==> shelf.settings.goal == 0)
            && (x.talkatoo ==> "talkatoo_mode" !in shelf.settings.on)
  {
    hide Says;
    if x.goal.Some? {
      GoalShown(x.goal.value, shelf, lua);
    }
    GoalShown(0, shelf, lua);
    OptionShown("talkatoo_mode", shelf, lua);
    assert "$is_opt_off|" + "talkatoo_mode" == TALKATOO_OFF;
    forall c, o | c in categories && c in gates && o in gates[c]
      ensures OptionTerm(o) in x.options && (Says(shelf, lua)(OptionTerm(o)) <==> o in shelf.settings.on)
    {
      assert IsOptionOf(OptionTerm(o), categories, gates);
      OptionShown(o, shelf, lua);
    }
  }

  /** For clause lists that are never empty, the shipped rules are the conjunction of
      region access, own requirement, option gates, goal, festival and Talkatoo terms. */
  lemma LocationMeaning(own: Dnf, regionRules: seq<string>, x: Extras, val: Tracking)
    requires own != [] && CleanDnf(own) && CleanRules(regionRules) && CleanClause(x.options) && !val("false")
    ensures RulesVal(AccessRules(LocationDnf(own, regionRules, x)), val) <==>
            RulesVal(regionRules, val) && DnfVal(own, val) && ExtrasMet(x, val)
  {
    hide RulesVal, DnfVal, AccessRules, AndDnfs, WithTerms, SplitRules, CleanDnf;
    var d := if regionRules == [] then own else AndDnfs(SplitRules(regionRules), own);
    assert CleanDnf(d) && (DnfVal(d, val) <==> RulesVal(regionRules, val) && DnfVal(own, val)) by {
      if regionRules != [] {
        SplitRulesVal(regionRules, val);
        AndDnfsVal(SplitRules(regionRules), own, val);
        AndDnfsClean(SplitRules(regionRules), own);
      } else {
        NoRules(val);
      }
    }
    var e := WithTerms(d, x.options);
    WithTermsVal(d, x.options, val);
    WithTermsClean(d, x.options);
    WithEachVal(e, ExtraTerms(x), val);
    ExtraTermsClean(x);
    ExtrasVal(x, val);
    WithEachClean(e, ExtraTerms(x));
    RulesMeaning(WithEach(e, ExtraTerms(x)), val);
  }

  lemma NoRules(val: Tracking)
    ensures RulesVal([], val)
  {
  }

  /** Everything the location's rules are made of could be read. */
  ghost predicate Shipped(s: string, t: Table, r: string)
    requires t.Valid()
  {
    RequiresDnf(s).Ok? && Parses(t) && r in t.rows
  }

  /** The tracker shows a location with requirement `s` in region `r`. */
  ghost predicate Shown(s: string, t: Table, r: string, x: Extras, val: Tracking)
    requires t.Valid() && Shipped(s, t, r)
  {
    RulesVal(AccessRules(LocationDnf(RequiresDnf(s).value, RulesOf(t, r), x)), val)
  }

  /** The logic lets a location be reached: the exits on some path to its region and its own
      rule, each a text given to the rule reader, accept the state; and everything the
      location's options, goal and mode ask for holds. */
  ghost predicate InLogic(s: string, t: Table, r: string, x: Extras, counts: Counts, calls: Calls, val: Tracking)
  {
    InReach(t, r, counts, calls) && Holds(s, counts, calls) && ExtrasMet(x, val)
  }

  /** From the texts of a location and of the region table to the shipped rules: where the
      tracker's terms say what the state says, the tracker shows every location the logic
      lets be reached, and without cycles among the regions that are no roots it shows no
      other. Only the items and calls of these texts matter. */
  lemma LocationMatchesLogic(s: string, t: Table, r: string, x: Extras, p: Shape, counts: Counts, calls: Calls,
                             val: Tracking)
    requires t.Valid() && r in t.rows && TrackTable(t, p, calls) && TrackText(s, p, calls) && Within(p, TRACK_TERM)
    requires SameRoots(GraphOf(t)) && CleanClause(x.options) && CallsTold(p, counts, calls, val)
    requires TableNeeds(t, Tells(counts, val)) && TextNeeds(s, Tells(counts, val)) && !val("false")
    ensures Shipped(s, t, r)
    ensures InLogic(s, t, r, x, counts, calls, val) ==> Shown(s, t, r, x, val)
    ensures Loopless(GraphOf(t)) ==> (Shown(s, t, r, x, val) <==> InLogic(s, t, r, x, counts, calls, val))
  {
    hide InReach, Holds, GraphOf, Parses, Loopless, Shown, Translates, ClausesHold, CallsTold, RulesVal;
    hide RulesOf, ExtrasMet, TrackTable, TrackText, TableNeeds, TextNeeds, CleanRules, CleanClause, Shipped, SameRoots;
    TextTranslated(s, p, counts, calls, val);
    RegionMatchesLogic(t, r, p, counts, calls, val);
    ShownMeans(s, t, r, x, val);
  }

  lemma ShownMeans(s: string, t: Table, r: string, x: Extras, val: Tracking)
    requires t.Valid() && r in t.rows && Parses(t) && CleanRules(RulesOf(t, r))
    requires Translates(s) && CleanClause(x.options) && !val("false")
    ensures Shipped(s, t, r)
    ensures Shown(s, t, r, x, val) <==> RulesVal(RulesOf(t, r), val) && ClausesHold(s, val) && ExtrasMet(x, val)
  {
    hide RulesVal, DnfVal, AccessRules, LocationDnf, RequiresDnf, RulesOf, ExtrasMet, CleanRules, CleanClause, CleanDnf;
    hide Parses;
    LocationMeaning(RequiresDnf(s).value, RulesOf(t, r), x, val);
  }

  /** Where the terms admit no more than the state, the tracker shows no location that the
      logic does not let be reached. */
  lemma LocationNeverLaxer(s: string, t: Table, r: string, x: Extras, p: Shape, counts: Counts, calls: Calls,
                           val: Tracking)
    requires t.Valid() && r in t.rows && TrackTable(t, p, calls) && TrackText(s, p, calls) && Within(p, TRACK_TERM)
    requires SameRoots(GraphOf(t)) && Loopless(GraphOf(t))
    requires CleanClause(x.options) && CallsAdmitted(p, counts, calls, val)
    requires TableNeeds(t, Admits(counts, val)) && TextNeeds(s, Admits(counts, val)) && !val("false")
    ensures Shipped(s, t, r)
    ensures Shown(s, t, r, x, val) ==> InLogic(s, t, r, x, counts, calls, val)
  {
    hide InReach, Holds, GraphOf, Parses, Loopless, Shown, Translates, ClausesHold, CallsAdmitted;
    hide RulesVal, RulesOf, ExtrasMet, TrackTable, TrackText, TableNeeds, TextNeeds, CleanRules, CleanClause, Shipped;
    hide SameRoots;
    TextAdmitted(s, p, counts, calls, val);
    RegionNeverLaxer(t, r, p, counts, calls, val);
    ShownMeans(s, t, r, x, val);
  }

  lemma TableTold(t: Table, items: seq<PackItem>, shelf: Shelf, got: seq<string>, lua: LuaFns)
    requires DistinctCodes(items) && Fits(items, shelf) && Shows(items, shelf, got) && TableNeeds(t, Known(items))
    ensures TableNeeds(t, Admits(CountsOf(got), Says(shelf, lua)))
    ensures TableNeeds(t, Countable(items, got)) ==> TableNeeds(t, Tells(CountsOf(got), Says(shelf, lua)))
  {
    hide TextNeeds, DistinctCodes, Fits, Shows, Says;
    forall r | r in t.rows
      ensures TextNeeds(t.rows[r].needs, Admits(CountsOf(got), Says(shelf, lua)))
      ensures TextNeeds(t.rows[r].needs, Countable(items, got)) ==>
                TextNeeds(t.rows[r].needs, Tells(CountsOf(got), Says(shelf, lua)))
    {
      ItemsTold(t.rows[r].needs, items, shelf, got, lua);
    }
  }

  /** In the pack as it is, after any items have been received: as far as its helpers admit
      no more than the rule functions, it never shows a location that is out of logic. Where
      they agree with them, and no text asks for two or more of a toggle that many of which
      are held, it shows exactly the locations in logic. */
  lemma PackMatchesLogic(s: string, t: Table, r: string, x: Extras, p: Shape, items: seq<PackItem>, shelf: Shelf,
                         got: seq<string>, lua: LuaFns, calls: Calls)
    requires t.Valid() && r in t.rows && TrackTable(t, p, calls) && TrackText(s, p, calls) && Within(p, TRACK_TERM)
    requires SameRoots(GraphOf(t)) && Loopless(GraphOf(t)) && CleanClause(x.options)
    requires DistinctCodes(items) && Fits(items, shelf) && Shows(items, shelf, got)
    requires TableNeeds(t, Known(items)) && TextNeeds(s, Known(items))
    requires CallsAdmitted(p, CountsOf(got), calls, Says(shelf, lua))
    ensures Shipped(s, t, r)
    ensures Shown(s, t, r, x, Says(shelf, lua)) ==> InLogic(s, t, r, x, CountsOf(got), calls, Says(shelf, lua))
    ensures CallsTold(p, CountsOf(got), calls, Says(shelf, lua)) && TableNeeds(t, Countable(items, got))
            && TextNeeds(s, Countable(items, got)) ==>
              (Shown(s, t, r, x, Says(shelf, lua)) <==> InLogic(s, t, r, x, CountsOf(got), calls, Says(shelf, lua)))
  {
    hide Shown, InLogic, Shipped, Loopless, SameRoots, TrackTable, TrackText, TableNeeds, TextNeeds, Says, Fits, Shows;
    hide DistinctCodes, CallsTold, CallsAdmitted, CleanClause;
    FalseNever(items, shelf, lua);
    TableTold(t, items, shelf, got, lua);
    ItemsTold(s, items, shelf, got, lua);
    LocationNeverLaxer(s, t, r, x, p, CountsOf(got), calls, Says(shelf, lua));
    if CallsTold(p, CountsOf(got), calls, Says(shelf, lua)) && TableNeeds(t, Countable(items, got))
       && TextNeeds(s, Countable(items, got)) {
      LocationMatchesLogic(s, t, r, x, p, CountsOf(got), calls, Says(shelf, lua));
    }
  }

  // ------------------------------------------------ from moon record to tracker

  /** The full gates that are shipped meet the conditions below when the other inputs do. */
  lemma JaxiInputs(inp: Inputs, members: seq<string>)
    requires inp.full == [FullGated(JAXI_GATE, members)] && GoodInputs(inp.(full := []), TRACK_TERM)
    ensures GoodInputs(inp, TRACK_TERM)
  {
    hide IsReq, JAXI_GATE, TRACK_TERM;
    JaxiTracked();
  }

  lemma JaxiTracked()
    ensures IsReq(JAXI_GATE, TRACK_TERM)
  {
    hide TrackAtom;
    var calls: Calls := (f: string, x: string) => Flag(true);
    PeaceTracked();
    TrackShapes();
    JaxiReads((n: string) => 0, calls);
    WidenReq(JAXI_GATE, PEACE_TERM, TRACK_TERM);
  }

  lemma PeaceTracked()
    ensures TrackAtom(SAND_PEACE)
  {
    assert forall c :: c in "SandPeace" ==> 'A' <= c <= 'Z' || 'a' <= c <= 'z';
    PlainCallTracked("SandPeace");
  }

  /** The whole tool chain on one location: compile its record, join its gates on or put its
      subarea's full gate instead, parse the text for the tracker and turn it into access
      rules. Nothing raises; where the tracker's terms say what the state says, the rules
      hold exactly when what the location asks for is met. */
  lemma MoonRulesMatch(inp: Inputs, name: string, p: Shape, counts: Counts, calls: Calls, val: Tracking)
    requires GoodInputs(inp, p) && Within(PLAIN_TERM, p) && Within(p, TRACK_TERM) && !val("false")
    requires name !in inp.junk && (FullGateOf(inp.full, name).Some? || RecordOf(inp.entries, name).Some?)
    requires Disciplined(calls, p) && CallsTold(p, counts, calls, val)
    requires WrittenRule(inp, inp.full, name).Some? ==>
               TextNeeds(WrittenRule(inp, inp.full, name).value, Tells(counts, val))
    ensures WrittenRule(inp, inp.full, name).Some? && RequiresDnf(WrittenRule(inp, inp.full, name).value).Ok?
    ensures RulesVal(AccessRules(RequiresDnf(WrittenRule(inp, inp.full, name).value).value), val) <==>
            Asked(inp, name, counts, calls)
  {
    hide TextNeeds, RuleReader.CheckRequire, WrittenRule, Asked, RecordOf, FullGateOf, TrackText, Translates;
    hide ClausesHold, SameCalls, RulesVal, AccessRules, RequiresDnf;
    TrackShapes();
    WrittenRuleCorrect(inp, name, p, counts, calls);
    var s := WrittenRule(inp, inp.full, name).value;
    JoinTracks(s, p, calls);
    TextTranslated(s, p, counts, calls, val);
    RulesOfText(s, val);
  }

  /** Where they admit no more, neither do the rules. */
  lemma MoonRulesNeverLaxer(inp: Inputs, name: string, p: Shape, counts: Counts, calls: Calls, val: Tracking)
    requires GoodInputs(inp, p) && Within(PLAIN_TERM, p) && Within(p, TRACK_TERM) && !val("false")
    requires name !in inp.junk && (FullGateOf(inp.full, name).Some? || RecordOf(inp.entries, name).Some?)
    requires Disciplined(calls, p) && CallsAdmitted(p, counts, calls, val)
    requires WrittenRule(inp, inp.full, name).Some? ==>
               TextNeeds(WrittenRule(inp, inp.full, name).value, Admits(counts, val))
    ensures WrittenRule(inp, inp.full, name).Some? && RequiresDnf(WrittenRule(inp, inp.full, name).value).Ok?
    ensures RulesVal(AccessRules(RequiresDnf(WrittenRule(inp, inp.full, name).value).value), val) ==>
            Asked(inp, name, counts, calls)
  {
    hide TextNeeds, RuleReader.CheckRequire, WrittenRule, Asked, RecordOf, FullGateOf, TrackText, Translates;
    hide ClausesHold, RulesVal, AccessRules, RequiresDnf;
    TrackShapes();
    WrittenRuleCorrect(inp, name, p, counts, calls);
    var s := WrittenRule(inp, inp.full, name).value;
    JoinTracks(s, p, calls);
    TextAdmitted(s, p, counts, calls, val);
    RulesOfText(s, val);
  }

  lemma RulesOfText(s: string, val: Tracking)
    requires Translates(s) && !val("false")
    ensures RequiresDnf(s).Ok?
    ensures RulesVal(AccessRules(RequiresDnf(s).value), val) <==> ClausesHold(s, val)
  {
    hide RulesVal, AccessRules, RequiresDnf, DnfVal, CleanDnf;
    RulesMeaning(RequiresDnf(s).value, val);
  }
}
