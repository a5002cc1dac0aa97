/** The region table as it is written down, its requirements as text: the tracker's rules
    for its regions against the exits of the logic. */
module RegionTable {
  import opened Text
  import opened RuleReader
  import opened Terms
  import opened Dnf
  import opened PackRules
  import opened RegionPrereqs
  import opened TrackerText

  /** A region: its requirement, the regions it leads to and whether the game starts there. */
  datatype Row = Row(needs: string, connects: seq<string>, starting: bool)

  /** Rows in the order of the file. */
  datatype Table = Table(names: seq<string>, rows: map<string, Row>) {
    ghost predicate Valid() {
      forall r :: r in names <==> r in rows
    }
  }

  predicate Parses(t: Table) {
    forall r :: r in t.rows ==> RequiresDnf(t.rows[r].needs).Ok?
  }

  function OwnOf(s: string): Dnf {
    match RequiresDnf(s)
    case Raised => []
    case Ok(d) => d
  }

  function RegionOf(row: Row): Region {
    Region(OwnOf(row.needs), row.connects, row.starting)
  }

  function GraphOf(t: Table): (g: Graph)
    ensures t.Valid() ==> g.Valid()
  {
    Graph(t.names, map r | r in t.rows :: RegionOf(t.rows[r]))
  }

  /** `build_region_prereqs` on the table. The search parses a requirement when it first
      comes to the region; it comes to every region, so one that raises ends the run
      whatever the order. */
  method BuildRegionPrereqs(t: Table) returns (rules: Result<map<string, seq<string>>>)
    requires t.Valid()
    ensures rules == if Parses(t) then Ok(Prereqs(GraphOf(t), t.names, map[]).0) else Raised
  {
    hide RequiresDnf, Prereqs;
    var regions: map<string, Region> := map[];
    var i := 0;
    while i < |t.names|
      invariant 0 <= i <= |t.names|
      invariant regions.Keys == set r | r in t.names[..i]
      invariant forall r :: r in regions ==> r in t.rows && RequiresDnf(t.rows[r].needs).Ok?
      invariant forall r :: r in regions ==> regions[r] == RegionOf(t.rows[r])
    {
      var name := t.names[i];
      assert t.names[..i + 1] == t.names[..i] + [name];
      var own := RequiresDnf(t.rows[name].needs);
      if own.Raised? {
        return Raised;
      }
      regions := regions[name := Region(own.value, t.rows[name].connects, t.rows[name].starting)];
      i := i + 1;
    }
    assert t.names[..i] == t.names;
    assert regions == GraphOf(t).regions;
    var search := new Search(GraphOf(t));
    var access := search.BuildRules();
    rules := Ok(access);
  }

  // -------------------------------------------------------------- the logic

  /** Which regions' requirements the rule reader accepts. */
  function OpenIn(t: Table, counts: Counts, calls: Calls): Opening {
    (r: string) => r in t.rows && Holds(t.rows[r].needs, counts, calls)
  }

  ghost predicate TrackTable(t: Table, p: Shape, calls: Calls) {
    forall r :: r in t.rows ==> TrackText(t.rows[r].needs, p, calls)
  }

  /** Every item in the table's texts passes. */
  predicate TableNeeds(t: Table, q: Judge) {
    forall r :: r in t.rows ==> TextNeeds(t.rows[r].needs, q)
  }

  /** Every text of the table has clauses. */
  ghost predicate TableTranslates(t: Table) {
    forall r :: r in t.rows ==> Translates(t.rows[r].needs)
  }

  lemma TranslatedGraph(t: Table)
    requires TableTranslates(t)
    ensures Parses(t) && CleanGraph(GraphOf(t))
  {
    hide RequiresDnf, CleanDnf;
    forall r | r in t.rows
      ensures RequiresDnf(t.rows[r].needs).Ok? && CleanDnf(OwnOf(t.rows[r].needs))
    {
      assert Translates(t.rows[r].needs);
    }
  }

  lemma OwnHolds(t: Table, r: string, val: Tracking)
    requires r in t.rows && Translates(t.rows[r].needs)
    ensures r in GraphOf(t).regions && OwnMet(GraphOf(t), r, val) == ClausesHold(t.rows[r].needs, val)
  {
    hide RequiresDnf, CleanDnf, DnfVal;
  }

  lemma TableTranslated(t: Table, p: Shape, counts: Counts, calls: Calls, val: Tracking)
    requires TrackTable(t, p, calls) && Within(p, TRACK_TERM) && CallsTold(p, counts, calls, val)
    requires TableNeeds(t, Tells(counts, val)) && !val("false")
    ensures TableTranslates(t) && SameOpening(GraphOf(t), OpenIn(t, counts, calls), val)
  {
    hide TrackText, TextNeeds, Holds, CallsTold, Translates, ClausesHold, OwnMet;
    forall r | r in t.rows
      ensures Translates(t.rows[r].needs)
      ensures OpenIn(t, counts, calls)(r) == OwnMet(GraphOf(t), r, val)
    {
      TextTranslated(t.rows[r].needs, p, counts, calls, val);
      OwnHolds(t, r, val);
    }
  }

  lemma TableAdmitted(t: Table, p: Shape, counts: Counts, calls: Calls, val: Tracking)
    requires TrackTable(t, p, calls) && Within(p, TRACK_TERM) && CallsAdmitted(p, counts, calls, val)
    requires TableNeeds(t, Admits(counts, val)) && !val("false")
    ensures TableTranslates(t) && WiderOpening(GraphOf(t), OpenIn(t, counts, calls), val)
  {
    hide TrackText, TextNeeds, Holds, CallsAdmitted, Translates, ClausesHold, OwnMet;
    forall r | r in t.rows
      ensures Translates(t.rows[r].needs)
      ensures OwnMet(GraphOf(t), r, val) ==> OpenIn(t, counts, calls)(r)
    {
      TextAdmitted(t.rows[r].needs, p, counts, calls, val);
      OwnHolds(t, r, val);
    }
  }

  // ------------------------------------------------- the logic over the rows

  /** Regions from a start on, each led to by the one before it, whose requirements, given to
      the rule reader as they are written, all accept the state. Where no region is flagged
      as a start every region is one. */
  ghost predicate Way(t: Table, way: seq<string>, counts: Counts, calls: Calls) {
    && way != [] && (forall i :: 0 <= i < |way| ==> way[i] in t.rows && Holds(t.rows[way[i]].needs, counts, calls))
    && (t.rows[way[0]].starting || forall q :: q in t.rows ==> !t.rows[q].starting)
    && (forall i :: 0 < i < |way| ==> way[i] in t.rows[way[i - 1]].connects)
  }

  /** The logic opens a location of the region that asks for nothing itself. */
  ghost predicate InReach(t: Table, r: string, counts: Counts, calls: Calls) {
    exists way :: way != [] && way[|way| - 1] == r && Way(t, way, counts, calls)
  }

  function Regions(path: Path): (way: seq<string>)
    ensures way != [] && way[|way| - 1] == path.region
  {
    match path
    case At(r) => [r]
    case Via(before, r) => Regions(before) + [r]
  }

  lemma {:induction false} PathIsWay(t: Table, path: Path, counts: Counts, calls: Calls)
    requires var open := OpenIn(t, counts, calls); LogicPath(GraphOf(t), path, open) && open(path.region)
    ensures Way(t, Regions(path), counts, calls)
  {
    hide Holds, Way, GraphOf;
    var open := OpenIn(t, counts, calls);
    if path.At? {
      WayStarts(t, path.region, counts, calls);
    } else {
      PathIsWay(t, path.before, counts, calls);
      WayMore(t, Regions(path.before), path.region, counts, calls);
    }
  }

  lemma WayStarts(t: Table, r: string, counts: Counts, calls: Calls)
    requires r in GraphOf(t).regions && LogicStart(GraphOf(t), r) && OpenIn(t, counts, calls)(r)
    ensures Way(t, [r], counts, calls)
  {
    hide Holds, GraphOf;
    GraphRows(t);
    assert [r][0] == r;
  }

  lemma GraphRows(t: Table)
    ensures GraphOf(t).regions.Keys == t.rows.Keys
    ensures forall q :: q in t.rows ==>
              && GraphOf(t).regions[q].starting == t.rows[q].starting
              && GraphOf(t).regions[q].connects == t.rows[q].connects
  {
    hide RequiresDnf;
  }

  lemma WayMore(t: Table, way: seq<string>, r: string, counts: Counts, calls: Calls)
    requires way != [] && way[|way| - 1] in GraphOf(t).regions && Way(t, way, counts, calls)
    requires OpenIn(t, counts, calls)(r) && r in GraphOf(t).regions[way[|way| - 1]].connects
    ensures Way(t, way + [r], counts, calls)
  {
    hide Holds, GraphOf;
    GraphRows(t);
    var more := way + [r];
    forall i | 0 <= i < |more|
      ensures more[i] in t.rows && Holds(t.rows[more[i]].needs, counts, calls)
      ensures i > 0 ==> more[i] in t.rows[more[i - 1]].connects
    {
      assert more[i] == if i < |way| then way[i] else r;
    }
  }

  lemma WayFront(t: Table, way: seq<string>, counts: Counts, calls: Calls)
    requires Way(t, way, counts, calls) && |way| > 1
    ensures Way(t, way[..|way| - 1], counts, calls)
    ensures way[|way| - 1] in t.rows[way[|way| - 2]].connects
  {
    hide Holds;
  }

  lemma {:induction false} WayIsPath(t: Table, way: seq<string>, counts: Counts, calls: Calls) returns (path: Path)
    requires Way(t, way, counts, calls)
    ensures path.region == way[|way| - 1]
    ensures var open := OpenIn(t, counts, calls); LogicPath(GraphOf(t), path, open) && open(path.region)
    decreases |way|
  {
    hide Holds, GraphOf;
    GraphRows(t);
    var n := |way| - 1;
    if n == 0 {
      path := At(way[0]);
    } else {
      WayFront(t, way, counts, calls);
      var before := WayIsPath(t, way[..n], counts, calls);
      path := Via(before, way[n]);
    }
  }

  lemma ReachIsLogic(t: Table, r: string, counts: Counts, calls: Calls)
    ensures InReach(t, r, counts, calls) <==> LocationOpen(GraphOf(t), r, true, OpenIn(t, counts, calls))
  {
    hide Way, OpenIn, GraphOf, LogicPath;
    var open := OpenIn(t, counts, calls);
    if InReach(t, r, counts, calls) {
      var way :| way != [] && way[|way| - 1] == r && Way(t, way, counts, calls);
      var path := WayIsPath(t, way, counts, calls);
      assert path.region == r && LogicPath(GraphOf(t), path, open);
    }
    if LocationOpen(GraphOf(t), r, true, open) {
      var path: Path :| path.region == r && LogicPath(GraphOf(t), path, open);
      PathIsWay(t, path, counts, calls);
      assert Way(t, Regions(path), counts, calls);
    }
  }

  /** Region `r`'s entry in what `BuildRegionPrereqs` returns. */
  function RulesOf(t: Table, r: string): seq<string>
    requires t.Valid() && r in t.rows
  {
    PrereqsNamed(GraphOf(t), t.names);
    Prereqs(GraphOf(t), t.names, map[]).0[r]
  }

  /** The tracker's rules for a region hold whenever the logic opens a location there that
      asks for nothing itself; without cycles among the regions that are no roots they hold
      only then. Every exit is guarded by the text of the region it leaves. */
  lemma RegionMatchesLogic(t: Table, r: string, p: Shape, counts: Counts, calls: Calls, val: Tracking)
    requires t.Valid() && r in t.rows && TrackTable(t, p, calls) && Within(p, TRACK_TERM) && SameRoots(GraphOf(t))
    requires CallsTold(p, counts, calls, val) && TableNeeds(t, Tells(counts, val)) && !val("false")
    ensures Parses(t) && CleanRules(RulesOf(t, r))
    ensures InReach(t, r, counts, calls) ==> RulesVal(RulesOf(t, r), val)
    ensures Loopless(GraphOf(t)) ==> (RulesVal(RulesOf(t, r), val) <==> InReach(t, r, counts, calls))
  {
    hide RulesVal, Prereqs, Reachable, LogicReached, OpenIn, Loopless, TrackTable, TableNeeds, Parses, CleanRules;
    hide CleanGraph, SameOpening, SameRoots, CallsTold, TableTranslates, InReach;
    var g := GraphOf(t);
    ReachIsLogic(t, r, counts, calls);
    TableTranslated(t, p, counts, calls, val);
    TranslatedGraph(t);
    PrereqsRules(g, g.names);
    PrereqsSound(g, r, val);
    SamePaths(g, r, OpenIn(t, counts, calls), val);
    if Loopless(g) {
      PrereqsMatchLogic(g, r, OpenIn(t, counts, calls), val);
    }
  }

  /** Where the tracker's terms admit no more than the state, neither do its rules for a
      region. */
  lemma RegionNeverLaxer(t: Table, r: string, p: Shape, counts: Counts, calls: Calls, val: Tracking)
    requires t.Valid() && r in t.rows && TrackTable(t, p, calls) && Within(p, TRACK_TERM)
    requires SameRoots(GraphOf(t)) && Loopless(GraphOf(t))
    requires CallsAdmitted(p, counts, calls, val) && TableNeeds(t, Admits(counts, val)) && !val("false")
    ensures Parses(t) && CleanRules(RulesOf(t, r))
    ensures RulesVal(RulesOf(t, r), val) ==> InReach(t, r, counts, calls)
  {
    hide RulesVal, Prereqs, Reachable, LogicReached, OpenIn, Loopless, TrackTable, TableNeeds, Parses, CleanRules;
    hide CleanGraph, WiderOpening, SameRoots, CallsAdmitted, TableTranslates, InReach;
    var g := GraphOf(t);
    ReachIsLogic(t, r, counts, calls);
    TableAdmitted(t, p, counts, calls, val);
    TranslatedGraph(t);
    PrereqsRules(g, g.names);
    PrereqsExact(g, r, val);
    if RulesVal(RulesOf(t, r), val) {
      WiderReach(g, r, OpenIn(t, counts, calls), val);
    }
  }
}
