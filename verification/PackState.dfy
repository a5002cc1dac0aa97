/** What the tracker knows: its items as autotracking.lua keeps them, and the lookups of
    logic.lua that the terms of access rules stand for. */
module PackState {
  import opened Text
  import opened Dnf
  import opened PackParser
  import opened PackRules
  import opened PackMeaning
  import opened RuleReader
  import opened Syntax
  import opened Terms
  import opened TrackerText

  /** An item of the pack: a moon is a consumable, which counts; anything else is a toggle. */
  datatype PackItem = PackItem(name: string, moon: bool)

  /** The OPTIONS table: the options that are true, and the goal. */
  datatype Settings = Settings(on: set<string>, goal: int)

  /** Toggles that are on and the amounts of consumables, by code, and the options. */
  datatype Shelf = Shelf(active: set<string>, acquired: map<string, nat>, settings: Settings)

  function Code(it: PackItem): string {
    CodeFor(it.name)
  }

  /** No two items share a code, and none is empty or reads as the rule that never holds. */
  ghost predicate DistinctCodes(items: seq<PackItem>) {
    && (forall x, y :: x in items && y in items && Code(x) == Code(y) ==> x == y)
    && (forall x :: x in items ==> Code(x) != "" && Code(x) != "false")
  }

  predicate HasCode(items: seq<PackItem>, c: string) {
    exists it :: it in items && Code(it) == c
  }

  /** Toggles have no amount, consumables are never on, and nothing else is on the shelf. */
  ghost predicate Fits(items: seq<PackItem>, shelf: Shelf) {
    && (forall it :: it in items ==> if it.moon then Code(it) !in shelf.active else Code(it) !in shelf.acquired)
    && (forall c :: c in shelf.active || c in shelf.acquired ==> HasCode(items, c))
  }

  /** The shelf shows exactly the items received. */
  ghost predicate Shows(items: seq<PackItem>, shelf: Shelf, got: seq<string>) {
    forall it :: it in items ==> ItemShows(it, shelf, got)
  }

  predicate ItemShows(it: PackItem, shelf: Shelf, got: seq<string>) {
    if it.moon then Code(it) in shelf.acquired && shelf.acquired[Code(it)] == multiset(got)[it.name]
    else Code(it) in shelf.active <==> it.name in got
  }

  /** Before any connection: every kind of moon is in, captures and Talkatoo are not. */
  const DEFAULTS := Settings(
    {"include_cap_peace_moons", "include_cascade_peace_moons", "include_sand_peace_moons",
     "include_lake_peace_moons", "include_wooded_peace_moons", "include_lost_peace_moons",
     "include_metro_peace_moons", "include_snow_peace_moons", "include_seaside_peace_moons",
     "include_luncheon_peace_moons", "include_bowsers_peace_moons", "include_cloud_peace_moons",
     "include_deep_woods_moons", "include_minigame_moons", "include_hint_art_moons",
     "include_tourist_moons", "include_long_course_moons", "include_precision_capture_moons"},
    0)

  /** Options are as the slot says, true for 1 alone; what it does not mention stays. */
  ghost predicate Tuned(now: Settings, before: Settings, slot: seq<(string, int)>) {
    && (forall e :: e in slot && e.0 != "goal" ==> (e.0 in now.on <==> e.1 == 1))
    && (forall e :: e in slot && e.0 == "goal" ==> now.goal == e.1)
    && (forall k :: (forall e :: e in slot ==> e.0 != k) ==> (k in now.on <==> k in before.on))
    && ((forall e :: e in slot ==> e.0 != "goal") ==> now.goal == before.goal)
  }

  /** The autotracker. */
  class AutoTracker {
    const items: seq<PackItem>
    var active: set<string>
    var acquired: map<string, nat>
    var settings: Settings

    function View(): Shelf
      reads this
    {
      Shelf(active, acquired, settings)
    }

    ghost predicate Valid()
      reads this
    {
      DistinctCodes(items) && Fits(items, View())
    }

    constructor (items: seq<PackItem>)
      requires DistinctCodes(items)
      ensures Valid() && this.items == items && settings == DEFAULTS
    {
      this.items := items;
      active, acquired, settings := {}, map[], DEFAULTS;
    }

    /** `onClear`, on every connection, with the options of the slot. */
    method OnClear(slot: seq<(string, int)>)
      requires Valid() && forall i, j :: 0 <= i < j < |slot| ==> slot[i].0 != slot[j].0
      modifies this
      ensures Valid() && Shows(items, View(), []) && Tuned(settings, old(settings), slot)
    {
      Reset();
      var i := 0;
      while i < |slot|
        invariant 0 <= i <= |slot| && Valid() && Shows(items, View(), [])
        invariant Tuned(settings, old(settings), slot[..i])
      {
        hide Fits, Shows, DistinctCodes;
        var (k, v) := slot[i];
        if k == "goal" {
          settings := settings.(goal := v);
        } else if v == 1 {
          settings := settings.(on := settings.on + {k});
        } else {
          settings := settings.(on := settings.on - {k});
        }
        assert slot[..i + 1] == slot[..i] + [(k, v)];
        assert forall e :: e in slot[..i] ==> e.0 != k;
        i := i + 1;
      }
      assert slot[..i] == slot;
    }

    /** Its loop over the items. */
    method Reset()
      requires Valid()
      modifies this
      ensures Valid() && Shows(items, View(), []) && settings == old(settings)
    {
      hide DistinctCodes, Fits, Shows, CodeFor;
      var i := 0;
      NoneShown(View());
      while i < |items|
        invariant 0 <= i <= |items| && Valid()
        invariant Shows(items[..i], View(), []) && settings == old(settings)
      {
        Wiped(items, i, View());
        if items[i].moon {
          acquired := acquired[Code(items[i]) := 0];
        } else {
          active := active - {Code(items[i])};
        }
        i := i + 1;
      }
      assert items[..i] == items;
    }

    /** `onItem`: the item of that name is switched on or counted up. */
    method OnItem(name: string, ghost got: seq<string>)
      requires Valid() && Shows(items, View(), got)
      modifies this
      ensures Valid() && Shows(items, View(), got + [name]) && settings == old(settings)
    {
      hide DistinctCodes, Fits, Shows, CodeFor;
      var i := 0;
      while i < |items| && items[i].name != name
        invariant 0 <= i <= |items| && forall j :: 0 <= j < i ==> items[j].name != name
      {
        i := i + 1;
      }
      if i == |items| {
        OtherName(items, View(), got, name);
        return;
      }
      Bumped(items, items[i], View(), got);
      var code := Code(items[i]);
      if items[i].moon {
        acquired := acquired[code := (if code in acquired then acquired[code] else 0) + 1];
      } else {
        active := active + {code};
      }
    }

    /** A connection and everything received since. */
    method Connect(slot: seq<(string, int)>, got: seq<string>)
      requires Valid() && forall i, j :: 0 <= i < j < |slot| ==> slot[i].0 != slot[j].0
      modifies this
      ensures Valid() && Shows(items, View(), got) && Tuned(settings, old(settings), slot)
    {
      hide Fits, Shows, DistinctCodes, Tuned;
      OnClear(slot);
      var i := 0;
      while i < |got|
        invariant 0 <= i <= |got| && Valid() && Tuned(settings, old(settings), slot)
        invariant Shows(items, View(), got[..i])
      {
        OnItem(got[i], got[..i]);
        assert got[..i + 1] == got[..i] + [got[i]];
        i := i + 1;
      }
      assert got[..i] == got;
    }
  }

  function Wipe(shelf: Shelf, it: PackItem): Shelf {
    if it.moon then shelf.(acquired := shelf.acquired[Code(it) := 0])
    else shelf.(active := shelf.active - {Code(it)})
  }

  lemma NoneShown(shelf: Shelf)
    ensures Shows([], shelf, [])
  {
  }

  lemma Wiped(items: seq<PackItem>, i: nat, shelf: Shelf)
    requires DistinctCodes(items) && i < |items| && Fits(items, shelf) && Shows(items[..i], shelf, [])
    ensures Fits(items, Wipe(shelf, items[i])) && Shows(items[..i + 1], Wipe(shelf, items[i]), [])
  {
    hide CodeFor;
    var it := items[i];
    forall other | other in items[..i + 1]
      ensures ItemShows(other, Wipe(shelf, it), [])
    {
      assert other in items && (other in items[..i] || other == it);
      assert other in items[..i] ==> ItemShows(other, shelf, []);
    }
  }

  function Amount(shelf: Shelf, code: string): nat {
    if code in shelf.acquired then shelf.acquired[code] else 0
  }

  function Bump(shelf: Shelf, it: PackItem): Shelf {
    if it.moon then shelf.(acquired := shelf.acquired[Code(it) := Amount(shelf, Code(it)) + 1])
    else shelf.(active := shelf.active + {Code(it)})
  }

  lemma Bumped(items: seq<PackItem>, it: PackItem, shelf: Shelf, got: seq<string>)
    requires DistinctCodes(items) && it in items && Fits(items, shelf) && Shows(items, shelf, got)
    ensures Fits(items, Bump(shelf, it)) && Shows(items, Bump(shelf, it), got + [it.name])
  {
    hide CodeFor;
    forall other | other in items
      ensures ItemShows(other, Bump(shelf, it), got + [it.name])
    {
      assert ItemShows(other, shelf, got);
      OneMoreGot(other, got, it.name);
      assert other.name == it.name ==> Code(other) == Code(it);
    }
  }

  lemma OtherName(items: seq<PackItem>, shelf: Shelf, got: seq<string>, name: string)
    requires Shows(items, shelf, got) && forall j :: 0 <= j < |items| ==> items[j].name != name
    ensures Shows(items, shelf, got + [name])
  {
    hide CodeFor;
    forall it | it in items
      ensures ItemShows(it, shelf, got + [name])
    {
      assert ItemShows(it, shelf, got);
      OneMoreGot(it, got, name);
    }
  }

  lemma OneMoreGot(it: PackItem, got: seq<string>, name: string)
    ensures multiset(got + [name])[it.name] == multiset(got)[it.name] + if it.name == name then 1 else 0
    ensures it.name in got + [name] <==> it.name in got || it.name == name
  {
  }

  // --------------------------------------------------------------- the lookups

  /** `has_one`, and what a plain code asks. */
  predicate HasOne(shelf: Shelf, code: string) {
    code in shelf.active || Amount(shelf, code) > 0
  }

  /** `tonumber(n) or 0` on the numbers that terms hold. */
  function Number(n: string): nat {
    if AllDigits(n) then NatValue(n) else 0
  }

  /** `has_count`: a toggle has no amount. */
  predicate HasCount(shelf: Shelf, code: string, n: string) {
    Number(n) == 0 || Amount(shelf, code) >= Number(n)
  }

  /** `has_kingdom_moons`: three for a Multi-Moon, one for a Power Moon, found by code. */
  predicate HasKingdomMoons(shelf: Shelf, kingdom: string, n: string) {
    var k := CodeFor(kingdom);
    || Number(n) == 0
    || Amount(shelf, k + "_kingdom_power_moon") + 3 * Amount(shelf, k + "_kingdom_multi_moon") >= Number(n)
  }

  /** The other helpers. */
  type LuaFns = (string, seq<string>) -> bool

  /** A term: `$function|argument|..`, or a code. */
  function Says(shelf: Shelf, lua: LuaFns): Tracking {
    (t: string) =>
      if t != "" && t[0] == '$' then LuaCall(SplitOn(t[1..], '|'), shelf, lua) else HasOne(shelf, t)
  }

  predicate LuaCall(parts: seq<string>, shelf: Shelf, lua: LuaFns)
    requires parts != []
  {
    if parts[0] == "has_count" && |parts| == 3 then HasCount(shelf, parts[1], parts[2])
    else if parts[0] == "has_kingdom_moons" && |parts| == 3 then HasKingdomMoons(shelf, parts[1], parts[2])
    else if parts[0] == "is_opt" && |parts| == 2 then parts[1] in shelf.settings.on
    else if parts[0] == "is_opt_off" && |parts| == 2 then parts[1] !in shelf.settings.on
    else if parts[0] == "is_goal" && |parts| == 2 then AllDigits(parts[1]) && shelf.settings.goal == NatValue(parts[1])
    else if parts == ["capturesanity_off"] then "capturesanity" !in shelf.settings.on
    else if parts[0] == "item_value" then false
    else lua(parts[0], parts[1..])
  }

  // ------------------------------------------------------- what item terms say

  lemma CodeOpen(name: string)
    ensures '|' !in CodeFor(name) && '$' !in CodeFor(name)
  {
  }

  lemma CountParts(c: string, n: string)
    requires '|' !in c && AllDigits(n)
    ensures var t := "$has_count|" + c + "|" + n;
            t[0] == '$' && SplitOn(t[1..], '|') == ["has_count", c, n]
  {
    var t, f := "$has_count|" + c + "|" + n, "has_count";
    assert t[1..] == f + ['|'] + (c + ['|'] + n);
    assert '|' !in f;
    SplitFirst(f, '|', c + ['|'] + n);
    SplitFirst(c, '|', n);
    assert '|' !in n;
    SplitNone(n, '|');
  }

  lemma OneArg(f: string, x: string)
    requires '|' !in f && '|' !in x
    ensures var t := "$" + f + "|" + x;
            t[0] == '$' && SplitOn(t[1..], '|') == [f, x]
  {
    var t := "$" + f + "|" + x;
    assert t[1..] == f + ['|'] + x;
    SplitFirst(f, '|', x);
    SplitNone(x, '|');
  }

  lemma LuaOptions(x: string, shelf: Shelf, lua: LuaFns)
    ensures LuaCall(["is_opt", x], shelf, lua) <==> x in shelf.settings.on
    ensures LuaCall(["is_opt_off", x], shelf, lua) <==> x !in shelf.settings.on
    ensures LuaCall(["is_goal", x], shelf, lua) <==> AllDigits(x) && shelf.settings.goal == NatValue(x)
    ensures LuaCall(["capturesanity_off"], shelf, lua) <==> "capturesanity" !in shelf.settings.on
  {
    assert |"is_opt"| == 6 && |"is_opt_off"| == 10 && |"is_goal"| == 7 && |"has_count"| == 9;
    assert |"has_kingdom_moons"| == 17;
  }

  /** Option terms ask for the option to be true, or not to be. */
  lemma OptionShown(opt: string, shelf: Shelf, lua: LuaFns)
    requires '|' !in opt
    ensures Says(shelf, lua)("$is_opt|" + opt) <==> opt in shelf.settings.on
    ensures Says(shelf, lua)("$is_opt_off|" + opt) <==> opt !in shelf.settings.on
  {
    hide SplitOn, LuaCall;
    OneArg("is_opt", opt);
    OneArg("is_opt_off", opt);
    assert "$" + "is_opt" + "|" + opt == "$is_opt|" + opt;
    assert "$" + "is_opt_off" + "|" + opt == "$is_opt_off|" + opt;
    LuaOptions(opt, shelf, lua);
  }

  lemma GoalShown(n: nat, shelf: Shelf, lua: LuaFns)
    ensures Says(shelf, lua)("$is_goal|" + NatText(n)) <==> shelf.settings.goal == n
  {
    hide SplitOn, NatText, LuaCall;
    var d := NatText(n);
    assert '|' !in d;
    OneArg("is_goal", d);
    assert "$" + "is_goal" + "|" + d == "$is_goal|" + d;
    LuaOptions(d, shelf, lua);
  }

  lemma CapturesShown(shelf: Shelf, lua: LuaFns)
    ensures Says(shelf, lua)(CAPTURES_OFF) <==> "capturesanity" !in shelf.settings.on
  {
    hide SplitOn, LuaCall;
    var t := "capturesanity_off";
    assert CAPTURES_OFF[1..] == t && '|' !in t;
    SplitNone(t, '|');
    LuaOptions("", shelf, lua);
  }

  /** Enough of the item is had, and the tracker can tell. */
  predicate Visible(it: PackItem, k: nat, got: seq<string>) {
    multiset(got)[it.name] >= k && (it.moon || k <= 1)
  }

  /** The tracker's term for an item: a count above one is never met by a toggle. */
  lemma NeedShown(items: seq<PackItem>, it: PackItem, k: nat, shelf: Shelf, got: seq<string>, lua: LuaFns)
    requires DistinctCodes(items) && it in items && Fits(items, shelf) && Shows(items, shelf, got)
    ensures NeedMet(it.name, k, Says(shelf, lua)) <==> Visible(it, k, got)
  {
    hide CodeFor, SplitOn, DistinctCodes, Fits, Shows, NatText, LuaCall;
    var c := Code(it);
    assert c != "" by {
      CodeGiven(items, it);
    }
    ShelfItem(items, it, shelf, got);
    CodeOpen(it.name);
    if k == 1 {
      assert c[0] in c && Says(shelf, lua)(c) == HasOne(shelf, c);
    } else if k > 1 {
      CountSays(c, k, shelf, lua);
    }
  }

  lemma CountSays(c: string, k: nat, shelf: Shelf, lua: LuaFns)
    requires '|' !in c && k > 0
    ensures Says(shelf, lua)("$has_count|" + c + "|" + NatText(k)) <==> Amount(shelf, c) >= k
  {
    hide SplitOn, NatText;
    var n := NatText(k);
    CountParts(c, n);
    assert Number(n) == k;
  }

  lemma CodeGiven(items: seq<PackItem>, it: PackItem)
    requires DistinctCodes(items) && it in items
    ensures Code(it) != ""
  {
  }

  lemma ShelfItem(items: seq<PackItem>, it: PackItem, shelf: Shelf, got: seq<string>)
    requires it in items && Fits(items, shelf) && Shows(items, shelf, got)
    ensures Amount(shelf, Code(it)) == if it.moon then multiset(got)[it.name] else 0
    ensures HasOne(shelf, Code(it)) <==> multiset(got)[it.name] >= 1
  {
    hide CodeFor;
    assert ItemShows(it, shelf, got);
    assert it.name in got <==> it.name in multiset(got);
  }

  lemma FalseNever(items: seq<PackItem>, shelf: Shelf, lua: LuaFns)
    requires DistinctCodes(items) && Fits(items, shelf)
    ensures !Says(shelf, lua)("false")
  {
    hide CodeFor;
    assert !HasCode(items, "false");
  }

  // ----------------------------------------------------------- whole requirements

  /** The state's counts. */
  function CountsOf(got: seq<string>): Counts {
    (n: string) => multiset(got)[n]
  }

  /** The item is one of the pack's. */
  function Known(items: seq<PackItem>): Judge {
    (n: string, k: nat) => exists it :: it in items && it.name == n
  }

  /** A count above one is asked of a moon, or is not reached anyway. */
  function Countable(items: seq<PackItem>, got: seq<string>): Judge {
    (n: string, k: nat) => forall it :: it in items && it.name == n ==> it.moon || k <= 1 || multiset(got)[n] < k
  }

  lemma {:induction false} NeedsImply(a: Ast, q: Judge, r: Judge)
    requires AllNeeds(a, q) && forall n, k :: q(n, k) ==> r(n, k)
    ensures AllNeeds(a, r)
    decreases a
  {
    if a.AllOf? || a.AnyOf? {
      forall i | 0 <= i < |a.children|
        ensures AllNeeds(a.children[i], r)
      {
        NeedsImply(a.children[i], q, r);
      }
    }
  }

  lemma {:induction false} NeedsBoth(a: Ast, q: Judge, r: Judge, s: Judge)
    requires AllNeeds(a, q) && forall n, k :: q(n, k) ==> (r(n, k) <==> s(n, k))
    ensures AllNeeds(a, r) <==> AllNeeds(a, s)
    decreases a
  {
    if a.AllOf? || a.AnyOf? {
      forall i | 0 <= i < |a.children|
        ensures AllNeeds(a.children[i], r) <==> AllNeeds(a.children[i], s)
      {
        NeedsBoth(a.children[i], q, r, s);
      }
    }
  }

  /** Of any text over the pack's items, in every state: the tracker's item terms never say
      more than the state, and they say as much exactly when every count above one is asked
      of a moon or is not reached. */
  lemma ItemsTold(s: string, items: seq<PackItem>, shelf: Shelf, got: seq<string>, lua: LuaFns)
    requires DistinctCodes(items) && Fits(items, shelf) && Shows(items, shelf, got)
    requires TextNeeds(s, Known(items))
    ensures TextNeeds(s, Admits(CountsOf(got), Says(shelf, lua)))
    ensures TextNeeds(s, Tells(CountsOf(got), Says(shelf, lua))) <==> TextNeeds(s, Countable(items, got))
  {
    hide NeedMet, ParseRequires, AllNeeds, DistinctCodes, Fits, Shows, CodeFor, Says;
    var val, counts := Says(shelf, lua), CountsOf(got);
    forall n, k | Known(items)(n, k)
      ensures Admits(counts, val)(n, k) && (Tells(counts, val)(n, k) <==> Countable(items, got)(n, k))
    {
      OneTold(items, n, k, shelf, got, lua);
    }
    if ParseRequires(s).Ok? {
      NeedsImply(ParseRequires(s).value, Known(items), Admits(counts, val));
      NeedsBoth(ParseRequires(s).value, Known(items), Tells(counts, val), Countable(items, got));
    }
  }

  lemma OneTold(items: seq<PackItem>, n: string, k: nat, shelf: Shelf, got: seq<string>, lua: LuaFns)
    requires DistinctCodes(items) && Fits(items, shelf) && Shows(items, shelf, got) && Known(items)(n, k)
    ensures Admits(CountsOf(got), Says(shelf, lua))(n, k)
    ensures Tells(CountsOf(got), Says(shelf, lua))(n, k) <==> Countable(items, got)(n, k)
  {
    hide NeedMet, Fits, Shows, CodeFor, Says;
    var it :| it in items && it.name == n;
    NeedShown(items, it, k, shelf, got, lua);
    forall other | other in items && other.name == n
      ensures other == it
    {
      assert Code(other) == Code(it);
    }
  }

  /** A location that asks for one item: the rule reader goes by the count, the tracker only
      by what it can tell. They part exactly on a toggle of which two or more are asked for
      and held. */
  lemma OneItemParts(items: seq<PackItem>, it: PackItem, digits: string, shelf: Shelf, got: seq<string>, lua: LuaFns,
                     calls: Calls)
    requires DistinctCodes(items) && Fits(items, shelf) && Shows(items, shelf, got) && it in items
    requires GoodName(it.name) && AllDigits(digits)
    ensures var s, k := AtomText(ItemN(it.name, digits)), NatValue(digits);
            && (Holds(s, CountsOf(got), calls) <==> multiset(got)[it.name] >= k)
            && (ClausesHold(s, Says(shelf, lua)) <==> Visible(it, k, got))
            && ((Holds(s, CountsOf(got), calls) <==> ClausesHold(s, Says(shelf, lua)))
                <==> (it.moon || k <= 1 || multiset(got)[it.name] < k))
  {
    hide ParseRequires, CheckRequire, Says, NeedMet, CodeFor, DistinctCodes, Fits, Shows, ClausesHold, AtomText;
    hide TrackerVal;
    var a := ItemN(it.name, digits);
    ItemReads(a, CountsOf(got), calls);
    OneItemTree(a);
    FalseNever(items, shelf, lua);
    ClausesOf(AtomText(a), Says(shelf, lua));
    NeedShown(items, it, NatValue(digits), shelf, got, lua);
    NeedTruth(it.name, NatValue(digits), Says(shelf, lua));
  }

  lemma NeedTruth(n: string, k: nat, val: Tracking)
    ensures TrackerVal(Need(n, k), val) == NeedMet(n, k, val)
  {
  }

  lemma OneItemTree(a: Atom)
    requires a.ItemN? && GoodAtom(a)
    ensures ParseRequires(AtomText(a)) == Ok(Need(a.item, NatValue(a.digits)))
    ensures WellCalled(Need(a.item, NatValue(a.digits))) && CleanAst(Need(a.item, NatValue(a.digits)))
  {
    hide ParseRequires;
    AtomTree(a);
  }

  // ------------------------------------------------------------- helper calls

  /** The functions of logic.lua that `LuaCall` knows. */
  const LOOKUPS := ["has_count", "has_kingdom_moons", "is_opt", "is_opt_off", "is_goal", "capturesanity_off",
                    "item_value"]

  lemma ManyArgs(f: string, args: seq<string>)
    requires '|' !in f && args != [] && forall x :: x in args ==> '|' !in x
    ensures var t := "$" + f + "|" + Join("|", args);
            t[0] == '$' && SplitOn(t[1..], '|') == [f] + args
  {
    hide SplitOn, Join;
    var t := "$" + f + "|" + Join("|", args);
    assert t[1..] == f + ['|'] + Join("|", args);
    SplitFirst(f, '|', Join("|", args));
    SplitJoin(args, '|');
  }

  lemma OtherLua(f: string, args: seq<string>, shelf: Shelf, lua: LuaFns)
    requires f !in LOOKUPS
    ensures LuaCall([f] + args, shelf, lua) <==> lua(f, args)
  {
    assert ([f] + args)[1..] == args;
  }

  /** `item_value` is there, but nothing counts values: it says no whatever is received. */
  lemma ValueNever(x: string, shelf: Shelf, lua: LuaFns)
    requires '|' !in x
    ensures !Says(shelf, lua)("$item_value|" + x)
  {
    hide SplitOn, LuaCall;
    OneArg("item_value", x);
    assert "$" + "item_value" + "|" + x == "$item_value|" + x;
    NoValue(x, shelf, lua);
  }

  lemma NoValue(x: string, shelf: Shelf, lua: LuaFns)
    ensures !LuaCall(["item_value", x], shelf, lua)
  {
    assert |"has_count"| == 9 && |"has_kingdom_moons"| == 17 && |"is_opt"| == 6 && |"is_goal"| == 7;
    assert |"item_value"| == 10 && "item_value"[1] == 't' && |"is_opt_off"| == 10 && "is_opt_off"[1] == 's';
  }
}
