/** The tracker's OR-of-AND lists and the comma-joined access rules made from them
    (build_poptracker_pack.py). */
module Dnf {
  import opened Text

  /** One clause: all of its terms are needed. */
  type Clause = seq<string>
  type Dnf = seq<Clause>

  /** Which rule terms hold in the tracker. */
  type Tracking = string -> bool

  predicate ClauseVal(c: Clause, val: Tracking) {
    forall t :: t in c ==> val(t)
  }

  predicate DnfVal(d: Dnf, val: Tracking) {
    exists c :: c in d && ClauseVal(c, val)
  }

  /** The terms of `left`, then those of `right` that are not there yet. */
  function Merge(left: Clause, right: Clause): (r: Clause)
    ensures forall t :: t in r <==> t in left || t in right
    ensures left == [] && right == [] <==> r == []
    ensures NoRepeats(left) ==> NoRepeats(r)
    decreases |right|
  {
    if right == [] then left
    else Merge(if right[0] in left then left else left + [right[0]], right[1..])
  }

  function CrossOne(left: Clause, rights: Dnf): (r: Dnf)
    ensures |r| == |rights|
    ensures forall i :: 0 <= i < |r| ==> r[i] == Merge(left, rights[i])
  {
    if rights == [] then [] else [Merge(left, rights[0])] + CrossOne(left, rights[1..])
  }

  /** Every clause of `a` merged with every clause of `b`. */
  function Cross(a: Dnf, b: Dnf): Dnf {
    if a == [] then [] else CrossOne(a[0], b) + Cross(a[1..], b)
  }

  /** Clauses appended unless already listed. */
  function AddAll(acc: Dnf, more: Dnf): (r: Dnf)
    ensures forall c :: c in r <==> c in acc || c in more
    decreases |more|
  {
    if more == [] then acc else AddAll(if more[0] in acc then acc else acc + [more[0]], more[1..])
  }

  /** `_and_dnfs`: an empty operand is taken to say nothing. */
  function AndDnfs(a: Dnf, b: Dnf): Dnf {
    if a == [] then b else if b == [] then a else AddAll([], Cross(a, b))
  }

  // ----------------------------------------------------------- their meaning

  lemma MergeVal(left: Clause, right: Clause, val: Tracking)
    ensures ClauseVal(Merge(left, right), val) == (ClauseVal(left, val) && ClauseVal(right, val))
  {
  }

  lemma CrossHas(a: Dnf, b: Dnf, x: Clause, y: Clause)
    requires x in a && y in b
    ensures Merge(x, y) in Cross(a, b)
  {
    if x == a[0] {
      var i :| 0 <= i < |b| && b[i] == y;
      assert CrossOne(x, b)[i] == Merge(x, y);
    } else {
      CrossHas(a[1..], b, x, y);
    }
  }

  lemma {:induction false} CrossFrom(a: Dnf, b: Dnf, c: Clause) returns (x: Clause, y: Clause)
    requires c in Cross(a, b)
    ensures x in a && y in b && c == Merge(x, y)
  {
    if c in CrossOne(a[0], b) {
      var i :| 0 <= i < |CrossOne(a[0], b)| && CrossOne(a[0], b)[i] == c;
      x, y := a[0], b[i];
    } else {
      x, y := CrossFrom(a[1..], b, c);
    }
  }

  /** The product is conjunction. */
  lemma CrossVal(a: Dnf, b: Dnf, val: Tracking)
    ensures DnfVal(Cross(a, b), val) == (DnfVal(a, val) && DnfVal(b, val))
  {
    if DnfVal(a, val) && DnfVal(b, val) {
      var x :| x in a && ClauseVal(x, val);
      var y :| y in b && ClauseVal(y, val);
      CrossHas(a, b, x, y);
      MergeVal(x, y, val);
    }
    if DnfVal(Cross(a, b), val) {
      var c :| c in Cross(a, b) && ClauseVal(c, val);
      var x, y := CrossFrom(a, b, c);
      MergeVal(x, y, val);
    }
  }

  lemma CrossNonempty(a: Dnf, b: Dnf)
    ensures Cross(a, b) == [] <==> a == [] || b == []
  {
    if a != [] && b != [] {
      assert a[0] in a && b[0] in b;
      CrossHas(a, b, a[0], b[0]);
    } else if Cross(a, b) != [] {
      var x, y := CrossFrom(a, b, Cross(a, b)[0]);
    }
  }

  lemma AddAllVal(acc: Dnf, more: Dnf, val: Tracking)
    ensures DnfVal(AddAll(acc, more), val) == (DnfVal(acc, val) || DnfVal(more, val))
  {
  }

  lemma NoClause(val: Tracking)
    ensures !DnfVal([], val) && DnfVal([[]], val)
  {
    var none: Clause := [];
    assert none in [none] && ClauseVal(none, val);
  }

  /** `_and_dnfs` is conjunction exactly as long as it does not meet an empty operand
      whose partner holds. */
  lemma AndDnfsVal(a: Dnf, b: Dnf, val: Tracking)
    ensures DnfVal(AndDnfs(a, b), val) == (DnfVal(a, val) && DnfVal(b, val)) <==>
            !(a == [] && DnfVal(b, val)) && !(b == [] && DnfVal(a, val))
    ensures a != [] && b != [] ==> AndDnfs(a, b) != []
  {
    if a != [] && b != [] {
      CrossVal(a, b, val);
      AddAllVal([], Cross(a, b), val);
      CrossNonempty(a, b);
      assert Cross(a, b)[0] in AddAll([], Cross(a, b));
    }
  }

  /** The nested loops of `_and_dnfs`. */
  method AndLists(a: Dnf, b: Dnf) returns (result: Dnf)
    ensures result == AndDnfs(a, b)
  {
    if a == [] {
      return b;
    }
    if b == [] {
      return a;
    }
    result := [];
    var i := 0;
    while i < |a|
      invariant 0 <= i <= |a|
      invariant AddAll([], Cross(a, b)) == AddAll(result, Cross(a[i..], b))
    {
      ghost var start, later := result, Cross(a[i + 1..], b);
      assert a[i..][0] == a[i] && a[i..][1..] == a[i + 1..];
      AddAllTwice(start, CrossOne(a[i], b), later);
      var j := 0;
      while j < |b|
        invariant 0 <= j <= |b|
        invariant AddAll(start, CrossOne(a[i], b)) == AddAll(result, CrossOne(a[i], b)[j..])
      {
        var merged := MergeTerms(a[i], b[j]);
        assert CrossOne(a[i], b)[j..][0] == merged;
        assert CrossOne(a[i], b)[j..][1..] == CrossOne(a[i], b)[j + 1..];
        if merged !in result {
          result := result + [merged];
        }
        j := j + 1;
      }
      i := i + 1;
    }
  }

  method MergeTerms(left: Clause, right: Clause) returns (merged: Clause)
    ensures merged == Merge(left, right)
  {
    merged := left;
    var i := 0;
    while i < |right|
      invariant 0 <= i <= |right|
      invariant Merge(left, right) == Merge(merged, right[i..])
    {
      assert right[i..][0] == right[i] && right[i..][1..] == right[i + 1..];
      if right[i] !in merged {
        merged := merged + [right[i]];
      }
      i := i + 1;
    }
  }

  lemma {:induction false} AddAllTwice(acc: Dnf, x: Dnf, y: Dnf)
    ensures AddAll(acc, x + y) == AddAll(AddAll(acc, x), y)
    decreases |x|
  {
    if x == [] {
      assert x + y == y;
    } else {
      assert (x + y)[0] == x[0] && (x + y)[1..] == x[1..] + y;
      AddAllTwice(if x[0] in acc then acc else acc + [x[0]], x[1..], y);
    }
  }

  // -------------------------------------------------- comma-joined access rules

  function Key(c: Clause): string {
    Join(",", Sorted(c))
  }

  /** Terms that survive joining and splitting. */
  predicate CleanTerm(t: string) {
    t != "" && ',' !in t
  }

  predicate CleanClause(c: Clause) {
    forall t :: t in c ==> CleanTerm(t)
  }

  predicate CleanDnf(d: Dnf) {
    forall c :: c in d ==> CleanClause(c)
  }

  /** Equal keys mean equal terms. */
  lemma KeyTerms(c: Clause, d: Clause)
    requires c != [] && d != [] && CleanClause(c) && CleanClause(d) && Key(c) == Key(d)
    ensures forall t :: t in c <==> t in d
  {
    SortedTerms(c);
    SortedTerms(d);
    SplitJoin(Sorted(c), ',');
    SplitJoin(Sorted(d), ',');
  }

  /** The rules for the clauses still to come, given the keys seen. None: some clause asks
      for nothing, and the rules are left out altogether. */
  function RuleList(d: Dnf, seen: set<string>): Option<seq<string>> {
    if d == [] then Some([])
    else if d[0] == [] then None
    else if Key(d[0]) in seen then RuleList(d[1..], seen)
    else
      match RuleList(d[1..], seen + {Key(d[0])})
      case None => None
      case Some(rest) => Some([Join(",", d[0])] + rest)
  }

  /** `dnf_to_access_rules`. */
  function AccessRules(d: Dnf): seq<string> {
    if d == [] then ["false"]
    else
      match RuleList(d, {})
      case None => []
      case Some(rules) => rules
  }

  method DnfToAccessRules(d: Dnf) returns (rules: seq<string>)
    ensures rules == AccessRules(d)
  {
    if d == [] {
      return ["false"];
    }
    rules := [];
    var seen: set<string> := {};
    var i := 0;
    AheadNone(RuleList(d, {}));
    assert d[0..] == d;
    while i < |d|
      invariant 0 <= i <= |d|
      invariant RuleList(d, {}) == Ahead(rules, RuleList(d[i..], seen))
    {
      hide Key, Join;
      assert d[i..][0] == d[i] && d[i..][1..] == d[i + 1..];
      if d[i] == [] {
        return [];
      }
      var key := Key(d[i]);
      if key !in seen {
        seen := seen + {key};
        AheadOne(rules, Join(",", d[i]), RuleList(d[i + 1..], seen));
        rules := rules + [Join(",", d[i])];
      }
      i := i + 1;
    }
    assert rules + [] == rules;
  }

  function Ahead(done: seq<string>, r: Option<seq<string>>): Option<seq<string>> {
    match r
    case None => None
    case Some(rest) => Some(done + rest)
  }

  lemma AheadNone(r: Option<seq<string>>)
    ensures Ahead([], r) == r
  {
    if r.Some? {
      assert [] + r.value == r.value;
    }
  }

  lemma AheadOne(done: seq<string>, rule: string, r: Option<seq<string>>)
    ensures Ahead(done, Ahead([rule], r)) == Ahead(done + [rule], r)
  {
    if r.Some? {
      assert done + ([rule] + r.value) == done + [rule] + r.value;
    }
  }

  // --------------------------------------------------- how the tracker reads them

  predicate RuleVal(rule: string, val: Tracking) {
    ClauseVal(SplitOn(rule, ','), val)
  }

  /** No rules: always accessible. */
  predicate RulesVal(rules: seq<string>, val: Tracking) {
    rules == [] || exists r :: r in rules && RuleVal(r, val)
  }

  predicate SomeRule(rules: seq<string>, val: Tracking) {
    exists r :: r in rules && RuleVal(r, val)
  }

  lemma JoinedVal(c: Clause, val: Tracking)
    requires c != [] && CleanClause(c)
    ensures RuleVal(Join(",", c), val) == ClauseVal(c, val)
  {
    SplitJoin(c, ',');
  }

  /** The keys seen so far belong to clauses that do not hold. */
  ghost predicate SeenFalse(seen: set<string>, d: Dnf, val: Tracking) {
    forall c :: c in d && c != [] && Key(c) in seen ==> !ClauseVal(c, val)
  }

  lemma {:induction false} RuleListVal(d: Dnf, seen: set<string>, val: Tracking)
    requires CleanDnf(d) && SeenFalse(seen, d, val)
    ensures RuleList(d, seen).None? ==> DnfVal(d, val)
    ensures RuleList(d, seen).Some? ==> SomeRule(RuleList(d, seen).value, val) == DnfVal(d, val)
  {
    if d != [] {
      var c, rest := d[0], d[1..];
      assert c in d && d == [c] + rest;
      assert forall x :: x in rest ==> x in d;
      if c == [] {
        assert ClauseVal(c, val);
      } else if Key(c) in seen {
        RuleListVal(rest, seen, val);
      } else if ClauseVal(c, val) {
        JoinedVal(c, val);
        if RuleList(d, seen).Some? {
          assert Join(",", c) in RuleList(d, seen).value;
        }
      } else {
        KeysStayFalse(c, rest, seen, val);
        JoinedVal(c, val);
        RuleListVal(rest, seen + {Key(c)}, val);
        OneMore(c, rest, seen, val);
      }
    }
  }

  lemma KeysStayFalse(c: Clause, rest: Dnf, seen: set<string>, val: Tracking)
    requires c != [] && CleanClause(c) && CleanDnf(rest) && !ClauseVal(c, val) && SeenFalse(seen, rest, val)
    ensures SeenFalse(seen + {Key(c)}, rest, val)
  {
    forall x | x in rest && x != [] && Key(x) in seen + {Key(c)}
      ensures !ClauseVal(x, val)
    {
      if Key(x) == Key(c) {
        KeyTerms(c, x);
      }
    }
  }

  lemma OneMore(c: Clause, rest: Dnf, seen: set<string>, val: Tracking)
    requires c != [] && Key(c) !in seen && !ClauseVal(c, val) && !RuleVal(Join(",", c), val)
    ensures DnfVal([c] + rest, val) == DnfVal(rest, val)
    ensures RuleList([c] + rest, seen).Some? ==>
              RuleList(rest, seen + {Key(c)}).Some? &&
              SomeRule(RuleList([c] + rest, seen).value, val) == SomeRule(RuleList(rest, seen + {Key(c)}).value, val)
    ensures RuleList([c] + rest, seen).None? ==> RuleList(rest, seen + {Key(c)}).None?
  {
    hide RuleVal, Key, Join, ClauseVal;
    assert ([c] + rest)[1..] == rest;
    if RuleList([c] + rest, seen).Some? {
      var later := RuleList(rest, seen + {Key(c)}).value;
      assert RuleList([c] + rest, seen).value == [Join(",", c)] + later;
    }
  }

  /** Joining with commas and splitting again loses nothing, and neither does dropping the
      clauses that only repeat another's terms: the rules hold exactly when the list does. */
  lemma RulesMeaning(d: Dnf, val: Tracking)
    requires CleanDnf(d) && !val("false")
    ensures RulesVal(AccessRules(d), val) == DnfVal(d, val)
  {
    if d == [] {
      SplitNone("false", ',');
      assert "false" in SplitOn("false", ',');
    } else {
      RuleListVal(d, {}, val);
      RulesListed(d, {}, val);
    }
  }

  lemma {:induction false} RulesListed(d: Dnf, seen: set<string>, val: Tracking)
    requires d != [] && (forall c :: c in d ==> Key(c) !in seen)
    ensures RuleList(d, seen).Some? ==> RuleList(d, seen).value != []
  {
    assert d[0] in d;
  }

  /** Which terms a rule asks for, in a fixed order. */
  function KeyOf(rule: string): string {
    Key(SplitOn(rule, ','))
  }

  lemma {:induction false} RulesKeyed(d: Dnf, seen: set<string>)
    requires CleanDnf(d) && RuleList(d, seen).Some?
    ensures forall r :: r in RuleList(d, seen).value ==> KeyOf(r) !in seen
    ensures var rules := RuleList(d, seen).value;
            forall i, j :: 0 <= i < j < |rules| ==> KeyOf(rules[i]) != KeyOf(rules[j])
  {
    if d != [] {
      var c, rest := d[0], d[1..];
      assert c in d;
      assert forall x :: x in rest ==> x in d;
      if Key(c) in seen {
        RulesKeyed(rest, seen);
      } else {
        SplitJoin(c, ',');
        RulesKeyed(rest, seen + {Key(c)});
        KeyedHead(Join(",", c), RuleList(rest, seen + {Key(c)}).value, seen, Key(c));
      }
    }
  }

  lemma KeyedHead(rule: string, rest: seq<string>, seen: set<string>, key: string)
    requires KeyOf(rule) == key && key !in seen && forall r :: r in rest ==> KeyOf(r) !in seen + {key}
    requires forall i, j :: 0 <= i < j < |rest| ==> KeyOf(rest[i]) != KeyOf(rest[j])
    ensures var rules := [rule] + rest;
            && (forall r :: r in rules ==> KeyOf(r) !in seen)
            && (forall i, j :: 0 <= i < j < |rules| ==> KeyOf(rules[i]) != KeyOf(rules[j]))
  {
    hide KeyOf;
  }

  /** The two rules are made of the same terms, in whatever order. */
  predicate SameTerms(r: string, q: string) {
    multiset(SplitOn(r, ',')) == multiset(SplitOn(q, ','))
  }

  /** No two shipped rules ask for the same terms. */
  lemma RulesDistinct(d: Dnf)
    requires CleanDnf(d)
    ensures var rules := AccessRules(d);
            forall i, j :: 0 <= i < j < |rules| ==> !SameTerms(rules[i], rules[j])
  {
    if d != [] && RuleList(d, {}).Some? {
      RulesKeyed(d, {});
      forall r, q | KeyOf(r) != KeyOf(q)
        ensures !SameTerms(r, q)
      {
        SortedSame(SplitOn(r, ','), SplitOn(q, ','));
      }
    }
  }

  /** `[r.split(",") if r else [] for r in rules]`. */
  function SplitRules(rules: seq<string>): (d: Dnf)
    ensures |d| == |rules|
    ensures forall i :: 0 <= i < |d| ==> d[i] == if rules[i] == "" then [] else SplitOn(rules[i], ',')
  {
    seq(|rules|, i requires 0 <= i < |rules| => if rules[i] == "" then [] else SplitOn(rules[i], ','))
  }

  /** Rules whose split terms are clean again. */
  predicate CleanRules(rules: seq<string>) {
    forall r :: r in rules ==> CleanRule(r)
  }

  predicate CleanRule(r: string) {
    r != "" && CleanClause(SplitOn(r, ','))
  }

  lemma JoinedClean(c: Clause)
    requires c != [] && CleanClause(c)
    ensures CleanRule(Join(",", c))
  {
    SplitJoin(c, ',');
    assert c[0] in c;
  }

  lemma {:induction false} RuleListClean(d: Dnf, seen: set<string>)
    requires CleanDnf(d)
    ensures RuleList(d, seen).Some? ==> CleanRules(RuleList(d, seen).value)
  {
    hide CleanRule, CleanClause, Key, Join;
    if d != [] && d[0] != [] {
      var c := d[0];
      assert c in d;
      assert forall x :: x in d[1..] ==> x in d;
      JoinedClean(c);
      RuleListClean(d[1..], if Key(c) in seen then seen else seen + {Key(c)});
    }
  }

  lemma AccessRulesClean(d: Dnf)
    requires CleanDnf(d)
    ensures CleanRules(AccessRules(d))
  {
    if d == [] {
      SplitNone("false", ',');
    } else {
      RuleListClean(d, {});
    }
  }

  /** Splitting clean rules gives back a list that means the same. */
  lemma SplitRulesVal(rules: seq<string>, val: Tracking)
    requires CleanRules(rules) && rules != []
    ensures DnfVal(SplitRules(rules), val) == RulesVal(rules, val)
    ensures CleanDnf(SplitRules(rules)) && SplitRules(rules) != []
  {
    var d := SplitRules(rules);
    forall i | 0 <= i < |d|
      ensures d[i] == SplitOn(rules[i], ',') && CleanClause(d[i])
    {
      assert CleanRule(rules[i]);
    }
    hide SplitRules, SplitOn;
    if DnfVal(d, val) {
      var c :| c in d && ClauseVal(c, val);
      var i :| 0 <= i < |d| && d[i] == c;
      assert rules[i] in rules && RuleVal(rules[i], val);
    }
    if r :| r in rules && RuleVal(r, val) {
      var i :| 0 <= i < |rules| && rules[i] == r;
      assert d[i] in d && ClauseVal(d[i], val);
    }
  }
}
