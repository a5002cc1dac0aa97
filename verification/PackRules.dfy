/** From parsed requirement to access rules (build_poptracker_pack.py): item codes, the
    inlined rule functions and the OR-of-AND normal form. */
module PackRules {
  import opened Text
  import opened PackLexer
  import opened PackParser
  import opened Dnf

  // ------------------------------------------------------------------- terms

  predicate IsCodeChar(c: char) {
    'a' <= c <= 'z' || IsDigit(c)
  }

  /** Each run of other characters becomes one underscore. */
  function Coded(s: string, inRun: bool): (r: string)
    ensures forall c :: c in r ==> IsCodeChar(c) || c == '_'
  {
    if s == "" then ""
    else if IsCodeChar(s[0]) then [s[0]] + Coded(s[1..], false)
    else (if inRun then "" else "_") + Coded(s[1..], true)
  }

  function TrimBars(s: string): (r: string)
    ensures forall c :: c in r ==> c in s
    decreases |s|
  {
    if s != "" && s[0] == '_' then TrimBars(s[1..])
    else if s != "" && s[|s| - 1] == '_' then TrimBars(s[..|s| - 1])
    else s
  }

  /** `code_for`. */
  function CodeFor(name: string): (r: string)
    ensures forall c :: c in r ==> IsCodeChar(c) || c == '_'
  {
    TrimBars(Coded(Lower(name), false))
  }

  /** `_item_rule`: nothing is asked for a count of zero. */
  function ItemRule(name: string, count: nat): Option<string> {
    if count == 0 then None
    else if count == 1 then Some(CodeFor(name))
    else Some("$has_count|" + CodeFor(name) + "|" + NatText(count))
  }

  function ItemClause(name: string, count: nat): Clause {
    match ItemRule(name, count)
    case None => []
    case Some(rule) => if rule == "" then [] else [rule]
  }

  const CAPTURES_OFF := "$capturesanity_off"

  predicate IsUpper(c: char) {
    'A' <= c <= 'Z'
  }

  function Humps(s: string): string {
    if s == "" then "" else (if IsUpper(s[0]) then "_" else "") + [LowerChar(s[0])] + Humps(s[1..])
  }

  function SnakeCase(s: string): string {
    if s == "" then "" else [LowerChar(s[0])] + Humps(s[1..])
  }

  /** A capital and no other. */
  predicate Capitalised(w: string) {
    w != "" && IsUpper(w[0]) && forall i :: 1 <= i < |w| ==> !IsUpper(w[i])
  }

  function Lowered(words: seq<string>): (r: seq<string>)
    ensures |r| == |words|
    ensures forall i :: 0 <= i < |r| ==> r[i] == Lower(words[i])
  {
    seq(|words|, i requires 0 <= i < |words| => Lower(words[i]))
  }

  lemma {:induction false} HumpsFlat(w: string, rest: string)
    requires forall i :: 0 <= i < |w| ==> !IsUpper(w[i])
    ensures Humps(w + rest) == Lower(w) + Humps(rest)
  {
    if w == "" {
      assert w + rest == rest;
      assert Lower(w) + Humps(rest) == Humps(rest);
    } else {
      var all := w + rest;
      assert all[0] == w[0] && all[1..] == w[1..] + rest;
      HumpsFlat(w[1..], rest);
      assert Lower(w) == [LowerChar(w[0])] + Lower(w[1..]);
    }
  }

  lemma HumpsWord(w: string, rest: string)
    requires Capitalised(w)
    ensures Humps(w + rest) == "_" + Lower(w) + Humps(rest)
  {
    var all := w + rest;
    assert all[0] == w[0] && all[1..] == w[1..] + rest;
    HumpsFlat(w[1..], rest);
    assert Lower(w) == [LowerChar(w[0])] + Lower(w[1..]);
  }

  lemma {:induction false} HumpsWords(words: seq<string>)
    requires forall w :: w in words ==> Capitalised(w)
    ensures Humps(Join("", words)) == if words == [] then "" else "_" + Join("_", Lowered(words))
  {
    hide Capitalised, Lower, Humps, Join, Lowered;
    if words == [] {
      NoHumps();
    } else {
      var w, rest := words[0], words[1..];
      HumpsWord(w, Join("", rest));
      assert words == [w] + rest;
      assert forall x :: x in rest ==> x in words;
      HumpsWords(rest);
      GluedHead(words);
      NoHumps();
      BarredHead(words);
    }
  }

  lemma BarredHead(words: seq<string>)
    requires words != []
    ensures Join("_", Lowered(words)) ==
            Lower(words[0]) + if words[1..] == [] then "" else "_" + Join("_", Lowered(words[1..]))
  {
    hide Lower;
    assert Lowered(words)[0] == Lower(words[0]) && Lowered(words)[1..] == Lowered(words[1..]);
    assert |words| == 1 ==> Lower(words[0]) + "" == Lower(words[0]);
  }

  lemma NoHumps()
    ensures Humps("") == "" && Join("", []) == ""
  {
  }

  lemma GluedHead(words: seq<string>)
    requires words != []
    ensures Join("", words) == words[0] + Join("", words[1..])
  {
  }

  /** The helper of a name made of capitalised words is called by these words in lower case,
      with underscores between them. */
  lemma SnakeWords(words: seq<string>)
    requires words != [] && forall w :: w in words ==> Capitalised(w)
    ensures SnakeCase(Join("", words)) == Join("_", Lowered(words))
  {
    hide Lower, Humps;
    var name := Join("", words);
    HumpsWords(words);
    GluedHead(words);
    assert words[0] in words && name[0] == words[0][0];
    SnakeHumps(name);
    assert ("_" + SnakeCase(name))[1..] == SnakeCase(name);
    assert ("_" + Join("_", Lowered(words)))[1..] == Join("_", Lowered(words));
  }

  /** Apart from the underscore in front. */
  lemma SnakeHumps(s: string)
    requires s != "" && IsUpper(s[0])
    ensures Humps(s) == "_" + SnakeCase(s)
  {
  }

  /** `_func_to_dnf` apart from `OptAll`, which parses its argument. */
  function CallDnf(f: string, args: seq<string>): Result<Dnf> {
    if f == "OptOne" then
      if args == [] then Ok([[]]) else Ok([[CAPTURES_OFF], [CodeFor(args[0])]])
    else if f == "OptAll" then Ok([[]])
    else if f == "YamlDisabled" then
      if args == [] then Ok([[]]) else Ok([["$is_opt_off|" + Strip(args[0])]])
    else if f == "YamlEnabled" then
      if args == [] then Ok([[]]) else Ok([["$is_opt|" + Strip(args[0])]])
    else if f == "KingdomMoons" then
      if |args| != 2 then Raised
      else Ok([["$has_kingdom_moons|" + Strip(args[0]) + "|" + Strip(args[1])]])
    else if f == "ItemValue" then
      if args == [] then Ok([[]]) else Ok([["$item_value|" + Strip(args[0])]])
    else if args == [] then Ok([["$" + SnakeCase(f)]])
    else Ok([["$" + SnakeCase(f) + "|" + Join("|", StripAll(args))]])
  }

  // --------------------------------------- why parsing an argument terminates

  /** Tokens in a text. */
  function Count(s: string): nat {
    match Tokenize(s)
    case Raised => 0
    case Ok(ts) => |ts|
  }

  function MaxCount(args: seq<string>): (n: nat)
    ensures forall x :: x in args ==> Count(x) <= n
  {
    if args == [] then 0
    else
      var n := MaxCount(args[1..]);
      if Count(args[0]) > n then Count(args[0]) else n
  }

  /** More than the tokens of any argument in the tree. */
  function Rank(a: Ast): (n: nat)
    ensures a.Func? ==> forall x :: x in a.args ==> Count(x) < n
    ensures a.AllOf? || a.AnyOf? ==> forall i :: 0 <= i < |a.children| ==> Rank(a.children[i]) <= n
    decreases a
  {
    match a
    case Func(_, args) => 1 + MaxCount(args)
    case AllOf(cs) => MaxRank(a, cs)
    case AnyOf(cs) => MaxRank(a, cs)
    case _ => 0
  }

  function MaxRank(a: Ast, cs: seq<Ast>): (n: nat)
    requires forall i :: 0 <= i < |cs| ==> cs[i] < a
    ensures forall i :: 0 <= i < |cs| ==> Rank(cs[i]) <= n
    decreases a, |cs|
  {
    if cs == [] then 0
    else
      var n := MaxRank(a, cs[1..]);
      assert forall i :: 1 <= i < |cs| ==> cs[i] == cs[1..][i - 1];
      if Rank(cs[0]) > n then Rank(cs[0]) else n
  }

  lemma MaxCountAtMost(args: seq<string>, n: nat)
    requires forall x :: x in args ==> Count(x) <= n
    ensures MaxCount(args) <= n
  {
  }

  lemma {:induction false} MaxRankAtMost(a: Ast, cs: seq<Ast>, n: nat)
    requires forall i :: 0 <= i < |cs| ==> cs[i] < a && Rank(cs[i]) <= n
    ensures MaxRank(a, cs) <= n
    decreases |cs|
  {
    if cs != [] {
      MaxRankAtMost(a, cs[1..], n);
    }
  }

  lemma GroupRank(cs: seq<Ast>, n: nat)
    requires cs != [] && forall i :: 0 <= i < |cs| ==> Rank(cs[i]) <= n
    ensures Rank(AndOf(cs)) <= n && Rank(OrOf(cs)) <= n
  {
    if |cs| > 1 {
      MaxRankAtMost(AllOf(cs), cs, n);
      MaxRankAtMost(AnyOf(cs), cs, n);
    }
  }

  /** Rebuilt text has at most the tokens it was built from. */
  lemma RebuiltCount(run: seq<Token>)
    requires AllScanned(run)
    ensures Count(Strip(Emit(run))) <= |run|
  {
    hide Strip, Emit, Tokenize, Melt;
    StripKeepsTokens(Emit(run));
    EmitMelts("", run);
    EmptyFront(Emit(run));
    MeltKeeps("", run);
    assert Flushed("") == [];
  }

  lemma {:induction false} TakeArgsRank(ts: seq<Token>, args: seq<string>, run: seq<Token>, d: nat, n: nat)
    requires AllScanned(run) && AllScanned(ts) && |run| + |ts| <= n
    requires forall x :: x in args ==> Count(x) <= n
    ensures var r := TakeArgs(ts, args, Emit(run), d);
            r.Ok? ==> AllScanned(r.value.rest) && forall x :: x in r.value.texts ==> Count(x) <= n
    decreases |ts|
  {
    hide Strip, EmitToken, Count, Scanned, Emit;
    if ts != [] {
      var t, rest := ts[0], ts[1..];
      assert AllScanned(rest);
      RebuiltCount(run);
      if t.RParen? && d == 0 {
      } else if t.Comma? && d == 0 {
        assert Emit([]) == "" by {
          EmitNone();
        }
        TakeArgsRank(rest, args + [Strip(Emit(run))], [], 0, n);
      } else {
        EmitSnoc(run, t);
        assert AllScanned(run + [t]);
        TakeArgsRank(rest, args, run + [t], if t.LParen? then d + 1 else if t.RParen? then d - 1 else d, n);
      }
    }
  }

  lemma EmitNone()
    ensures Emit([]) == ""
  {
  }

  lemma {:induction false} EmitSnoc(run: seq<Token>, t: Token)
    ensures Emit(run + [t]) == Emit(run) + EmitToken(t)
  {
    hide EmitToken;
    if run == [] {
      assert run + [t] == [t] && [t][1..] == [];
      assert EmitToken(t) + "" == EmitToken(t) == "" + EmitToken(t);
    } else {
      assert (run + [t])[1..] == run[1..] + [t];
      EmitSnoc(run[1..], t);
      Regroup(EmitToken(run[0]), Emit(run[1..]), EmitToken(t));
    }
  }

  lemma FuncRank(ts: seq<Token>)
    requires AllScanned(ts) && FuncNode(ts).Ok?
    ensures AllScanned(FuncNode(ts).value.rest) && Rank(FuncNode(ts).value.node) <= |ts|
  {
    hide Strip, Emit, Count;
    assert AllScanned(ts[3..]);
    EmitNone();
    TakeArgsRank(ts[3..], [], [], 0, |ts| - 3);
    MaxCountAtMost(TakeArgs(ts[3..], [], "", 0).value.texts, |ts| - 3);
  }

  lemma {:induction false} AtomRank(ts: seq<Token>)
    requires AllScanned(ts) && ParseAtom(ts).Ok?
    ensures AllScanned(ParseAtom(ts).value.rest) && Rank(ParseAtom(ts).value.node) <= |ts|
    decreases |ts|, 0
  {
    hide Scanned, FuncNode;
    assert AllScanned(ts[1..]);
    if ts[0].LParen? {
      ChainRank(ts[1..]);
    } else if ts[0].LBrace? {
      FuncRank(ts);
    }
  }

  lemma {:induction false} AndTailRank(ts: seq<Token>, cs: seq<Ast>, n: nat)
    requires AllScanned(ts) && cs != [] && AndTail(ts, cs).Ok? && |ts| <= n
    requires forall i :: 0 <= i < |cs| ==> Rank(cs[i]) <= n
    ensures AllScanned(AndTail(ts, cs).value.rest) && Rank(AndTail(ts, cs).value.node) <= n
    decreases |ts|, 1
  {
    hide Scanned, ParseAtom, AndOf;
    GroupRank(cs, n);
    if ts != [] && ts[0].AndTok? {
      assert AllScanned(ts[1..]);
      AtomRank(ts[1..]);
      var p := ParseAtom(ts[1..]).value;
      AndTailRank(p.rest, cs + [p.node], n);
    }
  }

  lemma {:induction false} RunRank(ts: seq<Token>)
    requires AllScanned(ts) && ParseAnd(ts).Ok?
    ensures AllScanned(ParseAnd(ts).value.rest) && Rank(ParseAnd(ts).value.node) <= |ts|
    decreases |ts|, 2
  {
    hide Scanned, ParseAtom, AndTail;
    AtomRank(ts);
    var p := ParseAtom(ts).value;
    AndTailRank(p.rest, [p.node], |ts|);
  }

  lemma {:induction false} OrTailRank(ts: seq<Token>, cs: seq<Ast>, n: nat)
    requires AllScanned(ts) && cs != [] && OrTail(ts, cs).Ok? && |ts| <= n
    requires forall i :: 0 <= i < |cs| ==> Rank(cs[i]) <= n
    ensures AllScanned(OrTail(ts, cs).value.rest) && Rank(OrTail(ts, cs).value.node) <= n
    decreases |ts|, 3
  {
    hide Scanned, ParseAnd, OrOf;
    GroupRank(cs, n);
    if ts != [] && ts[0].OrTok? {
      assert AllScanned(ts[1..]);
      RunRank(ts[1..]);
      var p := ParseAnd(ts[1..]).value;
      OrTailRank(p.rest, cs + [p.node], n);
    }
  }

  lemma {:induction false} ChainRank(ts: seq<Token>)
    requires AllScanned(ts) && ParseOr(ts).Ok?
    ensures AllScanned(ParseOr(ts).value.rest) && Rank(ParseOr(ts).value.node) <= |ts|
    decreases |ts|, 4
  {
    hide Scanned, ParseAnd, OrTail;
    RunRank(ts);
    var p := ParseAnd(ts).value;
    OrTailRank(p.rest, [p.node], |ts|);
  }

  /** The arguments in a parsed tree have fewer tokens than the text it was parsed from,
      so expanding `OptAll` ends. */
  lemma ParsedRank(s: string)
    ensures ParseRequires(s).Ok? ==> Rank(ParseRequires(s).value) <= Count(s)
  {
    hide Tokenize, ParseOr, ParseRequires;
    ParseByTokens(s);
    TokenizeScanned(s);
    if ParseRequires(s).Ok? && Tokenize(s).value != [] {
      ChainRank(Tokenize(s).value);
    }
  }

  // --------------------------------------------------------- the normal form

  /** `to_dnf`. */
  function ToDnf(a: Ast): Result<Dnf>
    decreases Rank(a), a
  {
    match a
    case True => Ok([[]])
    case False => Ok([])
    case Need(n, k) => Ok([ItemClause(n, k)])
    case Func(f, args) =>
      if f == "OptAll" && args != [] then
        ParsedRank(args[0]);
        match ParseRequires(args[0])
        case Raised => Raised
        case Ok(inner) =>
          match ToDnf(inner)
          case Raised => Raised
          case Ok(d) => Ok(AddAll([[CAPTURES_OFF]], d))
      else CallDnf(f, args)
    case AllOf(cs) => ProductAll(a, cs, [[]])
    case AnyOf(cs) => UnionAll(a, cs, [])
  }

  /** The product over `cs`, starting from `result`; an empty product ends the loop. */
  function ProductAll(a: Ast, cs: seq<Ast>, result: Dnf): Result<Dnf>
    requires forall i :: 0 <= i < |cs| ==> cs[i] < a && Rank(cs[i]) <= Rank(a)
    decreases Rank(a), a, |cs|
  {
    if cs == [] then Ok(result)
    else
      match ToDnf(cs[0])
      case Raised => Raised
      case Ok(d) =>
        if Cross(result, d) == [] then Ok([])
        else
          assert forall i :: 0 <= i < |cs[1..]| ==> cs[1..][i] == cs[i + 1];
          ProductAll(a, cs[1..], Cross(result, d))
  }

  function UnionAll(a: Ast, cs: seq<Ast>, result: Dnf): Result<Dnf>
    requires forall i :: 0 <= i < |cs| ==> cs[i] < a && Rank(cs[i]) <= Rank(a)
    decreases Rank(a), a, |cs|
  {
    if cs == [] then Ok(result)
    else
      match ToDnf(cs[0])
      case Raised => Raised
      case Ok(d) =>
        assert forall i :: 0 <= i < |cs[1..]| ==> cs[1..][i] == cs[i + 1];
        UnionAll(a, cs[1..], AddAll(result, d))
  }

  // ----------------------------------------------------- what the tree means

  predicate NeedMet(name: string, count: nat, val: Tracking) {
    match ItemRule(name, count)
    case None => true
    case Some(rule) => rule == "" || val(rule)
  }

  predicate CallMet(f: string, args: seq<string>, val: Tracking) {
    if f == "OptOne" then args == [] || val(CAPTURES_OFF) || val(CodeFor(args[0]))
    else if f == "OptAll" then true
    else if f == "YamlDisabled" then args == [] || val("$is_opt_off|" + Strip(args[0]))
    else if f == "YamlEnabled" then args == [] || val("$is_opt|" + Strip(args[0]))
    else if f == "KingdomMoons" then
      |args| == 2 && val("$has_kingdom_moons|" + Strip(args[0]) + "|" + Strip(args[1]))
    else if f == "ItemValue" then args == [] || val("$item_value|" + Strip(args[0]))
    else val("$" + SnakeCase(f) + if args == [] then "" else "|" + Join("|", StripAll(args)))
  }

  /** A requirement in the tracker's terms; `OptAll` also holds when captures are not
      shuffled. */
  predicate TrackerVal(a: Ast, val: Tracking)
    decreases Rank(a), a
  {
    match a
    case True => true
    case False => false
    case Need(n, k) => NeedMet(n, k, val)
    case Func(f, args) =>
      if f == "OptAll" && args != [] then
        ParsedRank(args[0]);
        val(CAPTURES_OFF) ||
        match ParseRequires(args[0])
        case Raised => false
        case Ok(inner) => TrackerVal(inner, val)
      else CallMet(f, args, val)
    case AllOf(cs) => forall i :: 0 <= i < |cs| ==> TrackerVal(cs[i], val)
    case AnyOf(cs) => exists i :: 0 <= i < |cs| && TrackerVal(cs[i], val)
  }

  lemma OneClause(c: Clause, val: Tracking)
    ensures DnfVal([c], val) == ClauseVal(c, val)
  {
    assert c in [c];
  }

  lemma OneTerm(t: string, val: Tracking)
    ensures ClauseVal([t], val) == val(t)
    ensures ClauseVal([], val)
    ensures DnfVal([[t]], val) == val(t)
  {
    assert t in [t];
    OneClause([t], val);
  }

  lemma EitherTerm(s: string, t: string, val: Tracking)
    ensures DnfVal([[s], [t]], val) == (val(s) || val(t))
  {
    var d: Dnf := [[s], [t]];
    OneTerm(s, val);
    OneTerm(t, val);
    assert [s] in d && [t] in d && forall c :: c in d ==> c == [s] || c == [t];
  }

  lemma CallDnfVal(f: string, args: seq<string>, val: Tracking)
    requires CallDnf(f, args).Ok?
    ensures DnfVal(CallDnf(f, args).value, val) == CallMet(f, args, val)
    ensures CallDnf(f, args).value != []
  {
    hide CodeFor, Strip, SnakeCase, StripAll, Join, DnfVal;
    NoClause(val);
    if f == "OptOne" && args != [] {
      EitherTerm(CAPTURES_OFF, CodeFor(args[0]), val);
    } else if CallDnf(f, args).value != [[]] {
      OneTerm(CallDnf(f, args).value[0][0], val);
      var plain := "$" + SnakeCase(f);
      assert plain + "" == plain;
      Regroup(plain, "|", Join("|", StripAll(args)));
    }
  }

  /** The normal form means what the tree means. */
  lemma {:induction false} DnfMeaning(a: Ast, val: Tracking)
    requires ToDnf(a).Ok?
    ensures DnfVal(ToDnf(a).value, val) == TrackerVal(a, val)
    decreases Rank(a), a
  {
    hide CallDnf, CallMet, ParseRequires, DnfVal, ItemRule;
    NoClause(val);
    match a
    case True =>
    case False =>
    case Need(n, k) => NeedVal(n, k, val);
    case Func(f, args) =>
      if f == "OptAll" && args != [] {
        ParsedRank(args[0]);
        var inner := ParseRequires(args[0]).value;
        DnfMeaning(inner, val);
        AddAllVal([[CAPTURES_OFF]], ToDnf(inner).value, val);
        OneTerm(CAPTURES_OFF, val);
      } else {
        CallDnfVal(f, args, val);
      }
    case AllOf(cs) => ProductMeaning(a, cs, [[]], val);
    case AnyOf(cs) => UnionMeaning(a, cs, [], val);
  }

  lemma NeedVal(name: string, count: nat, val: Tracking)
    ensures DnfVal([ItemClause(name, count)], val) == NeedMet(name, count, val)
  {
    hide ItemRule;
    OneClause(ItemClause(name, count), val);
    if ItemClause(name, count) != [] {
      OneTerm(ItemClause(name, count)[0], val);
    }
  }

  lemma {:induction false} ProductMeaning(a: Ast, cs: seq<Ast>, result: Dnf, val: Tracking)
    requires forall i :: 0 <= i < |cs| ==> cs[i] < a && Rank(cs[i]) <= Rank(a)
    requires ProductAll(a, cs, result).Ok?
    ensures DnfVal(ProductAll(a, cs, result).value, val) ==
            (DnfVal(result, val) && forall i :: 0 <= i < |cs| ==> TrackerVal(cs[i], val))
    decreases Rank(a), a, |cs|
  {
    hide DnfVal, TrackerVal, ToDnf;
    if cs != [] {
      var rest := cs[1..];
      assert forall i :: 0 <= i < |rest| ==> rest[i] == cs[i + 1];
      DnfMeaning(cs[0], val);
      var d := ToDnf(cs[0]).value;
      CrossVal(result, d, val);
      NoClause(val);
      if Cross(result, d) != [] {
        ProductMeaning(a, rest, Cross(result, d), val);
        assert (forall i :: 0 <= i < |cs| ==> TrackerVal(cs[i], val)) <==>
               TrackerVal(cs[0], val) && forall i :: 0 <= i < |rest| ==> TrackerVal(rest[i], val) by {
          assert forall i :: 1 <= i < |cs| ==> cs[i] == rest[i - 1];
        }
      }
    }
  }

  lemma {:induction false} UnionMeaning(a: Ast, cs: seq<Ast>, result: Dnf, val: Tracking)
    requires forall i :: 0 <= i < |cs| ==> cs[i] < a && Rank(cs[i]) <= Rank(a)
    requires UnionAll(a, cs, result).Ok?
    ensures DnfVal(UnionAll(a, cs, result).value, val) ==
            (DnfVal(result, val) || exists i :: 0 <= i < |cs| && TrackerVal(cs[i], val))
    decreases Rank(a), a, |cs|
  {
    hide DnfVal, TrackerVal, ToDnf;
    if cs != [] {
      var rest := cs[1..];
      assert forall i :: 0 <= i < |rest| ==> rest[i] == cs[i + 1];
      DnfMeaning(cs[0], val);
      var d := ToDnf(cs[0]).value;
      AddAllVal(result, d, val);
      UnionMeaning(a, rest, AddAll(result, d), val);
      assert (exists i :: 0 <= i < |cs| && TrackerVal(cs[i], val)) <==>
             TrackerVal(cs[0], val) || exists i :: 0 <= i < |rest| && TrackerVal(rest[i], val) by {
        if i :| 1 <= i < |cs| && TrackerVal(cs[i], val) {
          assert rest[i - 1] == cs[i];
        }
        if i :| 0 <= i < |rest| && TrackerVal(rest[i], val) {
          assert cs[i + 1] == rest[i];
        }
      }
    }
  }

  // ------------------------------------- a parsed requirement is never "false"

  /** Trees as the parser builds them: no `False`, and every `or` has an operand. */
  predicate Grown(a: Ast) {
    match a
    case False => false
    case AllOf(cs) => forall i :: 0 <= i < |cs| ==> Grown(cs[i])
    case AnyOf(cs) => cs != [] && forall i :: 0 <= i < |cs| ==> Grown(cs[i])
    case _ => true
  }

  lemma {:induction false} AtomGrown(ts: seq<Token>)
    ensures ParseAtom(ts).Ok? ==> Grown(ParseAtom(ts).value.node)
    decreases |ts|, 0
  {
    hide Grown;
    if ts != [] && ts[0].LParen? {
      ChainGrown(ts[1..]);
    } else {
      LeafGrown(ts);
    }
  }

  lemma LeafGrown(ts: seq<Token>)
    requires ts == [] || !ts[0].LParen?
    ensures ParseAtom(ts).Ok? ==> Grown(ParseAtom(ts).value.node)
  {
    hide TakeArgs, Strip, ParseInt;
  }

  lemma {:induction false} AndTailGrown(ts: seq<Token>, cs: seq<Ast>)
    requires cs != [] && forall i :: 0 <= i < |cs| ==> Grown(cs[i])
    ensures AndTail(ts, cs).Ok? ==> Grown(AndTail(ts, cs).value.node)
    decreases |ts|, 1
  {
    hide ParseAtom;
    if ts != [] && ts[0].AndTok? && ParseAtom(ts[1..]).Ok? {
      AtomGrown(ts[1..]);
      var p := ParseAtom(ts[1..]).value;
      AndTailGrown(p.rest, cs + [p.node]);
    }
  }

  lemma {:induction false} RunGrown(ts: seq<Token>)
    ensures ParseAnd(ts).Ok? ==> Grown(ParseAnd(ts).value.node)
    decreases |ts|, 2
  {
    hide ParseAtom, AndTail, Grown;
    AtomGrown(ts);
    if ParseAtom(ts).Ok? {
      AndTailGrown(ParseAtom(ts).value.rest, [ParseAtom(ts).value.node]);
    }
  }

  lemma {:induction false} OrTailGrown(ts: seq<Token>, cs: seq<Ast>)
    requires cs != [] && forall i :: 0 <= i < |cs| ==> Grown(cs[i])
    ensures OrTail(ts, cs).Ok? ==> Grown(OrTail(ts, cs).value.node)
    decreases |ts|, 3
  {
    hide ParseAnd;
    if ts != [] && ts[0].OrTok? && ParseAnd(ts[1..]).Ok? {
      RunGrown(ts[1..]);
      var p := ParseAnd(ts[1..]).value;
      OrTailGrown(p.rest, cs + [p.node]);
    }
  }

  lemma {:induction false} ChainGrown(ts: seq<Token>)
    ensures ParseOr(ts).Ok? ==> Grown(ParseOr(ts).value.node)
    decreases |ts|, 4
  {
    hide ParseAnd, OrTail, Grown;
    RunGrown(ts);
    if ParseAnd(ts).Ok? {
      OrTailGrown(ParseAnd(ts).value.rest, [ParseAnd(ts).value.node]);
    }
  }

  lemma ParsedGrown(s: string)
    ensures ParseRequires(s).Ok? ==> Grown(ParseRequires(s).value)
  {
    hide Tokenize, ParseRequires, ParseOr;
    ParseByTokens(s);
    if ParseRequires(s).Ok? {
      ChainGrown(Tokenize(s).value);
    }
  }

  /** Every `KingdomMoons` has two arguments and every `OptAll` argument parses. */
  predicate WellCalled(a: Ast)
    decreases Rank(a), a
  {
    match a
    case Func(f, args) =>
      if f == "OptAll" && args != [] then
        ParsedRank(args[0]);
        ParseRequires(args[0]).Ok? && WellCalled(ParseRequires(args[0]).value)
      else f == "KingdomMoons" ==> |args| == 2
    case AllOf(cs) => forall i :: 0 <= i < |cs| ==> WellCalled(cs[i])
    case AnyOf(cs) => forall i :: 0 <= i < |cs| ==> WellCalled(cs[i])
    case _ => true
  }

  /** Parsed trees never become an empty list of clauses, and the conversion raises
      exactly on an ill-called function. */
  lemma {:induction false} NeverFalse(a: Ast)
    requires Grown(a)
    ensures ToDnf(a).Ok? <==> WellCalled(a)
    ensures ToDnf(a).Ok? ==> ToDnf(a).value != []
    decreases Rank(a), a
  {
    hide ParseRequires, ItemClause;
    match a
    case True =>
    case Need(_, _) =>
    case Func(f, args) =>
      if f == "OptAll" && args != [] {
        ParsedRank(args[0]);
        ParsedGrown(args[0]);
        if ParseRequires(args[0]).Ok? {
          NeverFalse(ParseRequires(args[0]).value);
          OptAllNonempty(ParseRequires(args[0]).value);
        }
      } else {
        CallDnfRaises(f, args);
      }
    case AllOf(cs) => ProductNonempty(a, cs, [[]]);
    case AnyOf(cs) => UnionNonempty(a, cs, []);
  }

  lemma OptAllNonempty(inner: Ast)
    ensures ToDnf(inner).Ok? ==> AddAll([[CAPTURES_OFF]], ToDnf(inner).value) != []
  {
    hide ToDnf;
    if ToDnf(inner).Ok? {
      var off: Dnf := [[CAPTURES_OFF]];
      assert off[0] in AddAll(off, ToDnf(inner).value);
    }
  }

  lemma CallDnfRaises(f: string, args: seq<string>)
    ensures CallDnf(f, args).Raised? <==> f == "KingdomMoons" && |args| != 2
    ensures CallDnf(f, args).Ok? ==> CallDnf(f, args).value != []
  {
    hide CodeFor, Strip, SnakeCase, StripAll, Join;
  }

  lemma {:induction false} ProductNonempty(a: Ast, cs: seq<Ast>, result: Dnf)
    requires forall i :: 0 <= i < |cs| ==> cs[i] < a && Rank(cs[i]) <= Rank(a) && Grown(cs[i])
    requires result != []
    ensures ProductAll(a, cs, result).Ok? <==> forall i :: 0 <= i < |cs| ==> WellCalled(cs[i])
    ensures ProductAll(a, cs, result).Ok? ==> ProductAll(a, cs, result).value != []
    decreases Rank(a), a, |cs|
  {
    hide ToDnf, WellCalled, Grown, Cross;
    if cs != [] {
      var rest := cs[1..];
      assert forall i :: 0 <= i < |rest| ==> rest[i] == cs[i + 1];
      assert forall i :: 1 <= i < |cs| ==> cs[i] == rest[i - 1];
      NeverFalse(cs[0]);
      if ToDnf(cs[0]).Ok? {
        var d := ToDnf(cs[0]).value;
        CrossNonempty(result, d);
        ProductNonempty(a, rest, Cross(result, d));
      }
    }
  }

  lemma {:induction false} UnionNonempty(a: Ast, cs: seq<Ast>, result: Dnf)
    requires forall i :: 0 <= i < |cs| ==> cs[i] < a && Rank(cs[i]) <= Rank(a) && Grown(cs[i])
    ensures UnionAll(a, cs, result).Ok? <==> forall i :: 0 <= i < |cs| ==> WellCalled(cs[i])
    ensures UnionAll(a, cs, result).Ok? && (cs != [] || result != []) ==> UnionAll(a, cs, result).value != []
    decreases Rank(a), a, |cs|
  {
    hide ToDnf, WellCalled, Grown;
    if cs != [] {
      var rest := cs[1..];
      assert forall i :: 0 <= i < |rest| ==> rest[i] == cs[i + 1];
      assert forall i :: 1 <= i < |cs| ==> cs[i] == rest[i - 1];
      NeverFalse(cs[0]);
      if ToDnf(cs[0]).Ok? {
        var d := ToDnf(cs[0]).value;
        assert d[0] in AddAll(result, d);
        UnionNonempty(a, rest, AddAll(result, d));
      }
    }
  }

  // ------------------------------------------------------------- clean terms

  predicate NoComma(s: string) {
    ',' !in s
  }

  /** Function names and arguments hold no comma, and `OptOne` names an item with a code. */
  predicate CleanAst(a: Ast)
    decreases Rank(a), a
  {
    match a
    case Func(f, args) =>
      if f == "OptAll" && args != [] then
        ParsedRank(args[0]);
        ParseRequires(args[0]).Ok? ==> CleanAst(ParseRequires(args[0]).value)
      else
        && NoComma(f) && (forall x :: x in args ==> NoComma(x))
        && (f == "OptOne" && args != [] ==> CodeFor(args[0]) != "")
    case AllOf(cs) => forall i :: 0 <= i < |cs| ==> CleanAst(cs[i])
    case AnyOf(cs) => forall i :: 0 <= i < |cs| ==> CleanAst(cs[i])
    case _ => true
  }

  lemma StripComma(s: string)
    requires NoComma(s)
    ensures NoComma(Strip(s))
  {
    assert forall c :: c in StripLeft(s) ==> c in s;
    assert forall c :: c in Strip(s) ==> c in StripLeft(s);
  }

  lemma {:induction false} HumpsComma(s: string)
    requires NoComma(s)
    ensures NoComma(Humps(s))
  {
    if s != "" {
      assert s[0] in s;
      HumpsComma(s[1..]);
    }
  }

  lemma SnakeComma(s: string)
    requires NoComma(s)
    ensures NoComma(SnakeCase(s))
  {
    if s != "" {
      assert s[0] in s;
      HumpsComma(s[1..]);
    }
  }

  lemma {:induction false} JoinComma(args: seq<string>)
    requires forall x :: x in args ==> NoComma(x)
    ensures NoComma(Join("|", args))
  {
    if args != [] {
      assert args[0] in args;
      JoinComma(args[1..]);
    }
  }

  lemma CallDnfClean(f: string, args: seq<string>)
    requires CallDnf(f, args).Ok? && NoComma(f) && forall x :: x in args ==> NoComma(x)
    requires f == "OptOne" && args != [] ==> CodeFor(args[0]) != ""
    ensures CleanDnf(CallDnf(f, args).value)
  {
    hide Strip, SnakeCase, StripAll, Join, CodeFor;
    if args != [] {
      StripComma(args[0]);
      CodeComma(args[0]);
      if |args| == 2 {
        StripComma(args[1]);
      }
    }
    SnakeComma(f);
    StripAllComma(args);
    JoinComma(StripAll(args));
  }

  lemma CodeComma(name: string)
    ensures NoComma(CodeFor(name))
  {
  }

  lemma StripAllComma(args: seq<string>)
    requires forall x :: x in args ==> NoComma(x)
    ensures forall x :: x in StripAll(args) ==> NoComma(x)
  {
    hide Strip;
    forall x | x in StripAll(args)
      ensures NoComma(x)
    {
      var i :| 0 <= i < |StripAll(args)| && StripAll(args)[i] == x;
      StripComma(args[i]);
    }
  }

  lemma ItemClean(name: string, count: nat)
    ensures CleanClause(ItemClause(name, count))
  {
    assert NoComma(CodeFor(name)) && NoComma(NatText(count));
  }

  lemma CrossClean(a: Dnf, b: Dnf)
    requires CleanDnf(a) && CleanDnf(b)
    ensures CleanDnf(Cross(a, b))
  {
    forall c | c in Cross(a, b)
      ensures CleanClause(c)
    {
      var x, y := CrossFrom(a, b, c);
    }
  }

  /** The normal form of a clean tree survives joining with commas. */
  lemma {:induction false} DnfClean(a: Ast)
    requires CleanAst(a) && ToDnf(a).Ok?
    ensures CleanDnf(ToDnf(a).value)
    decreases Rank(a), a
  {
    hide CallDnf, ParseRequires, ItemClause;
    match a
    case True =>
    case False =>
    case Need(n, k) => ItemClean(n, k);
    case Func(f, args) =>
      if f == "OptAll" && args != [] {
        ParsedRank(args[0]);
        DnfClean(ParseRequires(args[0]).value);
      } else {
        CallDnfClean(f, args);
      }
    case AllOf(cs) => ProductClean(a, cs, [[]]);
    case AnyOf(cs) => UnionClean(a, cs, []);
  }

  lemma {:induction false} ProductClean(a: Ast, cs: seq<Ast>, result: Dnf)
    requires forall i :: 0 <= i < |cs| ==> cs[i] < a && Rank(cs[i]) <= Rank(a) && CleanAst(cs[i])
    requires ProductAll(a, cs, result).Ok? && CleanDnf(result)
    ensures CleanDnf(ProductAll(a, cs, result).value)
    decreases Rank(a), a, |cs|
  {
    hide ToDnf, CleanAst, Cross, CleanClause;
    if cs != [] {
      var rest := cs[1..];
      assert forall i :: 0 <= i < |rest| ==> rest[i] == cs[i + 1];
      DnfClean(cs[0]);
      CrossClean(result, ToDnf(cs[0]).value);
      if Cross(result, ToDnf(cs[0]).value) != [] {
        ProductClean(a, rest, Cross(result, ToDnf(cs[0]).value));
      }
    }
  }

  lemma {:induction false} UnionClean(a: Ast, cs: seq<Ast>, result: Dnf)
    requires forall i :: 0 <= i < |cs| ==> cs[i] < a && Rank(cs[i]) <= Rank(a) && CleanAst(cs[i])
    requires UnionAll(a, cs, result).Ok? && CleanDnf(result)
    ensures CleanDnf(UnionAll(a, cs, result).value)
    decreases Rank(a), a, |cs|
  {
    hide ToDnf, CleanAst, CleanClause;
    if cs != [] {
      var rest := cs[1..];
      assert forall i :: 0 <= i < |rest| ==> rest[i] == cs[i + 1];
      DnfClean(cs[0]);
      UnionClean(a, rest, AddAll(result, ToDnf(cs[0]).value));
    }
  }

  // ------------------------------------------------------- no term asked for twice

  predicate OnceEach(d: Dnf) {
    forall c :: c in d ==> NoRepeats(c)
  }

  lemma CrossOnce(a: Dnf, b: Dnf)
    requires OnceEach(a)
    ensures OnceEach(Cross(a, b))
  {
    forall c | c in Cross(a, b)
      ensures NoRepeats(c)
    {
      var x, y := CrossFrom(a, b, c);
    }
  }

  lemma CallOnce(f: string, args: seq<string>)
    requires CallDnf(f, args).Ok?
    ensures OnceEach(CallDnf(f, args).value)
  {
    hide Strip, SnakeCase, StripAll, Join, CodeFor;
  }

  /** No clause of a requirement names a term twice. */
  lemma {:induction false} TermsOnce(a: Ast)
    requires ToDnf(a).Ok?
    ensures OnceEach(ToDnf(a).value)
    decreases Rank(a), a
  {
    hide CallDnf, ParseRequires, ItemRule;
    match a
    case True =>
    case False =>
    case Need(_, _) =>
    case Func(f, args) =>
      if f == "OptAll" && args != [] {
        ParsedRank(args[0]);
        TermsOnce(ParseRequires(args[0]).value);
      } else {
        CallOnce(f, args);
      }
    case AllOf(cs) => ProductOnce(a, cs, [[]]);
    case AnyOf(cs) => UnionOnce(a, cs, []);
  }

  lemma {:induction false} ProductOnce(a: Ast, cs: seq<Ast>, result: Dnf)
    requires forall i :: 0 <= i < |cs| ==> cs[i] < a && Rank(cs[i]) <= Rank(a)
    requires ProductAll(a, cs, result).Ok? && OnceEach(result)
    ensures OnceEach(ProductAll(a, cs, result).value)
    decreases Rank(a), a, |cs|
  {
    hide ToDnf, Cross, NoRepeats;
    if cs != [] {
      var rest := cs[1..];
      assert forall i :: 0 <= i < |rest| ==> rest[i] == cs[i + 1];
      CrossOnce(result, ToDnf(cs[0]).value);
      if Cross(result, ToDnf(cs[0]).value) != [] {
        ProductOnce(a, rest, Cross(result, ToDnf(cs[0]).value));
      }
    }
  }

  lemma {:induction false} UnionOnce(a: Ast, cs: seq<Ast>, result: Dnf)
    requires forall i :: 0 <= i < |cs| ==> cs[i] < a && Rank(cs[i]) <= Rank(a)
    requires UnionAll(a, cs, result).Ok? && OnceEach(result)
    ensures OnceEach(UnionAll(a, cs, result).value)
    decreases Rank(a), a, |cs|
  {
    hide ToDnf, NoRepeats;
    if cs != [] {
      var rest := cs[1..];
      assert forall i :: 0 <= i < |rest| ==> rest[i] == cs[i + 1];
      TermsOnce(cs[0]);
      UnionOnce(a, rest, AddAll(result, ToDnf(cs[0]).value));
    }
  }

  // ------------------------------------------------------------ what it is for

  /** A requirement string as a list of clauses. */
  function RequiresDnf(s: string): Result<Dnf> {
    match ParseRequires(s)
    case Raised => Raised
    case Ok(a) => ToDnf(a)
  }

  /** The clauses of a requirement string: there is always one, they mean what the parsed
      tree means, and the access rules made from them mean the same. */
  lemma RequirementTranslated(s: string, val: Tracking)
    requires ParseRequires(s).Ok? && WellCalled(ParseRequires(s).value)
    requires CleanAst(ParseRequires(s).value) && !val("false")
    ensures RequiresDnf(s).Ok? && RequiresDnf(s).value != [] && CleanDnf(RequiresDnf(s).value)
    ensures DnfVal(RequiresDnf(s).value, val) == TrackerVal(ParseRequires(s).value, val)
    ensures RulesVal(AccessRules(RequiresDnf(s).value), val) == TrackerVal(ParseRequires(s).value, val)
  {
    hide ParseRequires, ToDnf, CleanAst, WellCalled, TrackerVal, DnfVal, RulesVal, AccessRules;
    ParsedGrown(s);
    var a := ParseRequires(s).value;
    NeverFalse(a);
    DnfMeaning(a, val);
    DnfClean(a);
    RulesMeaning(ToDnf(a).value, val);
  }
}
