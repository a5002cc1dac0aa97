/** The tracker pack reads every printed requirement as the tree it came from, and where
    its precedence agrees with the rule reader's. */
module PackMeaning {
  import opened Text
  import opened Syntax
  import opened PackLexer
  import opened PackParser

  /** What the pack parser is meant for: calls have closed argument text and are not named
      like a connective. */
  predicate PackAtom(a: Atom) {
    && !a.Bit? && GoodAtom(a)
    && (a.Call? ==> '(' !in a.args && WordToken(a.func) == Ident(a.func) && Tokenize(a.args).Ok?)
  }

  /** A requirement the pack parser is meant for. */
  ghost predicate PackExpr(e: Expr) {
    AllAtoms(e, PackAtom) && Bangless(e)
  }

  ghost predicate PackUnit(u: Unit) {
    UnitAtoms(u, PackAtom) && UnitBangless(u)
  }

  // ------------------------------------------------------------- its tokens

  function ArgTokens(x: string): seq<Token> {
    match Tokenize(x)
    case Raised => []
    case Ok(ts) => ts
  }

  function AtomTokens(a: Atom): seq<Token> {
    match a
    case Bit(b) => [Ident(BitText(b))]
    case Call(f, x) => [LBrace, Ident(f), LParen] + (ArgTokens(x) + [RParen, RBrace])
    case _ => [ItemTok(Body(a))]
  }

  function WordTok(w: Word): Token {
    if w.op == And then AndTok else OrTok
  }

  function UnitTokens(u: Unit): seq<Token> {
    match u
    case Leaf(a) => AtomTokens(a)
    case Not(x) => UnitTokens(x)
    case Paren(e) => [LParen] + (ExprTokens(e) + [RParen])
  }

  function ExprTokens(e: Expr): seq<Token> {
    match e
    case One(u) => UnitTokens(u)
    case More(u, w, rest) => UnitTokens(u) + ([WordTok(w)] + ExprTokens(rest))
  }

  lemma AfterAfter(a: seq<Token>, b: seq<Token>, r: Result<seq<Token>>)
    ensures After(a, After(b, r)) == After(a + b, r)
  {
    if r.Ok? {
      assert a + (b + r.value) == a + b + r.value;
    }
  }

  lemma AfterOne(t: Token, r: Result<seq<Token>>)
    ensures Push(t, r) == After([t], r)
  {
  }

  lemma CallTokens(f: string, x: string, s: string)
    requires PackAtom(Call(f, x))
    ensures Tokenize(AtomText(Call(f, x)) + s) == After(AtomTokens(Call(f, x)), Tokenize(s))
  {
    hide Tokenize, AtomText, ArgTokens, After;
    CallText(f, x, s);
    ArgsClose(x, s);
    assert PlainWord(f) by {
      assert forall i :: 0 <= i < |f| ==> f[i] in f;
    }
    CallOpens(f, x + (")" + ("}" + s)));
    AfterAfter([LBrace, Ident(f), LParen], ArgTokens(x) + [RParen, RBrace], Tokenize(s));
  }

  lemma ArgsClose(x: string, s: string)
    requires Tokenize(x).Ok? && ')' !in x
    ensures Tokenize(x + (")" + ("}" + s))) == After(ArgTokens(x) + [RParen, RBrace], Tokenize(s))
  {
    hide Tokenize;
    BracketFirst('}', s);
    BracketFirst(')', "}" + s);
    assert Tokenize(")" + ("}" + s)) == After([RParen, RBrace], Tokenize(s)) by {
      if Tokenize(s).Ok? {
        assert [RParen] + ([RBrace] + Tokenize(s).value) == [RParen, RBrace] + Tokenize(s).value;
      }
    }
    TokenizeAppend(x, ")" + ("}" + s));
    AfterAfter(ArgTokens(x), [RParen, RBrace], Tokenize(s));
  }

  lemma CallOpens(f: string, r: string)
    requires f != "" && PlainWord(f) && WordToken(f) == Ident(f)
    ensures Tokenize("{" + (f + ("(" + r))) == After([LBrace, Ident(f), LParen], Tokenize(r))
  {
    hide Tokenize, WordToken;
    BracketFirst('(', r);
    WordFirst(f, "(" + r);
    BracketFirst('{', f + ("(" + r));
    OpenCall(f, Tokenize(r));
  }

  lemma CallText(f: string, x: string, s: string)
    ensures AtomText(Call(f, x)) + s == "{" + (f + ("(" + (x + (")" + ("}" + s)))))
  {
    var a, b := "{" + f + "(" + x + ")}" + s, "{" + (f + ("(" + (x + (")" + ("}" + s)))));
    assert a == b;
  }

  lemma OpenCall(f: string, r: Result<seq<Token>>)
    ensures Push(LBrace, Push(Ident(f), Push(LParen, r))) == After([LBrace, Ident(f), LParen], r)
  {
    if r.Ok? {
      assert [LBrace] + ([Ident(f)] + ([LParen] + r.value)) == [LBrace, Ident(f), LParen] + r.value;
    }
  }

  lemma BodyClosed(a: Atom)
    requires (a.Item? || a.ItemN?) && GoodAtom(a)
    ensures '|' !in Body(a)
  {
    if a.ItemN? {
      assert forall c :: c in a.digits ==> IsDigit(c);
    }
  }

  lemma AtomTokensRead(a: Atom, s: string)
    requires PackAtom(a)
    ensures Tokenize(AtomText(a) + s) == After(AtomTokens(a), Tokenize(s))
  {
    if a.Call? {
      CallTokens(a.func, a.args, s);
    } else {
      BodyClosed(a);
      ItemFirst(Body(a), s);
    }
  }

  lemma WordTokenRead(w: Word, s: string)
    ensures Tokenize(WordText(w) + s) == After([WordTok(w)], Tokenize(s))
  {
    hide Tokenize;
    assert Lower("and") == "and" == Lower("AND") && Lower("or") == "or" == Lower("OR");
    KeywordFirst(Spelled(w), s);
  }

  /** The tokenizer on a printed requirement. */
  lemma {:induction false} PrintTokens(e: Expr, s: string)
    requires PackExpr(e)
    ensures Tokenize(Print(e) + s) == After(ExprTokens(e), Tokenize(s))
    decreases e
  {
    hide Tokenize;
    match e
    case One(u) => UnitPrintTokens(u, s);
    case More(u, w, rest) =>
      FlatMore(u, w, rest, PLAIN);
      var tail := Print(rest) + s;
      Regroup3(PrintUnit(u), WordText(w), Print(rest), s);
      PrintTokens(rest, s);
      WordTokenRead(w, tail);
      AfterAfter([WordTok(w)], ExprTokens(rest), Tokenize(s));
      UnitPrintTokens(u, WordText(w) + tail);
      AfterAfter(UnitTokens(u), [WordTok(w)] + ExprTokens(rest), Tokenize(s));
  }

  lemma {:induction false} UnitPrintTokens(u: Unit, s: string)
    requires PackUnit(u)
    ensures Tokenize(PrintUnit(u) + s) == After(UnitTokens(u), Tokenize(s))
    decreases u
  {
    hide Tokenize;
    match u
    case Leaf(a) =>
      LeafText(a);
      AtomTokensRead(a, s);
    case Paren(e) =>
      FlatParen(e, PLAIN);
      Regroup3("(", Print(e), ")", s);
      BracketFirst(')', s);
      AfterOne(RParen, Tokenize(s));
      PrintTokens(e, ")" + s);
      AfterAfter(ExprTokens(e), [RParen], Tokenize(s));
      BracketFirst('(', Print(e) + (")" + s));
      AfterOne(LParen, After(ExprTokens(e) + [RParen], Tokenize(s)));
      AfterAfter([LParen], ExprTokens(e) + [RParen], Tokenize(s));
  }

  lemma Regroup3(a: string, b: string, c: string, s: string)
    ensures a + (b + c) + s == a + (b + (c + s))
  {
    assert a + (b + c) + s == a + (b + (c + s));
  }

  // ---------------------------------------------------------------- its tree

  /** The argument texts of a call without nested parentheses. */
  function ArgTexts(ts: seq<Token>, args: seq<string>, cur: string): seq<string> {
    if ts == [] then if Strip(cur) != "" then args + [Strip(cur)] else args
    else if ts[0].Comma? then ArgTexts(ts[1..], args + [Strip(cur)], "")
    else ArgTexts(ts[1..], args, cur + EmitToken(ts[0]))
  }

  /** A word that an argument may be. */
  predicate ArgWord(w: string) {
    w != "" && PlainWord(w) && WordToken(w) == Ident(w)
  }

  lemma FirstTaken(w: string, more: seq<Token>, args: seq<string>)
    requires ArgWord(w) && (more == [] || more[0].Comma?)
    ensures ArgTexts([Ident(w)] + more, args, "") ==
            if more == [] then args + [w] else ArgTexts(more[1..], args + [w], "")
  {
    hide Strip, WordToken;
    assert ([Ident(w)] + more)[1..] == more && "" + w == w;
    assert IsPlainChar(w[0]) && IsPlainChar(w[|w| - 1]);
    StripTrimmed(w);
  }

  /** Words with commas between them are so many arguments. */
  lemma {:induction false} ArgsTaken(words: seq<string>, args: seq<string>)
    requires words != [] && forall w :: w in words ==> ArgWord(w)
    ensures Tokenize(Join(",", words)).Ok?
    ensures ArgTexts(ArgTokens(Join(",", words)), args, "") == args + words
    decreases |words|
  {
    hide Tokenize, ArgTexts, WordToken;
    var w, rest := words[0], words[1..];
    assert words == [w] + rest && w in words && ArgWord(w);
    if rest == [] {
      WordFirst(w, "");
      assert Join(",", words) == w == w + "" && Tokenize("") == Ok([]) by {
        NoTokens();
      }
      FirstTaken(w, [], args);
      assert [Ident(w)] + [] == [Ident(w)];
    } else {
      assert forall x :: x in rest ==> x in words;
      ArgsTaken(rest, args + [w]);
      var tail := Join(",", rest);
      BracketFirst(',', tail);
      WordFirst(w, "," + tail);
      assert Join(",", words) == w + ("," + tail);
      var more := [Comma] + ArgTokens(tail);
      assert ArgTokens(Join(",", words)) == [Ident(w)] + more && more[1..] == ArgTokens(tail);
      FirstTaken(w, more, args);
      assert args + [w] + rest == args + words;
    }
  }

  lemma NoTokens()
    ensures Tokenize("") == Ok([])
  {
  }

  lemma ArgsKept(words: seq<string>)
    requires words != [] && forall w :: w in words ==> ArgWord(w)
    ensures ArgTexts(ArgTokens(Join(",", words)), [], "") == words
  {
    hide ArgTexts, ArgTokens, ArgWord;
    ArgsTaken(words, []);
    assert [] + words == words;
  }

  function AstAtom(a: Atom): Ast {
    match a
    case Bit(b) => if b then True else False
    case Item(n) => Need(n, 1)
    case ItemN(n, d) => Need(n, if AllDigits(d) then NatValue(d) else 0)
    case Call(f, x) => Func(f, ArgTexts(ArgTokens(x), [], ""))
  }

  /** What follows the first `or` of a chain. */
  function Later(e: Expr): (l: Option<Expr>)
    ensures l.Some? ==> l.value < e
  {
    match e
    case One(_) => None
    case More(_, w, rest) => if w.op == Or then Some(rest) else Later(rest)
  }

  function AstUnit(u: Unit): Ast
    decreases u, 0
  {
    match u
    case Leaf(a) => AstAtom(a)
    case Not(x) => AstUnit(x)
    case Paren(e) => OrOf(AstRuns(e))
  }

  /** The operands before the first `or`. */
  function FirstRun(e: Expr): (r: seq<Ast>)
    ensures r != []
    decreases e, 0
  {
    match e
    case One(u) => [AstUnit(u)]
    case More(u, w, rest) => if w.op == Or then [AstUnit(u)] else [AstUnit(u)] + FirstRun(rest)
  }

  function AstRuns(e: Expr): (r: seq<Ast>)
    ensures r != []
    decreases e, 1
  {
    [AndOf(FirstRun(e))] +
    match Later(e)
    case None => []
    case Some(rest) => AstRuns(rest)
  }

  function LaterRuns(l: Option<Expr>): seq<Ast> {
    match l
    case None => []
    case Some(e) => AstRuns(e)
  }

  /** The tree of a requirement: an `or` of `and`s. */
  function AstOf(e: Expr): Ast {
    OrOf(AstRuns(e))
  }

  // ----------------------------------------------------- parsing finds the tree

  lemma {:induction false} NoParens(x: string)
    requires '(' !in x && ')' !in x
    ensures LParen !in ArgTokens(x) && RParen !in ArgTokens(x)
    decreases |x|
  {
    if x != "" && Tokenize(x).Ok? {
      assert x[0] in x;
      if IsSpace(x[0]) || IsBracket(x[0]) {
        NoParens(x[1..]);
      } else if x[0] == '|' {
        NoParens(x[IndexOf(x[1..], '|') + 2..]);
      } else {
        NoParens(x[WordEnd(x)..]);
      }
    }
  }

  lemma {:induction false} TakeClosed(ts: seq<Token>, rest: seq<Token>, args: seq<string>, cur: string)
    requires LParen !in ts && RParen !in ts
    ensures TakeArgs(ts + ([RParen] + rest), args, cur, 0) == Ok(Args(ArgTexts(ts, args, cur), rest))
    decreases |ts|
  {
    hide Strip, EmitToken;
    var all := ts + ([RParen] + rest);
    if ts == [] {
      assert all == [RParen] + rest && all[1..] == rest;
    } else {
      assert ts[0] in ts && all[0] == ts[0] && all[1..] == ts[1..] + ([RParen] + rest);
      TakeClosed(ts[1..], rest, if ts[0].Comma? then args + [Strip(cur)] else args,
                 if ts[0].Comma? then "" else cur + EmitToken(ts[0]));
    }
  }

  lemma CallParses(f: string, x: string, rest: seq<Token>)
    requires PackAtom(Call(f, x))
    ensures FuncNode(AtomTokens(Call(f, x)) + rest) == Ok(Parsed(AstAtom(Call(f, x)), rest))
  {
    hide TakeArgs, Tokenize, ArgTexts, ArgTokens, WordToken;
    var xs := ArgTokens(x);
    NoParens(x);
    var tail := [RBrace] + rest;
    CallSplit(f, xs, rest);
    TakeClosed(xs, tail, [], "");
    assert tail[0] == RBrace && tail[1..] == rest;
  }

  lemma CallSplit(f: string, xs: seq<Token>, rest: seq<Token>)
    ensures var all := [LBrace, Ident(f), LParen] + (xs + [RParen, RBrace]) + rest;
            && |all| > 3 && all[0] == LBrace && all[1] == Ident(f) && all[2] == LParen
            && all[3..] == xs + ([RParen] + ([RBrace] + rest))
  {
  }

  lemma ItemParses(a: Atom)
    requires (a.Item? || a.ItemN?) && GoodAtom(a)
    ensures ItemNode(Body(a)) == Ok(AstAtom(a))
  {
    hide ParseInt, Strip;
    StripTrimmed(a.item);
    if a.Item? {
      IndexOfNone(a.item, ':');
    } else {
      PlainInt(a.digits);
      assert Body(a) == a.item + [':'] + a.digits;
      IndexOfAt(a.item, ':', a.digits);
      assert Body(a)[..|a.item|] == a.item && Body(a)[|a.item| + 1..] == a.digits;
      assert a.digits[0] in a.digits && a.digits[|a.digits| - 1] in a.digits;
      StripTrimmed(a.digits);
    }
  }

  /** Blanks around the name and the count do not matter; without a colon the count is one, and
      a count below zero asks for nothing. */
  lemma ItemRead(name: string, count: string)
    requires ':' !in name
    ensures ItemNode(name) == Ok(Need(Strip(name), 1))
    ensures match ParseInt(Strip(count))
            case None => ItemNode(name + ":" + count) == Raised
            case Some(n) =>
              exists k: nat :: ItemNode(name + ":" + count) == Ok(Need(Strip(name), k)) && (k == n || n < 0 == k)
  {
    hide ParseInt, Strip;
    IndexOfNone(name, ':');
    var body := name + ":" + count;
    assert body == name + [':'] + count;
    IndexOfAt(name, ':', count);
    assert body[..|name|] == name && body[|name| + 1..] == count;
  }

  lemma AtomParses(a: Atom, rest: seq<Token>)
    requires PackAtom(a)
    ensures ParseAtom(AtomTokens(a) + rest) == Ok(Parsed(AstAtom(a), rest))
  {
    hide FuncNode, ItemNode, Body;
    if a.Call? {
      CallParses(a.func, a.args, rest);
    } else {
      ItemParses(a);
      var all := AtomTokens(a) + rest;
      assert all[0] == ItemTok(Body(a)) && all[1..] == rest;
    }
  }

  predicate Stops(rest: seq<Token>) {
    rest == [] || (!rest[0].AndTok? && !rest[0].OrTok?)
  }

  function LaterTokens(l: Option<Expr>): seq<Token> {
    match l
    case None => []
    case Some(e) => [OrTok] + ExprTokens(e)
  }

  ghost predicate PackLater(l: Option<Expr>) {
    l.Some? ==> PackExpr(l.value)
  }

  lemma {:induction false} LaterPack(e: Expr)
    requires PackExpr(e)
    ensures PackLater(Later(e))
  {
    match e
    case One(_) =>
    case More(_, w, rest) =>
      if w.op == And {
        LaterPack(rest);
      }
  }

  lemma {:induction false} UnitParses(u: Unit, rest: seq<Token>)
    requires PackUnit(u)
    ensures ParseAtom(UnitTokens(u) + rest) == Ok(Parsed(AstUnit(u), rest))
    decreases u, 0
  {
    match u
    case Leaf(a) =>
      AtomParses(a, rest);
    case Paren(e) =>
      hide ParseOr, AstRuns, ExprTokens, OrOf;
      var close := [RParen] + rest;
      ChainParses(e, close);
      assert UnitTokens(u) + rest == [LParen] + (ExprTokens(e) + close);
      assert close[1..] == rest;
  }

  lemma {:induction false} ChainParses(e: Expr, rest: seq<Token>)
    requires PackExpr(e) && Stops(rest)
    ensures ParseOr(ExprTokens(e) + rest) == Ok(Parsed(AstOf(e), rest))
    decreases e, 3
  {
    hide ParseAnd, FirstRun, Later, ExprTokens, OrTail, LaterRuns, AndOf, OrOf;
    RunParses(e, rest);
    LaterPack(e);
    LaterParses(e, Later(e), rest, [AndOf(FirstRun(e))]);
    RunsSplit(e, []);
    assert [] + [AndOf(FirstRun(e))] == [AndOf(FirstRun(e))] && [] + AstRuns(e) == AstRuns(e);
  }

  /** The `or` loop, once a run has been read. */
  lemma {:induction false} LaterParses(e: Expr, l: Option<Expr>, rest: seq<Token>, acc: seq<Ast>)
    requires PackLater(l) && Stops(rest) && acc != [] && (l.Some? ==> l.value < e)
    ensures OrTail(LaterTokens(l) + rest, acc) == Ok(Parsed(OrOf(acc + LaterRuns(l)), rest))
    decreases e, 2
  {
    match l
    case None =>
      hide OrOf;
      assert [] + rest == rest && acc + [] == acc;
    case Some(r) =>
      RunParses(r, rest);
      LaterPack(r);
      var next := AndOf(FirstRun(r));
      LaterParses(r, Later(r), rest, acc + [next]);
      OrStep(ExprTokens(r), rest, acc, next, LaterTokens(Later(r)) + rest);
      RunsSplit(r, acc);
  }

  lemma OrStep(ts: seq<Token>, rest: seq<Token>, acc: seq<Ast>, node: Ast, left: seq<Token>)
    requires acc != [] && ParseAnd(ts + rest) == Ok(Parsed(node, left))
    ensures OrTail([OrTok] + ts + rest, acc) == OrTail(left, acc + [node])
  {
    hide ParseAnd, OrOf;
    assert ([OrTok] + ts + rest)[1..] == ts + rest;
  }

  lemma RunsSplit(e: Expr, acc: seq<Ast>)
    ensures acc + [AndOf(FirstRun(e))] + LaterRuns(Later(e)) == acc + AstRuns(e)
  {
    hide AndOf, FirstRun, Later;
  }

  lemma AndStep(ts: seq<Token>, rest: seq<Token>, acc: seq<Ast>, node: Ast, left: seq<Token>)
    requires acc != [] && ParseAtom(ts + rest) == Ok(Parsed(node, left))
    ensures AndTail([AndTok] + ts + rest, acc) == AndTail(left, acc + [node])
  {
    hide ParseAtom, AndOf;
    assert ([AndTok] + ts + rest)[1..] == ts + rest;
  }

  /** The `and` level reads up to the first `or`. */
  lemma {:induction false} RunParses(e: Expr, rest: seq<Token>)
    requires PackExpr(e) && Stops(rest)
    ensures ParseAnd(ExprTokens(e) + rest) == Ok(Parsed(AndOf(FirstRun(e)), LaterTokens(Later(e)) + rest))
    decreases e, 1
  {
    hide ParseAtom, AndOf;
    match e
    case One(u) =>
      UnitParses(u, rest);
      assert [] + rest == rest;
    case More(u, w, r) =>
      var tail := [WordTok(w)] + ExprTokens(r) + rest;
      UnitParses(u, tail);
      MoreTokens(u, w, r, rest);
      RunTail(r, w, rest, [AstUnit(u)]);
  }

  lemma {:induction false} RunTail(e: Expr, w: Word, rest: seq<Token>, acc: seq<Ast>)
    requires PackExpr(e) && Stops(rest) && acc != []
    ensures AndTail([WordTok(w)] + ExprTokens(e) + rest, acc) ==
            Ok(if w.op == Or then Parsed(AndOf(acc), LaterTokens(Some(e)) + rest)
               else Parsed(AndOf(acc + FirstRun(e)), LaterTokens(Later(e)) + rest))
    decreases e, 1
  {
    hide AndTail, ParseAtom, AndOf, AstUnit, UnitTokens;
    if w.op == Or {
      AndStops(LaterTokens(Some(e)) + rest, acc);
    } else {
      match e
      case One(u) =>
        UnitParses(u, rest);
        RunEnds(u, rest, acc);
      case More(u, next, r) =>
        var tail := [WordTok(next)] + ExprTokens(r) + rest;
        UnitParses(u, tail);
        MoreTokens(u, next, r, rest);
        AndStep(ExprTokens(e), rest, acc, AstUnit(u), tail);
        RunTail(r, next, rest, acc + [AstUnit(u)]);
        Snoc(acc, AstUnit(u), FirstRun(r));
    }
  }

  lemma RunEnds(u: Unit, rest: seq<Token>, acc: seq<Ast>)
    requires Stops(rest) && acc != []
    requires ParseAtom(UnitTokens(u) + rest) == Ok(Parsed(AstUnit(u), rest))
    ensures AndTail([AndTok] + UnitTokens(u) + rest, acc) == Ok(Parsed(AndOf(acc + [AstUnit(u)]), [] + rest))
  {
    hide ParseAtom, AndOf, AstUnit, UnitTokens;
    AndStops(rest, acc + [AstUnit(u)]);
    AndStep(UnitTokens(u), rest, acc, AstUnit(u), rest);
    assert [] + rest == rest;
  }

  lemma Snoc(acc: seq<Ast>, x: Ast, more: seq<Ast>)
    ensures acc + [x] + more == acc + ([x] + more)
  {
  }

  lemma AndStops(rest: seq<Token>, acc: seq<Ast>)
    requires acc != [] && (rest == [] || !rest[0].AndTok?)
    ensures AndTail(rest, acc) == Ok(Parsed(AndOf(acc), rest))
  {
  }

  lemma MoreTokens(u: Unit, w: Word, e: Expr, rest: seq<Token>)
    ensures ExprTokens(More(u, w, e)) + rest == UnitTokens(u) + ([WordTok(w)] + ExprTokens(e) + rest)
  {
  }

  lemma TokensNonempty(e: Expr)
    ensures ExprTokens(e) != []
    decreases e
  {
    UnitTokensNonempty(e.u);
  }

  lemma {:induction false} UnitTokensNonempty(u: Unit)
    ensures UnitTokens(u) != []
  {
    if u.Not? {
      UnitTokensNonempty(u.u);
    }
  }

  lemma TokensParse(e: Expr)
    requires PackExpr(e)
    ensures ParseTokens(ExprTokens(e)) == Ok(AstOf(e))
  {
    hide ParseOr, AstOf, ExprTokens;
    ChainParses(e, []);
    assert ExprTokens(e) + [] == ExprTokens(e);
  }

  /** Parsing undoes printing: the pack reads every printed requirement as its tree. */
  lemma ParsePrint(e: Expr)
    requires PackExpr(e)
    ensures ParseRequires(Print(e)) == Ok(AstOf(e))
  {
    hide ParseRequires, ParseTokens, Print, ExprTokens, AstOf;
    PrintTokens(e, "");
    assert Print(e) + "" == Print(e);
    assert Tokenize("") == Ok([]) && ExprTokens(e) + [] == ExprTokens(e);
    TokensNonempty(e);
    ParseByTokens(Print(e));
    TokensParse(e);
  }

  /** Text that is one atom parses to the atom's tree. */
  lemma AtomTree(a: Atom)
    requires PackAtom(a)
    ensures ParseRequires(AtomText(a)) == Ok(AstAtom(a))
  {
    hide ParseRequires, PackAtom;
    var e := One(Leaf(a));
    LeafText(a);
    assert UnitAtoms(Leaf(a), PackAtom) && UnitBangless(Leaf(a));
    assert AllAtoms(e, PackAtom) && Bangless(e);
    ParsePrint(e);
    assert Toks(e) == UnitToks(Leaf(a)) && AstUnit(Leaf(a)) == AstAtom(a);
    assert FirstRun(e) == [AstAtom(a)] && Later(e) == None && AstRuns(e) == [AstAtom(a)];
  }

  // ------------------------------------------------- arguments with parentheses

  ghost predicate NeedsOnly(e: Expr) {
    AllAtoms(e, IsNeed) && Bangless(e)
  }

  lemma {:induction false} EmitAppend(a: seq<Token>, b: seq<Token>)
    ensures Emit(a + b) == Emit(a) + Emit(b)
  {
    hide EmitToken;
    if a == [] {
      assert a + b == b;
    } else {
      assert (a + b)[1..] == a[1..] + b;
      EmitAppend(a[1..], b);
      Regroup(EmitToken(a[0]), Emit(a[1..]), Emit(b));
    }
  }

  lemma EmitOne(t: Token)
    ensures Emit([t]) == EmitToken(t)
  {
    assert [t][1..] == [] && EmitToken(t) + "" == EmitToken(t);
  }

  /** One token that neither ends the arguments nor separates them. */
  lemma TakeOne(t: Token, rest: seq<Token>, args: seq<string>, cur: string, d: nat)
    requires !t.Comma? && (t.RParen? ==> d > 0)
    ensures TakeArgs([t] + rest, args, cur, d) ==
            TakeArgs(rest, args, cur + Emit([t]), if t.LParen? then d + 1 else if t.RParen? then d - 1 else d)
  {
    hide EmitToken;
    EmitOne(t);
    assert ([t] + rest)[1..] == rest;
  }

  lemma {:induction false} TakeUnit(u: Unit, rest: seq<Token>, args: seq<string>, cur: string, d: nat)
    requires UnitAtoms(u, IsNeed) && UnitBangless(u)
    ensures TakeArgs(UnitTokens(u) + rest, args, cur, d) == TakeArgs(rest, args, cur + Emit(UnitTokens(u)), d)
    decreases u
  {
    hide TakeArgs, Emit;
    match u
    case Leaf(a) =>
      TakeOne(ItemTok(Body(a)), rest, args, cur, d);
    case Paren(e) =>
      var ts := ExprTokens(e);
      assert UnitTokens(u) + rest == [LParen] + (ts + ([RParen] + rest));
      TakeOne(LParen, ts + ([RParen] + rest), args, cur, d);
      TakeExpr(e, [RParen] + rest, args, cur + Emit([LParen]), d + 1);
      TakeOne(RParen, rest, args, cur + Emit([LParen]) + Emit(ts), d + 1);
      EmitAppend([LParen], ts + [RParen]);
      EmitAppend(ts, [RParen]);
      Regroup4(cur, Emit([LParen]), Emit(ts), Emit([RParen]));
  }

  lemma Regroup4(a: string, b: string, c: string, d: string)
    ensures a + b + c + d == a + (b + (c + d))
  {
  }

  /** The argument reader copies a parenthesised requirement whole. */
  lemma {:induction false} TakeExpr(e: Expr, rest: seq<Token>, args: seq<string>, cur: string, d: nat)
    requires NeedsOnly(e)
    ensures TakeArgs(ExprTokens(e) + rest, args, cur, d) == TakeArgs(rest, args, cur + Emit(ExprTokens(e)), d)
    decreases e
  {
    hide TakeArgs, Emit;
    match e
    case One(u) => TakeUnit(u, rest, args, cur, d);
    case More(u, w, r) =>
      var us, t, ts := UnitTokens(u), WordTok(w), ExprTokens(r);
      assert ExprTokens(e) + rest == us + ([t] + (ts + rest));
      TakeUnit(u, [t] + (ts + rest), args, cur, d);
      TakeOne(t, ts + rest, args, cur + Emit(us), d);
      TakeExpr(r, rest, args, cur + Emit(us) + Emit([t]), d);
      EmitAppend(us, [t] + ts);
      EmitAppend([t], ts);
      Regroup4(cur, Emit(us), Emit([t]), Emit(ts));
  }

  lemma {:induction false} NeedTokens(e: Expr)
    requires NeedsOnly(e)
    ensures PackExpr(e)
    ensures forall t :: t in ExprTokens(e) ==> Scanned(t) && !t.Ident?
    decreases e
  {
    NeedUnitTokens(e.u);
    if e.More? {
      NeedTokens(e.rest);
    }
  }

  lemma {:induction false} NeedUnitTokens(u: Unit)
    requires UnitAtoms(u, IsNeed) && UnitBangless(u)
    ensures PackUnit(u)
    ensures forall t :: t in UnitTokens(u) ==> Scanned(t) && !t.Ident?
    decreases u
  {
    match u
    case Leaf(a) => BodyClosed(a);
    case Paren(e) => NeedTokens(e);
  }

  lemma {:induction false} NoIdents(ts: seq<Token>)
    requires forall t :: t in ts ==> !t.Ident?
    ensures NoIdentPairs(ts)
  {
    if |ts| >= 2 {
      assert ts[0] in ts;
      NoIdents(ts[1..]);
    }
  }

  /** The text rebuilt from a requirement over items parses to the requirement's tree. */
  lemma RebuiltParses(e: Expr)
    requires NeedsOnly(e)
    ensures ParseRequires(Strip(Emit(ExprTokens(e)))) == Ok(AstOf(e))
    ensures Strip(Emit(ExprTokens(e))) != ""
  {
    hide ParseRequires, ParseTokens, ExprTokens, AstOf, Strip, Emit;
    var ts := ExprTokens(e);
    NeedTokens(e);
    assert AllScanned(ts) by {
      assert forall i :: 0 <= i < |ts| ==> ts[i] in ts;
    }
    NoIdents(ts);
    RebuildRoundTrip(ts);
    TokensNonempty(e);
    ParseByTokens(Strip(Emit(ts)));
    TokensParse(e);
  }

  /** `{OptAll(...)}`: the argument is rebuilt as text and parsed again later; for every
      requirement over items that second parse gives the tree of the original. */
  lemma OptAllKeepsTree(f: string, e: Expr)
    requires NeedsOnly(e) && f != "" && PlainWord(f) && WordToken(f) == Ident(f)
    ensures var arg := Strip(Emit(ExprTokens(e)));
            && ParseRequires("{" + f + "(" + Print(e) + ")}") == Ok(Func(f, [arg]))
            && ParseRequires(arg) == Ok(AstOf(e))
  {
    hide ParseRequires, ParseTokens, ExprTokens, AstOf, Print, Strip, Emit, Tokenize;
    var s, ts := "{" + f + "(" + Print(e) + ")}", ExprTokens(e);
    RebuiltParses(e);
    CallOfExpr(f, e);
    ParseByTokens(s);
    CallParsesWhole(f, e);
  }

  lemma CallOfExpr(f: string, e: Expr)
    requires NeedsOnly(e) && f != "" && PlainWord(f) && WordToken(f) == Ident(f)
    ensures Tokenize("{" + f + "(" + Print(e) + ")}") ==
            Ok([LBrace, Ident(f), LParen] + (ExprTokens(e) + [RParen, RBrace]))
  {
    hide Tokenize, Print, ExprTokens;
    NeedTokens(e);
    var p, close := Print(e), ")" + ("}" + "");
    assert "{" + f + "(" + p + ")}" == "{" + (f + ("(" + (p + close)));
    BracketFirst('}', "");
    BracketFirst(')', "}" + "");
    assert Tokenize("") == Ok([]) by {
      EmptyTokens();
    }
    assert Tokenize(close) == Ok([RParen, RBrace]) by {
      assert [RBrace] + [] == [RBrace] && [RParen] + [RBrace] == [RParen, RBrace];
    }
    PrintTokens(e, close);
    BracketFirst('(', p + close);
    WordFirst(f, "(" + (p + close));
    BracketFirst('{', f + ("(" + (p + close)));
    OpenCall(f, Ok(ExprTokens(e) + [RParen, RBrace]));
  }

  lemma EmptyTokens()
    ensures Tokenize("") == Ok([])
  {
  }

  lemma CallParsesWhole(f: string, e: Expr)
    requires NeedsOnly(e)
    ensures ParseTokens([LBrace, Ident(f), LParen] + (ExprTokens(e) + [RParen, RBrace])) ==
            Ok(Func(f, [Strip(Emit(ExprTokens(e)))]))
  {
    hide ExprTokens, Strip, Emit, FuncNode;
    OneCall(f, e);
    LoneCall([LBrace, Ident(f), LParen] + (ExprTokens(e) + [RParen, RBrace]), Func(f, [Strip(Emit(ExprTokens(e)))]));
  }

  lemma LoneCall(ts: seq<Token>, node: Ast)
    requires ts != [] && ts[0] == LBrace && FuncNode(ts) == Ok(Parsed(node, []))
    ensures ParseTokens(ts) == Ok(node)
  {
    hide FuncNode;
    assert ParseAtom(ts) == Ok(Parsed(node, []));
    AndStops([], [node]);
    assert ParseAnd(ts) == Ok(Parsed(node, []));
    assert OrTail([], [node]) == Ok(Parsed(node, []));
    assert ParseOr(ts) == Ok(Parsed(node, []));
  }

  lemma OneCall(f: string, e: Expr)
    requires NeedsOnly(e)
    ensures FuncNode([LBrace, Ident(f), LParen] + (ExprTokens(e) + [RParen, RBrace])) ==
            Ok(Parsed(Func(f, [Strip(Emit(ExprTokens(e)))]), []))
  {
    hide ExprTokens, Strip, Emit;
    var xs := ExprTokens(e);
    var ts := [LBrace, Ident(f), LParen] + (xs + [RParen, RBrace]);
    assert ts[3..] == xs + [RParen, RBrace];
    TakeExpr(e, [RParen, RBrace], [], "", 0);
    RebuiltParses(e);
    assert "" + Emit(xs) == Emit(xs);
    assert [RParen, RBrace][1..] == [RBrace] && [RBrace][1..] == [];
    assert [] + [Strip(Emit(xs))] == [Strip(Emit(xs))];
  }
}
