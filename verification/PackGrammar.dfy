/** What the tracker pack's parser accepts: exactly the sentences of a grammar, each read as
    its tree. */
module PackGrammar {
  import opened Text
  import opened PackLexer
  import opened PackParser

  /** An operand: an item, a call with its arguments or a requirement in parentheses. */
  datatype Form = Item(body: string) | Call(func: string, args: seq<seq<Token>>) | Group(whole: Forms)

  /** Operands joined by `and` and `or`. */
  datatype Forms = One(form: Form) | And(before: Forms, form: Form) | Or(before: Forms, form: Form)

  // ------------------------------------------------------------- the sentences

  /** With `depth` parentheses open: the piece closes these and no other, and has no comma
      outside of parentheses. */
  predicate Closes(piece: seq<Token>, depth: nat)
    decreases |piece|
  {
    if piece == [] then depth == 0
    else if piece[0].LParen? then Closes(piece[1..], depth + 1)
    else if piece[0].RParen? then depth > 0 && Closes(piece[1..], depth - 1)
    else (piece[0].Comma? ==> depth > 0) && Closes(piece[1..], depth)
  }

  function Commas(pieces: seq<seq<Token>>): seq<Token>
    requires pieces != []
  {
    if |pieces| == 1 then pieces[0] else pieces[0] + ([Comma] + Commas(pieces[1..]))
  }

  function Written(f: Form): seq<Token> {
    match f
    case Item(body) => [ItemTok(body)]
    case Call(func, args) =>
      [LBrace, Token.Ident(func), LParen] + ((if args == [] then [] else Commas(args)) + [RParen, RBrace])
    case Group(fs) => [LParen] + (Sentence(fs) + [RParen])
  }

  function Sentence(fs: Forms): seq<Token> {
    match fs
    case One(f) => Written(f)
    case And(b, f) => Sentence(b) + ([AndTok] + Written(f))
    case Or(b, f) => Sentence(b) + ([OrTok] + Written(f))
  }

  /** Items have a count that can be read, and arguments are closed. */
  predicate Proper(f: Form) {
    match f
    case Item(body) => ItemNode(body).Ok?
    case Call(_, args) => args != [] && forall i :: 0 <= i < |args| ==> Closes(args[i], 0)
    case Group(fs) => AllProper(fs)
  }

  predicate AllProper(fs: Forms) {
    match fs
    case One(f) => Proper(f)
    case And(b, f) => AllProper(b) && Proper(f)
    case Or(b, f) => AllProper(b) && Proper(f)
  }

  // ----------------------------------------------------------------- the trees

  /** The arguments as text, trimmed; an empty last one is none. */
  function Texts(cur: string, pieces: seq<seq<Token>>): seq<string>
    requires pieces != []
    decreases |pieces|
  {
    var first := Strip(cur + Emit(pieces[0]));
    if |pieces| > 1 then [first] + Texts("", pieces[1..]) else if first != "" then [first] else []
  }

  function Tree(f: Form): Ast
    decreases f, 0
  {
    match f
    case Item(body) =>
      (match ItemNode(body)
       case Ok(node) => node
       case Raised => False)
    case Call(func, args) => Func(func, if args == [] then [] else Texts("", args))
    case Group(fs) => Meaning(fs)
  }

  /** The runs joined by `and` that an `or` has ended, and the one still going on. */
  function Ended(fs: Forms): seq<Ast>
    decreases fs, 0
  {
    match fs
    case One(_) => []
    case And(b, _) => Ended(b)
    case Or(b, _) => Ended(b) + [AndOf(Going(b))]
  }

  function Going(fs: Forms): (run: seq<Ast>)
    ensures run != []
    decreases fs, 0
  {
    match fs
    case One(f) => [Tree(f)]
    case And(b, f) => Going(b) + [Tree(f)]
    case Or(_, f) => [Tree(f)]
  }

  /** An `or` of `and`s. */
  function Meaning(fs: Forms): Ast
    decreases fs, 1
  {
    OrOf(Ended(fs) + [AndOf(Going(fs))])
  }

  // ------------------------------------------------------ sentences are accepted

  lemma {:induction false} PieceTaken(piece: seq<Token>, rest: seq<Token>, args: seq<string>, cur: string, d: nat)
    requires Closes(piece, d)
    ensures TakeArgs(piece + rest, args, cur, d) == TakeArgs(rest, args, cur + Emit(piece), 0)
    decreases |piece|
  {
    hide Strip, EmitToken;
    if piece == [] {
      assert piece + rest == rest && cur + "" == cur;
    } else {
      assert (piece + rest)[0] == piece[0] && (piece + rest)[1..] == piece[1..] + rest;
      var t := piece[0];
      assert cur + EmitToken(t) + Emit(piece[1..]) == cur + Emit(piece);
      PieceTaken(piece[1..], rest, args, cur + EmitToken(t),
                 if t.LParen? then d + 1 else if t.RParen? then d - 1 else d);
    }
  }

  lemma {:induction false} ArgsTaken(pieces: seq<seq<Token>>, rest: seq<Token>, args: seq<string>, cur: string)
    requires pieces != [] && forall i :: 0 <= i < |pieces| ==> Closes(pieces[i], 0)
    ensures TakeArgs(Commas(pieces) + ([RParen] + rest), args, cur, 0) == Ok(Args(args + Texts(cur, pieces), rest))
    decreases |pieces|
  {
    hide Strip, Emit, Closes;
    var close := [RParen] + rest;
    assert close[1..] == rest;
    if |pieces| == 1 {
      PieceTaken(pieces[0], close, args, cur, 0);
      assert args + [] == args;
    } else {
      var more := Commas(pieces[1..]) + close;
      assert Commas(pieces) + close == pieces[0] + ([Comma] + more);
      PieceTaken(pieces[0], [Comma] + more, args, cur, 0);
      assert ([Comma] + more)[1..] == more;
      var first := Strip(cur + Emit(pieces[0]));
      ArgsTaken(pieces[1..], rest, args + [first], "");
      assert args + [first] + Texts("", pieces[1..]) == args + ([first] + Texts("", pieces[1..]));
    }
  }

  /** The parser in the middle of a requirement. */
  function Resume(ended: seq<Ast>, going: seq<Ast>, rest: seq<Token>): Result<Parsed>
    requires going != []
  {
    match AndTail(rest, going)
    case Raised => Raised
    case Ok(p) => OrTail(p.rest, ended + [p.node])
  }

  lemma {:induction false} FormParses(f: Form, rest: seq<Token>)
    requires Proper(f)
    ensures ParseAtom(Written(f) + rest) == Ok(Parsed(Tree(f), rest))
    decreases f, 0
  {
    hide ParseAtom, ParseOr, Written, Tree, Sentence, Meaning;
    match f
    case Item(_) => ItemParses(f, rest);
    case Call(_, _) => CallParses(f, rest);
    case Group(fs) =>
      SentenceParses(fs, [RParen] + rest);
      GroupParses(fs, rest);
  }

  lemma ItemParses(f: Form, rest: seq<Token>)
    requires f.Item? && Proper(f)
    ensures ParseAtom(Written(f) + rest) == Ok(Parsed(Tree(f), rest))
  {
    hide ItemNode;
    var all := [ItemTok(f.body)] + rest;
    assert Written(f) + rest == all && all[1..] == rest;
  }

  lemma GroupParses(fs: Forms, rest: seq<Token>)
    requires ParseOr(Sentence(fs) + ([RParen] + rest)) == Ok(Parsed(Meaning(fs), [RParen] + rest))
    ensures ParseAtom(Written(Group(fs)) + rest) == Ok(Parsed(Tree(Group(fs)), rest))
  {
    hide ParseOr, Sentence, Meaning;
    var inner, close := Sentence(fs), [RParen] + rest;
    var all := [LParen] + (inner + close);
    assert Written(Group(fs)) + rest == all && all[1..] == inner + close && close[1..] == rest;
  }

  lemma CallParses(f: Form, rest: seq<Token>)
    requires f.Call? && Proper(f)
    ensures ParseAtom(Written(f) + rest) == Ok(Parsed(Tree(f), rest))
  {
    hide TakeArgs, Closes, Commas, Texts;
    var tail := [RBrace] + rest;
    CallSplit(f.func, Commas(f.args), rest);
    ArgsTaken(f.args, tail, [], "");
    assert [] + Texts("", f.args) == Texts("", f.args) && tail[1..] == rest;
  }

  lemma CallSplit(func: string, inner: seq<Token>, rest: seq<Token>)
    ensures var all := [LBrace, Token.Ident(func), LParen] + (inner + [RParen, RBrace]) + rest;
            && |all| > 3 && all[0] == LBrace && all[1] == Token.Ident(func) && all[2] == LParen
            && all[3..] == inner + ([RParen] + ([RBrace] + rest))
  {
  }

  lemma AndResumes(ended: seq<Ast>, going: seq<Ast>, ts: seq<Token>, node: Ast, rest: seq<Token>)
    requires going != [] && ParseAtom(ts) == Ok(Parsed(node, rest))
    ensures Resume(ended, going, [AndTok] + ts) == Resume(ended, going + [node], rest)
  {
    hide ParseAtom, AndOf;
    assert ([AndTok] + ts)[1..] == ts;
  }

  lemma OrGoes(ts: seq<Token>, children: seq<Ast>)
    requires ts != [] && ts[0].OrTok? && children != []
    ensures OrTail(ts, children) ==
            match ParseAnd(ts[1..])
            case Raised => Raised
            case Ok(p) => OrTail(p.rest, children + [p.node])
  {
  }

  lemma OrResumes(ended: seq<Ast>, going: seq<Ast>, ts: seq<Token>, node: Ast, rest: seq<Token>)
    requires going != [] && ParseAtom(ts) == Ok(Parsed(node, rest))
    ensures Resume(ended, going, [OrTok] + ts) == Resume(ended + [AndOf(going)], [node], rest)
  {
    hide ParseAtom, AndOf, OrOf;
    var more := [OrTok] + ts;
    assert more[1..] == ts && AndTail(more, going) == Ok(Parsed(AndOf(going), more));
    assert ParseAnd(ts) == AndTail(rest, [node]);
    OrGoes(more, ended + [AndOf(going)]);
  }

  lemma {:induction false} FormsParse(fs: Forms, rest: seq<Token>)
    requires AllProper(fs)
    ensures ParseOr(Sentence(fs) + rest) == Resume(Ended(fs), Going(fs), rest)
    decreases fs, 1
  {
    hide ParseAtom, Proper, Tree, Written, AndTail, OrTail;
    match fs
    case One(f) =>
      FormParses(f, rest);
      assert forall x: Ast :: [] + [x] == [x];
    case And(b, f) =>
      hide ParseOr, Resume;
      var more := [AndTok] + (Written(f) + rest);
      assert Sentence(fs) + rest == Sentence(b) + more;
      FormParses(f, rest);
      FormsParse(b, more);
      AndResumes(Ended(b), Going(b), Written(f) + rest, Tree(f), rest);
    case Or(b, f) =>
      hide ParseOr, Resume;
      var more := [OrTok] + (Written(f) + rest);
      assert Sentence(fs) + rest == Sentence(b) + more;
      FormParses(f, rest);
      FormsParse(b, more);
      OrResumes(Ended(b), Going(b), Written(f) + rest, Tree(f), rest);
  }

  lemma {:induction false} SentenceParses(fs: Forms, rest: seq<Token>)
    requires AllProper(fs) && (rest == [] || (!rest[0].AndTok? && !rest[0].OrTok?))
    ensures ParseOr(Sentence(fs) + rest) == Ok(Parsed(Meaning(fs), rest))
    decreases fs, 2
  {
    hide ParseOr, Sentence, AndOf, OrOf, Ended, Going;
    FormsParse(fs, rest);
  }

  // ------------------------------------------------------- and nothing else is

  /** Arguments that could be taken are pieces with commas between them. */
  lemma {:induction false} ArgsRead(ts: seq<Token>, args: seq<string>, cur: string, d: nat)
    returns (pieces: seq<seq<Token>>)
    requires TakeArgs(ts, args, cur, d).Ok?
    ensures pieces != [] && Closes(pieces[0], d) && forall i :: 0 < i < |pieces| ==> Closes(pieces[i], 0)
    ensures var r := TakeArgs(ts, args, cur, d).value;
            ts == Commas(pieces) + ([RParen] + r.rest) && r.texts == args + Texts(cur, pieces)
    decreases |ts|
  {
    hide Strip, EmitToken;
    if ts[0].RParen? && d == 0 {
      pieces := [[]];
      assert cur + Emit([]) == cur && args + [] == args;
      assert ts == [] + ([RParen] + ts[1..]);
    } else if ts[0].Comma? && d == 0 {
      var more := ArgsRead(ts[1..], args + [Strip(cur)], "", 0);
      pieces := [[]] + more;
      assert pieces[1..] == more && cur + Emit([]) == cur;
      forall i | 0 < i < |pieces|
        ensures Closes(pieces[i], 0)
      {
        assert pieces[i] == more[i - 1];
      }
      assert args + [Strip(cur)] + Texts("", more) == args + ([Strip(cur)] + Texts("", more));
      assert ts == [Comma] + ts[1..];
    } else {
      var more := ArgsRead(ts[1..], args, cur + EmitToken(ts[0]),
                           if ts[0].LParen? then d + 1 else if ts[0].RParen? then d - 1 else d);
      pieces := [[ts[0]] + more[0]] + more[1..];
      PieceGrows(ts[0], more, cur, d);
      assert ts == [ts[0]] + ts[1..];
    }
  }

  lemma PieceGrows(t: Token, more: seq<seq<Token>>, cur: string, d: nat)
    requires more != [] && !(t.RParen? && d == 0) && !(t.Comma? && d == 0)
    requires Closes(more[0], if t.LParen? then d + 1 else if t.RParen? then d - 1 else d)
    ensures var pieces := [[t] + more[0]] + more[1..];
            && Closes(pieces[0], d) && Commas(pieces) == [t] + Commas(more)
            && Texts(cur, pieces) == Texts(cur + EmitToken(t), more)
  {
    hide Strip, EmitToken;
    var first := [t] + more[0];
    assert first[1..] == more[0];
    assert ([first] + more[1..])[1..] == more[1..];
    assert cur + Emit(first) == cur + EmitToken(t) + Emit(more[0]);
  }

  lemma {:induction false} FormRead(ts: seq<Token>) returns (f: Form)
    requires ParseAtom(ts).Ok?
    ensures Proper(f) && Tree(f) == ParseAtom(ts).value.node && ts == Written(f) + ParseAtom(ts).value.rest
    decreases |ts|, 0
  {
    assert ts == [ts[0]] + ts[1..];
    match ts[0]
    case LParen =>
      hide ParseOr, Sentence, Meaning;
      var fs := SentenceRead(ts[1..]);
      f := Group(fs);
      var p := ParseOr(ts[1..]).value;
      assert p.rest == [RParen] + p.rest[1..];
    case LBrace =>
      f := CallRead(ts);
    case ItemTok(body) =>
      f := Item(body);
  }

  lemma CallRead(ts: seq<Token>) returns (f: Form)
    requires FuncNode(ts).Ok?
    ensures Proper(f) && Tree(f) == FuncNode(ts).value.node && ts == Written(f) + FuncNode(ts).value.rest
  {
    hide TakeArgs, Closes, Commas, Texts;
    var args := ArgsRead(ts[3..], [], "", 0);
    f := Call(ts[1].word, args);
    var a := TakeArgs(ts[3..], [], "", 0).value;
    assert [] + Texts("", args) == Texts("", args);
    assert a.rest == [RBrace] + a.rest[1..] && ts == [LBrace, Token.Ident(ts[1].word), LParen] + ts[3..];
  }

  lemma AndMore(fs: Forms, f: Form, ts: seq<Token>, rest: seq<Token>)
    requires ts != [] && ts[0].AndTok? && ts[1..] == Written(f) + rest
    ensures Sentence(And(fs, f)) + rest == Sentence(fs) + ts && Ended(And(fs, f)) == Ended(fs)
  {
    hide Written;
    assert ts == [AndTok] + (Written(f) + rest);
  }

  /** The `and` loop, after `fs`. */
  lemma {:induction false} RunRead(ts: seq<Token>, fs: Forms) returns (gs: Forms)
    requires AllProper(fs) && AndTail(ts, Going(fs)).Ok?
    ensures var p := AndTail(ts, Going(fs)).value;
            AllProper(gs) && Ended(gs) == Ended(fs) && AndOf(Going(gs)) == p.node &&
            Sentence(gs) + p.rest == Sentence(fs) + ts
    decreases |ts|, 1
  {
    hide ParseAtom, Proper, Tree, Written, AndOf, Sentence, Ended;
    gs := fs;
    if ts != [] && ts[0].AndTok? {
      var f := FormRead(ts[1..]);
      var rest := ParseAtom(ts[1..]).value.rest;
      AndMore(fs, f, ts, rest);
      gs := RunRead(rest, And(fs, f));
    }
  }

  /** The `or` loop, after `fs`. */
  lemma {:induction false} RunsRead(ts: seq<Token>, fs: Forms) returns (gs: Forms)
    requires AllProper(fs) && OrTail(ts, Ended(fs) + [AndOf(Going(fs))]).Ok?
    ensures var p := OrTail(ts, Ended(fs) + [AndOf(Going(fs))]).value;
            AllProper(gs) && Meaning(gs) == p.node && Sentence(gs) + p.rest == Sentence(fs) + ts
    decreases |ts|, 3
  {
    hide ParseAtom, AndTail, Proper, Tree, Written, AndOf, OrOf;
    gs := fs;
    if ts != [] && ts[0].OrTok? {
      var f := FormRead(ts[1..]);
      var p := ParseAtom(ts[1..]).value;
      assert ts == [OrTok] + (Written(f) + p.rest);
      var next := Or(fs, f);
      assert Sentence(next) + p.rest == Sentence(fs) + ts;
      var run := RunRead(p.rest, next);
      gs := RunsRead(AndTail(p.rest, [p.node]).value.rest, run);
    }
  }

  lemma {:induction false} SentenceRead(ts: seq<Token>) returns (fs: Forms)
    requires ParseOr(ts).Ok?
    ensures var p := ParseOr(ts).value; AllProper(fs) && Meaning(fs) == p.node && ts == Sentence(fs) + p.rest
    decreases |ts|, 4
  {
    hide ParseAtom, AndTail, OrTail, Proper, Tree, Written, AndOf, OrOf;
    var f := FormRead(ts);
    var p := ParseAtom(ts).value;
    var run := RunRead(p.rest, One(f));
    var q := AndTail(p.rest, [p.node]).value;
    assert Ended(run) + [AndOf(Going(run))] == [q.node];
    fs := RunsRead(q.rest, run);
  }

  /** The parser accepts a list of tokens exactly when it is a sentence of the grammar, and
      gives the tree of one. */
  lemma AcceptsSentences(ts: seq<Token>, a: Ast)
    ensures ParseTokens(ts) == Ok(a) <==> exists fs :: AllProper(fs) && Sentence(fs) == ts && Meaning(fs) == a
  {
    hide ParseOr, AllProper, Sentence, Meaning;
    if ParseTokens(ts) == Ok(a) {
      var fs := SentenceRead(ts);
      assert Sentence(fs) + [] == Sentence(fs);
    }
    if fs :| AllProper(fs) && Sentence(fs) == ts && Meaning(fs) == a {
      SentenceParses(fs, []);
      assert Sentence(fs) + [] == Sentence(fs);
    }
  }
}
