/** The tracker pack's recursive-descent parser (build_poptracker_pack.py): `and` binds
    tighter than `or`, unlike the rule reader. */
module PackParser {
  import opened Text
  import opened PackLexer

  datatype Ast =
    | True
    | False
    | Need(name: string, count: nat)
    | Func(func: string, args: seq<string>)
    | AllOf(children: seq<Ast>)
    | AnyOf(children: seq<Ast>)

  datatype Parsed = Parsed(node: Ast, rest: seq<Token>)

  function AndOf(children: seq<Ast>): Ast
    requires children != []
  {
    if |children| > 1 then AllOf(children) else children[0]
  }

  function OrOf(children: seq<Ast>): Ast
    requires children != []
  {
    if |children| > 1 then AnyOf(children) else children[0]
  }

  /** `|body|`: a name, or a name and a count after the first colon. A negative count asks
      for as little as zero does. */
  function ItemNode(body: string): Result<Ast> {
    var k := IndexOf(body, ':');
    if k == |body| then Ok(Need(Strip(body), 1))
    else
      match ParseInt(Strip(body[k + 1..]))
      case None => Raised
      case Some(n) => Ok(Need(Strip(body[..k]), if n > 0 then n else 0))
  }

  datatype Args = Args(texts: seq<string>, rest: seq<Token>)

  /** The arguments up to the closing parenthesis, rebuilt as text. */
  function TakeArgs(ts: seq<Token>, args: seq<string>, cur: string, depth: nat): (r: Result<Args>)
    ensures r.Ok? ==> |r.value.rest| < |ts|
  {
    if ts == [] then Raised
    else if ts[0].RParen? && depth == 0 then
      Ok(Args(if Strip(cur) != "" then args + [Strip(cur)] else args, ts[1..]))
    else if ts[0].Comma? && depth == 0 then TakeArgs(ts[1..], args + [Strip(cur)], "", 0)
    else
      var d := if ts[0].LParen? then depth + 1 else if ts[0].RParen? then depth - 1 else depth;
      TakeArgs(ts[1..], args, cur + EmitToken(ts[0]), d)
  }

  lemma TakeNone(args: seq<string>, cur: string, depth: nat)
    ensures TakeArgs([], args, cur, depth) == Raised
  {
  }

  lemma TakeStep(ts: seq<Token>, args: seq<string>, cur: string, depth: nat)
    requires ts != []
    ensures TakeArgs(ts, args, cur, depth) ==
            if ts[0].RParen? && depth == 0 then
              Ok(Args(if Strip(cur) != "" then args + [Strip(cur)] else args, ts[1..]))
            else if ts[0].Comma? && depth == 0 then TakeArgs(ts[1..], args + [Strip(cur)], "", 0)
            else
              TakeArgs(ts[1..], args, cur + EmitToken(ts[0]),
                       if ts[0].LParen? then depth + 1 else if ts[0].RParen? then depth - 1 else depth)
  {
  }

  function FuncNode(ts: seq<Token>): (r: Result<Parsed>)
    ensures r.Ok? ==> |r.value.rest| < |ts|
  {
    if |ts| < 3 || !ts[0].LBrace? || !ts[1].Ident? || !ts[2].LParen? then Raised
    else
      match TakeArgs(ts[3..], [], "", 0)
      case Raised => Raised
      case Ok(a) =>
        if a.rest == [] || !a.rest[0].RBrace? then Raised
        else Ok(Parsed(Func(ts[1].word, a.texts), a.rest[1..]))
  }

  function ParseAtom(ts: seq<Token>): (r: Result<Parsed>)
    ensures r.Ok? ==> |r.value.rest| < |ts|
    decreases |ts|, 0
  {
    if ts == [] then Raised
    else
      match ts[0]
      case LParen =>
        (match ParseOr(ts[1..])
         case Raised => Raised
         case Ok(p) =>
           if p.rest == [] || !p.rest[0].RParen? then Raised else Ok(Parsed(p.node, p.rest[1..])))
      case LBrace => FuncNode(ts)
      case ItemTok(body) =>
        (match ItemNode(body)
         case Raised => Raised
         case Ok(node) => Ok(Parsed(node, ts[1..])))
      case _ => Raised
  }

  function AndTail(ts: seq<Token>, children: seq<Ast>): (r: Result<Parsed>)
    requires children != []
    ensures r.Ok? ==> |r.value.rest| <= |ts|
    decreases |ts|, 1
  {
    if ts == [] || !ts[0].AndTok? then Ok(Parsed(AndOf(children), ts))
    else
      match ParseAtom(ts[1..])
      case Raised => Raised
      case Ok(p) => AndTail(p.rest, children + [p.node])
  }

  function ParseAnd(ts: seq<Token>): (r: Result<Parsed>)
    ensures r.Ok? ==> |r.value.rest| < |ts|
    decreases |ts|, 2
  {
    match ParseAtom(ts)
    case Raised => Raised
    case Ok(p) => AndTail(p.rest, [p.node])
  }

  function OrTail(ts: seq<Token>, children: seq<Ast>): (r: Result<Parsed>)
    requires children != []
    ensures r.Ok? ==> |r.value.rest| <= |ts|
    decreases |ts|, 3
  {
    if ts == [] || !ts[0].OrTok? then Ok(Parsed(OrOf(children), ts))
    else
      match ParseAnd(ts[1..])
      case Raised => Raised
      case Ok(p) => OrTail(p.rest, children + [p.node])
  }

  function ParseOr(ts: seq<Token>): (r: Result<Parsed>)
    ensures r.Ok? ==> |r.value.rest| < |ts|
    decreases |ts|, 4
  {
    match ParseAnd(ts)
    case Raised => Raised
    case Ok(p) => OrTail(p.rest, [p.node])
  }

  function ParseTokens(ts: seq<Token>): Result<Ast> {
    match ParseOr(ts)
    case Raised => Raised
    case Ok(p) => if p.rest == [] then Ok(p.node) else Raised
  }

  /** `parse_requires` on a string. */
  function ParseRequires(s: string): Result<Ast> {
    if Strip(s) == "" then Ok(True)
    else
      match Tokenize(Strip(s))
      case Raised => Raised
      case Ok(ts) => if ts == [] then Ok(True) else ParseTokens(ts)
  }

  /** Surrounding white space does not matter; text without tokens means "no requirement". */
  lemma ParseByTokens(s: string)
    ensures Tokenize(s).Raised? ==> ParseRequires(s).Raised?
    ensures Tokenize(s).Ok? ==>
              ParseRequires(s) == if Tokenize(s).value == [] then Ok(True) else ParseTokens(Tokenize(s).value)
  {
    hide ParseTokens;
    StripKeepsTokens(s);
  }

  // ----------------------------------------------------- the parser's methods

  /** `_Parser`: the methods move `i` forward; a failure leaves it anywhere. */
  class Parser {
    const toks: seq<Token>
    var i: nat

    constructor (toks: seq<Token>)
      ensures this.toks == toks && i == 0
    {
      this.toks := toks;
      i := 0;
    }

    function Rest(): seq<Token>
      requires i <= |toks|
      reads this
    {
      toks[i..]
    }

    function Peek(): Option<Token>
      requires i <= |toks|
      reads this
    {
      if i < |toks| then Some(toks[i]) else None
    }

    method Parse() returns (r: Result<Ast>)
      requires i == 0
      modifies this
      ensures r == ParseTokens(toks)
    {
      assert Rest() == toks;
      var p := ParseAny();
      if p.Raised? {
        return Raised;
      }
      return if Peek().Some? then Raised else p;
    }

    method ParseAny() returns (r: Result<Ast>)
      requires i <= |toks|
      modifies this
      ensures r.Ok? ==> i <= |toks| && ParseOr(old(Rest())) == Ok(Parsed(r.value, Rest()))
      ensures r.Raised? ==> ParseOr(old(Rest())).Raised?
      decreases |toks| - i, 2
    {
      hide ParseAnd, AndTail, ParseAtom, OrOf;
      ghost var start := Rest();
      var left := ParseAll();
      if left.Raised? {
        return Raised;
      }
      var children := [left.value];
      while Peek().Some? && Peek().value.OrTok?
        invariant children != [] && old(i) < i <= |toks|
        invariant ParseOr(start) == OrTail(Rest(), children)
        decreases |toks| - i
      {
        assert Rest()[1..] == toks[i + 1..];
        i := i + 1;
        var next := ParseAll();
        if next.Raised? {
          return Raised;
        }
        children := children + [next.value];
      }
      return Ok(OrOf(children));
    }

    method ParseAll() returns (r: Result<Ast>)
      requires i <= |toks|
      modifies this
      ensures r.Ok? ==> old(i) < i <= |toks| && ParseAnd(old(Rest())) == Ok(Parsed(r.value, Rest()))
      ensures r.Raised? ==> ParseAnd(old(Rest())).Raised?
      decreases |toks| - i, 1
    {
      hide ParseAtom, ParseOr, AndOf;
      ghost var start := Rest();
      var left := ParseOne();
      if left.Raised? {
        return Raised;
      }
      var children := [left.value];
      while Peek().Some? && Peek().value.AndTok?
        invariant children != [] && old(i) < i <= |toks|
        invariant ParseAnd(start) == AndTail(Rest(), children)
        decreases |toks| - i
      {
        assert Rest()[1..] == toks[i + 1..];
        i := i + 1;
        var next := ParseOne();
        if next.Raised? {
          return Raised;
        }
        children := children + [next.value];
      }
      return Ok(AndOf(children));
    }

    method ParseOne() returns (r: Result<Ast>)
      requires i <= |toks|
      modifies this
      ensures r.Ok? ==> old(i) < i <= |toks| && ParseAtom(old(Rest())) == Ok(Parsed(r.value, Rest()))
      ensures r.Raised? ==> ParseAtom(old(Rest())).Raised?
      decreases |toks| - i, 0
    {
      if i == |toks| {
        return Raised;
      }
      assert Rest()[1..] == toks[i + 1..];
      match toks[i]
      case LParen =>
        i := i + 1;
        var node := ParseAny();
        if node.Raised? || i == |toks| || !toks[i].RParen? {
          return Raised;
        }
        assert Rest()[1..] == toks[i + 1..];
        i := i + 1;
        return node;
      case LBrace =>
        r := ParseFunc();
      case ItemTok(body) =>
        i := i + 1;
        return ItemNode(body);
      case _ =>
        return Raised;
    }

    method ParseFunc() returns (r: Result<Ast>)
      requires i <= |toks|
      modifies this
      ensures r.Ok? ==> old(i) < i <= |toks| && FuncNode(old(Rest())) == Ok(Parsed(r.value, Rest()))
      ensures r.Raised? ==> FuncNode(old(Rest())).Raised?
    {
      if |toks| - i < 3 || !toks[i].LBrace? || !toks[i + 1].Ident? || !toks[i + 2].LParen? {
        return Raised;
      }
      var name := toks[i + 1].word;
      assert Rest()[3..] == toks[i + 3..];
      i := i + 3;
      var args := ParseArgs();
      if args.Raised? || i == |toks| || !toks[i].RBrace? {
        return Raised;
      }
      assert Rest()[1..] == toks[i + 1..];
      i := i + 1;
      return Ok(Func(name, args.value));
    }

    method ParseArgs() returns (r: Result<seq<string>>)
      requires i <= |toks|
      modifies this
      ensures r.Ok? ==> old(i) < i <= |toks| && TakeArgs(old(Rest()), [], "", 0) == Ok(Args(r.value, Rest()))
      ensures r.Raised? ==> TakeArgs(old(Rest()), [], "", 0).Raised?
    {
      hide Strip, EmitToken, TakeArgs;
      var args, cur, depth := [], "", 0;
      while i < |toks|
        invariant old(i) <= i <= |toks| && 0 <= depth
        invariant TakeArgs(old(Rest()), [], "", 0) == TakeArgs(Rest(), args, cur, depth)
        decreases |toks| - i
      {
        var t := toks[i];
        assert Rest()[0] == t && Rest()[1..] == toks[i + 1..];
        TakeStep(Rest(), args, cur, depth);
        if t.RParen? && depth == 0 {
          i := i + 1;
          return Ok(if Strip(cur) != "" then args + [Strip(cur)] else args);
        }
        if t.Comma? && depth == 0 {
          args := args + [Strip(cur)];
          cur := "";
        } else {
          if t.LParen? {
            depth := depth + 1;
          } else if t.RParen? {
            depth := depth - 1;
          }
          cur := cur + EmitToken(t);
        }
        i := i + 1;
      }
      TakeNone(args, cur, depth);
      return Raised;
    }
  }
}
