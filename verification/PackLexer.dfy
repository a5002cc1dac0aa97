/** The tracker pack's tokenizer, and the text it rebuilds from tokens
    (build_poptracker_pack.py). */
module PackLexer {
  import opened Text

  /** AND and OR tokens carry the word as it was written; nothing reads it. */
  datatype Token =
    | LParen | RParen | LBrace | RBrace | Comma | AndTok | OrTok
    | ItemTok(body: string)
    | Ident(word: string)

  predicate IsBracket(c: char) {
    c == '(' || c == ')' || c == '{' || c == '}' || c == ','
  }

  function Bracket(c: char): Token
    requires IsBracket(c)
  {
    match c
    case '(' => LParen
    case ')' => RParen
    case '{' => LBrace
    case '}' => RBrace
    case ',' => Comma
  }

  /** Characters an identifier or keyword is made of. */
  predicate IsPlainChar(c: char) {
    !IsBracket(c) && c != '|' && !IsSpace(c)
  }

  predicate PlainWord(w: string) {
    forall i :: 0 <= i < |w| ==> IsPlainChar(w[i])
  }

  /** Length of the run of plain characters that `s` begins with. */
  function WordEnd(s: string): (k: nat)
    ensures k <= |s| && PlainWord(s[..k])
    ensures k < |s| ==> !IsPlainChar(s[k])
  {
    if s == "" || !IsPlainChar(s[0]) then 0
    else
      var k := WordEnd(s[1..]);
      assert forall i :: 1 <= i < k + 1 ==> s[i] == s[1..][..k][i - 1];
      1 + k
  }

  function WordToken(w: string): Token {
    if Lower(w) == "and" then AndTok else if Lower(w) == "or" then OrTok else Ident(w)
  }

  function Push(t: Token, r: Result<seq<Token>>): Result<seq<Token>> {
    match r
    case Raised => Raised
    case Ok(ts) => Ok([t] + ts)
  }

  function Tokenize(s: string): Result<seq<Token>>
    decreases |s|
  {
    if s == "" then Ok([])
    else if IsSpace(s[0]) then Tokenize(s[1..])
    else if IsBracket(s[0]) then Push(Bracket(s[0]), Tokenize(s[1..]))
    else if s[0] == '|' then
      var k := IndexOf(s[1..], '|');
      if k == |s| - 1 then Raised else Push(ItemTok(s[1..][..k]), Tokenize(s[k + 2..]))
    else
      Push(WordToken(s[..WordEnd(s)]), Tokenize(s[WordEnd(s)..]))
  }

  // -------------------------------------------------------- the loop itself

  function After(done: seq<Token>, r: Result<seq<Token>>): Result<seq<Token>> {
    match r
    case Raised => Raised
    case Ok(ts) => Ok(done + ts)
  }

  lemma AfterNone(r: Result<seq<Token>>)
    ensures After([], r) == r
  {
    if r.Ok? {
      assert [] + r.value == r.value;
    }
  }

  lemma AfterPush(done: seq<Token>, t: Token, r: Result<seq<Token>>)
    ensures After(done, Push(t, r)) == After(done + [t], r)
  {
    if r.Ok? {
      assert done + ([t] + r.value) == done + [t] + r.value;
    }
  }

  lemma TokenizeHead(s: string, i: nat)
    requires i < |s|
    ensures s[i..] != "" && s[i..][0] == s[i] && s[i..][1..] == s[i + 1..]
  {
  }

  lemma SpaceStep(s: string, i: nat)
    requires i < |s| && IsSpace(s[i])
    ensures Tokenize(s[i..]) == Tokenize(s[i + 1..])
  {
    TokenizeHead(s, i);
  }

  lemma BracketStep(s: string, i: nat, done: seq<Token>)
    requires i < |s| && IsBracket(s[i])
    ensures After(done, Tokenize(s[i..])) == After(done + [Bracket(s[i])], Tokenize(s[i + 1..]))
  {
    TokenizeHead(s, i);
    AfterPush(done, Bracket(s[i]), Tokenize(s[i + 1..]));
  }

  lemma ItemStep(s: string, i: nat, k: nat, done: seq<Token>)
    requires i < |s| && s[i] == '|' && k == IndexOf(s[i + 1..], '|') && k < |s| - i - 1
    ensures After(done, Tokenize(s[i..])) == After(done + [ItemTok(s[i + 1..][..k])], Tokenize(s[i + k + 2..]))
  {
    hide Tokenize, After, IndexOf;
    TokenizeHead(s, i);
    TakeItem(s[i..], k, done);
    assert s[i..][k + 2..] == s[i + k + 2..];
  }

  lemma TakeItem(t: string, k: nat, done: seq<Token>)
    requires t != "" && t[0] == '|' && k == IndexOf(t[1..], '|') && k < |t| - 1
    ensures After(done, Tokenize(t)) == After(done + [ItemTok(t[1..][..k])], Tokenize(t[k + 2..]))
  {
    hide After;
    AfterPush(done, ItemTok(t[1..][..k]), Tokenize(t[k + 2..]));
  }

  lemma UnclosedBar(s: string, i: nat, done: seq<Token>)
    requires i < |s| && s[i] == '|' && IndexOf(s[i + 1..], '|') == |s| - i - 1
    ensures After(done, Tokenize(s[i..])) == Raised
  {
    TokenizeHead(s, i);
  }

  lemma WordStep(s: string, i: nat, j: nat, done: seq<Token>)
    requires i < j <= |s| && IsPlainChar(s[i]) && j - i == WordEnd(s[i..])
    ensures After(done, Tokenize(s[i..])) == After(done + [WordToken(s[i..j])], Tokenize(s[j..]))
  {
    hide Tokenize, After, WordEnd, WordToken;
    TokenizeHead(s, i);
    TakeWord(s[i..], done);
    assert s[i..][..j - i] == s[i..j] && s[i..][j - i..] == s[j..];
  }

  lemma TakeWord(t: string, done: seq<Token>)
    requires t != "" && IsPlainChar(t[0])
    ensures After(done, Tokenize(t)) == After(done + [WordToken(t[..WordEnd(t)])], Tokenize(t[WordEnd(t)..]))
  {
    hide After, WordToken;
    AfterPush(done, WordToken(t[..WordEnd(t)]), Tokenize(t[WordEnd(t)..]));
  }

  lemma ScanEnd(s: string, done: seq<Token>)
    ensures After(done, Tokenize(s[|s|..])) == Ok(done)
  {
    assert done + [] == done;
  }

  method ScanTokens(s: string) returns (r: Result<seq<Token>>)
    ensures r == Tokenize(s)
  {
    hide Tokenize, After;
    var tokens: seq<Token> := [];
    var i := 0;
    assert s[0..] == s;
    AfterNone(Tokenize(s));
    while i < |s|
      invariant 0 <= i <= |s|
      invariant Tokenize(s) == After(tokens, Tokenize(s[i..]))
    {
      var c := s[i];
      if IsSpace(c) {
        SpaceStep(s, i);
        i := i + 1;
      } else if IsBracket(c) {
        BracketStep(s, i, tokens);
        tokens := tokens + [Bracket(c)];
        i := i + 1;
      } else if c == '|' {
        var k := IndexOf(s[i + 1..], '|');
        if k == |s| - i - 1 {
          UnclosedBar(s, i, tokens);
          return Raised;
        }
        ItemStep(s, i, k, tokens);
        tokens := tokens + [ItemTok(s[i + 1..][..k])];
        i := i + k + 2;
      } else {
        var j := ScanWord(s, i);
        WordStep(s, i, j, tokens);
        tokens := tokens + [WordToken(s[i..j])];
        i := j;
      }
    }
    ScanEnd(s, tokens);
    return Ok(tokens);
  }

  method ScanWord(s: string, i: nat) returns (j: nat)
    requires i < |s| && IsPlainChar(s[i])
    ensures i < j <= |s| && j - i == WordEnd(s[i..])
  {
    j := i;
    while j < |s| && IsPlainChar(s[j])
      invariant i <= j <= |s|
      invariant WordEnd(s[i..]) == j - i + WordEnd(s[j..])
    {
      TokenizeHead(s, j);
      j := j + 1;
    }
  }

  // ---------------------------------------------------- tokens of given text

  lemma {:induction false} WordEndAt(w: string, s: string)
    requires PlainWord(w) && (s == "" || !IsPlainChar(s[0]))
    ensures WordEnd(w + s) == |w|
  {
    if w == "" {
      assert w + s == s;
    } else {
      assert (w + s)[1..] == w[1..] + s;
      WordEndAt(w[1..], s);
    }
  }

  /** A word that ends where a delimiter begins. */
  lemma WordFirst(w: string, s: string)
    requires w != "" && PlainWord(w) && (s == "" || !IsPlainChar(s[0]))
    ensures Tokenize(w + s) == Push(WordToken(w), Tokenize(s))
  {
    WordEndAt(w, s);
    assert (w + s)[..|w|] == w && (w + s)[|w|..] == s;
    assert IsPlainChar(w[0]) && (w + s)[0] == w[0];
  }

  lemma BracketFirst(c: char, s: string)
    requires IsBracket(c)
    ensures Tokenize([c] + s) == Push(Bracket(c), Tokenize(s))
  {
    assert ([c] + s)[1..] == s;
  }

  lemma SpaceFirst(s: string)
    ensures Tokenize(" " + s) == Tokenize(s)
  {
    assert (" " + s)[1..] == s;
  }

  lemma ItemFirst(body: string, s: string)
    requires '|' !in body
    ensures Tokenize("|" + body + "|" + s) == Push(ItemTok(body), Tokenize(s))
  {
    var t := "|" + body + "|" + s;
    assert t[1..] == body + "|" + s;
    IndexOfAt(body, '|', s);
    assert t[1..][..|body|] == body;
    assert t[|body| + 2..] == s;
  }

  /** Text that tokenizes, followed by a delimiter, keeps its tokens. */
  lemma {:induction false} TokenizeAppend(x: string, s: string)
    requires Tokenize(x).Ok? && (s == "" || !IsPlainChar(s[0]))
    ensures Tokenize(x + s) == After(Tokenize(x).value, Tokenize(s))
    decreases |x|
  {
    if x == "" {
      assert x + s == s;
      AfterNone(Tokenize(s));
    } else if IsSpace(x[0]) {
      assert (x + s)[1..] == x[1..] + s;
      TokenizeAppend(x[1..], s);
    } else if IsBracket(x[0]) {
      assert (x + s)[1..] == x[1..] + s;
      TokenizeAppend(x[1..], s);
      PushAfter(Bracket(x[0]), Tokenize(x[1..]).value, Tokenize(s));
    } else if x[0] == '|' {
      ItemAppend(x, s);
    } else {
      WordAppend(x, s);
    }
  }

  lemma PushAfter(t: Token, done: seq<Token>, r: Result<seq<Token>>)
    ensures Push(t, After(done, r)) == After([t] + done, r)
  {
    if r.Ok? {
      assert [t] + (done + r.value) == [t] + done + r.value;
    }
  }

  lemma ItemAppend(x: string, s: string)
    requires Tokenize(x).Ok? && (s == "" || !IsPlainChar(s[0]))
    requires x != "" && x[0] == '|'
    ensures Tokenize(x + s) == After(Tokenize(x).value, Tokenize(s))
    decreases |x|, 0
  {
    var body, rest := SplitItem(x);
    ItemFirst(body, rest);
    ItemFirst(body, rest + s);
    Regroup("|" + body + "|", rest, s);
    TokenizeAppend(rest, s);
    PushAfter(ItemTok(body), Tokenize(rest).value, Tokenize(s));
  }

  /** The item a text begins with, when its bar is closed. */
  lemma SplitItem(x: string) returns (body: string, rest: string)
    requires x != "" && x[0] == '|' && IndexOf(x[1..], '|') < |x| - 1
    ensures '|' !in body && x == "|" + body + "|" + rest
  {
    var k := IndexOf(x[1..], '|');
    body, rest := x[1..][..k], x[k + 2..];
    assert x[1..][k] == '|';
  }

  lemma WordAppend(x: string, s: string)
    requires Tokenize(x).Ok? && (s == "" || !IsPlainChar(s[0]))
    requires x != "" && IsPlainChar(x[0])
    ensures Tokenize(x + s) == After(Tokenize(x).value, Tokenize(s))
    decreases |x|, 0
  {
    var w, rest := x[..WordEnd(x)], x[WordEnd(x)..];
    assert x == w + rest;
    Regroup(w, rest, s);
    assert rest + s == "" || !IsPlainChar((rest + s)[0]);
    WordFirst(w, rest);
    WordFirst(w, rest + s);
    TokenizeAppend(rest, s);
    PushAfter(WordToken(w), Tokenize(rest).value, Tokenize(s));
  }

  /** White space around a text does not change its tokens, nor whether it has any. */
  lemma StripKeepsTokens(s: string)
    ensures Tokenize(Strip(s)) == Tokenize(s)
  {
    StripLeftTokens(s);
    StripRightTokens(StripLeft(s));
  }

  lemma {:induction false} StripLeftTokens(s: string)
    ensures Tokenize(StripLeft(s)) == Tokenize(s)
  {
    if s != "" && IsSpace(s[0]) {
      StripLeftTokens(s[1..]);
    }
  }

  lemma {:induction false} StripRightTokens(s: string)
    ensures Tokenize(StripRight(s)) == Tokenize(s)
  {
    if s != "" && IsSpace(s[|s| - 1]) {
      StripRightTokens(s[..|s| - 1]);
      LastSpace(s[..|s| - 1], s[|s| - 1]);
      assert s == s[..|s| - 1] + [s[|s| - 1]];
    }
  }

  lemma LastSpace(x: string, c: char)
    requires IsSpace(c)
    ensures Tokenize(x + [c]) == Tokenize(x)
  {
    if Tokenize(x).Ok? {
      TokenizeAppend(x, [c]);
      assert [c][1..] == "";
      assert Tokenize([c]) == Ok([]);
      assert Tokenize(x).value + [] == Tokenize(x).value;
    } else {
      RaisedAppend(x, c);
    }
  }

  /** An unclosed bar stays unclosed. */
  lemma {:induction false} RaisedAppend(x: string, c: char)
    requires Tokenize(x).Raised? && IsSpace(c)
    ensures Tokenize(x + [c]).Raised?
    decreases |x|
  {
    var s := x + [c];
    if IsSpace(x[0]) || IsBracket(x[0]) {
      assert s[1..] == x[1..] + [c];
      RaisedAppend(x[1..], c);
    } else if x[0] == '|' {
      BarAppend(x, c);
    } else {
      var w, rest := x[..WordEnd(x)], x[WordEnd(x)..];
      assert x == w + rest;
      Regroup(w, rest, [c]);
      assert !IsPlainChar((rest + [c])[0]);
      WordFirst(w, rest);
      WordFirst(w, rest + [c]);
      RaisedAppend(rest, c);
    }
  }

  lemma BarAppend(x: string, c: char)
    requires Tokenize(x).Raised? && IsSpace(c) && x != "" && x[0] == '|'
    ensures Tokenize(x + [c]).Raised?
    decreases |x|, 0
  {
    var k := IndexOf(x[1..], '|');
    var body := x[1..][..k];
    if k == |x| - 1 {
      assert (x + [c])[1..] == x[1..] + [c];
      assert x[1..] == body;
      IndexOfNone(x[1..] + [c], '|');
    } else {
      var b, rest := SplitItem(x);
      body := b;
      Regroup("|" + body + "|", rest, [c]);
      ItemFirst(body, rest);
      ItemFirst(body, rest + [c]);
      RaisedAppend(rest, c);
    }
  }

  function Bars(s: string): nat {
    if s == "" then 0 else (if s[0] == '|' then 1 else 0) + Bars(s[1..])
  }

  lemma {:induction false} BarsAppend(a: string, b: string)
    ensures Bars(a + b) == Bars(a) + Bars(b)
  {
    if a == "" {
      assert a + b == b;
    } else {
      assert (a + b)[1..] == a[1..] + b;
      BarsAppend(a[1..], b);
    }
  }

  lemma {:induction false} NoBars(s: string)
    requires '|' !in s
    ensures Bars(s) == 0
  {
    if s != "" {
      assert s[0] in s;
      NoBars(s[1..]);
    }
  }

  /** The tokenizer raises exactly when a bar is left unclosed: when their number is odd. */
  lemma {:induction false} RaisesOnOddBars(s: string)
    ensures Tokenize(s).Raised? <==> Bars(s) % 2 == 1
    decreases |s|
  {
    if s != "" {
      if IsSpace(s[0]) || IsBracket(s[0]) {
        RaisesOnOddBars(s[1..]);
      } else if s[0] == '|' {
        OddBarsItem(s);
      } else {
        var w, rest := s[..WordEnd(s)], s[WordEnd(s)..];
        assert s == w + rest;
        NoBars(w);
        BarsAppend(w, rest);
        RaisesOnOddBars(rest);
      }
    }
  }

  lemma BarsItem(body: string, rest: string)
    requires '|' !in body
    ensures Bars("|" + body + "|" + rest) == 2 + Bars(rest)
  {
    NoBars(body);
    BarsAppend("|" + body + "|", rest);
    BarsAppend("|" + body, "|");
    BarsAppend("|", body);
    assert "|"[1..] == "" && Bars("|") == 1;
  }

  lemma OneBar(s: string)
    requires s != "" && s[0] == '|' && IndexOf(s[1..], '|') == |s| - 1
    ensures Tokenize(s).Raised? && Bars(s) == 1
  {
    NoBars(s[1..]);
  }

  lemma ClosedItem(body: string, rest: string)
    requires '|' !in body
    ensures Tokenize("|" + body + "|" + rest).Raised? <==> Tokenize(rest).Raised?
    ensures Bars("|" + body + "|" + rest) == 2 + Bars(rest)
  {
    hide Tokenize, Bars;
    ItemFirst(body, rest);
    BarsItem(body, rest);
  }

  lemma OddBarsItem(s: string)
    requires s != "" && s[0] == '|'
    ensures Tokenize(s).Raised? <==> Bars(s) % 2 == 1
    decreases |s|, 0
  {
    hide Tokenize, Bars;
    if IndexOf(s[1..], '|') == |s| - 1 {
      OneBar(s);
    } else {
      var body, rest := SplitItem(s);
      assert |rest| < |s|;
      ClosedItem(body, rest);
      RaisesOnOddBars(rest);
    }
  }

  // ------------------------------------------------------- rebuilding text

  /** `_emit_token`. */
  function EmitToken(t: Token): string {
    match t
    case LParen => "("
    case RParen => ")"
    case LBrace => "{"
    case RBrace => "}"
    case Comma => ","
    case AndTok => " and "
    case OrTok => " or "
    case ItemTok(body) => "|" + body + "|"
    case Ident(w) => w
  }

  function Emit(ts: seq<Token>): string {
    if ts == [] then "" else EmitToken(ts[0]) + Emit(ts[1..])
  }

  /** What the tokenizer can have produced. */
  predicate Scanned(t: Token) {
    match t
    case ItemTok(body) => '|' !in body
    case Ident(w) => w != "" && PlainWord(w) && WordToken(w) == t
    case _ => true
  }

  predicate AllScanned(ts: seq<Token>) {
    forall i :: 0 <= i < |ts| ==> Scanned(ts[i])
  }

  lemma {:induction false} TokenizeScanned(s: string)
    ensures Tokenize(s).Ok? ==> AllScanned(Tokenize(s).value)
    decreases |s|
  {
    if s == "" {
    } else if IsSpace(s[0]) || IsBracket(s[0]) {
      TokenizeScanned(s[1..]);
    } else if s[0] == '|' {
      var k := IndexOf(s[1..], '|');
      if k < |s| - 1 {
        TokenizeScanned(s[k + 2..]);
        assert '|' !in s[1..][..k];
      }
    } else {
      TokenizeScanned(s[WordEnd(s)..]);
    }
  }

  /** The tokens of rebuilt text: runs of identifiers melt into one word, which may even
      turn out to be a keyword; every other token survives. `pending` is the run so far. */
  function Melt(pending: string, ts: seq<Token>): seq<Token>
    decreases |ts|
  {
    if ts == [] then Flushed(pending)
    else if ts[0].Ident? then Melt(pending + ts[0].word, ts[1..])
    else Flushed(pending) + ([ts[0]] + Melt("", ts[1..]))
  }

  function Flushed(pending: string): seq<Token> {
    if pending == "" then [] else [WordToken(pending)]
  }

  lemma EmitFirst(t: Token, s: string)
    requires Scanned(t) && !t.Ident?
    ensures Tokenize(EmitToken(t) + s) == Push(t, Tokenize(s))
    ensures EmitToken(t) != "" && !IsPlainChar(EmitToken(t)[0])
  {
    match t
    case LParen => BracketFirst('(', s);
    case RParen => BracketFirst(')', s);
    case LBrace => BracketFirst('{', s);
    case RBrace => BracketFirst('}', s);
    case Comma => BracketFirst(',', s);
    case ItemTok(body) => ItemFirst(body, s);
    case AndTok =>
      assert Lower("and") == "and" && " " + "and" + " " == " and ";
      KeywordFirst("and", s);
    case OrTok =>
      assert Lower("or") == "or" && " " + "or" + " " == " or ";
      KeywordFirst("or", s);
  }

  lemma KeywordFirst(w: string, s: string)
    requires w != "" && PlainWord(w)
    ensures Tokenize(" " + w + " " + s) == Push(WordToken(w), Tokenize(s))
  {
    assert " " + w + " " + s == " " + (w + (" " + s));
    SpaceFirst(w + (" " + s));
    WordFirst(w, " " + s);
    SpaceFirst(s);
  }

  lemma {:induction false} EmitMelts(pending: string, ts: seq<Token>)
    requires AllScanned(ts) && PlainWord(pending)
    ensures Tokenize(pending + Emit(ts)) == Ok(Melt(pending, ts))
    decreases |ts|
  {
    if ts == [] {
      MeltFlush(pending, "", []);
      assert Flushed(pending) + [] == Flushed(pending);
    } else if ts[0].Ident? {
      assert Scanned(ts[0]);
      Regroup(pending, ts[0].word, Emit(ts[1..]));
      EmitMelts(pending + ts[0].word, ts[1..]);
    } else {
      assert Scanned(ts[0]);
      EmitMelts("", ts[1..]);
      EmitToOther(pending, ts[0], Emit(ts[1..]), Melt("", ts[1..]));
    }
  }

  lemma EmitToOther(pending: string, t: Token, rest: string, ts: seq<Token>)
    requires PlainWord(pending) && Scanned(t) && !t.Ident? && Tokenize("" + rest) == Ok(ts)
    ensures Tokenize(pending + (EmitToken(t) + rest)) == Ok(Flushed(pending) + ([t] + ts))
  {
    assert "" + rest == rest;
    EmitFirst(t, rest);
    assert (EmitToken(t) + rest)[0] == EmitToken(t)[0];
    MeltFlush(pending, EmitToken(t) + rest, [t] + ts);
  }

  lemma MeltFlush(pending: string, s: string, ts: seq<Token>)
    requires PlainWord(pending) && (s == "" || !IsPlainChar(s[0])) && Tokenize(s) == Ok(ts)
    ensures Tokenize(pending + s) == Ok(Flushed(pending) + ts)
  {
    if pending == "" {
      assert pending + s == s && [] + ts == ts;
    } else {
      WordFirst(pending, s);
    }
  }

  predicate NoIdentPairs(ts: seq<Token>) {
    |ts| < 2 || (!(ts[0].Ident? && ts[1].Ident?) && NoIdentPairs(ts[1..]))
  }

  /** No pending word runs into an identifier. */
  predicate Apart(pending: string, ts: seq<Token>) {
    NoIdentPairs(ts) && (pending == "" || ts == [] || !ts[0].Ident?)
  }

  /** Melting never adds tokens and, unless identifiers stand apart, loses some. */
  lemma {:induction false} MeltKeeps(pending: string, ts: seq<Token>)
    requires AllScanned(ts)
    ensures Apart(pending, ts) ==> Melt(pending, ts) == Flushed(pending) + ts
    ensures !Apart(pending, ts) ==> |Melt(pending, ts)| < |Flushed(pending)| + |ts|
    decreases |ts|
  {
    if ts == [] {
      assert Flushed(pending) + [] == Flushed(pending);
    } else if ts[0].Ident? {
      MeltKeeps(pending + ts[0].word, ts[1..]);
      MeltIdent(pending, ts);
    } else {
      MeltKeeps("", ts[1..]);
      MeltOther(pending, ts);
    }
  }

  lemma MeltIdent(pending: string, ts: seq<Token>)
    requires ts != [] && AllScanned(ts) && ts[0].Ident?
    ensures Apart(pending, ts) <==> pending == "" && Apart(pending + ts[0].word, ts[1..])
    ensures |Flushed(pending + ts[0].word)| == 1
    ensures pending == "" ==> Flushed(pending + ts[0].word) + ts[1..] == Flushed(pending) + ts
  {
    assert Scanned(ts[0]);
    if pending == "" {
      EmptyFront(ts[0].word);
      assert Flushed(pending) + ts == ts == [ts[0]] + ts[1..];
    }
  }

  lemma MeltOther(pending: string, ts: seq<Token>)
    requires ts != [] && !ts[0].Ident?
    ensures Apart(pending, ts) <==> Apart("", ts[1..])
    ensures Flushed("") + ts[1..] == ts[1..] && [ts[0]] + ts[1..] == ts
  {
  }

  /** Rebuilding text and reading it again gives the same tokens exactly when no two
      identifiers are neighbours: the space between those is lost. */
  lemma RebuildRoundTrip(ts: seq<Token>)
    requires AllScanned(ts)
    ensures Tokenize(Strip(Emit(ts))) == Ok(ts) <==> NoIdentPairs(ts)
  {
    StripKeepsTokens(Emit(ts));
    EmitMelts("", ts);
    assert "" + Emit(ts) == Emit(ts);
    MeltKeeps("", ts);
    assert [] + ts == ts;
  }

  /** Two neighbouring words come back as one. */
  lemma JoinedWords(a: string, b: string)
    requires Scanned(Ident(a)) && Scanned(Ident(b))
    ensures Tokenize(Strip(Emit([Ident(a), Ident(b)]))) == Ok([WordToken(a + b)])
  {
    var ts := [Ident(a), Ident(b)];
    assert AllScanned(ts);
    EmitMelts("", ts);
    EmptyFront(Emit(ts));
    StripKeepsTokens(Emit(ts));
    MeltTwo(a, b);
  }

  lemma EmptyFront(s: string)
    ensures "" + s == s
  {
  }

  lemma MeltTwo(a: string, b: string)
    requires a != ""
    ensures Melt("", [Ident(a), Ident(b)]) == [WordToken(a + b)]
  {
    EmptyFront(a);
    MeltOne(a, b);
    assert [Ident(a), Ident(b)][1..] == [Ident(b)];
  }

  lemma MeltOne(pending: string, b: string)
    requires pending != ""
    ensures Melt(pending, [Ident(b)]) == [WordToken(pending + b)]
  {
    assert [Ident(b)][1..] == [];
    assert Melt(pending + b, []) == Flushed(pending + b);
  }
}
