/** The regular expressions of the rule readers as scanners, and what they find in
    printed requirement text. */
module Scanner {
  import opened Text
  import opened Syntax

  datatype CallMatch = CallMatch(func: string, args: string, len: nat)

  function WordRun(s: string): (n: nat)
    ensures n <= |s|
  {
    if s != "" && IsWord(s[0]) then 1 + WordRun(s[1..]) else 0
  }

  /** `\{(\w+)\(([^)]*)\)\}` at the start of `s`. */
  function CallAt(s: string): (m: Option<CallMatch>)
    ensures m.Some? ==> 0 < m.value.len <= |s|
  {
    if s == "" || s[0] != '{' then None
    else
      var t := s[1..];
      var n := WordRun(t);
      if n == 0 || n >= |t| || t[n] != '(' then None
      else
        var r := t[n + 1..];
        var k := IndexOf(r, ')');
        if k + 1 < |r| && r[k + 1] == '}' then Some(CallMatch(t[..n], r[..k], n + k + 4)) else None
  }

  /** `re.findall` of the call expression. */
  function FindCalls(s: string): seq<(string, string)>
    decreases |s|
  {
    if s == "" then []
    else
      match CallAt(s)
      case None => FindCalls(s[1..])
      case Some(m) => [(m.func, m.args)] + FindCalls(s[m.len..])
  }

  /** `\|[^|]+\|` at the start of `s`: the length of the match, 0 for none. */
  function ItemAt(s: string): (n: nat)
    ensures n <= |s| && (n == 0 || n >= 3)
  {
    if s == "" || s[0] != '|' then 0
    else
      var k := IndexOf(s[1..], '|');
      if 0 < k < |s| - 1 then k + 2 else 0
  }

  /** `re.findall` of the item expression. */
  function FindItems(s: string): (found: seq<string>)
    ensures forall i :: 0 <= i < |found| ==> found[i] != ""
    decreases |s|
  {
    if s == "" then []
    else
      var n := ItemAt(s);
      if n == 0 then FindItems(s[1..]) else [s[..n]] + FindItems(s[n..])
  }

  // ------------------------------------------------------------ token lists

  function CallText(f: string, x: string): string {
    AtomText(Call(f, x))
  }

  predicate IsCall(t: Tok) {
    t.A? && t.a.Call?
  }

  predicate IsItem(t: Tok) {
    t.A? && (t.a.Item? || t.a.ItemN?)
  }

  predicate GoodTok(t: Tok) {
    t.A? ==> GoodAtom(t.a)
  }

  predicate GoodToks(ts: seq<Tok>) {
    forall t :: t in ts ==> GoodTok(t)
  }

  predicate NoCalls(ts: seq<Tok>) {
    forall t :: t in ts ==> !IsCall(t)
  }

  /** An atom is followed by a closing parenthesis, a connective or the end, and a
      connective never by another one. */
  predicate Spaced(ts: seq<Tok>) {
    forall i :: 0 <= i < |ts| - 1 ==>
      && (ts[i].A? ==> ts[i + 1].RP? || ts[i + 1].W?)
      && (ts[i].W? ==> !ts[i + 1].W?)
  }

  lemma FlatHead(t: Tok, ts: seq<Tok>, sty: Style)
    ensures Flat([t] + ts, sty) == TokText(t, sty) + Flat(ts, sty)
  {
    assert ([t] + ts)[1..] == ts;
  }

  lemma FlatSplit(ts: seq<Tok>, sty: Style)
    requires ts != []
    ensures Flat(ts, sty) == TokText(ts[0], sty) + Flat(ts[1..], sty)
  {
  }

  lemma NotDigitIn(d: string, c: char)
    requires AllDigits(d) && !IsDigit(c)
    ensures c !in d
  {
  }

  lemma BodyChars(a: Atom)
    requires GoodAtom(a) && (a.Item? || a.ItemN?)
    ensures '|' !in Body(a) && '{' !in Body(a) && Body(a) != "" && Body(a)[0] == a.item[0]
  {
    if a.ItemN? {
      NotDigitIn(a.digits, '|');
      NotDigitIn(a.digits, '{');
    }
  }

  /** Only calls contain a brace, only items (and call arguments) a bar. */
  lemma QuietToks(t: Tok)
    requires GoodTok(t)
    ensures !IsCall(t) ==> '{' !in TokText(t, PLAIN)
    ensures !IsCall(t) && !IsItem(t) ==> '|' !in TokText(t, PLAIN)
  {
    if IsItem(t) {
      BodyChars(t.a);
    }
  }

  lemma {:induction false} WordRunOf(f: string, s: string)
    requires forall c :: c in f ==> IsWord(c)
    requires s == "" || !IsWord(s[0])
    ensures WordRun(f + s) == |f|
  {
    if f == "" {
      assert f + s == s;
    } else {
      assert f[0] in f;
      assert (f + s)[0] == f[0] && (f + s)[1..] == f[1..] + s;
      WordRunOf(f[1..], s);
    }
  }

  /** The text of a call and what follows, grouped as the scanner reads it. */
  lemma CallShape(f: string, x: string, s: string)
    ensures CallText(f, x) + s == ['{'] + (f + ['('] + (x + [')'] + ("}" + s)))
  {
  }

  lemma CallChars(f: string, x: string)
    requires GoodAtom(Call(f, x))
    ensures (forall c :: c in f ==> IsWord(c)) && ')' !in x
  {
  }

  lemma CallTail(f: string, x: string, s: string)
    requires GoodAtom(Call(f, x))
    ensures WordRun(f + ['('] + (x + [')'] + ("}" + s))) == |f|
    ensures IndexOf(x + [')'] + ("}" + s), ')') == |x|
  {
    hide WordRun, IndexOf, GoodAtom, IsWord;
    CallChars(f, x);
    CallWord(f, x + [')'] + ("}" + s));
    IndexOfAt(x, ')', "}" + s);
  }

  lemma CallWord(f: string, r: string)
    requires forall c :: c in f ==> IsWord(c)
    ensures WordRun(f + ['('] + r) == |f|
  {
    assert f + ['('] + r == f + (['('] + r);
    WordRunOf(f, ['('] + r);
  }

  /** A printed call is matched at its own start, and exactly. */
  lemma CallAtCall(f: string, x: string, s: string)
    requires GoodAtom(Call(f, x))
    ensures CallAt(CallText(f, x) + s) == Some(CallMatch(f, x, |CallText(f, x)|))
  {
    hide CallAt, WordRun, IndexOf;
    CallShape(f, x, s);
    CallTail(f, x, s);
    CallRest(f, x, s);
    CallAtShape(f, x, x + [')'] + ("}" + s));
  }

  lemma CallRest(f: string, x: string, s: string)
    ensures var r := x + [')'] + ("}" + s); |x| + 1 < |r| && r[|x| + 1] == '}' && r[..|x|] == x
    ensures |CallText(f, x)| == |f| + |x| + 4
  {
  }

  lemma CallAtShape(f: string, x: string, r: string)
    requires f != "" && WordRun(f + ['('] + r) == |f|
    requires |x| + 1 < |r| && IndexOf(r, ')') == |x| && r[|x| + 1] == '}' && r[..|x|] == x
    ensures CallAt(['{'] + (f + ['('] + r)) == Some(CallMatch(f, x, |f| + |x| + 4))
  {
    CutAt(f, '(', r);
    CallAtCut(f + ['('] + r, f, x, r);
  }

  lemma CallAtCut(t: string, f: string, x: string, r: string)
    requires 0 < |f| < |t| && WordRun(t) == |f| && t[|f|] == '(' && t[..|f|] == f && t[|f| + 1..] == r
    requires |x| + 1 < |r| && IndexOf(r, ')') == |x| && r[|x| + 1] == '}' && r[..|x|] == x
    ensures CallAt(['{'] + t) == Some(CallMatch(f, x, |f| + |x| + 4))
  {
    var s := ['{'] + t;
    assert s[1..] == t && s[0] == '{';
  }

  lemma CutAt(f: string, c: char, r: string)
    ensures var t := f + [c] + r; t[|f|] == c && t[..|f|] == f && t[|f| + 1..] == r
  {
  }

  lemma PrefixUpTo(x: string, y: string, c: char, r: string, s: string)
    requires c !in x && c !in y
    requires x + [c] + r <= y + [c] + s
    ensures x == y && r <= s
  {
    var whole := y + [c] + s;
    var q := whole[|x + [c] + r|..];
    assert whole == x + [c] + (r + q);
    SameUpTo(x, y, c, r + q, s);
  }

  /** A call's own text begins another call's text only when the two are equal. */
  lemma CallPrefix(f: string, x: string, g: string, y: string, s: string)
    requires GoodAtom(Call(f, x)) && GoodAtom(Call(g, y))
    requires CallText(f, x) <= CallText(g, y) + s
    ensures f == g && x == y
  {
    var r, q := x + [')'] + ("}" + ""), y + [')'] + ("}" + s);
    CallShape(f, x, "");
    CallShape(g, y, s);
    assert CallText(f, x) + "" == CallText(f, x);
    DropFirst('{', f + ['('] + r, g + ['('] + q);
    WordFree(f, '(');
    WordFree(g, '(');
    PrefixUpTo(f, g, '(', r, q);
    PrefixUpTo(x, y, ')', "}" + "", "}" + s);
  }

  lemma DropFirst(c: char, p: string, q: string)
    requires [c] + p <= [c] + q
    ensures p <= q
  {
    assert p == ([c] + p)[1..] && q == ([c] + q)[1..];
  }

  lemma WordFree(f: string, c: char)
    requires (forall d :: d in f ==> IsWord(d)) && !IsWord(c)
    ensures c !in f
  {
  }

  lemma {:induction false} FindCallsSkips(t: string, s: string)
    requires '{' !in t
    ensures FindCalls(t + s) == FindCalls(s)
  {
    if t == "" {
      assert t + s == s;
    } else {
      assert (t + s)[0] == t[0] && (t + s)[1..] == t[1..] + s;
      FindCallsSkips(t[1..], s);
    }
  }

  function CallsOf(ts: seq<Tok>): seq<(string, string)> {
    if ts == [] then []
    else (if IsCall(ts[0]) then [(ts[0].a.func, ts[0].a.args)] else []) + CallsOf(ts[1..])
  }

  lemma {:induction false} CallsOfAppend(a: seq<Tok>, b: seq<Tok>)
    ensures CallsOf(a + b) == CallsOf(a) + CallsOf(b)
  {
    if a == [] {
      assert a + b == b;
      assert [] + CallsOf(b) == CallsOf(b);
    } else {
      assert (a + b)[0] == a[0] && (a + b)[1..] == a[1..] + b;
      CallsOfAppend(a[1..], b);
      var head := if IsCall(a[0]) then [(a[0].a.func, a[0].a.args)] else [];
      assert head + (CallsOf(a[1..]) + CallsOf(b)) == head + CallsOf(a[1..]) + CallsOf(b);
    }
  }

  lemma {:induction false} CallsAre(ts: seq<Tok>, c: (string, string))
    requires c in CallsOf(ts)
    ensures A(Call(c.0, c.1)) in ts
  {
    if !(IsCall(ts[0]) && c == (ts[0].a.func, ts[0].a.args)) {
      CallsAre(ts[1..], c);
    }
  }

  /** The call expression finds exactly the printed calls, in order. */
  lemma {:induction false} FindCallsFlat(ts: seq<Tok>)
    requires GoodToks(ts)
    ensures FindCalls(Flat(ts, PLAIN)) == CallsOf(ts)
  {
    hide CallAt, GoodAtom;
    if ts != [] {
      var t, s := ts[0], Flat(ts[1..], PLAIN);
      FlatSplit(ts, PLAIN);
      FindCallsFlat(ts[1..]);
      if IsCall(t) {
        assert t in ts && t.a == Call(t.a.func, t.a.args);
        CallAtCall(t.a.func, t.a.args, s);
        var whole := CallText(t.a.func, t.a.args) + s;
        assert whole[|CallText(t.a.func, t.a.args)|..] == s;
      } else {
        QuietToks(t);
        FindCallsSkips(TokText(t, PLAIN), s);
      }
    }
  }

  lemma {:induction false} FindItemsSkips(t: string, s: string)
    requires '|' !in t
    ensures FindItems(t + s) == FindItems(s)
  {
    if t == "" {
      assert t + s == s;
    } else {
      assert (t + s)[0] == t[0] && (t + s)[1..] == t[1..] + s;
      FindItemsSkips(t[1..], s);
    }
  }

  /** A printed item is matched at its own start, and exactly. */
  lemma ItemAtItem(body: string, s: string)
    requires '|' !in body && body != ""
    ensures var t := "|" + body + "|" + s;
            ItemAt(t) == |body| + 2 && t[1..|body| + 1] == body && t[|body| + 2..] == s
            && t[..|body| + 2] == "|" + body + "|"
  {
    var t := "|" + body + "|" + s;
    assert t[1..] == body + ['|'] + s;
    IndexOfAt(body, '|', s);
  }

  lemma FindItemsHit(body: string, s: string)
    requires '|' !in body && body != ""
    ensures FindItems("|" + body + "|" + s) == ["|" + body + "|"] + FindItems(s)
  {
    ItemAtItem(body, s);
  }

  function ItemsOf(ts: seq<Tok>): seq<Atom> {
    if ts == [] then []
    else (if IsItem(ts[0]) then [ts[0].a] else []) + ItemsOf(ts[1..])
  }

  function AtomTexts(atoms: seq<Atom>): (texts: seq<string>)
    ensures forall i :: 0 <= i < |texts| ==> texts[i] != ""
  {
    if atoms == [] then [] else [AtomText(atoms[0])] + AtomTexts(atoms[1..])
  }

  /** The item expression finds exactly the printed items, in order. */
  lemma {:induction false} FindItemsFlat(ts: seq<Tok>)
    requires GoodToks(ts) && NoCalls(ts)
    ensures FindItems(Flat(ts, PLAIN)) == AtomTexts(ItemsOf(ts))
  {
    if ts != [] {
      var t, s := ts[0], Flat(ts[1..], PLAIN);
      FlatSplit(ts, PLAIN);
      FindItemsFlat(ts[1..]);
      if IsItem(t) {
        BodyChars(t.a);
        FindItemsHit(Body(t.a), s);
        assert ItemsOf(ts) == [t.a] + ItemsOf(ts[1..]);
        assert ItemsOf(ts)[1..] == ItemsOf(ts[1..]);
      } else {
        QuietToks(t);
        FindItemsSkips(TokText(t, PLAIN), s);
        assert ItemsOf(ts) == [] + ItemsOf(ts[1..]) == ItemsOf(ts[1..]);
      }
    }
  }

  // ------------------------------------------------- replacement on tokens

  /** Every occurrence of one call becomes the tokens `r`. */
  function PutCall(ts: seq<Tok>, f: string, x: string, r: seq<Tok>): seq<Tok> {
    if ts == [] then []
    else (if ts[0] == A(Call(f, x)) then r else [ts[0]]) + PutCall(ts[1..], f, x, r)
  }

  lemma ReplaceHit(pat: string, s: string, rep: string)
    requires pat != ""
    ensures Replace(pat + s, pat, rep) == rep + Replace(s, pat, rep)
  {
    assert (pat + s)[..|pat|] == pat && (pat + s)[|pat|..] == s;
  }

  lemma ReplaceMiss(s: string, pat: string, rep: string)
    requires pat != "" && s != "" && !(pat <= s)
    ensures Replace(s, pat, rep) == [s[0]] + Replace(s[1..], pat, rep)
  {
    if |s| < |pat| {
      assert s == [s[0]] + s[1..];
    } else {
      assert s[..|pat|] != pat;
    }
  }

  /** Replacing the text of one call replaces the call's tokens and nothing else. */
  lemma {:induction false} ReplaceCallFlat(ts: seq<Tok>, f: string, x: string, r: seq<Tok>)
    requires GoodToks(ts) && GoodAtom(Call(f, x))
    ensures Replace(Flat(ts, PLAIN), CallText(f, x), Flat(r, PLAIN)) == Flat(PutCall(ts, f, x, r), PLAIN)
  {
    var pat, rep := CallText(f, x), Flat(r, PLAIN);
    assert pat[0] == '{';
    if ts != [] {
      var t, s := ts[0], Flat(ts[1..], PLAIN);
      assert t in ts;
      FlatSplit(ts, PLAIN);
      ReplaceCallFlat(ts[1..], f, x, r);
      var later := PutCall(ts[1..], f, x, r);
      if t == A(Call(f, x)) {
        ReplaceHit(pat, s, rep);
        FlatAppend(r, later, PLAIN);
      } else {
        FlatHead(t, later, PLAIN);
        if IsCall(t) {
          OtherCall(t.a.func, t.a.args, f, x, s, rep);
        } else {
          QuietToks(t);
          assert pat[0] !in TokText(t, PLAIN);
          ReplaceSkips(TokText(t, PLAIN), s, pat, rep);
        }
      }
    }
  }

  lemma OtherCall(g: string, y: string, f: string, x: string, s: string, rep: string)
    requires GoodAtom(Call(f, x)) && GoodAtom(Call(g, y)) && (f, x) != (g, y)
    ensures Replace(CallText(g, y) + s, CallText(f, x), rep) ==
            CallText(g, y) + Replace(s, CallText(f, x), rep)
  {
    var pat := CallText(f, x);
    if pat <= CallText(g, y) + s {
      CallPrefix(f, x, g, y, s);
    }
    var inner := g + "(" + y + ")}";
    assert CallText(g, y) == ['{'] + inner;
    WordFree(g, '{');
    assert pat[0] == '{';
    PassHead('{', inner, s, pat, rep);
  }

  /** A first character where the pattern does not match, then text without its start. */
  lemma PassHead(c: char, inner: string, s: string, pat: string, rep: string)
    requires pat != "" && pat[0] !in inner && !(pat <= [c] + inner + s)
    ensures Replace([c] + inner + s, pat, rep) == [c] + inner + Replace(s, pat, rep)
  {
    hide Replace;
    var t := [c] + inner + s;
    assert t[0] == c && t[1..] == inner + s;
    ReplaceMiss(t, pat, rep);
    ReplaceSkips(inner, s, pat, rep);
    Regroup([c], inner, Replace(s, pat, rep));
  }

  /** Every occurrence of one item becomes another atom. */
  function PutItem(ts: seq<Tok>, a: Atom, r: Atom): (put: seq<Tok>)
    ensures |put| == |ts|
  {
    seq(|ts|, i requires 0 <= i < |ts| => if ts[i] == A(a) then A(r) else ts[i])
  }

  lemma PutItemSplit(ts: seq<Tok>, a: Atom, r: Atom)
    requires ts != []
    ensures PutItem(ts, a, r) == [if ts[0] == A(a) then A(r) else ts[0]] + PutItem(ts[1..], a, r)
  {
  }

  lemma BodyColon(a: Atom)
    requires GoodAtom(a) && (a.Item? || a.ItemN?)
    ensures a.ItemN? <==> ':' in Body(a)
  {
    if a.ItemN? {
      assert Body(a)[|a.item|] == ':';
    }
  }

  lemma SameBody(a: Atom, c: Atom)
    requires GoodAtom(a) && (a.Item? || a.ItemN?) && GoodAtom(c) && (c.Item? || c.ItemN?)
    requires Body(a) == Body(c)
    ensures a == c
  {
    if a.ItemN? && c.ItemN? {
      assert Body(a) == a.item + [':'] + a.digits;
      assert Body(c) == c.item + [':'] + c.digits;
      SameUpTo(a.item, c.item, ':', a.digits, c.digits);
    } else {
      assert a.ItemN? <==> ':' in Body(a) by {
        BodyColon(a);
      }
      assert c.ItemN? <==> ':' in Body(c) by {
        BodyColon(c);
      }
    }
  }

  /** An item text begins another item's text only when the items are equal. */
  lemma ItemPrefix(a: Atom, c: Atom, s: string)
    requires GoodAtom(a) && (a.Item? || a.ItemN?) && GoodAtom(c) && (c.Item? || c.ItemN?)
    requires AtomText(a) <= AtomText(c) + s
    ensures a == c
  {
    BodyChars(a);
    BodyChars(c);
    BarShape(Body(a), "");
    BarShape(Body(c), s);
    assert AtomText(a) + "" == AtomText(a);
    DropFirst('|', Body(a) + ['|'] + "", Body(c) + ['|'] + s);
    PrefixUpTo(Body(a), Body(c), '|', "", s);
    SameBody(a, c);
  }

  lemma BarShape(body: string, s: string)
    ensures "|" + body + "|" + s == ['|'] + (body + ['|'] + s)
  {
  }

  /** What follows an atom starts with a blank or a closing parenthesis. */
  lemma AfterAtom(ts: seq<Tok>)
    requires ts == [] || ts[0].RP? || ts[0].W?
    ensures Flat(ts, PLAIN) == "" || Flat(ts, PLAIN)[0] == ' ' || Flat(ts, PLAIN)[0] == ')'
  {
  }

  lemma OtherItem(c: Atom, a: Atom, s: string, rep: string)
    requires GoodAtom(a) && (a.Item? || a.ItemN?) && GoodAtom(c) && (c.Item? || c.ItemN?) && a != c
    requires s == "" || s[0] == ' ' || s[0] == ')'
    ensures Replace(AtomText(c) + s, AtomText(a), rep) == AtomText(c) + Replace(s, AtomText(a), rep)
  {
    BodyChars(a);
    BodyChars(c);
    if AtomText(a) <= AtomText(c) + s {
      ItemPrefix(a, c, s);
    }
    ClosingBar(a, s, rep);
    var pat, body := AtomText(a), Body(c);
    assert pat[0] == '|';
    BarText(body, s);
    BarText(body, Replace(s, pat, rep));
    PassHead('|', body, "|" + s, pat, rep);
  }

  lemma BarText(body: string, s: string)
    ensures "|" + body + "|" + s == "|" + body + ("|" + s)
  {
  }

  /** No item text starts at a closing bar. */
  lemma ClosingBar(a: Atom, s: string, rep: string)
    requires GoodAtom(a) && (a.Item? || a.ItemN?)
    requires s == "" || s[0] == ' ' || s[0] == ')'
    ensures Replace("|" + s, AtomText(a), rep) == "|" + Replace(s, AtomText(a), rep)
  {
    BodyChars(a);
    var pat := AtomText(a);
    assert pat[1] == a.item[0] && |pat| > 1;
    assert s != "" ==> ("|" + s)[1] != pat[1];
    assert !(pat <= "|" + s);
    ReplaceMiss("|" + s, pat, rep);
    assert ("|" + s)[1..] == s;
  }

  /** Text of a token that is not the item in question is copied. */
  lemma PassTok(t: Tok, a: Atom, ts: seq<Tok>, rep: string)
    requires GoodTok(t) && !IsCall(t) && t != A(a) && GoodAtom(a) && (a.Item? || a.ItemN?)
    requires ts == [] || (t.A? ==> ts[0].RP? || ts[0].W?)
    ensures Replace(TokText(t, PLAIN) + Flat(ts, PLAIN), AtomText(a), rep) ==
            TokText(t, PLAIN) + Replace(Flat(ts, PLAIN), AtomText(a), rep)
  {
    if IsItem(t) {
      AfterAtom(ts);
      OtherItem(t.a, a, Flat(ts, PLAIN), rep);
    } else {
      QuietToks(t);
      assert AtomText(a)[0] == '|';
      ReplaceSkips(TokText(t, PLAIN), Flat(ts, PLAIN), AtomText(a), rep);
    }
  }

  lemma SpacedTail(ts: seq<Tok>)
    requires ts != [] && GoodToks(ts) && NoCalls(ts) && Spaced(ts)
    ensures GoodTok(ts[0]) && !IsCall(ts[0])
    ensures GoodToks(ts[1..]) && NoCalls(ts[1..]) && Spaced(ts[1..])
    ensures ts[1..] == [] || (ts[0].A? ==> ts[1..][0].RP? || ts[1..][0].W?)
  {
    assert ts[0] in ts;
  }

  /** Replacing the text of one item replaces that item's tokens and nothing else. */
  lemma {:induction false} ReplaceItemFlat(ts: seq<Tok>, a: Atom, r: Atom)
    requires GoodToks(ts) && NoCalls(ts) && Spaced(ts)
    requires GoodAtom(a) && (a.Item? || a.ItemN?)
    ensures Replace(Flat(ts, PLAIN), AtomText(a), AtomText(r)) == Flat(PutItem(ts, a, r), PLAIN)
  {
    if ts != [] {
      SpacedTail(ts);
      FlatSplit(ts, PLAIN);
      PutItemSplit(ts, a, r);
      ReplaceItemFlat(ts[1..], a, r);
      var later := PutItem(ts[1..], a, r);
      if ts[0] == A(a) {
        ReplaceHit(AtomText(a), Flat(ts[1..], PLAIN), AtomText(r));
        FlatHead(A(r), later, PLAIN);
      } else {
        FlatHead(ts[0], later, PLAIN);
        PassTok(ts[0], a, ts[1..], AtomText(r));
      }
    }
  }

  // ---------------------------------------------------- shape of printed trees

  lemma {:induction false} UnitEnds(u: Unit)
    ensures UnitToks(u) != []
    ensures !UnitToks(u)[0].W? && !UnitToks(u)[0].RP?
    ensures var z := UnitToks(u)[|UnitToks(u)| - 1]; z.A? || z.RP?
    decreases u
  {
    if u.Not? {
      UnitEnds(u.u);
    }
  }

  lemma {:induction false} ExprEnds(e: Expr)
    ensures Toks(e) != []
    ensures !Toks(e)[0].W? && !Toks(e)[0].RP?
    ensures var z := Toks(e)[|Toks(e)| - 1]; z.A? || z.RP?
    decreases e
  {
    match e
    case One(u) => UnitEnds(u);
    case More(u, _, rest) =>
      UnitEnds(u);
      ExprEnds(rest);
  }

  lemma SpacedAppend(a: seq<Tok>, b: seq<Tok>)
    requires Spaced(a) && Spaced(b)
    requires a != [] && b != [] ==>
               && (a[|a| - 1].A? ==> b[0].RP? || b[0].W?)
               && (a[|a| - 1].W? ==> !b[0].W?)
    ensures Spaced(a + b)
  {
    var ts := a + b;
    forall i | 0 <= i < |ts| - 1
      ensures (ts[i].A? ==> ts[i + 1].RP? || ts[i + 1].W?) && (ts[i].W? ==> !ts[i + 1].W?)
    {
      if i < |a| - 1 {
        assert ts[i] == a[i] && ts[i + 1] == a[i + 1];
      } else if i >= |a| {
        assert ts[i] == b[i - |a|] && ts[i + 1] == b[i - |a| + 1];
      }
    }
  }

  lemma {:induction false} SpacedUnit(u: Unit)
    ensures Spaced(UnitToks(u))
    decreases u
  {
    match u
    case Leaf(_) =>
    case Not(x) =>
      SpacedUnit(x);
      SpacedAppend([Bang], UnitToks(x));
    case Paren(e) =>
      SpacedExpr(e);
      ExprEnds(e);
      SpacedAppend([LP], Toks(e));
      SpacedAppend([LP] + Toks(e), [RP]);
  }

  lemma {:induction false} SpacedExpr(e: Expr)
    ensures Spaced(Toks(e))
    decreases e
  {
    match e
    case One(u) => SpacedUnit(u);
    case More(u, w, rest) =>
      SpacedUnit(u);
      SpacedExpr(rest);
      UnitEnds(u);
      ExprEnds(rest);
      SpacedAppend(UnitToks(u), [W(w)]);
      SpacedAppend(UnitToks(u) + [W(w)], Toks(rest));
  }

  /** A property of all atoms is one of all tokens. */
  lemma {:induction false} UnitAtomToks(u: Unit, p: Atom -> bool)
    requires UnitAtoms(u, p)
    ensures forall t :: t in UnitToks(u) && t.A? ==> p(t.a)
    decreases u
  {
    match u
    case Leaf(_) =>
    case Not(x) => UnitAtomToks(x, p);
    case Paren(e) => AtomToks(e, p);
  }

  lemma {:induction false} AtomToks(e: Expr, p: Atom -> bool)
    requires AllAtoms(e, p)
    ensures forall t :: t in Toks(e) && t.A? ==> p(t.a)
    decreases e
  {
    match e
    case One(u) => UnitAtomToks(u, p);
    case More(u, _, rest) =>
      UnitAtomToks(u, p);
      AtomToks(rest, p);
  }
}
