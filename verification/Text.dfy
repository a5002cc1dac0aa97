/** The Python string operations the readers and printers rely on, written out
    on sequences of characters (ASCII letters and digits). */
module Text {

  /** What a Python function that may raise hands back. */
  datatype Result<+T> = Ok(value: T) | Raised

  /** Text put in front of a successful result. */
  function Prepend(t: string, r: Result<string>): Result<string> {
    match r
    case Raised => Raised
    case Ok(s) => Ok(t + s)
  }

  lemma PrependTwice(a: string, b: string, r: Result<string>)
    ensures Prepend(a, Prepend(b, r)) == Prepend(a + b, r)
    ensures Prepend("", r) == r
  {
    match r
    case Raised =>
    case Ok(s) => assert a + (b + s) == a + b + s && "" + s == s;
  }

  datatype Option<+T> = None | Some(value: T)

  predicate IsDigit(c: char) {
    '0' <= c <= '9'
  }

  /** The regular expression class \w. */
  predicate IsWord(c: char) {
    IsDigit(c) || 'a' <= c <= 'z' || 'A' <= c <= 'Z' || c == '_'
  }

  /** The regular expression class \s. */
  predicate IsSpace(c: char) {
    c == ' ' || c == '\t' || c == '\n' || c == '\r'
  }

  function LowerChar(c: char): char {
    if 'A' <= c <= 'Z' then c - 'A' + 'a' else c
  }

  function Lower(s: string): (r: string)
    ensures |r| == |s|
    ensures forall i :: 0 <= i < |s| ==> r[i] == LowerChar(s[i])
  {
    seq(|s|, i requires 0 <= i < |s| => LowerChar(s[i]))
  }

  lemma Regroup(a: string, b: string, c: string)
    ensures a + (b + c) == a + b + c
  {
  }

  /** `s.replace(pat, rep)`: non-overlapping, left to right. */
  function Replace(s: string, pat: string, rep: string): string
    requires pat != ""
  {
    if |s| < |pat| then s
    else if s[..|pat|] == pat then rep + Replace(s[|pat|..], pat, rep)
    else [s[0]] + Replace(s[1..], pat, rep)
  }

  /** Text without the pattern's first character is copied unchanged. */
  lemma {:induction false} ReplaceSkips(t: string, s: string, pat: string, rep: string)
    requires pat != "" && pat[0] !in t
    ensures Replace(t + s, pat, rep) == t + Replace(s, pat, rep)
  {
    if t == "" {
      assert t + s == s;
    } else {
      ReplaceSkips(t[1..], s, pat, rep);
      var whole := t + s;
      assert whole[0] == t[0] && whole[1..] == t[1..] + s;
      ReplaceOne(whole, pat, rep);
      assert t == [t[0]] + t[1..];
    }
  }

  lemma ReplaceOne(s: string, pat: string, rep: string)
    requires pat != "" && s != "" && s[0] != pat[0]
    ensures Replace(s, pat, rep) == [s[0]] + Replace(s[1..], pat, rep)
  {
    if |s| >= |pat| {
      assert s[..|pat|][0] != pat[0];
    } else {
      assert s == [s[0]] + s[1..];
    }
  }

  /** `sep.join(parts)`. */
  function Join(sep: string, parts: seq<string>): string {
    if parts == [] then ""
    else if |parts| == 1 then parts[0]
    else parts[0] + sep + Join(sep, parts[1..])
  }

  /** Index of the first `c` in `s`, or the length of `s`. */
  function IndexOf(s: string, c: char): (k: nat)
    ensures k <= |s|
    ensures forall i :: 0 <= i < k ==> s[i] != c
    ensures k < |s| ==> s[k] == c
  {
    if s == "" || s[0] == c then 0 else 1 + IndexOf(s[1..], c)
  }

  lemma IndexOfAt(x: string, c: char, r: string)
    requires c !in x
    ensures IndexOf(x + [c] + r, c) == |x|
  {
    var s := x + [c] + r;
    assert s[|x|] == c;
    assert forall i :: 0 <= i < |x| ==> s[i] == x[i];
  }

  lemma IndexOfNone(x: string, c: char)
    requires c !in x
    ensures IndexOf(x, c) == |x|
  {
    assert forall i :: 0 <= i < |x| ==> x[i] in x;
  }

  /** Two strings that agree up to a closing character neither contains are equal. */
  lemma SameUpTo(x: string, y: string, c: char, r: string, q: string)
    requires c !in x && c !in y
    requires x + [c] + r == y + [c] + q
    ensures x == y && r == q
  {
    IndexOfAt(x, c, r);
    IndexOfAt(y, c, q);
    assert x == (x + [c] + r)[..|x|];
    assert y == (y + [c] + q)[..|y|];
    assert r == (x + [c] + r)[|x| + 1..];
    assert q == (y + [c] + q)[|y| + 1..];
  }

  /** `s.split(c)`. */
  function SplitOn(s: string, c: char): (parts: seq<string>)
    ensures |parts| >= 1
    decreases |s|
  {
    var k := IndexOf(s, c);
    if k == |s| then [s] else [s[..k]] + SplitOn(s[k + 1..], c)
  }

  lemma SplitNone(s: string, c: char)
    requires c !in s
    ensures SplitOn(s, c) == [s]
  {
    IndexOfNone(s, c);
  }

  lemma SplitFirst(x: string, c: char, r: string)
    requires c !in x
    ensures SplitOn(x + [c] + r, c) == [x] + SplitOn(r, c)
  {
    var s := x + [c] + r;
    IndexOfAt(x, c, r);
    assert s[..|x|] == x && s[|x| + 1..] == r;
  }

  /** Splitting a joined list of separator-free parts gives the parts back. */
  lemma {:induction false} SplitJoin(parts: seq<string>, c: char)
    requires parts != []
    requires forall p :: p in parts ==> c !in p
    ensures SplitOn(Join([c], parts), c) == parts
  {
    if |parts| == 1 {
      SplitNone(parts[0], c);
    } else {
      SplitJoin(parts[1..], c);
      SplitFirst(parts[0], c, Join([c], parts[1..]));
      assert parts == [parts[0]] + parts[1..];
    }
  }

  function StripLeft(s: string): (r: string)
    ensures |r| <= |s| && s[|s| - |r|..] == r
    ensures r != "" ==> !IsSpace(r[0])
  {
    if s != "" && IsSpace(s[0]) then StripLeft(s[1..]) else s
  }

  function StripRight(s: string): (r: string)
    ensures |r| <= |s| && s[..|r|] == r
    ensures r != "" ==> !IsSpace(r[|r| - 1])
  {
    if s != "" && IsSpace(s[|s| - 1]) then StripRight(s[..|s| - 1]) else s
  }

  /** `s.strip()`. */
  function Strip(s: string): string {
    StripRight(StripLeft(s))
  }

  predicate Trimmed(s: string) {
    s == "" || (!IsSpace(s[0]) && !IsSpace(s[|s| - 1]))
  }

  lemma StripTrimmed(s: string)
    requires Trimmed(s)
    ensures Strip(s) == s
  {
  }

  lemma LeftStep(s: string)
    ensures s == "" || !IsSpace(s[0]) ==> StripLeft(s) == s
    ensures s != "" && IsSpace(s[0]) ==> StripLeft(s) == StripLeft(s[1..])
  {
  }

  lemma {:induction false} StripLeftBefore(x: string, t: string)
    requires t != "" && !IsSpace(t[0])
    ensures StripLeft(x + t) == StripLeft(x) + t
    decreases |x|
  {
    hide StripLeft, IsSpace;
    if x == "" {
      LeftStep("");
      LeftStep(t);
      assert x + t == t && "" + t == t;
    } else if !IsSpace(x[0]) {
      LeftStep(x);
      assert (x + t)[0] == x[0];
      LeftStep(x + t);
    } else {
      StripLeftBefore(x[1..], t);
      OneBlank(x, t);
    }
  }

  lemma OneBlank(x: string, t: string)
    requires x != "" && IsSpace(x[0])
    ensures StripLeft(x + t) == StripLeft(x[1..] + t) && StripLeft(x) == StripLeft(x[1..])
  {
    var s := x + t;
    assert s[0] == x[0];
    assert s[1..] == x[1..] + t;
  }

  lemma StripLeftAppend(x: string, c: char, r: string)
    requires !IsSpace(c)
    ensures StripLeft(x + [c] + r) == StripLeft(x) + [c] + r
  {
    hide StripLeft, IsSpace;
    StripLeftBefore(x, [c] + r);
    assert x + [c] + r == x + ([c] + r) && StripLeft(x) + [c] + r == StripLeft(x) + ([c] + r);
  }

  lemma {:induction false} StripRightAfter(t: string, x: string)
    requires t != "" && !IsSpace(t[|t| - 1])
    ensures StripRight(t + x) == t + StripRight(x)
    decreases |x|
  {
    hide StripRight, IsSpace;
    RightStep(x);
    RightStep(t + x);
    if x == "" {
      assert t + x == t && t + "" == t;
    } else {
      var y := x[..|x| - 1];
      assert (t + x)[|t + x| - 1] == x[|x| - 1] && (t + x)[..|t + x| - 1] == t + y;
      StripRightAfter(t, y);
    }
  }

  lemma StripRightAppend(r: string, c: char, x: string)
    requires !IsSpace(c)
    ensures StripRight(r + [c] + x) == r + [c] + StripRight(x)
  {
    hide StripRight, IsSpace;
    StripRightAfter(r + [c], x);
  }

  lemma RightStep(s: string)
    ensures s == "" || !IsSpace(s[|s| - 1]) ==> StripRight(s) == s
    ensures s != "" && IsSpace(s[|s| - 1]) ==> StripRight(s) == StripRight(s[..|s| - 1])
  {
  }

  /** Stripping one end first changes nothing. */
  lemma {:induction false} StripAfterRight(s: string)
    ensures Strip(StripRight(s)) == Strip(s)
    decreases |s|
  {
    hide Strip, StripRight, IsSpace;
    RightStep(s);
    if s != "" && IsSpace(s[|s| - 1]) {
      var t, c := s[..|s| - 1], s[|s| - 1];
      StripAfterRight(t);
      assert s == t + [c];
      LastBlank(t, c);
    }
  }

  lemma {:induction false} LastBlank(t: string, c: char)
    requires IsSpace(c)
    ensures Strip(t + [c]) == Strip(t)
  {
    var s := t + [c];
    if t == "" {
      assert s[1..] == "";
    } else if IsSpace(t[0]) {
      assert s[0] == t[0] && s[1..] == t[1..] + [c];
      LastBlank(t[1..], c);
    } else {
      assert s[0] == t[0] && StripLeft(s) == s && s[..|s| - 1] == t;
    }
  }

  lemma {:induction false} StripAfterLeft(s: string)
    ensures StripLeft(StripLeft(s)) == StripLeft(s)
  {
    if s != "" && IsSpace(s[0]) {
      StripAfterLeft(s[1..]);
    }
  }

  lemma StripIsTrimmed(s: string)
    ensures Trimmed(Strip(s)) && Strip(Strip(s)) == Strip(s)
  {
    var t := StripLeft(s);
    var r := StripRight(t);
    if r != "" {
      assert r[0] == t[0];
    }
    StripTrimmed(r);
  }

  /** The parts of a text, each stripped. */
  function StripAll(parts: seq<string>): (r: seq<string>)
    ensures |r| == |parts|
    ensures forall i :: 0 <= i < |r| ==> r[i] == Strip(parts[i])
  {
    seq(|parts|, i requires 0 <= i < |parts| => Strip(parts[i]))
  }

  /** Joined parts, stripped as a whole and split again: stripped one by one they are the
      parts stripped. */
  lemma SplitStripped(parts: seq<string>, c: char)
    requires |parts| > 1 && !IsSpace(c) && forall p :: p in parts ==> c !in p
    ensures StripAll(SplitOn(Strip(Join([c], parts)), c)) == StripAll(parts) && Strip(Join([c], parts)) != ""
  {
    hide SplitOn, Strip, StripLeft, StripRight, Join, IsSpace;
    var head, mid, last := parts[0], parts[1..|parts| - 1], parts[|parts| - 1];
    assert parts == [head] + mid + [last];
    var ends := [StripLeft(head)] + mid + [StripRight(last)];
    StripEnds(head, mid, last, c);
    LeftKeeps(head, c);
    RightKeeps(last, c);
    SplitJoin(ends, c);
    StripLeftFirst(head);
    StripAfterRight(last);
    JoinNonempty(ends, c);
    EndsStripped(head, mid, last);
  }

  lemma EndsStripped(head: string, mid: seq<string>, last: string)
    requires Strip(StripLeft(head)) == Strip(head) && Strip(StripRight(last)) == Strip(last)
    ensures StripAll([StripLeft(head)] + mid + [StripRight(last)]) == StripAll([head] + mid + [last])
  {
    hide Strip, StripLeft, StripRight;
    var a, b := [StripLeft(head)] + mid + [StripRight(last)], [head] + mid + [last];
    forall i | 0 <= i < |a|
      ensures Strip(a[i]) == Strip(b[i])
    {
    }
  }

  lemma JoinNonempty(parts: seq<string>, c: char)
    requires |parts| > 1
    ensures Join([c], parts) != ""
  {
    var s := Join([c], parts);
    assert s[|parts[0]|] == c;
  }

  lemma LeftKeeps(s: string, c: char)
    requires c !in s
    ensures c !in StripLeft(s)
  {
    assert s[|s| - |StripLeft(s)|..] == StripLeft(s);
  }

  lemma RightKeeps(s: string, c: char)
    requires c !in s
    ensures c !in StripRight(s)
  {
    assert s[..|StripRight(s)|] == StripRight(s);
  }

  lemma StripKeeps(s: string, c: char)
    requires c !in s
    ensures c !in Strip(s)
  {
    LeftKeeps(s, c);
    RightKeeps(StripLeft(s), c);
  }

  lemma StripLeftFirst(s: string)
    ensures Strip(StripLeft(s)) == Strip(s)
  {
    StripAfterLeft(s);
  }

  lemma JoinCons(head: string, rest: seq<string>, c: char)
    requires rest != []
    ensures Join([c], [head] + rest) == head + [c] + Join([c], rest)
  {
    assert ([head] + rest)[1..] == rest;
  }

  lemma {:induction false} JoinSnoc(parts: seq<string>, c: char, last: string)
    requires parts != []
    ensures Join([c], parts + [last]) == Join([c], parts) + [c] + last
  {
    hide Join;
    var head, rest := parts[0], parts[1..];
    assert parts == [head] + rest && parts + [last] == [head] + (rest + [last]);
    JoinCons(head, rest + [last], c);
    JoinSingle(last, c);
    if rest == [] {
      assert rest + [last] == [last] && parts == [head];
      JoinSingle(head, c);
    } else {
      JoinSnoc(rest, c, last);
      JoinCons(head, rest, c);
      Shift(head, c, Join([c], rest), last);
    }
  }

  lemma JoinSingle(x: string, c: char)
    ensures Join([c], [x]) == x && [] + [x] == [x]
  {
  }

  lemma Shift(a: string, c: char, b: string, d: string)
    ensures a + [c] + (b + [c] + d) == a + [c] + b + [c] + d
  {
  }

  lemma StripEnds(head: string, mid: seq<string>, last: string, c: char)
    requires !IsSpace(c)
    ensures Strip(Join([c], [head] + mid + [last])) == Join([c], [StripLeft(head)] + mid + [StripRight(last)])
  {
    hide StripLeft, StripRight, IsSpace, Join;
    var rest := mid + [last];
    var x := StripLeft(head);
    assert [head] + mid + [last] == [head] + rest && [x] + mid + [last] == [x] + rest;
    JoinCons(head, rest, c);
    StripLeftAppend(head, c, Join([c], rest));
    JoinCons(x, rest, c);
    JoinSnoc([x] + mid, c, last);
    StripRightAppend(Join([c], [x] + mid), c, last);
    JoinSnoc([x] + mid, c, StripRight(last));
  }

  predicate AllDigits(s: string) {
    s != "" && forall c :: c in s ==> IsDigit(c)
  }

  function NatValue(digits: string): nat
    requires forall c :: c in digits ==> IsDigit(c)
  {
    if digits == "" then 0
    else
      assert IsDigit(digits[|digits| - 1]);
      NatValue(digits[..|digits| - 1]) * 10 + (digits[|digits| - 1] as int - '0' as int)
  }

  /** Digits, with single underscores between them. */
  predicate Grouped(s: string) {
    && s != "" && IsDigit(s[0]) && IsDigit(s[|s| - 1])
    && forall i :: 0 <= i < |s| ==> IsDigit(s[i]) || (s[i] == '_' && i + 1 < |s| && IsDigit(s[i + 1]))
  }

  function DigitsOf(s: string): (r: string)
    ensures forall c :: c in r ==> IsDigit(c)
  {
    if s == "" then "" else (if IsDigit(s[0]) then [s[0]] else "") + DigitsOf(s[1..])
  }

  /** `int(s)` on stripped text; anything but an integer raises. */
  function ParseInt(s: string): Option<int> {
    var signed := s != "" && (s[0] == '-' || s[0] == '+');
    var digits := if signed then s[1..] else s;
    if !Grouped(digits) then None
    else
      var n: int := NatValue(DigitsOf(digits));
      Some(if signed && s[0] == '-' then 0 - n else n)
  }

  lemma {:induction false} DigitsAlone(s: string)
    requires forall c :: c in s ==> IsDigit(c)
    ensures DigitsOf(s) == s
  {
    if s != "" {
      assert s[0] in s && forall c :: c in s[1..] ==> c in s;
      DigitsAlone(s[1..]);
    }
  }

  lemma PlainInt(s: string)
    requires AllDigits(s)
    ensures ParseInt(s) == Some(NatValue(s))
  {
    hide NatValue, DigitsOf, Grouped;
    assert s[0] in s;
    DigitsGrouped(s);
    DigitsAlone(s);
  }

  /** A sign is read as one. */
  lemma SignedInt(s: string)
    requires AllDigits(s)
    ensures ParseInt("-" + s) == Some(0 - NatValue(s)) && ParseInt("+" + s) == Some(NatValue(s))
  {
    hide NatValue, DigitsOf, Grouped;
    var minus: string, plus: string := "-" + s, "+" + s;
    assert minus[1..] == s && plus[1..] == s;
    DigitsGrouped(s);
    DigitsAlone(s);
  }

  lemma {:induction false} DigitsAppend(a: string, b: string)
    ensures DigitsOf(a + b) == DigitsOf(a) + DigitsOf(b)
  {
    if a == "" {
      assert a + b == b;
    } else {
      assert (a + b)[0] == a[0] && (a + b)[1..] == a[1..] + b;
      DigitsAppend(a[1..], b);
    }
  }

  /** An underscore between digits is passed over; at an end or beside another it is an
      error. */
  lemma GroupedInt(a: string, b: string)
    requires AllDigits(a) && AllDigits(b)
    ensures ParseInt(a + "_" + b) == ParseInt(a + b) == Some(NatValue(a + b))
    ensures ParseInt(a + "_") == None && ParseInt("_" + a) == None && ParseInt(a + "__" + b) == None
  {
    hide NatValue, DigitsOf, Grouped;
    assert AllDigits(a + b);
    PlainInt(a + b);
    Between(a, b);
    BetweenDigits(a, b);
    BadBars(a, b);
  }

  lemma BetweenDigits(a: string, b: string)
    requires AllDigits(a) && AllDigits(b)
    ensures DigitsOf(a + "_" + b) == a + b
  {
    hide DigitsOf;
    DigitsAppend(a, "_" + b);
    DigitsAppend("_", b);
    assert a + ("_" + b) == a + "_" + b;
    NoDigit();
    DigitsAlone(a);
    DigitsAlone(b);
  }

  lemma NoDigit()
    ensures DigitsOf("_") == ""
  {
    assert "_"[1..] == "";
  }

  lemma BadBars(a: string, b: string)
    requires AllDigits(a)
    ensures ParseInt(a + "_") == None && ParseInt("_" + a) == None && ParseInt(a + "__" + b) == None
  {
    hide NatValue, DigitsOf;
    var u, v, w := a + "__" + b, a + "_", "_" + a;
    assert a[0] in a && u[0] == a[0] && v[0] == a[0];
    assert u[|a|] == '_' && u[|a| + 1] == '_' && v[|v| - 1] == '_';
    assert !Grouped(u) && !Grouped(v) && !Grouped(w);
  }

  lemma Between(a: string, b: string)
    requires AllDigits(a) && AllDigits(b)
    ensures Grouped(a + "_" + b) && (a + "_" + b)[0] != '-' && (a + "_" + b)[0] != '+'
  {
    var t := a + "_" + b;
    assert a[0] in a && b[|b| - 1] in b;
    forall i | 0 <= i < |t|
      ensures IsDigit(t[i]) || (t[i] == '_' && i + 1 < |t| && IsDigit(t[i + 1]))
    {
      if i < |a| {
        assert a[i] in a;
      } else if i > |a| {
        assert b[i - |a| - 1] in b;
      } else {
        assert b[0] in b && t[i + 1] == b[0];
      }
    }
  }

  lemma DigitsGrouped(s: string)
    requires AllDigits(s)
    ensures Grouped(s)
  {
    assert forall i :: 0 <= i < |s| ==> s[i] in s;
  }

  /** `str(n)`. */
  function NatText(n: nat): (s: string)
    ensures AllDigits(s)
    ensures NatValue(s) == n
  {
    var last: char := ('0' as int + n % 10) as char;
    assert IsDigit(last);
    if n < 10 then
      assert [last][..0] == "";
      [last]
    else
      var front := NatText(n / 10);
      assert (front + [last])[..|front|] == front;
      front + [last]
  }

  predicate NoRepeats(s: seq<string>) {
    forall i, j :: 0 <= i < j < |s| ==> s[i] != s[j]
  }

  /** Python's order on strings. */
  predicate StringLe(a: string, b: string) {
    a == "" || (b != "" && (a[0] < b[0] || (a[0] == b[0] && StringLe(a[1..], b[1..]))))
  }

  function Insert(t: string, c: seq<string>): (r: seq<string>)
    ensures multiset(r) == multiset(c) + multiset{t}
  {
    if c == [] || StringLe(t, c[0]) then [t] + c
    else
      assert c == [c[0]] + c[1..];
      [c[0]] + Insert(t, c[1..])
  }

  /** `sorted(c)`. */
  function Sorted(c: seq<string>): (r: seq<string>)
    ensures multiset(r) == multiset(c)
  {
    if c == [] then []
    else
      assert c == [c[0]] + c[1..];
      Insert(c[0], Sorted(c[1..]))
  }

  lemma SortedTerms(c: seq<string>)
    ensures |Sorted(c)| == |c|
    ensures forall t :: t in Sorted(c) <==> t in c
  {
    assert |multiset(Sorted(c))| == |Sorted(c)| && |multiset(c)| == |c|;
    forall t
      ensures t in Sorted(c) <==> t in c
    {
      assert t in Sorted(c) <==> t in multiset(Sorted(c));
      assert t in c <==> t in multiset(c);
    }
  }

  lemma {:induction false} StringLeTotal(a: string, b: string)
    ensures StringLe(a, b) || StringLe(b, a)
  {
    if a != "" && b != "" && a[0] == b[0] {
      StringLeTotal(a[1..], b[1..]);
    }
  }

  predicate Ascending(c: seq<string>) {
    forall i {:trigger c[i]} :: 0 < i < |c| ==> StringLe(c[i - 1], c[i])
  }

  lemma {:induction false} InsertAscending(t: string, c: seq<string>)
    requires Ascending(c)
    ensures Ascending(Insert(t, c))
    ensures c != [] ==> Insert(t, c)[0] == t || Insert(t, c)[0] == c[0]
  {
    if c != [] {
      StringLeTotal(t, c[0]);
      if !StringLe(t, c[0]) {
        InsertAscending(t, c[1..]);
      }
    }
  }

  /** What `sorted` hands back is in order. */
  lemma {:induction false} SortedAscending(c: seq<string>)
    ensures Ascending(Sorted(c))
  {
    if c != [] {
      SortedAscending(c[1..]);
      InsertAscending(c[0], Sorted(c[1..]));
    }
  }

  // ------------------------------------------------------------ the order of texts

  /** `a` differs from `b` first where it has the smaller character. */
  predicate Differs(a: string, b: string, i: nat) {
    i < |a| && i < |b| && a[..i] == b[..i] && a[i] < b[i]
  }

  /** Texts are ordered as in a dictionary, by code points. */
  lemma {:induction false} StringOrder(a: string, b: string)
    ensures StringLe(a, b) <==> a <= b || exists i: nat :: Differs(a, b, i)
  {
    if a != "" && b != "" && a[0] == b[0] {
      StringOrder(a[1..], b[1..]);
      assert a == [a[0]] + a[1..] && b == [b[0]] + b[1..];
      if i: nat :| Differs(a[1..], b[1..], i) {
        assert a[..i + 1] == [a[0]] + a[1..][..i] && b[..i + 1] == [b[0]] + b[1..][..i];
        assert Differs(a, b, i + 1);
      }
      if i: nat :| Differs(a, b, i) {
        assert i > 0 && a[1..][..i - 1] == a[..i][1..] && b[1..][..i - 1] == b[..i][1..];
        assert Differs(a[1..], b[1..], i - 1);
      }
    } else if a != "" && b != "" && a[0] < b[0] {
      assert Differs(a, b, 0);
    } else if a != "" && b != "" {
      forall i: nat
        ensures !Differs(a, b, i)
      {
        assert i > 0 && i < |a| && i < |b| ==> a[..i][0] == a[0] && b[..i][0] == b[0];
      }
    }
  }

  lemma {:induction false} StringLeOrder(a: string, b: string, c: string)
    ensures StringLe(a, b) && StringLe(b, a) ==> a == b
    ensures StringLe(a, b) && StringLe(b, c) ==> StringLe(a, c)
  {
    if a != "" && b != "" {
      StringLeOrder(a[1..], b[1..], if c == "" then "" else c[1..]);
      assert a == [a[0]] + a[1..] && b == [b[0]] + b[1..];
    }
  }

  lemma AscendingTail(c: seq<string>)
    requires c != [] && Ascending(c)
    ensures Ascending(c[1..]) && multiset(c[1..]) == multiset(c) - multiset{c[0]}
  {
    var rest := c[1..];
    assert c == [c[0]] + rest;
    forall i {:trigger rest[i]} | 0 < i < |rest|
      ensures StringLe(rest[i - 1], rest[i])
    {
      assert StringLe(c[i + 1 - 1], c[i + 1]);
    }
  }

  lemma {:induction false} FirstIsLeast(c: seq<string>, x: string)
    requires Ascending(c) && x in c
    ensures StringLe(c[0], x)
    decreases |c|
  {
    StringLeTotal(c[0], c[0]);
    if x != c[0] {
      assert c == [c[0]] + c[1..] && x in c[1..];
      AscendingTail(c);
      FirstIsLeast(c[1..], x);
      assert StringLe(c[1 - 1], c[1]);
      StringLeOrder(c[0], c[1], x);
    }
  }

  lemma SameFirst(a: seq<string>, b: seq<string>)
    requires Ascending(a) && Ascending(b) && multiset(a) == multiset(b) && a != []
    ensures b != [] && a[0] == b[0]
  {
    hide Ascending;
    assert a[0] in multiset(b);
    assert b[0] in multiset(a);
    FirstIsLeast(a, b[0]);
    FirstIsLeast(b, a[0]);
    StringLeOrder(a[0], b[0], "");
  }

  lemma {:induction false} AscendingSame(a: seq<string>, b: seq<string>)
    requires Ascending(a) && Ascending(b) && multiset(a) == multiset(b)
    ensures a == b
    decreases |a|
  {
    hide Ascending;
    if a == [] {
      assert |multiset(b)| == 0 == |b|;
    } else {
      SameFirst(a, b);
      AscendingTail(a);
      AscendingTail(b);
      AscendingSame(a[1..], b[1..]);
      assert a == [a[0]] + a[1..] && b == [b[0]] + b[1..];
    }
  }

  /** Sorting forgets the order and nothing else. */
  lemma SortedSame(a: seq<string>, b: seq<string>)
    ensures Sorted(a) == Sorted(b) <==> multiset(a) == multiset(b)
  {
    SortedTerms(a);
    SortedTerms(b);
    SortedAscending(a);
    SortedAscending(b);
    if multiset(a) == multiset(b) {
      AscendingSame(Sorted(a), Sorted(b));
    }
  }
}
