/** The wrappers of hooks/Rules.py that ask of an item no more than the pool holds, and what
    becomes of an answer that is not one sealed operand. */
module OptItems {
  import opened Text
  import opened Syntax
  import opened Scanner
  import opened Relabel
  import opened Splice
  import opened RuleReader

  /** What the pool holds: of each item, and of all items of a category. */
  datatype Pool = Pool(items: map<string, nat>, categories: map<string, nat>)

  /** `clamp(k, 0, most)` of Helpers.py. */
  function Clamp(k: nat, most: nat): nat {
    if k > most then most else k
  }

  /** A count is cut down to what there is; anything else is left alone. */
  function Cut(count: string, there: nat): string {
    if AllDigits(count) then NatText(Clamp(NatValue(count), there)) else count
  }

  /** `OptOne`. */
  function OptOne(item: string, pool: Pool): string {
    if item == "" then ""
    else
      var category := item[0] == '@' || (|item| > 1 && item[1] == '@');
      var parts := SplitOn(StripMarks(item), ':');
      var (name, count) := if |parts| > 1 then (parts[0], parts[1]) else (StripMarks(item), "1");
      if category then "|@" + name + ":" + Cut(count, Supply(pool.categories, name)) + "|"
      else "|" + name + ":" + Cut(count, Supply(pool.items, name)) + "|"
  }

  /** The replacements still to come. */
  function OptRest(s: string, found: seq<string>, pool: Pool): string
    requires forall i :: 0 <= i < |found| ==> found[i] != ""
    decreases |found|
  {
    if found == [] then s else OptRest(Replace(s, found[0], OptOne(found[0], pool)), found[1..], pool)
  }

  /** `OptAll`. */
  function OptAll(x: string, pool: Pool): Answer {
    if x == "" then Flag(true) else Spliced(OptRest(x, FindItems(x), pool))
  }

  /** The pattern that finds calls captures no `)`, so an argument holds no call itself and
      there is nothing to put aside. */
  lemma {:induction false} NothingNested(x: string)
    requires ')' !in x
    ensures FindCalls(x) == []
    decreases |x|
  {
    if x != "" {
      NothingNested(x[1..]);
    }
  }

  method OptAllRule(requires_: string, pool: Pool) returns (r: Answer)
    requires ')' !in requires_
    ensures FindCalls(requires_) == [] && r == OptAll(requires_, pool)
    ensures requires_ == "" ==> r == Flag(true)
  {
    NothingNested(requires_);
    if requires_ == "" {
      return Flag(true);
    }
    var list := requires_;
    var found := FindItems(requires_);
    var i := 0;
    while i < |found|
      invariant 0 <= i <= |found|
      invariant OptRest(requires_, found, pool) == OptRest(list, found[i..], pool)
    {
      assert found[i..][0] == found[i] && found[i..][1..] == found[i + 1..];
      list := Replace(list, found[i], OptOne(found[i], pool));
      i := i + 1;
    }
    r := Spliced(list);
  }

  // ------------------------------------------------------------ what it answers

  /** The item with its count cut down. */
  function CutItem(pool: Pool): Naming {
    (a: Atom) => if IsNeed(a) then ItemN(a.item, NatText(Clamp(NeedCount(a), Supply(pool.items, a.item)))) else a
  }

  lemma CutTwice(a: Atom, pool: Pool)
    ensures CutItem(pool)(CutItem(pool)(a)) == CutItem(pool)(a)
    ensures IsNeed(a) ==> IsNeed(CutItem(pool)(a))
  {
    hide NatText;
  }

  /** A name and a count, as text with bars. */
  function Counted(name: string, count: string): string {
    "|" + name + ":" + count + "|"
  }

  lemma OptOneParts(item: string, name: string, count: string, pool: Pool)
    requires |item| > 1 && item[0] != '@' && item[1] != '@'
    requires SplitOn(StripMarks(item), ':') == [name, count] ||
             (SplitOn(StripMarks(item), ':') == [name] && StripMarks(item) == name && count == "1")
    ensures OptOne(item, pool) == Counted(name, Cut(count, Supply(pool.items, name)))
  {
    hide NatText, StripMarks, SplitOn, Cut;
  }

  lemma OptOneText(a: Atom, pool: Pool)
    requires IsNeed(a)
    ensures OptOne(AtomText(a), pool) == AtomText(CutItem(pool)(a))
  {
    hide NatText, StripMarks, SplitOn, OptOne;
    BodyChars(a);
    StripMarksOf(a);
    OneCount();
    var count := if a.Item? then "1" else a.digits;
    assert AtomText(a)[1] == a.item[0] && AtomText(a)[0] == '|';
    match a {
      case Item(n) => PlainSplit(n);
      case ItemN(n, d) => SplitCounted(n, d);
    }
    OptOneParts(AtomText(a), a.item, count, pool);
    assert NatValue(count) == NeedCount(a);
    CountedText(a.item, NatText(Clamp(NeedCount(a), Supply(pool.items, a.item))));
  }

  lemma CountedText(n: string, d: string)
    ensures Counted(n, d) == AtomText(ItemN(n, d))
  {
  }

  lemma PlainSplit(n: string)
    requires GoodName(n)
    ensures SplitOn(n, ':') == [n]
  {
    IndexOfNone(n, ':');
  }

  lemma OneCount()
    ensures AllDigits("1") && NatValue("1") == 1
  {
    assert "1"[..0] == "" && NatValue("") == 0;
  }

  lemma {:induction false} OptRestFlat(ts: seq<Tok>, done: set<Atom>, atoms: seq<Atom>, pool: Pool)
    requires Readable(ts) && forall a :: a in atoms || a in done ==> IsNeed(a)
    ensures OptRest(Flat(Swapped(ts, done, CutItem(pool)), PLAIN), AtomTexts(atoms), pool) ==
            Flat(Swapped(ts, done + AtomSet(atoms), CutItem(pool)), PLAIN)
    decreases |atoms|
  {
    hide Flat, Swapped, Readable, IsNeed, AtomText, OptOne, Replace;
    if atoms == [] {
      assert done + AtomSet(atoms) == done;
    } else {
      var a := atoms[0];
      assert a in atoms;
      OptRound(ts, done, a, pool);
      AtomTextsHead(atoms);
      OptRestFlat(ts, done + {a}, atoms[1..], pool);
      AtomSetHead(done, atoms);
    }
  }

  lemma OptRound(ts: seq<Tok>, done: set<Atom>, a: Atom, pool: Pool)
    requires Readable(ts) && IsNeed(a) && forall b :: b in done ==> IsNeed(b)
    ensures Replace(Flat(Swapped(ts, done, CutItem(pool)), PLAIN), AtomText(a), OptOne(AtomText(a), pool)) ==
            Flat(Swapped(ts, done + {a}, CutItem(pool)), PLAIN)
  {
    hide Flat, Swapped, AtomText, OptOne, Replace, CutItem, IsNeed;
    var h := CutItem(pool);
    forall b | b in done || b == a
      ensures GoodAtom(h(b)) && !h(b).Call? && (h(b) == a ==> h(a) == a)
    {
      CutTwice(b, pool);
      NeedIsGood(h(b));
    }
    SwappedShape(ts, done, h);
    OptOneText(a, pool);
    NeedIsGood(a);
    ReplaceItemFlat(Swapped(ts, done, h), a, h(a));
    SwapOne(ts, done, a, h);
  }

  lemma NeedIsGood(a: Atom)
    requires IsNeed(a)
    ensures GoodAtom(a) && !a.Call? && (a.Item? || a.ItemN?)
  {
  }

  /** The answer to a printed requirement over items is that requirement, every count cut
      down to what the pool holds. */
  lemma OptAllText(e: Expr, pool: Pool)
    requires AllAtoms(e, IsNeed)
    ensures OptAll(Print(e), pool) == Spliced(Print(Renamed(e, CutItem(pool))))
  {
    hide Flat, OptOne, Replace, CutItem, IsNeed, OptRest, FindItems;
    var ts, h := Toks(e), CutItem(pool);
    NeedToks(e);
    SpacedExpr(e);
    FindItemsFlat(ts);
    ItemsCovered(ts);
    SwappedNone(ts, h);
    OptRestFlat(ts, {}, ItemsOf(ts), pool);
    SwappedAll(ts, {} + AtomSet(ItemsOf(ts)), h);
    RenamedTokens(e, h);
    NeedText(e);
  }

  lemma NeedToks(e: Expr)
    requires AllAtoms(e, IsNeed)
    ensures GoodToks(Toks(e)) && NoCalls(Toks(e))
    ensures forall t :: t in Toks(e) && t.A? ==> IsItem(t)
  {
    AtomToks(e, IsNeed);
  }

  lemma NeedText(e: Expr)
    requires AllAtoms(e, IsNeed)
    ensures Print(e) != ""
  {
    ExprEnds(e);
    FlatSplit(Toks(e), PLAIN);
    NeedToks(e);
  }

  /** An item is asked for as often as the pool allows. */
  function Enough(counts: Counts, pool: Pool): Valuation {
    (a: Atom) => IsNeed(a) && (counts(a.item) >= NeedCount(a) || counts(a.item) >= Supply(pool.items, a.item))
  }

  lemma EnoughMeans(e: Expr, counts: Counts, pool: Pool)
    requires AllAtoms(e, IsNeed) && SingleBangs(e)
    ensures PlainChain(Renamed(e, CutItem(pool)))
    ensures Val(Renamed(e, CutItem(pool)), PlainVal(counts)) == Val(e, Enough(counts, pool))
  {
    hide Val, SingleBangs, NatText;
    var h := CutItem(pool);
    forall a | IsNeed(a)
      ensures IsPlain(h(a)) && Under(h, PlainVal(counts))(a) == Enough(counts, pool)(a)
    {
      CutTwice(a, pool);
      CutMet(a, counts, pool);
    }
    RenamedShape(e, h, IsNeed, IsPlain);
    RenamedVal(e, h, PlainVal(counts));
    SameLeft(e, IsNeed, Under(h, PlainVal(counts)), Enough(counts, pool));
  }

  lemma CutMet(a: Atom, counts: Counts, pool: Pool)
    requires IsNeed(a)
    ensures PlainVal(counts)(CutItem(pool)(a)) == Enough(counts, pool)(a)
  {
    hide NatText;
    var cut := CutItem(pool)(a);
    CutTwice(a, pool);
    assert PlainVal(counts)(cut) == ItemMet(cut, counts);
  }

  // ------------------------------------------------------- chains as answers

  /** Chains that print alike are read alike. */
  lemma SamePrint(c: Expr, d: Expr, counts: Counts)
    requires PlainChain(c) && PlainChain(d) && Print(c) == Print(d)
    ensures Val(c, PlainVal(counts)) == Val(d, PlainVal(counts))
  {
    hide CheckRequire, Print, Val;
    var calls: Calls := (f: string, x: string) => Flag(true);
    ChainReads(c, counts, calls);
    ChainReads(d, counts, calls);
  }

  lemma ChainReads(c: Expr, counts: Counts, calls: Calls)
    requires PlainChain(c) && forall f, x :: calls(f, x) == Flag(true)
    ensures CheckRequire(Print(c), counts, calls) == Ok(Val(c, PlainVal(counts)))
  {
    hide CheckRequire, Print, Val, Truth;
    PlainIsGood(c);
    ReaderCorrect(c, counts, calls);
    forall a | IsPlain(a)
      ensures Truth(counts, calls)(a) == PlainVal(counts)(a)
    {
      PlainTruth(a, counts, calls);
    }
    SameLeft(c, IsPlain, Truth(counts, calls), PlainVal(counts));
  }

  lemma PlainTruth(a: Atom, counts: Counts, calls: Calls)
    requires !a.Call?
    ensures Truth(counts, calls)(a) == PlainVal(counts)(a)
  {
  }

  /** A call answered with the text of a chain means that chain. */
  lemma ChainTruth(f: string, x: string, c: Expr, counts: Counts, calls: Calls)
    requires PlainChain(c) && calls(f, x) == Spliced(Print(c))
    ensures PlainAnswer(calls(f, x)) && Truth(counts, calls)(Call(f, x)) == Val(c, PlainVal(counts))
  {
    hide Print, Val;
    var d := CallChain(calls(f, x));
    assert IsChain(Print(c));
    AnswerPrints(calls(f, x));
    SamePrint(c, d, counts);
    assert Answers(calls)(f, x) == d;
    assert Truth(counts, calls)(Call(f, x)) == Val(Answers(calls)(f, x), PlainVal(counts));
  }

  /** `OptAll` over any printed requirement: it answers with a chain, which asks for every
      item as often as the requirement does, but no more often than the pool holds it. */
  lemma OptAllReads(e: Expr, counts: Counts, pool: Pool, calls: Calls)
    requires AllAtoms(e, IsNeed) && SingleBangs(e)
    requires calls("OptAll", Print(e)) == OptAll(Print(e), pool)
    ensures PlainAnswer(calls("OptAll", Print(e)))
    ensures Truth(counts, calls)(Call("OptAll", Print(e))) == Val(e, Enough(counts, pool))
  {
    hide Print, Val, OptAll, PlainAnswer, Truth, Enough, SingleBangs;
    OptAllText(e, pool);
    EnoughMeans(e, counts, pool);
    ChainTruth("OptAll", Print(e), Renamed(e, CutItem(pool)), counts, calls);
  }

  // ----------------------------------------------- answers that come too late

  /** `|x| op {f(y)}`. */
  function LateCall(x: string, op: Op, f: string, y: string): Expr {
    More(Leaf(Item(x)), Word(op, false), One(Leaf(Call(f, y))))
  }

  /** A chain answered behind an operand joins the chain it stands in: the reader goes on
      grouping to the left, `(|x| op n0) op0 n1 ..`. */
  lemma LateAnswer(x: string, op: Op, f: string, y: string, c: Expr, counts: Counts, calls: Calls)
    requires GoodName(x) && GoodAtom(Call(f, y)) && PlainChain(c) && calls(f, y) == Spliced(Print(c))
    ensures CheckRequire(Print(LateCall(x, op, f, y)), counts, calls) ==
            Ok(ValFrom(counts(x) >= 1, op, c, PlainVal(counts)))
    ensures Val(LateCall(x, op, f, y), Truth(counts, calls)) == Apply(op, counts(x) >= 1, Val(c, PlainVal(counts)))
  {
    hide CheckRequire, Print, PlainAnswer, GoodName, Truth;
    var e, d := LateCall(x, op, f, y), CallChain(calls(f, y));
    ChainTruth(f, y, c, counts, calls);
    AnswerPrints(calls(f, y));
    LateShape(x, op, f, y, d, calls);
    ReaderSplices(e, counts, calls);
    var first, second := More(Leaf(Item(x)), Word(op, false), c), More(Leaf(Item(x)), Word(op, false), d);
    assert UnitAtoms(Leaf(Item(x)), IsPlain) && UnitSingleBangs(Leaf(Item(x)));
    assert PlainChain(first) && PlainChain(second);
    LateText(x, op, c, d);
    SamePrint(first, second, counts);
    var v, last := Truth(counts, calls), One(Leaf(Call(f, y)));
    assert Val(e, v) == ValFrom(v(Item(x)), op, last, v) == Apply(op, v(Item(x)), v(Call(f, y)));
    assert PlainVal(counts)(Item(x)) == (counts(x) >= 1);
    PlainTruth(Item(x), counts, calls);
  }

  lemma LateShape(x: string, op: Op, f: string, y: string, d: Expr, calls: Calls)
    requires GoodName(x) && GoodAtom(Call(f, y)) && d == CallChain(calls(f, y)) && PlainAnswer(calls(f, y))
    ensures var e := LateCall(x, op, f, y);
            && AllAtoms(e, GoodAtom) && SplicesChains(CallsOf(Toks(e)), calls)
            && Fill(e, Answers(calls)) == More(Leaf(Item(x)), Word(op, false), d)
            && SingleBangs(Fill(e, Answers(calls)))
  {
    hide PlainAnswer, Toks, CallsOf;
    LateToks(x, op, f, y);
    var last := One(Leaf(Call(f, y)));
    assert AllAtoms(last, GoodAtom);
    assert Fill(last, Answers(calls)) == Answers(calls)(f, y) == d;
  }

  lemma LateToks(x: string, op: Op, f: string, y: string)
    ensures CallsOf(Toks(LateCall(x, op, f, y))) == [(f, y)]
  {
    var ts := [A(Item(x)), W(Word(op, false)), A(Call(f, y))];
    assert Toks(One(Leaf(Call(f, y)))) == UnitToks(Leaf(Call(f, y)));
    assert Toks(LateCall(x, op, f, y)) == ts;
    assert ts[1..][1..] == [A(Call(f, y))] && ts[1..][1..][1..] == [];
    assert CallsOf(ts[1..][1..]) == [(f, y)] + CallsOf([]);
    assert CallsOf(ts[1..]) == [] + CallsOf(ts[1..][1..]);
    assert CallsOf(ts) == [] + CallsOf(ts[1..]);
  }

  lemma LateText(x: string, op: Op, c: Expr, d: Expr)
    requires Print(c) == Print(d)
    ensures Print(More(Leaf(Item(x)), Word(op, false), c)) == Print(More(Leaf(Item(x)), Word(op, false), d))
  {
    FlatMore(Leaf(Item(x)), Word(op, false), c, PLAIN);
    FlatMore(Leaf(Item(x)), Word(op, false), d, PLAIN);
  }

  predicate AllAre(ops: seq<Op>, op: Op) {
    forall o :: o in ops ==> o == op
  }

  /** With one connective throughout, grouping does not matter. */
  lemma {:induction false} OneConnective(acc: bool, x: bool, op: Op, names: seq<string>, ops: seq<Op>, v: Valuation)
    requires |names| == |ops| + 1 && AllAre(ops, op)
    ensures ValFrom(Apply(op, x, acc), op, ItemChain(names, ops), v) ==
            Apply(op, x, ValFrom(acc, op, ItemChain(names, ops), v))
    decreases |ops|
  {
    if ops != [] {
      assert ops[0] in ops && forall o :: o in ops[1..] ==> o in ops;
      OneConnective(Apply(op, acc, v(Item(names[0]))), x, op, names[1..], ops[1..], v);
    }
  }

  /** When every item of the chain has the value `b`, so has the chain. */
  lemma {:induction false} AllTheSame(acc: bool, op: Op, b: bool, names: seq<string>, ops: seq<Op>, v: Valuation)
    requires |names| == |ops| + 1 && forall n :: n in names ==> v(Item(n)) == b
    ensures ValFrom(b, op, ItemChain(names, ops), v) == b && Val(ItemChain(names, ops), v) == b
    ensures ValFrom(acc, op, ItemChain(names, ops), v) ==
            if acc == b || Settles(op, b) || exists o :: o in ops && Settles(o, b) then b else !b
    decreases |ops|
  {
    assert names[0] in names;
    if ops != [] {
      assert forall n :: n in names[1..] ==> n in names;
      assert ops == [ops[0]] + ops[1..];
      AllTheSame(Apply(op, acc, b), ops[0], b, names[1..], ops[1..], v);
    }
  }

  /** `o b` makes the result `b` whatever stood before. */
  predicate Settles(o: Op, b: bool) {
    o == if b then Or else And
  }

  /** The state that separates the two groupings. */
  function Parting(x: string, op: Op): Counts {
    (n: string) => if (n == x) == (op == Or) then 1 else 0
  }

  /** Behind `op`, the answer `n0 op0 n1 ..` is read as one operand in every state if and
      only if every connective in it is `op` again. */
  lemma LateExactly(x: string, op: Op, f: string, y: string, names: seq<string>, ops: seq<Op>, calls: Calls)
    requires |names| == |ops| + 1 && GoodName(x) && x !in names && forall n :: n in names ==> GoodName(n)
    requires GoodAtom(Call(f, y)) && calls(f, y) == Spliced(Print(ItemChain(names, ops)))
    ensures (forall counts :: CheckRequire(Print(LateCall(x, op, f, y)), counts, calls) ==
                              Ok(Val(LateCall(x, op, f, y), Truth(counts, calls))))
            <==> AllAre(ops, op)
  {
    hide CheckRequire, Print, Val, ValFrom, Truth, GoodName, PlainVal, LateCall;
    var c := ItemChain(names, ops);
    ChainIsPlain(names, ops);
    forall counts
      ensures CheckRequire(Print(LateCall(x, op, f, y)), counts, calls) ==
              Ok(ValFrom(counts(x) >= 1, op, c, PlainVal(counts)))
      ensures Val(LateCall(x, op, f, y), Truth(counts, calls)) == Apply(op, counts(x) >= 1, Val(c, PlainVal(counts)))
    {
      LateAnswer(x, op, f, y, c, counts, calls);
    }
    if AllAre(ops, op) {
      forall counts: Counts
        ensures ValFrom(counts(x) >= 1, op, c, PlainVal(counts)) == Apply(op, counts(x) >= 1, Val(c, PlainVal(counts)))
      {
        StartOver(counts(x) >= 1, op, names, ops, PlainVal(counts));
      }
    } else {
      var counts := Parting(x, op);
      PartingValues(x, op, names, ops);
      assert ValFrom(counts(x) >= 1, op, c, PlainVal(counts)) != Apply(op, counts(x) >= 1, Val(c, PlainVal(counts)));
    }
  }

  lemma {:induction false} ChainIsPlain(names: seq<string>, ops: seq<Op>)
    requires |names| == |ops| + 1 && forall n :: n in names ==> GoodName(n)
    ensures PlainChain(ItemChain(names, ops))
    decreases |ops|
  {
    hide GoodName;
    assert names[0] in names;
    assert UnitAtoms(Leaf(Item(names[0])), IsPlain) && UnitSingleBangs(Leaf(Item(names[0])));
    if ops == [] {
      assert ItemChain(names, ops) == One(Leaf(Item(names[0])));
    } else {
      assert forall n :: n in names[1..] ==> n in names;
      ChainIsPlain(names[1..], ops[1..]);
    }
  }

  lemma StartOver(acc: bool, op: Op, names: seq<string>, ops: seq<Op>, v: Valuation)
    requires |names| == |ops| + 1 && AllAre(ops, op)
    ensures ValFrom(acc, op, ItemChain(names, ops), v) == Apply(op, acc, Val(ItemChain(names, ops), v))
  {
    if ops == [] {
      assert ItemChain(names, ops) == One(Leaf(Item(names[0])));
    } else {
      assert ops[0] in ops && forall o :: o in ops[1..] ==> o in ops;
      OneConnective(v(Item(names[0])), acc, op, names[1..], ops[1..], v);
    }
  }

  lemma PartingValues(x: string, op: Op, names: seq<string>, ops: seq<Op>)
    requires |names| == |ops| + 1 && x !in names && (forall n :: n in names ==> GoodName(n)) && !AllAre(ops, op)
    ensures var counts, c := Parting(x, op), ItemChain(names, ops);
            ValFrom(counts(x) >= 1, op, c, PlainVal(counts)) != Apply(op, counts(x) >= 1, Val(c, PlainVal(counts)))
  {
    var counts, v := Parting(x, op), PlainVal(Parting(x, op));
    forall n | n in names
      ensures v(Item(n)) == (op == And)
    {
      assert ItemMet(Item(n), counts) == (counts(n) >= 1);
    }
    AllTheSame(op == Or, op, op == And, names, ops, v);
    var o :| o in ops && o != op;
    assert Settles(o, op == And);
  }

  // ------------------------------------------------------------- other wordings

  /** A category's count is cut to what its items come to together, with bars around it or
      without; a count that is no number, such as `all` or `50%`, is handed on. */
  lemma OptOneOther(name: string, count: string, pool: Pool)
    requires name != "" && name[0] != '|' && name[0] != '@' && name[0] != '$' && '|' !in name && ':' !in name
    requires '|' !in count && ':' !in count
    ensures AllDigits(count) ==>
              OptOne("|@" + name + ":" + count + "|", pool) == OptOne("@" + name + ":" + count, pool) ==
              "|@" + name + ":" + NatText(Clamp(NatValue(count), Supply(pool.categories, name))) + "|"
    ensures !AllDigits(count) && name[0] != '@' ==>
              OptOne("|" + name + ":" + count + "|", pool) == "|" + name + ":" + count + "|"
  {
    hide NatText, StripMarks, SplitOn;
    var body := name + ":" + count;
    assert body[0] == name[0] && body[|body| - 1] != '|' by {
      if count != "" {
        assert count[|count| - 1] in count;
      }
    }
    MarksSkipped("@", body);
    MarksSkipped("", body);
    BareMark(body);
    assert "@" + body == "@" + name + ":" + count;
    assert "|" + "@" + body + "|" == "|@" + name + ":" + count + "|";
    assert "|" + "" + body + "|" == "|" + name + ":" + count + "|";
    assert body == name + [':'] + count;
    SplitFirst(name, ':', count);
    SplitNone(count, ':');
  }

  lemma BareMark(body: string)
    requires body != "" && body[0] != '|' && body[0] != '@' && body[0] != '$' && body[|body| - 1] != '|'
    ensures StripMarks("@" + body) == body
  {
    LeftMarks("@", body);
  }
}
