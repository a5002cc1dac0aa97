/** The leave gates in the tracker: `has_kingdom_moons` of logic.lua beside the rule function
    `KingdomMoons` of hooks/Rules.py. */
module PackGates {
  import opened Text
  import opened PackRules
  import opened Syntax
  import opened PackMeaning
  import opened RuleReader
  import opened PackState
  import opened KingdomMoons
  import opened Dnf
  import PackLexer
  import PackParser

  // ------------------------------------------------------ codes of joined names

  /** Whether the text ends within a run of characters that codes leave out. */
  predicate EndsOpen(s: string, inRun: bool) {
    if s == "" then inRun else !IsCodeChar(s[|s| - 1])
  }

  lemma {:induction false} CodedAppend(a: string, b: string, inRun: bool)
    ensures Coded(a + b, inRun) == Coded(a, inRun) + Coded(b, EndsOpen(a, inRun))
  {
    hide IsCodeChar, EndsOpen, Coded;
    if a == "" {
      assert a + b == b;
      CodedEmpty(inRun);
    } else {
      assert (a + b)[0] == a[0] && (a + b)[1..] == a[1..] + b;
      CodedAppend(a[1..], b, !IsCodeChar(a[0]));
      CodedStep(a, inRun);
      CodedStep(a + b, inRun);
      EndsLater(a, inRun);
    }
  }

  lemma CodedEmpty(inRun: bool)
    ensures Coded("", inRun) == "" && EndsOpen("", inRun) == inRun
  {
  }

  lemma CodedStep(s: string, inRun: bool)
    requires s != ""
    ensures Coded(s, inRun) ==
            (if IsCodeChar(s[0]) then [s[0]] else if inRun then "" else "_") + Coded(s[1..], !IsCodeChar(s[0]))
  {
    hide IsCodeChar;
  }

  lemma EndsLater(s: string, inRun: bool)
    requires s != ""
    ensures EndsOpen(s, inRun) == EndsOpen(s[1..], !IsCodeChar(s[0]))
  {
    hide IsCodeChar;
    assert s[1..] != "" ==> s[1..][|s[1..]| - 1] == s[|s| - 1];
  }

  /** Coded text ends in one underscore when the text ends within such a run, else in a
      code character. */
  predicate EndsOnce(w: string, open: bool) {
    w != "" ==> if open then w[|w| - 1] == '_' && (|w| > 1 ==> w[|w| - 2] != '_') else w[|w| - 1] != '_'
  }

  lemma {:induction false} CodedEnds(s: string, inRun: bool)
    ensures EndsOnce(Coded(s, inRun), EndsOpen(s, inRun))
    ensures inRun && Coded(s, inRun) != "" ==> Coded(s, inRun)[0] != '_'
    ensures s != "" && !EndsOpen(s, inRun) ==> Coded(s, inRun) != ""
  {
    if s != "" {
      CodedEnds(s[1..], !IsCodeChar(s[0]));
    }
  }

  /** What follows a name: one underscore and its own code. */
  predicate Follows(suffix: string, tail: string) {
    && tail != "" && tail[0] != '_' && tail[|tail| - 1] != '_'
    && Coded(suffix, true) == tail && Coded(suffix, false) == "_" + tail
  }

  lemma {:induction false} TrimJoined(a: string, suffix: string, tail: string, inRun: bool)
    requires Follows(suffix, tail) && TrimBars(Coded(a, inRun)) != ""
    ensures TrimBars(Coded(a, inRun) + Coded(suffix, EndsOpen(a, inRun))) == TrimBars(Coded(a, inRun)) + "_" + tail
  {
    hide Follows, TrimBars;
    var w, rest := Coded(a, inRun), Coded(suffix, EndsOpen(a, inRun));
    if a == "" {
      NothingLeft();
    } else if !IsCodeChar(a[0]) {
      var v := Coded(a[1..], true);
      assert a[1..] == "" ==> v == "";
      TrimFront(v);
      TrimFront(v + rest);
      assert w == (if inRun then "" else "_") + v;
      assert "" + v == v && "_" + (v + rest) == "_" + v + rest;
      NothingLeft();
      TrimJoined(a[1..], suffix, tail, true);
    } else {
      CodedEnds(a, inRun);
      FollowsParts(suffix, tail, EndsOpen(a, inRun));
      TrimEnd(w, tail, EndsOpen(a, inRun));
    }
  }

  lemma NothingLeft()
    ensures TrimBars("") == ""
  {
  }

  lemma TrimFront(v: string)
    ensures TrimBars("_" + v) == TrimBars(v)
  {
    assert ("_" + v)[1..] == v;
  }

  lemma FollowsParts(suffix: string, tail: string, open: bool)
    requires Follows(suffix, tail)
    ensures Coded(suffix, open) == if open then tail else "_" + tail
    ensures tail != "" && tail[0] != '_' && tail[|tail| - 1] != '_'
  {
  }

  lemma TrimEnd(w: string, tail: string, open: bool)
    requires w != "" && w[0] != '_' && EndsOnce(w, open) && tail != "" && tail[|tail| - 1] != '_'
    ensures TrimBars(w + if open then tail else "_" + tail) == TrimBars(w) + "_" + tail
  {
    hide TrimBars;
    if open {
      var x := w[..|w| - 1];
      assert w == x + "_" && x != "" && x[|x| - 1] != '_';
      TrimOne(x);
      NothingTrimmed(x + "_" + tail);
    } else {
      NothingTrimmed(w);
      NothingTrimmed(w + "_" + tail);
      Regroup(w, "_", tail);
    }
  }

  lemma TrimOne(x: string)
    requires x != "" && x[0] != '_' && x[|x| - 1] != '_'
    ensures TrimBars(x + "_") == x
  {
    var w := x + "_";
    assert w[0] != '_' && w[|w| - 1] == '_' && w[..|w| - 1] == x;
    NothingTrimmed(x);
  }

  lemma NothingTrimmed(s: string)
    requires s != "" && s[0] != '_' && s[|s| - 1] != '_'
    ensures TrimBars(s) == s
  {
  }

  lemma CodeJoined(name: string, suffix: string, tail: string)
    requires Follows(Lower(suffix), tail) && CodeFor(name) != ""
    ensures CodeFor(name + suffix) == CodeFor(name) + "_" + tail
  {
    hide Follows, TrimBars, Coded;
    assert Lower(name + suffix) == Lower(name) + Lower(suffix);
    CodedAppend(Lower(name), Lower(suffix), false);
    TrimJoined(Lower(name), Lower(suffix), tail, false);
  }

  /** A word of code characters is its own code. */
  lemma {:induction false} CodedWord(w: string, inRun: bool)
    requires w != "" && forall c :: c in w ==> IsCodeChar(c)
    ensures Coded(w, inRun) == w && !EndsOpen(w, inRun)
  {
    assert w == [w[0]] + w[1..];
    if w[1..] != "" {
      CodedWord(w[1..], false);
    }
  }

  /** A space and a word. */
  lemma SpacedWord(w: string, inRun: bool)
    requires w != "" && forall c :: c in w ==> IsCodeChar(c)
    ensures Coded(" " + w, inRun) == (if inRun then "" else "_") + w
    ensures !EndsOpen(" " + w, inRun)
  {
    assert (" " + w)[1..] == w;
    CodedWord(w, true);
  }

  lemma EndsAppend(a: string, b: string, inRun: bool)
    requires b != ""
    ensures EndsOpen(a + b, inRun) == EndsOpen(b, inRun)
  {
    assert (a + b)[|a + b| - 1] == b[|b| - 1];
  }

  predicate IsWordCode(w: string) {
    w != "" && forall c :: c in w ==> IsCodeChar(c)
  }

  /** Three words after a name. */
  lemma CodedThree(x: string, y: string, z: string, sep: string, open: bool)
    requires IsWordCode(x) && IsWordCode(y) && IsWordCode(z) && |sep| == 1 && !IsCodeChar(sep[0])
    ensures Coded(" " + x + (" " + y) + (sep + z), open) ==
            (if open then "" else "_") + x + ("_" + y) + ("_" + z)
  {
    hide EndsOpen;
    CodedAppend(" " + x + (" " + y), sep + z, open);
    CodedAppend(" " + x, " " + y, open);
    SpacedWord(x, open);
    SpacedWord(y, false);
    SpacedWord(y, open);
    EndsAppend(" " + x, " " + y, open);
    assert Coded(sep + z, false) == "_" + z by {
      assert (sep + z)[1..] == z;
      CodedWord(z, true);
    }
  }

  lemma WordEnds(w: string)
    requires IsWordCode(w)
    ensures w[0] != '_' && w[|w| - 1] != '_'
  {
    assert w[0] in w && w[|w| - 1] in w;
  }

  lemma ThreeWords(x: string, y: string, z: string, sep: string)
    requires IsWordCode(x) && IsWordCode(y) && IsWordCode(z) && |sep| == 1 && !IsCodeChar(sep[0])
    ensures Follows(" " + x + (" " + y) + (sep + z), x + ("_" + y) + ("_" + z))
  {
    hide Coded, IsWordCode;
    CodedThree(x, y, z, sep, true);
    CodedThree(x, y, z, sep, false);
    WordEnds(x);
    WordEnds(z);
    Joined(x, y, z);
    var tail := x + ("_" + y) + ("_" + z);
    assert x != "" && z != "" by {
      hide Coded;
      NotEmpty(x);
      NotEmpty(z);
    }
    assert tail[0] == x[0] && tail[|tail| - 1] == z[|z| - 1];
  }

  lemma NotEmpty(w: string)
    requires IsWordCode(w)
    ensures w != ""
  {
  }

  lemma Joined(x: string, y: string, z: string)
    ensures "" + x + ("_" + y) + ("_" + z) == x + ("_" + y) + ("_" + z)
    ensures "_" + x + ("_" + y) + ("_" + z) == "_" + (x + ("_" + y) + ("_" + z))
  {
    assert "" + x == x;
  }

  lemma MoonSuffixes()
    ensures Follows(Lower(" Kingdom Power Moon"), "kingdom_power_moon")
    ensures Follows(Lower(" Kingdom Multi-Moon"), "kingdom_multi_moon")
  {
    hide Follows;
    PowerSuffixLower();
    MultiSuffixLower();
    ThreeWords("kingdom", "power", "moon", " ");
    ThreeWords("kingdom", "multi", "moon", "-");
    assert "kingdom" + ("_" + "power") + ("_" + "moon") == "kingdom_power_moon";
    assert "kingdom" + ("_" + "multi") + ("_" + "moon") == "kingdom_multi_moon";
  }

  lemma PowerSuffixLower()
    ensures Lower(" Kingdom Power Moon") == " " + "kingdom" + (" " + "power") + (" " + "moon")
  {
  }

  lemma MultiSuffixLower()
    ensures Lower(" Kingdom Multi-Moon") == " " + "kingdom" + (" " + "multi") + ("-" + "moon")
  {
  }

  /** The codes under which the helper looks for a kingdom's moons are their own. */
  lemma MoonCodes(kingdom: string)
    requires CodeFor(kingdom) != ""
    ensures CodeFor(PowerMoon(kingdom)) == CodeFor(kingdom) + "_kingdom_power_moon"
    ensures CodeFor(MultiMoon(kingdom)) == CodeFor(kingdom) + "_kingdom_multi_moon"
  {
    hide CodeFor, Follows, Lower;
    MoonSuffixes();
    CodeJoined(kingdom, " Kingdom Power Moon", "kingdom_power_moon");
    CodeJoined(kingdom, " Kingdom Multi-Moon", "kingdom_multi_moon");
  }

  // ------------------------------------------------------------------ the gates

  /** The pack has this moon, or there is none and nothing else has its code. */
  predicate MoonKnown(items: seq<PackItem>, got: seq<string>, name: string) {
    PackItem(name, true) in items || (!HasCode(items, CodeFor(name)) && name !in got)
  }

  lemma MoonAmount(items: seq<PackItem>, shelf: Shelf, got: seq<string>, name: string)
    requires Fits(items, shelf) && Shows(items, shelf, got) && MoonKnown(items, got, name)
    ensures Amount(shelf, CodeFor(name)) == multiset(got)[name]
  {
    hide CodeFor, Shows;
    if PackItem(name, true) in items {
      ShelfItem(items, PackItem(name, true), shelf, got);
    } else {
      assert name !in multiset(got);
    }
  }

  /** Three for every Multi-Moon received and one for every Power Moon. */
  function Credit(kingdom: string, got: seq<string>): nat {
    multiset(got)[PowerMoon(kingdom)] + 3 * multiset(got)[MultiMoon(kingdom)]
  }

  /** The pack keeps the moons of a kingdom, whose name fits into a term. */
  predicate KingdomKept(items: seq<PackItem>, got: seq<string>, kingdom: string) {
    && CodeFor(kingdom) != "" && '|' !in kingdom && Trimmed(kingdom)
    && MoonKnown(items, got, PowerMoon(kingdom)) && MoonKnown(items, got, MultiMoon(kingdom))
  }

  lemma GateParts(kingdom: string, n: string)
    requires '|' !in kingdom && AllDigits(n)
    ensures var t := "$has_kingdom_moons|" + kingdom + "|" + n;
            t[0] == '$' && SplitOn(t[1..], '|') == ["has_kingdom_moons", kingdom, n]
  {
    var t, f := "$has_kingdom_moons|" + kingdom + "|" + n, "has_kingdom_moons";
    assert t[1..] == f + ['|'] + (kingdom + ['|'] + n);
    assert '|' !in f;
    SplitFirst(f, '|', kingdom + ['|'] + n);
    SplitFirst(kingdom, '|', n);
    assert '|' !in n;
    SplitNone(n, '|');
  }

  lemma DigitsStay(n: nat)
    ensures Strip(NatText(n)) == NatText(n) && ParseInt(NatText(n)) == Some(n)
  {
    hide NatText;
    var s := NatText(n);
    assert s[0] in s && s[|s| - 1] in s;
    StripTrimmed(s);
    PlainInt(s);
  }

  lemma GateSays(kingdom: string, n: string, shelf: Shelf, lua: LuaFns)
    requires '|' !in kingdom && AllDigits(n)
    ensures PackState.Says(shelf, lua)("$has_kingdom_moons|" + kingdom + "|" + n) == HasKingdomMoons(shelf, kingdom, n)
  {
    hide SplitOn, HasKingdomMoons, LuaCall;
    GateParts(kingdom, n);
    LuaGate(kingdom, n, shelf, lua);
  }

  lemma LuaGate(kingdom: string, n: string, shelf: Shelf, lua: LuaFns)
    ensures LuaCall(["has_kingdom_moons", kingdom, n], shelf, lua) == HasKingdomMoons(shelf, kingdom, n)
  {
    hide HasKingdomMoons;
    assert |"has_kingdom_moons"| == 17 && |"has_count"| == 9;
  }

  /** The tracker's gate goes by the credit and the number in the text. */
  lemma GateShown(items: seq<PackItem>, kingdom: string, n: nat, shelf: Shelf, got: seq<string>, lua: LuaFns)
    requires Fits(items, shelf) && Shows(items, shelf, got) && KingdomKept(items, got, kingdom)
    ensures CallMet("KingdomMoons", [kingdom, NatText(n)], PackState.Says(shelf, lua)) <==> Credit(kingdom, got) >= n
  {
    hide CodeFor, SplitOn, NatText, Fits, Shows, MoonKnown, PowerMoon, MultiMoon, PackState.Says, Strip, AllDigits;
    MoonCodes(kingdom);
    MoonAmount(items, shelf, got, PowerMoon(kingdom));
    MoonAmount(items, shelf, got, MultiMoon(kingdom));
    DigitsStay(n);
    StripTrimmed(kingdom);
    GateSays(kingdom, NatText(n), shelf, lua);
    NumberBack(n);
  }

  lemma NumberBack(n: nat)
    ensures Number(NatText(n)) == n
  {
  }

  /** Everything received is in the pool. */
  predicate FromPool(got: seq<string>, pool: map<string, nat>, kingdom: string) {
    && multiset(got)[PowerMoon(kingdom)] <= Supply(pool, PowerMoon(kingdom))
    && multiset(got)[MultiMoon(kingdom)] <= Supply(pool, MultiMoon(kingdom))
  }

  /** The threshold of the seed: the rolled one, or the number in the text. */
  function SeedGate(kingdom: string, n: nat, rolled: Option<map<string, int>>): int {
    if rolled.Some? && kingdom in rolled.value then rolled.value[kingdom] else n
  }

  /** The rule goes by the credit and the threshold of the seed. */
  lemma GateAsked(kingdom: string, n: nat, rolled: Option<map<string, int>>, pool: map<string, nat>, got: seq<string>,
                  calls: Calls)
    requires GoodPool(pool) && FromPool(got, pool, kingdom) && Trimmed(kingdom)
    ensures SealedAnswer(RuleAnswer(kingdom, NatText(n), rolled, pool))
    ensures KingdomMoons.Says(RuleAnswer(kingdom, NatText(n), rolled, pool), CountsOf(got), calls) <==>
            Credit(kingdom, got) >= SeedGate(kingdom, n, rolled)
  {
    hide RuleAnswer, SealedAnswer, KingdomMoons.Says, ParseInt, NatText, GoodPool, Powered, Strip, Credit, FromPool;
    RuleIsPower(kingdom, NatText(n), rolled, pool);
    DigitsStay(n);
    StripTrimmed(kingdom);
    PoweredMeans(kingdom, n, rolled, pool, got);
  }

  lemma PoweredMeans(kingdom: string, n: nat, rolled: Option<map<string, int>>, pool: map<string, nat>,
                     got: seq<string>)
    requires Strip(kingdom) == kingdom && FromPool(got, pool, kingdom)
    requires Strip(NatText(n)) == NatText(n) && ParseInt(NatText(n)) == Some(n)
    ensures Powered(kingdom, NatText(n), rolled, pool, CountsOf(got)) <==>
            Credit(kingdom, got) >= SeedGate(kingdom, n, rolled)
  {
    hide ParseInt, NatText, Strip, PowerMoon, MultiMoon, Supply;
    var value: int := n;
    assert ParseInt(NatText(n)) == Some(value);
    assert Threshold(kingdom, NatText(n), rolled) == Some(SeedGate(kingdom, n, rolled));
  }

  /** A leave gate in a requirement, read by both programs as the same kingdom and number:
      the tracker tells exactly what the rule says in the states in which the credit reaches
      both thresholds or neither. Without rolled gates that is every state. */
  lemma GateTold(items: seq<PackItem>, x: string, kingdom: string, n: nat, shelf: Shelf, got: seq<string>, lua: LuaFns,
                 rolled: Option<map<string, int>>, pool: map<string, nat>, calls: Calls)
    requires Fits(items, shelf) && Shows(items, shelf, got) && KingdomKept(items, got, kingdom)
    requires GoodPool(pool) && FromPool(got, pool, kingdom)
    requires ArgTexts(ArgTokens(x), [], "") == [kingdom, NatText(n)]
    requires calls("KingdomMoons", x) == RuleAnswer(kingdom, NatText(n), rolled, pool)
    ensures SealedAnswer(calls("KingdomMoons", x))
    ensures var t := SeedGate(kingdom, n, rolled);
            (TrackerVal(AstAtom(Call("KingdomMoons", x)), PackState.Says(shelf, lua)) <==>
             Truth(CountsOf(got), calls)(Call("KingdomMoons", x)))
            <==> (Credit(kingdom, got) >= n <==> Credit(kingdom, got) >= t)
    ensures rolled.None? || kingdom !in rolled.value ==>
            (TrackerVal(AstAtom(Call("KingdomMoons", x)), PackState.Says(shelf, lua)) <==>
             Truth(CountsOf(got), calls)(Call("KingdomMoons", x)))
  {
    hide PackState.Says, KingdomMoons.Says, RuleAnswer, Truth, SealedAnswer, NatText, CallMet, Credit, Fits, Shows;
    hide KingdomKept, GoodPool, FromPool, ArgTexts, ArgTokens;
    assert Trimmed(kingdom) by {
      KeptTrimmed(items, got, kingdom);
    }
    GateShown(items, kingdom, n, shelf, got, lua);
    GateAsked(kingdom, n, rolled, pool, got, calls);
    AnswerSays("KingdomMoons", x, CountsOf(got), calls);
    FuncTruth(kingdom, n, PackState.Says(shelf, lua));
  }

  lemma KeptTrimmed(items: seq<PackItem>, got: seq<string>, kingdom: string)
    requires KingdomKept(items, got, kingdom)
    ensures Trimmed(kingdom)
  {
  }

  lemma FuncTruth(kingdom: string, n: nat, val: Tracking)
    ensures TrackerVal(PackParser.Func("KingdomMoons", [kingdom, NatText(n)]), val) ==
            CallMet("KingdomMoons", [kingdom, NatText(n)], val)
  {
    hide CallMet;
  }

  // ------------------------------------------------------------ codes of any name

  lemma {:induction false} CodedGap(sep: string, inRun: bool)
    requires sep != "" && forall c :: c in sep ==> !IsCodeChar(c)
    ensures Coded(sep, inRun) == (if inRun then "" else "_") && EndsOpen(sep, inRun)
  {
    assert sep == [sep[0]] + sep[1..] && sep[0] in sep;
    if sep[1..] != "" {
      assert sep[1..][|sep[1..]| - 1] == sep[|sep| - 1];
      CodedGap(sep[1..], true);
    }
  }

  lemma {:induction false} CodedWords(sep: string, words: seq<string>, inRun: bool)
    requires sep != "" && (forall c :: c in sep ==> !IsCodeChar(c))
    requires words != [] && forall w :: w in words ==> IsWordCode(w)
    ensures Coded(Join(sep, words), inRun) == Join("_", words)
    ensures var s := Join("_", words); s != "" && IsCodeChar(s[0]) && IsCodeChar(s[|s| - 1])
  {
    hide Coded, IsCodeChar;
    var w, rest := words[0], words[1..];
    assert words == [w] + rest && w in words;
    CodedWord(w, inRun);
    CodeEnds(w);
    if rest != [] {
      assert forall x :: x in rest ==> x in words;
      CodedWords(sep, rest, true);
      var tail := Join(sep, rest);
      CodedGap(sep, false);
      CodedAppend(sep, tail, false);
      CodedAppend(w, sep + tail, inRun);
      assert Join(sep, words) == w + (sep + tail);
      assert Join("_", words) == w + ("_" + Join("_", rest));
    }
  }

  lemma CodeEnds(w: string)
    requires IsWordCode(w)
    ensures w != "" && IsCodeChar(w[0]) && IsCodeChar(w[|w| - 1])
  {
  }

  lemma LowerAppend(a: string, b: string)
    ensures Lower(a + b) == Lower(a) + Lower(b)
  {
  }

  lemma {:induction false} LowerJoin(sep: string, words: seq<string>)
    ensures Lower(Join(sep, words)) == Join(Lower(sep), Lowered(words))
  {
    hide Lower;
    if |words| > 1 {
      LowerJoin(sep, words[1..]);
      assert Lowered(words)[1..] == Lowered(words[1..]);
      LowerAppend(words[0] + sep, Join(sep, words[1..]));
      LowerAppend(words[0], sep);
    } else if words == [] {
      assert Lower("") == "" by {
        LowerNothing();
      }
    }
  }

  lemma LowerNothing()
    ensures Lower("") == ""
  {
  }

  /** The code of a name: its words and numbers in lower case, one underscore between two of
      them whatever stands there in the name. */
  lemma CodeWords(sep: string, words: seq<string>)
    requires sep != "" && forall c :: c in Lower(sep) ==> !('a' <= c <= 'z') && !('0' <= c <= '9')
    requires words != []
    requires forall w, c :: w in words && c in Lower(w) ==> 'a' <= c <= 'z' || '0' <= c <= '9'
    requires forall w :: w in words ==> w != ""
    ensures CodeFor(Join(sep, words)) == Join("_", Lowered(words))
  {
    hide Coded, TrimBars, Lower, Join;
    LowerJoin(sep, words);
    LowerLong(sep);
    forall w | w in Lowered(words)
      ensures IsWordCode(w)
    {
      var i :| 0 <= i < |Lowered(words)| && w == Lowered(words)[i];
      assert w == Lower(words[i]) && words[i] in words;
      LowerLong(words[i]);
      WordCode(w);
    }
    CodedWords(Lower(sep), Lowered(words), false);
    NothingTrimmed(Join("_", Lowered(words)));
  }

  lemma WordCode(w: string)
    requires w != "" && forall c :: c in w ==> 'a' <= c <= 'z' || '0' <= c <= '9'
    ensures IsWordCode(w)
  {
  }

  lemma LowerLong(s: string)
    ensures |Lower(s)| == |s|
  {
  }

  /** The text of a leave gate gives the tracker its kingdom and its number. */
  lemma GateWritten(kingdom: string, n: nat)
    requires ArgWord(kingdom)
    ensures ArgTexts(ArgTokens(kingdom + "," + NatText(n)), [], "") == [kingdom, NatText(n)]
  {
    hide ArgTexts, ArgTokens, NatText, ArgWord, PackLexer.WordToken;
    var words := [kingdom, NatText(n)];
    NumberWord(n);
    ArgsKept(words);
    assert words[1..] == [NatText(n)];
  }

  lemma NumberWord(n: nat)
    ensures ArgWord(NatText(n))
  {
    hide NatText;
    var d := NatText(n);
    assert forall i :: 0 <= i < |d| ==> d[i] in d && IsDigit(d[i]);
    assert Lower(d)[0] == d[0] && "and"[0] == 'a' && "or"[0] == 'o';
  }
}
