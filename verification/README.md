# Verified model of the Super Mario Odyssey randomiser logic

This project models the parts of the SMO Archipelago world and its PopTracker pack in which a
mistake is silent: the requirement language and everything that compiles, reads and translates
it, the orders and gates that are rolled at random, the entrance shuffle and the two pieces of
state that must not be lost (the item pool and the bundled-tree cache). Each is a Dafny model of
what the code does, with theorems for all inputs, all runs and all states.

## The requirement tool chain

A moon record (any of several methods, each an `and` of jump, throw, capture and other needs) is
compiled to text such as `(|A:2| and ({SandPeace()} or |B|))`. Four programs meet in that text.

* `Text`, `Syntax`, `Scanner`, `Splice`, `Relabel`: Python's string operations on sequences of
  characters, requirement trees, their printed text, and the regular-expression passes over it.
  Strings are real strings: substitution happens on characters, and lemmas link it to trees.
* `Shunting`, `RuleReader`: the reader of Rules.py, by textual substitution, then shunting-yard,
  then a stack. `and` and `or` are equally strong and group to the left.
* `OptItems`: the wrapper that cuts counts down to what the pool holds, and answers that are
  whole chains.
* `DoorReader`: the second reader, one pass over the items, with at most 16 calls spliced in.
* `Terms`, `Vocabulary`, `MoonCompiler`, `CompilersAgree`, `MoonGates`, `MoonTable`,
  `KingdomMoons`: the joins, the two compilers and where they agree, the gates joined onto a
  location's rule, the table of rules that is written, and the leave gate as requirement text.
* `PackLexer`, `PackParser`, `PackGrammar`, `PackMeaning`, `ReadersAgree`: the tracker pack's
  tokenizer and recursive-descent parser, in which `and` binds tighter, the grammar it accepts,
  and where the two readings agree.
* `Dnf`, `PackRules`, `RegionPrereqs`: OR-of-AND lists, comma-joined access rules, and region
  prerequisites by memoised search.
* `TrackerText`, `PackState`, `PackGates`, `PackCaptures`: requirement text that both programs
  read alike, the tracker's items from connection to lookup, and its leave gates and `OptAll`
  beside the rule functions.
* `RegionTable`, `TrackerLocations`: the region table with its texts, and the rules shipped for a
  location against the rule the logic puts to its own reader.

An operand is *sealed* when it is a single atom or parenthesised. The compilers and
`KingdomMoons` only produce bools and sealed operands, and the theorems show that this is enough:
they ask it of the answers to the calls that the texts at hand may make (`Terms.Disciplined` over
a shape of text) and of nothing else. Text without calls asks for nothing. `OptAll` splices a whole
chain: such an answer is read as one operand when the call stands first in its chain
(`RuleReader.Answered`), as it does in every text shipped, and the theorems about readers and
tracker allow that.

## Orders, gates, doors and state

* `TalkatooOrder`: the greedy builder over a monotone reachability oracle, window safety, and
  the projection of one global order onto kingdoms.
* `KingdomGates`: the transfer walk that rolls the leave gates while keeping their total.
* `EntranceRemap`: the shuffle pool, the remap rows, the console's lookup, and players walking.
* `BundledTree`: the extraction cache as a step machine with a crash possible at every step.
* `FillerPool`, `PoolOrder`: topping up and cutting down the item pool, which items leave it
  and in which order, and the pools that the world builds.

Randomness is an arbitrary input: a sequence of picks, rolls or shuffled lists. The collection
state is a map from item names to counts and rule functions are arbitrary functions of name and
argument text. The tracker is first an arbitrary truth assignment to rule terms in which `false`
does not hold, and the theorems name what it must say of the items and calls in the texts; then
`PackState` derives what it does say of items after any list of items received.

## Where the code disagrees with its documentation or with itself

* entrance_logic.py says `compile_interior_requires` mirrors the moon compiler exactly. It has no
  spin jump, one free capture fewer, and keeps repeated terms. `MirrorsExactlyWhen` names the
  states in which the two accept the same on every record, `InteriorStricter` gives a record for
  every other state, and `InteriorNeverLaxer` shows the difference only ever goes one way.
* entrance_logic.py says a subarea without a `primary_exit` is a sound endpoint. It is as an
  interior; as a door it leaves its partner without an exit row, so leaving by the pipe leads to
  a foreign kingdom. `StrandedExactly` gives the exact condition, `PooledYetStranding` an input.
* ApState.cpp and docs/p7-step4-return-design.md say that a deeper door inside a shuffled interior
  is caught by its entry row before the exit row of the interior is looked for. A door that leads
  to itself has no entry row. `EnterFrom` gives the exact condition from every stage, and
  `NestedDoorMissed` the door that throws the player out.
* The rule reader takes `(x)and(y)` for a conjunction. The door reader wants blanks around the
  word, fails to evaluate the text and lets the player through (`TightAndParts`).
* entrance_logic.py promises that its readers fail open on any error. A count that is no number
  raises (`BadCountAtDoor`).
* `adjust_filler_items` announces that non-progression items are removed. It removes by list
  equality, which for items of one player is equality of names, so on arbitrary lists the item
  that goes need not be the one popped. `ConservedExactly` and `InOrderExactly` give the exact
  conditions for kept items to stay and for exactly the popped items to leave, in order of
  class. Both hold for every pool the world passes (`BuiltPoolsConserve`), where all copies of a
  name have one class; the hooks that demote single copies run later.
* `parse_func` promises the source form of an argument back. Neighbouring words lose their
  space: `RebuildRoundTrip` says exactly when the tokens survive, `JoinedWords` what two
  neighbouring words become.
* build_region_prereqs treats a region met again during its own computation as always open.
  `LoopAlwaysOpen` shows what that costs on every set of regions none of which is a start and each
  of which is led to from the set, `CycleAlwaysOpen` is a graph of two regions, and `ExactlyWhenLoopless`
  proves a shape of graph exact, for all requirements and valuations, if and only if it has no
  such set. On the same condition the shipped rules are those of the logic
  (`LocationMatchesLogic`); they never hide a location the logic opens on any graph.
* The rule reader gives `and` and `or` equal strength, the tracker lets `and` bind tighter. A text
  over distinct items, nested as deep as may be, is read alike in every state if and only if no
  chain in it has an `or` before an `and` (`AgreeExactly`; `ChainsAgreeExactly` for one chain).
  `MixedChainParts` gives the states in which `|A| or |B| and |C|` is read differently. The
  theorems that carry requirements to the tracker therefore ask for `and`s first.
* The pack makes every item that is not a moon a toggle, and `has_count` knows no amount of a
  toggle, so a count above one of such an item is never met however many are received.
  `OneItemParts` shows that the tracker and the rule reader part exactly there, `ItemsTold` says
  the same of whole texts, and `PackMatchesLogic` carries it to locations: the pack never shows
  one that is out of logic on this account, but it hides some that are in.
* With rolled leave gates `KingdomMoons` goes by the rolled threshold while the tracker goes by
  the number in the text. `GateTold` shows they agree exactly when the credit reaches both or
  neither, so in every state when nothing is rolled for the kingdom.
* Rules.py splices the answer of a rule function into the text as it is. Behind an operand an
  answer of several joins the chain it stands in: `LateAnswer` says what is read then, and
  `LateExactly` that it is the intended reading in every state if and only if all its connectives
  are the one before the call. The shipped texts call `OptAll` first in a chain, where it is read
  as meant (`ReaderPlaced`, `CaptureTracked`).
* Two `!` in a row are not two negations in Rules.py: at the start of a text they raise, and after
  an operand the first of them negates that operand (`DoubledBangRaises`, `DoubledBangMisreads`).

## Model

| member | source | states |
|---|---|---|
| `Shunting.InfixToPostfix` | apworld/smo_archipelago/Rules.py:15-39 | the loop over characters with its operator stack computes `Postfix`, raising exactly when that raises |
| `Shunting.EvaluatePostfix` | apworld/smo_archipelago/Rules.py:42-66 | the stack loop computes `Run` on the postfix text, raising on a short stack or leftovers |
| `Shunting.ShuntingYardCorrect` | apworld/smo_archipelago/Rules.py:15-66 | for every chain over 0, 1, and, or, not and parentheses without a doubled `!`, both stages succeed and give the reading in which `!` binds tightest and the connectives group left with equal strength |
| `Shunting.DoubledBangRaises` | apworld/smo_archipelago/Rules.py:15-66 | a text that starts with two `!` and any operand, such as `!!1`, makes the evaluator raise |
| `Shunting.DoubledBangMisreads` | apworld/smo_archipelago/Rules.py:15-66 | after an operand two `!` do not raise: `x op !!y` is read as `!x op !y` for all operands, so `1 or !!1` gives false, and the answer is right exactly when one of x and y holds |
| `Shunting.OthersIgnored` | apworld/smo_archipelago/Rules.py:15-66 | characters other than 0, 1, connectives, `!` and parentheses change nothing |
| `RuleReader.CheckRequireString` | apworld/smo_archipelago/Rules.py:70-170 | the two substitution loops over a table of rule functions compute `Checked` in every state, whatever the text; `CallOnArgs` says which arguments a function is handed and `CheckedReads` what is read |
| `RuleReader.ArgsGiven` | apworld/smo_archipelago/Rules.py:84-87 | texts without commas, written with commas between them, are the arguments handed over, and no text is none; a single empty one is the only list that is lost |
| `RuleReader.CallOnArgs` | apworld/smo_archipelago/Rules.py:83-101 | a call with arguments raises exactly when there is no function of that name or it raises on these arguments, and is answered as it answers them |
| `RuleReader.CheckedReads` | apworld/smo_archipelago/Rules.py:70-170 | of every printed requirement over good names: it raises exactly when one of its calls does, else gives the left-grouping truth of the tree with each call standing for the answer of its function |
| `RuleReader.ItemWritten` | apworld/smo_archipelago/Rules.py:105-122 | marks before a name are skipped, name and count are trimmed, a missing count is one and what follows a second colon is passed over |
| `RuleReader.BadCountRaises` | apworld/smo_archipelago/Rules.py:156 | a count that is no number raises, whatever the item |
| `Text.GroupedInt` | apworld/smo_archipelago/Rules.py:156 | single underscores between digits are passed over in a count, and any other raises |
| `Text.SignedInt` | apworld/smo_archipelago/Rules.py:156 | a count may have a sign |
| `RuleReader.WordKept` | apworld/smo_archipelago/Rules.py:166-167 | within a longer word, such as the name of an item, a connective is none |
| `RuleReader.ReaderSplices` | apworld/smo_archipelago/Rules.py:70-170 | for every printed requirement over good names and every state: calls answered with whole chains are read as those chains come to stand in the text, grouped left with what is around them, unless two `!` meet there |
| `RuleReader.ReaderPlaced` | apworld/smo_archipelago/Rules.py:70-170 | when each answer is a bool, a sealed operand or a chain whose call stands first in its own chain and not after `!`, the reader never raises and gives the left-grouping truth of the tree with each call standing for its answer |
| `RuleReader.ReaderCorrect` | apworld/smo_archipelago/Rules.py:70-170 | for every printed requirement over good names, every state and rule functions that answer its calls with a bool or a sealed operand, the reader never raises and gives the tree's left-grouping truth |
| `OptItems.OptAllRule` | apworld/smo_archipelago/hooks/Rules.py:422-446 | the loop over the items of the argument computes `OptAll`, and an argument the reader captures holds no call to put aside |
| `OptItems.OptAllText` | apworld/smo_archipelago/hooks/Rules.py:383-446 | for every printed requirement over items, repeated or differently counted ones included, the answer is that requirement with every count cut down to what the pool holds |
| `OptItems.OptAllReads` | apworld/smo_archipelago/hooks/Rules.py:422-446 | spliced into a rule it asks for each item as often as the argument does, but no more often than the pool holds it |
| `OptItems.OptOneOther` | apworld/smo_archipelago/hooks/Rules.py:383-419 | a count of a category is cut to what its items come to, with bars or without; a count that is no number is handed on |
| `OptItems.LateAnswer` | apworld/smo_archipelago/Rules.py:83-101 | an answer of several operands behind one is grouped left with it |
| `OptItems.LateExactly` | apworld/smo_archipelago/Rules.py:83-101 | that is the reading as one operand in every state if and only if every connective of the answer is the one before the call |
| `DoorReader.EvaluateInterior` | apworld/smo_archipelago/entrance_logic.py:547-594 | the single pass over item matches computes `EvalInterior`, malformed text counting as true |
| `DoorReader.EvaluateFull` | apworld/smo_archipelago/entrance_logic.py:608-647 | the bounded splicing loop computes `EvalFull` over a table of rule functions, each given its split argument list and free to raise |
| `DoorReader.CallArgsGiven` | apworld/smo_archipelago/entrance_logic.py:630-632 | the arguments a function is handed here: the texts between the commas, each trimmed, and none when all is blank |
| `DoorReader.FailsOpen` | apworld/smo_archipelago/entrance_logic.py:608-647 | of every text without `!` with at most 16 calls: whichever rule functions go missing or start to raise, a text that was accepted still is |
| `DoorReader.InteriorCorrect` | apworld/smo_archipelago/entrance_logic.py:547-594 | the one-pass reader gives the tree's truth on every printed requirement without calls |
| `DoorReader.ReplaceAllRefinesOnePass` | apworld/smo_archipelago/Rules.py:105-170 | replacing each item's text everywhere, item after item, answers as the single left-to-right pass does |
| `DoorReader.FullCorrect` | apworld/smo_archipelago/entrance_logic.py:608-647 | with at most 16 calls answered by bools, nothing or any chain without calls, the full reader gives the truth of the tree with each call standing for the truth of its answer |
| `DoorReader.TightAndParts` | apworld/smo_archipelago/entrance_logic.py:585-594 | two operands with `and` and no blanks between them: the rule reader asks for both, the door reader lets the player through |
| `DoorReader.BlanksNeeded` | apworld/smo_archipelago/entrance_logic.py:585-586 | where a connective lacks a blank on either side the door reader leaves it in the text, whatever the text |
| `DoorReader.BadCountAtDoor` | apworld/smo_archipelago/entrance_logic.py:575-578 | a count that is no number raises here, it does not count as true |
| `DoorReader.AnswerTruth` | apworld/smo_archipelago/entrance_logic.py:629-645 | the truth a spliced answer contributes is what the reader says of the answer's own text, an empty answer counting as true |
| `Terms.AndJoinReads` | scripts/compile_moon_logic.py:57-67 | reading joined requirements is conjunction; repetitions and empty parts change nothing; both compilers' joins agree |
| `Terms.OrJoinReads` | scripts/compile_moon_logic.py:70-76 | reading the disjunction asks for some part that says something: an empty part, true by itself, is dropped unless all are empty |
| `MoonCompiler.CompileMethod` | scripts/compile_moon_logic.py:732-756 | the method compiler's loops compute `MethodText`, whose meaning `MoonReads` gives and whose errors `MoonRaises` |
| `MoonCompiler.CompileMoon` | scripts/compile_moon_logic.py:759-769 | the record compiler's loop, its free-method guard and its disjunction compute `MoonText` |
| `MoonCompiler.MoonReads` | scripts/compile_moon_logic.py:718-769 | in every state the compiled text holds exactly when some method has every need met, or there is no method; the needs are read off item names and counts: height tiers, the three throws, captures with the free ones, and two Progressive Ground Pounds for a dive, two Progressive Crouches for a roll, three for a roll boost and so on |
| `MoonCompiler.NeedMeans` | scripts/compile_moon_logic.py:116-130 | the table of other needs holds the ten words and no more, and asks for the item and count that the move takes |
| `MoonCompiler.ThrowMeans` | scripts/compile_moon_logic.py:112-114 | the table of throws holds up, down and spin, each for its own item |
| `MoonCompiler.MoonRaises` | scripts/compile_moon_logic.py:718-769 | the baked compiler raises exactly on a record with a misspelt throw or need, the interior compiler never; no alternative is compiled twice |
| `MoonCompiler.CompiledRuleCorrect` | scripts/compile_moon_logic.py:1003-1007 | the rule with every gate joined on holds exactly when the record is met and every gate holds, and is again one operand of the gates' shape |
| `CompilersAgree.InteriorNeverLaxer` | apworld/smo_archipelago/entrance_logic.py:247-296 | whatever the interior compiler's text accepts, the baked compiler's text accepts, on every record over the shared vocabulary |
| `CompilersAgree.MirrorsExactlyWhen` | apworld/smo_archipelago/entrance_logic.py:61-96 | in a state the two compilers' texts, each put to its own reader, accept the same on every record if and only if Broode's Chain Chomp is owned and, should Spin be owned, another jump of tier two or more is possible |
| `CompilersAgree.InteriorStricter` | apworld/smo_archipelago/entrance_logic.py:61-96 | in every other state there is a record that the baked rule accepts and the interior rule does not |
| `MoonGates.CollectGates` | scripts/compile_moon_logic.py:851-887 | whatever the shape of the recorded gates and whatever the state, the collected list is made of requirements of that shape that hold together exactly when the place's demands are met |
| `MoonGates.LakeGateReads` | scripts/compile_moon_logic.py:135-151 | the Lake gate text asks for the Zipper, or a high jump, a Cap Bounce and a Dive or Wall Slide |
| `MoonGates.CaveReads` | scripts/compile_moon_logic.py:700-703 | the Moon cave text asks for its three captures or its three moves |
| `MoonGates.PrefixGiven` | scripts/compile_moon_logic.py:863 | of a name written as kingdom, colon, blank and rest the prefix is the kingdom |
| `MoonGates.LocationRuleCorrect` | scripts/compile_moon_logic.py:1003-1007 | the rule compiled for a location holds exactly when the record is met and so is everything the place asks for: kingdom overworld, by the name up to its first colon and blank, moon rock, scenario, cave, subarea, its own item and its boss |
| `MoonTable.CompileTable` | scripts/compile_moon_logic.py:992-1024 | the loop over records, which skips those without a location or left to others, and the loop over full gates compute `WrittenRule` for every name; a rule is written for exactly the names with a record or a full gate that are not left to others; the run raises exactly on a record with an unknown word |
| `MoonTable.WrittenRuleCorrect` | scripts/compile_moon_logic.py:992-1024 | the rule that ends up in the table holds exactly when the location's full gate does, where its subarea has one, else when record and place are met |
| `MoonTable.LastCounts` | scripts/compile_moon_logic.py:992-1024 | of several records or full gates for one name the last decides |
| `MoonTable.UnknownMeans` | scripts/compile_moon_logic.py:112-130 | the unknown words are those that are no throw and no other need |
| `MoonTable.JaxiReads` | scripts/compile_moon_logic.py:629-644 | the one full gate asks for the peace of Sand, whatever bool or sealed operand that rule function answers, or for Bullet Bill, Dive and Wall Slide |
| `KingdomMoons.LeaveGate` | apworld/smo_archipelago/hooks/Rules.py:245-285 | the loop over Multi-Moon counts computes `Gate` |
| `KingdomMoons.GateIsPower` | apworld/smo_archipelago/hooks/Rules.py:245-285 | the gate is a bool or one sealed operand and holds exactly when three per Multi-Moon and one per Power Moon, as far as the pool supplies them, reach the threshold |
| `KingdomMoons.KingdomMoonsRule` | apworld/smo_archipelago/hooks/Rules.py:245-285 | stripping, the number check and the rolled table in front of the loop compute `RuleAnswer`, a bool or sealed operand that holds exactly when the argument is a number and the power the pool can supply reaches the threshold |
| `KingdomMoons.RuleIsPower` | apworld/smo_archipelago/hooks/Rules.py:245-285 | for all texts given as kingdom and number, and a pool whose item names hold no bar, colon or brace, the rule function answers with a bool or one sealed operand, which holds exactly when the argument is a number and the power the pool can supply reaches the rolled threshold, or that number where none is rolled |
| `KingdomMoons.GateChecked` | apworld/smo_archipelago/data/regions.json:14 | in every state the rule reader, given the text of a leave gate and a table with the real `KingdomMoons`, answers exactly whether the power the pool can supply reaches the threshold, for every kingdom and number text |
| `KingdomMoons.GateAtDoor` | apworld/smo_archipelago/entrance_logic.py:608-647 | so does the door reader |
| `PackLexer.ScanTokens` | scripts/build_poptracker_pack.py:106-152 | the index loop computes `Tokenize` |
| `PackLexer.RaisesOnOddBars` | scripts/build_poptracker_pack.py:131-137 | tokenizing raises if and only if the number of bars is odd |
| `PackLexer.RebuildRoundTrip` | scripts/build_poptracker_pack.py:254-270 | the text rebuilt from tokens tokenizes back to them if and only if no two identifiers are neighbours |
| `PackLexer.JoinedWords` | scripts/build_poptracker_pack.py:254-270 | two neighbouring identifiers come back as one word |
| `PackParser.Parser.Parse` | scripts/build_poptracker_pack.py:155-215 | the parser object, advancing its index, computes `ParseTokens` |
| `PackParser.Parser.ParseFunc` | scripts/build_poptracker_pack.py:217-251 | the argument loop with its depth counter computes `FuncNode` |
| `PackGrammar.AcceptsSentences` | scripts/build_poptracker_pack.py:155-251 | the parser accepts a list of tokens if and only if it is a sentence of an independent grammar (items, calls with closed arguments between commas, groups, joined by `and` and `or`), and gives the tree of one |
| `PackMeaning.ParsePrint` | scripts/build_poptracker_pack.py:106-289 | parsing undoes printing: every printed requirement over items and calls parses to its tree, an `or` of `and`s |
| `PackMeaning.ItemRead` | scripts/build_poptracker_pack.py:203-213 | blanks around name and count do not matter, a missing count is one, a negative one asks for nothing, and one that is no number raises |
| `PackMeaning.ArgsKept` | scripts/build_poptracker_pack.py:217-251 | words with commas between them are so many arguments |
| `PackMeaning.OptAllKeepsTree` | scripts/build_poptracker_pack.py:361-371 | the argument rebuilt for `OptAll`, parentheses included, parses again to the original tree |
| `ReadersAgree.TreeMeaning` | scripts/build_poptracker_pack.py:176-190 | the parsed tree means the reading of the printed chain in which `and` binds tighter |
| `ReadersAgree.ReadersAgree` | apworld/smo_archipelago/Rules.py:15-66 | both readers give one truth value in every state, whatever the rule functions say of the calls in the text, when no chain has an `or` before an `and` |
| `ReadersAgree.AgreeExactly` | apworld/smo_archipelago/Rules.py:15-66 | on the text of every requirement over distinct items, nested to any depth, the two readers agree in every state if and only if no chain has an `or` before an `and` |
| `ReadersAgree.ChainsAgreeExactly` | scripts/build_poptracker_pack.py:176-190 | on the text of a chain of different items the two readers agree in every state if and only if no `or` stands directly before an `and` |
| `ReadersAgree.MixedChainParts` | scripts/build_poptracker_pack.py:176-190 | the text <code>&#124;a&#124; or &#124;b&#124; and &#124;c&#124;</code> is answered differently by the two readers exactly when a is held and c is not |
| `ReadersAgree.TrackerReadsMoon` | scripts/compile_moon_logic.py:57-76 | every compiled moon rule with its gates parses for the tracker, and the parsed tree holds exactly when the record is met and every gate holds, if both programs say the same of the calls the gates may make |
| `Dnf.AndLists` | scripts/build_poptracker_pack.py:895-909 | the nested loops compute `AndDnfs`, shortcuts included |
| `Dnf.AndDnfsVal` | scripts/build_poptracker_pack.py:895-909 | the result is conjunction if and only if the shortcut does not meet an empty list whose partner holds |
| `Dnf.DnfToAccessRules` | scripts/build_poptracker_pack.py:400-416 | the deduplicating loop computes `AccessRules` |
| `Dnf.RulesMeaning` | scripts/build_poptracker_pack.py:400-416 | with clean terms the comma-joined rules, split again by the tracker, hold exactly when some clause does; dropping clauses of equal sorted key loses nothing |
| `Dnf.RulesDistinct` | scripts/build_poptracker_pack.py:408-415 | no two shipped rules ask for the same terms the same number of times, in whatever order |
| `Dnf.SplitRulesVal` | scripts/build_poptracker_pack.py:836 | splitting clean rules gives a nonempty list that means the same |
| `PackRules.ParsedRank` | scripts/build_poptracker_pack.py:361-371 | an argument in a parsed tree has fewer tokens than the text parsed, so expanding nested `OptAll` ends |
| `PackRules.DnfMeaning` | scripts/build_poptracker_pack.py:294-397 | the normal form holds exactly when the tree does, inlined rule functions and item codes included |
| `PackRules.TermsOnce` | scripts/build_poptracker_pack.py:294-336 | no clause of a requirement names a term twice |
| `PackRules.SnakeWords` | scripts/build_poptracker_pack.py:394 | the helper of a name made of capitalised words is called by these words in lower case, joined by underscores |
| `PackRules.NeverFalse` | scripts/build_poptracker_pack.py:294-397 | a parsed requirement never becomes the empty list, and converting raises exactly on an ill-called `KingdomMoons` or an unparsable `OptAll` argument |
| `PackRules.RequirementTranslated` | scripts/build_poptracker_pack.py:273-416 | from string to access rules: nonempty, clean, and true exactly when the parsed tree is |
| `RegionPrereqs.BuildInbound` | scripts/build_poptracker_pack.py:430-434 | the edge-reversing loops list each region's parents, once per edge |
| `RegionPrereqs.Search.Compute` | scripts/build_poptracker_pack.py:435-471 | the memoised search with its cache and stack set computes `Explore`, terminates, and leaves the stack as it was |
| `RegionPrereqs.Search.BuildRules` | scripts/build_poptracker_pack.py:473 | the rules of all regions in table order, one cache shared |
| `RegionPrereqs.PrereqsSound` | scripts/build_poptracker_pack.py:421-473 | on every graph and valuation a region's rules hold whenever some path, from a region that is flagged or that none leads to, has every requirement on it met |
| `RegionPrereqs.PrereqsExact` | scripts/build_poptracker_pack.py:421-473 | when no nonempty set of regions, none flagged, has each led to by one in the set, they hold only then |
| `RegionPrereqs.LoopAlwaysOpen` | scripts/build_poptracker_pack.py:442-444 | on every such set whose own requirements hold, every region gets rules that hold, whatever leads into the set and whatever the table order |
| `RegionPrereqs.ExactlyWhenLoopless` | scripts/build_poptracker_pack.py:421-473 | a graph's shape is exact for all requirements and valuations if and only if it has no such set |
| `RegionPrereqs.LooplessIsRanked` | scripts/build_poptracker_pack.py:421-473 | having no such set is having ranks that fall along every edge the search follows |
| `RegionPrereqs.PrereqsMatchLogic` | apworld/smo_archipelago/Rules.py:229-269 | with roots that are the starting regions, and on that condition, a region's rules hold exactly when the logic's exit and location rules open a location there, for every way to tell which requirements hold that agrees with the clauses |
| `RegionPrereqs.FlaggedRoots` | apworld/smo_archipelago/Regions.py:12-25 | the regions the search begins at are those the logic starts from when some region is flagged and every one that none leads to is |
| `RegionPrereqs.CycleAlwaysOpen` | scripts/build_poptracker_pack.py:442-444 | two regions that only reach each other get no rules at all though no path leads in |
| `TrackerText.TextTranslated` | scripts/build_poptracker_pack.py:273-416 | requirement text without `!` whose chains have their `and`s first and whose answers are placed to be read as operands raises in neither program, and where the tracker says of each item and call in it what the state says, the clauses made of it hold exactly when the rule reader accepts it |
| `TrackerText.TextAdmitted` | scripts/build_poptracker_pack.py:273-416 | where the tracker admits no item or call in the text that the state does not, the clauses hold only when the rule reader accepts it |
| `TrackerText.HelperClauses` | scripts/build_poptracker_pack.py:392-397 | text that is one call without arguments of a name made of capitalised words becomes the one term that calls the helper of these words |
| `TrackerText.SandPeaceTerm` | poptracker/pack-src/scripts/logic.lua:94 | the peace of Sand is asked of `sand_peace` |
| `PackState.AutoTracker.Connect` | poptracker/pack-src/scripts/autotracking.lua:38-82 | a connection and every list of items received after it leave each moon with its count, each other item switched on exactly when received, and each option and the goal as the slot gives them, or as before where it does not |
| `PackState.NeedShown` | poptracker/pack-src/scripts/logic.lua:36-51 | the term for so many of an item holds exactly when that many were received and it is a moon or one is enough |
| `PackState.OptionShown` | poptracker/pack-src/scripts/logic.lua:55-61 | the option terms go by whether the option is true |
| `PackState.GoalShown` | poptracker/pack-src/scripts/logic.lua:63-67 | the goal term goes by the number of the goal |
| `PackState.ItemsTold` | scripts/build_poptracker_pack.py:693-729 | of every text over the pack's items and every state: no item term says more than the state, and all say as much if and only if each count above one is asked of a moon or not reached |
| `PackState.OneItemParts` | scripts/build_poptracker_pack.py:337-346 | a location that asks for one item is answered differently by the rule reader and the tracker exactly on a toggle of which two or more are asked for and held |
| `PackGates.MoonCodes` | poptracker/pack-src/scripts/logic.lua:77-88 | the codes the helper puts together are those of the kingdom's Power Moon and Multi-Moon, for every name with a code |
| `PackGates.CodeWords` | scripts/build_poptracker_pack.py:73-79 | the code of a name is its words and numbers in lower case with one underscore between two of them, whatever stands there in the name |
| `PackGates.GateShown` | poptracker/pack-src/scripts/logic.lua:77-90 | after every list of items received the helper holds exactly when three per Multi-Moon and one per Power Moon reach the number in the text |
| `PackGates.GateTold` | apworld/smo_archipelago/hooks/Rules.py:245-285 | in every state of a pool's moons, tracker and rule agree on a leave gate exactly when the credit reaches both the number in the text and the threshold of the seed or neither, so always when none is rolled for the kingdom |
| `PackGates.GateWritten` | scripts/build_poptracker_pack.py:217-251 | the text of a leave gate gives the tracker its kingdom and its number |
| `PackCaptures.OptAllTold` | scripts/build_poptracker_pack.py:361-371 | where the tracker's switch says whether the pool holds captures, its expansion of `OptAll` and the rule function's answer as the reader takes it say the same of every argument without parentheses |
| `PackCaptures.OptOneTold` | apworld/smo_archipelago/hooks/Rules.py:383-419 | likewise of `OptOne` on one name |
| `PackCaptures.YamlShown` | apworld/smo_archipelago/Rules.py:274-280 | the option calls go by the options of the slot |
| `PackCaptures.HelperAsked` | scripts/build_poptracker_pack.py:392-397 | a call of a helper with arguments asks the function named by its words, with these arguments trimmed |
| `PackCaptures.ValueCallNever` | poptracker/pack-src/scripts/logic.lua:244-248 | asking for a value of items shows nothing, whatever is received |
| `PackCaptures.CaptureTracked` | apworld/smo_archipelago/data/locations.json:3988-4004 | the texts of the capture locations that call `OptAll` are ones both programs read alike, whatever the other calls behind it splice as sealed operands |
| `RegionTable.BuildRegionPrereqs` | scripts/build_poptracker_pack.py:421-473 | from the table with its texts: the rules of every region, or an error exactly when some requirement raises |
| `RegionTable.RegionMatchesLogic` | apworld/smo_archipelago/Rules.py:229-269 | a region's rules hold whenever some list of regions of the table, each led to by the one before, starts at a starting region, ends there and has every requirement on it, put as text to the rule reader, accept the state; without looped regions only then. The tracker says of each item and call in the texts what the state says, and the search begins where the logic does |
| `RegionTable.RegionNeverLaxer` | apworld/smo_archipelago/Rules.py:229-269 | where the tracker admits no item or call that the state does not, and without looped regions, a region's rules hold only when the logic opens a location there |
| `TrackerLocations.OptionTerms` | scripts/build_poptracker_pack.py:838-846 | the option terms are those of the location's categories, each once |
| `TrackerLocations.LocationRules` | scripts/build_poptracker_pack.py:829-878 | building region, options, goal, festival and Talkatoo terms in order computes the rules of `LocationDnf` |
| `TrackerLocations.LocationMeaning` | scripts/build_poptracker_pack.py:829-878 | those rules are the conjunction of region access, own requirement, option gates, goal, festival and Talkatoo terms |
| `TrackerLocations.ExtrasMean` | scripts/build_poptracker_pack.py:838-873 | in the pack these terms ask for every option of the location's categories to be on, for the goal to be its own, for the goal to be the first when it is out of the festival, and for the Talkatoo mode to be off when it is blocked by it |
| `TrackerLocations.LocationMatchesLogic` | apworld/smo_archipelago/Rules.py:229-269 | over counts and rule functions: where the tracker says of each item and call in the texts what the state says, it shows every location whose exits on some path and whose own rule, all given as text to the rule reader, accept the state and whose extra terms hold; without looped regions it shows no other; the roots are the starting regions |
| `TrackerLocations.LocationNeverLaxer` | scripts/build_poptracker_pack.py:829-878 | where the tracker admits no item or call that the state does not, and without looped regions, it shows no location that the logic does not let be reached |
| `TrackerLocations.PackMatchesLogic` | poptracker/pack-src/scripts/autotracking.lua:38-82 | with the items as the autotracker keeps them after any list received: as far as the helpers admit no more than the rule functions, no location is shown out of logic; where the two agree and no text asks for two or more of a toggle so many of which are held, exactly those in logic are shown |
| `TrackerLocations.MoonRulesMatch` | scripts/build_poptracker_pack.py:273-416 | from moon records, gates and full gates through text and parser to access rules: nothing raises, and where the tracker says of each item and call in the text what the state says, they hold exactly when what the location asks for is met |
| `TrackerLocations.MoonRulesNeverLaxer` | scripts/build_poptracker_pack.py:273-416 | where it admits no more, the rules hold only when what the location asks for is met |
| `TrackerLocations.JaxiInputs` | scripts/compile_moon_logic.py:629-644 | the full gates that are shipped meet the conditions of `MoonRulesMatch` |
| `TalkatooOrder.FindSafePermutation` | apworld/smo_archipelago/talkatoo_order.py:175-205 | the loop that shrinks the list, grows the order and advances the oracle computes `Greedy` and has collected exactly the order |
| `TalkatooOrder.IsSphereSafe` | apworld/smo_archipelago/talkatoo_order.py:151-171 | the checking loop computes `WindowSafe` |
| `TalkatooOrder.GreedyExact` | apworld/smo_archipelago/talkatoo_order.py:175-205 | for every monotone oracle and every picks an order comes back if and only if a safe permutation exists, and it is one |
| `TalkatooOrder.EveryOrderPossible` | apworld/smo_archipelago/talkatoo_order.py:191-205 | every safe permutation is the outcome of some picks |
| `TalkatooOrder.ListingIrrelevant` | apworld/smo_archipelago/talkatoo_order.py:191-205 | the options are sorted before one is picked, so the order in which the locations are listed makes no difference |
| `TalkatooOrder.SafeIsWindowSafe` | apworld/smo_archipelago/talkatoo_order.py:151-171 | a safe order passes the check for every window of at least 1, and window 1 accepts nothing else |
| `TalkatooOrder.WindowMeans` | apworld/smo_archipelago/talkatoo_order.py:151-171 | the check asks that at every point of the order something among the next `window` is reachable with what comes before |
| `TalkatooOrder.CollectPools` | apworld/smo_archipelago/talkatoo_order.py:112-148 | the grouping holds exactly the nonempty pools, in table order, each kingdom once |
| `TalkatooOrder.PoolExactly` | apworld/smo_archipelago/talkatoo_order.py:112-148 | a location is in a kingdom's pool exactly when it holds no progression name and no victory, and its name is the kingdom, letters, blanks and apostrophes, then a colon and a rest, the kingdom not being Capture |
| `TalkatooOrder.PoolHolds` | apworld/smo_archipelago/talkatoo_order.py:112-148 | the pools hold the names of exactly such locations |
| `TalkatooOrder.PoolInOrder` | apworld/smo_archipelago/talkatoo_order.py:112-148 | a pool keeps the order of the table |
| `TalkatooOrder.NameParts` | apworld/smo_archipelago/talkatoo_order.py:93-115 | such a name splits into its trimmed kingdom and its trimmed rest |
| `TalkatooOrder.Project` | apworld/smo_archipelago/talkatoo_order.py:346-355 | each kingdom's list is the global order restricted to it |
| `TalkatooOrder.OntoPartitions` | apworld/smo_archipelago/talkatoo_order.py:346-355 | every moon occurs in its kingdom's list as often as in the order |
| `TalkatooOrder.NeverDeadlocks` | apworld/smo_archipelago/talkatoo_order.py:305-355 | for every run and every set of collected moons short of all, the earliest one left is reachable and stands first among those left in its own kingdom |
| `TalkatooOrder.BuildOrder` | apworld/smo_archipelago/talkatoo_order.py:274-360 | the whole build raises exactly when no safe order of the pool exists, else returns the projections of one |
| `KingdomGates.PoolGateCapacities` | apworld/smo_archipelago/kingdom_gates.py:29-44 | a kingdom's capacity is three per item named as its Multi-Moon and one per item named as its Power Moon |
| `KingdomGates.RollKingdomGates` | apworld/smo_archipelago/kingdom_gates.py:52-97 | filling the bounds and walking in place computes `Rolled` |
| `KingdomGates.GatesSafe` | apworld/smo_archipelago/kingdom_gates.py:52-97 | for every random sequence each gate is at least 1, within 5 of vanilla and no more than its capacity, or where the capacity is below all of these the capacity itself but at least 1, and the starting total is kept |
| `KingdomGates.RolledTotal` | apworld/smo_archipelago/kingdom_gates.py:60-68 | that total is the sum of the vanilla gates, each cut to its capacity but at least 1 |
| `KingdomGates.VanillaTotal` | apworld/smo_archipelago/kingdom_gates.py:60-68 | with capacities of at least vanilla the total is the vanilla total |
| `KingdomGates.EveryTablePossible` | apworld/smo_archipelago/kingdom_gates.py:47-97 | every table of such gates with that total is rolled by some random sequence |
| `KingdomGates.LastStep` | apworld/smo_archipelago/kingdom_gates.py:47-97 | the budget is 16 steps for each kingdom that is not frozen: the last of them still counts and none after it |
| `KingdomGates.RolledGateOpens` | apworld/smo_archipelago/hooks/Rules.py:245-285 | the leave rule for a rolled gate holds once every moon of a kingdom that has any is received |
| `EntranceRemap.BuildEntrancePool` | apworld/smo_archipelago/entrance_logic.py:382-417 | the pool is exactly the round-trippable subareas that are not excluded, in order |
| `EntranceRemap.CompileStageRemaps` | apworld/smo_archipelago/entrance_logic.py:455-513 | the loop computes `Rows` |
| `EntranceRemap.RowsExactly` | apworld/smo_archipelago/entrance_logic.py:455-513 | of any pairs the rows are exactly the complete ones that lead from a door's stage into the interior, or from the interior to where the door's own interior lets out, for pairs of two known names that differ |
| `EntranceRemap.LookupEntranceRemap` | switch-mod/src/ap/ApState.cpp:435-485 | the two searches find the first entry row by destination, else the first exit row by current stage; what that means from every stage is said by `EnterFrom` |
| `EntranceRemap.ShuffledPool` | apworld/smo_archipelago/hooks/World.py:111-118 | every permutation of a pool with distinct stages is a shuffle in the sense of the theorems below |
| `EntranceRemap.KeysUnique` | apworld/smo_archipelago/entrance_logic.py:455-513 | keys are unique within each kind and each door that leads elsewhere has exactly one entry row |
| `EntranceRemap.EnterArrives` | switch-mod/src/hooks/EntranceShuffleHook.cpp:201-250 | entering door D arrives at the entry of the interior behind it |
| `EntranceRemap.EnterFrom` | switch-mod/src/ap/ApState.cpp:435-485 | from every stage but the door's own, shuffled interiors included: entering D arrives at the interior behind it if and only if D does not lead to itself, or no exit row is keyed on the current stage, or that row leads to the same place; otherwise the player comes out where the exit row leads |
| `EntranceRemap.NestedDoorMissed` | switch-mod/src/ap/ApState.cpp:435-485 | a door inside a swapped interior that leads to itself: entering it throws the player out of the interior |
| `EntranceRemap.ReloadStays` | switch-mod/src/hooks/EntranceShuffleHook.cpp:201-250 | a change to the current stage is left alone |
| `EntranceRemap.LeaveLeads` | switch-mod/src/hooks/EntranceShuffleHook.cpp:201-250 | leaving by the pipe leads to D's own exterior when D has a full exit or leads to itself, otherwise to the interior's |
| `EntranceRemap.StrandedExactly` | apworld/smo_archipelago/entrance_logic.py:357-380 | no run through the doors comes out in a foreign stage if and only if every pair comes home |
| `EntranceRemap.PooledYetStranding` | apworld/smo_archipelago/entrance_logic.py:357-380 | two subareas the filter pools whose swap strands a player |
| `BundledTree.Cache.Resolve` | apworld/smo_archipelago/_setup/build.py:157-378 | an undisturbed call keeps the invariant and ends with the whole tree of the archive, or leaves the cache alone when the archive has nothing for it; a remembering one changes nothing |
| `BundledTree.ExtractEntries` | apworld/smo_archipelago/_setup/build.py:274-306 | the loop over archive entries computes `UnpackAll` |
| `BundledTree.WriteEntry` | apworld/smo_archipelago/_setup/build.py:277-301 | the loop over the prefixes, in which the first that fits decides, writes the entry as `Unpack` says |
| `BundledTree.WholeHoldsEvery` | apworld/smo_archipelago/_setup/build.py:271-306 | the extracted tree holds every wanted file with its contents and nothing else, if no two land on one path |
| `BundledTree.Lands` | apworld/smo_archipelago/_setup/build.py:268-300 | a file below the archive's setup directory lands under its own path, one below its data directory under data, any other nowhere |
| `BundledTree.WholeHasDirs` | apworld/smo_archipelago/_setup/build.py:271-306 | the directories of the tree are exactly those on the way to a wanted entry |
| `BundledTree.IntactExactly` | apworld/smo_archipelago/_setup/build.py:214-222 | the tree looks intact exactly when a wanted file, or a directory on the way to a wanted entry, lies below one of the three directories |
| `BundledTree.CacheNeverPoisoned` | apworld/smo_archipelago/_setup/build.py:190-378 | over every run of upgrades, extractions, errors and crashes, each possible at every step, also between reading the archive's time and opening it, a tree the fast path accepts is the whole tree of the archive in place, and so is a remembered one unless the archive was replaced after its time was read |
| `BundledTree.SameTimeFools` | apworld/smo_archipelago/_setup/build.py:190-231 | at every point of every run, replacing the archive gets the wrong tree accepted if and only if the new one carries the recorded time and unpacks to something else |
| `FillerPool.AdjustFillerItems` | apworld/smo_archipelago/__init__.py:452-491 | topping up appends the chosen traps and then filler; cutting computes `Cut` |
| `FillerPool.ExtraCount` | apworld/smo_archipelago/__init__.py:455-468 | for every trap percentage up to 100 exactly the missing items are added |
| `FillerPool.TrapShare` | apworld/smo_archipelago/__init__.py:455-468 | of the items added the trap percentage, rounded down, are traps and come first, none where there are none to choose from; the rest is filler |
| `FillerPool.EveryDraw` | apworld/smo_archipelago/__init__.py:455-468 | any traps can be drawn, in any order and with repetitions |
| `FillerPool.CutSize` | apworld/smo_archipelago/__init__.py:469-489 | the cut pool has the location count, or the kept items when there are more |
| `FillerPool.ConservedExactly` | apworld/smo_archipelago/__init__.py:469-489 | every run keeps the multiset of kept items if and only if none of them stands before an item of its name that may be cut |
| `FillerPool.DemotedCopyCosts` | apworld/smo_archipelago/__init__.py:487 | on a list with a kept item before a demoted copy the kept one goes, so the condition is needed; the world passes no such list |
| `PoolOrder.InOrderExactly` | apworld/smo_archipelago/__init__.py:469-489 | in every run exactly the popped items leave, and each is of the lowest class left in the pool, if and only if no item stands before one of its name of a lower class |
| `PoolOrder.BuildPool` | apworld/smo_archipelago/__init__.py:228-244 | creating every copy by name and the festival trim give each item the class of its name and keep, in their numbers, exactly the names that are not dropped; without the festival goal nothing is dropped |
| `PoolOrder.BuiltKinds` | apworld/smo_archipelago/__init__.py:291-322 | in every built pool an item is kept if and only if its name is flagged progression or skip-balancing and is no Metro moon under the festival goal; below that useful ranks before trap, and a Metro moon under that goal is filler |
| `PoolOrder.BuiltPoolsConserve` | apworld/smo_archipelago/__init__.py:291-322 | every pool whose items have the class of their name, as all have when the pool is adjusted, keeps its kept items, loses exactly the popped ones and loses them in order |
| `PoolOrder.ProgressionStays` | apworld/smo_archipelago/__init__.py:469-489 | cutting such a pool keeps the multiset of items with such names |
| `PoolOrder.AdjustingKeepsProgression` | apworld/smo_archipelago/__init__.py:452-491 | so does every run of the adjustment as a whole |

## Left out

- `checkRequireDictForArea` of Rules.py: a legacy form of requirements.
- Answers in Rules.py that are no chains (unbalanced parentheses, further calls): outside the theorems' domain, though the readers are modelled on all strings.
- White space is space, tab, line feed and carriage return; letters and digits are ASCII.
- More than 16 calls in one door requirement: the reader stops splicing; no theorem says what it then answers.
- `RegionPrereqs.Search.Compute`: takes each region's requirement already as a list of clauses; parsing, and the error of one that does not parse, are in `RegionTable.BuildRegionPrereqs`, which parses all of them first.
- `RuleReader.CheckRequireString`: category, `all`, `half` and percent counts, legacy forms, raise here.
- `OptItems.OptAllRule`: the argument holds no `)`, as the reader's pattern for calls sees to; calls inside an argument are therefore not modelled.
- `TrackerLocations.PackMatchesLogic`: that the tracker's peace and movement helpers agree with the rule functions is assumed; it is proved of leave gates (`GateTold`), `OptAll` (`OptAllTold`) and `OptOne` (`OptOneTold`), and the option calls are shown to go by the slot (`YamlShown`).
- PopTracker is not part of this model: amounts are not cut off at `max_quantity`, and nobody clicks items by hand; nor are the filler item and the derived credit items of the pack, which no access rule names.
- `MoonTable.CompileTable`: writing the rules back into the location list, the goal location, which gets the cave text that `CaveReads` reads, and the review sheet.
- `PackParser.ParseRequires`: the list form of a requirement is not modelled, only strings and their absence.
- Kingdom grouping, section names, map pins and the order of kingdoms in the pack: formatting.
- `location_out_of_festival_scope`, `location_blocked_by_talkatoo` and the goal number of a victory location are inputs of the location model.
- The moon, item and region data: all records, pools and graphs are quantified over instead.
- `KingdomMoons.LeaveGate`: the loop alone, for a threshold already chosen; stripping, the number check and the rolled table are in `KingdomMoonsRule`.
- `TalkatooOrder.Oracle`: the state is the multiset of collected locations; the sweep that precedes it is the arbitrary starting state, and monotonicity is assumed where named.
- Location names with line breaks, which the prefix expression would treat differently.
- `EntranceRemap.LookupEntranceRemap`: searches the full list of rows, unchanged while it runs; the console's 256-row table, its seqlock and its buffers are not modelled.
- Fall-through of stage changes inside a shuffled interior that are neither doors nor its exit.
- Files of the archive named like the cache marker, and a tree changed from outside the program.
- `BundledTree.Upgrade`: an upgrade installs a later modification time and replaces the file, so that an archive already opened is read to its end; one overwritten in place while it is read is not modelled.
- `BundledTree.ExtractEntries`: creating directories is part of `Ancestors`; file modes and the size check after each file are not modelled.
- Archipelago's `Item` class is not part of this model; that items of one player are equal when their names are is taken from how Rules.py:75 counts them.
- Creating trap and filler items by name: they are inputs of `FillerPool.TopUp`.
- Key-file normalising and control-code stripping in extract_shine_map.py: byte-by-byte formatting that no other part depends on.
- Installers, deployment, the launcher, romfs readers, and JSON, PNG and zip emission.
