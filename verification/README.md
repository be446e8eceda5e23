# The config evaluator, verified

taocpp/config reads files of definitions into a tree of *concats*, lists of summands that are still
to be added up, rewrites the tree until nothing changes, checks and strips it, and turns it into a
plain value in which every node knows its own key. This project models that evaluator in Dafny and
proves what the phases guarantee, one by one and together.

    dafny verify dfyconfig.toml

## Layout

- `Tree` is the intermediate tree. C++ owns it by value (`std::list`, `std::map`, `std::variant`),
  so it is a datatype; a pass is a class that holds the root and the change counter and replaces
  subtrees in loops, as the code does. Each pass method is proved against a function.
- `Phase1`, `Parser`, `ParserLaws`, `ParserMachine`, `Generations`, `Marks`: the actions of the parser, from
  a syntax tree. `ParserMachine.Machine` has the prefix, suffix, generation counter and root of the
  code and writes along absolute paths; `Parser` also has the same as structural recursion.
- `Additions`, `Totals`, `Algebra`, `NormalForm`, `Merging`, `Forming`, `History`, `Clashes`: summands,
  merging, what definitions mean, and when additions throw. A double is opaque: a sum of doubles
  only records which doubles were added and how they were bracketed.
- `Asterisks`, `Expansion`, `Stars`, `Wildcards`: wildcards.
- `Access`, `Walks`, `Scoping`, `References`, `Copying`, `Statistics`, `Stability`: lookup and copying.
- `Functions`, `Calls`, `Invocations`, `Callless`: function calls other than `parse`.
- `Measure`, `Descent`, `Progress`, `Everything`, `Runs`, `Outside`: the fixed-point loop, why it
  ends and what it keeps.
- `Settling`, `Independence`, `Orders`: when the order of the passes does not matter, and when it does.
- `Phase3`, `Phase5`, `Results`, `Pipeline`, `Deletions`, `Json`, `Flat`: what comes out at the end.
- `Numbers`, `Keys`: number literals and the text of keys.
- `Samples`, `Boundaries`: files on which laws end. `Names`, `Sums`: sorted names and sums over children.

## Main results

1. Phase 2 terminates for every tree and for any order of its passes (`Everything.EveryRunSettles`,
   `Everything.Phase2Everything`). The measure counts asterisks per nesting height, then references
   and calls, then entries, and is compared at the highest level that differs.
2. In a tree without function calls a resolved reference keeps its target and its content for the
   rest of the loop, so a copy always equals what the reference denotes in the end
   (`Runs.ResolvedToTheEnd`, `Runs.CopiesAreTrueInTheEnd`). In any tree this holds of targets that
   lie in no call's arguments (`Outside.ResolvedOutsideForGood`,
   `Outside.CopiesOutsideAreTrueInTheEnd`), and of the others it need not
   (`Orders.CallsMoveTargets`).
3. Without calls and asterisks phase 2 ends with the same tree for every order of its passes, up to
   the bracketing of sums of doubles (`Independence.OrderIsIrrelevant`). With calls or asterisks it
   need not, and whether it throws may depend on the order (see the findings below and
   `Orders.OrderDecidesOnErrors`).
4. Additions may be made anywhere and in any order, up to the bracketing of sums of doubles
   (`NormalForm.AdditionsAreConfluent`); in one list, as terms, the order cannot be observed exactly
   when no three doubles stand in a row (`Algebra.OrderIsObservable`).
5. Writing definitions in place is merging them (`Merging.BuildingIsMerging`), and throws exactly
   when merging does, but for errors that are overwritten (`Clashes.WritingOnThrowsLess`). An
   assignment forgets everything before it (`History.OverwriteForgetsHistory`).
6. A reference is decided by the innermost scope on its path (`Scoping.InnermostScopeDecides`), and
   every outcome of a lookup by the summand at which it stops (`Walks.FoundExactly` and its
   companions).
7. Flat configs are evaluated in dependency order (`Flat.FlatConfigsAreEvaluated`).
8. JSON files evaluate to themselves (`Json.JsonIdentity`); the assertions of phase 5 never fail
   (`Pipeline.Phase5NeverFails`); the keys of all values are correct
   (`Phase5.AnnotatedKeysAreCorrect`); a result shows exactly what is neither implicit, temporary nor
   empty in the tree in which phase 2 has ended (`Results.ResultReports`).
9. The flags of every member can be read off the definitions of a file (`Marks.FlagsBySyntax`), and a
   run of summands of one kind is added up from first to last (`Totals.RunBetween`).
10. Decimal literals are exact up to the last kept digit (`Numbers.Number`), and keys survive
    printing and parsing exactly when their text can be read at all (`Keys.KeyRoundTrip`).

Four findings about the code. The result of a file may depend on the order of the four passes within
a turn, which is open (the operands of `|` in include/tao/config/internal/phase2_everything.hpp:18
may be evaluated in any order), although src/test/config/independence.cpp expects the same result:
with `a = (default [ 7 ])` the value of `x = (a.0)` is `[ 7 ]` or `7`
(`Samples.CallFileHasTwoResults`), and after `a.b = 1` and `c = (a)` the assignment `c.* = 2` reaches
`c.b` or does not (`Samples.StarFileHasTwoResults`).

A reference whose first part is an index fails an assertion exactly when every scope on its own path
is a single array without that element, as then the search reaches the root
(`Scoping.IndexSearchFails`); in `a = [ 1, (0) ]` the element is found (`Scoping.IndexMayBeFound`).

Deleting a path of which nothing exists makes no difference unless a reference may begin with its
first name (`Deletions.DeletingNothing`): such a reference finds the members that the deletion has
made, so that `x = (q)` is an error, but not when `q.y = delete` is added
(`Boundaries.DeletionIsSeen`).

An array element keeps its temporary flag when an asterisk to the right replaces its content, while
the member of an object loses it; this is the only way in which the flags of the two forms differ
(`Stars.ArraysAgreeWithObjects`), and a file can do it (`Samples.ReplacedElementStaysTemporary`).

Where the documentation and the code differ the model follows the code: doc/Writing-Config-Files.md
(Nested References) lets any integer be a part of a reference, but the code raises an error for
signed ones (include/tao/config/internal/phase2_references.hpp:92-107, `References.ResolvePart`).

## Model

| member | source | states |
|---|---|---|
| `Additions.Phase2Additions.ProcessPair` | include/tao/config/internal/phase2_additions.hpp:50-121 | one step of the fold: which two neighbours throw, which are left alone and what any other two become, mixed signed and unsigned numbers included |
| `Additions.Phase2Additions.AddNeighbours` | include/tao/config/internal/phase2_additions.hpp:45-125 | the in-place fold with its erasures yields the left-to-right sum of the list, throws exactly when two neighbours clash, and counts a change exactly when the list is a different one |
| `Additions.Phase2Additions.ProcessConcat` | include/tao/config/internal/phase2_additions.hpp:40-126 | the pass over a subtree is its bottom-up sum or an error, exactly when some neighbours in it clash |
| `Additions.Phase2Additions.ProcessObject` | include/tao/config/internal/phase2_additions.hpp:188-205 | the member-wise loop with its `remove`, `temporary` and splice rules is the merge of the two objects |
| `Additions.Phase2Additions.Process` | include/tao/config/internal/phase2_additions.hpp:28-34 | the whole pass; zero changes means an unchanged tree and conversely |
| `Algebra.SumOfNumbers` | include/tao/config/internal/phase2_additions.hpp:60-79 | a sum of two integers is the mathematical sum modulo 2^64, signed exactly when an operand is |
| `Algebra.NumbersAssociative` | include/tao/config/internal/phase2_additions.hpp:60-79 | three integers may be added in either order, whatever their signedness |
| `Algebra.MergeAssociative` | include/tao/config/internal/phase2_additions.hpp:188-205 | the object merge is associative |
| `Algebra.MergeUnit` | include/tao/config/internal/phase2_additions.hpp:188-205 | the empty object is a unit of the merge on both sides |
| `Algebra.DoublesAssociate` | include/tao/config/internal/phase2_additions.hpp:83-88 | doubles are rounded when they are added: as terms the two bracketings of three doubles differ, so their values do for some doubles, while both add the same doubles in the same order |
| `Algebra.JoinAssociative` | include/tao/config/internal/phase2_additions.hpp:48-125 | three summands of one class may be bracketed either way, up to the bracketing of sums of doubles; as terms the two results are equal if and only if the summands are no doubles |
| `Algebra.AdditionOrderIsIrrelevant` | include/tao/config/internal/phase2_additions.hpp:48-125 | adding any two ready neighbours first changes neither whether the list throws nor its sum, up to the bracketing of doubles, and nothing at all unless it takes two doubles away from a third |
| `Algebra.BracketingIsIrrelevant` | include/tao/config/internal/phase2_additions.hpp:48-125 | every maximal sequence of single additions in a list ends with the sum that the pass computes, up to the bracketing of doubles |
| `Algebra.OrderIsObservable` | include/tao/config/internal/phase2_additions.hpp:48-125 | for one list, as terms: all orders give the same result if and only if no three doubles stand in a row, and with three in a row they differ for some values of the doubles |
| `Algebra.CollapseLeavesNothing` | include/tao/config/internal/phase2_additions.hpp:48-125 | after the fold no two neighbours can be added any more |
| `Totals.NeighboursByKind` | include/tao/config/internal/phase2_additions.hpp:48-125 | the table of the fold by kinds: two neighbours are added exactly when both are texts, binary data, integers, doubles, plain arrays or objects, and throw exactly when the right one is null or a boolean or both are ready and of different kinds |
| `Totals.ReadySummandsThrow` | include/tao/config/internal/phase2_additions.hpp:48-125 | two or more ready summands throw unless all of them are of one kind |
| `Totals.RunIsAddedUp` | include/tao/config/internal/phase2_additions.hpp:58-121 | what a sum is: a run of texts becomes the text of all characters from first to last, and likewise binary data, array elements, the leaves of doubles, integers modulo 2^64 in their 64-bit range, and objects |
| `Totals.RunBetween` | include/tao/config/internal/phase2_additions.hpp:45-125 | the same for a run anywhere in a list, while what stands before and behind it is added up on its own |
| `Totals.MergedMembers` | include/tao/config/internal/phase2_additions.hpp:188-205 | under each name a run of objects holds the summands of all its members of that name, from the last one on that replaces the others, with the flags that go with them |
| `Totals.SoundEverywhere` | include/tao/config/internal/phase2_additions.hpp:40-126 | the pass throws exactly when two neighbours clash in some concat anywhere in the tree, arguments of calls and asterisks included |
| `Orders.TwoObjects` | include/tao/config/internal/phase2_additions.hpp:40-47 | children come first: one pass merges two objects but does not yet add up what has met in their members |
| `NormalForm.PassKeepsNormal` | include/tao/config/internal/phase2_additions.hpp:40-126 | an additions pass never changes the fully added-up form of a tree, in which the bracketing of doubles is forgotten |
| `NormalForm.FixedIsNormal` | include/tao/config/internal/phase2_additions.hpp:40-126 | a tree that the pass leaves alone is fully added up, up to the bracketing of doubles |
| `NormalForm.NormalCongruence` | include/tao/config/internal/phase2_additions.hpp:40-126 | the fully added-up form of a list of summands depends on its halves only through theirs |
| `NormalForm.ThinIsExact` | include/tao/config/internal/phase2_additions.hpp:83-88 | trees that are equal up to the bracketing of doubles are equal where at most two doubles have met in any sum |
| `NormalForm.AdditionsAreConfluent` | include/tao/config/internal/phase2_additions.hpp:40-126 | any two maximal runs of single additions anywhere in a tree end with the same tree up to the bracketing of doubles, and with the very same tree where at most two doubles have met in any sum |
| `Expansion.Phase2Asterisks.ProcessAsterisk` | include/tao/config/internal/phase2_asterisks.hpp:87-158 | one asterisk in place: both loops, the set of names, the error for functions, erasure or replacement by an object, and where the iteration goes on |
| `Expansion.Phase2Asterisks.ProcessArrayAndAsterisk` | include/tao/config/internal/phase2_asterisks.hpp:172-182 | the elements to the left of an asterisk after the loop |
| `Expansion.Phase2Asterisks.ProcessAsteriskAndArray` | include/tao/config/internal/phase2_asterisks.hpp:160-170 | the elements to the right of an asterisk after the loop |
| `Expansion.Phase2Asterisks.ProcessConcat` | include/tao/config/internal/phase2_asterisks.hpp:37-85 | the pass over a concat and what is below it, with a change counted exactly when something is different |
| `Expansion.StarDescends` | include/tao/config/internal/phase2_asterisks.hpp:87-158 | expanding an asterisk lowers the number of asterisks at its height and raises none above, although it copies its content |
| `Stars.StarAmongObjects` | include/tao/config/internal/phase2_asterisks.hpp:87-158 | an asterisk among objects, expanded and merged, leaves under each name that was there, and under no other, the left part, then its own content, then the right part |
| `Stars.StarredMember` | include/tao/config/internal/phase2_additions.hpp:188-205 | the remove rules for the three parts under a name, with the summands and all flags |
| `Stars.ArraysAgreeWithObjects` | include/tao/config/internal/phase2_asterisks.hpp:160-182 | an element next to an asterisk gets the same summands and remove flag as a member with the same content would, for every array and position; array lengths stay; the temporary flags agree if and only if no asterisk to the right that is not temporary removes a temporary element |
| `Samples.ReplacedElementStaysTemporary` | include/tao/config/internal/phase2_asterisks.hpp:172-182 | a file, as the parser builds it, on which the temporary flags of the two forms differ |
| `Wildcards.StarsAreGone` | include/tao/config/internal/phase2_asterisks.hpp:36-43 | after the pass no asterisk is left next to the summands of a concat |
| `Wildcards.StarAndCallThrow` | include/tao/config/internal/phase2_asterisks.hpp:103-106 | an asterisk on either side of a call is an error |
| `Wildcards.NoCallNoError` | include/tao/config/internal/phase2_asterisks.hpp:87-158 | without calls the pass never throws |
| `Wildcards.CrowdedIsLeft` | include/tao/config/internal/phase2_asterisks.hpp:59-74 | several summands without an asterisk are left as they are, whatever is below them |
| `Wildcards.FixedIsCleared` | include/tao/config/internal/phase2_asterisks.hpp:36-74 | a tree that the pass leaves alone has no asterisk that can be reached through single arrays and objects |
| `References.SitesAreTheReferences` | include/tao/config/internal/phase2_references.hpp:31-57 | the traversal visits each reference of the tree that is not inside an asterisk, once, and nothing else |
| `References.SitesInOrder` | include/tao/config/internal/phase2_references.hpp:31-57 | they are visited in the order of the text: summands and elements in sequence, members by name |
| `Names.LexByFirstDifference` | include/tao/config/internal/object.hpp:52-52 | members are visited in the order of their names: the first difference decides, and a name comes before its continuations |
| `References.NestedReference` | include/tao/config/internal/phase2_references.hpp:64-112 | a nested reference stands for the name or index that it denotes, wherever it occurs; without a target the whole reference waits, and any other target is an error |
| `References.ReplaceKeeps` | include/tao/config/internal/phase2_references.hpp:43-57 | overwriting a reference leaves every other reference where it was |
| `References.VisitsFindReferences` | include/tao/config/internal/phase2_references.hpp:43-57 | although the pass rewrites the tree that it looks targets up in, every visit finds its reference unchanged |
| `Copying.Phase2References.Process` | include/tao/config/internal/phase2_references.hpp:31-57 | the pass in place on the live tree is the sequence of visits, with changes exactly when the tree is different |
| `Copying.Phase2References.ProcessConcat` | include/tao/config/internal/phase2_references.hpp:43-57 | the same for the part of the pass below one concat, with the key as prefix |
| `Copying.TargetIsPrimitive` | include/tao/config/internal/phase2_access.hpp:130-139 | what a lookup returns has nothing left to do |
| `Copying.CopyIsSafe` | include/tao/config/internal/phase2_references.hpp:45-55 | the assertions around a copy never fail: the target has at most one summand and holds no reference, and the place where the lookup finds it neither contains the concat being rewritten nor lies in it |
| `Copying.VisitDecides` | include/tao/config/internal/phase2_references.hpp:43-57 | a visit throws exactly when the lookup fails, and overwrites exactly when the target has a summand |
| `Copying.ReplaceDescends` | include/tao/config/internal/phase2_references.hpp:45-55 | a copied target, however large, lowers the number of references and adds no asterisk |
| `Copying.UnchangedMeansBlocked` | include/tao/config/internal/phase2_references.hpp:43-57 | a pass that changes nothing means that every single reference is blocked |
| `Access.AccessLoop` | include/tao/config/internal/phase2_access.hpp:140-161 | the loop over the scopes, innermost first, with the outcome "not ready" ending it |
| `Walks.FoundExactly` | include/tao/config/internal/phase2_access.hpp:130-138 | a lookup is the walk along the path through single summands: it finds a target exactly when the walk reaches the end of the path at a finished concat |
| `Walks.MissingExactly` | include/tao/config/internal/phase2_access.hpp:28-113 | it goes on to the next scope exactly when the walk stops within the prefix at an empty concat, at an array or asterisk, or for a name at an object |
| `Walks.WaitingExactly` | include/tao/config/internal/phase2_access.hpp:28-138 | it waits exactly when the walk stops at an unfinished target, at several summands, at an empty concat beyond the prefix, or for a name at a reference |
| `Walks.FailsExactly` | include/tao/config/internal/phase2_access.hpp:28-113 | each of the four errors, exactly, in terms of the summand at which the walk stops; there are no others |
| `Boundaries.IndexAcrossReferenceThrows` | include/tao/config/internal/phase2_access.hpp:109-110 | indexing across a reference is an error at once, in the first turn of the loop and whatever the order of the passes: `x = (y.0)`, `y = (z)`, `z = [ 1 ]` |
| `Scoping.AnchoredIsNeverMissing` | include/tao/config/internal/phase2_access.hpp:28-113 | once `down` is negative a lookup never falls back to an outer scope |
| `Scoping.InnermostScopeDecides` | include/tao/config/internal/phase2_access.hpp:140-161 | for a reference that starts with a name the outcome is fixed by the innermost scope on its own path that has the name, or the lookup waits when a scope on that path has several summands |
| `Scoping.SiteHasOwnKey` | include/tao/config/internal/phase2_references.hpp:114-143 | the key with which a reference is visited is a path to it in the tree, as the scoping law needs |
| `Scoping.IndexSearchFails` | include/tao/config/internal/phase2_access.hpp:146-149 | a reference that starts with an index fails the assertion on the name if and only if every scope on its own path is a single array without that element |
| `Scoping.IndexMayBeFound` | include/tao/config/internal/phase2_access.hpp:94-101 | an input on which such a reference finds its element, and one on which it fails |
| `Statistics.CountersDecide` | include/tao/config/internal/statistics.hpp:36-111 | the four counters are zero exactly when the subtree has no reference, asterisk, function or pending addition |
| `Statistics.Statistics.Count` | include/tao/config/internal/statistics.hpp:88-96 | the traversal adds to every counter the number of nodes of its kind |
| `Calls.Phase2Functions.Process` | include/tao/config/internal/phase2_functions.hpp:31-37 | the functions pass without `parse`, arguments first, with a change counted exactly when the tree is different |
| `Calls.Phase2Functions.ProcessEntry` | include/tao/config/internal/phase2_functions.hpp:51-99 | one entry: arguments, then the call, an unknown name or failing call as an error |
| `Calls.DefaultMovesArgument` | include/tao/config/internal/function_implementations.hpp:32-72 | `default` returns a summand of one of its arguments |
| `Invocations.DefaultIsFirst` | include/tao/config/internal/function_implementations.hpp:32-72 | the first argument that is not null decides: it is the result if it is ready, otherwise the call waits; only nulls, or nothing, is an error |
| `Invocations.CallIsMade` | include/tao/config/internal/phase2_functions.hpp:60-98 | a call is made with its arguments as the pass has left them, and is replaced, kept, or an error; an unknown name is an error |
| `Invocations.FirstFailure` | include/tao/config/internal/phase2_functions.hpp:60-68 | of several arguments that fail the first one decides, before the call itself |
| `Calls.CallDescends` | include/tao/config/internal/phase2_functions.hpp:82-99 | a call that is replaced by its result makes progress, `default` with whole subtrees included |
| `Descent.EveryDescentIsFinite` | include/tao/config/internal/phase2_everything.hpp:21-26 | counters per level, compared at the highest level that differs, cannot decrease for ever |
| `Progress.AdditionsAdvance` | include/tao/config/internal/phase2_additions.hpp:40-126 | an additions pass that changes something lowers the measure |
| `Expansion.ExpandAdvances` | include/tao/config/internal/phase2_asterisks.hpp:46-85 | an asterisks pass that changes something lowers the measure |
| `Copying.VisitsAdvance` | include/tao/config/internal/phase2_references.hpp:43-57 | any number of visits that change something lowers the measure |
| `Calls.CallAllAdvances` | include/tao/config/internal/phase2_functions.hpp:44-99 | a functions pass that changes something lowers the measure |
| `Everything.PassAdvances` | include/tao/config/internal/phase2_everything.hpp:16-19 | each of the four passes leaves the tree alone or lowers the measure |
| `Everything.EveryRunSettles` | include/tao/config/internal/phase2_everything.hpp:16-26 | for every tree and every endless schedule of the passes, fair or not, there is a point from which nothing changes any more |
| `Everything.Run` | include/tao/config/internal/phase2_everything.hpp:16-19 | one pass on a fresh pass object, and a change count of zero exactly when the tree is the same |
| `Everything.Iteration` | include/tao/config/internal/phase2_everything.hpp:16-19 | all passes run in each turn, and no pass counts a change exactly when the tree is the same |
| `Everything.Phase2Everything` | include/tao/config/internal/phase2_everything.hpp:21-26 | the loop ends, with the first tree on which no pass has anything to do, or with an error of a pass |
| `Callless.PassesStayFree` | include/tao/config/internal/phase2_functions.hpp:44-80 | in a tree without function calls the functions pass changes nothing, and no pass makes a call; the same for asterisks and their pass, as long as no call runs |
| `Runs.PassIsSteady` | include/tao/config/internal/phase2_everything.hpp:16-19 | no pass moves or changes anything that a lookup has found; of the functions pass this holds on trees without calls |
| `Runs.RunIsSteady` | include/tao/config/internal/phase2_everything.hpp:16-26 | the same over whole runs: on trees without calls for every schedule of all four passes, and on all trees while no functions pass runs |
| `Runs.ResolvedForGood` | include/tao/config/internal/phase2_access.hpp:140-161 | in the same runs a reference that is resolved once has the same target with the same content ever after, nested references included |
| `Runs.ResolvedToTheEnd` | include/tao/config/internal/phase2_everything.hpp:21-26 | for the loop of phase 2 on a tree without calls: what a reference finds at any moment it also finds in the tree in which the loop ends |
| `Runs.CopiesStayTrue` | include/tao/config/internal/phase2_references.hpp:43-57 | in the same runs the value copied at any moment of a references pass is what the same reference denotes in every later tree |
| `Runs.CopiesAreTrueInTheEnd` | include/tao/config/internal/phase2_everything.hpp:16-26 | for the loop of phase 2 on a tree without calls: a value copied in any of its turns is what the reference denotes in the tree in which the loop ends |
| `Outside.MaskedAnswer` | include/tao/config/internal/phase2_access.hpp:28-113 | a lookup that does not enter the arguments of a call has the same answer whatever the arguments are |
| `Outside.PassOutside` | include/tao/config/internal/phase2_everything.hpp:16-19 | for any tree, calls included: no pass, and so no call that happens in it, moves or changes what a lookup finds outside of the arguments of calls |
| `Outside.ResolvedOutsideForGood` | include/tao/config/internal/phase2_everything.hpp:16-26 | for any tree and every schedule of the four passes: a reference that is resolved without a look into the arguments of a call has this target with this content ever after |
| `Outside.CopiesOutsideStayTrue` | include/tao/config/internal/phase2_references.hpp:43-57 | for any tree and every schedule: a copy of a target outside of calls is what the same reference denotes in every later tree |
| `Outside.CopiesOutsideAreTrueInTheEnd` | include/tao/config/internal/phase2_everything.hpp:16-26 | the same for the loop of phase 2 and the tree in which it ends |
| `Orders.CallsMoveTargets` | include/tao/config/internal/phase2_functions.hpp:78-98 | why calls are set apart: the target of `(a.0)` is an argument of the call in `a = (default [ 7 ])`, and after the call it is another value |
| `Independence.OrderIsIrrelevant` | src/test/config/independence.cpp:54-79 | without calls and asterisks the loop of phase 2 ends with the same tree for every order of the passes, up to the bracketing of doubles, and exactly the same where at most two doubles have met in any sum |
| `Independence.SchedulesAgree` | include/tao/config/internal/phase2_everything.hpp:16-26 | the same for any two schedules of the passes, fair or not, that reach trees in which nothing is left to add or copy |
| `Independence.RunsMeet` | include/tao/config/internal/phase2_everything.hpp:16-26 | whatever a lookup has found at any moment under one schedule it also finds, up to bracketing, where any other schedule comes to rest |
| `Independence.VisitSettles` | include/tao/config/internal/phase2_references.hpp:43-57 | overwriting a reference with its target does not change what the tree comes to once all references are known |
| `Independence.FoundIsReached` | include/tao/config/internal/phase2_access.hpp:140-161 | a reference is resolved only if every concat above it has one summand |
| `Independence.SettledAccess` | include/tao/config/internal/phase2_access.hpp:28-113 | a lookup that has an answer has the same one in the tree with all references filled in |
| `Settling.SettleOfNormal` | include/tao/config/internal/phase2_additions.hpp:40-126 | what a tree comes to depends only on its fully added-up form |
| `Settling.PassSettles` | include/tao/config/internal/phase2_additions.hpp:40-126 | an additions pass does not change what the tree comes to once all references are known |
| `Settling.EndSettles` | include/tao/config/internal/phase2_everything.hpp:21-26 | a tree in which nothing can be added and no reference is known has come to itself |
| `Orders.CallsMakeOrderMatter` | src/test/config/independence.cpp:54-79 | the law ends at calls: where `a` is a call of `default` and `x` refers to the first element of its argument, one order of the passes gives `x` the list and another one the number in it |
| `Samples.CallFileHasTwoResults` | src/test/config/independence.cpp:54-79 | a file that is parsed to such a tree: `a = (default [ 7 ])` and `x = (a.0)` give `x` the value `[ 7 ]` or `7` |
| `Orders.AsterisksMakeOrderMatter` | include/tao/config/internal/phase2_asterisks.hpp:112-114 | the law ends at asterisks, which pass over references: one order of the passes lets the asterisk act on the copy, in another one it is gone before there is a copy |
| `Samples.StarFileHasTwoResults` | src/test/config/independence.cpp:54-79 | a file that is parsed to such a tree: `a.b = 1`, `c = (a)` and `c.* = 2` give `c.b` the value 1 or 2 |
| `Orders.OrderDecidesOnErrors` | include/tao/config/internal/phase2_additions.hpp:190-203 | the law ends at errors: in a tree without calls and asterisks one order of the passes ends and another one throws |
| `Stability.AdditionsAreStable` | include/tao/config/internal/phase2_additions.hpp:40-126 | a found target survives an additions pass |
| `Stability.AsterisksAreStable` | include/tao/config/internal/phase2_asterisks.hpp:46-158 | a found target survives an asterisks pass |
| `Stability.ReplacingIsStable` | include/tao/config/internal/phase2_references.hpp:43-57 | a found target survives the replacement of any reference |
| `Phase1.FocusTwice` | include/tao/config/internal/phase1_append.hpp:97-121 | two steps along one path, the first of which defines something, are both steps at the place that the first one has made |
| `Phase1.FocusCompose` | include/tao/config/internal/phase1_append.hpp:97-121 | a path may be followed in two stages |
| `Phase1.RootTwice` | include/tao/config/internal/phase1_append.hpp:123-138 | the same law for paths from the root, with a longer second path |
| `ParserMachine.FindElement` | include/tao/config/internal/phase1_append.hpp:49-79 | the loop over the summands finds the element that an index counts to across arrays, or the right error |
| `ParserMachine.AppendPath` | include/tao/config/internal/phase1_append.hpp:97-121 | walking along a path and making room on the way, against the recursive specification |
| `ParserMachine.AppendName` | include/tao/config/internal/phase1_append.hpp:40-46 | a name part: the last object is used or made, the member found or created, and the implicit flag set or cleared |
| `ParserMachine.AppendElement` | include/tao/config/internal/phase1_append.hpp:82-95 | a generation part: a new element for a new generation, else the last one |
| `ParserMachine.Machine.Act` | include/tao/config/internal/phase1_append.hpp:123-138 | one action at the current prefix and suffix, with the nesting limit and the check of the first part |
| `ParserMachine.Machine.ParseList` | include/tao/config/internal/config_action.hpp:83-92 | the parts of a value list and the new generation after them |
| `ParserMachine.Machine.ParsePart` | include/tao/config/internal/config_grammar.hpp:72-76 | the kinds of value parts and their actions |
| `ParserMachine.Machine.ParseElements` | include/tao/config/internal/key1_guard.hpp:33-53 | the elements of a literal under a guard; prefix and suffix are restored on every exit, errors included |
| `ParserMachine.Machine.ParseMember` | include/tao/config/internal/config_grammar.hpp:79-103 | assignment, deletion, append and the temporary flags under a guard for the key; prefix and suffix are restored on every exit |
| `ParserLaws.KeyIsRejected` | include/tao/config/internal/phase1_append.hpp:128-133 | a key of more than 96 parts and a key that does not begin with a name are rejected, each with its own error |
| `Totals.IndexMeansElement` | include/tao/config/internal/phase1_append.hpp:48-77 | an index in a definition denotes the element that it denotes once the arrays are added up, and is out of range exactly when there is none |
| `Totals.IndexWrites` | include/tao/config/internal/phase1_append.hpp:48-77 | writing to an index changes that element and no other one |
| `Marks.FlagsBySyntax` | include/tao/config/internal/phase1_append.hpp:40-46 | on the syntax, for every accepted file and every path of names: a member is there exactly when some definition has gone to it or through it since it was last removed with what is above it or put behind something else; it is implicit exactly when none of these definitions has a value, temporary exactly when the last flag says so, and replacing exactly when it was itself assigned or deleted |
| `Marks.FlagsOfFile` | include/tao/config/internal/config_action.hpp:35-155 | the same as a fold over all steps of the file, object literals within values included |
| `Boundaries.AssignedYetImplicit` | include/tao/config/internal/phase1_append.hpp:44-44 | why removals count: after `a.b = 1`, `a = delete` and `a.b.c = delete` the member `a.b` is implicit |
| `Deletions.SameOutcome` | include/tao/config/internal/concat.hpp:44-47 | a member of the root that is finished, that phase 3 omits and that no reference can begin with changes nothing: whatever the order of the passes, the evaluation has the same result or the same error without it |
| `Deletions.DeletingNothing` | include/tao/config/internal/concat.hpp:72-72 | deleting a path of which nothing exists changes neither the result nor the error of a file, as long as no reference begins with its first name or with a nested reference |
| `Boundaries.DeletionIsSeen` | include/tao/config/internal/phase2_access.hpp:130-138 | what such a reference may see: the file `x = (q)` is an error, and with `q.y = delete` it has a result |
| `Forming.ArraysFuse` | include/tao/config/internal/concat.hpp:49-58 | two array literals side by side are one literal with the elements of both |
| `Forming.CallTakesLiteral` | include/tao/config/internal/concat.hpp:60-64 | an array literal behind a call gives the call further arguments |
| `Forming.CallTakesOver` | include/tao/config/internal/concat.hpp:60-64 | a call behind an array literal turns the literal into its first arguments |
| `Forming.ObjectsFuse` | include/tao/config/internal/concat.hpp:49-58 | two object literals side by side are one literal with the definitions of both |
| `ParserLaws.PartInPlace` | include/tao/config/internal/config_action.hpp:35-92 | steps along absolute paths from the root do the same as building in place at the end of the path, for every value part |
| `ParserLaws.FileIsBuiltInPlace` | include/tao/config/internal/config_grammar.hpp:126-137 | the state machine on a whole file is structural recursion over its syntax, errors included |
| `ParserLaws.PartMustFit` | include/tao/config/internal/phase1_append.hpp:128-130 | a value that is accepted has no path beyond the nesting limit |
| `Generations.LiteralAddsItsElements` | include/tao/config/internal/phase1_append.hpp:82-95 | a literal with n elements, arbitrarily nested, adds exactly n elements in order, each holding exactly what its own summands build from nothing |
| `Generations.PartIsFine` | include/tao/config/internal/phase1_append.hpp:82-95 | no concat is ever ahead of the generation counter, and no assertion of phase 1 fails, the one that the array is not empty included |
| `Generations.ListAdvances` | include/tao/config/internal/config_action.hpp:83-92 | every value list increases the counter, as the assertion on generations requires |
| `Forming.PartErased` | include/tao/config/internal/phase1_append.hpp:82-95 | building is the same as building without generations, up to generations, for every kind of value and key |
| `Forming.FileIsFormed` | include/tao/config/internal/config_grammar.hpp:126-137 | the same for a whole file that is accepted |
| `Merging.PartAdds` | include/tao/config/internal/config_action.hpp:35-67 | writing a value of assignments and appends along names into a concat in place is the same as adding its summands to those that are there |
| `Merging.MemberAdds` | include/tao/config/internal/phase1_append.hpp:40-46 | one assignment or append along a path of names is the merge with an object that holds nothing but this definition |
| `Merging.BuildingIsMerging` | include/tao/config/internal/config_action.hpp:35-67 | a file of assignments and appends along names, written in place, is the merge of its definitions, each in an object of its own |
| `Merging.WritingOnIsMerging` | include/tao/config/internal/phase2_additions.hpp:188-205 | two sequences of assignments and appends along names, written one after the other, and each written on its own and then merged, have the same fully added-up form up to generations and the bracketing of doubles |
| `Merging.WritingOnAddsUpAsMerging` | include/tao/config/internal/phase2_additions.hpp:188-205 | the same, for the trees that the additions passes end with, and exactly so where at most two doubles have met in any sum |
| `Clashes.InPlaceThrowsAtOnce` | include/tao/config/internal/phase2_additions.hpp:40-126 | on a file of assignments and appends along names, written in place, the additions never throw if and only if the first pass does not, and if and only if the fully added-up tree has no clash |
| `Clashes.WritingOnThrowsLess` | include/tao/config/internal/phase2_additions.hpp:40-126 | the additions never throw on the merged object of two files if and only if they never throw on the file written in place and the members that the second file adds to have no clash of their own in either file; so writing on throws only if merging does |
| `Samples.ErrorsMayBeOverwritten` | include/tao/config/internal/phase2_additions.hpp:40-126 | two files on which the merged object throws and the file written in place does not |
| `Merging.ErNormal` | include/tao/config/internal/phase2_additions.hpp:40-126 | additions never look at generations |
| `History.FocusAgrees` | include/tao/config/internal/phase1_append.hpp:97-121 | two trees that agree at a path still agree there after the same step along any written path, with names, indices and asterisks |
| `History.MembersKeepAgreement` | include/tao/config/internal/config_grammar.hpp:79-103 | the same for any definitions: assignments, appends, deletions, flags, calls, nested or not |
| `History.AssignedAgree` | include/tao/config/internal/config_action.hpp:35-42 | an assignment along a path of names makes any two trees without temporaries agree at the path |
| `History.MergeForgets` | include/tao/config/internal/phase2_additions.hpp:193-195 | where the right side of a merge replaces, nothing of the left side shows |
| `History.SightIsNormal` | include/tao/config/internal/phase2_additions.hpp:40-126 | what a tree shows under a path across all summands of the ancestors is settled by its fully added-up form |
| `History.OverwriteForgetsHistory` | include/tao/config/internal/config_action.hpp:35-42 | two files that differ before an assignment to a path of names in any way but temporaries, deletions, calls, indices and asterisks included, and agree from there on, show the same under the path after phase 1 and after the additions, also when references split its ancestors |
| `History.OverwrittenMemberIsTheSame` | include/tao/config/internal/config_action.hpp:35-42 | when the ancestors are single objects the two members themselves are equal, up to the bracketing of doubles, and exactly so where at most two doubles have met in any sum |
| `Phase3.FoundMeansUnresolved` | include/tao/config/internal/phase3_remove.hpp:24-52 | the phase raises an error exactly when a reference, asterisk or call is left |
| `Phase3.FoundIsFirst` | include/tao/config/internal/phase3_remove.hpp:24-52 | the error that is raised is the first one in the list of all that is left over, in the order of the text |
| `Results.MembersKept` | include/tao/config/internal/phase3_remove.hpp:69-82 | a name survives phase 3 exactly when its concat is neither implicit nor temporary and has a summand |
| `Results.ElementsKept` | include/tao/config/internal/phase3_remove.hpp:54-67 | an element survives under the same condition, and the survivors keep their order |
| `Phase3.RemoveConcat` | include/tao/config/internal/phase3_remove.hpp:24-52 | the first error in traversal order, or the subtree without what is omitted |
| `Phase3.RemoveElements` | include/tao/config/internal/phase3_remove.hpp:54-67 | erasing while iterating keeps exactly the other elements, in order |
| `Phase3.RemoveMembers` | include/tao/config/internal/phase3_remove.hpp:69-82 | erasing while iterating keeps exactly the other members |
| `Phase5.OnePartIsLeft` | include/tao/config/internal/phase2_additions.hpp:45-125 | where the additions have nothing to do and nothing is unresolved there is at most one summand |
| `Phase5.Phase3LeavesPlain` | include/tao/config/internal/phase5_repack.hpp:95-117 | after a fixed additions pass and a successful phase 3 every concat at every depth has one plain part, so no assertion or unreachable branch of phase 5 is reached |
| `Phase5.Consumer.RepackConcat` | include/tao/config/internal/phase5_repack.hpp:111-117 | the event stream with its stack and counter builds the annotated value, and fails exactly where the assertions of the code would |
| `Phase5.Consumer.RepackArray` | include/tao/config/internal/phase5_repack.hpp:37-48 | elements in order, each under its own index |
| `Phase5.Consumer.RepackObject` | include/tao/config/internal/phase5_repack.hpp:50-61 | every member under its own name |
| `Phase5.AnnotatedKeysAreCorrect` | include/tao/config/access.hpp:21-60 | `access` from the root with the key of any value of a result, at any depth, returns that value |
| `Results.SurvivorsAreFound` | include/tao/config/internal/phase5_repack.hpp:63-109 | phases 3 and 5 together: every place of the tree at whose path nothing is implicit, temporary or empty is found in the result under the path that counts surviving elements only, with that key and with the value of its entry, for each of the nine kinds of values |
| `Results.OnlySurvivorsAreFound` | include/tao/config/internal/phase5_repack.hpp:63-109 | the result has nothing else |
| `Results.PathsStayApart` | include/tao/config/internal/phase3_remove.hpp:54-67 | no two places of the tree share a path of the result |
| `Results.ResultReports` | include/tao/config/internal/config_parser.hpp:72-77 | the same from the root, as `Finish` promises it of its result |
| `Results.AccessStepByStep` | include/tao/config/access.hpp:21-60 | access to a result goes part by part, and the first part that leads nowhere decides on the error |
| `Pipeline.ConfigParser.Parse` | include/tao/config/internal/config_parser.hpp:51-54 | parsing runs the state machine on the members of the file |
| `Pipeline.ConfigParser.Finish` | include/tao/config/internal/config_parser.hpp:72-77 | phases 2, 3 and 5 in a row: the result shows exactly what survives in the tree in which phase 2 has ended, the error is the one of the phases, and the assertions of phase 5 hold |
| `Pipeline.Phase5NeverFails` | include/tao/config/internal/config_parser.hpp:72-77 | where phase 2 has ended and phase 3 has not complained, what is left is plain |
| `Pipeline.PassesKeepPrimitive` | include/tao/config/internal/phase2_everything.hpp:16-19 | no pass changes a finished tree |
| `Json.JsonIdentity` | include/tao/config/internal/config_parser.hpp:72-77 | a JSON object is rejected exactly when a path in it has more than 96 parts; otherwise the result is its value with correct keys, the last of equal names winning, whatever passes phase 2 runs |
| `Json.PartBuilt` | include/tao/config/internal/config_action.hpp:35-67 | phase 1 builds exactly the JSON value in an empty concat |
| `Json.FieldBuilt` | include/tao/config/internal/config_action.hpp:35-42 | a repeated name replaces what the earlier field has left |
| `Json.FitsByLength` | include/tao/config/internal/phase1_append.hpp:128-130 | the nesting limit in terms of the longest path in a JSON value |
| `Flat.FlatConfigsAreEvaluated` | include/tao/config/internal/phase3_remove.hpp:24-52 | members that are sums of integers and references: no round fails, each member that dependency order can evaluate ends as its sum modulo 2^64 and each other one keeps a reference, and phase 3 raises the unresolved-reference error exactly when there is one of the latter |
| `Flat.StuckMeansDeadEnd` | include/tao/config/internal/phase2_references.hpp:31-57 | dependency order fails for a member exactly when its references lead to an undefined name or into a cycle |
| `Flat.PassKeeps` | include/tao/config/internal/phase2_everything.hpp:16-19 | every pass keeps the meaning of every member of a flat config |
| `Flat.CopiesBlocked` | include/tao/config/internal/phase2_references.hpp:43-57 | at the end no reference leads to a member that is ready |
| `Flat.SolvedIsComputed` | include/tao/config/internal/phase2_references.hpp:43-57 | by induction on the depth of the definition, a member that can be evaluated is one number at the end |
| `Numbers.NumberState.Idigits` | include/tao/config/internal/jaxn_action.hpp:216-244 | integer digits: what is kept, what is cut off, and the digit limit |
| `Numbers.NumberState.Fdigits` | include/tao/config/internal/jaxn_action.hpp:246-278 | fraction digits after integer digits: the kept digits and the exponent describe the whole digit string |
| `Numbers.NumberState.Edigits` | include/tao/config/internal/jaxn_action.hpp:280-304 | the exponent is added with its sign, or is an error when it has more than nine significant digits |
| `Numbers.CutIsTight` | include/tao/config/internal/jaxn_action.hpp:217-278 | the kept digits are below the literal by less than one unit of the last kept digit, and exact exactly when `drop` is false |
| `Numbers.Number` | include/tao/config/internal/jaxn_action.hpp:206-315 | a whole decimal literal: mantissa times power of ten is the literal when `drop` is false, and brackets it strictly otherwise; mantissa size and exponent stay within their bounds; both errors exactly |
| `Numbers.Hexnum` | include/tao/config/internal/jaxn_action.hpp:65-94 | hexadecimal literals are exact, negative ones down to -2^63, and an error exactly when they do not fit |
| `Keys.ToStream` | include/tao/config/key.hpp:154-164 | the printing loop against its specification |
| `Keys.Assign` | include/tao/config/key.hpp:69-74 | parsing a key with an action per part, against its specification |
| `Keys.ShowIsDecimal` | include/tao/config/key_part.hpp:78-87 | a printed index is read back as itself |
| `Keys.ShowLength` | include/tao/config/internal/key_grammar.hpp:17-17 | an index has at most 15 digits exactly when it is below 10^15 |
| `Keys.KeyRoundTrip` | include/tao/config/key.hpp:154-171 | the text of a key is read back as the same key exactly when the key begins with a name and has no index of more than 15 digits |
| `Keys.PrintingIsIdempotent` | include/tao/config/key.hpp:154-171 | the text of a parsed key is parsed as the same key |
| `Keys.BareNames` | include/tao/config/key_part.hpp:66-76 | a name is printed bare exactly when the grammar reads all of it as an identifier, and otherwise in quotes |
| `Keys.KeyIsSpelled` | include/tao/config/internal/key_grammar.hpp:17-31 | a text is read as a key exactly when it consists of the texts of its parts with dots between them: identifiers, strings in either kind of quotes and, except at the front, up to 15 digits |
| `Keys.FaithfulExists` | include/tao/config/internal/key_action.hpp:44-54 | an escape and unescape pair with the assumed property exists |

## Left out

- The `parse` function: it can bring in new references and calls, so phase 2 need not end with it;
  here it is an unknown function.
- What `env`, `shell`, `read`, `jaxn`, `split`, `string`, `binary` and `print` compute: a call is a
  parameter that may return any value that has nothing left to do. `default` is modelled.
- File inclusion, streams, debug traits and all source positions, including those in error messages;
  an error is its kind only.
- Reading characters: the parser starts from a syntax tree, in which atoms are already read. The
  guarantees of `Numbers` and `Keys` concern the text of numbers and keys alone.
- The stack of the recursive descent and the heap: subtrees are values, so aliasing between a
  reference target and the tree shows only through `Copying`, which works on the live root.
- The generation cell that copies of a key part share: `ParserMachine` replaces the last part of
  the suffix instead, which is the only place from which the cell is read afterwards.
- Runs.RunIsSteady: trees in which calls happen are not covered, as a call replaces its own arguments
  and a target can lie inside them (Orders.CallsMoveTargets). For targets that do not, the law holds
  in every run (Outside.ResolvedOutsideForGood).
- Runs.ResolvedForGood: likewise.
- Runs.CopiesStayTrue: likewise; see Outside.CopiesOutsideStayTrue.
- Independence.OrderIsIrrelevant: trees with calls or asterisks, for some of which it does not hold
  (Orders.CallsMakeOrderMatter, Orders.AsterisksMakeOrderMatter), and orders that end with an error,
  which one order may do and another not (Orders.OrderDecidesOnErrors). Which trees with calls or
  asterisks still have one result is not characterised.
- Deletions.DeletingNothing: one direction only; a file with a reference that begins with the deleted
  name may still have the same result, for example when a call drops the reference.
- Marks.FlagsBySyntax: members at paths of names; elements and what is written through an asterisk
  have flags of their own.
- Everything.EveryRunSettles: schedules use the four passes of phase 2 without the function `parse`.
- Merging.PartAdds: values whose definitions are assignments and appends along names, without calls.
  With other definitions the law does not hold: a deletion or a flag makes its parents implicit, and the merge
  keeps the flag of the right side (include/tao/config/internal/phase2_additions.hpp:190-203); an
  index is out of range in an object of its own; an asterisk is continued in place but not added to
  another one; a call and a literal next to it share one array summand in place.
- Merging.MemberAdds: the same definitions only, for the same reasons.
- Merging.BuildingIsMerging: the same definitions only, for the same reasons.
- Merging.WritingOnIsMerging: the same definitions only; whether the additions throw is the subject
  of Clashes.WritingOnThrowsLess.
- Merging.WritingOnAddsUpAsMerging: the same definitions only.
- Clashes.WritingOnThrowsLess: the same definitions only.
- Clashes.InPlaceThrowsAtOnce: files of the same definitions only, or any other tree of ordinary
  entries.
- History.OverwriteForgetsHistory: nothing before the assignment may make a member temporary, as an
  assignment keeps that flag; the path consists of names; what it shows is taken before references
  are resolved.
- Stars.ArraysAgreeWithObjects: does not equate the generation and implicit flags, which an array
  element keeps.
- Flat.FlatConfigsAreEvaluated: members are sums of integers and references of one name at the top
  level.
- The values of doubles: nothing is assumed of their addition, so sums that differ as terms may have
  the same value, and laws that hold for particular doubles, such as those whose sums are exact, are
  not stated. Turning mantissa and exponent into a double belongs to the JSON library.
- Signed overflow, which is undefined in C++, wraps around modulo 2^64.
- Numbers.Number: the size of the mantissa buffer is a parameter, as its constant belongs to the
  JSON library; exponents are unbounded integers with proved bounds.
- Keys.KeyRoundTrip: escaping and reading quoted strings are parameters with an assumed round trip,
  as they belong to the JSON library; an index is an unbounded number. That an index of 16 digits is
  no index follows the documented meaning of the parser rule, which is not part of this model.
- The consumer of phase 5 belongs to the JSON library; it is modelled as a stack of containers.
- Small helpers such as kind enumerations, getters and the string functions of the key classes.
