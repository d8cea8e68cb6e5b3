# Models of the daemon scripts

A Dafny model of the algorithms in `scripts/` that have to get something right: the lock that keeps
two processes off one database, the comparison of API schemas, the rebuild, copy and swap of a
database file, the removal of comments from source text, and three smaller ones. `dafny verify
dfyconfig.toml` checks the whole project.

## What is modelled

**The database lock** (`DatabaseLock`, `LockRaces`, `LockCalls`, `LockFiles`). Processes compete for
a lock file by exclusive creation, with a takeover marker for stale locks. `DatabaseLock` is a state
machine whose atomic steps are the file operations and liveness tests of `acquireDatabaseLock`; any
number of processes start, crash, acquire and release in any order, creations may throw, and a
process number is not reused while a file carries it. Mutual exclusion fails in one case, which is
proved to be the only one: a takeover deletes the lock file of a live process. That can follow a
re-read under the marker (line 226) exactly when it finds no file, so that another process may claim
the lock before line 230, or a file that names another process running at that moment, which may
give the lock back and exit before the liveness test at line 228. An ordinary shutdown of a holder
is enough for either, because the test at line 214 likewise comes after the read at line 205
(`ShutdownRace`, `HandoverRace`). `LockCalls` counts what one call does among the others, from its
beginning to its end. `LockFiles` is the code as it runs alone, changing the files in place, tied to
the state machine step by step.

**The schema comparison** (`Json`, `Schema`, `SchemaWalk`, `AlternativePairing`, `SchemaMeaning`,
`SchemaSoundness`, `SchemaReadings`, `SchemaShape`, `SchemaSilence`, `SchemaLimits`, `NullLimits`,
`SchemaMatching`, `SchemaReports`, `SchemaLevels`, `SchemaTexts`, `SchemaSpreads`,
`SchemaExactness`, `SchemaPlaces`). `SchemaWalk` is the walk on reference-free schemas;
`SchemaTexts` and `SchemaSpreads` prove its signatures and its null stripping to be those of the
JSON texts. `SchemaMeaning.Accepts` says which JSON values a schema accepts, without looking at the
walk, and the severities are proved sound against it on a fragment: typed nodes with properties,
required names, enum or const and items; anyOf without sibling keywords; on the result side also
allOf. Inputs read objects as closed, results as open. In the lenient reading null is accepted
wherever the walk calls a schema nullable, and soundness holds throughout; in the strict one it
holds where no pair of the walk loses null. `NullLimits` and `SchemaLimits` have the inputs on which
the severities are unsound, and the exact conditions. The other direction, that a severity is raised
only where a value is lost, is proved keyword by keyword in `SchemaReports`, with the inputs on
which the walk reports for nothing, and for whole trees in `SchemaExactness`; `SchemaLevels` says
how severe each kind of change is at any depth, `SchemaPlaces` is about the paths of emissions, and
`SchemaMatching` about what is paired with what.

**References** (`References`, `PlantedNodes`, `SchemaGraphs`, `SchemaVisits`, `VisitKinds`,
`WalkLoops`, `WalkTermination`, `EndlessWalks`, `RecursiveReferences`, `AliasChains`,
`ReferenceCircles`). `References` is the following of references, and `PlantedNodes` says where a
pointer leads, with documents built outward from the node. The others ask when the walk ends on
schemas that refer to themselves. Schemas are nodes of a document, what the walk builds is told from
them by when it was built, and every visit looks its pair up among those above it, as line 111 does.
The guard against cycles recognises a schema only while it is the same object, and lines 58-59 build
a new one wherever a keyword stands beside a reference. Which alternatives are compared with which
is left to an arbitrary choice, of which the code's matching is one; for every choice, the walk from
two given schemas is proved to end exactly where the pairs it goes on to lead into no loop that
cannot be recognised. The documents on which it does not end are endless for every choice that takes
fields, items and lone alternatives.

**Rebuilding a database** (`SqlScanners`, `FtsOptions`, `FtsStatements`, `FileSwap`,
`DependencyOrder`, `BatchCopy`). The three hand-written scanners are proved to read one token
language, and options to come back from every way of writing a statement: quotes of any kind, white
space and comments. The swap is a class over a directory whose every operation may throw; its
history keeps every state the disk was in. The order of tables and the batched copy are loops proved
against what they are for.

**Comment removal** (`CommentRanges`, `CommentLines`, `CommentStripper`, `CommentInk`, `LineBreaks`,
`TokenSeparation`, `KeptText`, `DanglingComment`, `DanglingSeams`, `KeptLineBreaks`). Comment ranges
are given. What is put in the place of a comment is told in `LineBreaks` by the rules of automatic
semicolons, and the other modules say what is left in the final output. The loss of text at an
unterminated last line (line 106 uses `nlAfter` where it is -1) is kept as the code has it, with the
exact condition.

**Smaller ones.** `TextRewrites` splices replacements from back to front, `ShardManifest` and
`ManifestLines` print and parse a manifest, `FlakyRunner` and `FlakyRules` decide between retry,
block and quarantine. `Text`, `Sets`, `Numbers`, `Paths` and `Wrappers` hold what the modules share.

Where the code works by changing things step by step, the model has a method with the code's loop,
proved equal to a function, and the lemmas are about that function.

## Model

| member | source | states |
|---|---|---|
| DatabaseLock.StepKeepsInv | scripts/rebuild-daemon-db.ts:190-276 | every step of any process (start, crash, next line of acquireDatabaseLock, throwing file operation, release) keeps the invariant, except the deletion of a live process's lock file: a process that has claimed the lock, or backs off, or holds it is the one the lock file names; a process in the takeover region is the one the marker names; after a settled re-read the lock file is still what was read; every other live process is named by neither file |
| DatabaseLock.UnlinkIsSafeExactlyWhen | scripts/rebuild-daemon-db.ts:226-234 | the deletion in a takeover keeps that invariant if and only if the lock file does not name a live process at that moment |
| DatabaseLock.InvIsSafe | scripts/rebuild-daemon-db.ts:193-246 | the invariant gives: at most one holder, its number in the file, at most one process in the takeover region, and a process outside a call that holds nothing has left neither lock nor marker of its own |
| DatabaseLock.MutualExclusion | scripts/rebuild-daemon-db.ts:190-247 | from any world where no call is under way, in every interleaving of any number of processes with crashes, faults and releases, all of that holds at every moment as long as no takeover deletes a live process's file |
| DatabaseLock.SettledIsHarmless | scripts/rebuild-daemon-db.ts:222-231 | if every deletion follows a re-read that found a file naming no live process, none of them hits a live process's file |
| DatabaseLock.SettledMutualExclusion | scripts/rebuild-daemon-db.ts:190-247 | so mutual exclusion, the takeover's exclusivity and "a refused call leaves nothing behind" hold at every moment of every such run |
| LockRaces.EndangeringBreaksExclusion | scripts/rebuild-daemon-db.ts:193-243 | after one deletion of a live process's file, whatever that process was doing, harmless steps lead to two holders |
| LockRaces.ExclusionSurvivesExactlyWhen | scripts/rebuild-daemon-db.ts:226-243 | for every takeover about to delete: all runs that follow without another such deletion are safe if and only if the file does not name a live process |
| LockRaces.RereadEndangersExactlyWhen | scripts/rebuild-daemon-db.ts:222-231 | for every takeover at its re-read in a world satisfying the invariant: with the other processes free to do anything harmless, the deletion it leads to can hit a live process's file if and only if the re-read finds no file, or one that names another process running at that moment (which can leave before the liveness test of line 228) |
| LockRaces.ShutdownRace | scripts/rebuild-daemon-db.ts:204-234 | the first race, from three idle processes: the holder releases and exits between another process's read (line 205) and its liveness test (line 214), the re-read finds no file, a third process claims the lock, line 230 deletes that claim, and two processes hold the lock |
| LockRaces.HandoverRace | scripts/rebuild-daemon-db.ts:204-234 | the second race, from three idle processes: the re-read finds the number of a process that holds the lock; from there, too, harmless steps and one deletion lead to two holders |
| LockCalls.RefusedCall | scripts/rebuild-daemon-db.ts:190-247 | among any other processes: a call that ends without the lock, with no crash and no throwing file operation, either met the number of another running process at line 214, as the last thing it did, or tried exactly five times to create the file, and every time found the file gone, empty and too young, a takeover under way, or another process's claim |
| LockCalls.SuccessfulCall | scripts/rebuild-daemon-db.ts:190-247 | a call that ends with the lock tried at most five times to create the file, met no owner, and gave up every attempt but the last |
| LockCalls.AttemptsAndSetbacksAlternate | scripts/rebuild-daemon-db.ts:193-244 | at every moment of a call its attempts and the reasons it gave them up for have come in turn |
| LockCalls.AttemptCreates | scripts/rebuild-daemon-db.ts:195 | an attempt creates the lock file exactly where there is none, with the number of the process |
| LockCalls.ThrownCallEnds | scripts/rebuild-daemon-db.ts:220-244 | where a file operation throws the call is over: outside a takeover at once, with both files as they are, and in one with the next thing the process does, whenever that is, which removes the marker and nothing else |
| LockFiles.SoloIsARun | scripts/rebuild-daemon-db.ts:190-247 | what a process does to the two files when nobody interferes is one of the runs of the protocol |
| LockFiles.LockDirectory.TakeOver | scripts/rebuild-daemon-db.ts:219-244 | an undisturbed takeover of a stale lock ends holding the lock with the marker gone, by the protocol's own steps |
| LockFiles.LockDirectory.AcquireDatabaseLock | scripts/rebuild-daemon-db.ts:190-247 | an undisturbed call goes through the protocol's steps and succeeds if and only if no marker exists and the lock is free, empty and abandoned, unparseable, its own or a dead process's; when it fails, both files are as they were |
| LockFiles.LockDirectory.ReleaseDatabaseLock | scripts/rebuild-daemon-db.ts:269-276 | in a world satisfying the invariant, release deletes the caller's own lock file and nothing else |
| Json.NormalIsInjective | scripts/api-diff-schema.ts:25-42 | on values without arrays under the five unordered keywords, equal signatures mean equal values |
| Json.OrderIsForgotten | scripts/api-diff-schema.ts:25-42 | under the five unordered keywords, arrays with the same elements in any order have one signature |
| Json.OrderMatters | scripts/api-diff-schema.ts:25-42 | under any other key, arrays have one signature if and only if they have one element by element |
| SchemaTexts.SignatureIs | scripts/api-diff-schema.ts:25-42 | two schemas of the model, at any depth, have one signature if and only if the JSON texts they stand for have |
| SchemaSpreads.StripIsSpread | scripts/api-diff-schema.ts:73-95 | null stripping of any schema object, in JSON texts: null goes from the list of types, null alternatives go from an anyOf or else from a oneOf, and the fields beside a union are laid over those of its only survivor |
| SchemaWalk.MatchConserves | scripts/api-diff-schema.ts:219-249 | pairing by equal signature, by discriminating constants and as two lone survivors: every alternative of either side is in exactly one pair or left over, with multiplicity |
| SchemaWalk.LoneAlternativesPair | scripts/api-diff-schema.ts:219-249 | an alternative without rivals is always paired with one without rivals |
| SchemaWalk.AllOfConserves | scripts/api-diff-schema.ts:258-279 | when an intersection is not sent to review, its parts are paired off completely |
| SchemaWalk.PairsAreBelow | scripts/api-diff-schema.ts:167-279 | every pair a visit goes on to is strictly smaller on both sides, which ends the walk on reference-free schemas also through the one-element wrapping of lines 138-142 |
| SchemaMatching.RestsAreDifferences | scripts/api-diff-schema.ts:219-229 | of alternatives of equal signature as many are paired as both sides have: what is left over is the difference of the two bags |
| SchemaMatching.SameIdentityIsPaired | scripts/api-diff-schema.ts:230-241 | where each identity occurs once on a side, every two alternatives of one identity are paired |
| SchemaMatching.SameIdentityExactlyWhen | scripts/api-diff-schema.ts:63-72 | two alternatives have one identity if and only if the same properties have constants, and the same ones, or, where no property has one, both are constants themselves, and the same |
| SchemaMatching.RivalsStayApart | scripts/api-diff-schema.ts:230-241 | two alternatives of one identity are paired with nothing by the second loop |
| SchemaMatching.OneAlternativeIsNoChange | scripts/api-diff-schema.ts:136-142 | a schema against a union with that schema as the only alternative, under either key and on either side: nothing is reported |
| SchemaMatching.IntersectionReviewedExactlyWhen | scripts/api-diff-schema.ts:258-279 | two intersections are sent to review if and only if one is missing, or they differ in length or in more than one schema |
| SchemaMatching.KeywordReportedExactlyWhen | scripts/api-diff-schema.ts:280-299 | any other keyword is reported if and only if it is new, gone or of another signature, as a risk for a default or a schema library's own keyword and as breaking otherwise |
| AlternativePairing.PairEqual | scripts/api-diff-schema.ts:219-229 | the loop that splices `unmatched` computes exactly the first pairing |
| AlternativePairing.PairByIdentity | scripts/api-diff-schema.ts:230-241 | the loop over a copy of `previous` that removes from `previous` and `unmatched` computes exactly the second pairing |
| AlternativePairing.PairAlternatives | scripts/api-diff-schema.ts:219-249 | both loops and the last resort together compute the pairing that the walk is proved about |
| SchemaMeaning.StripTypeMeans | scripts/api-diff-schema.ts:75-78 | dropping null from a type list changes acceptance of null only |
| SchemaMeaning.StripUnionMeans | scripts/api-diff-schema.ts:79-93 | dropping the null alternatives of an anyOf, with the merge of a single survivor, changes acceptance of null only |
| SchemaMeaning.StripMeans | scripts/api-diff-schema.ts:73-95 | withoutNull, in either reading: the stripped schema accepts the same values except null; null is dropped only if it reports nullable, and is then accepted in the lenient reading |
| SchemaMeaning.WrapMeans | scripts/api-diff-schema.ts:138-142 | wrapping a schema as the only alternative of an anyOf keeps what it accepts |
| SchemaSoundness.TypesCover | scripts/api-diff-schema.ts:143-166 | no reportable type change: every value of a type on the source side has a type of the other side |
| SchemaSoundness.ChoicesCover | scripts/api-diff-schema.ts:190-210 | no reportable enum or const change: every value chosen on the source side is chosen on the other, a const beside an enum being one of its values and the signatures losing no order |
| SchemaSoundness.InputFieldsCover | scripts/api-diff-schema.ts:167-189 | no reportable field change on an input: declared names, required names and field values carry over, objects read as closed |
| SchemaSoundness.ResultFieldsCover | scripts/api-diff-schema.ts:167-189 | the same on a result, from the new schema to the old, objects read as open |
| SchemaSoundness.AnyCovers | scripts/api-diff-schema.ts:211-251 | no reportable union change: the pairing leaves no alternative of the source side without a partner that covers it |
| SchemaSoundness.AllCovers | scripts/api-diff-schema.ts:258-279 | intersections not sent to review: every part of the old one is covered by a part of the new one |
| SchemaSoundness.WalkCovers | scripts/api-diff-schema.ts:103-301 | a walk without reportable emissions, at any depth: every value the source side accepts the other side accepts, in the lenient reading, and in the strict one where in every pair the walk visits the receiving schema takes null if the other does |
| SchemaSoundness.CompareCovers | scripts/api-diff-schema.ts:127-301 | the same below null stripping |
| SchemaReadings.TakesNullIs | scripts/api-diff-schema.ts:73-95 | whether a schema accepts null can be told from its keywords, without looking at values |
| SchemaReadings.LenientIsStrict | scripts/api-diff-schema.ts:73-95 | where every schema inside that the walk calls nullable takes null, the lenient reading accepts nothing more than the strict one; where only the outermost does not, nothing but null |
| SchemaShape.SameShapeAccepts | scripts/api-diff-schema.ts:102 | schemas of equal signature accept the same values, so the early return hides nothing |
| SchemaShape.SoundWhereNullIsKept | scripts/api-diff-schema.ts:96-301 | either side with nothing to report, null read strictly: every value is kept if no pair the walk visits loses null, whatever else the schemas inside say of null |
| SchemaShape.InputSoundness | scripts/api-diff-schema.ts:96-301 | input side without a breaking emission: every value `before` accepts, `after` accepts, objects carrying declared properties only and null read strictly, where the schemas of `after` that are called nullable take null; `before` may be any schema of the fragment |
| SchemaShape.ResultSoundness | scripts/api-diff-schema.ts:96-301 | result side without a breaking or risky emission: every value `after` accepts, `before` accepts, objects carrying any other properties, where the schemas of `before` that are called nullable take null |
| SchemaSilence.SameWithoutNull | scripts/api-diff-schema.ts:73-95 | schemas of equal signature are equally nullable and strip to schemas of equal signature |
| SchemaSilence.EqualBagsPairOff | scripts/api-diff-schema.ts:219-229 | lists with the same alternatives in any order pair off completely, equal with equal |
| SchemaSilence.QuietVisit | scripts/api-diff-schema.ts:143-299 | one visit to schemas of equal signature emits nothing itself and goes on to pairs of equal signature |
| SchemaSilence.SilentExactlyWhenQuiet | scripts/api-diff-schema.ts:103-301 | on schemas of equal signature (any reordering of keys and of unordered lists) the walk emits nothing at any depth if and only if it meets no boolean schema |
| SchemaExactness.ReportedExactlyWhenLost | scripts/api-diff-schema.ts:96-301 | on trees of singly typed nodes, with or without null, at any depth: a breaking emission on an input if and only if some value that the old schema accepts the new one does not, and a breaking or risky one on a result if and only if some value that the new schema accepts the old one did not |
| SchemaPlaces.EmissionHasPlace | scripts/api-diff-schema.ts:103-301 | on such trees every emission comes from the visit to the two schemas that its path leads to |
| SchemaPlaces.ReportIsAtTheLoss | scripts/api-diff-schema.ts:96-301 | between the two schemas that the path of a reported emission leads to a value is lost; the path ends there, or with the name of the field |
| SchemaReports.FieldEmissionsAre | scripts/api-diff-schema.ts:167-189 | for which names there is an emission of each of the four kinds about fields, at the path that ends with the name |
| SchemaReports.InputFieldBreaksExactlyWhen | scripts/api-diff-schema.ts:167-189 | for any schemas of properties: a name is breaking on an input if and only if some object the old schema accepts is refused by the new one for that name, so an optional field that is added is not |
| SchemaReports.ResultFieldReportedExactlyWhen | scripts/api-diff-schema.ts:167-189 | a name is reported on a result if and only if the old schema has something against some new object for that name, save where SchemaLimits.RequirementLostUnreported applies |
| SchemaReports.ChoicesReportedExactlyWhen | scripts/api-diff-schema.ts:190-210 | a change of const or enum is reported if and only if a value is lost |
| SchemaReports.TypesCoverExactlyWhen | scripts/api-diff-schema.ts:143-166 | which values a change of types loses, told from the names |
| SchemaReports.TypeReportedExactlyWhen | scripts/api-diff-schema.ts:143-166 | between two lists of types in which no integer becomes a number, a change is reported if and only if a value is lost |
| SchemaReports.TypeDroppedIsReported | scripts/api-diff-schema.ts:143-166 | a report for nothing, on either side: a type that is no longer asked for |
| SchemaReports.IntegerToNumberIsReported | scripts/api-diff-schema.ts:143-166 | another one: integer that becomes number |
| SchemaReports.LeftoverIsReported | scripts/api-diff-schema.ts:211-251 | a union is reported if and only if an alternative of the source side is left without a partner |
| SchemaReports.LeftoverLosesExactlyWhen | scripts/api-diff-schema.ts:211-251 | where the pairs keep their values, a union loses one if and only if an alternative without a partner accepts what no alternative of the other side does |
| SchemaReports.ShrunkForNothing | scripts/api-diff-schema.ts:242-249 | a report for nothing: an alternative that goes though another accepts all that it does |
| SchemaReports.NullReportedAndLost | scripts/api-diff-schema.ts:115-126 | when a change of null is reported, and a condition under which null is lost, both read off the keywords |
| SchemaReports.NullReportedForNothing | scripts/api-diff-schema.ts:115-126 | a report for nothing: null is no longer named, but everything is accepted |
| SchemaReports.VisitSaysAll | scripts/api-diff-schema.ts:143-299 | a visit says exactly what its keywords say one by one, whatever they are |
| SchemaReports.VisitGoesOnToAll | scripts/api-diff-schema.ts:167-279 | a visit goes on to exactly the pairs of its keywords |
| SchemaReports.AlwaysBreaking | scripts/api-diff-schema.ts:132-257 | unions on one side only, boolean schemas, and items that differ and are not both schema objects are breaking on either side |
| SchemaLevels.SeveritiesAre | scripts/api-diff-schema.ts:96-301 | whatever is compared, at any depth: nothing is risky on an input but a keyword the walk does not know; what lets in more is risky on a result, what lets in less is breaking on an input, and what cannot be judged is breaking on both |
| SchemaLevels.TypeSeverityIs | scripts/api-diff-schema.ts:143-166 | a change of types by the values lost in either direction: on an input breaking if and only if the new schema refuses some; on a result safe if nothing is added, and otherwise risky or breaking according to whether the new schema still has all there were |
| NullLimits.SoundExactlyWhen | scripts/api-diff-schema.ts:73-135 | on either side, with nothing to report and null not lost below: all values are kept if and only if the receiving schema takes null whenever the other does, both read off the keywords |
| NullLimits.SoundExactlyWhenNullIsListed | scripts/api-diff-schema.ts:75-78 | where the receiving schema is nullable by its type list: all values are kept if and only if its const or enum holds null, or the other schema does not take null |
| NullLimits.SoundThroughPartsExactlyWhen | scripts/api-diff-schema.ts:103-189 | below the top, for schemas of properties and items with nothing to report: all values are kept if and only if null is, each common field keeps its values (if the source side accepts an object at all) and items keep theirs (if it accepts an array) |
| NullLimits.PartsAreClean | scripts/api-diff-schema.ts:188-257 | those fields and items again have nothing to report between them, so the last row applies to them, at any depth |
| NullLimits.NullLostUnreported | scripts/api-diff-schema.ts:73-95 | the failing input: anyOf of a string enum and null against the type list string, null with the same enum; in either direction and on both sides the walk is silent, and null is accepted by one and not by the other |
| SchemaLimits.ResultFieldsCoverExactlyWhen | scripts/api-diff-schema.ts:167-188 | result fields with nothing to report, whatever is required: if the new fields accept any object, every object they accept was accepted before if and only if no name is required and undeclared in the old ones, and declared and not required in the new ones |
| SchemaLimits.RequirementLostUnreported | scripts/api-diff-schema.ts:175-188 | the failing input: `required: ["n"]` against a declaration of n; the walk reports a safe change, the empty object is accepted after and was not before |
| SchemaLimits.ChoicesCoverExactlyWhen | scripts/api-diff-schema.ts:190-210 | with no change of values to report: the values of const and enum together carry over if and only if the receiving const is one of its enum's values, or no value is left on the source side |
| SchemaLimits.EnumBesideConstUnreported | scripts/api-diff-schema.ts:190-210 | the failing input: any change of an enum beside a const goes unreported, though the schema accepts the constant exactly if its enum holds it |
| SchemaLimits.OrderLostUnreported | scripts/api-diff-schema.ts:25-42 | the failing input: two constants with arrays under a key like `required` that differ in order have one signature; nothing is reported, and the constant accepted by one schema is not accepted by the other |
| VisitKinds.NextKind | scripts/api-diff-schema.ts:109-142 | on any two documents whose references resolve: every pair the walk goes on to is of one of seven kinds (two nodes; two nested alternatives; two wrappers; a wrapper on one side; a built object against a node), with which can follow which, and a wrapper keeps the schema it was built around |
| VisitKinds.FieldsLead | scripts/api-diff-schema.ts:167-189 | on documents, a visit to two objects with properties can go on to the fields of one name, and to nothing else |
| VisitKinds.MembersLead | scripts/api-diff-schema.ts:258-279 | from two intersections to any two members, if there are as many of them |
| VisitKinds.AlternativesLead | scripts/api-diff-schema.ts:211-251 | from two unions to any two alternatives under the same key |
| VisitKinds.ChaseKeeps | scripts/api-diff-schema.ts:58-59 | dereferencing leaves the keywords beside a reference as they are, through the whole chain |
| VisitKinds.LinkIsLaidOver | scripts/api-diff-schema.ts:51-60 | one turn of dereferencing: the result says what stands beside the reference and, of the other keywords, what the target says |
| VisitKinds.StrippedIsLaidOver | scripts/api-diff-schema.ts:73-95 | null stripping on documents: a union keeps its alternatives in order, and a single survivor takes its place under the keywords beside it |
| WalkTermination.RankFalls | scripts/api-diff-schema.ts:103-142 | from a start that reaches no loop, every visit leads to visits of lower rank |
| WalkTermination.WalkEnds | scripts/api-diff-schema.ts:103-142 | from a start that reaches no loop, visits nest at most as deep as a bound computed from the sizes of the two documents |
| EndlessWalks.LoopNests | scripts/api-diff-schema.ts:109-142 | a path from the start into a way round on which every pair is new: from that start visits nest to any depth, none of them recognised by the list of pairs above |
| EndlessWalks.NodeLoopNests | scripts/api-diff-schema.ts:109-142 | the same for a way round from two nodes back to them on which no pair of nodes is looked up |
| EndlessWalks.WalkEndsExactlyWhen | scripts/api-diff-schema.ts:43-142 | for any two documents whose references resolve, circles of references and keywords beside references included, any choice of the offered pairs of alternatives and intersected schemas that a visit goes on to, and any two schemas to start from (the roots among them): the nesting is bounded if and only if the pairs gone on to lead from that start into no loop, a way round that is never recognisable; and then it is bounded by the sizes of the documents |
| RecursiveReferences.OrderlyWalksEnd | scripts/api-diff-schema.ts:43-142 | for every choice of pairs: if none of the nodes that the start can reach contains itself by way of a reference with keywords beside it, and no schema without a union is left with a reference in a circle, the walk ends within that bound |
| AliasChains.BareReferencesAreOrderlyExactlyWhen | scripts/api-diff-schema.ts:43-95 | where references stand alone, null stripping or not, that condition holds if and only if no schema is left in a circle; and a schema can be left in one by null stripping only, so the reference to itself of scripts/api-diff.test.ts:122-123 does no harm |
| AliasChains.EndingChainsAreOrderly | scripts/api-diff-schema.ts:43-95 | it holds wherever references stand alone and every chain of them ends, however recursive the schemas are |
| ReferenceCircles.LeftInCircleIsEndless | scripts/api-diff-schema.ts:43-142 | conversely: any schema without a union that is left with a reference in a circle, in any document, makes the walk endless against a document in which nothing is wrong, for every choice that takes fields, items and lone alternatives, as the code does |
| ReferenceCircles.OwnFieldIsEndless | scripts/api-diff-schema.ts:43-142 | so does any node that dereferencing builds anew and that has itself for a field |
| ReferenceCircles.NoneIsSafeFromTrap | scripts/api-diff-schema.ts:109-142 | no condition on one document alone is exact: against one recursive union with a keyword beside its reference, any plain schema without a reference makes the walk endless |
| ReferenceCircles.DescribedNests | scripts/api-diff-schema.ts:58-59 | the failing input: a schema under $defs with a field that refers to it with a description beside the reference; comparing two versions of it from their roots, visits nest to any depth |
| ReferenceCircles.TitledNests | scripts/api-diff-schema.ts:43-62 | another one, with a reference under $defs that names itself and a title beside the reference to it |
| References.PointerRoundTrip | scripts/api-diff-schema.ts:50-56 | split and decode give back any non-empty list of keys escaped as in section 4 of RFC 6901 and joined with slashes |
| References.Dereference | scripts/api-diff-schema.ts:43-62 | the loop with its visited set ends on every document and computes the chain the following rows are about |
| References.SiblingsWin | scripts/api-diff-schema.ts:58-59 | fields beside a reference are in the result unchanged, through the whole chain |
| References.OnlyCirclesStay | scripts/api-diff-schema.ts:44-48 | the result is the end of a chain of aliases none of which is followed twice; a reference that is still there was followed before |
| References.PrintedReferenceResolves | scripts/api-diff-schema.ts:43-62 | a reference printed from a path of keys finds the node at the end of that path, with the other fields laid over it |
| PlantedNodes.PlantedNodeIsFound | scripts/api-diff-schema.ts:43-62 | in any document with the node planted under any keys, whatever stands beside it, and at any places of arrays: a reference by the printed keys is that node with the fields beside the reference over it |
| PlantedNodes.PlantedReferenceGoesOn | scripts/api-diff-schema.ts:43-62 | if the node is a reference itself, dereferencing goes on with it, the fields laid over it |
| PlantedNodes.BrokenWayIsUnresolved | scripts/api-diff-schema.ts:51-57 | a reference by keys that break off, because the value come to has nothing under the next key, is unresolved |
| PlantedNodes.OthersAreExternal | scripts/api-diff-schema.ts:50 | a reference that does not begin with "#/" is refused as external |
| PlantedNodes.OthersStay | scripts/api-diff-schema.ts:44-48 | nothing is followed from a value that is not an object with a text under `$ref` |
| PlantedNodes.IndexOfIsDecimal | scripts/api-diff-schema.ts:52-56 | a key is a place of an array exactly when it is that place written in decimal |
| SqlScanners.JoinSplit | scripts/rebuild-daemon-db.ts:390-455 | joining the untrimmed pieces with commas gives the argument text back |
| SqlScanners.StripAgreesWithSplit | scripts/rebuild-daemon-db.ts:390-504 | stripping comments from the whole text equals stripping every piece and joining them: the two scanners read the same tokens |
| SqlScanners.TakeToken | scripts/rebuild-daemon-db.ts:397-452 | the branches of the splitter's loop: from any combination of its variables, the token taken and the new variables are those of the token rules |
| SqlScanners.SplitTopLevelArgs | scripts/rebuild-daemon-db.ts:390-455 | the splitter's loop computes the trimmed pieces, a blank tail dropped |
| SqlScanners.StripTopLevelComments | scripts/rebuild-daemon-db.ts:457-504 | the stripper's loop computes the text without comments outside quotes and brackets |
| SqlScanners.FindFtsArgOpen | scripts/rebuild-daemon-db.ts:506-547 | the search finds the first parenthesis outside quotes, brackets and comments, or reports that there is none |
| FtsOptions.FtsTopLevelOptions | scripts/rebuild-daemon-db.ts:562-574 | the reader computes the options of the arguments between the first opening and the last closing parenthesis |
| FtsStatements.ArgReadsBack | scripts/rebuild-daemon-db.ts:549-573 | one printed argument reads back: a column adds nothing, a setting its key and value |
| FtsStatements.OptionRoundTrip | scripts/rebuild-daemon-db.ts:562-574 | for any table name, column names and values, each written bare, in single quotes, double quotes, backticks or brackets, whatever commas, parentheses and comment signs the quoted ones hold, with white space and comments of both kinds anywhere between them and in any order of arguments: the options read from the statement are the settings in it, quotes inside a quoted value left doubled |
| FtsStatements.KeysIgnoreCase | scripts/rebuild-daemon-db.ts:562-574 | two keys name one option if and only if they are the same but for capitals |
| FtsStatements.SettingsAreExact | scripts/rebuild-daemon-db.ts:562-574 | with keys distinct in lower case these are exactly the settings written, and a value comes back unchanged if and only if it does not hold the quote it is written in |
| FileSwap.StageIs | scripts/rebuild-daemon-db.ts:1114-1144 | every file of the database directory after each step of the swap, for every starting disk |
| FileSwap.SwapIsSafe | scripts/rebuild-daemon-db.ts:1114-1135 | at every step a file is in the database's place: the original, or the rebuilt one with the original and its non-empty log kept as the backup |
| FileSwap.OldLogNeverBesideNewFile | scripts/rebuild-daemon-db.ts:1116-1121 | the original's log never lies beside the rebuilt file |
| FileSwap.NothingIsLost | scripts/rebuild-daemon-db.ts:1114-1144 | both databases and both logs can be found at every step |
| FileSwap.OldOrNewExactlyWhen | scripts/rebuild-daemon-db.ts:1114-1144 | a reader finds the old pair of file and log or the new pair at every step if and only if both logs are empty or absent, or the files have equal content and at most one log is not empty |
| FileSwap.BackupIsOriginalExactlyWhen | scripts/rebuild-daemon-db.ts:1116-1144 | after a finished swap the backup pair is the original pair if and only if the original had a log or no log of an earlier backup was lying there |
| FileSwap.EveryStateIsAStep | scripts/rebuild-daemon-db.ts:1114-1135 | every state in the history of a swap, failed or finished, is one of its steps |
| FileSwap.SafeThroughout | scripts/rebuild-daemon-db.ts:1114-1135 | so whatever fails and whenever, a reader at any moment finds a database, and the rebuilt one only with the whole original kept; with empty logs it reads the old or the new pair |
| FileSwap.SwapDirectory.CarrySidecar | scripts/rebuild-daemon-db.ts:1137-1144 | moves a log with content, deletes an empty one, does nothing without one |
| FileSwap.SwapDirectory.Swap | scripts/rebuild-daemon-db.ts:1115-1122 | the try block: its history is a run through the steps |
| FileSwap.SwapDirectory.Restore | scripts/rebuild-daemon-db.ts:1123-1134 | the catch block does nothing while a file is in the database's place; otherwise it moves the backup there, and its log and index where none is |
| FileSwap.SwapDirectory.PerformFileSwap | scripts/rebuild-daemon-db.ts:1114-1135 | with any failure the history is a run through the steps and the catch block finds nothing to restore; it succeeds if and only if nothing failed, and then all steps are taken |
| DependencyOrder.EmitKeepsOrder | scripts/rebuild-daemon-db.ts:664-669 | a table emitted when nothing left blocks it comes after all it depends on |
| DependencyOrder.EmitUnblocked | scripts/rebuild-daemon-db.ts:661-672 | one pass over the list: progress shrinks the remaining set, no progress means every remaining table is blocked |
| DependencyOrder.OrderByDependencies | scripts/rebuild-daemon-db.ts:656-675 | the result is a permutation of the list: tables after all their dependencies in the list, then, in list order, exactly the largest set in which each table depends on another one of it |
| DependencyOrder.LeftoverExactlyOnCycles | scripts/rebuild-daemon-db.ts:656-675 | that leftover is empty if and only if the foreign keys form no cycle, self-references aside |
| DependencyOrder.OrderedWheneverPossible | scripts/rebuild-daemon-db.ts:656-675 | if any list of the tables is in dependency order, the result is |
| BatchCopy.TakeIsSmallest | scripts/rebuild-daemon-db.ts:763-767 | a batch has the smallest rowids |
| BatchCopy.NextBatch | scripts/rebuild-daemon-db.ts:757-785 | one more batch after k of them: k+1 batches of the source |
| BatchCopy.CursorAfter | scripts/rebuild-daemon-db.ts:774-785 | the cursor set to the greatest rowid of a batch lets through exactly what is not yet copied |
| BatchCopy.TargetTable.CopyAtOnce | scripts/rebuild-daemon-db.ts:738-755 | without a usable rowid, one statement copies everything if nothing fails, and nothing otherwise |
| BatchCopy.TargetTable.CopyInBatches | scripts/rebuild-daemon-db.ts:757-794 | it succeeds if and only if no insert fails; after the k-th commit the target is the source restricted to its k*n smallest rowids, also where a later batch fails; at the end it is the source, every row once, after ceil(rows/n) batches, as the single statement leaves it |
| CommentRanges.ExpandRange | scripts/strip-comments.ts:85-111 | the three loops compute the widened range |
| CommentRanges.ExpandAddsOnlySpace | scripts/strip-comments.ts:85-111 | widening takes in white space only, except for a comment alone on an unterminated last line, whose range then ends at -1 (line 106) |
| CommentLines.OwnLinesGo | scripts/strip-comments.ts:85-106 | a comment that has its lines to itself goes with all of them and the terminator after them, which is two characters for a carriage return with a newline; -1 on an unterminated last line |
| CommentLines.TrailingBlanksGo | scripts/strip-comments.ts:107-111 | any other comment, and any in JSX, goes with all blanks and tabs right after it and nothing else |
| CommentRanges.SortKeeps | scripts/strip-comments.ts:114 | sorting by start keeps all ranges and what they cover |
| CommentRanges.MergeRanges | scripts/strip-comments.ts:113-126 | the loop over the sorted ranges, extending the last one in place, computes the merge |
| CommentRanges.MergedCoversTheSame | scripts/strip-comments.ts:113-126 | merging covers the same positions with sorted ranges that have a character between any two |
| CommentLines.MergedIsJsxExactlyWhen | scripts/strip-comments.ts:113-126 | a merged range is taken for JSX if and only if one of the ranges in it is |
| CommentStripper.StripComments | scripts/strip-comments.ts:177-227 | the cursor loop computes the stripped text that the following rows are about |
| CommentInk.AppendKeepsInk | scripts/strip-comments.ts:184-200 | appending keeps all characters that are not white space |
| CommentInk.MendKeepsInk | scripts/strip-comments.ts:203-221 | so does what is put in the place of a removed range |
| CommentInk.LoopKeepsInk | scripts/strip-comments.ts:201-226 | from any point of the loop, exactly the characters outside the ranges still to be removed are added, white space aside |
| CommentInk.InkIsKept | scripts/strip-comments.ts:177-227 | for any list of ranges in any order and with any overlaps, none alone on an unterminated last line: the output holds exactly the characters outside the comments that are not white space, in order |
| TokenSeparation.SeamIsExact | scripts/strip-comments.ts:201-221 | where ink stands on both sides of a range, exactly the gap that the rules ask for follows the text before it |
| TokenSeparation.LoopKeepsSettled | scripts/strip-comments.ts:184-226 | output up to a character that is not white space is never trimmed later |
| TokenSeparation.TokensStayApart | scripts/strip-comments.ts:177-227 | for comments in any order and with any overlaps, none alone on an unterminated last line: the characters on both sides of a removed range are apart in the final output by exactly the gap that the rules ask for, at their own place in it; outside JSX, two that would form another token (two identifier characters, or punctuation) by a newline if the range holds a line terminator and by a blank if not |
| DanglingSeams.TokensStayApartInOrder | scripts/strip-comments.ts:85-227 | the same for comments in the order of the text when the last one is alone on an unterminated last line: every removal but its reversed range, whether that range is swallowed or stands last |
| LineBreaks.MendIs | scripts/strip-comments.ts:138-162 | the two tests of the script are the rules of automatic semicolons: what is put in the place of a range is told by words ending before it (return, throw, break, continue, yield), operands before ++ and --, and the terminators in and beside it |
| KeptLineBreaks.LineBreaksStay | scripts/strip-comments.ts:138-221 | where a removed range outside JSX holds the only line break, and the last ink before it ends one of those five words, or an operand with ++ or -- after the range: in the final output a new line begins between the ink before and the ink after |
| KeptLineBreaks.LineBreaksStayInOrder | scripts/strip-comments.ts:138-221 | the same for comments in the order of the text, with or without one alone on an unterminated last line |
| KeptText.AppendIs | scripts/strip-comments.ts:184-200 | after a removal, blanks go where the line ends, and of the newlines on both sides of the join two stay where there would be more |
| KeptText.TextIsVerbatim | scripts/strip-comments.ts:177-227 | text from ink to ink that no removal touches is in the output as it stands, white space included, at its own place |
| KeptText.TextIsVerbatimInOrder | scripts/strip-comments.ts:177-227 | the same for comments in the order of the text, up to the line of one that is alone on an unterminated last line |
| CommentInk.TwoNewlinesStay | scripts/strip-comments.ts:190-196 | where more than two newlines would meet at a join exactly two stay, and otherwise none goes |
| DanglingComment.EarlierExpands | scripts/strip-comments.ts:85-111 | comments before a comment alone on an unterminated last line are widened up to that line at most |
| DanglingComment.RemovalsWithDangling | scripts/strip-comments.ts:106-126 | that comment's reversed range is swallowed if a removal ends at its line, and otherwise stands last |
| DanglingComment.LoopOverReversed | scripts/strip-comments.ts:181-226 | over a reversed last range the loop puts out the last character of the text again |
| DanglingComment.InkIsKeptExactlyWhen | scripts/strip-comments.ts:85-227 | for comments in the order of the text, the characters outside them come out if and only if no comment is alone on an unterminated last line, or no removal ends at its line and the text ends in white space |
| DanglingComment.TerminatedTextKeepsInk | scripts/strip-comments.ts:177-227 | for a text that ends in a line terminator the characters outside the comments always come out |
| DanglingComment.LetterOfTheCommentComesOut | scripts/strip-comments.ts:106 | an example: a line with one letter, then a line comment that the file ends in; a letter of the comment comes out |
| TextRewrites.SortKeeps | scripts/codemod-theme.ts:215 | sorting disjoint rewrites by descending start puts each before the one applied earlier, whatever the input order |
| TextRewrites.ApplyRewrites | scripts/codemod-theme.ts:213-219 | splicing from back to front equals replacing all ranges at once from left to right |
| ShardManifest.ParseManifest | scripts/generate-shard-weights.ts:15-40 | the parser's loop, with its three kinds of error |
| ShardManifest.ParsedPathsAreClean | scripts/generate-shard-weights.ts:19-38 | from any text, only non-empty paths without tab and newline are read |
| ManifestLines.ParsedExactly | scripts/generate-shard-weights.ts:15-40 | from any text: which lines are errors and of which kind, in the order of the lines, which paths are read, and that each has the first weight given to it |
| ShardManifest.RoundTripExactlyWhenClean | scripts/generate-shard-weights.ts:15-55 | parsing what was printed, in any order of the entries, gives the entries back without an error if and only if every path is non-empty and without tab and newline |
| FlakyRules.ExpiredExactlyWhen | scripts/flaky-test-runner.ts:145-149 | a registration is expired exactly from the day after its date on, whatever times of day are written behind the dates |
| FlakyRules.SamePathExactlyWhen | scripts/flaky-test-runner.ts:198-211 | two paths name the same file if and only if, with either slash and without a dot in front, the parts of one are the last parts of the other |
| FlakyRules.ExcusesExactlyWhen | scripts/flaky-test-runner.ts:145-211 | a registration excuses a failure if and only if suite, day, file and name allow it, told in dates and parts of paths |
| FlakyRunner.FindIsFirst | scripts/flaky-test-runner.ts:160-168 | of several registrations that excuse a failure the first one is taken |
| FlakyRunner.NoneUnknown | scripts/flaky-test-runner.ts:160-174 | no failure is unknown if and only if each has an unexpired registration of the suite that matches it |
| FlakyRunner.KnownIs | scripts/flaky-test-runner.ts:157-176 | the known entries are exactly those some failure was matched with |
| FlakyRunner.MatchKnownFlakyFailures | scripts/flaky-test-runner.ts:151-177 | the loop that fills the map and the list |
| FlakyRunner.JudgeFailure | scripts/flaky-test-runner.ts:361-386 | a failed attempt is retried if and only if it has no JUnit errors, some failures, and only registered ones |
| FlakyRunner.RunSuite | scripts/flaky-test-runner.ts:350-409 | the exit code is 0 if and only if some attempt succeeds after tolerated failures, or all maxRetries + 1 attempts fail in tolerated ways and they are at least quarantineAfterFailures; a blocked run has the exit code of the attempt that blocks it; a quarantine names the entries matched last |

## Left out

- The fallback to a plain exclusive write where hard links are not supported, and the age test of an empty lock file: in the lock protocol an empty file may be found too young at any moment. Deleting the marker or one's own lock file is taken to succeed; throwing creations and a throwing deletion in a takeover are modelled.
- DatabaseLock.SettledMutualExclusion: says nothing of runs in which a re-read finds the file missing or unparseable and the deletion still happens to be harmless; those are covered by DatabaseLock.MutualExclusion, and the exact conditions by LockRaces.ExclusionSurvivesExactlyWhen and LockRaces.RereadEndangersExactlyWhen.
- SchemaMeaning.StripUnionMeans: for anyOf only. The exclusiveness of oneOf is outside the fragment, because the walk compares the alternatives of a oneOf one by one, which says nothing about values that two of them accept.
- SchemaMeaning.WrapMeans: for the key anyOf only, for the same reason.
- SchemaShape.InputSoundness: for the fragment of `SchemaMeaning.InFragment` only. oneOf, additionalProperties and keywords the walk does not know are in the walk but not in the theorem, because the walk reports too much or too little there; allOf is not in it because closed objects do not compose. A null alternative of a union says nothing else that keeps null out, a const beside an enum is one of its values, and compared values hold no array whose order the signature forgets; what happens otherwise is in `SchemaLimits`.
- SchemaShape.ResultSoundness: the same fragment with allOf, and required names declared in properties; what happens to names that are not is in SchemaLimits.ResultFieldsCoverExactlyWhen.
- NullLimits.SoundThroughPartsExactlyWhen: exact for schemas of properties and items; below a union a null can be lost by one alternative and taken by another, and there only the sufficient condition of SchemaShape.SoundWhereNullIsKept is proved.
- SchemaExactness.ReportedExactlyWhenLost: for trees of nodes with a single type, by itself or beside null: no integer, enums and constants of numbers and texts only, arrays with items, required names declared, no unions or intersections. Where several types, integers, unions, or schemas without a type meet, the walk reports too much (SchemaReports.TypeDroppedIsReported, IntegerToNumberIsReported, ShrunkForNothing, NullReportedForNothing), and what holds is stated keyword by keyword there.
- SchemaPlaces.ReportIsAtTheLoss: for the same trees.
- SchemaSilence.SilentExactlyWhenQuiet: array-form items are not in the schema model.
- SchemaWalk: emissions are a list of path, level and kind of change; their order, the message texts and the labels of alternatives are not kept, since the caller sorts them. Two different lists of constants with the same JSON text are taken to be different identities. Property names that every JavaScript object inherits are not special.
- EndlessWalks.WalkEndsExactlyWhen: the choice of pairs sees the two schemas compared, as the matching does; the matching of `SchemaWalk` itself is not rebuilt on documents. Two spellings of one reference are taken to be one. References that do not resolve throw in the code and are excluded. The early return for two documents of equal signature (line 102) is left out; the pairs of documents in `ReferenceCircles` that are compared from their roots differ.
- References: array length and inherited properties cannot be reached by a pointer.
- FtsStatements.OptionRoundTrip: the order of the options in the map is not kept. A statement ends in white space and comments without a closing parenthesis, because the code looks for the last one (line 565).
- FileSwap: file contents are immutable values, so a hard link and a finished copy look the same; permissions and ownership are left out but for the failure of restoring them. That the new log is empty (line 1106) is not assumed.
- BatchCopy.TargetTable.CopyInBatches: SQL itself is represented by maps from rowid to row; the target starts empty, as the rebuild creates it.
- The TypeScript syntax tree that comment ranges and rewrites come from, and the identifier characters of Unicode, which are a predicate that excludes white space and, where words are told apart, holds of letters.
- Reading of numerals by the language is a function that reads decimals; DigitsReadDecimals gives one. The sort of manifest entries by locale is any order.
- FlakyRunner: paths relative to the working directory are taken as given; parsing of JUnit files, console output and the quarantine report are left out.
- mergeManifest, classification of tables, integrity checks, disk space, prompts and the command lines, which are straight-line code or describe SQLite.
