# Gatekeeper: verified models of mutation, watches and readiness

Gatekeeper mutates and validates Kubernetes objects. This project models six of its parts in Dafny
and proves what they are for. `dafny verify dfyconfig.toml` checks the whole project.

| files | part |
|---|---|
| `SchemaNode`, `SchemaLaws`, `SchemaDB` | The implicit schema of the mutators' paths: a reference-counted trie for each kind, and the set of mutators in conflict. The tree is proved to be exactly the trie of the live paths, and its answers are compared with a pairwise definition of conflict. |
| `Json`, `Engine` (in `Engine.dfy`), `EngineMeaning`, `EngineHeap`, `AssignLaws` | One mutation of one JSON location. `Engine.Update` is a pure update; `EngineHeap.Heap` runs the source's algorithm on a heap of maps, in place, with lists copied before they change, and is proved to do the same. `EngineMeaning` says without the update which values it goes through, where it fails, when it changes something and what stands at the location afterwards. |
| `FixedPoint`, `MutationSystem` | The ordered list of mutators, and their application in passes until nothing changes. When that must end is proved for abstract mutators (`Convergence`) and for Assigns whose locations part somewhere (`Separation` and `AssignSystems`, in `AssignLaws.dfy`). |
| `PathText`, `PathParser`, `PathPrinter`, `PathTexts` | Scanner, parser and printer of the path language, and when the last two undo each other. `PathTexts` says, character by character, which words, lists and quoted strings parse to what. |
| `ReplayTracker`, `WatchProtocol`, `WatchSafety`, `WatchProgress`, `WatchRest`, `WatchManager` | The watch manager: as a step relation over all interleavings with the replay loop, and as a class whose calls run one at a time. `WatchSafety` says what it never does, `WatchProgress` what it does get done (a joining registrar gets its replay, an intended kind is watched), `WatchRest` that it has no deadlock. |
| `ObjectTracker`, `ReadyTracker`, `ReadyProgress` | The readiness trackers: a class over freed and held maps, its histories, and a step relation in which any number of readiness checks interleave with everything else. `ReadyProgress` says when a check answers true, `ReadyTracker` what that means. |
| `ConfigReconcile` | The Config reconciler and the data cache it feeds, under arbitrary failures and arbitrary steps of the sync controller. |
| `DashPacker` | The codec of status names. |
| `Types`, `Mutators` | Shared records. |

## How to read it

Where the source changes fields step by step, the model is a class (or a method with a loop) whose
contract ties the new state to a specification function of the old one: `Update`, `Lex`,
`ParseFrom`, `Verdict`, `Unpack`, `Step`, `Added` and `Finished` are such functions, and the lemmas
are about them. Where the source is concurrent, the model is a relation between states,
one atomic action of one goroutine at a time, and the lemmas are about every run.

A schema node is a struct kept by value in its parent's map; the model copies, changes and stores
it back as the source does. An `error` is a constructor or a `None`. A panic is a precondition that
is proved at each call, or the answer `ok == false`. What the cluster answers, which calls to
it fail, and in what order a map is traversed are arbitrary.

## Where the code falls short of its words

Each of these is a lemma with a concrete input; beside it stands the exact condition.

* `DB.HasConflicts` is documented to be true until the mutators that conflict with an ID are
  removed. It can stay true for longer (`SchemaDB.ConflictOutlivesItsCause`): a removal keeps an ID
  iff it still conflicts or two *other* paths disagree about its last field
  (`SchemaDB.ReportsIsExact`).
* `node.HasConflicts` counts those other paths too (`SchemaLaws.HasConflictsOverreports`; exactly
  when: `SchemaLaws.HasConflictsIsExact`).
* `Node.String` is documented to be undone by `Parse`. It is, iff every string in the path either
  triggers quoting or is a bare word (`PathPrinter.RoundTrip`); `a/b` is neither
  (`PathPrinter.SlashIsLost`).
* `parseInt64` is meant to refuse what overflows an int64, but 20000000000000000000 is read as another
  number (`Decimal.ParseInt64CanWrap`). A number is refused iff some prefix of it, taken modulo 2^64,
  exceeds the int64 limit, and otherwise read modulo 2^64 (`Decimal.ParseInt64IsExact`).
* A tracker of which everything expected was observed need not become satisfied: it does iff
  nothing that is not canceled was expected again after it was satisfied
  (`Expectations.MetTripsIff`, `Expectations.ExpectedAgainIsStuck`). In every interleaving such an
  object keeps the process from becoming ready as long as readiness depends on its tracker (for a
  constraint or data kind: while the kind is expected, not canceled and not removed) and nobody
  cancels the object, and the collector of invalid
  expectations overlooks it (`ReadyTracker.ExpectedAgainIsNeverReady`). A Config that lists a kind
  twice under `syncOnly` is such a case: its tracker can be satisfied without a cancellation iff no
  kind is listed twice (`TrackConfig.ConfigIsSatisfiedIffDistinct`).
* Unique list keys need not stay unique (`Engine.GlobKeyRewriteMakesDuplicates`): a mutation keeps them
  unique in every list iff it does not go through the key field of a globbed list, or by its tests
  cannot alter an element of it (`Engine.KeysStayUniqueIff`; `Engine.CanAlter` computes the latter).
* `AddWatch` is meant to leave the registrar watching the kind. If `RemoveWatch` and then `AddWatch` of
  one kind wait for the lock and the later call gets it first, both succeed, and the registrar is left at
  rest without the watch that it intends (`IntentProgress.LateRemovalUndoesAdd`). In every run a kind that
  is intended is watched, or the addition is still to come, unless since it was last added its informer
  could not be had or such a removal came late (`IntentProgress.IntentIsWatched`).
* The write step of `objectTracker.Satisfied` says it resolves observations that came before their
  expectations; there are never any (`Expectations.NothingToResolve`).

## Model

| member | source | states |
|---|---|---|
| SchemaNode.Add | pkg/mutation/schema/node.go:50-87 | From the trie of the live paths to the trie of those and the new one; the IDs returned are all that disagree with another live path at some position of the new path. |
| SchemaNode.Remove | pkg/mutation/schema/node.go:93-135 | Does not panic iff the ID is live with a path that begins with this one; for an ID with one live path, removing it gives the trie of the others, so no unreferenced child is left. |
| SchemaNode.Conflicts | pkg/mutation/schema/node.go:137-164 | The counts of types and of list keys report exactly the IDs of live paths that disagree with another about this field: object against list, or different list key fields. |
| SchemaNode.HasConflicts | pkg/mutation/schema/node.go:170-193 | Its answer in terms of the live paths: not found, a conflict at some field on the way, or none. |
| SchemaNode.EncodeIsWellTyped | pkg/mutation/schema/node.go:210-219 | Only the last element of a path has an unknown type. |
| SchemaNode.TrieIsUnique | pkg/mutation/schema/node.go:28-38 | The tree is determined by the live paths alone. |
| SchemaNode.TrieFrame | pkg/mutation/schema/node.go:78-80 | A subtree is not affected by paths that do not pass through it. |
| SchemaNode.ReportedIsExact | pkg/mutation/schema/node.go:148-158 | A type at a field is reported iff each path that uses it disagrees with some live path. |
| SchemaLaws.ConflictsAreExact | pkg/mutation/schema/node.go:137-164 | Over all positions, conflicts reports exactly the IDs in pairwise conflict. |
| SchemaLaws.LocationsConflictIff | pkg/mutation/schema/node.go:40-49 | Said of the locations themselves: two conflict iff they go the same way up to some node that is then an object for one and a list for the other, or a list for both with different key fields; the values of list keys and globs play no part. |
| SchemaLaws.AddToConflictFree | pkg/mutation/schema/node.go:40-49 | Added to a conflict-free tree, a path reports nothing, or exactly its ID and everything it conflicts with. |
| SchemaLaws.HasConflictsIsExact | pkg/mutation/schema/node.go:166-193 | For a live path, true iff it conflicts with another, or others disagree about its last field. |
| SchemaLaws.HasConflictsOverreports | pkg/mutation/schema/node.go:166-193 | A path in no conflict for which HasConflicts is true. |
| SchemaLaws.HasConflictsIsMonotone | pkg/mutation/schema/node.go:170-193 | More live paths never hide a conflict. |
| SchemaLaws.RemovablePathIsWhole | pkg/mutation/schema/node.go:91-118 | A nonempty path can be removed without a panic only if its steps are those of the added path: an incomplete path is noticed. |
| SchemaLaws.AddThenRemove | pkg/mutation/schema/node.go:50-135 | Adding an ID that nothing references gives the trie with its path; removing it again gives the same tree back, without a panic. |
| SchemaLaws.AddTwo | pkg/mutation/schema/node.go:50-87 | The trie after two additions. |
| SchemaLaws.AddInEitherOrder | pkg/mutation/schema/node.go:50-87 | Two paths added in either order give the same tree, which is the trie with both. |
| SchemaDB.DB.constructor | pkg/mutation/schema/schema.go:24-30 | An empty, valid database. |
| SchemaDB.DB.Upsert | pkg/mutation/schema/schema.go:61-117 | Keeps the invariant: each schema is the trie of the paths bound to its kind and exists iff there are any; every pairwise conflict is known, and every known conflict is reported by a schema. The cache holds exactly this mutator under its ID afterwards, whatever was there before. States the conflicts found and the conflict set; no effect without a difference. |
| SchemaDB.DB.Remove | pkg/mutation/schema/schema.go:119-175 | Keeps the invariant; the ID leaves the cache, and of the other conflicts exactly those stay that a schema still reports. |
| SchemaDB.DB.AddToSchemas | pkg/mutation/schema/schema.go:97-106 | Brings the schema of every binding up to date and collects the conflicts found. |
| SchemaDB.DB.AddToSchema | pkg/mutation/schema/schema.go:99-105 | The same for one binding: the other schemas stay as they are. |
| SchemaDB.DB.RemoveFromSchemas | pkg/mutation/schema/schema.go:132-148 | Takes the path out of every schema it is in; the missing-schema panic is unreachable. |
| SchemaDB.DB.RemoveFromSchema | pkg/mutation/schema/schema.go:133-147 | The same for one binding; the schema is dropped iff nothing references it. |
| SchemaDB.DB.RecheckConflicts | pkg/mutation/schema/schema.go:156-174 | Keeps exactly the conflicts that some schema reports; no missing mutator is dereferenced. |
| SchemaDB.DB.HasConflictsAnywhere | pkg/mutation/schema/schema.go:161-169 | Whether the schema of some binding reports a conflict. |
| SchemaDB.DB.HasConflicts | pkg/mutation/schema/schema.go:177-184 | True for every ID in pairwise conflict, and only for IDs that some schema reports; for an ID whose last field no others dispute, true iff it conflicts. |
| SchemaDB.ReportsIsExact | pkg/mutation/schema/schema.go:46-48 | A schema reports an ID iff it conflicts somewhere or its last field is disputed somewhere. |
| SchemaDB.KnownIsExact | pkg/mutation/schema/schema.go:39-48 | In every valid state the known conflicts are the pairwise ones, up to IDs whose last field others dispute. |
| SchemaDB.ConflictOutlivesItsCause | pkg/mutation/schema/schema.go:46-48 | Four mutators: after the only one that conflicts with an ID is removed, the ID still counts as conflicting. |
| IdOrder.GreaterOrEqual | pkg/mutation/system.go:243-269 | The cascade of comparisons is the complement of the lexicographic order by group, kind, namespace and name. |
| IdOrder.IdLessIsStrictTotal | pkg/mutation/system.go:243-279 | Any two IDs are ordered one way or equal, never both. |
| IdOrder.IdLessIsTransitive | pkg/mutation/system.go:243-269 | The order is transitive. |
| IdOrder.LessIsLexicographic | pkg/mutation/system.go:243-269 | Strings are in order iff at the first place where they differ one ends or has the smaller character. |
| IdOrder.IdLessIsByFields | pkg/mutation/system.go:243-269 | The first of group, kind, namespace and name that differs decides. |
| MutationSystem.Search | pkg/mutation/system.go:62-64 | The first position whose ID is not before the given one, on every sorted list. |
| MutationSystem.System.constructor | pkg/mutation/system.go:29-35 | An empty, valid system. |
| MutationSystem.System.Upsert | pkg/mutation/system.go:39-81 | Keeps the invariant: the list is strictly sorted and holds exactly the mutators of the map, the schema database caches some of them and has no conflicts. Without a rejection the map holds exactly this mutator under its ID afterwards, whatever was there before. Rejects iff the mutator's path clashes with a cached one; a rejection leaves list and map alone, and for a new ID the schemas too; for a known ID it drops the schema entry. |
| MutationSystem.System.InsertOrdered | pkg/mutation/system.go:60-80 | Insertion or replacement keeps the list sorted and in step with the map. |
| MutationSystem.System.UpsertSchema | pkg/mutation/system.go:52-58 | A conflicting mutator is taken out again, and nothing else with it. |
| MutationSystem.System.Remove | pkg/mutation/system.go:201-232 | Never misses nor goes out of range; the mutator leaves list, map and database. |
| MutationSystem.System.DeleteOrdered | pkg/mutation/system.go:211-231 | The search finds the ID, and only its mutator is deleted. |
| MutationSystem.System.Mutate | pkg/mutation/system.go:83-146 | With annotations off and deterministic mutators, the reference verdict; after a success the object is what the passes make of the original, it is a fixed point, and mutated is true iff it differs from the original; a mutator error and "not converging" are reported iff the passes end in an error, or the last of them still changes the object; never "oscillating". |
| FixedPoint.Mutate | pkg/mutation/system.go:97-145 | The loop with its early exits gives the verdict of running one pass more than there are mutators; "not converging" iff the pass after as many as there are mutators still changes something; the oscillating branch is not reached. |
| FixedPoint.RunPass | pkg/mutation/system.go:100-115 | One pass, ended by the first error. |
| FixedPoint.PassIsTrace | pkg/mutation/system.go:100-115 | A pass succeeds with some object iff each mutator, in order, leads from what the one before it left to the next and the last one to that object; it fails iff such a row breaks off at a mutator that fails. |
| FixedPoint.PassesAre | pkg/mutation/system.go:97-118 | Each pass works on what the one before it left. |
| FixedPoint.SettledStays | pkg/mutation/system.go:116-118 | Once a pass changes nothing, no later one does. |
| Convergence.StepKeepsQuiet | pkg/mutation/system.go:100-115 | Whichever mutator runs next, the ones that change nothing and that only they can wake stay so. |
| Convergence.PassQuiets | pkg/mutation/system.go:100-115 | After a pass, a mutator that only quiet ones can wake is quiet. |
| Convergence.RankedConverges | pkg/mutation/system.go:90-145 | Idempotent mutators never give "not converging" if none can wake another, that is, give it something to do again, in a cycle. |
| Convergence.UnrelatedSleeps | pkg/mutation/system.go:100-115 | A mutator is not woken by one that writes neither where it writes nor where it looks. |
| Convergence.OrderlyConverges | pkg/mutation/system.go:90-145 | Idempotent mutators that write disjoint locations and read each other's without a cycle never give "not converging". |
| AssignLaws.ApplyAssignIsIdempotent | pkg/mutation/mutators/assign_mutator.go:47-61 | Matching and applying a well-formed Assign is idempotent, whatever it matches. |
| AssignLaws.OneAssignConverges | pkg/mutation/system.go:90-145 | A system with one well-formed Assign always converges. |
| Separation.NotWoken | pkg/mutation/mutators/core/mutation_function.go:39-188 | If two locations go the same way up to some depth, where a glob and a key of the same list may meet, and lead to different fields or list keys there, then what one mutation does leaves the other without anything to do if it had nothing, unless it insists on finding what the first one may create, or goes by a glob through a list to which the first one may add. |
| Separation.KeyedUpdate | pkg/mutation/mutators/core/mutation_function.go:84-188 | Below a list key only elements with that key change or are added, and they keep it. |
| Separation.KeepsEveryKey | pkg/mutation/mutators/core/mutation_function.go:102-126 | An update of a list element, by a glob or a key, leaves it open for no key whether the element has it: the same keys, even if the location goes through the key field. |
| Separation.GetUntouched | pkg/mutation/mutators/core/mutation_function.go:39-83 | The value at a path of fields stays, unless the location leads through it or ends above it. |
| AssignSystems.RuleDoesNotWake | pkg/mutation/mutators/assign_mutator.go:47-61 | The same for Assigns with what they match: one that has nothing to do is not given anything by one it does not look at. |
| AssignSystems.AssignsConverge | pkg/mutation/system.go:90-145 | Well-formed Assigns to different places, whether other fields or other elements of a list, at any depth and also where a glob and a key meet in a list, always converge, unless they decide by what the others write or create in a cycle. |
| EngineHeap.Heap.Mutate | pkg/mutation/mutators/core/mutation_function.go:17-27 | On every parser-shaped path: an error iff the pure update fails; otherwise the map at the root holds the updated object, and if it reports no mutation, no map anywhere has changed. |
| EngineHeap.Heap.MutateTwice | pkg/mutation/mutators/core/mutation_function.go:37-147 | The first run fails iff the pure update does and otherwise leaves the updated object; then, for a well-formed mutation, a second run succeeds, reports what the pure update of that object says, and leaves it as it is. |
| EngineHeap.Heap.MutateInternal | pkg/mutation/mutators/core/mutation_function.go:39-147 | In place, what Update says of values: only maps inside the value are touched, a changed map stays at its address, and without a mutation nothing is. |
| EngineHeap.Heap.MutateObject | pkg/mutation/mutators/core/mutation_function.go:42-83 | The same at an object of the path, with its existence tests. |
| EngineHeap.Heap.AssignField | pkg/mutation/mutators/core/mutation_function.go:57-68 | The same at the end of the path: a fresh copy of the value is written iff the value test holds. |
| EngineHeap.Heap.MutateField | pkg/mutation/mutators/core/mutation_function.go:69-83 | The same further down, creating the missing field only if something below it changes. |
| EngineHeap.Heap.MutateList | pkg/mutation/mutators/core/mutation_function.go:84-143 | The same at a list: globs, keys, missing and forbidden elements. |
| EngineHeap.Heap.MutateSelected | pkg/mutation/mutators/core/mutation_function.go:102-126 | Dropping what the recursive calls return loses nothing: the copied list of references still names the changed elements. |
| EngineHeap.Heap.MutateElement | pkg/mutation/mutators/core/mutation_function.go:103-126 | One round of that loop. |
| EngineHeap.Heap.MutateNewElement | pkg/mutation/mutators/core/mutation_function.go:127-142 | A missing element is created with its key, changed and appended, or nothing happens. |
| EngineHeap.Heap.AppendMutated | pkg/mutation/mutators/core/mutation_function.go:136-143 | The created element is in the result iff something below it changed, though it is appended before it is changed. |
| EngineHeap.Heap.SetListElement | pkg/mutation/mutators/core/mutation_function.go:149-188 | A list element as target: replaced, appended, left alone or an error, as the pure update says. |
| EngineHeap.Heap.FindElement | pkg/mutation/mutators/core/mutation_function.go:169-183 | The first element with the key, unless one before it is not a map. |
| EngineHeap.Heap.Create | pkg/mutation/mutators/core/mutation_function.go:190-215 | A new value that shares nothing, with its key if it is a list element; an error for a keyless list element or two lists in a row. |
| EngineHeap.Heap.Matches | pkg/mutation/mutators/core/mutation_function.go:111-113 | Whether an element carries the list's key. |
| EngineHeap.Heap.Copy | pkg/mutation/mutators/assign_mutator.go:103-105 | A deep copy: equal, and made of new maps only. |
| EngineHeap.Heap.Read | pkg/mutation/mutators/assign_mutator.go:64-93 | The JSON value compared by the value test. |
| Engine.UpdateIsIdempotent | pkg/mutation/mutators/core/mutation_function.go:39-188 | For every well-formed mutation, path tests, value tests, globs and duplicate keys included: after an update a second one succeeds and changes nothing. |
| Engine.SetElementIsIdempotent | pkg/mutation/mutators/core/mutation_function.go:149-188 | The same for a list element as target. |
| Engine.ElemsPointwise | pkg/mutation/mutators/core/mutation_function.go:103-126 | Each element is updated for itself; the list fails iff some element does, and changes iff some element does. |
| Engine.UpdateOnlyAtLocation | pkg/mutation/mutators/core/mutation_function.go:39-188 | Everything off the path stays the same and in order; at most one element is appended to a list, and only if nothing in it was selected. |
| Engine.KeepsKey | pkg/mutation/mutators/assign_mutator.go:259-290 | Below a keyed element its key is left alone. |
| Engine.KeysStayUnique | pkg/mutation/mutators/core/mutation_function.go:84-188 | Unless the location goes through the key field of a globbed list, unique list keys stay unique. |
| Engine.KeysStayUniqueIff | pkg/mutation/mutators/core/mutation_function.go:84-147 | Unique keys stay unique in every list iff it does not, or the list may not exist, or the tests and the rest of the path let no element be altered. |
| Engine.CanAlterIsExact | pkg/mutation/mutators/core/mutation_function.go:39-188 | What can be computed from the path tests, the value test and the path is exact: a well-formed mutation alters some value iff it says so. |
| Engine.BuildsIsExact | pkg/mutation/mutators/core/mutation_function.go:69-142 | The same for a value that the update itself created. |
| Engine.AlteredElementCollides | pkg/mutation/mutators/core/mutation_function.go:102-126 | Otherwise every element that is altered makes a list of two with unique keys into one with a key twice. |
| Engine.GlobKeyRewriteMakesDuplicates | pkg/mutation/mutators/core/mutation_function.go:104-110 | That exception is real. |
| Engine.ChangingTheKeyIsNotIdempotent | pkg/mutation/mutators/assign_mutator.go:259-290 | Without checkKeyNotChanged a mutation need not be idempotent. |
| EngineMeaning.RefusedLocations | pkg/mutation/mutators/assign_mutator.go:259-290 | A location that parses is refused iff it is empty or ends in the key field of a list element. |
| EngineMeaning.RefusedValues | pkg/mutation/mutators/assign_mutator.go:292-318 | The value of a list element is accepted iff the list has a key and no glob and the value is an object with that key; for other locations every value is. |
| EngineMeaning.LastFieldIsExact | pkg/mutation/mutators/core/mutation_function.go:42-68 | At the last field: an error iff the value is no object; the field is set iff, if there, the path test allows something that exists, In is empty or lists its value and NotIn does not list it, and, if missing, the path test allows that and In is empty; otherwise nothing changes. |
| EngineMeaning.LastListIsExact | pkg/mutation/mutators/core/mutation_function.go:149-188 | At the last list: the first element that has the key or is no object decides between replacement and error; without one the value is appended; the path test may forbid either. |
| EngineMeaning.UpdateIsExact | pkg/mutation/mutators/core/mutation_function.go:39-147 | An update fails iff, going through fields and selected elements as the path tests allow and into what it creates, it gets to a value of the wrong type; if it does not fail, it changes something iff it gets to a place at the end of the path that the tests let it write. |
| EngineMeaning.ValueIsAssigned | pkg/mutation/mutators/core/mutation_function.go:39-188 | After an update that changed something the assigned value stands at the location. |
| EngineMeaning.OthersWereKept | pkg/mutation/mutators/assign_mutator.go:63-93 | Every other value at the location was there before, and a value test keeps it (it is not in a nonempty In, or it is in NotIn) or a path test asks for something missing. |
| EngineMeaning.KeptStays | pkg/mutation/mutators/assign_mutator.go:63-93 | A value at the location that is not in a nonempty In, or is in NotIn, is still there after a run without an error. |
| PathTokens.ScanQuoted | pkg/mutation/path/token/scanner.go:109-136 | A closed quoted string uses up text. |
| PathTokens.NextToken | pkg/mutation/path/token/scanner.go:47-93 | Scanning terminates: every token but the end uses up text, and the end is the end. |
| PathScanner.Scanner.Next | pkg/mutation/path/token/scanner.go:47-93 | The cursor gives the next token of the text left, with the sticky error. |
| PathScanner.Scanner.Current | pkg/mutation/path/token/scanner.go:52-90 | The token at a character that is not white space. |
| PathScanner.Scanner.CurrentQuoted | pkg/mutation/path/token/scanner.go:78-90 | The same at a quote. |
| PathScanner.Scanner.Read | pkg/mutation/path/token/scanner.go:95-107 | Advances by one character, and stays at the end. |
| PathScanner.Scanner.ReadString | pkg/mutation/path/token/scanner.go:109-136 | The string up to the unescaped closing quote, without escapes, or what there is of it. |
| PathScanner.Scanner.ReadRun | pkg/mutation/path/token/scanner.go:138-153 | The longest run of identifier characters, or digits. |
| PathScanner.Scanner.SkipWhitespace | pkg/mutation/path/token/scanner.go:185-189 | Skips all white space and nothing else. |
| Decimal.ParseInt64 | pkg/mutation/path/parser/parser.go:173-185 | The loop with wrapping arithmetic is the recursive reading of the digits. |
| Decimal.ParseInt64IsExact | pkg/mutation/path/parser/parser.go:170-185 | Every digit string is refused iff some prefix of it exceeds the int64 limit modulo 2^64, and otherwise read modulo 2^64; so it is read as itself iff it fits an int64, and below 2^64 refused iff it does not. |
| Decimal.ParseInt64CanWrap | pkg/mutation/path/parser/parser.go:179-182 | 20000000000000000000 is accepted as another number. |
| Decimal.DigitsInPlace | pkg/mutation/path/parser/parser.go:173-185 | 1234567890 is read as itself: the ten digits in their order and with their places. |
| Decimal.Digits | pkg/mutation/path/parser/node.go:130-131 | A number in decimal reads back as itself. |
| PathParser.Parser.constructor | pkg/mutation/path/parser/parser.go:38-47 | A current token and one of lookahead. |
| PathParser.Parser.Advance | pkg/mutation/path/parser/parser.go:49-53 | One token on. |
| PathParser.Parser.Expect | pkg/mutation/path/parser/parser.go:55-64 | One token on iff the next one is as expected. |
| PathParser.Parser.ParseList | pkg/mutation/path/parser/parser.go:115-155 | The five tokens of a list, or an error. |
| PathParser.Parser.ParseValue | pkg/mutation/path/parser/parser.go:133-148 | A glob, a string or an integer that fits. |
| PathParser.Parser.ParseNodes | pkg/mutation/path/parser/parser.go:75-84 | An object and the list that may follow. |
| PathParser.Parser.ParseSeparator | pkg/mutation/path/parser/parser.go:86-102 | A separator that is not the last token, or the end. |
| PathParser.Parser.Parse | pkg/mutation/path/parser/parser.go:72-113 | On every token sequence the loop ends and gives the path of the grammar, or an error iff there is none. |
| PathParser.Parse | pkg/mutation/path/parser/parser.go:32-36 | The same from the text. |
| PathPrinter.Print | pkg/mutation/path/parser/node.go:56-67 | The text of the nodes with separators before objects but not before lists. |
| PathPrinter.ParsedIffSpelled | pkg/mutation/path/parser/parser.go:72-155 | A text parses to a path iff its tokens spell it and it is parser-shaped: an object first, no two lists in a row, a key exactly without a glob. |
| PathPrinter.RoundTrip | pkg/mutation/path/parser/node.go:35-38 | Parsing what was printed gives the path back iff each of its strings is quoted or a bare word. |
| PathPrinter.SlashIsLost | pkg/mutation/path/parser/node.go:140-161 | `a/b` is a path that printing loses. |
| PathPrinter.ParserShapedIsExact | pkg/mutation/path/parser/parser.go:72-155 | The paths Parse can return are exactly the parser-shaped ones, with any strings. |
| PathPrinter.ScanEscaped | pkg/mutation/path/parser/node.go:155-157 | Scanning undoes the escaping of quote. |
| PathPrinter.EscapeIsReplace | pkg/mutation/path/parser/node.go:155-156 | The two replacements in this order escape each quote and backslash once. |
| PathPrinter.ScanWord | pkg/mutation/path/parser/node.go:146-161 | A printed string is scanned as itself iff it was quoted or is a bare word. |
| PathTexts.WordIsPath | pkg/mutation/path/token/scanner.go:162-189 | Every nonempty string of letters, digits, underscores and dashes that does not begin with a digit parses, with any blanks, tabs, carriage returns and line feeds around it, to the path of that one field. |
| PathTexts.DottedIsPath | pkg/mutation/path/parser/parser.go:86-102 | Two such words with a dot between them are two fields; white space around the dot does not count. |
| PathTexts.ListIsPath | pkg/mutation/path/parser/parser.go:115-155 | A word, and in brackets a key field, a colon and a word or a star: a field and a list by that key, or a globbed list. |
| PathTexts.QuotedIsPath | pkg/mutation/path/token/scanner.go:109-136 | Every string, in single or double quotes and with backslashes before that quote and before backslashes, parses to the path of that one field. |
| PathTexts.UnclosedIsRefused | pkg/mutation/path/token/scanner.go:127-130 | Without the closing quote it does not parse. |
| PathTexts.ForeignIsRefused | pkg/mutation/path/token/scanner.go:82-86 | At the start of a text and after a word, every character that is no word character, white space, quote or one of `.[]:*` is an error, whatever follows it. |
| PathTexts.FieldSurvivesIff | pkg/mutation/path/parser/node.go:140-161 | A field survives printing and parsing iff it is empty, begins with a digit, has one of the characters that trigger quoting, or is such a word. |
| PathTexts.PrintedForm | pkg/mutation/path/parser/node.go:56-67 | The printed form of words: bare, with a dot before a field and brackets, colon and blank for a list. |
| ReplayTracker.Added | pkg/watch/replay.go:81-90 | One more replay of this kind, and a wait channel if it had none; no other kind changes. |
| ReplayTracker.Finished | pkg/watch/replay.go:93-106 | One less, and the channel is closed with the last one, and only then. |
| ReplayTracker.ReplayTracker.AddReplay | pkg/watch/replay.go:80-90 | The maps change as Added says. |
| ReplayTracker.ReplayTracker.ReplayDone | pkg/watch/replay.go:92-106 | The maps change as Finished says. |
| ReplayTracker.ReplayTracker.ReplayWaitCh | pkg/watch/replay.go:108-119 | An open channel iff replays of the kind are running. |
| ReplayTracker.ReplayTracker.SetIntent | pkg/watch/replay.go:50-68 | Adds or removes this registrar's intent for this kind only. |
| ReplayTracker.ReplayTracker.ReplayIntended | pkg/watch/replay.go:70-78 | Reads it. |
| ReplaySafety.ReplayStepKeeps | pkg/watch/replay.go:124-214 | Every step of the loop and of a replay keeps counts exact, replay numbers new and running replays cancelable. |
| WatchSafety.RunsKeepInv | pkg/watch/manager.go:141-286 | The invariant of the protocol holds in every state of every run. |
| WatchSafety.NoReplayAtCacheRemove | pkg/watch/manager.go:228-242 | In every run, while the manager is not stopped, an informer is removed only when no replay of its kind is running or about to start. |
| WatchSafety.ReplaysAreCounted | pkg/watch/replay.go:80-119 | In every run: counts are the numbers of running replays, a kind has an open channel iff its count is positive, replayDone never panics, and a registrar has at most one uncanceled replay of a kind. |
| WatchSafety.WatchesFollowIntent | pkg/watch/registrar.go:216-251 | In every run, whoever watches a kind it does not intend to has a removal or replacement pending or under way; at rest what is watched is intended. |
| WatchSafety.OneHandlerPerKind | pkg/watch/manager.go:173-195 | In every run, when the lock is free: a watched kind has a watcher and exactly one event handler, and no other kind has one, unless the kind's last removal from the cache failed; such a kind stays watched and keeps at least one. |
| ReplayProgress.WantedReplayStarts | pkg/watch/replay.go:134-180 | In every run, while the manager is not stopped: a replay that is wanted was started and not canceled, or its request is with the loop, or is about to be sent, unless the loop dropped it since the registrar has no channel. |
| ReplayProgress.RunsStartReplays | pkg/watch/replay.go:182-189 | In every run, each replay that the loop can cancel was started or is just being started for that registrar and kind, and its context is canceled only if it ended by itself. |
| ReplayProgress.RunsKeepJoin | pkg/watch/manager.go:160-195 | In every run, whoever is on the list of a kind wants a replay of it, got a fresh informer as its first watcher, or is about to leave. |
| ReplayProgress.EveryJoinerGetsAReplay | pkg/watch/manager.go:160-195 | In every run, while the manager is not stopped: when the lock is free and the loop idle, whoever is on the list of a kind got a fresh informer as its first watcher, or a replay that was started and that nobody canceled; the exception is a registrar without a channel. |
| IntentProgress.IntentIsWatched | pkg/watch/registrar.go:216-251 | In every run, a kind that a registrar intends to watch is watched, or an addition or replacement is pending or under way, unless since it was last added its informer could not be had or a removal came late; at rest only those two exceptions are left. |
| IntentProgress.LateRemovalUndoesAdd | pkg/watch/registrar.go:246-251 | A run in which no call fails and which leaves a registrar at rest without the watch that it intends. |
| WatchRest.NeverDeadlocked | pkg/watch/manager.go:147-286 | In every run, as long as an operation, a request or a replay is pending or under way, some step other than a call from outside can be taken: the lock, the replay loop and the replays do not wait for each other in a circle. |
| WatchRest.StepsLeaveLess | pkg/watch/replay.go:134-214 | In every run, each such step that changes something leaves less to do in a well-founded order, so between two calls there are only finitely many. |
| WatchRest.ComesToRest | pkg/watch/manager.go:147-286 | Every run can be continued without further calls to a state in which nothing is pending or under way. |
| WatchManager.Manager.Get | pkg/watch/registrar.go:149-172 | The intents turned around: for each wanted kind, exactly those who want it. |
| WatchManager.Manager.DoAddWatch | pkg/watch/manager.go:147-200 | Fails iff the kind is not intended, or its first informer cannot be had; otherwise exactly this registrar joins, with a handler iff it is the first. |
| WatchManager.Manager.DoRemoveWatch | pkg/watch/manager.go:208-248 | Exactly this registrar leaves; the informer goes with the last one, unless removing it fails. |
| WatchManager.Manager.LeaveOthers | pkg/watch/manager.go:258-266 | The registrar leaves exactly the kinds it does not desire. |
| WatchManager.Manager.JoinDesired | pkg/watch/manager.go:268-276 | It joins exactly the kinds it desires and that do not fail. |
| WatchManager.Manager.ReplaceWatches | pkg/watch/manager.go:250-286 | Both loops, and exactly which kinds fail. |
| WatchManager.Manager.AddWatch | pkg/watch/registrar.go:216-230 | Intent and watch; the intent stays if the watch fails. |
| WatchManager.Manager.RemoveWatch | pkg/watch/registrar.go:246-251 | Intent and watch; nobody else notices. |
| WatchManager.Manager.ReplaceWatch | pkg/watch/registrar.go:232-244 | After a success the registrar watches exactly its argument; nobody else's watches change in any case; which kinds fail. |
| Expectations.StepKeepsInv | pkg/readiness/object_tracker.go:84-253 | Every call keeps the sets apart and their meaning: awaited, seen, satisfied and canceled say what was accepted, observed and canceled. |
| Expectations.TripsOnlyWhenMet | pkg/readiness/object_tracker.go:315-330 | The breaker trips only if everything accepted was observed or canceled, and the kinds kept are those of what was not canceled. |
| Expectations.TrippedForever | pkg/readiness/object_tracker.go:215-218 | A tripped tracker never changes again, kinds included. |
| Expectations.MetTripsIff | pkg/readiness/object_tracker.go:262-331 | When all is observed or canceled, a check trips the breaker iff nothing uncanceled was expected again after it was satisfied. |
| Expectations.ExpectedAgainIsStuck | pkg/readiness/object_tracker.go:84-119 | An object expected, observed and expected again keeps the tracker from tripping, whatever comes later, until it is canceled. |
| Expectations.StuckForever | pkg/readiness/object_tracker.go:84-119 | The same for every history in which a key was expected again after it was satisfied. |
| Expectations.StuckNow | pkg/readiness/object_tracker.go:196-208 | Such a key is not among the unsatisfied ones that the collector may cancel. |
| Expectations.NothingToResolve | pkg/readiness/object_tracker.go:301-313 | Nothing seen is ever awaited when the write step runs. |
| Expectations.CancelsWhenRetriesAreUsed | pkg/readiness/objset.go:45-59 | A try cancels iff the allotted retries are used up, and never if they are negative. |
| Expectations.PopulatedIff | pkg/readiness/object_tracker.go:184-193 | A tracker counts as populated iff ExpectationsDone was called. |
| Expectations.AcceptedIff | pkg/readiness/object_tracker.go:84-119 | A key is accepted, and so waited for, iff some call expected it, not being deleted, before the tracker was populated and before the key was canceled. |
| Expectations.ObservedIff | pkg/readiness/object_tracker.go:211-253 | A key counts as observed iff some call observed it before the breaker tripped. |
| Expectations.CanceledIff | pkg/readiness/object_tracker.go:130-182 | A key is canceled iff, before the breaker tripped, some call canceled it outright, or tried to after at least as many earlier tries as there are retries, if their number is not negative. |
| Expectations.AgainIff | pkg/readiness/object_tracker.go:84-119 | A key counts as expected again iff some call expected it in time when it was accepted, observed and not canceled before. |
| Expectations.AnswersAreExact | pkg/readiness/object_tracker.go:194-208 | The kinds are those of what was accepted and not canceled; unsatisfied, until the breaker trips, is what of that was not observed. |
| ObjectTracker.ObjectTracker.Expect | pkg/readiness/object_tracker.go:84-119 | The maps change as the step says; freed maps are not written. |
| ObjectTracker.ObjectTracker.CancelExpectNoLock | pkg/readiness/object_tracker.go:122-128 | The key is canceled and in no other map. |
| ObjectTracker.ObjectTracker.CancelExpect | pkg/readiness/object_tracker.go:132-148 | The same, unless the breaker has tripped. |
| ObjectTracker.ObjectTracker.TryCancelExpect | pkg/readiness/object_tracker.go:150-182 | One retry less, or a cancellation; says which. |
| ObjectTracker.ObjectTracker.ExpectationsDone | pkg/readiness/object_tracker.go:187-193 | Populated from now on. |
| ObjectTracker.ObjectTracker.Observe | pkg/readiness/object_tracker.go:211-253 | The four cases of an observation. |
| ObjectTracker.ObjectTracker.CheckSatisfied | pkg/readiness/object_tracker.go:267-285 | The read step. |
| ObjectTracker.ObjectTracker.ResolveSatisfied | pkg/readiness/object_tracker.go:297-330 | The write step, also if the breaker has tripped in between. |
| ObjectTracker.ObjectTracker.ResolveSeen | pkg/readiness/object_tracker.go:303-311 | Exactly the keys both seen and awaited become satisfied. |
| ObjectTracker.ObjectTracker.Kinds | pkg/readiness/object_tracker.go:339-363 | The kinds of the expectations, from the snapshot once the maps are freed. |
| ObjectTracker.ObjectTracker.Satisfied | pkg/readiness/object_tracker.go:265-331 | Uninterrupted: true iff the breaker has tripped, with the state it leaves. |
| ReadyTracker.StepKeepsAll | pkg/readiness/ready_tracker.go:175-219 | Every step keeps the invariant and undoes nothing that is latched. |
| ReadyTracker.RunsKeepInv | pkg/readiness/ready_tracker.go:175-219 | So does every run. |
| ReadyTracker.SatisfiedMeansReady | pkg/readiness/ready_tracker.go:175-219 | In every interleaving, once a check has returned true: the templates, the Config and the mutators expected were all observed or canceled, and the same holds for each kind they brought in unless it was removed. |
| ReadyTracker.SatisfiedForever | pkg/readiness/ready_tracker.go:177-183 | Readiness stays true, and every check that starts later says so. |
| ReadyTracker.ExpectedAgainIsNeverReady | pkg/readiness/ready_tracker.go:175-219 | In every interleaving in which an object is expected, observed and expected again before its tracker is populated, no check has returned true as long as nobody canceled the object and readiness depends on the tracker; and the object does not count as unsatisfied. For the tracker of a constraint or data kind, readiness depends on it while the kind is expected, not canceled and not removed. |
| ReadyTracker.ReadyNeeds | pkg/readiness/ready_tracker.go:175-219 | Once ready, every tracker that readiness depends on has tripped. |
| ReadyProgress.AchievedIsReported | pkg/readiness/ready_tracker.go:175-219 | In every interleaving: once all that readiness depends on is populated and met, and nothing of it was expected again, no check that looks after that answers false, unless the tracker it has in hand is removed meanwhile; it can always go on until it answers, and every step brings it nearer to that. |
| ReadyProgress.NeverStuck | pkg/readiness/ready_tracker.go:175-219 | A check that has not answered can always take a step. |
| ReadyProgress.AllAnswerStays | pkg/readiness/ready_tracker.go:175-219 | Once every tracker that a check may look at would let it pass, that stays so whatever else happens. |
| TrackConfig.ConfigIsSatisfiedIffDistinct | pkg/readiness/ready_tracker.go:523-547 | After the calls for a Config a check succeeds iff no kind is listed twice, and some later calls that cancel nothing lead to success iff no kind is. |
| TrackConfig.RepeatedKindIsStuck | pkg/readiness/ready_tracker.go:523-547 | A kind listed twice keeps the Config tracker unsatisfied through all later calls that do not cancel its entry. |
| ReadyTrackerCalls.Tracker.Get | pkg/readiness/tracker_map.go:50-72 | A new tracker only for a kind that has none and was not removed. |
| ReadyTrackerCalls.Tracker.Remove | pkg/readiness/tracker_map.go:86-92 | The kind cannot be tracked again. |
| ReadyTrackerCalls.Tracker.ForKind | pkg/readiness/ready_tracker.go:125-143 | No new tracker once the kinds are all known. |
| ReadyTrackerCalls.Tracker.TemplateCleanup | pkg/readiness/ready_tracker.go:145-150 | The constraints of the template's kind are no longer tracked. |
| ReadyTrackerCalls.Tracker.CancelTemplate | pkg/readiness/ready_tracker.go:152-157 | Neither the template nor its constraints hold readiness back. |
| ReadyTrackerCalls.Tracker.TryCancelTemplate | pkg/readiness/ready_tracker.go:159-167 | The same once its retries are used up; otherwise one retry less and nothing else. |
| ReadyTrackerCalls.Tracker.CancelData | pkg/readiness/ready_tracker.go:169-173 | Data of this kind does not hold readiness back. |
| ReadyTrackerCalls.Tracker.Check | pkg/readiness/ready_tracker.go:197-201 | True iff the kind was removed or its tracker would trip; changes no answer. |
| ReadyTrackerCalls.Tracker.CheckAll | pkg/readiness/ready_tracker.go:197-201 | The same for several. |
| ReadyTrackerCalls.Tracker.CheckWithKinds | pkg/readiness/ready_tracker.go:193-212 | The templates with their constraints, or the Config with its data. |
| ReadyTrackerCalls.Tracker.Satisfied | pkg/readiness/ready_tracker.go:175-219 | Uninterrupted: true iff it was before or every part passes. |
| ConfigReconcile.ReconcileConfig.constructor | pkg/controller/config/config_controller.go:166-174 | Nothing watched, nothing cached. |
| ConfigReconcile.ReconcileConfig.Reconcile | pkg/controller/config/config_controller.go:185-301 | Keeps the invariant under every failure and every step of the sync controller: either a wipe is due, or every cached object has a watched kind and a namespace that is not excluded. After a success that holds, and every kind in the intersection computed at the last change was listed at some time after the last wipe, and every object of that list is cached, excluded, or was last found gone by the sync controller since then. After a change the wipe is from this call. Only failures keep it from succeeding. |
| ConfigReconcile.ReconcileConfig.Read | pkg/controller/config/config_controller.go:223-236 | The kinds and the excluder of the Config, none if it is gone or going. |
| ConfigReconcile.ReconcileConfig.Switch | pkg/controller/config/config_controller.go:251-276 | The replay set is computed from the old and the new kinds, once for each change. |
| ConfigReconcile.ReconcileConfig.Finish | pkg/controller/config/config_controller.go:278-300 | Wipe, watch and replay; a success leaves nothing pending, and what was pending was listed and added back in this call. |
| ConfigReconcile.ReconcileConfig.WipeCacheIfNeeded | pkg/controller/config/config_controller.go:303-316 | If a wipe is due and succeeds, the cache is empty and no wipe is due; otherwise only the sync controller changes the cache. |
| ConfigReconcile.ReconcileConfig.ReplayData | pkg/controller/config/config_controller.go:320-367 | Every kind that was due and no longer is was listed in this call and its list added back; after a success that is all of them, and a failure leaves the rest due. |
| ConfigReconcile.ReconcileConfig.ReplayKind | pkg/controller/config/config_controller.go:324-364 | A kind is taken off only after a list of it, made in this call, was added in full; the other kinds' lists are not affected. |
| ConfigReconcile.ReconcileConfig.ReplayList | pkg/controller/config/config_controller.go:338-362 | Every object listed is cached, excluded, or was last found gone by the sync controller since the listing. |
| ConfigReconcile.ReconcileConfig.Sync | pkg/controller/sync/sync_controller.go:167-223 | What each event does to the cache: a deleted object of a watched kind is removed, so is a terminating one that is not excluded, a present one that is not excluded is added, and nothing else changes. |
| ConfigReconcile.ReconcileConfig.Tick | pkg/controller/sync/sync_controller.go:167-223 | After any steps of the sync controller, an object that was cached, has a watched kind and is not excluded still is cached, or the last step about it found it gone. |
| ConfigReconcile.ReconcileConfig.AddData | pkg/controller/sync/opadataclient.go:45-56 | Objects of unwatched kinds are dropped. |
| ConfigReconcile.ReconcileConfig.RemoveData | pkg/controller/sync/opadataclient.go:58-69 | So are their removals. |
| Excluder.Excluded | pkg/controller/config/process/excluder.go:89-113 | An object is excluded from syncing iff among the patterns for it is its namespace itself, not ending in a star, or some beginning of its namespace followed by a star; a core Namespace counts by its own name. |
| DashPacker.Pack | apis/status/v1beta1/util.go:66-84 | Succeeds iff the list is not empty and no string is empty or begins or ends with a dash. |
| DashPacker.Extract | apis/status/v1beta1/util.go:29-53 | The loop splits at single dashes and unescapes double ones. |
| DashPacker.PackThenExtract | apis/status/v1beta1/util.go:28-84 | Unpacking an accepted list that was packed gives it back. |
| DashPacker.PackIsInjective | apis/status/v1beta1/util.go:66-84 | Two accepted lists have the same packed form iff they are equal. |
| DashPacker.StatusNamesAreUnique | apis/status/v1beta1/mutatorpodstatus_types.go:105-115 | Status names are equal iff the pods, the lower-case kinds and the names are. |
| DashPacker.ToLower | apis/status/v1beta1/mutatorpodstatus_types.go:113 | Each upper-case letter becomes the lower-case one at the same place of the alphabet, every other character stays. |
| DashPacker.StatusNameParts | apis/status/v1beta1/mutatorpodstatus_types.go:105-115 | Unpacking a status name gives the pod, the kind in lower case and the name, in this order. |
| DashPacker.PlainStatusName | apis/status/v1beta1/mutatorpodstatus_types.go:105-115 | Without dashes in them the three are joined by single dashes. |

## Left out

- Kubernetes clients, informers, REST mapping and the OPA client: foreign; they appear as calls that may fail and lists that may hold anything.
- Locks, logging, metrics, events and statistics: locks appear as atomic steps, the rest has no effect on the state modelled.
- Mutation annotations (pkg/mutation/system.go:148-198): they are written after the fixed point and under a flag; the model has them off.
- Match and label selectors: an arbitrary function of the object; that it is deterministic is assumed.
- `tester.New` (pkg/mutation/path/tester/tester.go:74-117): the built table of tests is arbitrary, so the engine's laws hold for more tables than New builds.
- `getSortedGVKs` (pkg/mutation/mutators/assign_mutator.go:320-339): bindings are taken as the distinct kinds it returns.
- `MutatorForAssign` apart from checkKeyNotChanged and validateObjectAssignedToList, which are the predicates KeyNotChanged and ListValueOk: it parses and reports errors.
- SchemaDB.DB.HasConflicts: for an ID whose last field others dispute the state alone does not decide the answer; it depends on the history, which the contracts of Upsert and Remove state step by step.
- AssignSystems.AssignsConverge: locations of which one is a beginning of the other are not covered, since one may undo what the other wrote; Convergence.RankedConverges says what they would have to meet.
- EngineHeap.Heap.Mutate: the object is a tree, that is, no map is reachable in two ways, as for every decoded object; a nil object is left out.
- EngineHeap.Heap.MutateInternal: JSON maps are cells of one explicit heap, by address, instead of one Dafny object each; in-place writes, sharing and framing are stated on it.
- The spare capacity of Go slices: appending to the copied list makes a new value.
- Invalid UTF-8: texts are sequences of characters.
- `RemoveRegistrar` and registrars that share a name: a registrar is its name.
- `Manager.Start` and the event loop that distributes events: no state that the protocol needs.
- Time and backoff: WatchRest says that some step can be taken until nothing is left to do, and that there are only finitely many; that a replay ends and that the scheduler is fair is assumed, since a replay waits for its registrar's consumer.
- `watch.Set`: the reconciler's sets are plain sets; their methods are the set operations.
- ConfigReconcile.ReconcileConfig.Reconcile: cancelling the readiness of stale kinds (line 248-249) is ReadyTrackerCalls.Tracker.CancelData; a failed finalizer update is a failed read.
- Calls of the sync controller that fail: they leave the cache as it is and are tried again.
- `Excluder.Add`: the excluder is taken as built; matching namespaces is modelled.
- ReadyTracker.SatisfiedMeansReady: `trackerMap.Get` is one step; the source looks first and inserts under a second lock, so two callers may make two trackers.
- `collectInvalidExpectations` and the listings in `Run`: they call the tracker's methods, and the step relation allows any such calls at any time; what they list is not modelled, except for trackConfig, nor is the order of the collector's calls.
