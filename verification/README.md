# Homer: sync engine, stream session, and agent state machines

A Dafny model of the parts of Homer that decide what happens to a user's files, and proofs of what
they promise. Homer keeps tool configuration in step between machines: each machine holds the
snapshot of the last sync (base) and its own files (local), and a hub holds the shared snapshot
(remote).

- **Sync engine.** A key-level three-way merge and diff of JSON trees (`Merge`, `Diff`,
  `MergeLaws`), a whole-file comparison, and two classifiers built on them: the drift counters that
  decide whether a push may go ahead (`Drift`) and the planner whose actions are really applied
  (`Plan`). `FileLaws`, `FileGate`, `FilePull`, `GateLaws`, and `SyncTheorems` relate the two,
  `ChangedFiles` covers the files an ok verdict lists, `ExcludedKeyLaws` what a pull does to values
  under excluded keys, and `FirstContact` the first sync. `MergeOrder`, `DiffCount`, `FileMatrix`,
  `DriftTheorems`, `PlanLaws`, `PlanTheorems`, `ListOrder`, and `FirstContactLaws` say, apart from the
  code, what the merge, the counters, and the plan hold and in which order. `GateWitnesses` and `ExcludedKeyWitnesses`
  give inputs on which a promise fails, and so does `ListWitnesses` for the listed files.
- **Ordered JSON.** Numbers, strings, parser, and serializer (`JsonValue`, `JsonNumber`,
  `JsonString`, `JsonText`), their round trips (`JsonLaws`), and the grammar and the layout stated apart
  from them (`JsonGrammar`, `JsonSyntax`, `JsonLayout`).
- **Loops.** `MergeEngine`, `DriftEngine`, `PlanEngine`, and `JsonEngine` hold the code that works
  step by step (shared lists, counters, a parse position, a buffer), proved against the functions
  above.
- **Stream session.** Outgoing calls (`SessionCalls`, `SessionVerdicts`), served requests
  (`SessionRequests`), and the outbound queues (`SessionQueue`).
- **Agent and hub.** The write gate (`TaskGate`), shared status scans (`StatusFlight`), the snapshot
  cache (`SnapshotCache`, `SnapshotOrder`, `SnapshotService`), enrollment (`Enrollment`,
  `EnrollmentLaws`, `EnrollmentCodes`), and the generation store (`Gens`).
- **Algorithms.** The two glob matchers (`Glob`) and the line diff (`LineDiff`).

For the session, the agent, and the hub, each class has the source's fields and one method per region
under a lock, proved equal to a function on the fields' values. Runs compose those functions, in any
interleaving where several threads take part, and the theorems hold in every state a run reaches. The
session's calls and requests end in one lock region; each module shows its half of it.

## Conventions

- Go strings are sequences of bytes, one `char` each. Paths are sequences of keys; the dotted string
  the program prints is `Render` or `Label` of the path.
- A JSON number is the IEEE-754 value it denotes, as its shortest decimal digits and an exponent. How
  a decimal literal rounds to such a value is a parameter, any function that keeps representable
  values as they are; the laws hold for all of them.
- An entry is JSON or a raw file, the two kinds the repository documents.
- Counters, epochs, and sequence numbers are unbounded where the source has 64-bit ones.
- Times, random secrets, network replies, and file-system failures are inputs of the steps.
- A SHA-256 digest is taken as injective, and the hub's entity tag as identifying its content.

## Where the code and its promises part

- The push gate counts labels, the planner compares values. `SharedAdditionSlipsThrough` is an ok
  verdict with a non-empty plan; `OkMeansQuietIff` says exactly when an ok verdict means an empty one.
- The two `isDegraded` tests differ on JSON that is not an object, and the two classifiers look for a
  category's mode differently (`ModelessLocalHidesFiles`, `ModelessLocalHidesConflicts`); exactly when
  a verdict has nothing to show is `RemoteAheadIsEmptyIff` and `ConflictsIsEmptyIff`.
- Excluded keys are said to stay local's. A delete, and any write that is not a three-way merge, looks
  at the judged file only and loses what local holds under them (`SecretIsDeleted`,
  `SecretIsOverwritten`; exactly when is `PullKeepsExcludedIff`).
- An ok verdict is said to list exactly the files a push would touch. A path that goes on from another
  with a colon takes over its keys (`ColonMisleads`; exactly when the list is wrong for that is
  `OkListIsRightIff`), and a file whose text changed but not its value is not listed
  (`TextChangeIsUnlisted`; exactly when is `OkOverlooksIff`).
- A merge whose root is not an object falls back to the empty object (`NonObjectRootIsLost`,
  `CleanDocumentMerge`).
- Negative zero and overflowing literals do not survive a write (`NegativeZeroIsLost`,
  `ReparsedIsEqualIffTextual`).
- The snapshot cache says its epoch keeps an older response from replacing a newer one; within one
  epoch it can (`OlderResponseMayWin`), through a download of an earlier epoch that asks late and only
  so (`OlderWinsOnlyThroughStrays`, `OlderResponseCanWin`). What downloads yield is right nevertheless.
- A crash between the rename of a generation and that of HEAD blocks all later publishing
  (`PublishingWorksIff`).
- A generation is said to be one published store. The staging directory is cleared without looking
  whether that worked, so files of an abandoned attempt can be published with the next one
  (`ForeignFileIsPublished`; exactly when is `HeadNamesAPublishedTree`).
- A revocation is undone by a restart that comes before its save, or any later one, has worked
  (`RevocationCanBeLost`; exactly when is `RevokedReturnsIff`).

## Model

| member | source | states |
|---|---|---|
| JsonValue.DeepEqualReflexive | internal/orderedjson/orderedjson.go:727-776 | JSON value equality is reflexive. |
| JsonValue.DeepEqualSymmetric | internal/orderedjson/orderedjson.go:727-776 | Equality is symmetric, although the code only walks one side's members. |
| JsonValue.DeepEqualTransitive | internal/orderedjson/orderedjson.go:727-776 | Equality is transitive; with the two above it is an equivalence, which every merge law needs. |
| JsonValue.DeepEqualKeys | internal/orderedjson/orderedjson.go:731-752 | Comparing member counts suffices: equal objects have the same member names. |
| JsonNumber.LayoutReadsBack | internal/orderedjson/orderedjson.go:672-721 | For all digits and exponents, each layout branch is accepted by the number grammar and denotes exactly those digits at that exponent. |
| JsonNumber.LayoutIsEcma | internal/orderedjson/orderedjson.go:672-721 | The layout picks the form section 6.1.6.1.20 of ECMA-262 requires. |
| JsonNumber.ExactDenotesLiteral | internal/orderedjson/orderedjson.go:288-332 | The normal form of a literal has the literal's value: digits, trailing zeros, and scale account for each other exactly. |
| JsonString.CharsRoundTrip | internal/orderedjson/orderedjson.go:503-578 | A written string, escapes and lone surrogates included, reads back as itself. |
| JsonString.ParsedIsWellFormed | internal/orderedjson/orderedjson.go:174-286 | Every string the parser accepts is UTF-8 plus lone surrogates, with no high one directly before a low one. |
| JsonGrammar.EncodeRuneEncodes | internal/orderedjson/orderedjson.go:387-411 | The bytes written for a code point are its encoding by the bit layout of section 3 of RFC 3629, stated apart from the encoder; EncodesOne makes that a decoder. |
| JsonGrammar.EncodesOne | internal/orderedjson/orderedjson.go:387-411 | A byte sequence encodes one code point at most. |
| JsonGrammar.PiecesRead | internal/orderedjson/orderedjson.go:174-286 | Every string text of section 7 of RFC 8259 is read, and its bytes encode exactly the code points its pieces stand for: raw characters, the eight short escapes, escaped units, and escaped pairs, whose halves are 0xD800 + (r - 0x10000) / 1024 and 0xDC00 + (r - 0x10000) % 1024. |
| JsonGrammar.ReadIsPieces | internal/orderedjson/orderedjson.go:174-286 | No other string text is read: whatever is accepted consists of such pieces, with no high unit directly before a low one outside a pair. |
| JsonGrammar.WrittenIsQuoted | internal/orderedjson/orderedjson.go:503-578 | A written string is the quotation section 25.5.2.3 of ECMA-262 asks for, piece by piece: a short escape, lower-case digits for other control characters and lone surrogates, and everything else as it is. |
| JsonText.PropertyOrder | internal/orderedjson/orderedjson.go:613-652 | Property order loses and invents no key and keeps keys distinct. |
| JsonLaws.PropertyOrderSplits | internal/orderedjson/orderedjson.go:613-652 | Property order is JavaScript's: the array indices in numeric order, then all other keys as inserted. |
| JsonLaws.PropertyOrderIdempotent | internal/orderedjson/orderedjson.go:613-633 | Ordering an ordered key list changes nothing. |
| JsonLaws.ValueReads | internal/orderedjson/orderedjson.go:63-172 | Parsing what was written, pretty or compact, at any depth and with any following text, gives the value as text carries it and consumes exactly that text. |
| JsonLaws.SerializeReadsBack | internal/orderedjson/orderedjson.go:45-61 | `Parse(Serialize(v))` gives v as text carries it, with or without the final newline, and serializing again is byte-identical. |
| JsonLaws.ReserializeIsIdentical | internal/orderedjson/orderedjson.go:426-547 | Serializing a reparsed value gives the same bytes, for every value and both layouts. |
| JsonLaws.ReparsedIsEqualIffTextual | internal/orderedjson/orderedjson.go:659-714 | The trip through text preserves a value if and only if it holds no negative zero and no infinity. |
| JsonLaws.NegativeZeroIsLost | internal/orderedjson/orderedjson.go:659-670 | The literal -0 is read as negative zero and written as 0. |
| JsonLaws.ParsedIsEncodable | internal/orderedjson/orderedjson.go:45-332 | Every parsed value meets the round trip's hypotheses, so they cost nothing for parsed input. |
| JsonLaws.ValueSqueezes | internal/engine/drift.go:62-93 | Filtering the pretty text leaves exactly the compact text of the same value; whitespace in strings survives. |
| JsonLaws.CompactReadsBack | internal/engine/drift.go:62-93 | The compact form parses to the same value as the pretty form, and compacting again is byte-identical. |
| JsonSyntax.ParsedIffDenoted | internal/orderedjson/orderedjson.go:45-361 | A text is parsed as a value if and only if it is a JSON text of RFC 8259, blanks included, that denotes the value; the grammar and the meaning are stated as trees, apart from the parser. Members stand where their key first appeared, with the value that came last. |
| JsonSyntax.NodeReads | internal/orderedjson/orderedjson.go:63-332 | Every text of the grammar is read as the value it denotes, whatever follows it that does not continue a number. |
| JsonSyntax.ReadNode | internal/orderedjson/orderedjson.go:63-332 | Whatever is read is a text of the grammar, and its value the one denoted. |
| JsonSyntax.PutMembersIs | internal/orderedjson/orderedjson.go:96-142 | Putting members one by one keeps the first place and the last value of every key. |
| JsonLayout.SerializedIsIndented | internal/orderedjson/orderedjson.go:426-501 | The serialized text is the compact text with its lines broken and indented by two blanks for each open bracket, as a second pass over the characters would do it, empty brackets left alone. |
| JsonEngine.ParseDocument | internal/orderedjson/orderedjson.go:45-61 | The position-based parser computes the specification `Parse` on every input, errors included; which texts that accepts, and as what, is ParsedIffDenoted. |
| JsonEngine.Parser.ParseValueHere | internal/orderedjson/orderedjson.go:63-94 | From any position: same value, same rest, or an error in the same cases as the specification. |
| JsonEngine.Parser.ParseObjectHere | internal/orderedjson/orderedjson.go:96-142 | The member loop builds the specified object, duplicate keys and early ends included. |
| JsonEngine.Parser.ParseArrayHere | internal/orderedjson/orderedjson.go:144-172 | The element loop builds the specified array. |
| JsonEngine.Parser.ParseStringHere | internal/orderedjson/orderedjson.go:174-247 | The byte loop reads the specified string; which texts that is, and which code points they stand for, is PiecesRead and ReadIsPieces. |
| JsonEngine.Parser.ConsumeLowSurrogateEscape | internal/orderedjson/orderedjson.go:268-286 | A second escape is consumed if and only if it holds a low surrogate; otherwise the position is restored. |
| JsonEngine.Parser.ParseNumberHere | internal/orderedjson/orderedjson.go:288-332 | The digit loops accept exactly the number grammar. |
| JsonEngine.SerializeText | internal/orderedjson/orderedjson.go:413-417 | The buffer the writer fills holds the specified text. |
| JsonEngine.Buffer.WriteStringInto | internal/orderedjson/orderedjson.go:503-547 | The escape loop appends the specified string. |
| JsonEngine.CompactText | internal/engine/drift.go:62-93 | The loop over two flags computes the specified compact form. |
| Merge.ConflictsAreExact | internal/engine/merge.go:78-180 | The conflict list holds one entry for each irreconcilable path, with its reason, and nothing else; the values it carries are the next row. |
| MergeOrder.ConflictsCarryTheSides | internal/engine/merge.go:169-180 | Each conflict carries base's, local's, and remote's value at its path, each in its own field, and null for an absent side. |
| MergeOrder.ConflictsInOrder | internal/engine/merge.go:78-180 | Conflicts come in the order of the merged members, depth first, and no path twice. |
| MergeOrder.MergeKeepsOrder | internal/engine/merge.go:144-217 | At every path a merged object lists base's surviving members first, then local's, then remote's, or is one side's value, order included. |
| MergeLaws.CleanIffNoConflicts | internal/engine/merge.go:41-57 | A merge is clean if and only if no path is irreconcilable. |
| MergeLaws.RemoteUnchangedKeepsLocal | internal/engine/merge.go:88-94 | Wherever remote stands at base, at any depth, the result stands at local, conflicts or not. |
| MergeLaws.LocalUnchangedTakesRemote | internal/engine/merge.go:88-94 | Wherever local stands at base, the result stands at remote unless a conflict covers the path. |
| MergeLaws.EqualEditsConverge | internal/engine/merge.go:119-122 | Equal edits on both sides appear in the result. |
| MergeLaws.LocalEditSurvives | internal/engine/merge.go:78-142 | Every local leaf edit and deletion is in the result, even of a conflicted merge. |
| MergeLaws.RemoteEditSurvives | internal/engine/merge.go:78-142 | Every remote leaf edit and deletion outside conflicts is in the result. |
| MergeLaws.NoLeafInvented | internal/engine/merge.go:78-167 | Every leaf of the result stands at the same path of local or remote. |
| MergeLaws.MergeIsBothPatches | internal/engine/merge.go:78-167 | At every path outside conflicts the result differs from base exactly as one of the sides does. |
| MergeLaws.SwapKeepsConflicts | internal/engine/merge.go:78-142 | Swapping local and remote keeps every conflict's path and reason. |
| MergeLaws.SwapKeepsCleanResult | internal/engine/merge.go:78-167 | A clean merge is the same, up to equality, when the sides are swapped. |
| MergeLaws.CleanMergeIsLocalIff | internal/engine/merge.go:78-167 | A clean merge equals local if and only if remote changes no path local did not, and adds no object member local lacks. |
| MergeLaws.CleanDocumentMerge | internal/engine/merge.go:41-57 | The result of a clean merge differs from base at exactly the union of both sides' paths if and only if the merged root is an object, or base is not an object and some side changed: otherwise the fallback object is returned. |
| MergeLaws.NonObjectRootIsLost | internal/engine/merge.go:41-57 | A concrete clean merge whose one-sided change of a root that is not an object is replaced by the empty object. |
| MergeLaws.CleanDocumentKeys | internal/engine/merge.go:294-308 | For three objects, the reported diff keys of a clean merge are the union of both sides' reported keys. |
| MergeLaws.SwappedDocuments | internal/engine/merge.go:41-57 | The same swap law for whole documents: conflict paths and reasons, status, and clean result. |
| Diff.DiffIsExact | internal/engine/merge.go:316-351 | Each bucket lists exactly the paths where the trees part in that way. |
| Diff.DifferenceHasPath | internal/engine/merge.go:316-351 | Unequal trees have a differing path. |
| Diff.DiffKeysAreLabels | internal/engine/merge.go:294-308 | The keys are the labels of the differing paths, one per path and in ascending order, and there are none if and only if the values are equal. |
| DiffCount.DiffCounts | internal/engine/merge.go:294-308 | The three numbers of a diff are the numbers of paths that changed, came in, or went. |
| Keys.SortIsAscending | internal/engine/merge.go:294-308 | The sorted key list is in ascending byte order, whatever the order of the walk. |
| Diff.RenderInjective | internal/engine/merge.go:316-351 | Dotted labels of non-empty keys without dots name one path each. |
| Diff.RenderIs | internal/engine/merge.go:316-351 | A path is spelled by its keys with dots between them, empty keys at its head left out, and the label of an empty spelling is the dollar sign. |
| MergeEngine.MergeSlotInto | internal/engine/merge.go:78-142 | The recursive merge over a shared conflict list returns the specified slot and appends exactly the specified conflicts. |
| MergeEngine.MergeObjectInto | internal/engine/merge.go:144-167 | The key loop fills the specified object in the specified order. |
| MergeEngine.ConflictList.Append | internal/engine/merge.go:169-180 | Appends the specified conflict; an absent side is reported as null. Which side stands in which field is ConflictsCarryTheSides. |
| MergeEngine.UnionObjectKeys | internal/engine/merge.go:197-217 | The nested loops list each key once, in first-seen order. |
| MergeEngine.ListObjectKeys | internal/engine/merge.go:219-247 | The loop lists the members once: listed keys first, then map-only keys sorted. |
| MergeEngine.Object.Put | internal/engine/merge.go:249-257 | A new key goes last; an old one keeps its place. |
| MergeEngine.MergeValues | internal/engine/merge.go:41-57 | Status, merged object, and conflicts are the specified ones; whose values the conflicts carry is ConflictsCarryTheSides. |
| MergeEngine.WalkDiffInto | internal/engine/merge.go:316-351 | The recursive walk appends exactly the specified paths to the three buckets. |
| MergeEngine.DiffValues | internal/engine/merge.go:294-308 | Counts and keys, in ascending order, are the specified ones. |
| DriftEngine.CategoryCounter.CountMirrorOp | internal/engine/drift.go:170-179 | A whole-file verdict moves exactly its counter; which counter moves for which change is WholeFileCounts. |
| DriftEngine.CategoryCounter.AccumulateMergeFile | internal/engine/drift.go:181-312 | The in-place update of counters and lists adds exactly the specified tally of the file, the three values of each recorded key conflict included. |
| DriftEngine.CategoryCounter.NoteRemoteChanges | internal/engine/drift.go:300-311 | Only remote keys local did not change count as pulls. |
| DriftEngine.CountFiles | internal/engine/drift.go:132-168 | The file loop of a category computes the specified tally. |
| DriftEngine.ComputeDriftInOrder | internal/engine/drift.go:98-130 | The loops over adapters and categories list the specified drift; what its numbers mean is the subject of the rows on FileMatrix and DriftTheorems. |
| FileMatrix.CompareFileIs | internal/engine/mirror.go:26-87 | The whole matrix by presence and text: pull or pull-delete if and only if remote alone differs from base, push or push-delete if and only if local alone does, a conflict with its reason if and only if both differ and neither both dropped the file nor both added it alike. |
| FileMatrix.ComparedWhole | internal/engine/drift.go:132-200 | Mirrored files, and files one side of which is raw or malformed, are compared whole; a file both sides dropped counts nothing; any other is compared by key. |
| FileMatrix.WholeFileCounts | internal/engine/drift.go:170-179 | A file compared whole counts one push if local alone differs from base, one pull if remote alone does, one conflict if they clash, and nothing else. |
| FileMatrix.PushesAreLocalPaths | internal/engine/drift.go:198-231 | A file compared by key counts as many pushes as there are paths at which local differs from base, whatever remote did, and its changed keys are their labels. |
| FileMatrix.PartialFileCounts | internal/engine/drift.go:232-290 | With a side missing: exactly when the file counts a pull or a conflict, and of which kind. |
| FileMatrix.FullFileCounts | internal/engine/drift.go:293-311 | With all sides there: one pull for each path remote changed under a label local did not, and one conflict for each of the merge's. |
| FileMatrix.ListedConflictsAre | internal/engine/drift.go:293-300 | Each listed key conflict names the file and carries the path's dotted spelling, the reason there, and base's, local's, and remote's value at that path. |
| DriftTheorems.ListedCategories | internal/engine/drift.go:98-168 | For all snapshots: a category is listed if and only if local, base, or remote declares a mode for it, with the first such mode and the tally of all its files. |
| DriftTheorems.ListedOnce | internal/engine/drift.go:98-130 | No category is listed twice. |
| DriftTheorems.CategoryCountIsSum | internal/engine/drift.go:132-168 | Each counter of a category is the sum over its files, each taken once. |
| DriftTheorems.NoPushIffNothingMoved | internal/engine/drift.go:98-168 | For all snapshots: nothing counts as a push if and only if local changed no file. |
| DriftTheorems.CategoryPushesIffMoved | internal/engine/drift.go:132-168 | The same for one category: its push counter is zero if and only if local changed no file of it. |
| DriftTheorems.OfflineDriftIsLocal | internal/engine/drift.go:98-104 | Without a remote nothing is pulled and nothing conflicts; the pushes are as if remote stood at base. |
| ListOrder.DriftIsOrdered | internal/engine/drift.go:98-130 | Drift lists adapters and categories as base, local, and remote first name them. |
| ListOrder.CategoryListsAre | internal/engine/drift.go:132-168 | A category's operations, conflicts, and changed keys are those of its files, one file after the other. |
| ListOrder.FileListsAscend | internal/engine/drift.go:181-312 | A file compared by key lists its operations and its changed keys in ascending order. |
| PlanEngine.PlantLocalKeys | internal/sync/excludedkeys.go:133-171 | The two loops with the changed flag plant the specified object, and keep the merged one when nothing is planted. |
| PlanEngine.DropUnresolved | internal/sync/excludedkeys.go:181-207 | The loop drops exactly the excluded keys that still hold the placeholder. |
| PlanEngine.PlanCategoryFiles | internal/sync/plan.go:232-276 | The file loop appends the specified actions; what is planned for which file is PlanIs. |
| PlanEngine.PlanPullInOrder | internal/sync/plan.go:105-134 | The loops over adapters and categories list the specified plan; what it holds, and in which order, is PlanIs and PlanIsOrdered. |
| PlanTheorems.PlanIs | internal/sync/plan.go:105-451 | For every file of any snapshots, the plan holds exactly this: nothing without a mode; in a mirror, or where some side is no JSON object, what the whole-file matrix asks for, with remote's judged text or both raw texts in their own fields; with a side missing, a write, a delete, or a conflict by who changed; with three objects, the merge member by member in property order, a conflict that names the irreconcilable paths, or nothing exactly if nothing would change. |
| PlanLaws.MergeableIs | internal/sync/plan.go:479-498 | The planner merges a file if and only if no side is raw, malformed, or another JSON value than an object. |
| PlanTheorems.MirrorFollowsRemote | internal/sync/plan.go:309-326 | A mirrored file whose judged remote differs while local stands at base is written with exactly remote's judged text, or deleted if remote lacks it. |
| PlanTheorems.ConflictsHideExcluded | internal/sync/plan.go:328-353 | A planned conflict shows a value under an excluded key if and only if remote is a raw file, which judging does not touch, whose text holds one. |
| PlanTheorems.PlanIsOrdered | internal/sync/plan.go:105-134 | The plan lists adapters and categories as base, local, and remote first name them, and files by path, each once. |
| Snapshot.LastAdapterWins | internal/sync/plan.go:161-178 | The planner looks at the last adapter of an ID. |
| Snapshot.FirstAdapterWins | internal/engine/drift.go:408-415 | The drift engine looks at the first. |
| Snapshot.FirstCategoryWins | internal/sync/plan.go:213-223 | Both look at the first category of a name. |
| PlanTheorems.VerdictIs | internal/sync/plan.go:500-546 | For all snapshots: remote-ahead if and only if some file counts a pull, conflicts if and only if none does and some counts a conflict, and ok otherwise. |
| PlanTheorems.RemoteAheadNames | internal/sync/plan.go:552-569 | Remote-ahead names exactly the files the plan writes or deletes, or, if it writes and deletes none, those it conflicts on. |
| PlanTheorems.ConflictsShown | internal/sync/plan.go:500-546 | A conflicts verdict shows exactly the plan's conflicts. |
| ListOrder.VerdictInOrder | internal/sync/plan.go:552-650 | Remote-ahead names its files, and a conflicts verdict shows its conflicts, in plan order, and no file of any verdict is listed twice. |
| PlanEngine.CheckBeforePush | internal/sync/plan.go:500-658 | The summing loop, the decision, and the report are the specified check, the files of an ok verdict included. |
| PlanEngine.MatchKnownPath | internal/sync/plan.go:621-628 | Over paths sorted longest first, the first prefix match is the longest path the key goes on from with a colon. |
| PlanEngine.ListPushedFiles | internal/sync/plan.go:571-589 | The loops over drifts, operations, and changed keys list the specified files, each once. |
| FileLaws.JudgedValue | internal/engine/drift.go:27-46 | A judged entry is the raw value without its excluded keys, as text carries it; untouched without excluded keys. |
| FileLaws.JudgedMembers | internal/orderedjson/orderedjson.go:802-836 | Member by member: judging removes the excluded ones and keeps every other one with its value. |
| FileLaws.PlantedMembers | internal/sync/excludedkeys.go:133-207 | Member by member: an excluded one is local's unless it is the placeholder, any other is the merge's. |
| FileLaws.PlantedIsRawIff | internal/sync/plan.go:440-450 | The planted value equals local's raw value if and only if the merge is judged local, no excluded key holds the placeholder, and judging lost nothing. |
| FileLaws.MergedFileIsQuietIff | internal/sync/plan.go:428-450 | A conflicted merge is planned as a conflict; a clean one plans nothing if and only if remote brings nothing new and local's text is kept as it is. |
| FileGate.CompleteFileCounts | internal/engine/drift.go:293-311 | For a file all three sides hold, the counters are the merge's conflicts and the remote labels local lacks. |
| FileGate.CountedIsPlanned | internal/engine/drift.go:181-312 | Whatever the counters count as a pull, the planner acts on; whatever they count as a conflict, it plans as a conflict. |
| FileGate.PlannedConflictIff | internal/sync/plan.go:309-451 | A file is planned as a conflict if and only if its counters show one, or it is compared whole although the counters compare keys and the comparison clashes. |
| FileGate.UncountedIsQuietIff | internal/sync/plan.go:362-451 | A file with zero counters is left alone by the planner if and only if the stated gate condition holds. |
| FileGate.RemoteAtBaseIsQuiet | internal/sync/plan.go:362-451 | A file whose remote side stands at base counts nothing and plans nothing. |
| FilePull.MergedWriteKeepsEdits | internal/sync/plan.go:428-450 | A merged file is written only with every local and remote leaf edit and every excluded local value in place. |
| FilePull.PlannedIsSafe | internal/sync/plan.go:309-451 | Each action for a file is safe for its judged local side: a merged write keeps every edit and local's excluded values; any other write or delete meets a judged side that is absent with base or stands at base. |
| GateLaws.PlanIsByFile | internal/sync/plan.go:105-276 | The plan holds an action if and only if it is the one planned for its file. |
| GateLaws.TotalIsByFile | internal/engine/drift.go:98-168 | A total over all categories is zero if and only if no file counts. |
| GateLaws.ViewIsJudged | internal/sync/plan.go:652-658 | The judged sides the planner sees are the raw sides, stripped file by file. |
| SyncTheorems.VerdictsNameFiles | internal/sync/plan.go:500-569 | With unique adapter IDs, and categories whose leading side declares the mode, remote-ahead names a file and conflicts shows a conflict; the next two rows say exactly when each does. |
| SyncTheorems.RemoteAheadIsEmptyIff | internal/sync/plan.go:500-569 | For all snapshots: remote-ahead names no file if and only if every file is quiet in the mode the planner uses. |
| SyncTheorems.ConflictsIsEmptyIff | internal/sync/plan.go:500-546 | For all snapshots: a conflicts verdict shows no conflict if and only if no file is disputed in the mode the planner uses. |
| SyncTheorems.OkIffUncounted | internal/sync/plan.go:500-546 | For all snapshots: the push is let through if and only if no file counts a pull or a conflict. |
| SyncTheorems.RemoteAtBaseIsSafe | internal/sync/plan.go:500-546 | Remote equal to base: empty plan, and the push is let through, for all snapshots. |
| SyncTheorems.OkMeansQuietIff | internal/sync/plan.go:500-546 | With unique adapter IDs, after an ok verdict the pull plan is empty if and only if the gate condition holds for every file. |
| SyncTheorems.OkMeansQuiet | internal/sync/plan.go:500-546 | Gate completeness: with unique adapter IDs, for regular snapshots an ok verdict means an empty pull plan. |
| ChangedFiles.OkFilesAreCredited | internal/sync/plan.go:571-628 | An ok verdict lists a file if and only if it is pushed whole or some changed key, of whatever file, is booked on it. |
| ChangedFiles.OkFilesAre | internal/sync/plan.go:571-628 | The same by paths: a file is listed if and only if it is pushed whole, keeps one of its changed keys, or takes over one of a file whose path its own goes on from with a colon. |
| ChangedFiles.OkListIsRightIff | internal/sync/plan.go:497-546 | For every file after an ok verdict, being listed and having changed agree if and only if the file takes over a key and has changed, or takes over none and has not lost all its changed keys to longer paths. |
| ChangedFiles.OkOverlooksIff | internal/sync/plan.go:497-546 | For every file after an ok verdict, local's judged text differs from base's without counting as a change if and only if the category has no mode, or a file compared whole stands the same at remote, or a file compared by key changed in layout only, between absence and the empty object, or was dropped by both sides. |
| SyncTheorems.PlainLabelsArePaths | internal/engine/drift.go:300-311 | With non-empty, dot-free keys, comparing labels is comparing paths. |
| SyncTheorems.PullIsSafe | internal/sync/plan.go:105-134 | No action of the whole plan destroys an edit of the judged local side; what it does to values under excluded keys, which judging hides, is the subject of PullKeepsExcludedIff. |
| ExcludedKeyLaws.JudgedTextLacks | internal/engine/drift.go:27-46 | The judged text of a JSON entry holds none of its excluded keys. |
| ExcludedKeyLaws.OmittingIsIdle | internal/sync/excludedkeys.go:209-222 | On judged content the placeholder filter of a whole-file write never finds anything to drop. |
| ExcludedKeyLaws.PlannedKeepsExcludedIff | internal/sync/plan.go:309-451 | A write or delete keeps local's raw values under excluded keys if and only if it is a three-way merge, local has none, or remote is a raw file whose text holds the same ones. |
| ExcludedKeyLaws.PullKeepsExcludedIff | internal/sync/plan.go:105-134 | The same for every action of the whole plan. |
| ExcludedKeyLaws.PullWritesPlaceholderIff | internal/sync/excludedkeys.go:177-207 | No planned write puts the placeholder under an excluded key, except one that copies a remote raw file whose text does. |
| ExcludedKeyWitnesses.SecretIsDeleted | internal/sync/plan.go:362-412 | A concrete merge-mode input on which the file is deleted together with a value only local holds, under an excluded key. |
| ExcludedKeyWitnesses.SecretIsOverwritten | internal/sync/plan.go:309-345 | A concrete mirror-mode input on which such a value is overwritten. |
| FirstContact.FirstMergeKeepsLocal | internal/sync/firstsync.go:75-131 | First contact by merge is safe: it deletes nothing, and writes only a file the raw local side lacks or an object with every leaf of the raw local file, excluded keys included; the one exception is a file of a local mirror category the configuration merges, judged to be the bare empty object. What it plans is the next row. |
| FirstContactLaws.FirstMergeIs | internal/sync/firstsync.go:75-131 | For all snapshots and every file, the first merge plans exactly this: a file both sides hold as JSON objects, in a category the configuration enables and merges, is merged from the empty object: a conflict that names the paths if some path is irreconcilable, otherwise nothing if and only if local holds all of remote and its text is kept as it is, or remote is the bare empty object, or else the merge with every leaf of both judged sides. Any other file only remote holds is written with remote's judged text, one only local holds is left, and two texts must be one or conflict. |
| FirstContactLaws.FirstPullIs | internal/sync/firstsync.go:75-94 | For all snapshots and every file, the first pull plans a write of remote's judged text if remote has the file and the category a mode, the configured one if it is enabled and else remote's, and nothing otherwise, whatever local holds. |
| FirstContactLaws.MergeBaseIs | internal/sync/firstsync.go:29-131 | The synthetic base has every enabled category of an enabled adapter in its configured mode, and no other. |
| FirstContactLaws.EmptyBaseIs | internal/sync/firstsync.go:29-94 | The base of the first pull has the same categories, all empty. |
| FirstContact.OrderKeepsCategories | internal/sync/firstsync.go:140-210 | Ordering the base changes no category of it. |
| FirstContactLaws.BaseOrderIs | internal/sync/firstsync.go:140-210 | The base lists the adapters the snapshots name in their order, then its own others in byte order. |
| FirstContactLaws.FromEmptyIsLocalIff | internal/sync/firstsync.go:75-131 | A clean merge of two objects from the empty one is local's value if and only if local already holds all of remote. |
| FirstContact.FirstPullWritesRemote | internal/sync/firstsync.go:75-94 | First contact by pull writes exactly the remote files of categories with a mode, each with its judged content, which for a file that is not JSON is the raw one. |
| GateWitnesses.SharedAdditionSlipsThrough | internal/sync/plan.go:500-546 | A concrete input on which the gate is ok although the plan writes: both sides add an object under one key. |
| GateWitnesses.ModelessLocalHidesFiles | internal/sync/plan.go:232-247 | A concrete input on which remote-ahead names no file: the two classifiers choose the mode differently. |
| GateWitnesses.ModelessLocalHidesConflicts | internal/sync/plan.go:232-247 | The same for a conflicts verdict that shows none, for any two different texts. |
| ListWitnesses.ColonMisleads | internal/sync/plan.go:621-628 | A concrete input on which an ok verdict lists a file local has not touched and leaves out the one it has: a key is booked on a longer path. |
| ListWitnesses.TextChangeIsUnlisted | internal/sync/plan.go:497-546 | Two concrete inputs on which local's text changed and an ok verdict does not list it: an empty object removed, and one rewritten with a blank. |
| Glob.GlobMatchExact | internal/adapter/ignore.go:94-127 | The greedy matcher, which extends only the last star, accepts exactly the strings in which every star covers a slash-free run. |
| Glob.MemoMatcher.Match | internal/secretscan/scan.go:156-179 | The memoised recursion answers the same question from every pair of positions. |
| Glob.MemoMatchExact | internal/secretscan/scan.go:149-181 | The second matcher accepts the same strings as the first. |
| Glob.EarliestIsEnough | internal/adapter/ignore.go:94-127 | The text between two stars can be taken at its first place without loss: why one star of backtracking suffices. |
| Glob.GlobMatch | internal/adapter/ignore.go:31-59 | A trailing slash accepts exactly the path itself and paths below a matching prefix; an empty pattern nothing. |
| Glob.MatchKeepsDepth | internal/adapter/ignore.go:94-127 | No star crosses a separator: a match has as many slashes as its pattern. |
| LineDiff.LinesSpellText | internal/cli/render.go:338-347 | The lines, each with its newline, spell the text up to a missing final newline, and none holds a newline. |
| LineDiff.Table | internal/cli/render.go:355-369 | Every cell of the table is the longest common length of its two suffixes. |
| LineDiff.DiffLines | internal/cli/render.go:349-394 | Equal texts give nothing, others the script read off the table. |
| LineDiff.LcsIsLongest | internal/cli/render.go:355-369 | No common subsequence of lines is longer than the table says. |
| LineDiff.ScriptIsRight | internal/cli/render.go:370-393 | Kept and removed lines spell the old text, kept and added lines the new one, and the kept lines reach the longest common length. |
| LineDiff.ScriptIsShortest | internal/cli/render.go:349-394 | No script between the two texts is shorter. |
| LineDiff.ScriptIsFirst | internal/cli/render.go:370-393 | Among all shortest scripts it is the first: where another one parts from it, it keeps a line or removes one that the other does not. |
| LineDiff.QuietDiff | internal/cli/render.go:349-394 | A diff marks no line if and only if the texts agree up to a final newline. |
| TaskGate.TaskGate.Enter | internal/agentd/taskclass.go:73-86 | An idle gate is taken; otherwise the call goes last in the queue. |
| TaskGate.TaskGate.Release | internal/agentd/taskclass.go:127-151 | The first waiter gets the gate, or it becomes idle. |
| TaskGate.TaskGate.Abandon | internal/agentd/taskclass.go:98-114 | A granted waiter must pass the gate on; any other leaves the queue and nothing else changes. |
| TaskGate.MutualExclusion | internal/agentd/taskclass.go:47-151 | In every interleaving at most one call has the gate, exactly one while it is held, and nobody waits at an idle gate. |
| TaskGate.FirstComeFirstServed | internal/agentd/taskclass.go:84-86 | Grants follow arrival order: when a later call was granted, no earlier one is still queued. |
| TaskGate.WaitIsBounded | internal/agentd/taskclass.go:127-151 | A waiter that stays queued sees at most as many releases as calls stand before it, so no grant is lost. |
| TaskGate.CancelledGrantIsPassedOn | internal/agentd/taskclass.go:91-104 | A call cancelled after its grant still has the gate, can only release it, and thereby grants the first waiter. |
| TaskGate.SomebodyCanMove | internal/agentd/taskclass.go:91-151 | While calls wait, the one that has the gate can take a step, and any release grants the first waiter. |
| StatusFlight.StatusFlight.Join | internal/agentd/taskclass.go:237-252 | A reader joins the flight of its epoch or starts one, and is counted. |
| StatusFlight.StatusFlight.Offer | internal/agentd/taskclass.go:284-294 | Drift is cached only if generation and epoch still match. |
| StatusFlight.StatusFlight.Finish | internal/agentd/taskclass.go:299-306 | A finished scan leaves the flights only if it is still listed. |
| StatusFlight.ReportsAreFresh | internal/agentd/taskclass.go:233-269 | In every interleaving, a reader that joins after a write began or ended gets a scan created after it. |
| StatusFlight.DriftIsFresh | internal/agentd/taskclass.go:284-294 | Cached drift comes from a scan with no write between its creation and that moment. |
| StatusFlight.StaleScanIsIgnored | internal/agentd/taskclass.go:284-294 | A scan older than a write never replaces the cached drift after it. |
| StatusFlight.EpochDecides | internal/agentd/taskclass.go:210-224 | Equal epochs hold if and only if nothing was written since, and imply equal generations. |
| StatusFlight.GenerationCheckIsRedundant | internal/agentd/taskclass.go:243-250 | A reader's generation test never decides anything, and a listed flight is never finished. |
| StatusFlight.ScansServeTheirReaders | internal/agentd/taskclass.go:251-268 | A scan's counter is the number of readers still waiting for it. |
| StatusFlight.ReadersShareScans | internal/agentd/taskclass.go:233-252 | In every run a reader joins the scan that still runs and has seen no write, of which there is one at most, and starts one only if there is none. |
| StatusFlight.DriftIsCachedIff | internal/agentd/taskclass.go:284-294 | A scan's drift gets into the cache if and only if nothing was written since the scan was created. |
| SnapshotCache.SnapshotCache.BeginDownload | internal/agentd/snapshotcache.go:31-43 | Only a flight of the current epoch is shared. |
| SnapshotCache.SnapshotCache.FinishDownload | internal/agentd/snapshotcache.go:45-62 | The result reaches the flight's joiners, and a newer flight stays listed. |
| SnapshotCache.SnapshotCache.Store | internal/agentd/snapshotcache.go:85-108 | A response of an older epoch changes nothing; one without a tag clears the cache. |
| SnapshotCache.SnapshotCache.InvalidateIf | internal/agentd/snapshotcache.go:134-152 | Only the named valid entry is cleared, and clearing starts an epoch. |
| SnapshotCache.ReadsSeeUploads | internal/agentd/executor.go:415-518 | A download begun or joined after an upload returned never yields an older version, in every interleaving with an honest hub. |
| SnapshotCache.LeadersReadTheHub | internal/agentd/executor.go:436-518 | A leader's download yields a version that was current between its begin and its end: it refines an uncached read. |
| SnapshotCache.CacheIsNotStale | internal/agentd/snapshotcache.go:85-108 | A valid entry matches its tag and is at least as new as the last invalidation and every returned upload. |
| SnapshotCache.LateResponseIsDropped | internal/agentd/executor.go:707-712 | A response to a request sent before an invalidation never enters the cache. |
| SnapshotCache.OlderResponseMayWin | internal/agentd/snapshotcache.go:9-11 | A reachable state in which an older response replaces a newer one within one epoch, which the type's comment denies; the next three rows say when. |
| SnapshotOrder.OlderWinsOnlyThroughStrays | internal/agentd/snapshotcache.go:85-108 | In every reachable state, a step lowers the version of a valid entry only if a download that leads a flight of an earlier epoch has asked in the current one. |
| SnapshotOrder.VersionsOnlyRise | internal/agentd/snapshotcache.go:9-11 | Over every run within one epoch a valid entry stays valid, and its version never falls unless such a download has asked. |
| SnapshotOrder.OlderResponseCanWin | internal/agentd/executor.go:436-518 | From every state in which a leader has yet to ask and no flight of the current epoch is listed, some run replaces a newer version by its older one. |
| SnapshotService.JoinsIff | internal/agentd/snapshotcache.go:31-43 | In every run a new download joins the newest flight if and only if that flight's leader has not returned and nothing was invalidated since it began; otherwise it leads one of its own. |
| SnapshotService.JoinersShareTheOutcome | internal/agentd/executor.go:415-434 | Whoever joined can return if and only if its leader has, and returns with the leader's outcome. |
| SnapshotService.EveryDownloadEnds | internal/agentd/executor.go:436-518 | From its begin on a download sends two requests at most and takes nine steps of its own at most; one that joined sends none and takes one step. |
| SnapshotService.SomebodyCanMove | internal/agentd/executor.go:415-518 | A leader that has not returned has a step, and one that joined waits for such a leader or can return. |
| SnapshotService.BodyIsServed | internal/agentd/executor.go:466-518 | A body that comes in in the epoch it was asked for is kept; if nothing disturbs it, it is what the download returns, and its tag is sent from then on. |
| SnapshotService.EntryIsServed | internal/agentd/executor.go:446-500 | A request sends the tag of a valid entry, and an undisturbed 304 serves that entry; under another tag the entry is forgotten and the request made once more, after a conflict it is forgotten and the download fails. |
| Enrollment.EnrollmentManager.RedeemAndBindIfUnbound | internal/hub/enrollment.go:187-224 | Outcome and whole new state in every case: refusal, unknown or expired code, failing random source, success. |
| Enrollment.EnrollmentManager.Redeem | internal/hub/enrollment.go:110-128 | The code is burned whatever comes of it. |
| Enrollment.EnrollmentManager.Revoke | internal/hub/enrollment.go:254-272 | Binding and confirmation go together. |
| Enrollment.EnrollmentManager.AuthorizedAgent | internal/hub/enrollment.go:277-290 | Finds an agent if and only if one verifies with the secret. |
| Enrollment.OneSecretPerCode | internal/hub/enrollment.go:110-224 | In every run a code yields at most one secret for each time it was minted, and none once it is gone. |
| Enrollment.ConfirmedAreBound | internal/hub/enrollment.go:149-158 | Confirmed agents always have a binding. |
| Enrollment.ConfirmedBindingStays | internal/hub/enrollment.go:187-202 | No enrollment changes a confirmed binding; only an explicit bind, a revocation, or a restart does. |
| EnrollmentLaws.VerifiesIffLastCounting | internal/hub/enrollment.go:228-353 | After every history, with any restarts and failing saves, a secret verifies if and only if among the events that still count it was the last one bound to the agent and was not revoked since; an event counts unless a restart came before any later save reached the file. |
| EnrollmentLaws.RevokedReturnsIff | internal/hub/enrollment.go:254-353 | After its last revocation an agent has a binding again if and only if it was on file then and a restart came before the first successful save from the revocation on, and it is the binding of that file. |
| EnrollmentLaws.RevocationCanBeLost | internal/hub/enrollment.go:254-272 | A concrete history, of a bind, a revocation whose save fails, and a restart, after which the revoked secret verifies. |
| EnrollmentCodes.EnrollmentDecides | internal/hub/enrollment.go:80-224 | After every history: an agent without a name gets nothing; one is turned away if and only if its binding was confirmed, set, or read from file and not replaced or revoked since; any other gets a fresh secret if and only if the code was minted and not burned since, its time has not passed, and the random source works; and exactly when it gets which error. |
| EnrollmentCodes.ValidIsWorth | internal/hub/enrollment.go:96-128 | A code is called valid if and only if it is worth a secret and now is not the instant of its expiry, on which the two tests differ. |
| Gens.Layout.Publish | internal/gens/gens.go:43-114 | For every number of file-system steps granted: the whole disk left behind, up to the order in which files are written, and when the call succeeds. |
| Gens.Layout.WriteFiles | internal/gens/gens.go:74-94 | The file loop leaves the whole store in the staging area, or some files whole and one torn, exactly as its steps run out. |
| Gens.HeadNamesAPublishedTree | internal/gens/gens.go:145-160 | In every run of calls cut anywhere, HEAD names a complete tree with one published store and its metadata; it equals that store if and only if the files that could not be cleared were all written over. |
| Gens.ForeignFilesAreLeftovers | internal/gens/gens.go:67-94 | Any other file in that tree could not be cleared and belongs to the store of an earlier call for the same generation, or was staged before the run. |
| Gens.ForeignFileIsPublished | internal/gens/gens.go:67-68 | A concrete run of two calls after which HEAD names a tree with a file of the first, abandoned one. |
| Gens.TreesStay | internal/gens/gens.go:43-114 | Trees in place never change and HEAD never decreases. |
| Gens.StoppedInBetween | internal/gens/gens.go:99-112 | A call cut between its two renames ends publishing for good. |
| Gens.PublishingWorksIff | internal/gens/gens.go:43-114 | An uncut call publishes if and only if no earlier call was cut between its two renames. |
| SessionCalls.Session.HandleResponse | internal/stream/session.go:389-403 | Only a registered call gets the reply, and is unregistered with it. |
| SessionCalls.Session.HandleProgress | internal/stream/session.go:405-428 | Only a registered call that listens gets the frame; a full ring loses its oldest. |
| SessionCalls.Session.Terminate | internal/stream/session.go:961-992 | The loop hands the closed error to every registered call, once. |
| SessionCalls.Session.RemovePending | internal/stream/session.go:1059-1067 | Tells whether the call was still registered. |
| SessionCalls.SendersNeverBlock | internal/stream/session.go:389-403 | In every interleaving a registered call's one-slot channel is empty, so neither a response nor the end ever blocks under the lock. |
| SessionCalls.ResultsAreGenuine | internal/stream/session.go:818-866 | A call returns a reply only if a response with its number was handled, and a closed error only with the session's cause. |
| SessionCalls.EveryCallEndsOnce | internal/stream/session.go:761-866 | From any moment of a run on, a call makes at most three steps of its own and one more for each progress frame that waits or still arrives, and never changes its outcome. |
| SessionCalls.NobodyIsLeftBehind | internal/stream/session.go:846-864 | After the end nothing is pending and every waiting call holds a result; a call that empties its progress can go on; the fall-through branches are dead. |
| SessionCalls.ProgressIsConserved | internal/stream/session.go:405-428 | In every interleaving, what a call was shown, what was dropped, and what waits, in this order, are the progress frames that arrived while it was pending; at most 64 wait, and a call that returns its result leaves none. |
| SessionCalls.TerminationReachesAll | internal/stream/session.go:980-984 | Each call still registered receives the closed error with the session's cause. |
| SessionCalls.EndIsFinal | internal/stream/session.go:961-992 | The session ends once: its cause is fixed and registration stays empty. |
| SessionVerdicts.CallsStandAsTold | internal/stream/session.go:761-992 | Every run determines by its events alone how each call stands: pending until the first response with its number, end of the session, or giving up, and then decided by that, unless its own send fails; and which progress it was sent while pending. The end's cause is the reason of the first local close before it, or else its own error. |
| SessionVerdicts.OutcomeIs | internal/stream/session.go:761-866 | An ended call returns that response, the closed error with that cause, its own cancellation, or its send's error, as the verdict over the run names it. |
| SessionRequests.Session.HandleRequest | internal/stream/session.go:280-317 | Duplicate, overloaded, and unknown requests change nothing; any other becomes an open call. |
| SessionRequests.Session.HandleCancel | internal/stream/session.go:376-387 | Only an open call is cancelled and removed. |
| SessionRequests.Session.Terminate | internal/stream/session.go:985-990 | The loop cancels every open call in flight and empties the table. |
| SessionRequests.AtMostOneAnswer | internal/stream/session.go:319-374 | In every interleaving: the in-flight bound holds, a request's answer is enqueued at most once, never when cancelled, and exactly once when its handler finishes in an open session. |
| SessionRequests.FateIsFinal | internal/stream/session.go:336-383 | A call's state leaves zero once, and a cancelled call is never answered later. |
| SessionRequests.OneLateAnswer | internal/stream/session.go:541-594 | After the end of the session at most one more answer is enqueued: that of a call in state one whose handler looked before the end and holds the queue's lock at it; and that one can be. |
| SessionRequests.AnswerAfterEnd | internal/stream/session.go:575-593 | A concrete run in which an answer is enqueued after the end. |
| SessionRequests.CancelDecides | internal/stream/session.go:376-387 | A cancel ends an open call on the spot and leaves a call that is answering alone. |
| SessionRequests.CleanupSparesNewer | internal/stream/session.go:369-373 | A finishing handler removes its own entry and never a newer call under the same number. |
| SessionRequests.RequestIsJudged | internal/stream/session.go:280-317 | In every run of an open session: a request is a duplicate if and only if a call under its number was neither cancelled nor cleaned up; otherwise overloaded if and only if as many such calls exist as may; otherwise unknown if nobody knows its method; and any other becomes an open call in flight. |
| SessionRequests.FirstEventDecides | internal/stream/session.go:319-387 | An open call of an open session is decided by its handler's swap, by a cancel of its number, or by the end, and by no other step. |
| SessionRequests.HandlersCanMove | internal/stream/session.go:319-374 | A handler that is not through has a step, or waits for the one that holds the queue's lock and has one; its answer is the one enqueued. |
| SessionQueue.OutboundQueue.Dequeue | internal/stream/session.go:644-673 | Urgent first, then the older of normal and progress; the counter follows. |
| SessionQueue.OutboundQueue.EnqueueProgress | internal/stream/session.go:555-571 | A full progress queue loses its oldest frame. |
| SessionQueue.OutboundQueue.TryEnqueue | internal/stream/session.go:575-592 | A bounded frame is accepted if and only if there is room. |
| SessionQueue.QueuesAreBounded | internal/stream/session.go:545-605 | In every run the counter equals both bounded queues' length, is within the limit, and progress stays within 64. |
| SessionQueue.WriterKeepsOrder | internal/stream/session.go:644-673 | Frames that are not urgent reach the writer in enqueue order, before everything still waiting. |
| SessionQueue.UrgentGoesFirst | internal/stream/session.go:644-652 | Urgent frames keep their order, and no other frame is taken while one waits. |
| SessionQueue.FramesAreConserved | internal/stream/session.go:545-673 | Every accepted frame is queued, handed over, dropped, or cleared, once; only progress older than all queued progress is dropped. |
| SessionQueue.OneLateFrame | internal/stream/session.go:555-593 | After the end of the session at most one frame is accepted: that of a sender that looked before. |
| SessionQueue.NothingAfterClear | internal/stream/session.go:1004-1010 | After the clearing of the queues the writer gets nothing more and nothing is accepted. |
| SessionQueue.WriterIsServed | internal/stream/session.go:607-673 | The writer gets a frame whenever one is queued, that frame leaves its queue, and if it is not urgent everything left is ordinary and younger. |

## Left out

- SyncTheorems.VerdictsNameFiles: goes one way under a condition on category modes; the two-way laws without conditions are `RemoteAheadIsEmptyIff` and `ConflictsIsEmptyIff`.
- SnapshotCache.ReadsSeeUploads: the retry loop of a download is a sequence of steps rather than a method, since steps of other downloads and uploads fall between its lock regions.
- Gens.Layout.Publish: takes the store as a map from clean paths and the checks of `safeStorePath` as one flag, so names that clean to the same path, or to a directory of another, are not covered; nor is power loss, only a stopped process.
- Glob.MemoMatchExact: compares characters; the scanner converts to runes first, which differs for invalid UTF-8 only.
- The prefix matcher of the secret scanner, ignore lists with a `**/` prefix, and the scan itself.
- `strconv`: how a decimal rounds and which shortest digits it gets.
- `ApplyExcludeKeyPlaceholders`, which prepares a push and takes no part in judging a pull.
- `PlanFirstContact` and the helpers that build and order its base are functions, although the source builds lists and maps in loops.
- What a progress callback does, events, pings, flushing, and frame encoding of a session; its writer and timers appear as free choices of a step.
- Wall-clock durations, descriptions of the running task, and logging.
- Reading the decoded generation number for compare-and-swap uploads, which the source keeps apart from the download.
- A cache or agent object that is nil, and closed-over callbacks other than those named.
- HTTP, WebSocket, process, and disk plumbing; cryptography; command line, rendering, and configuration checks.
