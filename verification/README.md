# Zroutery: a verified model of its core

Zroutery is a local gateway that routes model requests to upstream providers, with a desktop application around it.
This project models the parts of it that carry state or have to be exactly right, in Dafny 4.11, and proves what they
promise. `dafny verify dfyconfig.toml` checks everything.

- **Agent takeover.** Zroutery takes over fields of another client's configuration file and gives them back.
  `TomlText`, `TomlValue`, `TomlValueParser` and `TomlDocument` model its TOML reader and printer: a grammar of
  recursive functions, and the loops over cursors, flags and an output buffer that are proved to follow it.
  `Text` has the characters, digits and positions they need. `TomlKeys`, `TomlSpellings` and `TomlAccepted` say exactly
  which texts are read as which keys and values, `TomlEntries` what a line does to the tree and when it is refused.
  `TomlLineLaws`, `TomlRoundTrip` and `TomlPrintable` prove that printing and reading undo each other, and exactly when.
  `ConfigTree` is the tree of dotted paths. `Takeover` is the ownership store, `TakeoverProtocol` its use by any number
  of callers whose lock sections interleave. `ManagedFields` sets fields and sets them back, `RestoreLaws` says when
  that is clean, `TakeoverRestore` is the work on the file, and `TakeoverRestoreLaws` puts all of it together, from
  adoption to the restored file.
- **Circuit breaker.** `CircuitBreaker` has the methods and whole runs of them, `BreakerHistory` when they open, close
  and admit, read off the calls alone. `BreakerInterleaving` has every lock section and atomic access as a step of its
  own, `BreakerReports` what the steps of a report amount to. `BreakerRuns` puts such runs together, `BreakerTiming`
  says what remains of the timeout in them, and `BreakerDiscipline` why outcomes in HalfOpen have to be the probe's own.
- **Budgets.** `Budget` has the ledger and the check, `Calendar`, `DayNumbers` and `TextOrder` the dates and their text,
  `LedgerKeys` which buckets share a flat key, `BudgetRuns` whole histories of charges, prunes and admissions,
  `LedgerPruning` what a prune keeps, and `BudgetCoverage` which budgets the check answers for.
- **Election.** `Election` ranks a tier by latency and price; `ElectionLaws` has its properties, and
  `ElectionTrade` how price is weighed against speed.
- **Logs.** `Logs` is the ring buffer and the escape stripping; `LogLaws` compares them with the whole text and with
  the sequences of ECMA-48, section 5.4.
- **Save queue.** `SaveQueue` and `SaveQueueLaws` model how the dashboard serialises its saves.
- **Configuration.** `Config` and `ConfigLaws` model the folding of old documents and what an id means; `ApplyConfig`
  the change of a running application's configuration, listener included, and `ApplyConfigLaws` what that depends on.
- **CC Switch import.** `CcSwitch` and `CcSwitchLaws`.

Code that changes things in place is a class or a loop here, proved equal to a function of the old state; the
properties are proved about those functions. Where the environment decides (whether a bind, a probe, a read or a save
succeeds, what the clock says, which identifier is drawn) the answer is a parameter, so every theorem holds for all
answers.

Where the code does less than its comments say, the model follows the code, and a lemma says exactly when the promise
holds: `RestoreLaws.RestoreIsCleanExactly`, `TakeoverRestoreLaws.EditDuringReleaseIsLostExactly`,
`TomlRoundTrip.RoundTripExactlyWhenClean`, `TomlKeys.KeysAreReadExactly`, `BreakerTiming.EntryCanBeEarlyExactly`,
`LedgerKeys.ScopesShareKeyExactly`, `BudgetRuns.CurrentBucketStaysExactly`, `SaveQueueLaws.AnswerIsExactWhenQueued`,
`ConfigLaws.ResolvesAsBeforeExactly` and `SameModelToldApart`, `CcSwitchLaws.OtherEntriesStayImportable` and
`StandardServedWhen`, most of them next to a case in which it fails. That one probe runs at a time holds in every
disciplined run, and `BreakerDiscipline.OneSlipAdmitsSecondProbe` shows that a single step outside the discipline is
enough to lose it.

## Model

| member | source | states |
|---|---|---|
| `TomlText.StripTomlComment` | crates/zroutery-core/src/agent_takeover.rs:1130-1158 | the line up to the first `#` outside quotes, and the whole line when there is none; the scan with two quote flags and an escape flag agrees with a four-state reading of the line |
| `TomlText.FindUnquoted` | crates/zroutery-core/src/agent_takeover.rs:1161-1189 | the position of the first needle outside basic and literal strings, or none |
| `TomlText.FirstUnquotedCorrect` | crates/zroutery-core/src/agent_takeover.rs:1161-1189 | the answer is the least position at which the needle stands and the text before it leaves no string open; no answer exactly when there is no such position |
| `TomlText.LinesUndoesUnlines` | crates/zroutery-core/src/agent_takeover.rs:1088-1092 | splitting text that was put together from lines without a line feed, none ending in a carriage return, returns those lines |
| `TomlText.ParseTomlKey` | crates/zroutery-core/src/agent_takeover.rs:1192-1254 | the dotted key is read segment by segment as the key grammar says, with the same errors; quoted segments stay raw and empty ones are refused |
| `TomlKeys.KeysAreReadExactly` | crates/zroutery-core/src/agent_takeover.rs:1192-1254 | a text is read as a key if and only if it is the parts of that key, bare or in either quotes, with blanks around them and dots between them; the one thing more that is let through is a dot at the end |
| `TomlValue.IntRoundTrip` | crates/zroutery-core/src/agent_takeover.rs:1446-1482 | every 64-bit integer printed in decimal is read back |
| `TomlValue.QuotedStringRoundTrip` | crates/zroutery-core/src/agent_takeover.rs:1359-1402 | for every string, reading a basic string undoes quoting it, whatever follows |
| `TomlValue.ValueRoundTrip` | crates/zroutery-core/src/agent_takeover.rs:1341-1444 | every printable leaf or nested array of leaves, of any depth, is read back from the front of any text that starts with its printed form and goes on with a separator |
| `TomlValue.ParsedValueRoundTrip` | crates/zroutery-core/src/agent_takeover.rs:1302-1316 | parsing the whole printed form of a printable value returns the value |
| `TomlValueParser.Cursor.ParseValue` | crates/zroutery-core/src/agent_takeover.rs:1341-1357 | the cursor reads exactly the value the grammar reads from the rest of its input, with the same error, and stops right behind it |
| `TomlValueParser.Cursor.ParseBasicString` | crates/zroutery-core/src/agent_takeover.rs:1359-1402 | the loop over characters and escapes reads the basic string of the grammar and leaves what follows the closing quote |
| `TomlValueParser.Cursor.ParseLiteralString` | crates/zroutery-core/src/agent_takeover.rs:1404-1413 | reads up to the next single quote, unescaped, or fails when there is none |
| `TomlValueParser.Cursor.ParseArray` | crates/zroutery-core/src/agent_takeover.rs:1415-1444 | reads the items of the grammar, trailing comma and inner blanks included |
| `TomlValueParser.Cursor.ParseBareValue` | crates/zroutery-core/src/agent_takeover.rs:1446-1482 | reads the longest token and accepts it as a boolean or as a 64-bit integer with underscores |
| `TomlValueParser.ParseTomlValue` | crates/zroutery-core/src/agent_takeover.rs:1302-1316 | the value of the grammar, refused when anything but blanks follows it |
| `TomlSpellings.SpellingIsRead` | crates/zroutery-core/src/agent_takeover.rs:1341-1482 | every spelling of a value is read as that value, whatever follows: every escape, literal strings, signs and underscores in numbers, blanks and a trailing comma in arrays of any depth |
| `TomlAccepted.ValuesAreReadExactly` | crates/zroutery-core/src/agent_takeover.rs:1302-1482 | the text behind the separator is read as a value if and only if it spells that value, blanks around it allowed |
| `TomlValueParser.QuoteTomlString` | crates/zroutery-core/src/agent_takeover.rs:1573-1591 | the loop that pushes characters and escapes builds the quoted form the grammar reads back |
| `TomlValueParser.FormatTomlValue` | crates/zroutery-core/src/agent_takeover.rs:1537-1557 | the printed form of a value; null and objects inside arrays are refused |
| `ConfigTree.Document.OpenTable` | crates/zroutery-core/src/agent_takeover.rs:1257-1280 | walks and creates tables in place; the new tree is the old one with a table at the path, or the error names the part that holds a value |
| `TomlDocument.Builder.ReadLine` | crates/zroutery-core/src/agent_takeover.rs:1088-1127 | one line of the document, header, entry or blank, changes the tree and the current table as the line grammar says |
| `TomlDocument.Builder.InsertTomlValue` | crates/zroutery-core/src/agent_takeover.rs:1283-1299 | the value is added under the current table, and a key that is already there is an error that changes nothing |
| `TomlDocument.ParseTomlSubset` | crates/zroutery-core/src/agent_takeover.rs:1088-1127 | the loop over lines yields the tree that folding the line grammar over them yields, with the first error and its line number |
| `TomlDocument.Printer.WriteTomlTable` | crates/zroutery-core/src/agent_takeover.rs:1496-1535 | appends the header, the plain entries and then the nested tables, recursively, exactly as the rendering function says |
| `TomlDocument.SerializeTomlSubset` | crates/zroutery-core/src/agent_takeover.rs:1486-1493 | the text of a table in a given key order; anything but a table at the root is refused |
| `TomlEntries.EntryIsSet` | crates/zroutery-core/src/agent_takeover.rs:1121-1123 | an entry is a set of the table path followed by every part of its key; it is refused exactly when a value stands in the way of that path or the path is taken, and only the latter is called a duplicate |
| `TomlEntries.RefusalNamesThePart` | crates/zroutery-core/src/agent_takeover.rs:1257-1280 | otherwise the refusal names a part of the path that holds a value |
| `TomlEntries.EntryOnExactly` | crates/zroutery-core/src/agent_takeover.rs:1116-1119 | a line holds this key and this value if and only if what stands before its first unquoted `=` spells the key and what stands behind it the value |
| `TomlEntries.EntryLineIsSet` | crates/zroutery-core/src/agent_takeover.rs:1116-1123 | an accepted line `k1. ... .kn = value` makes the value readable at the current table followed by k1 to kn, and leaves every incomparable path as it was |
| `TomlEntries.EntryLineRefusedExactly` | crates/zroutery-core/src/agent_takeover.rs:1116-1123 | such a line is refused exactly when it holds no key and value, a value stands in the way of its path, or its path is taken |
| `TomlEntries.DottedLineParses` | crates/zroutery-core/src/agent_takeover.rs:1130-1254 | a written line with a key of any length adds that entry, with or without a comment behind it |
| `TomlEntries.HeaderMakesRoom` | crates/zroutery-core/src/agent_takeover.rs:1105-1114 | a header is refused exactly when a value stands on its way or at its end; otherwise every value stays and what is new is a table on that way |
| `TomlEntries.EntryInDocument` | crates/zroutery-core/src/agent_takeover.rs:1088-1127 | one more line at the end of a document: when the whole text is refused, and what it reads as otherwise, at the new path and at every incomparable one |
| `TomlEntries.FirstBadLineIsReported` | crates/zroutery-core/src/agent_takeover.rs:1088-1127 | a document is refused with a line number and an error if and only if that line, counted from one, is the first that cannot be read, for that reason |
| `TomlEntries.HeaderStandsAlone` | crates/zroutery-core/src/agent_takeover.rs:1496-1535 | a printed header stands on a line of its own, with a blank line before it unless it is the first |
| `TomlLineLaws.EntryLineScans` | crates/zroutery-core/src/agent_takeover.rs:1130-1189 | on every key and value line the printer can emit, comment stripping removes nothing and the first unquoted `=` is the separator, whatever the key and the value contain |
| `TomlLineLaws.EntryLineParses` | crates/zroutery-core/src/agent_takeover.rs:1106-1127 | reading a printed entry line adds exactly that entry to the current table, under the raw form of its key |
| `TomlLineLaws.HeaderLineScans` | crates/zroutery-core/src/agent_takeover.rs:1130-1158 | comment stripping leaves printed header lines alone, and trimming too |
| `TomlLineLaws.HeaderLineParses` | crates/zroutery-core/src/agent_takeover.rs:1096-1105 | reading a printed header line opens exactly the table it was printed for |
| `TomlLineLaws.RawKeyInjective` | crates/zroutery-core/src/agent_takeover.rs:1560-1570 | two keys that are read back as the same raw key were the same key |
| `TomlRoundTrip.PrintedTableReadsBack` | crates/zroutery-core/src/agent_takeover.rs:1088-1591 | what any printable table of any depth and width reads back as, in any key order: itself with its keys in raw form, and an error exactly when some key is empty |
| `TomlRoundTrip.RoundTripExactlyWhenClean` | crates/zroutery-core/src/agent_takeover.rs:1486-1591 | printing succeeds exactly on tables with printable leaves, and the text then parses to the same table if and only if no key is empty or holds a double quote, a backslash or a control character |
| `TomlPrintable.ParsedIsPrintable` | crates/zroutery-core/src/agent_takeover.rs:1088-1127 | whatever text the parser accepts, the printer accepts the result |
| `ConfigTree.Document.SetField` | crates/zroutery-core/src/agent_takeover.rs:838-879 | the in-place set yields the tree of the specification; a failed set leaves the whole tree unchanged although it creates parents on its way, and names the part in the way |
| `ConfigTree.Document.RemoveField` | crates/zroutery-core/src/agent_takeover.rs:985-1002 | removes the leaf only and leaves its parent tables, or nothing when the way does not exist |
| `ConfigTree.Document.GetField` | crates/zroutery-core/src/agent_takeover.rs:1006-1013 | the value at the path, if every part before it is a table |
| `ConfigTree.SetSucceedsIff` | crates/zroutery-core/src/agent_takeover.rs:838-879 | a set succeeds exactly when every proper prefix of the path is absent or a table |
| `ConfigTree.SetNestedLaws` | crates/zroutery-core/src/agent_takeover.rs:838-879 | a successful set is read back, and every incomparable path keeps its value or its absence |
| `ConfigTree.RemoveNestedLaws` | crates/zroutery-core/src/agent_takeover.rs:985-1002 | a removed path is absent afterwards, and every incomparable path keeps its value or its absence |
| `ConfigTree.SetsCommute` | crates/zroutery-core/src/agent_takeover.rs:838-879 | two sets that succeed on paths neither of which holds the other succeed in either order and give the same tree |
| `ConfigTree.SetThroughParent` | crates/zroutery-core/src/agent_takeover.rs:855-879 | setting a leaf is opening its parent table and writing there, so the setter and the document parser agree on what creates a table |
| `ManagedFields.PartsUndoesJoin` | crates/zroutery-core/src/agent_takeover.rs:838-850 | a dotted field splits into exactly the parts it was joined from with dots |
| `ManagedFields.JoinUndoesParts` | crates/zroutery-core/src/agent_takeover.rs:838-850 | every field is its parts joined with dots, and no part holds a dot |
| `Takeover.TakeoverStore.Adopt` | crates/zroutery-core/src/agent_takeover.rs:193-240 | refused unless the state is Verified or Released, with nothing changed; otherwise managed fields split into recorded values and absent ones |
| `Takeover.TakeoverStore.Release` | crates/zroutery-core/src/agent_takeover.rs:250-275 | refused unless Adopted, with nothing changed; otherwise the manifest is closed and the generation moves on |
| `Takeover.TakeoverStore.ClaimRelease` | crates/zroutery-core/src/agent_takeover.rs:330-352 | the first lock section of a restoring release: from Adopted to Releasing, handing out the manifest and the generation |
| `Takeover.TakeoverStore.CommitRelease` | crates/zroutery-core/src/agent_takeover.rs:369-393 | the last lock section: refused when the state or the generation moved, otherwise the release of the claimed manifest |
| `Takeover.TakeoverStore.AbortRelease` | crates/zroutery-core/src/agent_takeover.rs:396-401 | from Releasing back to Adopted, and nothing from any other state |
| `Takeover.AdoptionSplits` | crates/zroutery-core/src/agent_takeover.rs:205-228 | the managed fields of an adoption are exactly the recorded ones and the absent ones, and no field is both |
| `TakeoverProtocol.EveryRunKeepsInvariant` | crates/zroutery-core/src/agent_takeover.rs:193-401 | every interleaving of adoptions, plain releases and the claim, read, write, abort and commit steps of any number of callers keeps the protocol invariant |
| `TakeoverProtocol.ReachableStores` | crates/zroutery-core/src/agent_takeover.rs:193-401 | in every reachable state the number of restoring releases in flight is one exactly when the state is Releasing and else none, the generation equals the number of completed cycles, and a manifest is there whenever it is unwrapped |
| `TakeoverProtocol.EveryCommitSucceeds` | crates/zroutery-core/src/agent_takeover.rs:369-393 | no step meets a missing manifest and no commit is ever turned away as changed; it reports the manifest whose values were written back |
| `TakeoverProtocol.ReleaseExcludesOthers` | crates/zroutery-core/src/agent_takeover.rs:330-352 | while one caller releases, every adoption, release and claim is refused and leaves the store alone |
| `TakeoverProtocol.AcceptedExactly` | crates/zroutery-core/src/agent_takeover.rs:193-352 | in every reachable state an adoption is accepted exactly when every accepted adoption before it was released, and a release or a claim exactly when one was not and nobody is releasing it |
| `TakeoverProtocol.AdoptionIsRecorded` | crates/zroutery-core/src/agent_takeover.rs:205-240 | an accepted adoption records its fields, the value of each that has one, and which have none |
| `TakeoverRestore.ConfigFile.ReadConfig` | crates/zroutery-core/src/agent_takeover.rs:1047-1072 | a missing file reads as the empty table without a version |
| `TakeoverRestore.ConfigFile.ApplyPatch` | crates/zroutery-core/src/agent_takeover.rs:922-969 | the file becomes the printed patched tree exactly when it still is the version the caller read; on every failure it is unchanged |
| `TakeoverRestore.ConfigFile.ReleaseToDisk` | crates/zroutery-core/src/agent_takeover.rs:972-982 | the file becomes the printed restored tree, or is unchanged |
| `TakeoverRestore.ApplyFieldsTo` | crates/zroutery-core/src/agent_takeover.rs:907-912 | the fields are set one after another, up to the first that fails |
| `TakeoverRestore.RestoreFieldsIn` | crates/zroutery-core/src/agent_takeover.rs:891-904 | absent fields are removed and recorded ones set back, in the order of the managed fields |
| `TakeoverRestore.ReleaseWithRestore` | crates/zroutery-core/src/agent_takeover.rs:330-393 | alone, the restoring release either restores file and store together or leaves both as they were |
| `TakeoverRestore.RecoverOrphaned` | crates/zroutery-core/src/agent_takeover.rs:423-431 | refused exactly when the state is not Adopted, otherwise a restoring release |
| `RestoreLaws.RestoreReturns` | crates/zroutery-core/src/agent_takeover.rs:891-904 | after any patches of managed fields, restoring never meets a type conflict and returns every managed field to its value or its absence, and every path beside them is untouched |
| `RestoreLaws.PrefixFreeIsManageable` | crates/zroutery-core/src/agent_takeover.rs:891-904 | lists of which no path holds another satisfy the condition in any order |
| `RestoreLaws.InnerFirstCanConflict` | crates/zroutery-core/src/agent_takeover.rs:838-904 | for every list with a field before the one it is inside, and before all that hold that one, there are a tree and a patch after which the restore fails |
| `RestoreLaws.RestoreIsCleanExactly` | crates/zroutery-core/src/agent_takeover.rs:891-904 | a list of well-formed fields can always be restored if and only if outer fields come before inner ones |
| `TakeoverRestoreLaws.PatchIsReadBack` | crates/zroutery-core/src/agent_takeover.rs:838-969 | a patch of one field, named by its parts, is written exactly when no value stands in its way; re-read, the file has the value at that path and every incomparable path as before |
| `TakeoverRestoreLaws.AdoptPatchRelease` | crates/zroutery-core/src/agent_takeover.rs:891-982 | end to end through the file: adopt, then any number of written patches of managed fields and of edits by others, then the restoring release succeeds, and re-reading the file gives every managed field its original value or absence and every path beside them what the last edit left there, or what was there originally when nobody edited |
| `TakeoverRestoreLaws.EditDuringReleaseIsLostExactly` | crates/zroutery-core/src/agent_takeover.rs:972-982 | an edit made between the read and the write of a restoring release is lost at a path beside the managed fields if and only if it changed what had been read there |
| `TakeoverRestoreLaws.LayoutExists` | crates/zroutery-core/src/agent_takeover.rs:1496-1535 | some order of keys walks every table of every tree, so the theorems about printed text are about something |
| `CircuitBreaker.CircuitBreaker.Allow` | crates/zroutery-core/src/circuit_breaker.rs:170-203 | Closed admits, HalfOpen admits with the permit only, and Open admits once the timeout of its opening has passed, moving to HalfOpen |
| `CircuitBreaker.CircuitBreaker.TakeHalfOpenPermit` | crates/zroutery-core/src/circuit_breaker.rs:205-214 | admits and counts exactly when the permit is there, and takes it |
| `CircuitBreaker.CircuitBreaker.Succeeded` | crates/zroutery-core/src/circuit_breaker.rs:221-250 | what a success changes in each state, closing included |
| `CircuitBreaker.CircuitBreaker.Failed` | crates/zroutery-core/src/circuit_breaker.rs:257-280 | what a failure changes in each state, opening by count or by rate included |
| `CircuitBreaker.CircuitBreaker.CanProbe` | crates/zroutery-core/src/circuit_breaker.rs:135-146 | tells whether an admission could succeed, without changing anything |
| `CircuitBreaker.CircuitBreaker.ReleaseHalfOpenPermit` | crates/zroutery-core/src/circuit_breaker.rs:298-302 | the permit is back in HalfOpen, and nothing happens elsewhere |
| `CircuitBreaker.CircuitBreaker.Reset` | crates/zroutery-core/src/circuit_breaker.rs:305-322 | back to a new breaker with the same configuration |
| `CircuitBreaker.EveryStateIsExplained` | crates/zroutery-core/src/circuit_breaker.rs:170-291 | in every run, what the current state says about the history: a short failure streak, the opening, or the half-open stretch with its successes |
| `CircuitBreaker.ClosedStreakIsShort` | crates/zroutery-core/src/circuit_breaker.rs:257-280 | in every reachable Closed state the trailing run of failures is shorter than max(`failure_threshold`, 1) |
| `CircuitBreaker.ClosingTakesTimeoutAndSuccesses` | crates/zroutery-core/src/circuit_breaker.rs:170-291 | between an opening and the next Closed state at least the timeout passed and at least max(`success_threshold`, 1) successes were reported in HalfOpen, with no failure reported since it was entered |
| `BreakerHistory.CountersAreCounts` | crates/zroutery-core/src/circuit_breaker.rs:170-291 | in every state the two counters are the requests admitted and the failures reported since they were last zero |
| `BreakerHistory.OpensExactly` | crates/zroutery-core/src/circuit_breaker.rs:257-280 | a Closed breaker opens at an event if and only if that is a failure and either the failures since the last success reach max(`failure_threshold`, 1), or at least `min_requests` requests came since the counters were last zero and the failures since then are at least the configured rate of them |
| `BreakerHistory.FewRequestsDoNotOpen` | crates/zroutery-core/src/circuit_breaker.rs:257-280 | with fewer requests than `min_requests` and too short a streak it stays Closed |
| `BreakerHistory.ClosesExactly` | crates/zroutery-core/src/circuit_breaker.rs:221-250 | a HalfOpen breaker closes at an event if and only if that is the last success it still needs, and opens if and only if it is a failure |
| `BreakerHistory.AdmitsExactly` | crates/zroutery-core/src/circuit_breaker.rs:170-214 | a request is admitted if and only if the breaker is Closed, or Open with the timeout of its opening over, or HalfOpen with a success or a returned permit as the last call since it was entered |
| `BreakerInterleaving.OneProbeAtATime` | crates/zroutery-core/src/circuit_breaker.rs:170-291 | any number of callers interleave single lock sections and atomic accesses: in every run in which outcomes in HalfOpen are the probe's own, at most one probe is admitted and unsettled, and only in HalfOpen |
| `BreakerInterleaving.OnePermitPerExpiry` | crates/zroutery-core/src/circuit_breaker.rs:178-214 | in the same runs, one expiry hands out one permit: probes let in are the permits handed back, the half-open periods that ended, and the one in hand |
| `BreakerInterleaving.AdmissionAlone` | crates/zroutery-core/src/circuit_breaker.rs:170-214 | undisturbed, the single steps of an admission amount to the method of the sequential breaker |
| `BreakerReports.SuccessAlone` | crates/zroutery-core/src/circuit_breaker.rs:221-250 | undisturbed, the single steps of a reported success amount to the method |
| `BreakerReports.FailureAlone` | crates/zroutery-core/src/circuit_breaker.rs:257-291 | undisturbed, the single steps of a reported failure amount to the method |
| `BreakerReports.ReturnAlone` | crates/zroutery-core/src/circuit_breaker.rs:298-302 | undisturbed, handing the permit back amounts to the method, and the caller is no probe any more |
| `BreakerDiscipline.SlipsAreUndisciplined` | crates/zroutery-core/src/circuit_breaker.rs:221-302 | a step breaks that discipline exactly when a request that is no probe succeeds, fails or hands its permit back in HalfOpen |
| `BreakerDiscipline.OneSlipAdmitsSecondProbe` | crates/zroutery-core/src/circuit_breaker.rs:170-302 | for every configuration and each of the three slips: a disciplined run from a new breaker, that one slip, and a disciplined run to a state with two probes admitted and unsettled |
| `BreakerRuns.FailuresOpen` | crates/zroutery-core/src/circuit_breaker.rs:257-280 | from every reachable Closed state outside the lock sections, failures of one caller alone open the breaker, whatever the configuration |
| `BreakerTiming.EntryFollowsTheReadOpening` | crates/zroutery-core/src/circuit_breaker.rs:176-203 | in every interleaving, whoever moves the breaker to HalfOpen does so at least the timeout after the opening it had read; the move is early only if the breaker was opened anew since |
| `BreakerTiming.StaleCheckEntersEarly` | crates/zroutery-core/src/circuit_breaker.rs:176-203 | for every configuration with a timeout: a disciplined run from a new breaker to a state in which a caller that checked an older opening half-opens a newer one before its timeout |
| `BreakerTiming.EntryCanBeEarlyExactly` | crates/zroutery-core/src/circuit_breaker.rs:176-203 | some interleaving from a new breaker enters HalfOpen before the timeout of its opening if and only if the configured timeout is not zero |
| `Calendar.DayTextOrder` | crates/zroutery-core/src/budget.rs:94-99 | dates written as `YYYY-MM-DD` compare as strings exactly as the dates do |
| `Calendar.MonthTextOrder` | crates/zroutery-core/src/budget.rs:94-99 | months written as `YYYY-MM` compare as strings exactly as the months do |
| `Calendar.DashesTellPeriods` | crates/zroutery-core/src/budget.rs:269-292 | a day key has two dashes and a month key one, which is how the pruning tells them apart |
| `Budget.Ledger.Charge` | crates/zroutery-core/src/budget.rs:230-257 | one charge adds its amount to the day and the month bucket of every scope it counts towards |
| `Budget.Ledger.Prune` | crates/zroutery-core/src/budget.rs:269-292 | exactly the buckets not older than forty days or thirteen months stay, with their amounts |
| `Budget.Check` | crates/zroutery-core/src/budget.rs:343-378 | the loop with its pending degrade decides as the specification over the list does |
| `Budget.RejectionOutranksDegrade` | crates/zroutery-core/src/budget.rs:343-378 | a used-up rejecting budget wins wherever it stands in the list, the first one of its kind counts, and a request is allowed exactly when no budget that covers it is used up |
| `BudgetCoverage.CoversExactly` | crates/zroutery-core/src/budget.rs:353-357 | a budget covers a request exactly when a charge of that request, on one of its providers and with its tier, falls in its scope |
| `BudgetCoverage.CheckAnswersForTheRequest` | crates/zroutery-core/src/budget.rs:343-378 | the check allows exactly when no enabled budget that a charge of this very request would raise is used up, refuses exactly when one of those that is rejects, and names such a budget when it does not allow |
| `BudgetCoverage.CheckFollowsHistory` | crates/zroutery-core/src/budget.rs:230-378 | the same after any run of charges and prunes, in terms of what was charged |
| `LedgerKeys.KeysIdentifyBuckets` | crates/zroutery-core/src/budget.rs:61-227 | for provider ids without `|`, two flat keys are equal exactly when scope, period kind, current period and currency are |
| `LedgerKeys.PlainCurrenciesIdentifyBuckets` | crates/zroutery-core/src/budget.rs:61-227 | the same for any provider ids, when the currencies are free of `|` |
| `LedgerKeys.OneScopeIdentifiesBuckets` | crates/zroutery-core/src/budget.rs:61-227 | the same for the keys of one scope, whatever its id and the currencies hold |
| `LedgerKeys.ScopesShareKeyExactly` | crates/zroutery-core/src/budget.rs:61-227 | two different scopes have buckets with one flat key, for some currencies and dates, if and only if both are providers and one id is the other one followed by `|`, the text of a day or month, and nothing or a further `|` |
| `LedgerKeys.KeysCanCollide` | crates/zroutery-core/src/budget.rs:61-227 | any provider id shares a key with the id that has `|` and a month behind it |
| `BudgetRuns.ChargeCounts` | crates/zroutery-core/src/budget.rs:230-265 | a charge raises exactly the budgets whose scope, currency and current period it falls in, by its amount |
| `BudgetRuns.CurrentBucketStays` | crates/zroutery-core/src/budget.rs:269-292 | pruning never drops the bucket of a period that is current then or later |
| `BudgetRuns.CurrentBucketStaysExactly` | crates/zroutery-core/src/budget.rs:225-292 | for any provider id: pruning keeps the current bucket exactly when the id has no `|`, or what follows its first `|` happens to read as a recent period |
| `LedgerPruning.RetainedExactly` | crates/zroutery-core/src/budget.rs:269-292 | pruning keeps the bucket of a day exactly when that is at most forty days back, and of a month exactly when it is at most thirteen months back |
| `DayNumbers.GoingBack` | crates/zroutery-core/src/budget.rs:269-272 | going back some days subtracts them from the number of the day, across months and leap years |
| `DayNumbers.NumbersFollowDates` | crates/zroutery-core/src/budget.rs:269-292 | dates are in order exactly as the numbers of their days are |
| `BudgetRuns.BarInIdForgetsSpend` | crates/zroutery-core/src/budget.rs:225-292 | an id with `|` for which the spend of the day is dropped the same day |
| `BudgetRuns.LedgerCountsCharges` | crates/zroutery-core/src/budget.rs:230-292 | over any run of charges and prunes in time order, what a budget reads is the sum of all charges that match its scope, currency and current day or month |
| `BudgetRuns.TotalOverTime` | crates/zroutery-core/src/budget.rs:260-265 | as time passes the spend of a budget stays, or starts again from zero with the new period |
| `BudgetRuns.OvershootIsBounded` | crates/zroutery-core/src/budget.rs:6-18 | in every run in which requests enter on an allowing check with room for at most `room` per budget and cost at most `most` each, the spend of every enabled rejecting budget stays below its limit plus `room` times `most`, across period rollovers; with room for one this is the documented overshoot of one request |
| `ElectionLaws.EveryModelRankedOnce` | crates/zroutery-core/src/election.rs:223-316 | the ranking is a permutation of the measurements |
| `ElectionLaws.AnsweredComeFirst` | crates/zroutery-core/src/election.rs:297-329 | each place shows its own model, exactly the models that answered come first, and exactly those have a score |
| `ElectionLaws.BestFirst` | crates/zroutery-core/src/election.rs:287-295 | the models that answered are in order of score, then manual priority, then id |
| `ElectionTrade.OneWeightOrders` | crates/zroutery-core/src/election.rs:82-90 | with weight on price only, the models that answered are in order of price ratio whatever their latency; with weight on latency only, or without comparable prices, in order of latency ratio |
| `ElectionTrade.CheaperWinsExactly` | crates/zroutery-core/src/election.rs:264-285 | of two models the cheaper one scores no worse if and only if what it loses in latency, times the configured latency weight, is no more than what it saves in price, times the configured price weight |
| `ElectionTrade.PriceWeightFavoursCheaper` | crates/zroutery-core/src/election.rs:82-90 | raising the price weight never makes the cheaper of two models score worse against the other |
| `ElectionTrade.RatioMeasures` | crates/zroutery-core/src/election.rs:341-377 | a ratio is how many times the best a value is, from once to a hundred times |
| `ElectionTrade.NoteSaysWhy` | crates/zroutery-core/src/election.rs:227-262 | the note says exactly why prices were not scored: nothing answered, a price is missing, or how many currencies there are |
| `ElectionLaws.SortIsStable` | crates/zroutery-core/src/election.rs:287-295 | measurements that tie on all three stay in the order they were measured |
| `ElectionLaws.PriceCountsWhen` | crates/zroutery-core/src/election.rs:240-262 | price is scored exactly when every model that answered has one and all are in one currency |
| `ElectionLaws.RankIgnoresInputOrder` | crates/zroutery-core/src/election.rs:223-316 | when an id identifies its measurement, the answered places with their scores, the `priced` flag and the note do not depend on the order of the input |
| `ElectionLaws.ScoresInRange` | crates/zroutery-core/src/election.rs:264-285 | every score lies between 1 and 100 |
| `ElectionLaws.BetterOnBothAxes` | crates/zroutery-core/src/election.rs:264-295 | a model no slower and no dearer than another never scores worse, and comes later only on an exact tie |
| `ElectionLaws.WeightsNormalised` | crates/zroutery-core/src/election.rs:82-90 | the weights used are not negative and sum to one, whatever was configured |
| `ElectionLaws.ScalingWeightsChangesNothing` | crates/zroutery-core/src/election.rs:82-90 | multiplying both weights by one positive constant changes nothing in the election |
| `ElectionLaws.RatiosDecide` | crates/zroutery-core/src/election.rs:264-377 | any change of prices that keeps their ratios keeps every score and every place |
| `ElectionLaws.ScalingPricesChangesNothingElse` | crates/zroutery-core/src/election.rs:264-377 | multiplying all prices by one positive constant keeps every score, place and remark, with free models and capped ratios included |
| `Logs.StripAnsi` | src-tauri/src/logs.rs:72-119 | the character loop returns the stripped text of the specification |
| `Logs.LogBuffer.PushBytes` | src-tauri/src/logs.rs:44-65 | the loop over complete lines moves the buffer as one push of the specification does, and the bound on the lines holds |
| `Logs.LogBuffer.constructor` | src-tauri/src/logs.rs:27-32 | an empty buffer that keeps at least one line |
| `LogLaws.BufferIgnoresSplits` | src-tauri/src/logs.rs:44-65 | after any writes the buffer holds the last `max_lines` non-empty cleaned lines of the concatenated text and its unterminated tail, however the text was split |
| `LogLaws.NewestLinesAreHeld` | src-tauri/src/logs.rs:44-65 | of ordinary output, in any writes, with line feeds or carriage returns before them, the buffer holds the newest `max_lines` lines that are not empty, as they are and in order, and the unfinished rest |
| `LogLaws.LinesAndTailAreTheText` | src-tauri/src/logs.rs:50-53 | complete lines and tail put together are the text |
| `LogLaws.StripRemoves` | src-tauri/src/logs.rs:72-119 | stripping only removes characters and removes every ESC |
| `LogLaws.StripIsIdempotent` | src-tauri/src/logs.rs:72-119 | stripping twice is stripping once |
| `LogLaws.StripRemovesExactlySequences` | src-tauri/src/logs.rs:80-115 | of any output made of plain characters, control sequences, operating system commands and two-character escapes, exactly the plain characters stay |
| `SaveQueue.Queue.Run` | ui/src/App.tsx:94-122 | a call while something runs is queued; otherwise it starts a new loop behind the last one |
| `SaveQueue.Queue.Finish` | ui/src/App.tsx:123-153 | the end of a task: commit, answer and next task; or drop everyone waiting and tell them false |
| `SaveQueueLaws.RunKeeps` | ui/src/App.tsx:83-156 | every interleaving of calls, starts and task outcomes keeps the invariant of the queue |
| `SaveQueueLaws.OneTaskInFlight` | ui/src/App.tsx:74-156 | never two tasks in flight, and an empty queue when nothing runs |
| `SaveQueueLaws.NoSaveIsLostOrReordered` | ui/src/App.tsx:74-92 | commits follow call order, and each was computed from the result of the commit before it |
| `SaveQueueLaws.EveryCallerAnsweredOnce` | ui/src/App.tsx:79-156 | no caller is answered twice, and everyone is answered exactly once by the time nothing runs |
| `SaveQueueLaws.AnswersAreTrue` | ui/src/App.tsx:79-82 | a caller told true had its own task committed, and a queued caller is told true if and only if it had |
| `SaveQueueLaws.LeaderToldExactly` | ui/src/App.tsx:123-153 | the caller that leads a loop is told true if and only if no task of that loop failed, its own or one queued behind it |
| `SaveQueueLaws.AnswerIsExactWhenQueued` | ui/src/App.tsx:74-156 | in every reachable state: the answer of the next caller says exactly whether its own task was committed, whatever happens after the call, if and only if something is running when it calls |
| `SaveQueueLaws.LeaderMayBeToldFalse` | ui/src/App.tsx:123-153 | from every state in which nothing runs, a run in which the caller that starts the loop is told false although its task was committed |
| `SaveQueueLaws.QueueEmpties` | ui/src/App.tsx:123-153 | while something runs a step is possible, and every step but a new call brings the queue nearer to empty |
| `ApplyConfig.Desktop.Start` | src-tauri/src/state.rs:440-451 | does nothing when a listener runs, otherwise binds what the configuration in memory says |
| `ApplyConfig.Desktop.MigrateListener` | src-tauri/src/state.rs:639-682 | on success the running listener serves the new settings; on failure one that serves the previous settings runs unless both restore attempts failed |
| `ApplyConfig.Desktop.Apply` | src-tauri/src/state.rs:547-618 | for every answer of validation, probe, saves and binds: which outcome follows; memory and window rules hold the normalised new configuration on success and the previous one on failure; the document agrees unless the undoing save failed; a listener that ran still runs unless every restore attempt failed; and the outbound client keeps a refused proxy setting |
| `ApplyConfig.Desktop.RemoveProvider` | src-tauri/src/state.rs:485-533 | removes the provider and its models together with the key only it used, and reports a key that could not be deleted; a failed save leaves the configuration but not the key, which goes first: every provider still configured keeps its key unless such a key was deleted and the save then failed |
| `ApplyConfig.RebindIsNeededExactly` | src-tauri/src/state.rs:700-708 | a listener that serves the old settings serves the new ones exactly when no rebind is needed, for ports other than 0 |
| `ApplyConfig.Session` | src-tauri/src/state.rs:440-682 | in every session of starts, stops, changes and removals the listener and the window rules follow the configuration in memory, and so does the document as long as no undoing save fails |
| `ApplyConfig.OtherProvidersStay` | src-tauri/src/state.rs:493-495 | after a removal the id is unknown and every other id still finds the same provider |
| `ApplyConfigLaws.TakesEffectOnlyWhen` | src-tauri/src/state.rs:567-612 | a change takes effect if and only if it is valid, saved, and, when its address is new, not refused by the probe of a fixed port and bound when a listener ran |
| `ApplyConfigLaws.AnswersNotAskedFor` | src-tauri/src/state.rs:576-612 | port 0 is not probed, an unchanged address is neither probed nor bound, a stopped gateway binds nothing, and restoring plays no part when the bind succeeds |
| `ApplyConfigLaws.DocumentFallsBehindExactly` | src-tauri/src/state.rs:591-612 | the document disagrees with memory after a change exactly when the change was taken back and the undoing save failed |
| `ApplyConfigLaws.OneListenerServes` | src-tauri/src/state.rs:700-708 | settings with a port of their own are served by one listener only, the one started on them |
| `ApplyConfigLaws.OtherModelsStay` | src-tauri/src/state.rs:493-495 | a removal takes exactly the models of that provider |
| `ApplyConfigLaws.OtherIdsResolve` | src-tauri/src/state.rs:493-495 | an id that resolved to a model of another provider resolves to the same one afterwards |
| `Config.NormaliseModel` | crates/zroutery-core/src/config.rs:1007-1040 | one model folded in place: legacy id, alias list, capabilities |
| `Config.Normalise` | crates/zroutery-core/src/config.rs:1004-1048 | the loops over models and budgets compute the normalised document and one note for every id that moved |
| `Config.DuplicateIds` | crates/zroutery-core/src/config.rs:1135-1204 | the counting loop reports exactly the ids claimed more than once, with their counts |
| `ConfigLaws.NormaliseIsIdempotent` | crates/zroutery-core/src/config.rs:1004-1048 | normalising a second time changes nothing and reports nothing |
| `ConfigLaws.NotesNameWhatMoved` | crates/zroutery-core/src/config.rs:1007-1019 | the notes name exactly the ids that moved and what each model is exposed as |
| `ConfigLaws.SameIdsAnswered` | crates/zroutery-core/src/config.rs:499-502 | after normalising a model answers to exactly the non-blank ids it answered to before and to its legacy id |
| `ConfigLaws.ResolvesAsBeforeExactly` | crates/zroutery-core/src/config.rs:976-1048 | a non-blank id that resolved to a model resolves to the same one after normalising if and only if no earlier model had it as legacy id |
| `ConfigLaws.LegacyIdResolves` | crates/zroutery-core/src/config.rs:976-1048 | an id that nothing answered to resolves after normalising to the first model that had it as legacy id, and to nothing when none had |
| `ConfigLaws.CleanListResolvesAsBefore` | crates/zroutery-core/src/config.rs:976-1048 | when the normalised list has no reported duplicate, every non-blank id resolves to the model it meant before |
| `ConfigLaws.LegacyIdCanTakeOver` | crates/zroutery-core/src/config.rs:976-1048 | two models of which the earlier one takes an id over from the later one, because it is its legacy id |
| `ConfigLaws.NoDuplicatesMeansUnambiguous` | crates/zroutery-core/src/config.rs:1135-1204 | without a reported duplicate no id is answered by two models; for a normalised list the converse holds too |
| `ConfigLaws.FindIgnoresOrder` | crates/zroutery-core/src/config.rs:976-978 | without a reported duplicate an id resolves to the same model however the list is ordered |
| `ConfigLaws.SameModelToldApart` | crates/zroutery-core/src/config.rs:386-402 | one upstream model under two providers gets one id exactly when the provider ids agree once trimmed and sanitised |
| `ConfigLaws.IdsCanCollide` | crates/zroutery-core/src/config.rs:404-409 | two different models that share an exposed id |
| `CcSwitch.Fnv1a` | src-tauri/src/ccswitch.rs:266-273 | the hash loop computes the fold of the specification in 64 bits |
| `CcSwitch.UniqueProviderId` | src-tauri/src/ccswitch.rs:544-571 | for every finite set of taken ids the loop ends with a free id: the base, or the base with the least free number from 2 |
| `CcSwitch.CollectModels` | src-tauri/src/ccswitch.rs:472-541 | every model an entry names is listed once, in the tier that names it first, or in the standard tier when all named tiers share it |
| `CcSwitchLaws.BaseIdIsTidy` | src-tauri/src/ccswitch.rs:544-563 | the base id is not empty, has no hyphen at either end and holds only characters ids may hold |
| `CcSwitchLaws.BaseIdKeepsTheName` | src-tauri/src/ccswitch.rs:544-563 | it is the lower-cased name with its other characters replaced, less the hyphens at both ends, and `provider` when nothing else is left |
| `CcSwitchLaws.MarkerTextRoundTrip` | src-tauri/src/ccswitch.rs:200-218 | printing a 24-bit marker in six hexadecimal digits and parsing them undo each other |
| `CcSwitchLaws.TargetCarriesMarker` | src-tauri/src/ccswitch.rs:200-204 | the id an entry gets carries its marker behind the last hyphen, whatever the entry is called |
| `CcSwitchLaws.RecognitionStays` | src-tauri/src/ccswitch.rs:170-239 | adding providers anywhere never makes a recognised entry importable again |
| `CcSwitchLaws.ImportedOnce` | src-tauri/src/ccswitch.rs:170-194 | plan, import, add any other providers and plan again: nothing is planned twice, and what was imported is recognised by its source |
| `CcSwitchLaws.ImportedUnlessSameAccount` | src-tauri/src/ccswitch.rs:221-239 | an entry whose marker nobody carries is recognised exactly when a provider has its address, up to slashes at the end, and its credential; without a readable credential never |
| `CcSwitchLaws.RecognisedByAProvider` | src-tauri/src/ccswitch.rs:207-239 | what an entry is recognised by is a configured provider that carries its marker or has its account |
| `CcSwitchLaws.OtherEntriesStayImportable` | src-tauri/src/ccswitch.rs:198-218 | importing one entry makes another count as the same source if and only if their markers agree |
| `CcSwitchLaws.MarkersCanCollide` | src-tauri/src/ccswitch.rs:261-273 | two source ids with the same marker |
| `CcSwitchLaws.HashOfLetterA` | src-tauri/src/ccswitch.rs:266-273 | the published 64-bit FNV-1a value of a one-letter text |
| `CcSwitchLaws.NoHyphenNoMarker` | src-tauri/src/ccswitch.rs:207-218 | an id without a hyphen carries no marker, whatever digits it is made of |
| `CcSwitchLaws.StandardServedWhen` | src-tauri/src/ccswitch.rs:466-541 | the import leaves the standard tier empty exactly when no model is shared by all named tiers and the sonnet model is missing or is the opus model too |
| `CcSwitchLaws.SharedWhen` | src-tauri/src/ccswitch.rs:466-500 | a model serves all the tiers exactly when at least two name a model and all that do name this one |
| `CcSwitchLaws.TierFollowsTheName` | src-tauri/src/ccswitch.rs:502-524 | otherwise the opus model is for reasoning, the sonnet model standard and the haiku model fast, and a model named twice is in the first of them |

## Left out

- Takeover: the JSON format of other clients (the text is the work of a library), file permissions, the atomic rename, home directories and environment variables; a file is its text, and the hash that detects an external edit is the text itself, so collisions of hashes are not modelled.
- Takeover: detecting external modifications and resolving conflicts, which are one comparison per field.
- Takeover: the order of keys in a parsed object. Objects are compared without order, so trees are maps, and the printer takes the order as a parameter; every theorem holds for every order.
- TOML: floating-point numbers, and integers beyond 64 signed bits, are no values of this model; the printer's refusal of null and of tables in arrays is modelled. Error texts are constructors with the same cases.
- TomlValueParser.Cursor.ParseBareValue: refuses floating-point literals and integers beyond 64 signed bits, both of which the source reads as floating-point numbers.
- TakeoverRestoreLaws.PatchIsReadBack: assumes clean keys in the file, the path and the value, for the reason given below.
- TakeoverRestoreLaws.AdoptPatchRelease: assumes that the original keys, and those of an edit by others, are clean, because an unclean key is renamed by the next write (see TomlRoundTrip.PrintedTableReadsBack), and that an edit parses and puts no value in the way of a field to restore. The version check of a patch and its write are one step; an edit between the two is not modelled.
- BreakerInterleaving.OneProbeAtATime: for disciplined runs, because BreakerDiscipline.OneSlipAdmitsSecondProbe shows that others lose it; `reset` and `set_config` are no steps of these runs.
- Breaker interleavings: every atomic access takes effect at once and for all callers, as if sequentially consistent; the source uses relaxed accesses, whose further reorderings are not modelled.
- BreakerHistory.OpensExactly: like the other laws of runs of calls, for a fixed configuration and no `reset`; the rate is compared as an exact rational.
- CircuitBreaker.ClosingTakesTimeoutAndSuccesses: for a fixed configuration and no `reset`; with single steps interleaved the timeout part holds only as BreakerTiming.EntryFollowsTheReadOpening says, and fails for every timeout above zero by BreakerTiming.EntryCanBeEarlyExactly.
- Circuit breaker: counters that wrap around, the remaining-seconds display, and rounding in the error rate, which is compared as an exact rational.
- Budgets and election: amounts, weights and scores are real numbers, so rounding, infinities and not-a-number are not modelled; latencies are exact too.
- Budgets: years outside 4 to 9999, where the cutoff date or its text leaves four digits; `totals_for`, labels and `problems`; the auxiliary vision call, which is charged without a check.
- BudgetRuns.OvershootIsBounded: the admission control that bounds the requests in flight is an assumption on the run; its own code is not part of this model.
- Election: the texts of notes and remarks (they are constructors), and how a probe is made.
- Logs: decoding bytes. The model starts from the decoded text of each write; a character that two writes share is replaced in both when they are decoded. The mirror to standard output.
- SaveQueue: what refreshes and the gateway switch write to the latest configuration outside the queue, notifications and the busy flag.
- ApplyConfig.Desktop.Apply: one change at a time, as its own lock makes it; a start or stop from the tray between two of its steps is not modelled. The checks of `validate` are a parameter here, of which Config.DuplicateIds is one; a failed save leaves the old document.
- Config: fields of models, providers and settings that none of these operations read or change, and the other rules of `validate`.
- CcSwitch: reading its database and its old JSON file, drafts that fail their own validation, keys and time limits of imported providers, and the lower-casing of names, which is a parameter. Numbers of taken ids do not overflow.
- The router, the server pipeline, the migration steps, failure classification, sessions, feedback, queries, billing, the key store and all rendering: mostly I/O or table lookups.
- Recovery from poisoned locks.
