# Operator-config engine: a Dafny model

This project models the part of the repository that changes its configuration, and proves what that part is for. It
covers five things.

1. **The TOML patcher and serializer** (`Toml*.dfy`). The line-incremental lexer, table spans, append, remove and
   replace of `config/operator_config_transaction.py`, and the writer of `config/toml_writer.py` over any Python object.
   They are related to two independent definitions: a lexer that scans the whole document once (`TomlLexer.Scan`) and a
   small TOML reader with its own grammar and its own tree (`TomlSyntax.Parse`), which stands for `tomllib.loads`. That
   reader cuts a document where the lexer is neutral; `TomlDocument.ReadersAgree` shows that a reader made from the
   grammar alone, which knows nothing of the lexer, reads every text the same way.
2. **The fail-closed transactions** (`Transaction.dfy`, `MultiFile.dfy`, `MergeRuns.dfy`). Every call that leaves the process goes
   through an environment that may let it fail; the log of those calls is what the theorems speak of.
3. **The edit lock and its heartbeat** (`EditLock.dfy`). Steps of any number of processes on one lock file, and a clock.
4. **The transformations that must keep meaning** (`Migration*.dfy`, `LegacyModels.dfy`, `LegacyMeaning.dfy`, `ProviderMerge.dfy`,
   `MergeText.dfy`, `MergeModels.dfy`, `Projection.dfy`, `RuntimeProjection.dfy`, `Aliases.dfy`, `Registry.dfy`).
5. **Derived state that must agree with something simpler** (`Capabilities.dfy`, `Discovery.dfy`, `StorageCache.dfy`,
   `InstanceId.dfy`, `Identity.dfy`).

`dafny verify dfyconfig.toml` checks everything.

## Where the code does less than it seems to promise

Each of these is an exact condition, or a lemma with a concrete run or input beside the condition that excludes it.

- `TomlPublicConfig.ConfigRoundTrip`: a dumped config reads back if and only if every value in it is kept, no list stands
  at the top and no scalar follows a table there. Lost are strings that do not read back and all values for which the
  writer falls back to `str()`: `None` and other objects without a form in TOML, a list of anything but strings or
  dictionaries, and a list of dictionaries inside an item of an array of tables (`TomlPublicConfig.NestedArrayIsLost` is a
  config of that kind). A scalar written behind a table becomes a key of that
  table (`TomlConfig.MisplacedScalar`).
- `TomlScalars.FormatTextRoundTrip`: a string reads back if and only if it holds no carriage return and no control
  character but LF and TAB. A carriage return is folded to LF without a word; another control character makes the
  document unreadable.
- `TomlCurrent.CurrentExactly`: the value of an assignment on one line can be replaced only if no `#` in it stands outside
  the quotes as the splitter counts them, and it does not know triple quotes: `TomlCurrent.HashIsMissed` is a string that TOML
  reads and the patcher refuses.
- `MultiFile.ApplyV1ToV2`: when the v1 to v2 migration fails and its compensating writes succeed, the files are what
  they were unless the config write raised behind its replace. That write is not on the list of written files, so the
  config file keeps the new bytes. `RollbackV1ToV2` has the same gap.
- `MergeRuns.ApplyProviderMerge`: a Provider merge that raises sets its own manifest to `rolled_back` whenever that file can
  be read and written, while the files are back if and only if the compensating writes got that far.
  `MergeRuns.FalselyRolledBack` runs it in an environment where the manifest is wrong.
- `MergeModels.ModelsRead`: a model that a merge moves goes through the writer, so a value that the writer does not keep is
  lost from it; its upstream id is not, unless it holds a carriage return in its middle (`MergeModels.UpstreamExactly`).
- `EditLock.MutualExclusion`: at most one process has the lock in every run whose takeovers remove a lock that its creator
  has abandoned. The condition is exact: any other takeover leads, by two steps of the process that takes over, to two
  holders (`EditLock.HarmfulTakeover`), and it can happen (`EditLock.StaleTakeoverRace`). `EditLock.PromptRuns` shows that
  it does not while every holder touches its lock in time.
- `Migration.PreviewV1ToV2`: a READY migration keeps every legacy entry if and only if no two groups were given one id and
  no two upstream ids of a group share a key. `suggest_provider_id` cuts a name to 64 characters after it has looked for
  it among the ids in use, so two long equal labels always collide, and the second Provider silently replaces the first
  (`MigrationCollision.LongLabelsCollide`).
- `Identity.SameKeyExactly`: the digest in a model key has eight characters, so two upstream ids can share one; the lemma
  says exactly which do.
- `Migration.AliasFollows`: following the new alias map from an old id ends at the id's new reference if and only if
  that reference is not itself an old id that moved. `MigrationCollision.NewReferenceMoved` is a READY preview where it is.
- `RuntimeProjection.LibraryCleanExactly`: no credential key occurs in the projected library if and only if none is below a
  `defaults` that is no table; `RuntimeProjection.ListedDefaultsLeak` is a list that leaks one.
- `StorageCache.Storage.ResolveProjectStoragePaths`: a cached path is the one for the environment its entry was made in. A
  variable or a `~` in the projects home is expanded with other variables than the two of the cache key
  (`StorageCache.FingerprintMisses`).

## Model

| member | source | states |
|---|---|---|
| TomlLexer.AdvanceLexicalState | config/operator_config_transaction.py:215-276 | the source's index loop with its backslash lookback raises exactly when the reference lexer, which keeps an escape flag, finds a lexical error in the line, and otherwise leaves the state object holding what the reference carries to the next line |
| TomlLexer.IsUnescapedQuoteRun | config/operator_config_transaction.py:206-212 | true exactly when an even number of backslashes stands in front of the quote |
| TomlLexer.FoldIsOnePass | config/operator_config_transaction.py:279-301 | folding the lexer over the lines of a document equals one pass over the whole text: the same error, and otherwise the same open quote and depths |
| TomlAgreement.StatementIsNeutral | config/operator_config_transaction.py:215-276 | a text that the TOML grammar reads as one statement leaves the lexer outside every string, array and inline table |
| TomlAgreement.PrefixIsNotNeutral | config/operator_config_transaction.py:215-276 | and no shorter run of its lines does: behind every line break inside the statement the lexer is still inside something |
| TomlGrammar.StmtLocal | config/operator_config_transaction.py:279-302 | the statement that the grammar takes ends with a line, and does not depend on what stands behind that line |
| TomlDocument.ReadersAgree | config/operator_config_transaction.py:215-302 | cutting a document where the lexer is neutral gives, for every text, what a reader gives that takes statement after statement by the grammar alone: the same tree, or unreadable in both |
| TomlAgreement.UnixScan | config/operator_config_transaction.py:215-276 | the lexer ends in the same state with LF in place of every CRLF |
| TomlSpans.TableSpans | config/operator_config_transaction.py:279-302 | raises exactly when the lexer fails or ends inside something; otherwise lists every header with the lines up to the next one |
| TomlSpans.ReportedExactlyOutside | config/operator_config_transaction.py:279-302 | a line is reported as the header of a path if and only if it reads as that header and the one-pass lexer over the text in front of it is outside every string, comment, array and inline table |
| TomlSpans.SpansExactly | config/operator_config_transaction.py:279-302 | the scan raises exactly when the one-pass lexer over the whole text fails or ends inside something |
| TomlAppend.AppendTomlTable | config/operator_config_transaction.py:316-336 | for any values: succeeds exactly when the path is not empty, the document reads, no header names the path and the new statements can be built behind it, and each failure has its error; the result starts with the document, holds the old statements followed by the table's, and if the first LF of the document stands behind a CR, every added one does, else none; exactly one blank line sets the table off |
| TomlAppend.StyleStays | config/operator_config_transaction.py:309-313 | so a document with line breaks of one style keeps it throughout |
| TomlAppend.AppendedInStyle | config/operator_config_transaction.py:325-333 | style and blank line of the appended text, said of its characters alone |
| TomlAppend.AppendedReads | config/operator_config_transaction.py:316-336 | the longer document reads as the old statements followed by the table's, or not at all exactly when the table holds a string that TOML has no place for |
| TomlAppend.AppendPlaces | config/operator_config_transaction.py:316-336 | where the path is free, the result reads as the old tree with the new table in its place and nothing else changed |
| TomlAppend.AppendStands | config/operator_config_transaction.py:316-336 | and the new table stands for the appended values if and only if each of them is kept by the writer |
| TomlAppend.GapReads | config/operator_config_transaction.py:325-332 | the gap is line breaks only, and with it a document whose last line was not closed ends in complete lines and reads the same |
| TomlAppend.RemovalUndoesAppend | config/operator_config_transaction.py:316-360 | removing what was appended yields the original text and nothing but line breaks behind it, and reads as the original, when no earlier header extends the path |
| TomlFragment.FragmentReads | config/operator_config_transaction.py:333 | with either style of line break the written table reads as the same statements, and every physical line of it is an empty line or holds text |
| TomlLineBreaks.ClosedReads | config/operator_config_transaction.py:326-335 | a document whose last line has no line break holds the same statements with one |
| TomlLineBreaks.ValueEnd | config/operator_config_transaction.py:426 | a value never ends in a line break or a blank |
| TomlLocality.ValueLocal | config/operator_config_transaction.py:426 | what the reader takes from a text as a value does not depend on the text behind it |
| TomlRemove.RemoveTomlTableTree | config/operator_config_transaction.py:339-360 | succeeds exactly when the document reads, a header under the path exists and what trails behind the removed content can stand on its own; then it reads as the old tree without that subtree; every failure has its error, `not found` exactly when no header extends the path |
| TomlRemove.RemovalPrunes | config/operator_config_transaction.py:339-360 | keeping all lines but those from header to last content of the tables under the path gives the old tree pruned of them, or an unreadable document exactly when a kept trailing line is unreadable |
| TomlRemove.KeepSpan | config/operator_config_transaction.py:347-358 | of a table under the path exactly the blank lines and comments behind its last content are kept, of any other table every line |
| TomlRemove.DroppedIndexes | config/operator_config_transaction.py:347-355 | an index is dropped if and only if it lies between the header and the last content of a table under the path |
| TomlRemove.TrailingContentEnd | config/operator_config_transaction.py:348-354 | the content ends behind the last line that is neither blank nor a comment, never in front of the header |
| TomlEdits.RemainingTree | config/operator_config_transaction.py:339-360 | building a document without the statements of the tables under a path gives the tree without that subtree, and without the parents it only implied |
| TomlReplace.MatchGroups | config/operator_config_transaction.py:414 | the groups of the assignment pattern make up the whole line |
| TomlReplace.SplitTomlValueSuffix | config/operator_config_transaction.py:363-383 | the value text ends in front of the first `#` outside quotes, without trailing blanks, and with the suffix gives the payload back |
| TomlReplace.FindMatches | config/operator_config_transaction.py:393-420 | lists exactly the lines inside a table of that path that assign the key and lie outside every multi-line string and array |
| TomlReplace.ReplacedLines | config/operator_config_transaction.py:424-438 | exchanging the value text of a matching line changes one value of the tree, from the value it had to the one written, or gives an unreadable document exactly when the new value or what follows it is unreadable |
| TomlReplace.NewLineExchanges | config/operator_config_transaction.py:422-435 | of the changed line only the text of the value is exchanged: indentation, key, equals sign and the blanks around it stay in front, and blanks, comment and line break behind it |
| TomlReplace.ReplaceTomlScalar | config/operator_config_transaction.py:386-438 | for any expectation and any replacement: succeeds exactly when one line matches, its value is an expected one and the new one can be written; then one line differs, only in its value text, its comment and line break included in what stays, and the tree differs only at one place of that path and key, where it held the old value and now holds the stored form of the new one; every failure has its error |
| TomlCurrent.AssignsExactly | config/operator_config_transaction.py:405-416 | a line is taken for an assignment to a key exactly if it is that bare key and an equals sign, with any blanks around the key, and any text behind |
| TomlCurrent.CurrentExactly | config/operator_config_transaction.py:363-427 | the value of such a line is read, and is then the one the document has, if and only if the first `#` outside one-line quotes lies behind it |
| TomlCurrent.PlainIsRead | config/operator_config_transaction.py:363-427 | so it always is where no quote stands three times in a row |
| TomlCurrent.HashIsMissed | config/operator_config_transaction.py:363-427 | a string in triple quotes with a quote and a `#` in it: the document has its value, but it is not read |
| TomlEdits.OneValueChanged | config/operator_config_transaction.py:430-438 | two documents that differ in the value of one assignment differ in the value at one place of the tree, and the first holds its value there |
| TomlScalars.FormatTextReads | config/toml_writer.py:16-31 | the five replacements of the formatter are one encoding: the text reads as the string with CRLF and CR folded to LF, or is not TOML exactly when that holds another control character |
| TomlScalars.FormatTextRoundTrip | config/toml_writer.py:16-31 | a string survives writing and reading if and only if it holds no CR and no control character but LF and TAB |
| TomlScalars.ScalarReads | config/toml_writer.py:16-36 | every scalar reads back as itself, whatever may follow it |
| TomlScalars.ListValueReads | config/toml_writer.py:39-44 | a list of strings, written over several lines, reads back as the list |
| TomlScalars.PathReads | config/toml_writer.py:55-63 | a table name, bare or quoted part by part, reads back as the path |
| TomlObjects.WriteTable | config/toml_writer.py:66-117 | for any Python values: appends header, scalars, nested tables and arrays of tables, in this order, to the shared list of lines, a value of another kind as the string that `str` makes of it |
| TomlObjects.DumpsTomlTable | config/toml_writer.py:120-127 | raises exactly on an empty path; otherwise the lines, joined |
| TomlObjects.DumpsPublicConfig | config/toml_writer.py:130-146 | the header lines, then the sections in their order, a blank line between two of them |
| TomlRoundTrip.TableLinesRead | config/toml_writer.py:66-127 | the written lines of a table with nested tables and arrays of tables read as exactly its statements |
| TomlConfig.TableBuilds | config/toml_writer.py:66-127 | those statements put exactly the written data at the path of a document where it is free |
| TomlControl.ControlIsNotRead | config/toml_writer.py:16-31 | a text that reads holds no control character but TAB, LF and CRLF |
| TomlControl.LoneCrIsNotRead | config/toml_writer.py:16-31 | nor a carriage return without a line feed behind it |
| TomlFolded.TableIsLegible | config/toml_writer.py:66-127 | written lines without such characters hold only strings that read back once their line breaks are folded |
| TomlFaithful.StandsExactly | config/toml_writer.py:66-117 | what is read of a written value stands for it if and only if the value and all values in it are of a kind that the writer keeps |
| TomlPublicConfig.ConfigReads | config/toml_writer.py:130-146 | a dumped config is read as the statements of its sections exactly when every string in it is clean once folded, and else not at all |
| TomlPublicConfig.ConfigRoundTrip | config/toml_writer.py:130-146 | for every config: what is read of the dumped text stands for the config if and only if every value is kept, no list is at the top level and no scalar follows a table there |
| TomlPublicConfig.NestedArrayIsLost | config/toml_writer.py:99-107 | a list of dictionaries inside an item of an array of tables does not read back |
| TomlConfig.MisplacedScalar | config/toml_writer.py:130-146 | a top-level scalar behind a table never reaches the root of what is read |
| TomlReading.WriteConfig | config/toml_writer.py:130-146 | the round trip of the writing method itself, with its exact condition; and kept or not, every value is read back as what it becomes, if no scalar follows a table at the top and every string is clean and every key different once folded |
| TomlReading.ValueBecomes | config/toml_writer.py:16-117 | what every value is read back as, in a table, in an item of an array of tables or at the top: a scalar as itself with its line breaks folded, None as the empty string, a foreign object as its `str`, a dictionary as a table of what its values become, a list as an array of tables, a list of strings or the string of itself |
| TomlReading.SectionsApart | config/toml_writer.py:66-146 | the sections stand one behind the other with one blank line in between, and a blank line stands in front of every header but the first line |
| TomlReading.HeaderInFront | config/toml_writer.py:132-142 | the header lines are in front, and a blank line sets the sections off |
| Transaction.Attempt | config/operator_config_transaction.py:621-653 | the forward calls are exactly the planned sequence, or a prefix of it that ends in the one call that raised; the failure phase is that of the last forward call, whichever call that is; the reload flag and the number of reached participants are those of that place |
| Transaction.PhaseIs | config/operator_config_transaction.py:613-653 | the reported phase, read off the log: apply, verify, write, validate or reload as the last forward call is one, for a manifest the phase of its status, and for an ownership check that of the calls in front of it |
| Transaction.Round | config/operator_config_transaction.py:637-644 | one participant: ownership, apply, verify, ownership, each made only if the one in front of it did not raise, in this order |
| Transaction.Compensate | config/operator_config_transaction.py:654-704 | what compensation calls after a failure, in order, under any further failures, and the status it reports |
| Transaction.StatusExactly | config/operator_config_transaction.py:693-704 | `rolled_back` is reported if and only if no compensating call raised |
| Transaction.BlamesExactly | config/operator_config_transaction.py:654-692 | the errors on record are exactly those of the compensating calls that raised: one for each participant, and for the config and the runtime |
| Transaction.FailedManifest | config/operator_config_transaction.py:693-704 | the manifest on disk behind a failed run whose last write went through holds the reported status, the phase of the last forward call and those errors |
| Transaction.TouchesExactly | config/operator_config_transaction.py:662-692 | compensation writes the config exactly when it cannot be read or is not as before, and only the before-bytes; it reloads exactly when the restoring write did not raise and the config was written back or the new one loaded |
| Transaction.InTheLoop | config/operator_config_transaction.py:613-644 | while the participants are gone through, the manifest on disk says `reloaded` and the runtime was loaded from the after-bytes |
| Transaction.CompletedRun | config/operator_config_transaction.py:621-653 | after a completed run the runtime was loaded from the after-bytes, the manifest on disk says `completed`, and the config file holds the after-bytes unless a participant changed it |
| Transaction.CompletedInOrder | config/operator_config_transaction.py:637-644 | in a completed run every call is the one the protocol has at its place: the prologue, then for every participant ownership, apply, verify and ownership, in order, then the completion; and none was rolled back |
| Transaction.FailedInOrder | config/operator_config_transaction.py:621-653 | in a failed run so is every forward call up to the only one that raised |
| Transaction.RolledBackRun | config/operator_config_transaction.py:654-711 | a run that reports `rolled_back`, wherever and however it failed, leaves the before-bytes on disk, a runtime never reloaded or last reloaded from them, and a manifest on disk that says `rolled_back` |
| Transaction.RollbacksExactly | config/operator_config_transaction.py:655-661 | rollback ran once over exactly the participants the loop reached, in reverse |
| Transaction.ReachedExactly | config/operator_config_transaction.py:637-644 | a participant counts as reached exactly when the loop came to it, and all but the last were applied and verified |
| Transaction.ApplyOperatorConfigTransaction | config/operator_config_transaction.py:596-712 | refuses without any call exactly when the lock, the readable unchanged config, its hash or the artifacts are missing; or finishes with the after-bytes; or raises: a raised `rolled_back` means before-bytes, a runtime that never saw others, and the manifest that says so; the manifest of a raised run whose last write went through names the phase of the last forward call and the compensating calls that raised |
| MultiFile.PutBackUndoes | config/provider_merge_migration.py:412-423 | writing the old bytes back in the opposite order undoes writing the new ones |
| MultiFile.ReferenceParticipant.Apply | config/provider_merge_migration.py:408-414 | writes a prefix of the plan, the whole of it exactly when it does not raise, and records what it wrote |
| MultiFile.ReferenceParticipant.Rollback | config/provider_merge_migration.py:421-423 | puts the old bytes of the written files back when it does not raise |
| MergeRuns.FailedMerge | config/operator_config_transaction.py:654-711 | what a failed merge leaves, for every environment: the config file is back exactly when the new bytes never reached it, were the same or were overwritten by the restoring write; the reference files hold the part of the plan that was written and not put back, and are as before exactly when that changes nothing |
| MergeRuns.RunMerge | config/provider_merge_migration.py:487-572 | the transaction with the reference participant in it: the log is that of a refusal (empty), of a success or of a failure with its compensation, and every call of it ended as the environment and the participant say; a success took every file from old to new bytes, and a failure leaves the files as before exactly under the conditions of `FailedMerge`, which a reported `rolled_back` meets |
| MergeRuns.ApplyProviderMerge | config/provider_merge_migration.py:541-566 | a merge under the environment of the config file and the faults of the other files: it is not started exactly when the write of its manifest raises; a raised merge has its manifest marked `rolled_back` if and only if the fault at the clock behind the log lets that file be read and written, and config and reference files are as before if and only if the compensating calls of the log brought both back |
| MergeRuns.NoteRolledBack | config/provider_merge_migration.py:557-563 | the manifest is marked exactly when reading and writing it succeed, and no other file changes |
| MergeRuns.FalselyRolledBack | config/provider_merge_migration.py:553-564 | for every plan, content and manifest there is an environment with two faults under which the merge raises with its manifest marked `rolled_back`, while the config file keeps the new bytes and the transaction reports `rollback_failed` |
| MergeRuns.MergeAndRollBack | config/provider_merge_migration.py:541-646 | a merge and then its rollback, each in its own environment: `restored` is returned exactly when both end in success, and then the config file and every reference file are byte for byte as before; a rollback that is refused or reports `rolled_back` leaves the merged bytes |
| MultiFile.ApplyV1ToV2 | config/model_config_migration.py:855-961 | applied exactly when none of its six calls raises and the plan's bytes are still there, and then every file holds its new bytes; `CompensationFailed` exactly when a compensating write raised; otherwise every file is as before if and only if its first call, the config write, did not raise behind its replace (or changed nothing), all of it stated of the faults at the clocks of the calls |
| MultiFile.RollbackV1ToV2 | config/model_config_migration.py:981-1046 | ineligible exactly when a file does not hold its after-bytes; rolled back exactly when it is eligible and neither a write nor the reload raises, and then every file is back at its before-bytes; `ReapplyFailed` exactly when a write fails and then a reapplying write raises; else, after a failure, every file is at its after-bytes if and only if the config write did not raise behind its replace (or changed nothing) |
| MultiFile.MigrateAndRollBack | config/model_config_migration.py:855-1046 | a rollback behind an applied migration is eligible, and restores every file byte for byte |
| EditLock.StepInv | config/public_config.py:2321-2354 | every step of every process keeps the invariant that ties the lock file to its creator |
| EditLock.MutualExclusion | config/public_config.py:2321-2354 | over every interleaving in which a stale lock is only removed once its creator has abandoned it, at most one process has the lock |
| EditLock.HarmfulTakeover | config/public_config.py:2335-2340 | the condition is exact: removing any other lock leads, by two steps of the same process, to two holders |
| EditLock.RunToHarm | config/public_config.py:2321-2354 | so every run that is harmless up to such a removal goes on to two holders |
| EditLock.ExclusiveFromStart | config/public_config.py:2321-2354 | in particular from a state without a lock |
| EditLock.ReleasesOnlyItsOwn | config/public_config.py:2346-2354 | the only step that removes a lock is the release of the process that created it |
| EditLock.HeartbeatKeepsFresh | config/operator_config_transaction.py:77-129 | a holder that touched its lock within the limit still owns it, it does not look stale, and the heartbeat does not report it lost |
| EditLock.LossIsNoticed | config/operator_config_transaction.py:77-122 | a process inside that no longer owns the lock is reported to have lost it from its next beat on, and never gets it back |
| EditLock.BeatNotices | config/operator_config_transaction.py:77-88 | reading the token notes the loss exactly when the token is not the own one, and changes nothing else |
| EditLock.TouchRefreshes | config/operator_config_transaction.py:77-88 | touching sets the time of the lock file, whoever owns it; without a file the loss is noted |
| EditLock.PromptRuns | config/operator_config_transaction.py:77-154 | if every holder touches its lock in time and none abandons it, no stat ever finds a stale lock, whatever the interleaving, and at most one process is inside |
| EditLock.UnsuspectingFromStart | config/public_config.py:2321-2354 | from a state without a lock, at most one process is inside in every run in which no stat finds a stale lock |
| EditLock.StaleTakeoverRace | config/public_config.py:2335-2340 | a run in which one holder dies, two processes find its lock stale, and both end up inside |
| Identity.KeyShape | config/llm_identity.py:87-99 | a model key keeps the length limit and holds no slash; a key without `~` is the upstream id itself |
| Identity.KeyExactly | config/llm_identity.py:87-99 | there is no key exactly for a limit below ten or a blank id; a short safe id is its own key; any other key is the trimmed slug of the folded id, or `model`, cut to make room for a tilde and the digest |
| Identity.RunBecomesBar | config/llm_identity.py:97 | in a slug every run of other characters, wherever it stands, is one bar |
| Identity.SlugKeeps | config/llm_identity.py:97 | and a text without such characters is its own slug |
| Identity.SameKeyExactly | config/llm_identity.py:87-99 | two upstream ids have the same key if and only if they are the same, or both are digested with the same eight characters and the same stem |
| Identity.SuggestedIsValid | config/llm_provider_registry.py:72-83 | a suggested provider id always passes the validation of provider ids |
| Identity.SuggestedExactly | config/llm_provider_registry.py:79-83 | it is the first 64 characters of the base, or, if the base is taken, the first 55, a bar and the mark |
| Identity.BaseExactly | config/llm_provider_registry.py:76-78 | the base is the slug of the source without bars at its ends, `provider` if nothing is left, behind `provider_` if it starts with no letter |
| Identity.RefRoundTrip | config/llm_identity.py:102-115 | splitting a reference made from a valid provider id and key gives both back |
| Identity.KeyRefRoundTrip | config/llm_identity.py:87-115 | at the default length every generated key goes into a reference and comes back |
| Identity.SplitIsValid | config/llm_identity.py:110-115 | whatever splits has a valid provider id and key, and making a reference of them splits the same way |
| Identity.RefsInjective | config/llm_identity.py:102-107 | different pairs have different references |
| Aliases.ResolveModelRef | config/models.py:669-678 | returns the end of the chain; raises exactly when the chain never leaves the map |
| Aliases.FollowAliases | config/runtime_capabilities.py:260-265 | stops at the end of the chain, or, when there is none, at the first place of the chain that is on a cycle |
| Aliases.LegacyToCanonicalRefs | config/runtime_capabilities.py:243-268 | an alias is mapped to where its chain comes to rest, its end or its entrance to a cycle, if that is a reference of the library; any other name is mapped only if it is itself such a reference, and then to itself |
| Aliases.BuilderResolves | config/effective_llm_graph.py:69-87 | the recursive resolver reports a cycle exactly when the chain never leaves the map, naming the place where it enters a cycle; it returns exactly the existing pinned model at the end of the chain |
| Aliases.ResolveAll | config/effective_llm_graph.py:69-92 | the issues are empty if and only if every alias chain ends at an existing pinned model; some cycle is reported exactly when some chain never leaves the map, every reported subject is on a cycle, and without issues every alias is mapped to the end of its chain |
| Aliases.WalkersAgree | config/effective_llm_graph.py:65-113 | the build succeeds if and only if every alias chain ends at an existing pinned model, and then the recursion, the visited-set loop and the capability loop end there |
| MigrationGroups.GroupEntries | config/model_config_migration.py:371-420 | the first loop raises exactly when an entry cannot be placed or a resolution is not used, with the error of the first such entry; its groups and their order are those of the library, and its conflicts are exactly those of the entries |
| MigrationGroups.PlacedAreGrouped | config/model_config_migration.py:371-420 | every entry that is placed has its row in the group of its endpoint and credential |
| MigrationGroups.RowsInOrder | config/model_config_migration.py:371-420 | and the rows of a group stand in the order of their entries |
| MigrationGroups.SortedAscends | config/model_config_migration.py:428 | the second loop takes the groups in ascending order of endpoint and credential |
| MigrationGroups.ConsumedExactly | config/model_config_migration.py:371-420 | a resolution is used exactly if its entry is placed with an artifact path |
| MigrationProviders.BuildProviders | config/model_config_migration.py:422-513 | the second loop, over any groups: it fails exactly when an upstream id is blank; the ids are those that `suggest_provider_id` gives, each with those in front of it in use, and every group is one Provider under its id, unless a later group of the same id replaced it; its conflicts name the groups and entries at fault |
| MigrationProviders.PinRows | config/model_config_migration.py:485-504 | the rows of a group are pinned without conflict exactly when rows with the same upstream id agree in their behaviour; of two upstream ids with one key the first model is kept |
| Migration.PreviewV1ToV2 | config/model_config_migration.py:328-539 | raises exactly when an entry cannot be placed, a resolution is unused or an upstream id is blank, with the error of the first such place; READY exactly when every entry is placed without conflict, every group can be one Provider and no two uses of a model differ, and the conflicts are those of the entries and groups at fault; entries of a READY preview with one group, one upstream id and transports that are not blank have the same transport; every legacy id then refers to a pinned model whose wire protocol, contract, protocol, copied fields, upstream id and artifact path are the entry's, under a Provider with the same endpoint, credential, service class, vendor, adapter and driver, if and only if no two groups have one id and no two upstream ids of a group one key; the new references belong to exactly the placed entries, each with a slash, and following the aliases ends there for every entry if no legacy id holds one |
| Migration.TransportsAgree | config/model_config_migration.py:485-504 | entries of one group and upstream id with different transports, neither blank, are never READY |
| LegacyMeaning.BehaviorExactly | config/model_config_migration.py:187-231 | the wire protocol is the transport, or `chat_completions` if that is blank; the interaction contract is the protocol if it is one of the four contracts, else the contract, else `tool_chat`; the model protocol is the protocol otherwise; the other fields are copied |
| LegacyMeaning.ClassExactly | config/model_config_migration.py:117-184 | adapter and driver, service class and vendor of an entry, each kind and host by itself |
| LegacyMeaning.CredentialExactly | config/model_config_migration.py:103-114 | the credential is the reference, else the named variable, else none, in its canonical spelling; it is missing exactly when neither gives one |
| LegacyMeaning.UpstreamExactly | config/model_config_migration.py:385-410 | the upstream id is the model name, unless that looks like a path: then it is what the resolution says, and only a local Provider may keep it |
| LegacyMeaning.PlacedExactly | config/model_config_migration.py:371-420 | when an entry is skipped, fails or joins a group, with which row, key, conflicts and error |
| LegacyMeaning.PlainIsNoPath | config/model_config_migration.py:234-245 | a name of letters, digits, `_` and `-` is never taken for a path |
| LegacyMeaning.WeightsArePaths | config/model_config_migration.py:234-245 | a name that ends like a weights file always is, in any case of letters |
| LegacyMeaning.PathsArePaths | config/model_config_migration.py:234-245 | and so is one that starts like a path or a file address |
| MigrationCollision.LongNamesCollide | config/llm_provider_registry.py:72-83 | groups whose names agree beyond 64 characters are always given one id |
| MigrationCollision.SecondReplacesFirst | config/model_config_migration.py:440-513 | two entries that differ only in endpoint or credential, under such a name, give a READY preview in which one Provider has replaced the other |
| MigrationCollision.LongLabelsCollide | config/model_config_migration.py:328-539 | a library of that kind, for every label of more than 64 letters |
| Migration.AliasFollows | config/model_config_migration.py:537-539 | following the new alias map from an old id ends at its new reference if and only if that reference is not itself an old id that moved |
| MigrationCollision.NewReferenceMoved | config/model_config_migration.py:328-539 | for any two short names: the preview of a library with two entries is READY, but the new reference of the first is the old id of the second, and following the aliases ends at the reference of the second |
| ProviderMerge.TargetModelKey | config/provider_merge_migration.py:144-158 | returns the key of a staged model with the same upstream id, or a fresh generated key; fails exactly when there is neither |
| ProviderMerge.PreviewProviderMerge | config/provider_merge_migration.py:245-392 | raises exactly on bad or missing ids; READY exactly when every duplicate has the canonical contract and an agreed credential, every model of a duplicate can be taken over, no two new upstream ids share a key, and the model the probe needs will be there; the credential of every duplicate of a READY preview is the canonical one or was given up; every conflict has its reason, and every reason to refuse a duplicate, and the missing model, is a conflict; every model it adds is a model of one of the duplicates |
| ProviderMerge.MergeDuplicates | config/provider_merge_migration.py:280-332 | without conflict every model of every duplicate is mapped to a model with the same upstream id, and the staged models have exactly the upstream ids of all of them |
| ProviderMerge.RewrittenKeepsMeaning | config/provider_merge_migration.py:161-200 | a rewritten reference that resolved before names a model with the same upstream id under a Provider with the same contract that is no duplicate |
| ProviderMerge.MergeKeepsMeaning | config/provider_merge_migration.py:161-235 | after a READY merge that holds of every profile, image2 and git reference that resolved before |
| ProviderMerge.MergedExactly | config/provider_merge_migration.py:203-235 | the merged config, part by part, and nothing else: the duplicates are gone, the canonical Provider has its contract, its credential and its models with the added ones, all others are as before, and every reference is the mapped one or the old one |
| MergeText.VerificationText | config/provider_merge_migration.py:203-218 | appending the new models raises exactly where one of the edits does, or where the document cannot be read |
| MergeText.FinalText | config/provider_merge_migration.py:221-235 | the appended models, rewritten references and removed tables, one edit after the other: raises exactly where one of them does, or where the document cannot be read |
| MergeText.FinalReads | config/provider_merge_migration.py:161-235 | the text those edits give reads as the merged registry and references, part by part, with each added model as its written table reads |
| MergeText.PathsAre | config/provider_merge_migration.py:161-218 | the places of the three kinds of references, of a Provider and of its models |
| MergeModels.ModelWritten | config/toml_writer.py:66-117 | a model table, written and read again, stands for the same values if and only if the writer keeps each of them, and is then read as the same model |
| MergeModels.UpstreamExactly | config/provider_merge_migration.py:280-332 | its upstream id, a string, comes back if and only if folding its line breaks changes at most its ends |
| MergeModels.SourceOf | config/provider_merge_migration.py:280-332 | each model that a preview adds is found in the document, at the model path of a duplicate |
| MergeModels.ModelsRead | config/provider_merge_migration.py:203-218 | the models of the duplicates, as read from the document, appended under the canonical Provider and read again: each keeps its upstream id, and its table stands for the old one if and only if the writer keeps all its values, which then gives the whole model back |
| MergeModels.FinalKeepsMeaning | config/provider_merge_migration.py:161-235 | so, values lost or not, every reference that resolved before is read, from the new text, as one to a model with the same upstream id under a Provider with the same contract that is no removed duplicate |
| MergeModels.FinalReadsWhole | config/provider_merge_migration.py:161-235 | and if the writer keeps all values of the added models, the new text reads as the merged registry and references of the preview |
| ProviderMerge.RewriteTwice | config/provider_merge_migration.py:161-200 | rewriting again changes nothing |
| RuntimeProjection.ProjectV2 | config/llm_projection.py:154-261 | raises exactly when a root, Provider, pin or profile check fails; otherwise the library has one entry for every pin, with the fields that its Provider, pin and defaults give it, and no other; and a profile is unconfigured, or is its library entry with its own id, Provider and reference, in which every override replaces the field of its name |
| Projection.RuntimeModelFits | config/llm_projection.py:177-222 | every field of a projected pin: names, transport, contract, protocol, label, prompt cache, image input, reasoning effort and the rest of pin and defaults |
| Projection.RuntimeProfileFits | config/llm_projection.py:249-257 | of a projected profile: an override wins over the entry's field, the entry's other fields stay, and only id, Provider and reference are its own |
| Projection.OwnershipExactly | config/llm_projection.py:40-59 | a table owns its credentials exactly if no credential key occurs in it at any depth but the allowed ones at its top |
| RuntimeProjection.RootExactly | config/llm_projection.py:154-170 | what the check of the root asks: no old library, no credential key, and some Provider and profile |
| RuntimeProjection.ProviderExactly | config/llm_projection.py:171-186 | of a Provider: a valid id, a table, models that are a table, and no credential key but the reference |
| RuntimeProjection.PinExactly | config/llm_projection.py:187-197 | of a pin: an upstream id, no credential key, and defaults that name only what may be overridden |
| RuntimeProjection.ProfilesAreClosed | config/llm_projection.py:224-257 | every projected profile is unconfigured or names a library entry owned by its Provider and calls that pin's upstream id, whatever its overrides |
| Projection.ModelCleanExactly | config/llm_projection.py:177-223 | no credential key occurs at any depth of a projected model if and only if its `defaults` is absent, a table, or free of them |
| RuntimeProjection.LibraryCleanExactly | config/llm_projection.py:177-223 | the same of the whole library |
| RuntimeProjection.ProfileCleanExactly | config/llm_projection.py:229-257 | a projected profile is unconfigured, or calls a pin and holds a credential key if and only if that pin's `defaults` does |
| RuntimeProjection.ListedDefaultsLeak | config/llm_projection.py:191-198 | a list of tables under `defaults` that passes the checks and leaks a key |
| Projection.RuntimeModelNames | config/llm_projection.py:197-222 | whatever a model and its defaults say, its projection names its own pin, Provider and upstream id |
| Registry.ValidateProviderRegistry | config/llm_provider_registry.py:86-98 | passes exactly when all ids are valid and no two Providers share an endpoint and credential |
| Registry.AddedExactly | config/llm_provider_registry.py:101-114 | from a valid registry, adding succeeds exactly for a valid new id with an endpoint and credential that no Provider has |
| Registry.AddedPuts | config/llm_provider_registry.py:101-114 | and puts the Provider there with its models or none, all others as before |
| Registry.UpdatedExactly | config/llm_provider_registry.py:117-132 | updating succeeds exactly for a known id with an endpoint and credential that no other Provider has |
| Registry.UpdatedPuts | config/llm_provider_registry.py:117-132 | an update that names no models leaves the pinned ones, and all other Providers |
| Registry.DeletedExactly | config/llm_provider_registry.py:236-248 | deleting succeeds exactly for a known Provider without pinned models, and takes nothing else away |
| Registry.PinKeeps | config/llm_provider_registry.py:176-219 | a pin touches one model of one Provider, and of a model that is there no field but a blank label and the defaults; a new one names the upstream id |
| Registry.PinnedExactly | config/llm_provider_registry.py:176-219 | a pin raises exactly on a reserved override or a credential at any depth of them, an unknown Provider or a key that fits into no reference; a fresh pin has its upstream id, its title or else that id as label, the enabled flag, the overrides and nothing else; an existing one gets a label if it has none and the overrides it lacks; and both the reasoning contract into their defaults where the protocol asks for it |
| Registry.HoldsExactly | config/llm_provider_registry.py:30-47 | a credential field is found exactly if some object at some depth has one |
| Registry.FillIn | config/llm_provider_registry.py:203-206 | the loop over the overrides fills in only fields that are missing |
| Registry.PinLlmModel | config/llm_provider_registry.py:176-219 | the step-by-step edits of the source leave the registry that the laws about pins speak of, or raise exactly where these do |
| Registry.PinTwice | config/llm_provider_registry.py:157-219 | pinning twice equals pinning once |
| Registry.UnpinUndoes | config/llm_provider_registry.py:176-234 | unpinning a fresh pin undoes it, up to an empty table of models |
| Registry.UnpinnedExactly | config/llm_provider_registry.py:222-234 | unpinning succeeds exactly for a pinned model of a known Provider, and takes only that model away |
| Registry.StepKeepsValid | config/llm_provider_registry.py:101-248 | each mutation that does not raise keeps the registry valid |
| Registry.RunKeepsValid | config/llm_provider_registry.py:86-248 | so does every sequence of them |
| Capabilities.ClassifyCapabilityError | config/model_catalog.py:117-133 | always a known class, and a known class stays what it is |
| Capabilities.ClassOfMessage | config/model_catalog.py:117-133 | any other message gets the first class of the list with one of its words somewhere in it, and `other` if no word occurs |
| Capabilities.MergeCapabilityObservations | config/model_catalog.py:97-114 | raises exactly when an observation is invalid; otherwise the fold of all observations |
| Capabilities.MergeHolds | config/model_catalog.py:97-114 | each field holds the last observation of highest source priority, and a field without observation is absent |
| Capabilities.ObservedExactly | config/model_catalog.py:136-164 | how a stored field is read: a flag, a word, or a table with two names for most of its entries, the first that is not blank |
| Capabilities.SourcesRanked | config/model_catalog.py:97-114 | the five sources in the order of their rank; nothing else is a source |
| Capabilities.RereadsItself | config/model_catalog.py:136-164 | a merged record read back is the same record, whatever the default source |
| Capabilities.MergeResumes | config/model_catalog.py:97-171 | merging re-read merged records with new observations equals merging all observations at once |
| Discovery.MergeModelCapabilities | config/model_catalog.py:230-253 | what one model's three lists of observations merge to, and when that raises |
| Discovery.RecordDiscoverySuccess | config/model_catalog.py:194-321 | raises exactly when a capability that takes part cannot be merged; otherwise every observed and every pinned but missing model has its entry, and no other: pinned, observed or missing, with its title, its limits, checks that are stale exactly under another fingerprint, and in every capability field what the operator says, else what the Provider says unless a probe or the operator said more before, else what was known |
| Discovery.SuccessFits | config/model_catalog.py:194-321 | so says the catalog itself, key by key and field by field |
| Discovery.SuccessRepeats | config/model_catalog.py:194-321 | after a success, recording the same discovery again does not raise |
| Discovery.RecordTwice | config/model_catalog.py:194-321 | and returns the same catalog |
| Discovery.SuccessNeverLower | config/model_catalog.py:194-321 | while a model stays catalogued no capability is lost and no source falls in rank |
| Discovery.RunNeverLower | config/model_catalog.py:194-348 | nor over any run of discovery successes and failures |
| StorageCache.CachePut | vibelution_storage.py:68-71 | a cache never exceeds its limit and holds the new entry; the others are kept unless it was full, and then none is |
| StorageCache.Storage.LoadProjectIdentity | vibelution_storage.py:145-167 | equals the uncached computation on the present files, a cached error included: what the identity file says, or its error |
| StorageCache.Storage.ResolveProjectStoragePaths | vibelution_storage.py:206-225 | equals the uncached computation on the present files, in the environment the entry was made in, which agrees with the present one in the two variables of the key; without an entry, or when these two decide the projects home, in the present one; it is the project root and the ids of the identity below that home, or the identity's error unchanged |
| StorageCache.HomeExactly | vibelution_storage.py:130-142 | the projects home: the argument, else the variable, else below the local data directory, else below the user's home, expanded and resolved |
| StorageCache.HomeDecides | vibelution_storage.py:136-142 | so it is right now if and only if it is an error or the projects home is the same in both |
| StorageCache.FingerprintDecides | vibelution_storage.py:131-142 | which the two variables guarantee when no `~` and no variable is to be expanded |
| StorageCache.ExplicitHome | vibelution_storage.py:131-142 | so with such a home a cached lookup returns what would be computed now |
| StorageCache.FingerprintMisses | vibelution_storage.py:139-141 | and do not when one is: two environments with the same key and different homes |
| StorageCache.Storage.ResolveActiveProjectStoragePaths | vibelution_storage.py:361-411 | equals the uncached computation in that environment, with the marker's present content; when the two variables decide the projects home, in the present one; with a valid identity and a marker it is the external paths if the marker says completed, and an error if not; without a marker the legacy paths if there are any, else the external ones; an identity error comes through unchanged |
| StorageCache.ActiveExactly | vibelution_storage.py:361-411 | these rules allow exactly one outcome |
| InstanceId.InstanceIdOf | vibelution_storage.py:198-203 | eight hexadecimal digits that read back as the digest, which stays below 2^32 |
| InstanceId.KnownId | vibelution_storage.py:198-203 | the id of the one-letter key `a` is the published 32-bit FNV-1a value, e40c292c |
| InstanceId.StepInvertible | vibelution_storage.py:198-203 | each step of the loop is invertible modulo 2^32 |
| InstanceId.DigestInjective | vibelution_storage.py:198-203 | different intermediate digests stay different over the same bytes |
| InstanceId.OneByteApart | vibelution_storage.py:198-203 | two keys of equal length that differ in exactly one byte never share an id |

## Left out

Hypotheses:

- Documents break lines only with LF or CRLF; the other line breaks of `splitlines` do not occur.
- The reference TOML reader knows headers, bare and quoted keys, all four string forms, integers, booleans, arrays and comments. Inline tables, dotted keys in assignments and a date-time with a blank in place of its `T` are rejected; floats and dates are kept as their text, and a date is not looked up in the calendar.
- Names are stripped and alias targets are not blank.
- SHA digests have hexadecimal form, and nothing else is asked of them; NFKC folding, URL normalisation, credential spelling, host classification and the vendor table are parameters.
- `str` of an object that is no string is a parameter of the writer; a float is given by its text, and dictionaries have string keys, each once.
- `apply_model_reference_rewrite_plan` is not part of this model; it is taken to be all or nothing.
- A write to a reference file that raises leaves the file unchanged; an atomic write of the config file may raise before or after its replace.
- In the storage caches equal signatures mean equal content, symbolic links stay as they are, and project roots are absolute and not blank.

Not modelled:

- AppendTomlTable: the condition for success is that the reference tree can be built, which is stated for a free path only by `AppendPlaces`.
- WriteConfig: dictionaries have every key once; header lines are empty or comments without trailing blanks and control characters; the writer copies any text.
- ReplaceTomlScalar: a key or value text that the reference reader rejects, such as an inline table, is an error here.
- Attempt: an interrupt that is no `Exception` between two calls.
- ApplyOperatorConfigTransaction: the preparation step, its artifacts and the shape checks of the participant list appear as an entry check; the lock is the separate model `EditLock`.
- MutualExclusion: all processes read one clock, and file times have its resolution.
- ApplyProviderMerge: backups and their records in the manifest; the manifest is a file whose marking changes its bytes by a function, and the transaction's own manifest is that of `Transaction`.
- PreviewV1ToV2: the labels of Providers and models, profile rewriting, reference impact, diff fields, expiry of stored previews and secret-fingerprint suggestions; `_parse_artifact_resolutions` hands over parsed resolutions.
- PreviewProviderMerge: model aliases are not rewritten by the source, so none is taken to target a duplicate; reference rows outside the public config are the plan of `MultiFile`.
- FinalReads: the registry is read from the tree by a parameter that depends on the tables of one Provider only, the keys of the added values hold no carriage return, and the order in which duplicates are removed is that of the list.
- FinalText: the condition of each edit is stated at the text in front of it, since it depends on how the document is laid out; `Append.Fits` becomes one on the tree where the path is free (`AppendPlaces`).
- RecordDiscoverySuccess: case-collision warnings and time stamps.
- RunNeverLower: a discovery failure changes status fields only, which the model does not have.
- PinLlmModel: the worklist of `_contains_credential_field` is a recursive search.
- UnpinUndoes: for a stripped provider id, which is what the registry stores.
- ProfilesAreClosed: for stripped provider ids.
- ProjectV2: that the library is exact is stated for stripped provider ids and model keys; `_runtime_provider`, which projects the Providers themselves, is not modelled, and a field that should be a string and is none is read as blank.
- LegacyToCanonicalRefs: `record_model_image_input_capability` and `import_legacy_capability_cache`, which store single observations by the same merge.
- ResolveActiveProjectStoragePaths: the data-home and workspace-home caches, whose fingerprint does not cover the legacy directory.
- Discovery calls, probes, the registry and environment of Windows, event logging, presets, runtime profiles and `config/llm_schema_upgrader.py`.
