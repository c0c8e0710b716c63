# gosmo: proofs about its algorithms

gosmo is a Go client for administering SQL Server. Most of it writes T-SQL and
reads catalog rows; between those lie a few algorithms that are right or wrong
as a whole. This project models them in Dafny, each against a small model of the
server it relies on, and proves what they promise.

`dafny verify dfyconfig.toml` checks everything. One module to a file:

| files | what they model |
|---|---|
| `Permutations`, `Msdb`, `AgentJobStep`, `JobReorder` | reordering the steps of an Agent job: a permutation compiled to delete, add, set-flow and set-start statements, and msdb running them |
| `SwitchPairs`, `SpecificationWindow` | disable windows on audit specifications, told apart by a key in the context |
| `AuditWindow` | disable windows on server audits, where a rename inside redirects the restore |
| `LoginRetarget` | the connector that leaves a login database which refuses it, as interleaved steps of many calls |
| `Decimals`, `NumberConverters`, `CharConverters`, `Calendar`, `TimeConverters`, `BulkValue`, `BulkCopy` | checking and canonicalising values for a bulk load, and the load's hold on its connection |
| `CapabilityKeys`, `CapabilityScan`, `Capabilities` | folding permission-probe rows into keyed maps, and the questions asked of them |
| `ServerAddress`, `ExtraParams` | server addresses taken apart and put into a URL, and extra parameters merged into its query |
| `AgentHistory`, `NameFold`, `RoutingList` | msdb's date integers, name keys under a collation, read-only routing lists |
| `Text`, `Wrappers` | what is taken from Go's strings package, and two result types |

## What the servers are taken to do

- msdb renumbers "go to step" references when a step is added or deleted, resets
  those to a deleted step, leaves the start step alone, and refuses a step that
  goes to itself or outside 1..n, a name already taken and a step that is not
  there (agent_job_step.go:137-141, 418-431, 511-518). Names are unique, and a
  step without a database is of a subsystem that msdb gives none by default.
- An audit or specification refuses every change while it is enabled; a switch
  that returns an error did nothing; a restore reaches the server.
- Unicode enters as functions: a lower-casing, a cyclic simple folding, code pages
  in which no rune's code is empty or the start of another's and a space is one
  byte. What is assumed of them is a named predicate (`KeepsAscii`, `OneSpelling`,
  `Cyclic`, `FoldsAscii`, `ValidPage`).
- Names the permission probe reads hold no NUL, and a column's is not empty: its
  column block names real columns only (capabilities_query.go:102-110).

## What does not hold of the code

Each of these has a lemma with a concrete case and another that says exactly
when the code does meet the property.

- A specification's window is found by a key that joins database and name with a
  dot, so the server specification `Sales.Spec` and the database specification
  `Spec` of `Sales` share one: inside a window on either, a change to the other
  is sent while it is enabled (`DottedNamesCollide`). Windows work for a set of
  specifications if and only if their keys differ and none is empty
  (`WindowsWorkIffKeysApart`).
- A rename of audit A inside a window on B inside a window on A leaves A switched
  off: the restore still has the old name (`RenameIsLost`). It is lost if and only
  if another audit's window stands between A's window and the rename
  (`RenameSurvivesIff`).
- `Since` drops the fraction of its second, so a run that started earlier in that
  second is kept (`FractionKeepsEarlier`); the filter is exact if and only if
  `Since` is a whole second (`ExactIffWholeSince`).
- The address `[fe80::1` is accepted, because brackets are trimmed before the
  address is checked, and is put into the URL as `[fe80::1:1433`, a host with no
  port (`UnclosedBracketIsAccepted`). The URL's host reads back as the address in
  brackets if and only if the server wrote none or one pair
  (`LiteralComesBackIff`).
- smalldatetime's rounding takes the seconds from the clock where the time is and
  the minute from absolute time. Midnight of 1 January 1970 in Monrovia, 44:30
  behind UTC, goes half a minute back and then a minute on each time it is
  converted again (`MonroviaDrifts`). A result comes back unchanged if and only if
  the offset in force at it is less than 29.999 seconds past a minute
  (`SmallDateTimeAgainIff`); the rounding is monotone, and within 30.001 seconds,
  if and only if the offset is whole minutes (`RoundingIsMonotoneIff`,
  `RoundingIsCloseIff`).

## Model

| member | source | states |
|---|---|---|
| Permutations.OrderIffRearrangement | agent_job_step.go:579-594 | a sequence of n distinct ids in 1..n is exactly a rearrangement of 1..n |
| Permutations.OrderCovers | agent_job_step.go:579-594 | an order of n holds every id of 1..n and no other |
| Permutations.PositionOf | agent_job_step.go:525-528 | the position map inverts the order |
| Permutations.ComposeIsOrder | agent_job_step.go:456-459 | two orders in sequence are an order |
| Permutations.PositionOfCompose | agent_job_step.go:456-459 | renumbering by two orders in turn is renumbering by their composition |
| Msdb.ExecAppend | agent_job_step.go:461-464 | running two batches one after the other is running their concatenation |
| AgentJobStep.DeleteFollows | agent_job_step.go:418-431 | a delete leaves every other step's goto at the step it named, and makes those that named the deleted one quit, with success or with failure; the start step is left alone |
| AgentJobStep.InsertFollows | agent_job_step.go:418-431 | an insert leaves every goto at the step it named |
| AgentJobStep.ReAddRestores | agent_job_step.go:651-674 | a step added back from its re-add request has every column of its definition again |
| AgentJobStep.ReAddedIsTaken | agent_job_step.go:651-674 | a step goes back with its gotos as action 3, which the server takes anywhere |
| AgentJobStep.MoveLiesAhead | agent_job_step.go:503-507 | while the prefix is settled, the step wanted next lies strictly beyond the target |
| AgentJobStep.MoveMirrors | agent_job_step.go:503-521 | a delete/add pair is accepted after the statements before it, and the client's mirror names the server's steps in order after it |
| AgentJobStep.RepairOne | agent_job_step.go:529-537 | a set-flow statement is accepted exactly when the original flow was, and gives its step the renumbered flow and no other step anything |
| AgentJobStep.MoveStatements | agent_job_step.go:489-521 | the moves are all accepted, end with the server in the wanted order, move a step at most once, and are at most n - 1 delete/add pairs |
| AgentJobStep.Positions | agent_job_step.go:523-528 | the map built by the loop is the position of every id, 0 for one that is not there |
| AgentJobStep.RepairStatements | agent_job_step.go:529-537 | after the repairs every flow is the renumbered one, and only set-flow statements were added |
| AgentJobStep.BuildBatch | agent_job_step.go:471-556 | the whole batch is accepted if and only if the job's own references were valid, and turns the job into the wanted order with unchanged definitions, actions and renumbered targets and start |
| JobReorder.CheckReorder | agent_job_step.go:579-594 | accepts exactly the permutations of 1..n, and a refusal names an id that is really outside or really repeated |
| JobReorder.BuildMoveOrder | agent_job_step.go:439-450 | the loop and insertion build the move's order |
| JobReorder.MoveOrderAccepted | agent_job_step.go:439-450 | a single move is an accepted order exactly when the id is in 1..n |
| JobReorder.MoveOrderAt | agent_job_step.go:439-450 | the moved step lands at the clamped position, and every place holds the step it should |
| JobReorder.MoveOrderPlaces | agent_job_step.go:439-450 | the steps that are not moved keep their relative order |
| JobReorder.MoveBack | agent_job_step.go:432-450 | moving a to b and then b to a is the identity order |
| JobReorder.PermutedStaysValid | agent_job_step.go:471-556 | a reordered job again has unique names and valid references, so it can be reordered again |
| JobReorder.ReorderKeepsFlow | agent_job_step.go:418-431 | after a reorder every "go to" names the step it named before, every other action is as it was, and the job starts at the step it started at |
| JobReorder.GoToStepFollows | agent_job_step.go:418-431 | told by old number: the step that was x does what it did, and where its action is 4 goes to the step it went to |
| JobReorder.FlowSettlesReorder | agent_job_step.go:418-431 | conversely, any job with that control flow is the reordered job: nothing else keeps it |
| JobReorder.PermutedCompose | agent_job_step.go:456-469 | two reorders are one, by the composed order |
| JobReorder.PermutedByIds | agent_job_step.go:471-556 | reordering by 1..n changes nothing but ignored targets |
| JobReorder.AgentJob.ReorderSteps | agent_job_step.go:471-556 | succeeds exactly for a permutation of a job with valid references, leaves the reordered job, and otherwise leaves the job alone |
| JobReorder.AgentJob.MoveStep | agent_job_step.go:432-434 | succeeds exactly for an id of the job, puts that step in place, and otherwise leaves the job alone |
| JobReorder.MoveThereAndBack | agent_job_step.go:432-434 | on a live job, MoveStep(a, b) and MoveStep(b, a) leave it as it was up to ignored targets |
| JobReorder.MoveIsUndone | agent_job_step.go:432-450 | the same of the jobs before, between and after |
| SpecificationWindow.RunIsSafe | audit_specification.go:298-352 | for every tree of windows and writes, with any step failing, every specification ends as it began and every write meets its specification disabled |
| SpecificationWindow.WindowsWorkIffKeysApart | audit_specification.go:270-302 | that promise holds for a set of specifications if and only if their window keys are distinct and none is empty |
| SpecificationWindow.KeylessWriteBreaks | audit_specification.go:298-301 | a write on a specification with an empty key is sent while it is enabled |
| SpecificationWindow.SharedKeyBreaks | audit_specification.go:298-301 | with a shared key, a write on the one is sent while it is enabled inside the other's window |
| SpecificationWindow.DottedNamesCollide | database_audit_specification.go:465-477 | names with dots a server can hold do share a key |
| SpecificationWindow.PlainNamesSuffice | database_audit_specification.go:465-477 | names that are not empty and hold no dot keep the promise |
| SpecificationWindow.OffStaysUntouched | audit_specification.go:304-343 | a specification that is off, in its own window or before, is not switched, however windows nest or shadow |
| SpecificationWindow.OneWindowOnePair | audit_specification.go:304-343 | a window that opens switches its specification off once and on once |
| SpecificationWindow.SwitchesArePaired | audit_specification.go:304-352 | for every program, failing anywhere, a specification is switched off once and on once for each of its outermost windows and separate writes that opened, and not otherwise |
| SpecificationWindow.OpensAreOuter | audit_specification.go:298-343 | at most once for each outermost window or separate write: none opens inside another |
| SpecificationWindow.AllOpen | audit_specification.go:298-352 | a program that passes over no error and returned none, on a specification that began enabled, opened every one of them |
| SpecificationWindow.ProgramSwitches | audit_specification.go:304-352 | all three, of a whole program run outside any window; a specification that began off is not switched |
| SpecificationWindow.AlterLog | audit_specification.go:320-352 | a separate write that opens leaves exactly off, the write while disabled, on in the log, and returns the fate of its statement |
| SpecificationWindow.FatesDecide | audit_specification.go:298-352 | for every program on specifications with keys of their own, whether it returns an error, and how many writes of a specification it sends, are what the fates of its steps say, told without a window, a log or a server |
| SpecificationWindow.StraightSendsAll | audit_specification.go:298-352 | fates that let a program which passes over no error succeed have it send every write in it, and none of them failed |
| SpecificationWindow.NoErrorMeansSent | audit_specification.go:298-352 | a program that passes over no error and returned none sent every write there is in it, and every read, switch and write it reached succeeded |
| SpecificationWindow.SpecificationServer.WithDisabled | audit_specification.go:320-343 | the method leaves the state and the error that the meaning of its tree gives, of which `AlterLog` and `FatesDecide` say what is sent and returned |
| SpecificationWindow.SpecificationServer.Execute | audit_specification.go:311-352 | so does a caller's whole program, of which `RunIsSafe`, `ProgramSwitches` and `NoErrorMeansSent` hold |
| AuditWindow.RunKeeps | audit.go:370-420 | for any number of audits and any tree of windows, writes and renames that renames none under a shadowing window, every audit ends as enabled as it was under the name it then has, every change meets it disabled, and other audits are untouched |
| AuditWindow.OneAuditIsUnshadowed | audit.go:370-376 | a program on one audit never shadows its window |
| AuditWindow.OneAuditKeeps | audit.go:397-420 | so the promise holds for every program on one audit |
| AuditWindow.OffStaysUntouched | audit.go:378-389 | an audit that is off is not switched, whatever is renamed |
| AuditWindow.OneWindowOnePair | audit.go:378-389 | a window that opens switches its audit off once and on once, renames inside it included |
| AuditWindow.SwitchesArePaired | audit.go:378-420 | for every unshadowed program on any audits, failing anywhere, an audit is switched off once and on once for each of its outermost windows, separate changes and separate renames that opened, and not otherwise |
| AuditWindow.OpensAreOuter | audit.go:370-420 | at most once for each outermost window or separate write: none opens inside another |
| AuditWindow.AllOpen | audit.go:370-540 | a program that passes over no error and returned none, on an audit that began enabled, opened every one of them |
| AuditWindow.OneAuditSwitches | audit.go:370-540 | all three of these, for every program of windows, changes and renames on one audit; an audit that began off is not switched |
| AuditWindow.RenameSurvivesIff | audit.go:370-420 | through any stack of windows, the renamed audit ends enabled exactly when no other audit's window stands between its own and the rename |
| AuditWindow.RenamedThroughStack | audit.go:494-540 | what a rename inside a stack of windows leaves: names, enabled states and the window's name |
| AuditWindow.RenameIsLost | audit.go:370-420 | two audits and a stack of two windows for which the renamed one ends off |
| AuditWindow.AlterOpened | audit.go:473-489 | off, statements up to the first failure, on: nothing but the audit's definition changes |
| AuditWindow.AlterSends | audit.go:473-482 | an ALTER sends one change for each of its statements up to the first that fails, and returns no error exactly if none does |
| AuditWindow.AlterLog | audit.go:397-482 | a separate ALTER that opens leaves exactly off, those changes and on in the log |
| AuditWindow.FatesDecide | audit.go:397-540 | for every program that renames no audit under a shadowing window, its error, the changes of an audit it sends and the names it leaves are what the fates of its steps say, told without a window, a log or a server |
| AuditWindow.StraightSendsAll | audit.go:397-540 | fates that let a program which passes over no error succeed have it send every statement and rename in it, and none of them failed |
| AuditWindow.NoErrorMeansSent | audit.go:397-540 | such a program that returned no error sent as many changes of an audit as its ALTERs of it have statements and it has renames of it, and every step it reached succeeded |
| AuditWindow.RenameOpened | audit.go:494-540 | off, rename, on under whichever name then holds |
| AuditWindow.AuditClient.WithAuditDisabled | audit.go:397-420 | the method, over a shared window name, does what its tree means, of which `AlterLog` and `FatesDecide` say what is sent and returned |
| AuditWindow.AuditClient.RenameAudit | audit.go:494-540 | so does the rename that closes its own window |
| AuditWindow.AuditClient.SetStateNamed | audit.go:335-345 | the switch is addressed by the name given, and fails if no audit has it |
| AuditWindow.AuditClient.Execute | audit.go:386-540 | so does a caller's whole program, of which `RunKeeps`, `OneAuditSwitches` and `NoErrorMeansSent` hold |
| LoginRetarget.SearchRefusal | connection_retarget.go:120-139 | a dial error counts as a refusal exactly when it or one of its parts carries a refusal number |
| LoginRetarget.RefusalNumbers | connection_retarget.go:124-139 | a refusal is an error that carries, in itself or in a part, one of 4060, 4063, 924, 927, 942, 952 and 976 |
| LoginRetarget.FirstDialDecides | connection_retarget.go:84-92 | a first dial is the call's answer, unless it refused a database other than master with the fall-back on when the call began: that goes on to the swap |
| LoginRetarget.StepKeeps | connection_retarget.go:84-98 | every step of every call, and every outside move, keeps the current connector built for the recorded database and each call's snapshot consistent |
| LoginRetarget.RunKeeps | connection_retarget.go:84-98 | so does every interleaving of any number of calls |
| LoginRetarget.DialsAreCounted | connection_retarget.go:84-98 | what a call's phase says it has dialled is the number of its dials among the steps |
| LoginRetarget.AtMostTwoDials | connection_retarget.go:84-98 | in every interleaving no call dials more than twice |
| LoginRetarget.RefusalMovesOnlyItsOwn | connection_retarget.go:154-167 | a refusal moves the pool only if it still logs in to the database that dial named, and only to master |
| LoginRetarget.RefusalMoves | connection_retarget.go:154-167 | a swap moves a pool still on the refused database to master, with a connector no call has dialled, if one can be built, and leaves the pool as it is otherwise |
| LoginRetarget.SwapFollowsRefusal | connection_retarget.go:84-92 | over every interleaving, a call swaps only after its own dial was refused, on a database other than master and with the fall-back on when it began |
| LoginRetarget.RedialFollowsRefusal | connection_retarget.go:84-98 | and dials a second time only then |
| LoginRetarget.NoSwapUnlessEnabled | connection_retarget.go:84-105 | in a pool whose fall-back nobody has enabled, none swaps |
| LoginRetarget.GivesUpOnlyUnbuilt | connection_retarget.go:84-98 | a refused call returns its error without a second dial only if its own rebuild failed and the pool still holds the connector it dialled |
| LoginRetarget.OneSwapPerStay | connection_retarget.go:154-167 | however many calls a database refuses at once, the pool leaves it at most once for each time it came |
| LoginRetarget.MasterIsAbsorbing | connection_retarget.go:154-167 | in master, with no outside move from it, the pool stays with its connector for good |
| LoginRetarget.UnmovedRuns | connection_retarget.go:84-98 | with no outside move the pool is only ever home or in master |
| LoginRetarget.StartFits | connection_retarget.go:53-64 | a new connector satisfies the invariant |
| LoginRetarget.RetargetingConnector.Retarget | connection_retarget.go:154-167 | swaps the pool, under the lock, exactly when it is still where the caller says and a connector was built |
| LoginRetarget.RetargetingConnector.Connect | connection_retarget.go:84-98 | a call with nobody else at work is one run of the interleaved steps; it succeeds, and leaves the pool moved to master, exactly where the two dials, the refusal and the rebuild say |
| Decimals.SplitTakesDecimals | bulkvalue.go:265-273 | every text of the form sign, digits, point, digits is split into those parts |
| Decimals.SplitIsDecimal | bulkvalue.go:265-273 | and no other text is split |
| Decimals.DigitsOnly | bulkvalue.go:275-282 | the loop decides whether a text is all digits |
| Decimals.TextDenotesSame | bulkvalue.go:284-298 | canonical text denotes the number of the parts it was made from |
| Decimals.TextIsCanonical | bulkvalue.go:284-298 | canonical text splits into the same sign, digits and places |
| NumberConverters.DecimalAccepts | bulkvalue.go:315-339 | accepts exactly the decimals of at most `scale` places whose magnitude is below 10^(precision - scale), and returns text of the same number |
| NumberConverters.DecimalIsIdempotent | bulkvalue.go:144-147 | converting an accepted decimal again returns it unchanged |
| NumberConverters.Accumulate | bulkvalue.go:344-379 | the uint64 accumulation never overflows and holds the digits' value |
| NumberConverters.ConvertMoney | bulkvalue.go:344-379 | the 64-bit code, the negation of the least int64 included, computes what unbounded integers would |
| NumberConverters.MoneyAccepts | bulkvalue.go:344-379 | accepts exactly the decimals of at most 4 places whose value times 10^4 lies in the range, and returns text of the same number |
| NumberConverters.MoneyIsIdempotent | bulkvalue.go:144-147 | converting an accepted amount again returns it unchanged |
| NumberConverters.IntTakesWholeFloats | bulkvalue.go:228-262 | a float goes to a column of the four integer types exactly when it holds an integer of its range, and as that integer |
| NumberConverters.IntTakesIntegerText | bulkvalue.go:228-262 | a text goes to an integer column exactly when it is a signed run of digits in the range |
| CharConverters.EncodePadded | bulkvalue.go:563-655 | padding then encoding is encoding then padding bytes |
| CharConverters.DecodeUndoesEncode | bulkvalue.go:563-655 | text encoded rune by rune reads back, code by code, as the text |
| CharConverters.CharTextArrives | bulkvalue.go:563-655 | an accepted text is sent as bytes that the database's page decodes to the text and its padding, at most n bytes in the column's page and exactly n for char(n) |
| CharConverters.CharIsIdempotent | bulkvalue.go:563-655 | the bytes sent, converted again, are unchanged |
| CharConverters.CharBytesIsIdempotent | bulkvalue.go:563-655 | so are accepted bytes |
| CharConverters.CharBytesFit | bulkvalue.go:611-625 | bytes are sent unchanged where the pages differ, and else exactly if they fit, filled up with spaces where the length is fixed |
| CharConverters.CountUnits | bulkvalue.go:532-556 | the loop counts UTF-16 code units (section 2.1 of RFC 2781) |
| CharConverters.UnitsAreFewest | bulkvalue.go:532-556 | a character takes the fewest bytes of UTF-8 (section 3 of RFC 3629), or units of UTF-16, that carry its bits |
| CharConverters.MeasuredTextFits | bulkvalue.go:532-556 | accepted text is at most n units, exactly n for nchar(n), differs from what was given only in trailing spaces, and converts again unchanged |
| CharConverters.BinaryFits | bulkvalue.go:500-516 | bytes are taken exactly if they fit, and kept, with zeros up to the length where it is fixed |
| CharConverters.BinaryIsIdempotent | bulkvalue.go:500-516 | accepted bytes, converted again, are unchanged |
| CharConverters.Append | bulkvalue.go:500-516 | appending within capacity writes to the shared array, and beyond it does not |
| CharConverters.ConvertBinary | bulkvalue.go:500-516 | padding never writes to the caller's array, whatever its capacity |
| CharConverters.ConvertCharBytes | bulkvalue.go:610-627 | nor does a char column's, on bytes encoded already |
| BulkValue.ConvertAgainIff | bulkvalue.go:143-147 | for every modelled column and value, what the converter returns comes back unchanged, but for a smalldatetime, which does exactly if its location's offset then is less than 29.999 seconds past a minute |
| BulkValue.DecimalTakesIntegers | bulkvalue.go:300-339 | an integer goes to decimal(p, s) exactly when its magnitude is below 10^(p - s), as text of that number |
| BulkValue.BitsTaken | bulkvalue.go:213-225 | bit takes 1, 0 and the words true and false in any case, as those values, refuses all other text and passes on the rest |
| BulkValue.IntegersTaken | bulkvalue.go:228-262 | an integer column takes an integer of its range, or a float that holds one, as that integer |
| BulkValue.IntegerTextTaken | bulkvalue.go:228-262 | and text exactly if it is a signed run of digits in range, as the number it denotes |
| BulkValue.DecimalsTaken | bulkvalue.go:300-339 | decimal(p, s) takes text, an integer or a finite float rounded to s places exactly if the number fits, and sends text of the same number |
| BulkValue.MoneyTaken | bulkvalue.go:344-379 | so does money, rounded to four places |
| BulkValue.TextsTaken | bulkvalue.go:532-592 | nchar and nvarchar keep text that fits in UTF-16 units, a UTF-8 column text that fits in bytes, padded with spaces to the length where it is fixed |
| BulkValue.Utf8BytesTaken | bulkvalue.go:572-592 | a UTF-8 column takes bytes as the text they encode, and refuses those that encode none |
| BulkValue.CharsTaken | bulkvalue.go:593-655 | a char column takes text both pages have and its own page's bytes fit, and sends bytes the database's page reads as the text and its padding |
| BulkValue.BytesTaken | bulkvalue.go:500-627 | a char and a binary column take bytes as those two kinds of filling say |
| BulkValue.OthersPassOn | bulkvalue.go:140-143 | a value of a type its column does not look at is passed on as it is; text that is no UTF-8, and a float that is not finite, no column that looks at them takes |
| TimeConverters.RoundingIsCloseIff | bulkvalue.go:444-450 | under an offset, rounding lands within 30.001 s of every time exactly if the offset is whole minutes |
| TimeConverters.RoundingIsMonotoneIff | bulkvalue.go:444-450 | under an offset, rounding keeps the order of times exactly if the offset is whole minutes |
| TimeConverters.SmallDateTimeAgainIff | bulkvalue.go:444-453 | in any location, an accepted smalldatetime converts to itself exactly if the offset in force at it is less than 29.999 s past a minute |
| TimeConverters.FixedZoneComesBackIff | bulkvalue.go:444-453 | in a location with one offset, all of them do exactly if that offset is, and otherwise some do not |
| TimeConverters.MonroviaDrifts | bulkvalue.go:444-453 | a time in range that changes at every conversion |
| TimeConverters.RangeInDays | bulkvalue.go:435-453 | the range bounds as day numbers |
| TimeConverters.DatesTaken | bulkvalue.go:435-439 | date, datetime2 and datetimeoffset take exactly the clock readings of the years 1 to 9999, unchanged |
| TimeConverters.DateTimesTaken | bulkvalue.go:440-443 | datetime takes those of 1753 to 9999 but the last second from its nanosecond 998,500,000 on |
| TimeConverters.NothingBeforeYearOne | bulkvalue.go:435-443 | neither takes a clock reading before year 1 |
| TimeConverters.SmallDateTimesTaken | bulkvalue.go:444-453 | smalldatetime takes what rounds to a minute from the first of 1900 to the last of 6 June 2079, as the location's clock shows them |
| Calendar.DaysBeforeYearIs | agent_job_history.go:198-206 | the calendar is the Gregorian one: years before and their leap days |
| Calendar.DaysFollowDates | agent_job_history.go:198-206 | a later date has a later day number |
| Calendar.MonthLengths | agent_job_history.go:198-206 | the months of 31 days are the odd ones to July and the even ones from August |
| Calendar.FebruaryLength | agent_job_history.go:198-206 | a February is longer every fourth year but the hundredth, unless it is the four hundredth |
| AgentHistory.StampRoundTrip | agent_job_history.go:174-206 | msdb's integers of an instant decode to that instant |
| AgentHistory.StampOfInstant | agent_job_history.go:174-206 | decoded integers encode to themselves |
| AgentHistory.StampDigits | agent_job_history.go:174-177 | the decimal digits of the integers, two by two from the end, are day, month and year, and second, minute and hour |
| AgentHistory.StampsFollowTime | agent_job_history.go:123-132 | integer pairs compare lexicographically exactly as their instants do |
| AgentHistory.KeepsMeans | agent_job_history.go:123-132 | the filter's conditions keep the runs between the whole seconds of its bounds |
| AgentHistory.BoundsCutIffSet | agent_job_history.go:123-132 | the zero time bounds nothing, and every other bound cuts at its whole second |
| AgentHistory.WholeSecondsAreExact | agent_job_history.go:123-132 | with a whole-second Since, exactly the runs at or after it and at or before Until |
| AgentHistory.ExactIffWholeSince | agent_job_history.go:123-132 | the filter is exact for every run if and only if Since is a whole second |
| AgentHistory.FractionKeepsEarlier | agent_job_history.go:123-132 | a search since half a second past noon keeps the run recorded at noon |
| BulkCopy.ConvertRow | bulkcopy.go:205-225 | a row converts exactly when each of its values does, and an error names the first that does not |
| BulkCopy.Run | bulkcopy.go:170-245 | no error if and only if the columns are read, the statement prepared, every row good and the flush done; each other error exactly, or only, for its own cause; a connection left in mid-copy is never poolable; success stores every row converted, failure the rows of the batches the server had ended and none if there was one batch; the count and the error are those of the first row that failed |
| CapabilityKeys.ObjectKeyIsInjective | capabilities_database.go:294 | no two objects share a key |
| CapabilityKeys.ColumnKeyIsInjective | capabilities_database.go:352-354 | no two columns share a key |
| CapabilityKeys.PrefixIsObject | capabilities_database.go:397-403 | a column's key has an object's prefix exactly when it is a column of that object |
| CapabilityKeys.SecurableKeyIsInjective | capabilities.go:566-581 | kind, schema and name are all in the key, a schemaless securable's included |
| CapabilityKeys.ServerKeyIsInjective | capabilities.go:215-217 | kind and name are all in the key |
| CapabilityScan.RowIsRead | capabilities_scan.go:176-200 | one row changes only what it answers: NULL nothing, 1 grants unless denied, any other number denies |
| CapabilityScan.ExplicitReads | capabilities_scan.go:39-200 | after any rows, denied if some answer denies, granted if there are answers and none denies, and as before if there are none |
| CapabilityScan.ScanIgnoresOrder | capabilities_scan.go:39-200 | two row sequences with the same explicit rows, in any order and number, read the same |
| CapabilityScan.NilStaysNil | capabilities_scan.go:39-170 | a map the caller did not ask for is never written |
| CapabilityScan.KeysComeFromRows | capabilities_scan.go:39-188 | every securable in a block's map is one that a row of that block named |
| CapabilityScan.DatabaseReads | capabilities_scan.go:39-200 | the same fold for permissions on the database itself |
| CapabilityScan.MeasuredReads | capabilities_scan.go:39-170 | a measured permission reads as the last row that answers it says |
| CapabilityScan.RolesRead | capabilities_scan.go:47-50 | after any rows, a role is in its map exactly if a role row named it or it was there before, and reads true exactly if the last of them answers 1 |
| CapabilityScan.PermissionsRead | capabilities_scan.go:51-54 | a permission on the whole reads as the last row of its block that answers for it says, and as before if none does |
| CapabilityScan.MasterReads | capabilities_scan.go:55-61 | so does a permission on master, from the rows of that block |
| CapabilityScan.UnaskedStayNil | capabilities_scan.go:47-61 | none of the three maps is written if it was not asked for |
| CapabilityScan.CapabilityMaps.RecordState | capabilities_scan.go:176-188 | the nested map is updated in place, a denial never overwritten |
| CapabilityScan.CapabilityMaps.ScanRows | capabilities_scan.go:39-170 | the row loop leaves the fold of its rows, of which the reads above hold |
| Capabilities.StateIsWhatWasProbed | capabilities_scan.go:39-200 | for any probe, a securable reads denied exactly when a row for it and for that permission denies, whatever was asked about others |
| Capabilities.ObjectAnswers | capabilities_database.go:300-348 | DeniedOnObject and HasOnObject say what the probe's rows for that object said |
| Capabilities.ColumnAnswers | capabilities_database.go:359-381 | so does DeniedOnColumn for that column |
| Capabilities.SchemaAnswers | capabilities_database.go:209-214 | so does DeniedOnSchema for that schema |
| Capabilities.PrincipalAnswers | capabilities_database.go:285-290 | so does DeniedOnPrincipal for that principal |
| Capabilities.DatabaseAnswers | capabilities_database.go:238-243 | so does DeniedOnDatabase |
| Capabilities.FoundIsLeast | capabilities_database.go:400-410 | the loop ends on the least of the denied columns |
| Capabilities.FoundForEveryOrder | capabilities_database.go:400-410 | it does so for every order the map yields, names not being empty, and needs that |
| Capabilities.DeniedColumnsAre | capabilities_database.go:400-405 | the loop considers exactly the denied columns with the prefix |
| Capabilities.DeniedKeyIsProbed | capabilities_database.go:397-405 | a denied key under a table's prefix is a column of that very table which the probe denied, and every such column has one |
| Capabilities.DeniedOnAnyColumn | capabilities_database.go:393-411 | for any probe and any order of the map, a column is found exactly when the probe denied one of that table's, and it is the least of them; on any map, a column found is a denied one |
| ServerAddress.ParsePort | connection.go:440-451 | a port is a non-empty run of ASCII digits that fits an int, with the value they have |
| ServerAddress.SplitReadsAll | connection.go:456-492 | for every text, host, instance and port with what separates them are the whole text, and a colon is a port's only after a host that has none or is in brackets |
| ServerAddress.ParsingUndoesRendering | connection.go:386-427 | every documented form, host, host:port, host,port, host\instance, host\instance,port, with bare and bracketed IPv6, parses to the parts it was written from |
| ServerAddress.PrefixIsDropped | connection.go:410-414 | a tcp: in any case changes nothing, unless only digits follow |
| ServerAddress.AliasesAreOne | connection.go:416-427 | "." and "(local)" in any case parse as localhost in every documented form, and every other host is kept as written |
| ServerAddress.ProtocolsAreRefused | connection_dsn.go:360-364 | np:, lpc: and admin: in any case are refused by name, exactly unless only digits follow |
| ServerAddress.AcceptedIffDialable | connection_dsn.go:360-403 | a documented form is accepted exactly if the option and a written port are in range, a host with a colon is an address and has a port beside an instance, and the host is not LocalDB |
| ServerAddress.WhatIsDialled | connection_dsn.go:387-402 | for it the host is dialled, an IPv6 one in brackets, at the written port, else the option's, else 1433 for IPv6 and none otherwise |
| ServerAddress.DsnHost | connection_dsn.go:360-403 | accepts exactly the servers the refusals leave, with the text to dial and the instance |
| ServerAddress.PlainHostComesBack | connection_dsn.go:397-402 | an accepted host without a colon reads back from the URL unchanged, with its port in 1..65535 or none |
| ServerAddress.LiteralComesBackIff | connection_dsn.go:376-402 | an accepted host with a colon is an address, gets a port in 1..65535, and reads back as that address in brackets (section 3.2.2 of RFC 3986) exactly when it was written with no brackets or one pair |
| ServerAddress.PortComesBackIff | connection_dsn.go:376-402 | its port reads back exactly when no bracket is left open |
| ServerAddress.UnclosedBracketIsAccepted | connection_dsn.go:376-381 | a server for which it does not |
| ServerAddress.DialledIsStable | connection_dsn.go:360-403 | otherwise the URL's host is itself accepted, and dialled as it stands |
| ExtraParams.MergeExtraParams | connection_dsn.go:476-506 | taking the entries and the query in any order, succeeds exactly for admissible entries and leaves their merge; a refusal is one of the named faults of its entry |
| ExtraParams.DropExisting | connection_dsn.go:495-502 | an existing key in another case is refused, or deleted if the key is overridable, and nothing else is |
| ExtraParams.ClashIsFinal | connection_dsn.go:495-502 | a clash met in one order is a clash of the entries themselves |
| ExtraParams.MergeIsOne | connection_dsn.go:476-506 | the merge of admissible entries is one query |
| ExtraParams.SettingsStay | connection_dsn.go:408-442 | every setting but the overridable default keeps its value, and no reserved key is added |
| ExtraParams.KeysAreWords | connection_dsn.go:444-483 | a name in any case and between any spaces is its words, and the seven ADO.NET spellings are the driver's keys |
| ExtraParams.EmptyKeys | connection_dsn.go:480-486 | a name is empty exactly if it is nothing but space |
| ExtraParams.OptionsKeepTheirKeys | connection_dsn.go:408-426 | a key the options write is there after a merge only if they wrote it, with their value |
| ExtraParams.OptionsAreNotTaken | connection_dsn.go:408-426 | an entry that names one, in any case and between any spaces, fails the merge |
| ExtraParams.DialTimeoutIsReplaced | connection_dsn.go:428-432 | the dial timeout may be set, and then stands there once, with the entry's value |
| RoutingList.FormatRoutingList | availability_replica.go:449-476 | refused exactly for a blank name; otherwise the text of the list with its empty sets dropped |
| RoutingList.QuoteNames | availability_replica.go:452-459 | a set's names quoted in order, refused exactly when one is blank |
| RoutingList.ListAsWritten | availability_replica.go:449-476 | a concrete list as it is written |
| RoutingList.NonEmptySnoc | availability_replica.go:464-471 | dropping leaves every set that is not empty, in its order |
| RoutingList.FullListStays | availability_replica.go:464-471 | and of a list with none empty, all |
| RoutingList.QuotedReads | tsql/quote.go:74-90 | a reader of literals gets back any name, whatever quotes it holds |
| RoutingList.ListReads | availability_replica.go:443-448 | the text reads back as the list with empty sets dropped, whatever commas, parentheses and quotes the names hold |
| RoutingList.ReadOnlyRoutingList | availability_replica.go:153-170 | the read loop leaves the rows grouped, and panics only on a first row of priority -1 |
| RoutingList.GroupingUndoesFlattening | availability_replica.go:153-170 | grouping the rows of non-empty sets with distinct neighbouring priorities gives the sets back |
| RoutingList.WrittenThenRead | availability_replica.go:140-174 | a list written, stored set by set and read is the list with empty sets dropped |
| NameFold.AsciiUpperIsLeast | collation.go:84-90 | the ASCII shortcut's upper case is the least of the orbit, whatever else is in it |
| NameFold.FoldKeyRune | collation.go:83-96 | the walk round the orbit ends, and both it and the ASCII shortcut give the least rune |
| NameFold.KeysMeetIffOrbitsDo | collation.go:83-96 | two runes have one key exactly when they fold together |
| NameFold.MakeNameKey | collation.go:75-80 | the key is the name with each rune folded, or the name itself where case is minded |
| NameFold.SameNameIff | collation.go:52-66 | two names are the same exactly when they fold equal rune by rune, or where case is minded, are equal |
| NameFold.KeyIsCanonical | collation.go:64-80 | a name and its key are the same name, and the key of a key is itself |
| NameFold.SplitHasTokens | collation.go:41-49 | every stretch between underscores is a token |
| NameFold.SplitIsTokens | collation.go:41-49 | and every token is one |
| NameFold.CollationIgnoresCase | collation.go:41-49 | false exactly when CS, BIN or BIN2 stands as a whole token |
| NameFold.KnownCollations | collation.go:41-49 | four concrete collations, three that mind case and one that does not |

## Left out

- SQL text, apart from routing lists: statements are a datatype, and the catalog families that only render and read (alerts, operators, schedules, certificates, credentials, listeners, backups) are not modelled.
- The driver, the pool's retries, TLS, sign-in and transactions: a dial or a statement is a step that succeeds or fails.
- Scripting and statement observers: windows are modelled as they run live.
- Panics inside a window, and a caller's own Enable, Disable or Drop inside one.
- A restore that does not reach the server, and two handles on one audit.
- Job steps: the columns about a step's last run, which a delete and an add lose; adding at the end without a position; the job read again by another session between the listing and the batch.
- JobReorder.AgentJob.ReorderSteps: "go to the next step" stays positional, as msdb has it, so it names another step once the order changes.
- LoginRetarget: closing idle connections after a move; a database name is its folded class and its spelling.
- Bulk values: float columns, whose text is strconv's; uniqueidentifier; driver.Valuer reduction; choosing a converter by type name; the code-page tables, which are functions with codes that tell runes apart.
- TimeConverters: the zone tables; a location is the offset it has at each instant and the instant it gives a clock reading.
- ServerAddress: netip.ParseAddr is any predicate on texts; the rest of the URL, and what the driver makes of it, are not modelled.
- NameFold: names are code points, so invalid UTF-8 is not modelled; nor are accent, kana and width.
- RoutingList.ReadOnlyRoutingList: the order of names within a set is the rows' own.
- What SQL Server permits and which version has what, settled by single branches.
