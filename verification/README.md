# Verification of the reporting agent's protocols and algorithms

A Dafny model of the parts of the system whose correctness is an argument rather than a
glance, with proofs. `dafny verify dfyconfig.toml` checks all of it.

The system makes reports on a customer's cloud subscription. A runtime (the *agent*) collects,
compiles, renders, verifies and uploads; it streams events to a browser and tells the web app
about each phase by an HTTP callback that moves the run's row. The web app stores the row,
shows the run and lets authors edit report definitions.

**The run's reporting protocol**

- `Events`, `StepTracker`, `Invocation`: one invocation's stream. Whatever a command handler
  does (return, raise a typed error, raise anything else, offer an illegal event), `done` comes
  once and last, every activity step is started and ended exactly once under one name, counts
  fit and never fall, one verification at most, no file before a pass, and the terminal callback
  says what `done` says.
- `Transcript`: the same stream said from the handler's script alone, without the router's state.
- `DocumentPhases`, `DocumentStream`: compile, render, verify, record, gate, upload, run through
  that router, and what its reader is shown of the document.
- `Errors`, `CallbackBody`, `RunRow`, `RunStatus`: error codes, the callback body, and the
  endpoint's schema, decision and row.
- `Throttle`, `TerminalDelivery`, `ProgressReporter`, `DeliveryOrder`: which callbacks are sent,
  how long the terminal one may take, and, for every interleaving of the delivery tasks, the
  transport and the app, in which order they arrive and what becomes of the row.
- `WholeRun`: reporter, throttle, deliveries and row joined: what a sequence of `report` calls
  schedules, and how a run that reports it and is answered ends.
- `Heartbeat`, `HeartbeatMerge`: the keep-alive ticker and its merge with the stream, for every
  scheduling of pump, ticker and consumer.

**Algorithms with an optimality or canonical-form claim**: `Compare` (fewest sections moved),
`CanonicalJson` (a serializer used as an equality test), `Panels` (a minimal partition),
`Palette` and `Probing` (a colouring that depends on the set of keys only).

**Text processing**: `StreamFrames` (incremental frame parser), `Reveal` (pacing of a streamed
answer), `Redaction` (secrets), `ActionsCsv` (a printer and its reader).

**A fold over an unreliable stream**: `RunStream`.

`Options`, `Order`, `Counting` and `StableSort` are shared mathematics.

Code that changes state is a class or a method with loops, proved against a function of the
old state; the properties are lemmas about those functions. Concurrent tasks are transition
systems: a run is any sequence of steps.

## Where the code and its own account of itself differ

- `stable` prints `[undefined]` as `[]`, so an array holding only `undefined` and an empty one
  count as the same (`LoneUndefinedLooksEmpty`). `SameIsExact` says what `same` decides for all
  values; for JSON values the intended law holds (`SameIsEquivalence`).
- `scrub` can leave a secret in its output: a part of the placeholder's word, or a secret that
  continues a bracket of the placeholder (`SecretsThatLeak`), or one that the replacement of
  another completes although neither leaks alone (`TogetherTheyLeak`). `LeaksExactlyWhen` gives
  the exact condition for one secret, `AnotherCompletes` how a second one adds to it; with the
  condition of `BracketFreeCannotStraddle` on every secret nothing is left
  (`ScrubLeavesNoSecret`).
- `discard_secrets` is said never to raise; a token already used makes it raise, and the secrets
  stay registered (`Registry.Discard`).
- The palette's comments speak of a key being moved by a colliding key; a key can also lose its
  slot to a key that was itself moved: "c" and "d" prefer slot 3 and "e" alone prefers slot 4,
  which "d" takes (`DisplacedWithoutACollision`). `KeepsPreferredExactlyWhen` is the exact rule,
  in the preferences alone: one of the first five keys loses slot p exactly when for some d < 5
  at least d + 1 of the keys before it prefer one of the slots p - d to p, counted cyclically.
- `_coerce` cuts labels and messages to the schema's limit in code points, the schema measures
  UTF-16 units, and a refused body loses its transition (`PictographsLoseTheTransition`).
  `BodyParsesExactlyWhen` says exactly which bodies pass; it also shows that `snapshot_id` is
  passed on unchecked.
- app/lib/runs/state.ts:90-94 says that no ordering exists in which a run reports success before
  its proof is stored. There is one: a row at `collecting` takes `completed` without being asked
  for the proof, whatever was reported since (`RunRow.CompletesWithoutProof`). A document run
  gets there when its answers outlast the terminal callback's ordering budget of ten seconds
  (`BudgetSkipsTheDocument`) or when both POSTs of `compiling` are lost
  (`LostCompilingSkipsTheProof`). `DeliveryOrder.CompletesExactlyWhen` says for every run when it completes,
  `HopsAreSkippedExactlyWhen` that the document's hops are skipped exactly when the row was found
  at `collecting`, and `AnsweredRunEnds` and `DocumentRunEnds` what becomes of runs whose POSTs are
  all answered.
- The merge raises a source's exception after `done` was forwarded if the pump had already run
  into it (`RaisesAfterDone`), and loses it otherwise (`LosesTheException`): it raises exactly
  when the pump had run into it by its end (`RaisesExactlyWhen`). Some
  schedule raises exactly when the source does, and for a source with a `done` some schedule does
  not (`SomeScheduleRaises`, `SomeScheduleDoesNot`). The router's own stream never meets this case
  (`InvocationComesThrough`).

## Model

| member | source | states |
|---|---|---|
| Compare.OutOfOrder | app/components/builder/compare.ts:178-197 | the reported ids are what is left after keeping the longest strictly increasing run of positions whose indices, read from the end, are least at the first difference from any other |
| Compare.OneEarliestRun | app/components/builder/compare.ts:178-197 | there is one such run, so what is reported is determined |
| Compare.FirstOfTwoIsKept | app/components/builder/compare.ts:178-197 | of the order B, A, C against A, B, C the run B, C is kept, so A is reported |
| Compare.FillRow | app/components/builder/compare.ts:182-189 | after the inner loop the entry bounds every increasing run ending there and its back pointer is the first index that attains it |
| Compare.IndexOfMaximum | app/components/builder/compare.ts:190 | the first index of a greatest entry, -1 for an empty array |
| Compare.RunIsBounded | app/components/builder/compare.ts:180-189 | no increasing run is longer than the entry of the index it ends at |
| Compare.MovedSections | app/components/builder/compare.ts:159-166 | the sections reported as moved are common sections, removing them leaves the rest in live order, no smaller set does, none is reported exactly when the common sections are in live order, and which smallest set it is |
| Compare.MovedIsSmallest | app/components/builder/compare.ts:159-197 | minimality of the reported set over all sets of ids |
| Compare.NoSmallerRemoval | app/components/builder/compare.ts:159-197 | any removal that restores live order removes at least as many sections |
| CanonicalJson.StablePrintsCanon | app/components/builder/compare.ts:31-40 | stringifying while sorting equals printing the canonical tree |
| CanonicalJson.PrintInjective | app/components/builder/compare.ts:31-40 | equal prints, with anything closed behind them, come from equal trees |
| CanonicalJson.EscapeInjective | app/components/builder/compare.ts:32-37 | an escaped string up to its closing quote determines the string |
| CanonicalJson.CanonDecides | app/components/builder/compare.ts:33-38 | canonical trees are equal exactly for values equal up to key order and undefined members |
| CanonicalJson.SameIsEquivalence | app/components/builder/compare.ts:42-44 | for JSON values `same` holds exactly for values equal up to key order and undefined members |
| CanonicalJson.SameIsExact | app/components/builder/compare.ts:42-44 | what `same` decides for every value, undefined items included |
| CanonicalJson.LoneUndefinedLooksEmpty | app/components/builder/compare.ts:31-44 | the input on which `same` confuses two different values |
| Panels.SeriesMaxAbs | app/components/charts/panels.ts:33-40 | the greatest magnitude among the finite points, zero if there is none |
| Panels.PanelGroups | app/components/charts/panels.ts:48-78 | every series in exactly one panel, compatible maxima within a panel, strictly falling panel maxima, no partition with these limits has fewer panels; the series stand from the greatest down, equal ones in the order given, and each panel takes all that fit its first |
| Panels.OneWayToFill | app/components/charts/panels.ts:48-78 | there is one such list of panels |
| StableSort.SortIsStable | app/components/charts/panels.ts:52-54 | elements of equal rank keep their order |
| Panels.PlaceKeeps | app/components/charts/panels.ts:60-72 | placing the next series keeps the limits |
| Panels.LeadersNeedTheirOwnPanels | app/components/charts/panels.ts:48-78 | the pigeonhole argument: any partition with the same limits has at least as many panels |
| Panels.SortGroups | app/components/charts/panels.ts:74-77 | the closing sort changes nothing |
| Palette.HashKey | app/components/charts/palette.ts:163-172 | the hash loop computes the rolling hash of the UTF-8 bytes in 32 bits |
| Palette.HashGrows | app/components/charts/palette.ts:163-172 | the hash of nothing is the offset basis, and every further byte is one more round |
| Palette.XorIsBitwise | app/components/charts/palette.ts:165-166 | the exclusive or has a bit exactly where one operand has it and the other does not |
| Palette.BytesDecode | app/components/charts/palette.ts:165 | the bytes decode back to every code point, in order, lone surrogates replaced |
| Palette.BytesDetermineTheKey | app/components/charts/palette.ts:165 | keys without lone surrogates and with the same bytes are the same |
| Palette.CompareByCodePoint | app/components/charts/palette.ts:194-203 | negative, zero or positive exactly as the first key sorts before, equals or sorts after the second |
| Palette.KeyLessIsTotalOrder | app/components/charts/palette.ts:194-203 | the comparison is a strict total order |
| Palette.UnitsOfCodePoints | app/components/charts/palette.ts:194-203 | a key is determined by its UTF-16 units |
| Palette.CodePointsOfUnits | app/components/charts/palette.ts:194-203 | texts of Unicode scalar values come back from their units: pairs are joined |
| Palette.AssignColors | app/components/charts/palette.ts:234-254 | the loop gives each distinct key, in code-point order, the slot the probe finds |
| Probing.FindSlot | app/components/charts/palette.ts:243-249 | the probe loop ends on the first free slot from the preferred one, or on the preferred one when all are used |
| Palette.ColoursOfTheSet | app/components/charts/palette.ts:234-254 | lists with the same keys, in any order and with repetitions, get the same map |
| Palette.FiveKeysFiveColours | app/components/charts/palette.ts:234-254 | up to five distinct keys get distinct slots |
| Palette.PastTheCap | app/components/charts/palette.ts:234-254 | keys past the fifth get their preferred slot |
| Palette.LaterKeysChangeNothing | app/components/charts/palette.ts:234-254 | adding keys that sort after all others changes no earlier key's slot |
| Palette.KeepsPreferredExactlyWhen | app/components/charts/palette.ts:215-254 | a key keeps its preferred slot exactly when five keys sort before it, or no stretch of at most five slots ending in the preferred one is preferred by as many of the earlier keys as it has slots |
| Palette.PreferencesOfLetters | app/components/charts/palette.ts:163-192 | the keys "c", "d" and "e" hash to the slots 3, 3 and 4 |
| Palette.DisplacedWithoutACollision | app/components/charts/palette.ts:215-234 | of these keys "e", which alone prefers slot 4, gets slot 0 |
| Probing.DistinctToTheCap | app/components/charts/palette.ts:240-251 | the first five slots differ, later ones are the preferences |
| Probing.TakenExactlyWhen | app/components/charts/palette.ts:240-251 | before the fifth preference a slot is given out exactly when a stretch of slots ending in it is asked for by as many as fill it |
| Probing.MetExactlyWhen | app/components/charts/palette.ts:240-251 | when a preference is met, in terms of the preferences before it |
| StreamFrames.ParseStreamFrames | app/hooks/useChatStream.ts:49-67 | the loops compute the frame parse: events of the complete frames, then the remainder |
| StreamFrames.ReadLoop | app/hooks/useChatStream.ts:152-165 | for every cutting into chunks the events and the remainder are those of the whole text |
| StreamFrames.ParseAppend | app/hooks/useChatStream.ts:49-67 | parsing in two steps, the remainder carried over, equals parsing once |
| StreamFrames.FirstFrameIsStable | app/hooks/useChatStream.ts:50-51 | more text neither moves nor removes the first separator, cuts inside a line break included |
| StreamFrames.NothingStraddles | app/hooks/useChatStream.ts:50-51 | no separator starts before a complete one and ends beyond it |
| StreamFrames.RoundTrip | app/hooks/useChatStream.ts:49-67 | payloads sent as data lines, with either line break at every place, with or without the space behind the colon and with other lines between, are received once, in order, with nothing left over |
| Reveal.RevealStep | app/hooks/useChatStream.ts:26-29 | the least number of characters that is at least one and at least a twelfth of what is held back |
| Reveal.Pacer.Frame | app/hooks/useChatStream.ts:84-105 | a frame shows a longer prefix of what was received and asks for another frame exactly while text is held back |
| Reveal.Pacer.Delta | app/hooks/useChatStream.ts:187-190 | new text is buffered and a frame is due |
| Reveal.Pacer.RevealAll | app/hooks/useChatStream.ts:107-114 | everything received is shown and no frame is due |
| Reveal.Pacer.Drain | app/hooks/useChatStream.ts:84-105 | successive frames show all of it within a bound |
| Reveal.TwelveFramesHalve | app/hooks/useChatStream.ts:26-29 | the bound grows with the logarithm of the backlog |
| Reveal.DrainGrows | app/hooks/useChatStream.ts:26-29 | a smaller backlog never takes longer |
| Redaction.Registry.Register | agent/src/reporting_agent/redaction.py:80-105 | the registry afterwards, and the token that restores it |
| Redaction.Registry.Discard | agent/src/reporting_agent/redaction.py:108-122 | empty, or what an unused token minted in this context recorded; a used token raises and leaves the secrets registered |
| Redaction.Registry.Scrub | agent/src/reporting_agent/redaction.py:130-140 | the loop applies every pattern, longest first |
| Redaction.RegisteredFacts | agent/src/reporting_agent/redaction.py:80-105 | duplicate-free, at least eight characters each, longest first, holding exactly the old and the registrable values |
| Redaction.RegisterTwice | agent/src/reporting_agent/redaction.py:80-105 | registering again changes nothing |
| Redaction.AdditionsInOrder | agent/src/reporting_agent/redaction.py:80-105 | new values are added in the order of their first appearance |
| Redaction.SubReplacesEach | agent/src/reporting_agent/redaction.py:139 | a text is cut at every leftmost occurrence and the placeholder put into each cut: every piece between stays, in order, and none holds the secret |
| Redaction.OneWayToCut | agent/src/reporting_agent/redaction.py:139 | there is one such cutting, so the replacement is determined |
| Redaction.ScrubReplacesSecretsOnly | agent/src/reporting_agent/redaction.py:130-140 | for a whole registry: registered secrets are cut out, the placeholder put into each cut, everything between stays in order and holds no secret |
| Redaction.ScrubIsInStages | agent/src/reporting_agent/redaction.py:130-140 | for any registry: one such replacement after another |
| Redaction.ScrubLeavesNoSecret | agent/src/reporting_agent/redaction.py:130-140 | no registered secret is left in the output |
| Redaction.ScrubTwice | agent/src/reporting_agent/redaction.py:130-140 | a second scrub changes nothing |
| Redaction.CleanTextUnchanged | agent/src/reporting_agent/redaction.py:130-140 | secret-free text is unchanged |
| Redaction.WholeSecretIsHidden | agent/src/reporting_agent/redaction.py:99-105 | a secret is replaced whole although shorter secrets are parts of it |
| Redaction.BracketFreeCannotStraddle | agent/src/reporting_agent/redaction.py:53-56 | a secret without brackets that is no part of the placeholder's word cannot reappear around a placeholder |
| Redaction.LeaksExactlyWhen | agent/src/reporting_agent/redaction.py:130-140 | one secret survives its own replacement in some text exactly when it can line up with the placeholder |
| Redaction.SecretsThatLeak | agent/src/reporting_agent/redaction.py:130-140 | two registrable secrets that survive |
| Redaction.AnotherCompletes | agent/src/reporting_agent/redaction.py:130-140 | a text in which replacing a later secret completes an earlier one |
| Redaction.TogetherTheyLeak | agent/src/reporting_agent/redaction.py:130-140 | two secrets neither of which leaks alone, and together one does |
| Redaction.DeepKeepsItsPlaces | agent/src/reporting_agent/redaction.py:143-165 | every container and every place is kept: texts scrubbed, items in order, sets element by element, under a scrubbed key the last item that has it, nothing else changed |
| Redaction.DeepLeavesNoSecret | agent/src/reporting_agent/redaction.py:143-165 | no registered secret in any string at any depth, keys included |
| Redaction.CleanValueUnchanged | agent/src/reporting_agent/redaction.py:143-165 | a value without secrets is unchanged |
| Redaction.DeepTwice | agent/src/reporting_agent/redaction.py:143-165 | a second deep scrub changes nothing |
| ActionsCsv.CsvRoundTrip | app/components/actions/action-list.tsx:79-97 | a reader after section 2 of RFC 4180 recovers the header and one eight-cell row per item, in order, for all texts |
| ActionsCsv.SameTextSameRows | app/components/actions/action-list.tsx:79-97 | equal texts come from equal rows |
| ActionsCsv.LinesReadBack | app/components/actions/action-list.tsx:81-96 | any rows read back |
| ActionsCsv.RowReadsBack | app/components/actions/action-list.tsx:82-94 | any row of cells reads back |
| ActionsCsv.CellReadsBack | app/components/actions/action-list.tsx:80 | a quoted or bare cell reads back up to its delimiter |
| ActionsCsv.CellIsBareExactlyWhen | app/components/actions/action-list.tsx:80 | a cell is quoted exactly when it holds a quote, a comma or a line feed |
| RunStream.EventMovesForward | app/hooks/useRunStream.ts:132-224 | one event keeps one step per id, keeps the order and moves no bar back |
| RunStream.StreamMovesForward | app/hooks/useRunStream.ts:132-224 | the same between any two moments of any stream |
| RunStream.AppliedTwice | app/hooks/useRunStream.ts:132-224 | applying an event twice equals applying it once |
| RunStream.TimelineFollowsTheStream | app/hooks/useRunStream.ts:132-224 | the timeline read off the stream: steps in the order of their first starts, each with the latest name, label and status given, its bar the furthest count since with the latest total, unit and label, complete exactly when the latest tool event was an end |
| RunStream.StatusIsTheFurthest | app/hooks/useRunStream.ts:98-130 | between two row reads the status is the furthest phase named; a terminal one stays |
| RunStream.StatusMovesForward | app/hooks/useRunStream.ts:124-130 | at any later moment the status is the same or further |
| RunStream.SamePhasesSameStatus | app/hooks/useRunStream.ts:374-389 | frames naming the same phases in any order leave the same status |
| RunStream.ViewKeepsTheTimeline | app/hooks/useRunStream.ts:346-393 | ignoring undeclared types, heartbeats and `done` loses nothing of the timeline |
| Errors.Construct | agent/src/reporting_agent/errors.py:186-208 | construction fails exactly on an override the class refuses, else carries the default or the override |
| Errors.RowErrorCode | agent/src/reporting_agent/main.py:1697-1743 | every code becomes one the agent may present, and such a code stays as it is |
| Events.LifeMeans | agent/src/reporting_agent/main.py:425-583 | the step automaton agrees with the rules read off the whole stream |
| Events.WholeWhenSettled | agent/src/reporting_agent/main.py:570-583 | when no step is left running, every step named is whole |
| StepTracker.StepTracker.Start | agent/src/reporting_agent/main.py:450-494 | the new state and the event, or no event and which part still changed |
| StepTracker.StepTracker.Advance | agent/src/reporting_agent/main.py:496-551 | an event exactly for an open step and a count that fits and does not fall |
| StepTracker.StepTracker.End | agent/src/reporting_agent/main.py:553-568 | the open step is closed under its own name |
| StepTracker.StepTracker.CloseAll | agent/src/reporting_agent/main.py:570-583 | every open step is ended, last opened first |
| StepTracker.StartAgrees | agent/src/reporting_agent/main.py:450-494 | after a start, the events handed out say of every id what the state says |
| StepTracker.ProgressAgrees | agent/src/reporting_agent/main.py:496-551 | the same after a count |
| StepTracker.EndAgrees | agent/src/reporting_agent/main.py:553-568 | the same after an end |
| StepTracker.StartIsGiven | agent/src/reporting_agent/main.py:450-494 | a start is handed out exactly for proper texts and an id never named before |
| StepTracker.CountIsGiven | agent/src/reporting_agent/main.py:496-551 | a count is handed out exactly for proper texts and when it leaves the step running |
| StepTracker.CountIsCaptioned | agent/src/reporting_agent/main.py:543-551 | without a label of its own it carries the one the step was started with |
| StepTracker.EndIsGiven | agent/src/reporting_agent/main.py:553-568 | an end is handed out exactly for a running step, under the name it was started with |
| StepTracker.InnermostFirst | agent/src/reporting_agent/main.py:570-583 | closing ends each open step once, the one started last first |
| StepTracker.ClosingSettles | agent/src/reporting_agent/main.py:570-583 | after closing, every id ever named is started and ended |
| StepTracker.GeneratedStartsAreFresh | agent/src/reporting_agent/main.py:476-485 | a generated id never collides with an earlier generated one |
| StepTracker.GeneratedIdsDiffer | agent/src/reporting_agent/main.py:476-477 | a generated id determines its number, whatever the names |
| Invocation.Ordering.Screen | agent/src/reporting_agent/main.py:1612-1649 | refuses exactly a second verification and a file before a pass |
| Invocation.ReadHandler | agent/src/reporting_agent/main.py:1494-1527 | the loop over a handler's events, up to its end or the first failure |
| Invocation.RunInvocation | agent/src/reporting_agent/main.py:1457-1587 | the stream and the terminal callback of an invocation |
| Invocation.TerminalTail | agent/src/reporting_agent/main.py:1570-1587 | closes the open steps, sends the callback, ends with `done` |
| Invocation.HandleKeeps | agent/src/reporting_agent/main.py:1494-1527 | every action of every handler keeps the steps, the two orderings and the gate's memory sound |
| Invocation.EveryStreamIsGrammatical | agent/src/reporting_agent/main.py:1457-1587 | `done` once and last, whole steps, one verification and one snapshot at most, no file before a pass, and the callback's status is that of `done` |
| Invocation.CallbackIsAcceptable | agent/src/reporting_agent/main.py:1652-1694 | a failed run's callback carries an acceptable code and its stream a terminal error; a completed one's repeats the snapshot announced |
| Invocation.OutcomeIsTold | agent/src/reporting_agent/main.py:1529-1569 | a run completes exactly when nothing failed or what was raised does not end it; a partial coverage never fails a run; the failure's code is in the stream and, presentable, in the callback |
| Invocation.RefusalIsTold | agent/src/reporting_agent/main.py:1479-1492 | a refused invocation is one terminal error and `done` |
| Transcript.StreamIsTheScript | agent/src/reporting_agent/main.py:1494-1587 | the whole stream and the completed callback from the script alone: all done before the first action that is refused, in order, the failure, the ends of the open steps, `done`; the callback carries what the first snapshot announced |
| Transcript.WhatIsOfferedIsSent | agent/src/reporting_agent/main.py:1494-1527 | up to the first refused action the stream shows exactly what was offered, in order, a later `snapshot_ready` left out |
| DocumentPhases.DocumentPhases | agent/src/reporting_agent/report_pipeline.py:1308-1528 | the phases step by step, for every hazard, and what they leave in the sink |
| DocumentPhases.ScriptBegins | agent/src/reporting_agent/report_pipeline.py:1308-1528 | whatever is done is a beginning of one list of steps: nothing behind the gate without a pass, all of it when nothing raises |
| DocumentPhases.PhasesPassTheScreen | agent/src/reporting_agent/report_pipeline.py:1308-1528 | for every result and store failure the stream passes the router's screen; what ends the phases is what they raise |
| DocumentPhases.EndsWellExactlyWhen | agent/src/reporting_agent/report_pipeline.py:1308-1528 | the phases end well exactly when no call raises and the gate passes |
| DocumentPhases.EndsWithTheFirstFailure | agent/src/reporting_agent/report_pipeline.py:1308-1528 | otherwise they end with the first failure in program order |
| DocumentPhases.PhasesInOrder | agent/src/reporting_agent/report_pipeline.py:1408-1528 | on every path the stored result precedes its callback and its event, artifacts are written only after a pass, files announced only after that |
| DocumentPhases.PassDelivers | agent/src/reporting_agent/report_pipeline.py:1446-1528 | a run whose phases end well completes with a passing verification and every artifact in its stream |
| DocumentPhases.FailWithholds | agent/src/reporting_agent/report_pipeline.py:1443-1561 | a failed gate fails the run, announces no file, and reports a replay mismatch exactly when it is the only blocking kind |
| DocumentStream.DeliveredIsShown | agent/src/reporting_agent/report_pipeline.py:1308-1528 | behind what collecting offered a delivered document shows every chart, every delta, the passing verification and every file, in that order, and nothing else |
| DocumentStream.DeliveredWorks | agent/src/reporting_agent/report_pipeline.py:1308-1528 | the phases, stored results and callbacks of a delivered document, all and in order |
| DocumentStream.DeliveredSteps | agent/src/reporting_agent/report_pipeline.py:1308-1528 | its four steps, each closed before the next, the blocks counted in the first |
| DocumentPhases.HandleAppend | agent/src/reporting_agent/main.py:1494-1527 | reading one script after another is reading them joined, up to the first failure |
| CallbackBody.BodyParsesExactlyWhen | agent/src/reporting_agent/progress.py:176-205 | which built bodies the schema accepts |
| CallbackBody.BodyRepeatsTheFields | agent/src/reporting_agent/progress.py:156-205 | what is offered arrives with its phase: texts whole up to the limit, counts and codes unless they could not be valid |
| CallbackBody.BasicTextFits | agent/src/reporting_agent/progress.py:186-189 | a text without characters beyond U+FFFF always fits after the cut |
| CallbackBody.PictographsLoseTheTransition | agent/src/reporting_agent/progress.py:156-189 | a label within the agent's limit whose transition the app refuses |
| CallbackBody.FailedRunIsAccepted | agent/src/reporting_agent/progress.py:594-638 | every failed invocation's body carries a presentable code, and the app takes it exactly on a row that is not terminal |
| RunRow.OneStepAlongTheChain | app/lib/runs/progress.ts:205-320 | one callback leaves the status or moves it along the table, and changes nothing on a terminal row |
| RunRow.AcceptedExactlyWhen | app/lib/runs/progress.ts:205-268 | which callbacks are accepted |
| RunRow.AcceptedIsWritten | app/lib/runs/progress.ts:252-330 | what an accepted callback writes: phase, code, and count, total and label together or, when the count would fall, none of them; a refused one writes nothing |
| RunRow.RowMovesForward | app/lib/runs/state.ts:79-125 | over every sequence of callbacks the row moves only forward and a terminal row is final |
| RunRow.RowStaysConsistent | app/lib/runs/progress.ts:252-320 | a code exactly on a failed row and then a presentable one, no count on a terminal row |
| RunRow.CompletesExactlyWhen | app/lib/runs/progress.ts:240-268 | one callback completes a row exactly when it is an acceptable `completed` one and the row stands at `collecting`, or at `verifying` with the proof stored |
| RunRow.CompletionHadItsProof | app/app/api/internal/runs/[runId]/progress/route.ts:193-215 | over every sequence of callbacks one of them completed the row: from `verifying` with the proof stored at that moment, or straight from `collecting`, whatever was refused before |
| RunRow.CompletesWithoutProof | app/app/api/internal/runs/[runId]/progress/route.ts:193-215 | three callbacks that complete a document run whose proof was never stored |
| RunRow.FailedLandsExactlyWhen | app/lib/runs/progress.ts:240-268 | a `failed` callback lands exactly on a row that is not terminal and with a presentable code |
| Throttle.ChangesAndCompletionsAreSent | agent/src/reporting_agent/progress.py:564-590 | every phase change and every completing update is admitted |
| Throttle.RefreshIsSentExactlyWhen | agent/src/reporting_agent/progress.py:564-590 | any other refresh is admitted exactly five seconds or more after the last callback sent |
| Throttle.ThrottleBound | agent/src/reporting_agent/progress.py:91-92 | in a stay of D seconds at most floor(D/5) other refreshes are admitted |
| TerminalDelivery.Deliver | agent/src/reporting_agent/progress.py:730-788 | up to two attempts back to back, until one is delivered |
| TerminalDelivery.SendTerminal | agent/src/reporting_agent/progress.py:507-535 | the wait for the deliveries before, the delivery, and the re-sends |
| TerminalDelivery.WaitsItsTurn | agent/src/reporting_agent/progress.py:507-519 | the first POST waits for the deliveries before it, ten seconds at most and not a moment longer than they take |
| TerminalDelivery.PostsAreExactly | agent/src/reporting_agent/progress.py:521-535 | every POST is what the app makes of it, the next comes exactly when and after what it should, and the sequence ends where none should |
| TerminalDelivery.OneWayToGo | agent/src/reporting_agent/progress.py:521-535 | there is one such sequence |
| TerminalDelivery.TerminalIsBounded | agent/src/reporting_agent/progress.py:82-119 | at most six POSTs and 53 seconds for `completed`, two and 20 for `failed`, over every transport |
| TerminalDelivery.ResendsOnlyARefusal | agent/src/reporting_agent/progress.py:521-535 | a delay is waited only after an answered refusal, and a delivered POST is the last |
| TerminalDelivery.LandsExactlyWhen | agent/src/reporting_agent/progress.py:113-119 | with an app that answers at once, `completed` lands exactly when it starts accepting within 13 seconds of its first refusal |
| TerminalDelivery.VerificationIsBounded | agent/src/reporting_agent/progress.py:640-686 | at most two POSTs and 60 seconds for the verification callback, over every transport |
| ProgressReporter.ProgressReporter.TryAdmit | agent/src/reporting_agent/progress.py:564-590 | admits and remembers as the throttle says |
| ProgressReporter.ProgressReporter.Report | agent/src/reporting_agent/progress.py:389-447 | nothing when disabled, finished or not presentable; a terminal phase goes the awaited way; an admitted one is scheduled last with its repaired body |
| ProgressReporter.ProgressReporter.ReportTerminal | agent/src/reporting_agent/progress.py:449-544 | a terminal callback is always sent, with the body its fields build, ends the scheduling and leaves nothing pending |
| ProgressReporter.ProgressReporter.ReportVerification | agent/src/reporting_agent/progress.py:640-686 | two attempts with their own timeout, none without a sibling endpoint, and the reporter unchanged |
| ProgressReporter.ProgressReporter.Close | agent/src/reporting_agent/progress.py:546-560 | everything pending is cancelled |
| ProgressReporter.ReportAll | agent/src/reporting_agent/progress.py:389-447 | what any sequence of reports leaves scheduled: the bodies of the admitted ones, in order |
| DeliveryOrder.PostsFollowReports | agent/src/reporting_agent/progress.py:692-728 | for every interleaving no POST of a later-reported callback starts before the previous delivery is over, and none is posted more than twice |
| DeliveryOrder.TriedTwice | agent/src/reporting_agent/progress.py:730-788 | up to the cancelling, a delivery that is over was accepted or tried exactly twice, and one that is not has a POST in flight or to come |
| DeliveryOrder.TerminalIsTriedOn | agent/src/reporting_agent/progress.py:521-535 | the terminal callback is posted again exactly after the answers that ask for it and is over with the first that does not |
| DeliveryOrder.RequestsAreConserved | agent/src/reporting_agent/progress.py:546-560 | what was given up on or cancelled is on its way until the app handles it, once |
| DeliveryOrder.ClosingLeavesTheOneInFlight | agent/src/reporting_agent/progress.py:546-560 | at most one scheduled request is in flight, and cancelling leaves that one behind |
| DeliveryOrder.DeliveriesGoOn | agent/src/reporting_agent/progress.py:692-728 | a delivery that is not over can go on, and so can the terminal callback |
| DeliveryOrder.ProofIsStored | app/app/api/internal/runs/[runId]/progress/route.ts:193-215 | the endpoint sees the proof exactly from the moment it is stored |
| DeliveryOrder.RowNeverGoesBack | agent/src/reporting_agent/progress.py:389-447 | for every interleaving, late requests included, the row's phase never goes back |
| DeliveryOrder.CompletesExactlyWhen | agent/src/reporting_agent/progress.py:490-535 | for every interleaving, lost and late requests included, the row completes exactly when some POST that asks for it is handled at `collecting`, or at `verifying` with the proof stored, and that is the last phase it takes |
| DeliveryOrder.HopsAreSkippedExactlyWhen | app/lib/runs/state.ts:79-99 | a claimed run that completes passed through all phases of the document with its proof stored, or, found at `collecting`, through none of them |
| DeliveryOrder.AnsweredRunEnds | agent/src/reporting_agent/progress.py:490-535 | when every POST is answered, however late: the row stands at the phases reported up to some one and takes `completed` exactly there, so hops are skipped exactly when that is not the last reported |
| DeliveryOrder.PromptRunCompletes | agent/src/reporting_agent/progress.py:490-520 | when the terminal callback also waits its turn and the proof is stored before it, no hop is skipped and the run ends completed |
| DeliveryOrder.BudgetSkipsTheDocument | agent/src/reporting_agent/progress.py:507-519 | slow answers: the budget ends before `compiling` is sent and the run completes without document hops and proof |
| DeliveryOrder.LostCompilingSkipsTheProof | app/lib/runs/state.ts:84-94 | a lost `compiling`: the later phases are refused and the run completes without its proof |
| DeliveryOrder.ChainIsWhole | app/lib/runs/state.ts:79-99 | reporting along the chain up to `verifying` skips no hop |
| DeliveryOrder.ReportsAccumulate | agent/src/reporting_agent/progress.py:412-440 | reports only add to what was reported, and none follows the terminal callback |
| DocumentPhases.DeliveredIsReported | agent/src/reporting_agent/report_pipeline.py:1308-1409 | a delivered document was reported in exactly the three phases, in the order of the chain |
| WholeRun.ThrottleKeepsTheChain | agent/src/reporting_agent/progress.py:564-590 | the throttle drops refreshes but no link of the chain |
| WholeRun.SentIncludesEveryCall | agent/src/reporting_agent/progress.py:564-590 | every phase called is sent at least once |
| WholeRun.BuiltBodiesAreSound | agent/src/reporting_agent/progress.py:594-638 | an intermediate body passes the schema unless its label overflows |
| WholeRun.ScheduledAreTheSent | agent/src/reporting_agent/progress.py:420-447 | the scheduled bodies are sound and have the phases of the calls the throttle lets through |
| WholeRun.AnsweredAlongTheChain | agent/src/reporting_agent/progress.py:389-447 | reporting along the chain keeps every callback acceptable where it arrives |
| WholeRun.DeliveredIsDocumentRun | agent/src/reporting_agent/report_pipeline.py:1308-1409 | a run that collects and then delivers a document reports collecting and the three phases, in order |
| WholeRun.DocumentRunEnds | agent/src/reporting_agent/progress.py:490-535 | how an answered document run ends: completed exactly when a `completed` POST is handled at `verifying` with the proof stored, every sent phase passed, or at `collecting`, no phase of the document passed |
| WholeRun.DeliveredRunCompletes | agent/src/reporting_agent/progress.py:692-728 | when nothing is late either, it passes through collecting, compiling, rendering, verifying and completed, and nothing else |
| Heartbeat.Timestamps.Emit | agent/src/reporting_agent/heartbeat.py:159-171 | the rounded clock, held at the last timestamp if it went back |
| Heartbeat.RoundedIsNearest | agent/src/reporting_agent/heartbeat.py:159-171 | to the nearest millisecond, ties to even |
| Heartbeat.RunTicker | agent/src/reporting_agent/heartbeat.py:245-294 | the loop pushes what the schedule says |
| Heartbeat.HeartbeatsAreNotEarly | agent/src/reporting_agent/heartbeat.py:264-281 | under any clock the n-th heartbeat comes no earlier than n intervals after the start |
| Heartbeat.TimestampsNeverDecrease | agent/src/reporting_agent/heartbeat.py:143-171 | emitted timestamps never decrease, under any clock |
| Heartbeat.CatchUpIsBounded | agent/src/reporting_agent/heartbeat.py:264-281 | under a clock that does not go back at most three heartbeats are pushed at any one clock value |
| Heartbeat.DeadlineIsNear | agent/src/reporting_agent/heartbeat.py:264-281 | under any clock the deadline is never more than an interval past the last push |
| Heartbeat.GapsAreBounded | agent/src/reporting_agent/heartbeat.py:264-281 | with sleeps late by at most a tolerance no gap exceeds the interval plus it |
| Heartbeat.HeartbeatsDoNotDrift | agent/src/reporting_agent/heartbeat.py:264-281 | with sleeps late by less than an interval heartbeat n stays in the n-th interval from the start |
| Heartbeat.TolerancesHold | agent/src/reporting_agent/heartbeat.py:96-104 | the first heartbeat within 20 seconds, gaps below 30 |
| HeartbeatMerge.EveryItemInPlace | agent/src/reporting_agent/heartbeat.py:202-233 | for every scheduling each event and each heartbeat queued comes out once and in its place, up to and including the first `done` or up to the end of the source |
| HeartbeatMerge.MergeIsTransparent | agent/src/reporting_agent/heartbeat.py:174-242 | for every scheduling, ticker failures included, the output without heartbeats is the source up to its first `done` |
| HeartbeatMerge.NothingFollowsDone | agent/src/reporting_agent/heartbeat.py:223-233 | nothing follows `done`, not even a queued heartbeat |
| HeartbeatMerge.ExceptionComesLast | agent/src/reporting_agent/heartbeat.py:202-210 | without a `done`, the source's exception surfaces exactly when it raised and only after all its events |
| HeartbeatMerge.RaisesExactlyWhen | agent/src/reporting_agent/heartbeat.py:202-242 | with or without a `done`, the merge raises exactly when the pump had run into the exception by the end |
| HeartbeatMerge.RaisesAfterDone | agent/src/reporting_agent/heartbeat.py:223-242 | a schedule on which the exception surfaces after `done` |
| HeartbeatMerge.LosesTheException | agent/src/reporting_agent/heartbeat.py:223-242 | a schedule of the same source on which it does not |
| HeartbeatMerge.SomeScheduleRaises | agent/src/reporting_agent/heartbeat.py:202-242 | every source has a schedule to the end on which the merge raises exactly when the source does |
| HeartbeatMerge.SomeScheduleDoesNot | agent/src/reporting_agent/heartbeat.py:223-242 | every source with a `done` has one on which it does not |
| HeartbeatMerge.NeverStuck | agent/src/reporting_agent/heartbeat.py:202-228 | while the consumer reads, it or the pump can go on, and each such step leaves one less to do |
| HeartbeatMerge.InvocationComesThrough | agent/src/reporting_agent/main.py:1457-1587 | the router's stream comes through the merge whole, with `done` last and no exception |

## Left out

- Compare.MovedSections: section ids are taken to be unique within each version, as the editor keeps them; `sectionChanges` and the rest of `compareToLive` only look values up with `same`.
- CanonicalJson.SameIsEquivalence: `NaN`, infinities (printed as `null`), sparse arrays and objects with `toJSON` are outside the values modelled.
- Panels.PanelGroups: magnitudes are real numbers; floating-point division near the factor of ten is not modelled.
- Palette.HashKey: `splitForPlotting`, marker shapes and dash patterns are selections by index.
- StreamFrames.ReadLoop: `TextDecoder` and the network reader are left out; chunks are decoded text. `JSON.parse` is an arbitrary partial function.
- Reveal.Pacer.Drain: animation frames are counted, not timed; React state and the thinking timer are left out.
- Redaction.ScrubLeavesNoSecret: the exact condition is proved for one secret; for several, that none of them can straddle a placeholder suffices, and which texts a given pair leaks on is described (`AnotherCompletes`), but no exact condition on registries of any size is given. Log filters and exception rendering are left out.
- ActionsCsv.CsvRoundTrip: cells are sequences of characters; the seven-character cut of a period counts characters, not UTF-16 units.
- RunStream.TimelineFollowsTheStream: fields a JavaScript object inherits, such as an id `constructor` in the table of phase steps, are not modelled; reading the row anew, reconnecting and React wiring are left out.
- Invocation.EveryStreamIsGrammatical: a reader that stops reading (`GeneratorExit`, cancellation) is left out; a handler's `tool` and `progress` events are the tracker's; arguments of a wrong type are not modelled; error messages, `run_id` and the outcome fields of `done` are omitted.
- DocumentPhases.DocumentPhases: compiling, rendering, the gates, the styled copy and the store are arbitrary results; the step ids follow the tracker's counter, which the phases get as a number.
- CallbackBody.BodyParsesExactlyWhen: the schema's limit on integers beyond 2^53 and the token check of the endpoint are left out.
- RunRow.RowMovesForward: deadlines, the stored counts of a completed run and the race between reading and writing a row are left out; a POST is one step.
- TerminalDelivery.TerminalIsBounded: the time `wait_for` itself needs to cancel a request is taken to be none.
- ProgressReporter.ProgressReporter.Report: phase names outside the row's statuses are treated like `queued`: nothing is sent.
- DeliveryOrder.AnsweredRunEnds: the ordering budget and the re-send delays appear as steps without times; their bounds are in TerminalDelivery.
- Heartbeat.RunTicker: rounding to milliseconds is exact on a clock in microseconds; floating point is not modelled.
- HeartbeatMerge.MergeIsTransparent: cancellation of the merge by its own reader is left out.
- Authorization, session ids, configuration, network and SDK calls, rendering, React components, autosave and artifact keys are left out.
