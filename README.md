# Robot state selectors, modelled in Dafny

This project models the robot selectors of the laboratory-robot control app
(`app/src/robot/selectors.js`). These are pure functions from a snapshot of the
app's `robot` state to the values the UI shows:

- the connection status and the discovered-robot list;
- the session-status predicates;
- the protocol's command tree, annotated with which command is current;
- run progress as a percentage of handled leaf commands;
- elapsed run time as `HH:MM:SS`;
- one calibration record per instrument mount, and the mount to calibrate with;
- one record per deck slot, with the unconfirmed, next and confirmed derivations.

Every selector is a Dafny function of the `RobotState.State` snapshot, plus `axes` or `slots` where the source reads `INSTRUMENT_AXES` or `DECK_SLOTS`; `Instruments.CalibratorMount` and `RunProgress.RunProgress` take the derived instrument records and annotated tree instead. The lemmas beside the selectors state what the selectors promise.

Modules, one per concern of the source file:

- `Wrappers`: `Option`.
- `RobotState`: the `calibration`, `connection` and `session` slices, and JavaScript truthiness for nullable strings, numbers and booleans.
- `Sequences`: `filter` and `find` over sequences, and order-preserving subsequences.
- `Connection`, `Session`, `Commands`, `RunProgress`, `RunTime`, `Instruments`, `Labware`: the selectors.

Modelling decisions:

- `INSTRUMENT_AXES` and `DECK_SLOTS` come from a constants file that is not part of this model. They are parameters (`axes`, `slots`) of the selectors that use them.
- The phase constants are the `CalibrationPhase` datatype. `UNCONFIRMED` is the string `"unconfirmed"`.
- Truthiness is kept exactly where the code tests it:
  - `traverseCommands` treats a command as handled when `handledAt != null`;
  - `countLeaves` and `getRunTime` test `handledAt`, `runTime` and the start time for truthiness;
  - so a timestamp of `0` counts as handled when the current command is found, but not when progress or elapsed time is computed.
- Strings are truthy when non-empty, so an empty `connectedTo` means no target, an empty instrument `name` means no instrument and an empty `type` means untyped labware. An empty labware status string falls back to `UNCONFIRMED`.
- The lookup `commandsById[id]` throws in JavaScript when the id is missing. `GetCommands` therefore requires that every id, child ids included, is a key of the map, and that the child links have no cycle (`Commands.CommandsResolve`). That condition is stated as "every chain of child links ends within `|protocolCommandsById|` steps".

## Model

| member | source | states |
|---|---|---|
| Connection.GetDiscovered | app/src/robot/selectors.js:44-52 | one entry per discovered name, in order; it is connected exactly when it is the connection target; its metadata is the name's entry, or empty when there is none |
| Connection.AtMostOneConnected | app/src/robot/selectors.js:48-51 | with distinct discovered names, no two entries are both marked connected |
| Connection.GetConnectionStatus | app/src/robot/selectors.js:54-65 | first-match rules, each as an iff: connecting iff no target and a connect in progress; connected iff a target and no disconnect; disconnecting iff a target and a disconnect; disconnected iff no target and no connect |
| Connection.ConnectionStatusIgnoresIrrelevantFlag | app/src/robot/selectors.js:58-64 | the status depends only on whether there is a target, and then only on the disconnect flag (with a target) or the connect flag (without one) |
| Session.GetSessionIsLoaded | app/src/robot/selectors.js:79-81 | a session is loaded iff its status is not the empty status, i.e. it is one of loaded, running, paused, error, finished or stopped |
| Session.GetIsReadyToRun | app/src/robot/selectors.js:83-85 | ready to run implies a loaded session that is neither running nor done |
| Session.GetIsRunning | app/src/robot/selectors.js:87-94 | running implies loaded and not done |
| Session.GetIsPaused | app/src/robot/selectors.js:96-98 | paused implies running |
| Session.GetIsDone | app/src/robot/selectors.js:100-108 | done implies loaded |
| Session.SessionPhasesPartition | app/src/robot/selectors.js:79-108 | a session is loaded iff it is ready, running or done, and it is never in two of these at once |
| Commands.GetCommands | app/src/robot/selectors.js:133-137 | the annotated tree mirrors the stored commands and every node follows the current/last rule, with the roots under a current parent |
| Commands.MapIdToCommand | app/src/robot/selectors.js:112-130 | the annotated command keeps the stored id, description and `handledAt`; it is current iff its parent is current, it is handled (`handledAt != null`), and it is the last sibling or its next sibling is unhandled; it is last iff it is current and has no children; its children mirror the stored children and follow the same rule under it |
| Commands.TraverseCommands | app/src/robot/selectors.js:111-131 | the annotated list has the input's ids in order, with their descriptions, `handledAt` values and child structure at every depth, and every node at every depth follows the current/last rule |
| Commands.NotCurrentParentIsInert | app/src/robot/selectors.js:115-128 | below a node that is not current, nothing is current or last, so every current command's parent is current (the current commands are closed upward) |
| Commands.AtMostOneActiveLeaf | app/src/robot/selectors.js:111-131 | when each sibling list is handled in order (handled siblings first), at most one node of the annotated tree is flagged last |
| Commands.CommandsHaveAtMostOneActiveLeaf | app/src/robot/selectors.js:133-137 | the same at-most-one-active-leaf property for the session's whole command tree |
| RunProgress.CountLeaves | app/src/robot/selectors.js:146-157 | one `countLeaves` step adds to the accumulator the number of handled (truthy `handledAt`) leaves and the number of leaves of the command's subtree, taken from an independent depth-first leaf list; internal nodes add nothing themselves |
| RunProgress.ReduceLeaves | app/src/robot/selectors.js:142-157 | the `reduce` fold over a sibling list adds exactly the forest's handled-leaf and leaf counts, taken from the same independent leaf list |
| RunProgress.RunProgress | app/src/robot/selectors.js:141-145 | the result lies in [0, 100]; it is 0 when there are no leaves, otherwise handled/total·100; it is 100 iff there are leaves and all are handled |
| RunProgress.GetRunProgress | app/src/robot/selectors.js:139-159 | the session's progress lies in [0, 100] and is 0 when there are no commands |
| RunProgress.HalfOfTwoLeaves | app/src/robot/selectors.js:139-159 | two top-level leaves, the first handled at a non-zero time and the second unhandled, give 50 |
| RunTime.NatToString | app/src/robot/selectors.js:179-181 | the decimal text of `n` consists of digits, reads back as `n`, has no leading zero, and has one digit iff `n < 10` and at most two when `n < 100` |
| RunTime.PadStart | app/src/robot/selectors.js:179-181 | left padding: the result is at least the requested width, ends with the input, and every added character is the fill |
| RunTime.PadStartValue | app/src/robot/selectors.js:179-181 | zero-padding keeps a digit string's numeric value |
| RunTime.GetStartTime | app/src/robot/selectors.js:163-168 | the start time is the first top-level command's `handledAt`, or none when there are no commands |
| RunTime.RunTimeSeconds | app/src/robot/selectors.js:175-177 | zero unless both times are truthy and the run time is after the start; otherwise the number of whole seconds elapsed, rounded down |
| RunTime.FormatRunTime | app/src/robot/selectors.js:179-183 | the result reads `H:MM:SS` with at least two hour digits, and hours are zero-padded only up to two digits (the text is 8 characters or starts with a non-zero digit); minutes and seconds are below 60; 3600·H + 60·M + S is the given number of seconds |
| RunTime.GetRunTime | app/src/robot/selectors.js:170-185 | the session's run time as clock text, with hours zero-padded only up to two digits, whose fields add up to 0 before the run has a measurable length, and otherwise to the elapsed whole seconds |
| RunTime.FormatZero | app/src/robot/selectors.js:175-183 | no elapsed time reads `00:00:00` |
| RunTime.FormatOneHourOneMinuteOneSecond | app/src/robot/selectors.js:175-183 | 3 661 000 ms after the start reads `01:01:01` |
| Instruments.CalibrationPhaseOf | app/src/robot/selectors.js:200-213 | the phase leaves unprobed iff the request is for this mount, has no error and is a move-to-front or probe-tip request; preparing/probing iff also in progress; preparing/ready iff move-to-front; probing/probed iff probe-tip |
| Instruments.GetInstruments | app/src/robot/selectors.js:191-222 | exactly one record per mount, in order; a bare `{axis}` record iff the mount has no instrument or an unnamed one; otherwise the instrument with the request's phase and `probed` defaulting to false |
| Instruments.OnlyRequestedMountCalibrates | app/src/robot/selectors.js:203-213 | with distinct mounts, at most one record has a phase other than unprobed |
| Instruments.CalibratorMount | app/src/robot/selectors.js:228-235 | the axis of the first single-channel record if there is one; else that of the first multi-channel record; else the empty string |
| Instruments.GetCalibratorMount | app/src/robot/selectors.js:226-236 | the result is empty, or the axis of a named instrument with at least one channel on one of the mounts |
| Instruments.GetInstrumentsCalibrated | app/src/robot/selectors.js:238-241 | true iff every mount holding a named instrument is marked probed |
| Labware.GetLabware | app/src/robot/selectors.js:247-265 | exactly one record per slot, in order; a bare `{slot}` record iff the slot is empty; otherwise the labware with a status that defaults to `UNCONFIRMED` and a `confirmed` flag that defaults to false |
| Labware.GetUnconfirmedLabware | app/src/robot/selectors.js:271-274 | an order-preserving subsequence of the slot records, holding every typed, unconfirmed record and nothing else, each as many times as it occurs among the slot records |
| Labware.GetUnconfirmedTipracks | app/src/robot/selectors.js:276-279 | an order-preserving subsequence of the unconfirmed labware and of all records, equal to filtering the records by "unconfirmed tiprack" directly |
| Labware.GetNextLabware | app/src/robot/selectors.js:281-285 | the first unconfirmed tiprack in slot order if any; else the first unconfirmed labware; else none |
| Labware.GetTipracksConfirmed | app/src/robot/selectors.js:287-290 | true iff no slot record is an unconfirmed tiprack |
| Labware.GetLabwareConfirmed | app/src/robot/selectors.js:292-295 | true iff every slot holding typed labware is marked confirmed (vacuously true when there is none) |
| Labware.ConfirmationOrder | app/src/robot/selectors.js:281-295 | all labware confirmed implies all tipracks confirmed; there is no next labware iff all labware is confirmed; a next labware is always unconfirmed |
| Sequences.Filter | app/src/robot/selectors.js:271-279 | `filter` keeps an order-preserving subsequence: every element satisfying the test and only those, each exactly as often as it occurs in the input; its first element is the first in the input that satisfies the test |
| Sequences.FilterFilter | app/src/robot/selectors.js:276-279 | filtering twice equals filtering once by the conjunction of the two tests |
| Sequences.SubsequenceTransitive | app/src/robot/selectors.js:271-279 | a subsequence of a subsequence is a subsequence |
| Sequences.FindFirst | app/src/robot/selectors.js:229-230 | the `findIndex` search behind the two `find` calls: the first index whose element passes the test, or nothing when none does |

## Left out

- Memoization: the `createSelector` cache is library behaviour. Every selector is a plain function of the snapshot, so "the same snapshot gives the same result" holds trivially.
- Trivial field accessors are not modelled as separate members. Their fields exist in `RobotState` and are read by projection. The accessors are `getIsScanning`, `getUploadInProgress`, `getUploadError`, `getSessionName`, `getInstrumentsByAxis`, `getLabwareBySlot`, `getDeckPopulated`, `getJogInProgress`, `getOffsetUpdateInProgress` and `getJogDistance`.
- Floating point: run progress is an exact `real`, so rounding of `handled / total * 100` is not modelled. Timestamps are integers, so fractional milliseconds, `NaN` and infinities are not modelled.
- `padStart` and template-literal number formatting are re-specified as `PadStart` and `NatToString` for natural numbers, which are the only values formatted here. The lodash library itself is not part of this model.
- The values of `INSTRUMENT_AXES`, `DECK_SLOTS` and the phase and status constants are not part of this model. The first two are parameters. The rest are datatype constructors, plus the string `"unconfirmed"`.
- Object spread is modelled as keeping the whole stored record: the instrument with its `axis`, `name` and `channels`, and the labware with its `slot`, `type` and `isTiprack`. Other fields of those objects are not modelled. Discovered-robot metadata is an opaque string map.
- Calibration request types other than `MOVE_TO_FRONT` and `PROBE_TIP` are folded into one `OtherRequest` value. A request's error is modelled only as present or absent.
- A command map with a missing id or a cycle would throw or recurse forever in the source. `GetCommands` and the selectors built on it require a well-formed map instead of modelling that failure.
- Commands.AtMostOneActiveLeaf: the at-most-one property is proved only for trees whose sibling lists are handled in order. The source does not enforce that order, and an out-of-order list can have several current siblings.
- Instruments.GetCalibratorMount: states only that the result is empty or the axis of a named instrument with at least one channel. The full first-single-then-first-multi preference is stated on `Instruments.CalibratorMount`, over the instrument records.
- RunProgress.GetRunProgress: states only the bounds and the empty case. The exact handled/total ratio is stated on `RunProgress.RunProgress`, over the annotated tree.
