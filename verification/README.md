# Verified model of the ozma agents and controller

Ozma lets a controller watch and drive other machines: it types and clicks on
them over the network, watches their screens and storage, raises alerts, and
enforces screen-time rules. This project models the parts of that system that
hold real logic and proves, for every input and every run, what they are meant
to guarantee, or exactly when they do not.

| file | component |
|---|---|
| `CapacityTrend.dfy` | the capacity estimator: least squares over an unbounded history |
| `HidTables.dfy`, `HidInjector.dfy`, `Controller.dfy`, `Typing.dfy`, `Pointer.dfy` | text, clicks and drags from the controller to key and mouse events on the target |
| `FrameDiff.dfy` | the screen difference that verifies an action |
| `Orchestrator.dfy`, `ReplacementProtocol.dfy`, `ReplacementOutcomes.dfy`, `ReplacementProgress.dfy`, `ReplacementLeds.dfy` | the drive replacement orchestrator, its protocol, what each step makes of its input, which workflows can still finish, its enclosure LEDs |
| `LockdownTimers.dfy`, `ProcessMonitor.dfy` | screen-time budgets; the process index and enforcement |
| `Alerts.dfy` | the alert registry |
| `ApprovalGate.dfy` | the approval gate in front of agent actions |
| `SpareStock.dfy` | spare-drive matching, reservations and field guides |
| `Options.dfy` | optional values, extensionality of integer sets, fresh strings, `Abs`, `Min`, `Max` |

Code that changes state is a class whose methods are proved against a pure step
function; what the system promises is then proved about every run of those
steps. Ghost sequences record the events, commands and reports a component
emits. A class of the source whose fields fall into independent parts (the agent
engine's input actions and its approval gate, the application monitor's timers
and its process index) is one class per part.

`dafny verify dfyconfig.toml` checks the whole project.

## What the model assumes

- Each public method, each sweep, each scan and each handler of the orchestrator
  is one atomic step. `execute` is two: asking for approval, and resuming; its
  timeout counts from the request.
- Clocks, sizes, scans, status output, the results of commands, random ids, the
  order in which Python goes through a set, and glob matching are parameters.
  Random ids never repeat. LED commands work and the enclosure list is fixed.
- Packets between controller and agent arrive, in order.
- Timestamps and quotients of the estimator are exact reals; pixel and HID
  arithmetic is exact integer arithmetic with Python's floor division and
  truncating `int()`; bytes are 0..255.
- Slots are found by going through the listed enclosures (`ListedSlots`, for the
  LED results). Device names are ordinary (`Plausible`): the agent builds the
  scanned paths itself as /dev/<name>, so none is empty, and a multipath device
  is /dev/mapper/<name> or /dev/multipath/<name>, so it is not one of its paths.
  Only the two clauses about names in `ReplaceIsSafe` rest on this.
- Updates of an alert change its metadata only.

## What turned out not to hold

Each of these is stated with the exact condition under which the code does what
one would expect; the code is modelled as it is.

- A click's modifiers are released before the mouse button goes down
  (`ClickModifierNeverHeld`), so that the click is the one asked for exactly when
  none were asked for (`ClickHoldsModifiersExactly`).
- The Windows injector releases modifiers last, so that a key pressed in the report
  that lets go of a modifier still goes down with it (`KeyDownUnderModifiers`).
- Past 32767 pixels of width two columns share an encoding (`EncodingInjective`);
  off the screen, columns are shown at column 0 or come round again on the other
  side (`OffscreenSnapsToZero`), so that a drag is seen to turn back exactly when
  the ends of an axis are on different turns of the 16-bit wire
  (`DragSeenOneWay`).
- The macOS injector ignores modifiers and knows few keys, so it shows a text
  faithfully exactly when the text needs neither (`MacTypingFaithful`).
- U+212A KELVIN SIGN lower-cases to `k` and is typed with Shift, as `K`; every
  other text arrives as it should, and only those (`TypingRoundTrip`).
- Growth rate and estimate can disagree on whether a pool fills up
  (`IndicatorsDisagree`); they agree exactly when the last usage is above the
  first just in case the sum over pairs of snapshots of (later - earlier time)
  times (later - earlier usage) is positive (`IndicatorsAgreeExactly`), and so
  whenever usage only rises or only falls (`MonotoneUsageAgrees`).
- Completing one replacement darkens the LEDs of another with the same slot index
  in any enclosure (`FinishSparesOthers`, `SharedIndexGoesDark`); a ZFS pool with
  "md" in its name gets the array tool (`ToolFitsKind`, `ZfsPoolGetsMdadm`); a
  workflow can still be finished exactly when its replace command did not fail
  (`FinishableExactly`, `FailedReplaceSticks`); one drive can go to two pools
  (`OneDriveTwoPools`), exactly when it is the first new drive for both
  (`SameDriveTakenTwice`).
- A restart refills a partly used budget at the next push (`RestartRefills`,
  `UsedMinutesComeBack`); a raised budget does not bring a second warning
  (`WarnedSinceConfigured`, `RaisedIsNotWarnedAgain`).
- A pid taken over by another program keeps the old name (`NamesAreCurrent`),
  under which it is judged (`TakenOverPidKeepsName`).
- The alert time to live counts from the start of an alert, not its resolution
  (`ResolvedStaysListed`).
- A replacement specification cannot be derived, but raises, when the drive is
  unknown and the chassis named is registered (`DeriveRaisesExactly`); an
  interface upgrade is suggested whether or not the bay supports it, and any form
  factor when the failed drive's is unknown (`UpgradeDoesNotFit`,
  `UnknownFormFactorDoesNotFit`, `SuggestionFitsBay`): a slot's guides fit its bay
  whatever is in stock exactly when the bay knows the derived interface, its
  upgrade and the failed drive's form factor (`EveryGuideFitsExactly`). The
  comment on specifications says the form factor matches exactly; the code, and
  the model, also accept 2.5in for 3.5in.

## Model

| member | source | states |
|---|---|---|
| CapacityTrend.CapacityTrendTracker.Save | agent/storage_admin.py:1029-1035 | saving drops exactly the snapshots of 90 days ago or older, keeps the others in order, and changes no estimate made from then on |
| CapacityTrend.CapacityTrendTracker.TakeSnapshot | agent/storage_admin.py:1037-1072 | each line that parses becomes a snapshot that says what the line said, in order and at one instant; then the history is pruned |
| CapacityTrend.PruningInvisible | agent/storage_admin.py:1029-1035 | pruning at save time never changes what a later query within 90 days sees |
| CapacityTrend.RetainedOrdered | agent/storage_admin.py:1033 | a time-ordered history stays time-ordered through pruning |
| CapacityTrend.SampledIs | agent/storage_admin.py:1047-1060 | a sampling, read back as lines, is the lines that parse |
| CapacityTrend.HistoryIs | agent/storage_admin.py:1074-1077 | a history holds, in order, exactly the snapshots of its own pool after the cutoff |
| CapacityTrend.EstimateIsOfLastWeek | agent/storage_admin.py:1079-1086 | an estimate is made from exactly the pool's own snapshots of the last seven days |
| CapacityTrend.OtherPoolsInvisible | agent/storage_admin.py:1074-1086 | adding or removing another pool's snapshot changes no history and no estimate |
| CapacityTrend.TwoSamplings | agent/storage_admin.py:1037-1112 | two samplings of two pools an hour apart give the one what it has left over what it took in that hour |
| CapacityTrend.SlopeIsLeastSquares | agent/storage_admin.py:1088-1102 | no line has a smaller sum of squared residuals than the one through the means with slope num/den, and any other line has a strictly larger one |
| CapacityTrend.DenominatorPositive | agent/storage_admin.py:1098-1100 | the denominator is positive exactly when two timestamps differ, so the division is guarded exactly |
| CapacityTrend.Chebyshev | agent/storage_admin.py:1097-1102 | time-ordered usage that never falls and is not constant has a positive numerator |
| CapacityTrend.ChebyshevDown | agent/storage_admin.py:1097-1102 | usage that never rises has a numerator that is not positive |
| CapacityTrend.EstimateFollowsBestLine | agent/storage_admin.py:1079-1112 | with two distinct timestamps the estimate is decided by, and computed from, any least-squares line |
| CapacityTrend.NoEstimateWithoutSpread | agent/storage_admin.py:1084-1100 | without two distinct timestamps there is no estimate |
| CapacityTrend.GrowingPoolFills | agent/storage_admin.py:1079-1112 | a pool whose usage never falls and is not constant gets a non-negative answer |
| CapacityTrend.ShrinkingPoolNeverFills | agent/storage_admin.py:1102-1104 | a pool whose usage never rises gets no answer |
| CapacityTrend.ExactLineIsBest | agent/storage_admin.py:1088-1102 | an exactly linear history of slope m is fitted with slope m |
| CapacityTrend.LinearPoolIsExact | agent/storage_admin.py:1079-1112 | an exactly linear history of positive slope m gives exactly avail/m |
| CapacityTrend.LinearGrowthRate | agent/storage_admin.py:1114-1124 | on an exactly linear history the growth rate is that slope, per day, in GiB |
| CapacityTrend.GrowthIsRise | agent/storage_admin.py:1114-1124 | on any history the growth rate times the days is the rise from the first to the last usage, in GiB |
| CapacityTrend.ShiftInvariant | agent/storage_admin.py:1088-1112 | shifting all timestamps changes no estimate |
| CapacityTrend.NumeratorIsPairSum | agent/storage_admin.py:1095-1097 | the numerator, times the number of points, is the sum over all pairs of (difference of times) times (difference of usages) |
| CapacityTrend.IndicatorsAgreeExactly | agent/storage_admin.py:1079-1124 | on every time-ordered history the two indicators agree exactly when the last usage is above the first just in case the pair sum is positive |
| CapacityTrend.MonotoneUsageAgrees | agent/storage_admin.py:1079-1124 | they agree on usage that only rises or only falls |
| CapacityTrend.IndicatorsDisagree | agent/storage_admin.py:1079-1124 | a history for which the growth rate and the estimate point in opposite directions |
| HidTables.TablesAgree | controller/agent_engine.py:99-112 | the controller types a character exactly as the reference US layout does |
| HidTables.UsCharInvertsUsStroke | agent/hid_injector.rs:55-126 | a key and shift state read back through the US layout are the character whose stroke they are, both ways |
| HidTables.VkToHidInvertsHidToVk | agent/ozma_desktop_agent.py:387-413 | the Windows keycode map is injective with the stated inverse |
| HidTables.VkIsAscii | agent/ozma_desktop_agent.py:387-393 | the virtual key of a letter or digit is its upper-case ASCII code |
| HidTables.MacToHidInvertsHidToMac | agent/ozma_desktop_agent.py:415-430 | the macOS keycode map is injective with the stated inverse |
| HidInjector.HidInjectorWindows.InjectKeyboard | agent/ozma_desktop_agent.py:159-221 | one report appends one batch: modifiers down, keys released, keys pressed, modifiers up |
| HidInjector.BatchRefines | agent/ozma_desktop_agent.py:178-221 | replaying a batch from the previous full state gives the next full state |
| HidInjector.WindowsRefinesFullState | agent/ozma_desktop_agent.py:159-221 | after any sequence of reports exactly the mapped keys and the modifiers of the last report are held |
| HidInjector.WindowsHoldsExactly | agent/ozma_desktop_agent.py:178-221 | after any reports exactly the mapped keys in bytes 2 to 7 of the last report and the modifiers whose bit its first byte has are held, key by key |
| HidInjector.KeyDownState | agent/ozma_desktop_agent.py:185-217 | when a new key goes down, the keys no longer held are up, and the modifiers of both reports are down |
| HidInjector.KeyDownUnderModifiers | agent/ozma_desktop_agent.py:185-217 | after any reports a key goes down under exactly its report's modifiers if and only if that report keeps all modifiers of the one before |
| HidInjector.HidInjectorMacOS.InjectKeyboard | agent/ozma_desktop_agent.py:304-317 | one report appends presses, then releases, of mapped keys |
| HidInjector.MacCodesSplit | agent/ozma_desktop_agent.py:304-317 | because the keycode map is injective, releasing after pressing touches no key that stays held |
| HidInjector.MacKeyDownState | agent/ozma_desktop_agent.py:304-317 | when a new key goes down on macOS, no key of the report before is up yet |
| HidInjector.MacRefinesFullState | agent/ozma_desktop_agent.py:304-317 | after any sequence of reports exactly the mapped keys of the last report are held |
| Controller.AgentEngine.SendKey | controller/agent_engine.py:584-587 | one stroke sends a press and at once an all-released report, byte by byte |
| Controller.AgentEngine.SendMouse | controller/agent_engine.py:553-556 | one packet of 7 bytes: type, buttons, no wheel, and on each axis two little-endian bytes that read as the scaled position modulo 65536 |
| Controller.AgentEngine.DoType | controller/agent_engine.py:803-822 | a text sends the packets of its typeable characters in order; the empty text fails and sends none |
| Controller.AgentEngine.DoMouseDrag | controller/agent_engine.py:889-913 | a drag sends move, press, the interpolated path and release |
| Controller.AgentEngine.DoClick | controller/agent_engine.py:747-801 | a click sends the modifier stroke, press and release as often as asked, and a release stroke; without a target it fails and sends none |
| Controller.DesktopSoftNode.OnPacket | agent/ozma_desktop_agent.py:1394-1403 | a packet of type 1 with at least 8 more bytes is injected as that report; anything else leaves the keyboard as it is |
| Typing.TypingRoundTrip | controller/agent_engine.py:803-822 | typing to packets to reports to Windows key events, read back with the modifiers held at each key-down, is the text less unsupported characters exactly when U+212A is not in it, and nothing stays held |
| Typing.NodeShowsText | agent/ozma_desktop_agent.py:1394-1403 | a node that received a text's packets has sent key events that read as the text |
| Typing.NoNewKeyIsSilent | agent/ozma_desktop_agent.py:178-221 | a report that presses no new key shows nothing, which is why each stroke is released |
| Typing.RenderedIsSupported | controller/agent_engine.py:811-819 | what is typed is the text with unsupported characters removed exactly when U+212A is not in it |
| Typing.MacTyping | agent/ozma_desktop_agent.py:304-317 | what a macOS node shows for every text |
| Typing.MacTypingFaithful | agent/ozma_desktop_agent.py:415-430 | macOS shows what Windows shows exactly when every supported character is unshifted and mapped |
| Pointer.PixelRoundTrip | agent/ozma_desktop_agent.py:319-330 | for widths up to 32767 a pixel x comes back as px with x-1 < px <= x |
| Pointer.EncodingInjective | controller/agent_engine.py:553-556 | no two columns share an encoding exactly when the width is at most 32767 |
| Pointer.WindowsRescale | agent/ozma_desktop_agent.py:249-258 | the rescale is strictly increasing on 0..32767, maps the ends to 0 and 65535 and rounds down |
| Pointer.OffscreenSnapsToZero | agent/ozma_desktop_agent.py:249-258 | for every column, on the screen or off it, and every width: which are shown at column 0 |
| Pointer.NearbySnapsToZero | agent/ozma_desktop_agent.py:249-258 | the same within two screens of column 0, without the wrap |
| Pointer.InterpolateMonotone | controller/agent_engine.py:905-908 | interpolation with floor division starts and ends exactly, stays between the ends and is monotone in either direction |
| Pointer.InterpolateStep | controller/agent_engine.py:905-908 | successive points of one axis differ by at most 11 |
| Pointer.DragPath | controller/agent_engine.py:889-913 | a drag path is monotone per axis, stays in its bounding box, ends at the target and moves at most 11 pixels per axis and step |
| Pointer.PointsFollowLine | controller/agent_engine.py:899-908 | a drag takes as many steps as ten-pixel stretches of both axes, at least ten, and each point is the point of the straight line, rounded down |
| Pointer.DragOnWindows | agent/ozma_desktop_agent.py:223-290 | for every drag: the button is down exactly from press to release, and an axis is monotone if its ends are on one turn of the wire |
| Pointer.OnScreenDragSeenOneWay | agent/ozma_desktop_agent.py:223-290 | for every screen a drag between two points on it is seen monotone on both axes |
| Pointer.DragSeenOneWay | agent/ozma_desktop_agent.py:223-290 | on screens of at least twelve pixels either way a drag is seen monotone on both axes exactly when the ends of each axis are on one turn |
| Pointer.ClickPlayed | controller/agent_engine.py:785-797 | a click sends three mouse packets each time, all at the target, with the button in the second of each three only; Windows plays them so |
| Pointer.ClickPresses | controller/agent_engine.py:785-797 | the button goes down as often as asked and is up in the end |
| Pointer.ClickReports | controller/agent_engine.py:777-801 | the keyboard gets the modifiers alone and then three empty reports, or nothing if there are no modifiers |
| Pointer.ClickModifierNeverHeld | controller/agent_engine.py:747-801 | no modifier is held at any mouse packet of a click |
| Pointer.ClickHoldsModifiersExactly | controller/agent_engine.py:747-801 | the modifiers held at a click's mouse packets are the ones asked for exactly when none were |
| FrameDiff.DiffFrames | controller/agent_engine.py:415-445 | the result is the reference difference: changed when at least 0.5% changed, regions the hot cells, sizes unequal means changed without regions |
| FrameDiff.DiffIsExact | controller/agent_engine.py:415-445 | the screen changed exactly when the sizes differ, the frame is empty or at least one pixel in two hundred differs by more than 15 on the average of its channels; reported are exactly the 64-pixel squares of which more than a tenth differs |
| FrameDiff.ScanGrid | controller/agent_engine.py:430-443 | the nested loops report exactly the hot cells in order |
| FrameDiff.CellsPartition | controller/agent_engine.py:433-436 | every pixel is in exactly one grid cell, for frames of any size |
| FrameDiff.CountConserved | controller/agent_engine.py:433-437 | the cells' counts add up to the mask's |
| FrameDiff.ReportedExactly | controller/agent_engine.py:436-443 | a region is reported exactly when it is a grid cell more than 10% changed |
| FrameDiff.RegionsInBoundsAndDisjoint | controller/agent_engine.py:438-443 | reported regions are inside the frame, not empty, and disjoint |
| FrameDiff.ReportedInOrder | controller/agent_engine.py:433-443 | regions are reported row by row, left to right, none twice |
| FrameDiff.CoverageBound | controller/agent_engine.py:423-445 | changed pixels outside every reported region are at most 10% of the frame |
| FrameDiff.LargeChangeIsLocated | controller/agent_engine.py:423-445 | a change of more than 10% is reported with at least one region |
| FrameDiff.DiffSymmetric | controller/agent_engine.py:415-445 | the difference does not depend on the order of the frames, and a frame does not differ from itself |
| Orchestrator.ReplacementOrchestrator.MonitorStep | agent/storage_manager.py:1423-1445 | one iteration observes pools, then arrays, then checks every workflow in insertion order |
| Orchestrator.ReplacementOrchestrator.HandleDegraded | agent/storage_manager.py:1449-1467 | the first failed part opens a workflow unless the pool has one |
| Orchestrator.ReplacementOrchestrator.IdentifyAndMark | agent/storage_manager.py:1509-1523 | a known serial found in a slot lights that slot's two LEDs |
| Orchestrator.ReplacementOrchestrator.CheckForNewDrive | agent/storage_manager.py:1525-1566 | the first drive that is no failed drive and no healthy member is taken |
| Orchestrator.ReplacementOrchestrator.BuildMultipathAndReplace | agent/storage_manager.py:1568-1607 | several paths go through a multipath device, and back to waiting if it cannot be built |
| Orchestrator.ReplacementOrchestrator.ValidateAndReplace | agent/storage_manager.py:1609-1648 | too small goes back to waiting; otherwise replaced, or held for approval |
| Orchestrator.ReplacementOrchestrator.ApproveReplacement | agent/storage_manager.py:1650-1656 | accepted exactly when a workflow is held, which is then replaced |
| Orchestrator.ReplacementOrchestrator.DoReplace | agent/storage_manager.py:1658-1680 | one command, then resilvering or degraded |
| Orchestrator.ReplacementOrchestrator.CompleteWorkflow | agent/storage_manager.py:1682-1692 | the slot index is darkened in every enclosure and the workflow removed |
| ReplacementOutcomes.OneIteration | agent/storage_manager.py:1423-1445 | an iteration that finds a degraded pool and a degraded array opens the pool's workflow, then the array's, then lets both look for a drive in that order |
| ReplacementOutcomes.OrderIsByOpening | agent/storage_manager.py:1423-1445 | over every run the workflows are listed once each, in the order in which they were opened |
| ReplacementOutcomes.OpensExactly | agent/storage_manager.py:1449-1467 | an observation opens a workflow exactly for a degraded pool without one and with a failed part, for the first such part and with its slot if its serial was found |
| ReplacementOutcomes.CompletesExactly | agent/storage_manager.py:1469-1478 | an observation completes a workflow exactly when the pool is not degraded, the workflow resilvers and no rebuild goes on; else it changes nothing |
| ReplacementOutcomes.NewDriveEnds | agent/storage_manager.py:1525-1680 | where the first new drive takes a waiting workflow: on waiting exactly when no multipath device can be built or the device is known to be smaller; else held, resilvering or failed, with that device |
| ReplacementOutcomes.LargeEnoughEndsWait | agent/storage_manager.py:1624-1648 | a new drive on one path that measures at least the failed capacity always ends the wait |
| ReplacementOutcomes.ApprovalEnds | agent/storage_manager.py:1650-1680 | an approval replaces the held drive by the path it was held with; the state tells whether the command worked |
| ReplacementProtocol.ProtocolFollowed | agent/storage_manager.py:1423-1692 | over every run each pool's log is accepted by an independent protocol automaton, each key holds its own pool's workflow, and a stored workflow is only waiting, held, resilvering or failed |
| ReplacementProtocol.ReplaceIsSafe | agent/storage_manager.py:1525-1680 | every replace command uses a non-empty path, for a serial other than the failed one, measured large enough when the failed capacity is known, and the multipath device built for it when the drive had several paths |
| ReplacementProtocol.RefusedIsTooSmall | agent/storage_manager.py:1615-1633 | over every run a device is refused for its size only if the failed capacity is known and the measured size is below it |
| ReplacementProtocol.TakesFirstNewDrive | agent/storage_manager.py:1525-1566 | a waiting workflow takes the first scanned drive that is no active failed drive and no healthy member, and none exactly when there is none |
| ReplacementProtocol.ReplacesAreSeparated | agent/storage_manager.py:1658-1692 | two replace commands for one pool have a completion between them |
| ReplacementProtocol.EachReplaceApproved | agent/storage_manager.py:1641-1656 | without automatic replacement each command directly follows an approval of its own |
| ReplacementProtocol.FailedReplaceIsFinal | agent/storage_manager.py:1670-1675 | no run changes or removes a workflow whose replace failed |
| ReplacementProgress.FinishableExactly | agent/storage_manager.py:1423-1692 | at a step boundary some further run removes a stored workflow exactly when its replace command did not fail |
| ReplacementProgress.StuckExactly | agent/storage_manager.py:1423-1692 | over every run a stored workflow is stuck exactly when its replace command failed |
| ReplacementProgress.FailedReplaceSticks | agent/storage_manager.py:1670-1675 | a run whose replace command fails and which no further run finishes |
| ReplacementProtocol.ToolFitsKind | agent/storage_manager.py:1663-1668 | the tool fits the subsystem exactly when "md" is in the name of arrays only |
| ReplacementProtocol.ZfsPoolGetsMdadm | agent/storage_manager.py:1663-1668 | a run in which a ZFS pool is replaced with the array tool |
| ReplacementProtocol.SameDriveTakenTwice | agent/storage_manager.py:1535-1544 | of two workflows that scan the same drives the second takes the drive the first took exactly when it is new to it and no earlier one is |
| ReplacementProtocol.OneDriveTwoPools | agent/storage_manager.py:1535-1566 | a run in which one drive is used for two pools |
| ReplacementLeds.NoLedLeaks | agent/storage_manager.py:1682-1692 | over every run each lit LED is at the slot index of some active workflow |
| ReplacementLeds.ExactlyMarkedAreLit | agent/storage_manager.py:1509-1523 | while no two active workflows share a slot index, exactly the marked slots of active workflows are lit |
| ReplacementLeds.OpeningLightsSlot | agent/storage_manager.py:1509-1523 | opening a workflow lights the two lamps of the failed part's slot, if its serial is known and found there, and no other |
| ReplacementLeds.FinishSparesOthers | agent/storage_manager.py:1682-1689 | completing a workflow leaves another's LEDs lit exactly when the slot indices differ |
| ReplacementLeds.SharedIndexGoesDark | agent/storage_manager.py:1682-1689 | a run in which the repair of one pool darkens the LEDs of another that still waits, in another enclosure |
| ReplacementLeds.LitAfterDarken | agent/storage_manager.py:1684-1689 | the completion loop clears that index in every listed enclosure and no other lamp |
| LockdownTimers.LockdownConfig.DecrementTimer | agent/app_monitor.py:192-197 | one minute less, not below zero |
| LockdownTimers.AppMonitor.ApplyConfig | agent/app_monitor.py:476-506 | a push merges budgets and countdowns timer by timer, in any order, and keeps warnings of timers still there |
| LockdownTimers.AppMonitor.TickTimers | agent/app_monitor.py:747-796 | a tick takes one minute from each active configured timer however many applications match, reports exactly the warnings and expiries, and kills exactly the known processes that use an expired timer |
| LockdownTimers.ClosedForm | agent/app_monitor.py:476-500 | the minutes left are the least, over the pushes since first sight or last raise, of the budget less the minutes used since, and not below zero |
| LockdownTimers.ExpiresWhenUsedUp | agent/app_monitor.py:762-785 | a tick kills a timer's applications exactly when some current push has nothing left after it |
| LockdownTimers.WarnedSinceConfigured | agent/app_monitor.py:501-504 | a timer counts as warned exactly if a tick warned about it and it stayed configured since |
| LockdownTimers.WarnsWhenLow | agent/app_monitor.py:786-794 | a tick warns exactly when at least one minute and no more than the configured warning time, or five, is left, and no warning was given since the timer was configured |
| LockdownTimers.RaisedIsNotWarnedAgain | agent/app_monitor.py:476-504 | a run in which a raised timer runs low again without a second warning |
| LockdownTimers.WarnsOnce | agent/app_monitor.py:786-794 | two warnings have a push between them that dropped the timer |
| LockdownTimers.RestartRefills | agent/app_monitor.py:199-215 | after a restart the next push is taken in full; this agrees with the session exactly when it is a raise or not above what was left |
| LockdownTimers.UsedMinutesComeBack | agent/app_monitor.py:199-215 | a session of one push and ticks after which a restart and the same push give back the used minutes |
| LockdownTimers.CountDownOne | agent/app_monitor.py:763-796 | the tick's loop over a set does not depend on its order |
| LockdownTimers.ActiveExactly | agent/app_monitor.py:747-761 | a timer is active exactly when a running name matches one of its patterns |
| LockdownTimers.KilledExactly | agent/app_monitor.py:768-785 | the processes killed are the known ones under a name that matches a pattern of a used-up timer |
| ProcessMonitor.AppMonitor.ScanProcesses | agent/app_monitor.py:594-660 | a scan handles exits, then launches with enforcement, the kiosk application, then everything already running |
| ProcessMonitor.AppMonitor.CheckAllowed | agent/app_monitor.py:151-178 | the policy loops decide exactly whether a name is allowed |
| ProcessMonitor.IndexIsInverse | agent/app_monitor.py:594-627 | after every run the name table is the inverse of the pid table, without empty entries, and the pids are the last snapshot's |
| ProcessMonitor.NamesAreCurrent | agent/app_monitor.py:598-622 | the names are the snapshot's exactly when no known pid changed its program |
| ProcessMonitor.TakenOverPidKeepsName | agent/app_monitor.py:598-622 | two scans between which a whitelisted pid is taken over by a forbidden program that is not killed |
| ProcessMonitor.LaunchesAndExitsAlternate | agent/app_monitor.py:605-627 | a pid's events alternate between a launch and the exit of the same name |
| ProcessMonitor.TimerKillsByName | agent/app_monitor.py:768-785 | after any run a used-up timer kills exactly the known processes whose own name matches it |
| ProcessMonitor.KillsAre | agent/app_monitor.py:629-682 | both enforcement passes of a scan block and kill the same processes for the same reason |
| ProcessMonitor.EnforcementIsExact | agent/app_monitor.py:629-682 | a scan kills precisely the known processes forbidden by schedule, break or policy, and none under an override |
| ProcessMonitor.ReasonIsFirst | agent/app_monitor.py:629-682 | the reason given is the schedule, else a break that is on, else the policy |
| ProcessMonitor.ScanEndsBreak | agent/app_monitor.py:636-643 | a break ends exactly when a scan with a launch finds its time past, with enforcement on, not overridden and not schedule-locked |
| ProcessMonitor.BreakIsEnforced | agent/app_monitor.py:814-826 | starting a break kills every known process, and every scan until it is over kills all it finds, unless off or overridden |
| ProcessMonitor.KioskRestartExactly | agent/app_monitor.py:655-719 | the kiosk application is restarted exactly in kiosk mode, with the schedule not locked, when no known process matches it |
| ProcessMonitor.ScanInStages | agent/app_monitor.py:605-657 | in a scan all exits come before all launches, and those before a kiosk restart |
| Alerts.AlertManager.CreateAlert | controller/alerts.py:149-199 | a new alert is registered, announced and returned unless a matching active one is recent |
| Alerts.CreatesExactly | controller/alerts.py:168-195 | a create is suppressed exactly with a debounce key and an active alert of the same kind and camera that is younger than the debounce time; else the alert is listed last |
| Alerts.DebounceSeparates | controller/alerts.py:168-178 | over every run of debounced creates two active alerts of one kind and camera are at least the debounce time apart, if updates leave cameras alone |
| Alerts.AlertManager.AcknowledgeAlert | controller/alerts.py:209-220 | only an active alert changes; its callback is taken out and started |
| Alerts.AlertManager.DismissAlert | controller/alerts.py:222-230 | only an active alert changes |
| Alerts.AlertManager.UpdateAlert | controller/alerts.py:232-244 | true exactly for an active alert, which is enriched and announced |
| Alerts.CallChangesOne | controller/alerts.py:209-244 | a call on an active alert acknowledges it, dismisses it or changes its metadata, touches no other, and pushes the event that says so |
| Alerts.CallWithoutEffect | controller/alerts.py:209-244 | a call on anything but an active alert changes nothing |
| Alerts.AlertManager.ExpireSweep | controller/alerts.py:319-332 | the two loops expire what timed out and drop what is stale |
| Alerts.MostRecentActive | controller/alerts.py:261-267 | the active alert, of the kind asked for if one is, that started last, the first of several, or none |
| Alerts.AlertLifecycle | controller/alerts.py:149-244 | an alert's events are its creation, updates, then at most one resolution; it is open exactly while it is listed active |
| Alerts.CallbackRunsOnce | controller/alerts.py:201-220 | the callbacks started are exactly those due: at most one, at the acknowledgement, the last registered |
| Alerts.LegacyStreamMirrors | controller/alerts.py:281-286 | the legacy events are the doorbell events, renamed |
| Alerts.DoorbellStory | controller/alerts.py:50-56 | a doorbell that rings, is recognised and is answered, dismissed or left alone, under its legacy names |
| Alerts.SweepGuarantee | controller/alerts.py:319-332 | after a sweep no alert is active past its timeout, none resolved is older than 300 s, and no active alert is lost |
| Alerts.TimeoutZeroSurvives | controller/alerts.py:322-324 | an alert without timeout survives any run of calls and sweeps that do not act on it |
| Alerts.ResolvedStaysListed | controller/alerts.py:329-332 | an alert that was acknowledged or dismissed, or that the sweep expires, stays listed exactly when it started at most 300 s ago |
| Alerts.StaleIdsExactly | controller/alerts.py:329-332 | dropping by id drops exactly the stale alerts |
| ApprovalGate.AgentEngine.SetApprovalConfig | controller/agent_engine.py:204-208 | valid modes are set, others ignored |
| ApprovalGate.AgentEngine.ApproveAction | controller/agent_engine.py:226-233 | true exactly when the action is pending, which is then decided |
| ApprovalGate.AgentEngine.RejectAction | controller/agent_engine.py:235-242 | true exactly when the action is pending, which is then decided |
| ApprovalGate.AgentEngine.BeginExecute | controller/agent_engine.py:277-293 | an action is queued exactly in approve mode |
| ApprovalGate.AgentEngine.ResumeExecute | controller/agent_engine.py:294-303 | once the wait ends the action leaves the queue and runs exactly when approved |
| ApprovalGate.GateHolds | controller/agent_engine.py:226-303 | over every run each gated action is asked for, decided any number of times and closed once, in keeping with the last decision |
| ApprovalGate.StartsOnlyIfApproved | controller/agent_engine.py:294-303 | an action starts only if it was asked for on that node and the last decision before was an approval |
| ApprovalGate.RefusedOnlyIfNotApproved | controller/agent_engine.py:300-303 | it is refused only after a rejection or no decision |
| ApprovalGate.ResumesAsCalled | controller/agent_engine.py:226-303 | a pending action starts exactly when the last approve or reject call since it was asked for is an approval, is refused when that is a rejection, and without either waits 120 seconds and is then refused |
| ApprovalGate.NothingAfterClosing | controller/agent_engine.py:226-242 | late decisions have no effect and no action starts twice |
| ApprovalGate.GatedExactly | controller/agent_engine.py:204-220 | an action waits exactly when approve was the last valid mode set for it; else it runs at once, and is announced exactly in notify mode, the default for what changes an attended node |
| ApprovalGate.UndecidedWaits | controller/agent_engine.py:294-303 | an undecided action waits for the timeout and is then refused |
| SpareStock.ChassisDatabase.AddToInventory | agent/chassis_db.py:596-598 | an entry is added, or replaced in place |
| SpareStock.ChassisDatabase.ReserveForReplacement | agent/chassis_db.py:623-629 | true exactly when the entry exists and is free, which is then reserved |
| SpareStock.ChassisDatabase.UnreserveItem | agent/chassis_db.py:631-637 | the reservation of a known entry is cleared |
| SpareStock.InventoryIsDictionary | agent/chassis_db.py:596-637 | each call changes the entry under its own id, as it should, and no other |
| SpareStock.InventoryOrder | agent/chassis_db.py:596-637 | entries keep their places; a new one goes last |
| SpareStock.ChassisDatabase.FindMatchingInventory | agent/chassis_db.py:639-657 | the filter loop and the sort give the stably sorted candidates, of all items or of the unreserved ones |
| SpareStock.ChassisDatabase.BuildFieldGuide | agent/chassis_db.py:724-777 | the first five matches for the derived specification, none, or the exception |
| SpareStock.StableSortIsUnique | agent/chassis_db.py:653-656 | a sorted sequence that keeps the order within equal keys is unique, so the model's sort is any stable sort |
| SpareStock.StableSortKeepsOrder | agent/chassis_db.py:653-656 | the sort keeps the order within equal keys |
| SpareStock.SuggestionsAreFirstFive | agent/chassis_db.py:753-771 | a guide lists the first five of a sorted permutation of the candidates |
| SpareStock.CandidatesAre | agent/chassis_db.py:647-650 | the candidates are exactly the matching items, or the unreserved of them, each as often as in stock |
| SpareStock.FoundExactly | agent/chassis_db.py:639-657 | a search finds exactly the items at least as large and as fast as asked, with the interface or its upgrade and a form factor that will do, of all or of the unreserved ones, each as often as it is in stock |
| SpareStock.SuggestedExactly | agent/chassis_db.py:243-257 | a guide suggests only free items at least as large and as fast as the failed drive, with the derived interface or its upgrade and a form factor that will do, and all of those unless five are listed |
| SpareStock.ListedByCondition | agent/chassis_db.py:651-657 | new items come first, then refurbished, then tested used ones, then others; the smaller first in each |
| SpareStock.NoneBetterLeftOut | agent/chassis_db.py:753-771 | no unlisted match is strictly better than a listed one, and one is unlisted only if five are listed |
| SpareStock.SmallerFirst | agent/chassis_db.py:645-657 | of two free drives of one kind and condition that match, the larger is never suggested without the smaller |
| SpareStock.ReservedUntilReleased | agent/chassis_db.py:623-657 | a reservation stands, and its item is in no guide, until it is unreserved or its entry replaced |
| SpareStock.DerivedInterfaceSupported | agent/chassis_db.py:708-720 | the derived interface is one the bay supports: the drive's own, else NVMe, SAS3, SAS2, SATA3 or SATA2, the first listed, else the first of any |
| SpareStock.DerivedForDrive | agent/chassis_db.py:676-706 | the specification is that of the first slot that holds the drive, and of the bay at that slot of its chassis's model |
| SpareStock.DerivedSpecAccepted | agent/chassis_db.py:688-718 | when the bay accepts the specification derived for it |
| SpareStock.SuggestionFitsBay | agent/chassis_db.py:66-75 | when a suggested item goes into the failed drive's bay: the bay lists its interface, if known, and takes the failed drive's known form factor or the item's own |
| SpareStock.EveryGuideFitsExactly | agent/chassis_db.py:243-257 | a slot's guides fit its bay for every stock exactly when the bay lists the derived interface and its upgrade and takes the failed drive's known form factor |
| SpareStock.UnknownFormFactorDoesNotFit | agent/chassis_db.py:243-257 | a guide that suggests a 3.5in drive for a 2.5in bay because the failed drive's form factor is unknown |
| SpareStock.UpgradeDoesNotFit | agent/chassis_db.py:243-257 | a guide that suggests a SAS3 drive for a bay that lists only SAS2 |
| SpareStock.DeriveRaisesExactly | agent/chassis_db.py:661-690 | the exception occurs exactly when the drive is in no chassis and the caller names a registered one |

## Left out

- The map built by inserts in `build_us_layout` and the other layouts of hid_injector.rs: `UsStroke` is the finished US map.
- Other key actions (`_do_key`, `_do_hotkey`, scroll), the Linux and stub injectors, and the evdev branches of the controller: device writes or one-line packets.
- Mouse buttons other than left on the target, and the timing between packets.
- Rounding of `change_pct` and of floating-point quotients.
- Notifications, timestamps and error texts of replacement workflows; the log has its own entries for what happened.
- Approvals that arrive inside `_validate_and_replace` between setting the state and reading the capacity.
- Which members count as healthy (`_is_existing_pool_member`) and every status parser: their answers are parameters, and the capacity of a ZFS vdev, which no parser fills, is one of them.
- The break warning and the usage report of the timer loop, the schedule loop's lock, and kiosk respawning beyond its event.
- DragSeenOneWay: does not cover screens narrower or lower than twelve pixels, where one step of a drag can pass half a turn; `DragOnWindows` does.
- ClosedForm: does not cover negative budgets, which the next tick raises to zero.
- PruningInvisible: is about queries of at most 90 days; the code itself only asks for 7.
- How timer patterns are filled, which nothing in app_monitor.py does, and the exhausted-timer branches of enforcement, which need a timer id that `is_allowed` never returns.
- Delivery of alerts to phones and notifiers, and updates that overwrite an alert's state or start.
- Actions behind the gate other than typing, clicking and dragging.
- Registering, updating and unregistering chassis one by one: `Rehoused` replaces them all; prose, slot maps and persistence of the database.
- Aliasing of inventory items, slots, alerts, workflows and pending actions: they are values in the fields that hold them.
- A reservation's text: it is the pair of chassis and slot.
