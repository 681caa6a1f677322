# automateLinux: verified models of its stateful cores

This project models the stateful parts of the automateLinux daemon and of its file-size
utility, and proves what they promise over whole runs.

* **Input macro engine** (`daemon/src/InputMapper.cpp`, `daemon/include/InputMapper.h`). Every key
  event passes through context tracking, G-key detection, the macro stage and final emission. The
  macro stage advances all combos of the active app in parallel; combos withhold events in one
  shared registry. A combo that completes swallows what it withholds; one that gives up replays it,
  except for codes that another combo still withholds. `InputEvents`, `Suppression`, `MacroEngine`
  and `Pipeline` hold the specification of one event and of whole runs; `EngineInvariant`,
  `StateInvariant`, `EventOrder`, `RunOrder`, `EventOrigin`, `EmergencyUngrab`, `LostEvents`,
  `Forwarding`, `StuckKeys`, `StrayKeys`, `ComboHistory`, `ComboFirings`, `GKeys`, `GKeyRuns` and
  `MapperRuns` prove what holds of every run; `Suppression.SuppressionRegistry` and
  `InputMapping.InputMapper` are the two classes with the fields and loops of the original, each
  method proved equal to its step of the specification. `ShippedMacros` has the default macro
  tables.
* **Gitignore-aware scan** (`utilities/fileSize`). `Gitignore` and `DirectoryScan` specify the
  recursive scan with its one global, never-popped pattern list and a scan with properly scoped
  lists, and prove that they agree; `VisibleFiles` says what is counted without any order of
  visiting; `IgnoreSyntax` says what a .gitignore stands for and `RepositoryScopes` what a
  repository changes; `FileScanner` is the scanner with its global arrays and loops.
* **Shared directory history** (`daemon/src/terminal.cpp`, `TerminalTable`). `DirHistory`,
  `DirNavigation`, `DirSharing` and `DirRuns` specify the tables, the commands, what runs of
  commands keep and what one tty does to the others; `Terminals` is the class that updates rows and
  scans indices.
* **Smaller cores.** `Ports` (port allocation for extra apps), `Framing` (cutting socket reads into
  lines), `RateLimit` (the gate before simulated input) and `Peers` (the leader's peer registry).

`Collections` holds a few helpers they share. Each class is tied to a specification function by its
`ensures` clauses, which give the whole new state; the theorems are about those functions and about
runs of them.

## Conventions and findings

* Each event carries an `arrival` number that no branch looks at. It is what makes "not duplicated,
  not reordered" sayable. The output is a log: forwarded and replayed events, releases on a context
  change, and fired actions. `history` is a log of what reached the macro stage.
* An event is processed with one clock value, and a context change is atomic. Whether the keyboard
  becomes idle in time when the devices are grabbed again is a parameter (`idle`).
* `flushAndResetState` replays without asking whether a code is still blocked
  (daemon/src/InputMapper.cpp:1027-1030). It keeps order on a code exactly when a single combo
  withholds that code (`FlushKeepsOrderIff`), and can write one press twice
  (`FlushCanDuplicate`). The order theorem therefore allows resyncs only while no code is shared.
* A macro reload clears progress but not the registry (daemon/src/InputMapper.cpp:303). The two stay
  in agreement exactly when nothing is withheld (`ReloadKeepsInvIff`), so runs reload only then.
* Withheld events can be lost. When the last combo that withholds an event lets go of it by timeout,
  NumLock or a break, the event is written exactly when no other combo withholds its code at that
  moment (`WrittenIffAlone`); otherwise it is never written. If that combo completes, or the context
  changes, it is never written either (`SwallowedForGood`, `DroppedOnContextChange`). `PressIsLost`
  has four key events after which the repeat and the release of a key are written but never its
  press.
* A trigger step that expects a key release can leave that key down on the virtual device: if it
  withholds the release (`ReleaseStepSticks`), or if it follows a step that withholds the press
  (`TakenReleaseSticks`). `NoKeySticks` assumes that no step does either; the shipped macros do not.
  It compares with the input of the macro stage: the macros then make no key stick.
* A key can still be stranded before the macro stage: left down outside without counting as pressed, so
  that no context change releases it. That happens exactly to the keys held when Pause or the third
  ScrollLock gives the devices back (`GivingBackStrandsIff`, `PauseStrands`), to a digit whose release
  is taken for a G-key (`DigitStrandsFromStart`), and to NumLock turned off while the devices are
  grabbed (`NumLockOffStrands`). `StrayKeysWereStranded` says that there is no other way, and
  `DownMeansPressed` that without them every key down outside counts as pressed.
* A virtual G-key has no release of its own: it stays down outside and goes on counting as pressed, so
  that a grab fails until the next context change (`VirtualKeyStays`).
* A doubled first Ctrl press makes the mapper miss a G-key (`StutterIsMissed`): a wrong press resets
  the automaton without counting as a beginning. `DetectedIff` has the exact condition.
* The comments at daemon/src/InputMapper.cpp:654 and 672 say that Pause and the third ScrollLock press
  pass through. The code switches to monitoring before the test at line 615, so neither is written
  (`PauseIsSwallowed`, `ThirdScrollLockIsSwallowed`). `ReachesMacrosIff` says exactly which events
  reach the macro stage.
* A key press that turns NumLock off never grabs the devices again: the grab waits until no key counts
  as pressed (daemon/src/InputMapper.cpp:520-524), and NumLock itself does. Once given back, the
  devices stay so until somebody asks for a grab (`OnlyRegrabEndsMonitoring`, `NumLockOnAndOff`).
* The comment at utilities/fileSize/src/scanner.c:88-91 admits that real patterns are scoped.
  `GlobalListIsScoped` proves that the global list decides every path as scoped lists would, as long
  as the patterns fit the table of 5000. A pattern that does not fit is dropped silently
  (`NoPatternDroppedIff`), and that can change the total (`FullTableMiscounts`).
* A .gitignore line of more than 511 characters is read in pieces, each of which counts as a line
  (`SeparatedIffShort`).
* Events that are no motion are never dropped by the rate limiter, but count towards the fifty
  (`DroppedIff`).
* A tty without a terminal gets one with its first command. If no directory at or below its start
  exists, its registration puts the default directory over the newest entry, wherever it started:
  another tty that is there loses its path though its directory exists (`ReportOverwritesAnother`;
  `EnsureKeepsOthersIff` has the exact condition).
* On opening, a shell can be told another directory than the one its pointer names
  (`OpenAnswersElsewhere`, `OpenAnswersPointerIff`).
* Stepping forward and then backward through the directory history restores the pointer exactly when
  the directory it started from exists (`ForwardThenBackwardIff`).
* A read that contains a NUL loses what follows it (`ReceivedWholeIff`); everything else about
  framing is said of what was received.
* `KeyboardManager` currently leaves the mapper switched off
  (daemon/src/KeyboardManager.cpp:52-56); its logic is complete without that.

## Model

| member | source | states |
|---|---|---|
| `Suppression.RemoveIf` | daemon/include/InputMapper.h:174-179 | In place: kept entries shift down in order, and the tail of the array is the original last elements, not the removed ones. |
| `Suppression.SuppressionRegistry.Add` | daemon/include/InputMapper.h:164-167 | Appends one entry to the bucket of the event's code and leaves all others. |
| `Suppression.SuppressionRegistry.Claim` | daemon/include/InputMapper.h:170-183 | Drops exactly the combo's entries from every bucket and returns, by ascending code, the tails left behind. |
| `Suppression.SuppressionRegistry.IsBlocked` | daemon/include/InputMapper.h:185-188 | True exactly when some event is withheld on the code; inserting the empty bucket changes nothing visible. |
| `Suppression.ReplayIsOwnEvents` | daemon/src/InputMapper.cpp:772-776 | What timeout, NumLock and break paths write on a code is exactly the combo's own withheld events for it, in withholding order, if no other combo withholds the code, and nothing if one does: the tail copied by `claim` puts no foreign event there. |
| `MacroEngine.CombosAreIndependent` | daemon/src/InputMapper.cpp:759-874 | The loop moves every combo as a function of that combo's own state and the event alone. |
| `EngineInvariant.ComboStepsConsistent` | daemon/src/InputMapper.cpp:759-874 | Any number of loop turns keeps: progress below the trigger length, one matching withheld event per suppressing step passed, and registry entries per owner and code equal to what that combo remembers. |
| `StateInvariant.ReachableInv` | daemon/src/InputMapper.cpp:604-1110 | In every reachable state registry and progress agree, and combos of all other apps are idle, over events, timeouts, NumLock, resyncs, context switches and reloads at rest. |
| `StateInvariant.ReloadKeepsInvIff` | daemon/src/InputMapper.cpp:297-371 | A reload keeps that agreement if and only if nothing is withheld. |
| `StateInvariant.ReleaseAllRests` | daemon/src/InputMapper.cpp:1086-1110 | A context change leaves the registry empty and every combo of every app idle. |
| `StateInvariant.FlushRests` | daemon/src/InputMapper.cpp:1019-1040 | So does a flush. |
| `EventOrder.FeedOrdered` | daemon/src/InputMapper.cpp:732-883 | One event keeps, for every code: the key events written are in strict arrival order and older than all that is withheld on that code. |
| `RunOrder.KeyEventsKeepTheirOrder` | daemon/src/InputMapper.cpp:759-882 | Over every run, the key events forwarded or replayed on each code are in strict arrival order: none duplicated, none reordered, however many combos withhold them. |
| `EventOrigin.WrittenEventsWereHandedIn` | daemon/src/InputMapper.cpp:732-883 | Over every run, each event forwarded, replayed or withheld had been handed to the macro stage. |
| `LostEvents.WrittenIffAlone` | daemon/src/InputMapper.cpp:768-796 | When the last owner of a withheld event lets go by timeout, NumLock or break, then in every continuation of the run the event is written if and only if no other combo withholds its code at that moment; otherwise it is lost. |
| `LostEvents.SwallowedForGood` | daemon/src/InputMapper.cpp:820-841 | When the last owner of a withheld event completes, the event is never written, in any continuation of the run. |
| `LostEvents.DroppedOnContextChange` | daemon/src/InputMapper.cpp:583-602 | No event withheld at a context change is ever written. |
| `LostEvents.NeverWrittenAgain` | daemon/src/InputMapper.cpp:732-883 | An event that is not withheld is never written later, over every continuation that does not read it again. |
| `LostEvents.PressIsLost` | daemon/src/InputMapper.cpp:860-872 | Two combos and four key events after which a repeat and a release are written, and the press never is, however the run goes on. |
| `EmergencyUngrab.ReachesMacrosIff` | daemon/src/InputMapper.cpp:604-638 | From any state an event is handed to the macro stage, once, if and only if the devices are grabbed and it is no Pause press, no third ScrollLock press within a second and no NumLock press that turns NumLock on; otherwise it is not written, and no event ends monitoring. |
| `EmergencyUngrab.PauseIsSwallowed` | daemon/src/InputMapper.cpp:649-655 | A Pause press gives the devices back, and nothing is written. |
| `EmergencyUngrab.ThirdScrollLockIsSwallowed` | daemon/src/InputMapper.cpp:657-675 | Of three ScrollLock presses within a second the first two reach the macros; the third gives the devices back and nothing is written. |
| `EmergencyUngrab.OnlyRegrabEndsMonitoring` | daemon/src/InputMapper.cpp:497-556 | Over every run from monitoring without a request to grab, the devices stay given back. |
| `EmergencyUngrab.NumLockOnAndOff` | daemon/src/InputMapper.cpp:1042-1061 | Turning NumLock on and off again by key leaves the devices given back. |
| `MapperRuns.GivenBackOverRuns` | daemon/src/InputMapper.cpp:649-675 | Over every run, the event read next leaves the devices given back if and only if they were, or it is a Pause press, a NumLock press that turns NumLock on, or a ScrollLock press that is the third of a series; series are told from the times of all ScrollLock presses of the run, a new one beginning more than a second after the first press of the last. |
| `Forwarding.NumLockIs` | daemon/src/InputMapper.cpp:1042-1061 | A change of NumLock lets go of everything; on gives the devices back, off takes them exactly if the keyboard is idle and no key counts as pressed. No change, no effect. |
| `Forwarding.GrabIs` | daemon/src/InputMapper.cpp:497-556 | A grab ends monitoring exactly if the keyboard is idle and no key counts as pressed, and changes nothing else. |
| `MapperRuns.ContextChangeIs` | daemon/src/InputMapper.cpp:583-602 | A change of app, url or title alone stores all three, drops what is withheld, resets every combo and releases the keys that count as pressed; the same context again changes nothing. |
| `MapperRuns.AscendingOnce` | daemon/src/InputMapper.cpp:1100-1109 | Each pressed key is released once, by ascending code. |
| `MapperRuns.ContextOverRuns` | daemon/src/InputMapper.cpp:583-602 | Over every run, app, url and title are those of the latest context report, or those at the start if there was none. |
| `MapperRuns.MacrosOverRuns` | daemon/src/InputMapper.cpp:297-371 | Over every run, the macros of an app are those of the latest reload that has any for it; without one, those at the start, or the shipped ones if there were none at the start and there was a reload. |
| `RunOrder.FlushKeepsOrderIff` | daemon/src/InputMapper.cpp:1024-1034 | A flush writes the events withheld on a code once each and in order if and only if no two combos withhold that code. |
| `RunOrder.FlushCanDuplicate` | daemon/src/InputMapper.cpp:1027-1030 | From the initial state, a press withheld by two combos is written twice by the flush after it. |
| `StuckKeys.ReleaseForwardedIff` | daemon/src/InputMapper.cpp:842-881 | A key release is forwarded if and only if no combo of the active app withholds it or matches it while still withholding an event of the same code. |
| `StuckKeys.UnawaitedReleasePasses` | daemon/src/InputMapper.cpp:842-881 | A release no combo waits for is forwarded, after whatever is replayed and as the last thing written, and nothing stays withheld on its code. |
| `Forwarding.ForwardedIff` | daemon/src/InputMapper.cpp:732-883 | Any event is forwarded, after all that its arrival makes the combos write, if and only if no combo of the active app takes it in a withholding step and, for a key event, none withholds an event of its code when all have seen it; otherwise nothing more is written. |
| `StuckKeys.NoKeySticks` | daemon/src/InputMapper.cpp:820-881 | If no step that expects a release withholds it or follows a step that withholds an event of the same code, then after every operation of every run the keys left down by forwarded and replayed events are down on the input of the macro stage. |
| `StuckKeys.ReleaseStepSticks` | daemon/src/InputMapper.cpp:820-841 | Half of that hypothesis is needed: a trigger that withholds a release, and two events that leave a key down outside and up on the input of the macro stage. |
| `StuckKeys.WithheldReleaseSticks` | daemon/src/InputMapper.cpp:820-841 | The same for every single-combo trigger with a step that withholds a release of a key, if the steps before it can be taken, none of them lets a release of that key pass and the first is no withheld press of it. |
| `StuckKeys.TakenReleaseSticks` | daemon/src/InputMapper.cpp:820-881 | So is the other half: a trigger that withholds a press and takes its release, and three events that leave the key down outside and up on the input of the macro stage. |
| `StrayKeys.StrayKeysWereStranded` | daemon/src/InputMapper.cpp:604-638 | Over every run with safe macros, a key that is down outside or withheld as pressed is in pressedKeys_, unless its release was read while the devices were given back or was taken for a G-key, or it is NumLock turned off while they were grabbed. |
| `StrayKeys.DownMeansPressed` | daemon/src/InputMapper.cpp:691-713 | Over every run with safe macros in which, while the devices are grabbed, Pause is not pressed, nor ScrollLock a third time, no digit is released as a G-key and NumLock is not turned off: each key down outside is in pressedKeys_. |
| `StrayKeys.GivingBackStrandsIff` | daemon/src/InputMapper.cpp:649-675 | A Pause press or third ScrollLock press strands a key if and only if it is down outside or withheld as pressed then: after any readings without NumLock and the next successful grab it is held and not in pressedKeys_. |
| `StrayKeys.PauseStrands` | daemon/src/InputMapper.cpp:649-655 | From the initial state: press a key, press Pause, release both. The key is down outside, pressedKeys_ is empty, and no context change after the next grab releases it. |
| `StrayKeys.DigitStrandsFromStart` | daemon/src/InputMapper.cpp:717-730 | From the initial state: press a digit, Ctrl, Shift, Ctrl, Shift, release the digit. The digit is down outside and not in pressedKeys_. |
| `StrayKeys.VirtualKeyStays` | daemon/src/InputMapper.cpp:717-730 | Press and release the digit of a G-key: the virtual key is down outside and in pressedKeys_, and a grab fails. |
| `StrayKeys.NumLockOffStrands` | daemon/src/InputMapper.cpp:1042-1061 | NumLock turned off while the devices are grabbed: it is down outside and pressedKeys_ is empty. |
| `ComboHistory.FeedFires` | daemon/src/InputMapper.cpp:820-841 | In one event an action fires if and only if it belongs to the active app and the event completes it when it has the whole history to itself. |
| `ComboHistory.ReachableExplained` | daemon/src/InputMapper.cpp:756-874 | Over every run, the parallel progress of each combo is its progress alone on the history, and each fired action names the event that completed it. |
| `ComboHistory.CompletesIffTrail` | daemon/src/InputMapper.cpp:766-873 | An event completes a combo if and only if the history holds one event per step in order, each fitting its step and at most two seconds after the last, begun while no other such sequence is under way, and in between no reset, no event that NumLock sets the combo aside for, no release of a code of an earlier step, no press where noise breaks, and no repeat of any other code unless the awaited step ignores repeats. Said of events and steps alone. |
| `ComboHistory.FiresOnlyAfterTrail` | daemon/src/InputMapper.cpp:766-873 | Over every run, whatever fired had left such a trail. |
| `ComboFirings.FiresOncePerTrail` | daemon/src/InputMapper.cpp:756-874 | Over every run, the event handed to the macros next fires each action of the active app that has a full trail ending with it once, in the order of the list, and no other. |
| `GKeys.DetectedIff` | daemon/src/InputMapper.cpp:885-941 | G-key k is reported if and only if the code is key k and the relevant events before it end in Ctrl, Shift, Ctrl, Shift presses begun in state 1. |
| `GKeys.SequenceDetectedOnce` | daemon/src/InputMapper.cpp:885-941 | From state 1 that sequence is reported exactly once, whatever irrelevant events are mixed in, and the automaton is back in state 1. |
| `GKeys.StutterIsMissed` | daemon/src/InputMapper.cpp:891-905 | A doubled first Ctrl press makes the sequence go unnoticed. |
| `GKeyRuns.ToggleOverRuns` | daemon/src/InputMapper.cpp:885-941 | Over every run, gToggleState_ is the automaton's state after the events that passed it since the last resync. |
| `GKeyRuns.HandedOverRuns` | daemon/src/InputMapper.cpp:717-730 | Over every run, while the devices are grabbed, the next event is handed to the macros as virtual key k if it ends the sequence begun by the events that passed since the last resync, and as it is if it ends none. |
| `GKeyRuns.NestsOnce` | daemon/src/InputMapper.cpp:604-638 | Processing an event is one pass, or one pass and one for the virtual event that goes straight to the macros: it nests at most once. |
| `InputMapping.IsKeyboardOnlyMacro` | daemon/src/InputMapper.cpp:1063-1084 | Both loops together: true exactly when every trigger step is an EV_KEY on the keyboard and every output key is. |
| `InputMapping.ShouldBreak` | daemon/src/InputMapper.cpp:842-858 | The break decision, with its search through the steps already matched. |
| `InputMapping.Judge` | daemon/src/InputMapper.cpp:782-858 | Which of idle, broken, matched, completed the branches of the loop body take. |
| `InputMapping.InputMapper.StageMacros` | daemon/src/InputMapper.cpp:732-883 | The loop over the combos changes registry, progress and output exactly as the specification, and says DROP exactly when a step withheld the event or its code is blocked. |
| `InputMapping.InputMapper.StageContext` | daemon/src/InputMapper.cpp:640-715 | Emergency ungrab, pressed keys and NumLock as specified. |
| `InputMapping.InputMapper.DetectGKey` | daemon/src/InputMapper.cpp:885-941 | The G-key automaton of the specification. |
| `InputMapping.InputMapper.ProcessEvent` | daemon/src/InputMapper.cpp:604-638 | The four stages in order, with the nested virtual event. |
| `InputMapping.InputMapper.SetContext` | daemon/src/InputMapper.cpp:583-602 | Nothing on an unchanged context; otherwise all keys are released and all progress is dropped. |
| `InputMapping.InputMapper.SetNumLockState` | daemon/src/InputMapper.cpp:1042-1061 | Gives the devices back, or grabs them if no key counts as pressed, and releases everything on a change. |
| `InputMapping.InputMapper.GrabDevices` | daemon/src/InputMapper.cpp:497-556 | Ends monitoring exactly when the hardware is idle and no key counts as pressed. |
| `InputMapping.InputMapper.ReleaseAllPressedKeys` | daemon/src/InputMapper.cpp:1086-1110 | The nested loops drop all that is withheld, reset every combo, and release the pressed keys by ascending code. |
| `InputMapping.InputMapper.FlushAndResetState` | daemon/src/InputMapper.cpp:1019-1040 | The nested loops write all that each combo claims in turn, reset every combo and the G-key automaton. |
| `InputMapping.InputMapper.SetMacros` | daemon/src/InputMapper.cpp:297-371 | Loads the shipped macros where there are none, clears progress, overlays the macros per app, leaves the registry. |
| `InputMapping.InputMapper.OnSyncStatus` | daemon/src/InputMapper.cpp:424-438 | A lost-events report: flush, then take in the reported events past the macros. |
| `ShippedMacros.OverridesWin` | daemon/src/MacroConfig.cpp:26-43 | A trigger stands for the last app-specific action with that trigger, and for the default one only if there is none. |
| `ShippedMacros.OverridesKeepPlaces` | daemon/src/MacroConfig.cpp:26-43 | The default triggers stay in their places, behind them come only app-specific ones, and no trigger comes to be listed twice. |
| `ShippedMacros.ShippedAre` | daemon/src/MacroConfig.cpp:6-147 | Terminals and Chrome add their macros behind the default ones; in Code the forward button writes A instead of Enter, in the place of the default macro. |
| `ShippedMacros.BuildMacros` | daemon/src/MacroConfig.cpp:26-43 | The nested loops apply the overrides one after the other. |
| `StuckKeys.ShippedMacrosAreSafe` | daemon/src/MacroConfig.cpp:6-147 | The shipped macros meet the hypothesis of NoKeySticks. |
| `Gitignore.LastHitWins` | utilities/fileSize/src/gitignore.c:123-151 | A path is ignored if and only if the last pattern that applies and matches is no negation. |
| `Gitignore.AddLinesAppends` | utilities/fileSize/src/gitignore.c:153-169 | Reading a file appends exactly its patterns, in order, until the table is full. |
| `IgnoreSyntax.LinesIff` | utilities/fileSize/src/gitignore.c:158-159 | The lines read are the one way to cut the file into pieces of at most 511 characters with a newline at most at their end, each of which ends with a newline, after 511 characters or with the file. |
| `IgnoreSyntax.SeparatedIffShort` | utilities/fileSize/src/gitignore.c:158-159 | They are the newline-separated lines if and only if none of those is longer than 511 characters. |
| `IgnoreSyntax.PatternOfIff` | utilities/fileSize/src/gitignore.c:45-79 | A line stands for a pattern if and only if it is spelled so: blanks, for a negation a bang and blanks, the text, for directories a slash, then nothing or a CR or newline and anything; the text begins with no blank, and without a bang before it with no bang and no hash. |
| `IgnoreSyntax.PatternsInOrder` | utilities/fileSize/src/gitignore.c:153-169 | A file stands for the patterns of its lines, in order. |
| `IgnoreSyntax.MatchesIff` | utilities/fileSize/src/gitignore.c:81-110 | A pattern with a slash is compared to the path less a leading ./; one without to the base name and to the rest of the path from every component on; one for directories matches directories only. |
| `IgnoreSyntax.HitsIff` | utilities/fileSize/src/gitignore.c:112-151 | A pattern hits a path if and only if it matches the path as seen from the directory of its .gitignore. |
| `RepositoryScopes.OwnPatternsIff` | utilities/fileSize/src/scanner.c:33-52 | A directory contributes the patterns of its own .gitignore if and only if it lies in a repository or is the root of one; a root adds .git, as its last pattern. |
| `RepositoryScopes.GitIsIgnored` | utilities/fileSize/src/scanner.c:39-46 | The .git directory of a repository is ignored, whatever any .gitignore says. |
| `RepositoryScopes.OutsideNothingIsIgnored` | utilities/fileSize/src/scanner.c:33-52 | In a tree without repositories nothing is asked or ignored and no pattern is read. |
| `DirectoryScan.SiblingsApart` | utilities/fileSize/src/gitignore.c:112-121 | No path lies below two different entries of a directory, so sibling patterns never apply. |
| `DirectoryScan.GlobalListIsScoped` | utilities/fileSize/src/scanner.c:25-94 | For any tree with distinct slash-free names, if the patterns at the start and those the scoped scan meets fit the table, the scan with the global list makes every ignore decision and returns the total of a scan in which each directory sees only its ancestors' patterns, records the files of that scan, the first of them up to 10000 in all, and ends with exactly the patterns met. |
| `DirectoryScan.ScanDirAgrees` | utilities/fileSize/src/scanner.c:25-94 | The same from any list and scope that decide alike below the directory; the patterns met belong at or below it. |
| `DirectoryScan.NoPatternDroppedIff` | utilities/fileSize/src/gitignore.c:45-79 | The scan ends with every pattern met if and only if the patterns at the start and those the scoped scan meets are at most 5000. |
| `DirectoryScan.FullTableMiscounts` | utilities/fileSize/src/gitignore.c:45-79 | With a table full of patterns for other places, a .gitignore that names a file is dropped: the scan returns the size of that file, the scoped scan 0. |
| `VisibleFiles.KeptIffShown` | utilities/fileSize/src/scanner.c:53-93 | A file is kept if and only if walking down to it meets no ignored entry and it is a regular file. |
| `VisibleFiles.ScanSumsShownFiles` | utilities/fileSize/src/scanner.c:53-93 | If the patterns fit, the total is the sum of the sizes of exactly those files, each once; if files[] has room for them all, what it gained is those files and adds up to the total. |
| `VisibleFiles.ReaddirOrderIsIrrelevant` | utilities/fileSize/src/scanner.c:53-86 | Two scans that differ only in the order of directory entries return the same total, and the patterns fit in both orders or in neither. |
| `FileScanner.MatchPath` | utilities/fileSize/src/gitignore.c:81-110 | Directory-only patterns, patterns with a slash, and the walk over path suffixes. |
| `FileScanner.Scanner.AddPattern` | utilities/fileSize/src/gitignore.c:45-79 | Negation, blanks, trailing slash and the full table, as specified. |
| `FileScanner.Scanner.ReadGitignore` | utilities/fileSize/src/gitignore.c:153-169 | Reads buffer by buffer, skips comments and blank lines, and adds the rest in order. |
| `FileScanner.Scanner.ShouldIgnore` | utilities/fileSize/src/gitignore.c:123-151 | The loop over all patterns decides as the last one that hits. |
| `FileScanner.Scanner.Scan` | utilities/fileSize/src/scanner.c:25-94 | The recursive loop returns the total and leaves the arrays of the specified scan. |
| `FileScanner.Scanner.ScanChild` | utilities/fileSize/src/scanner.c:58-85 | One entry: vanished, ignored, directory, regular file or neither. |
| `DirNavigation.ReachableInv` | daemon/src/terminal.cpp:18-317 | Over every run on any number of ttys: indices exactly 0..n-1 with n at most 500, every pointer names an entry, every path is standardized and not the root, one live terminal per tty. |
| `DirNavigation.PruneKeepsPaths` | daemon/src/DatabaseTableManagers.cpp:213-290 | Pruning keeps the path behind every surviving pointer, clamps the others to the oldest kept entry, and keeps the indices contiguous. |
| `DirNavigation.ReportedDirIsNamed` | daemon/src/terminal.cpp:194-227 | A report succeeds if and only if the directory is neither empty nor the root, and then the pointer of that tty names the reported directory. |
| `DirRuns.ReportIs` | daemon/src/terminal.cpp:194-227 | A refused report, or one of the directory the tty is at, only notes the last touched index; one of the next entry moves on to it; any other is written behind the others, of which the newest 499 stay, and the tty is there. |
| `DirRuns.CloseIs` | daemon/src/terminal.cpp:148-176 | Closing succeeds if and only if the tty has a terminal. It removes that terminal and its pointer, and keeps the other terminals in order, every other pointer, the history and the last touched index. |
| `DirRuns.KnownIffInUse` | daemon/src/terminal.cpp:89-317 | Over every run, a tty has a terminal and a pointer if some command of it is later than every closing of it, and neither otherwise. |
| `DirSharing.ReportKeepsOthersIff` | daemon/src/terminal.cpp:178-227 | A report by any tty, registered or not, keeps the path behind every other pointer if and only if neither its registration overwrites that entry nor the report pushes it out of a full history. |
| `DirSharing.EnsureKeepsOthersIff` | daemon/src/terminal.cpp:18-55 | Registering a tty moves no other pointer, and changes the path behind it if and only if no directory at or below the start exists, the pointer is at the newest entry and that is not the default directory. |
| `DirSharing.OthersKeepTheirPathIff` | daemon/src/terminal.cpp:89-317 | Opening and navigating move no other pointer, and keep the path behind it under the same condition. |
| `DirSharing.ReportOverwritesAnother` | daemon/src/terminal.cpp:37-52 | Two entries, of which the newer exists; an unknown tty reports a directory, and the tty at the newer entry is left at the default directory. |
| `DirSharing.OpenAnswersPointerIff` | daemon/src/terminal.cpp:104-146 | The directory answered on opening is the one at the index of the tty if and only if some entry at or below it exists, or the oldest entry is the default directory. |
| `DirSharing.OpenAnswersElsewhere` | daemon/src/terminal.cpp:116-132 | One entry that is gone: the answer is the default directory and nothing is changed. |
| `DirNavigation.ForwardIs` | daemon/src/terminal.cpp:256-280 | A step forward goes to the nearest existing directory above the pointer, or changes nothing; no other session or row changes. |
| `DirNavigation.BackwardIs` | daemon/src/terminal.cpp:294-317 | The same downwards. |
| `DirNavigation.ForwardReplyIs` | daemon/src/terminal.cpp:266-280 | The reply names the directory the pointer has moved to, or says that the end is reached if it has not moved. |
| `DirNavigation.BackwardReplyIs` | daemon/src/terminal.cpp:303-317 | The same downwards. |
| `DirNavigation.ForwardVisits` | daemon/src/terminal.cpp:256-280 | n steps forward visit the existing directories above the pointer one after the other in ascending order and then stay put. |
| `DirNavigation.ForwardThenBackwardIff` | daemon/src/terminal.cpp:256-317 | A step forward that moves, then one backward, restores everything if and only if the starting directory exists. |
| `DirNavigation.BackwardThenForwardIff` | daemon/src/terminal.cpp:256-317 | The reverse order, with the same condition. |
| `Terminals.NoCollision` | daemon/src/DatabaseTableManagers.cpp:235-261 | When rows shift down in ascending order, the next row never lands on an existing key. |
| `Terminals.TerminalDaemon.ShiftHistory` | daemon/src/DatabaseTableManagers.cpp:235-261 | The row-by-row update always succeeds and moves every path down by the distance. |
| `Terminals.TerminalDaemon.PruneHistory` | daemon/src/DatabaseTableManagers.cpp:213-290 | Deletes the oldest entries, then re-indexes history, pointers and the last-touched setting. |
| `Terminals.TerminalDaemon.CreateTerminal` | daemon/src/terminal.cpp:18-55 | The walk back from the last touched entry, and the default directory where it finds nothing. |
| `Terminals.TerminalDaemon.OpenedTty` | daemon/src/terminal.cpp:89-146 | Tables and the directory to change to. |
| `Terminals.TerminalDaemon.ClosedTty` | daemon/src/terminal.cpp:148-176 | Removes the terminal and its session, or fails if there is none. |
| `Terminals.TerminalDaemon.UpdateDirHistory` | daemon/src/terminal.cpp:194-227 | Stay, move on, or append and prune. |
| `Terminals.TerminalDaemon.GoForward` | daemon/src/terminal.cpp:256-280 | The scan upwards, and the reply. |
| `Terminals.TerminalDaemon.GoBackward` | daemon/src/terminal.cpp:294-317 | The scan downwards, and the reply. |
| `Ports.NoPortIsEverShared` | daemon/src/cmdApp.cpp:921-1117 | Over every sequence of additions and removals, no two port settings come to share a number if none did before. |
| `Ports.PairFailsIff` | daemon/src/cmdApp.cpp:829-850 | The pair search fails if and only if every pair in range has a taken port. |
| `Ports.AddFailsIff` | daemon/src/cmdApp.cpp:921-1030 | An addition fails if and only if the app is unnamed, hardcoded, registered or not cloned, no pair of ports is free, or it has a server and no server port is free. |
| `Ports.AddFailsOnlyWhenFull` | daemon/src/cmdApp.cpp:1017-1030 | A new, cloned app is refused only when at least 250 ports of 3000-3499 are taken, or it has a server and all 500 of 3500-3999 are. |
| `Ports.AddAssignsLowest` | daemon/src/cmdApp.cpp:1017-1081 | An app that is added gets the lowest free pair, -prod the even port and -dev the next one, and with a server the lowest free server port; it is recorded, and nothing else changes. A refusal changes nothing. |
| `Ports.UsedIff` | daemon/src/cmdApp.cpp:829-871 | A port counts as used if and only if some setting whose key begins with port_ holds it. |
| `Ports.RemoveIs` | daemon/src/cmdApp.cpp:1083-1117 | A removal succeeds if and only if the app is on record, and takes away the app and exactly its port settings, that of the server only if it is recorded with one. |
| `Ports.RemoveUndoesAdd` | daemon/src/cmdApp.cpp:1083-1117 | Removing an app gives back exactly what adding it took, if its keys were unused. |
| `Ports.PortRegistry.FindNextAvailablePortPair` | daemon/src/cmdApp.cpp:829-850 | The counting loop finds the first free pair, or none. |
| `Ports.PortRegistry.FindNextAvailableServerPort` | daemon/src/cmdApp.cpp:852-871 | The counting loop finds the first free server port, or none. |
| `Ports.PortRegistry.HandleAddExtraApp` | daemon/src/cmdApp.cpp:921-1081 | The refusals in order, then the ports and the app record. |
| `Ports.PortRegistry.HandleRemoveExtraApp` | daemon/src/cmdApp.cpp:1083-1117 | Fails for an unknown app; otherwise deletes its ports and record. |
| `Framing.PeerHandlesAllLines` | daemon/src/DaemonServer.cpp:344-352 | However the stream is cut into reads, exactly its lines are handled, in order, without one trailing CR each, and what is kept is what follows the last newline. |
| `Framing.PeerIgnoresCuts` | daemon/src/DaemonServer.cpp:344-352 | Two ways to cut the same NUL-free stream are handled alike. |
| `Framing.LinesIff` | daemon/src/DaemonServer.cpp:348-352 | Lines and leftover are the one way to cut the stream at its newlines, where of each raw line exactly one final CR is dropped. |
| `Framing.CStringIff` | daemon/src/DaemonServer.cpp:344-345 | A read counts exactly up to its first NUL. |
| `Framing.ReceivedWholeIff` | daemon/src/DaemonServer.cpp:344-345 | Nothing is lost if and only if no read contains a NUL. |
| `Framing.ClientHandlesUntilEnd` | daemon/src/DaemonServer.cpp:447-492 | If some line closes or hands off, the lines up to and including the first that does are handled and the connection is closed; otherwise all are, it is open, and what follows the last newline is kept. |
| `Framing.PeerConnection.HandlePeerData` | daemon/src/DaemonServer.cpp:344-395 | One read: appended to the buffer, then cut in a loop. |
| `Framing.ClientConnection.HandleClientData` | daemon/src/DaemonServer.cpp:447-492 | One read, with the two ways to leave the loop early. |
| `RateLimit.OthersAlwaysPass` | daemon/src/cmdInput.cpp:598-630 | Every event that is no motion is passed on, in order. |
| `RateLimit.DroppedIff` | daemon/src/cmdInput.cpp:598-617 | Over every run, an event is dropped if and only if it is motion and at least fifty events of any kind came before it in its window, the one that began the window included; a window lasts less than ten milliseconds. |
| `RateLimit.FirstFiftyPass` | daemon/src/cmdInput.cpp:606-617 | The first fifty events of every window are passed on. |
| `RateLimit.AtMost100In10ms` | daemon/src/cmdInput.cpp:598-617 | For any nondecreasing times, at most 50 motion events pass in the open window and at most 100 in any ten milliseconds. |
| `RateLimit.RawEventGate.HandleSimulateInput` | daemon/src/cmdInput.cpp:598-617 | One call: the counters, and whether the event passes. |
| `Peers.OnlineIff` | daemon/src/DatabaseTableManagers.cpp:512-542 | Over every run of messages: a peer is reported online if and only if it is registered after every removal, some register or heartbeat of it is later than every close of a connection bound to it then, and its latest register, heartbeat or MAC update while registered was within the last 20 s. |
| `Peers.BoundIff` | daemon/src/DaemonServer.cpp:366-391 | Over every run of messages: a connection is bound to a peer if and only if that was registered on it with no connect, disconnect or register on it since, or its first heartbeat with an id since the last connect, disconnect or register with an empty id was one of that peer. |
| `Peers.LastSeenIs` | daemon/src/DatabaseTableManagers.cpp:544-607 | Over every run of messages: a row carries the time of the latest message that refreshed the peer while it was registered or closed a connection bound to it. |
| `Peers.ListedIff` | daemon/src/DatabaseTableManagers.cpp:544-607 | Over every run of messages: a peer has a row if and only if a registration is later than every removal, and the row says online if and only if, besides, a sign of life is later than every close. No heartbeat or MAC update brings a deleted peer back. |
| `Peers.PeerRegistry.OnHeartbeat` | daemon/src/DaemonServer.cpp:366-383 | Refreshes an existing row only, and binds a connection that is not bound yet. |
| `Peers.PeerRegistry.OnRegister` | daemon/src/cmdPeer.cpp:197-224 | Writes the row and always binds the connection. |
| `Peers.PeerRegistry.OnUpdateMac` | daemon/src/cmdPeer.cpp:735-755 | Refreshes the row without changing its online flag; reports that there is none if there is none or the id is empty. |
| `Peers.PeerRegistry.OnDisconnect` | daemon/src/DaemonServer.cpp:329-342 | Marks the bound peer offline and forgets the binding. |
| `Peers.PeerRegistry.OnDelete` | daemon/src/cmdPeer.cpp:287-316 | Removes the row; reports that there is none if there is none or the id is empty. |

## Left out

- RunOrder.KeyEventsKeepTheirOrder: resyncs only while no two combos withhold the same code, and reloads only while nothing is withheld; FlushKeepsOrderIff and ReloadKeepsInvIff give the exact conditions.
- StuckKeys.NoKeySticks: keys a fired action leaves down by its own key sequence are not counted; an action is one opaque entry of the output.
- DirectoryScan.GlobalListIsScoped: only while the patterns fit the table; NoPatternDroppedIff has the exact condition for dropping none, and a scan that drops some may still agree.
- Peers.PeerRegistry.OnRegister: the row has no address, MAC, host name or version; these never decide anything modelled here.
- Log output, SYN reports, `ctrlDown_` (read by one log line only), event filters and device paths: they change no event.
- Devices, uinput, grabbing, polling and locks: calls into libevdev; concurrent interleavings are not modelled, so neither is a context change that clears the pressed keys while a grab waits for them.
- Custom handlers and the focus acknowledgement thread: asynchronous browser I/O.
- Reading macros from JSON: an overlay of macros per app is given.
- `fnmatch` is an arbitrary function of pattern, path and flag; `lstat`, `stat` and `readdir` are a tree and an order of names that does not change during the scan.
- Paths of 4096 bytes and more, NUL bytes inside pattern lines, and 64-bit overflow of sizes in the scan; `files[]` entries hold the line count as given.
- `findGitRoot`, sorting and printing in `utilities/fileSize`, and `utilities/lastChanged`, which resets its pattern list at nested repositories.
- SQL failures and MySQL itself: tables are maps, an UPDATE goes row by row in ascending key order.
- `emptyDirHistoryTable`: it clears the history but not the pointers, which breaks contiguity.
- Exceptions of `stoi` for malformed tty arguments; settings hold what `stoi` reads from them, if anything.
- git, directory creation, npm and systemd work around adding an app: whether the repository is there is a parameter.
- JSON parsing of lines: what a line asks for, and a client's answer code, are parameters. `handle_leader_data` cuts lines in the same loop.
- Worker daemons, forwarding to the leader, the in-memory peer map and app status; one clock in seconds serves database and leader.
- Command registry, help text, window and browser extensions, MCP server and shell scripts: lookups and thin wrappers.
