# pyinputevent key remapper — a Dafny model

This project models the core of a small Linux input remapper written in
Python. The remapper reads events from a media-centre remote (a HID
device with vendor/product `05a4:9881`), normalises them, translates key
sequences through a rule file, and writes the result to a virtual input
device.

The model covers six modules:

- `Common` (`common.dfy`): the `Option` and `Result` wrappers that stand
  for Python's `None` and for a raised exception.
- `Events` (`events.dfy`): the kernel input-event record
  (type, code, value). It also has the event-type and key codes the
  remapper tests, and the synchronisation marker `(0, 0, 0)`.
- `Text` (`text.dfy`): the Python string operations the code relies on:
  `strip`, `startswith`, substring `in`, `split` with and without a limit,
  `join` and `str(int)`. Each carries its defining contract, and the
  inverse pairs have round-trip lemmas.
- `KeyTrans` (`keytrans.dfy`): a key event with its modifier bit mask
  (Shift 1, Ctrl 2, Alt 4), in four parts:
  - how a key event is replayed as output records;
  - its textual signature such as `Ctrl-Alt-KEY_P-down`, which is what
    rules are looked up by;
  - the expansion of a keystring such as `Ctrl-KEY_P KEY_Q-up` into
    output records. This is written as the imperative token loop
    `MakeKeyEvents`, proved equal to a fold `Expand`;
  - the quirks of that expansion. The release list is never cleared
    between tokens and is reversed in place each time. A sync is added
    whenever anything at all has been produced.
- `Keymap` (`keymap.dfy`): loading the rule file into a table, and the
  `KeymapParser` class, whose `Process` method looks up the signature of
  the waiting queue plus the new key. It then runs that rule's actions:
  `if`, `else`, `send`, `forward`, `wait`, `clear`, `none`, `echo`,
  `exec`, `set` and `call`. Each method is proved against a
  specification function (`ParseRules`, `Effect`, `Dispatch`), and the
  properties are lemmas about those functions.
- `HamaControl` (`hamacontrol.dfy`) has two parts:
  - the `ForwardDevice` class. It tracks the Ctrl/Alt/Shift flags, drops
    miscellaneous events, and holds pointer motion until the next
    synchronisation marker. It hands every other key to the parser and
    sends the records that come back to an `OutputDevice`, which keeps a
    log of what was sent. It is specified by the function `React` and its
    fold `ReactAll`.
  - the scan of the kernel's input-device listing that finds the remote's
    keyboard and mouse handlers. This is the imperative `DetectHamaMce`,
    proved equal to the fold `Detect`.

A Python exception becomes a `Failure`/`Raised` value. The Python host's
`eval`, `exec` and `__import__` + call become total functions in an
`Evaluator`, whose `None`/`raised` results stand for a raised exception.
The scancode table (name to code) and its reverse (code to name) are
parameters.

## Model

| member | source | states |
|---|---|---|
| Text.Strip | keytrans.py:127 | the result has no whitespace at either end and is the input unchanged when the input has none |
| Text.SplitOnce | keytrans.py:130 | `None` exactly when the separator is absent (the unpacking raises); otherwise the input is the first part, the separator and the rest, and the first part holds no separator |
| Text.Split | keytrans.py:83 | at least one piece, none containing the separator |
| Text.JoinSplit | keytrans.py:83 | joining the pieces of a split restores the string |
| Text.SplitJoin | keytrans.py:83 | splitting a join of separator-free pieces restores the pieces |
| Text.JoinSnoc | keytrans.py:137 | joining one more piece appends the separator and the piece |
| Text.SplitAtMostTwice | keytrans.py:189 | one to three pieces that join back to the input, only the last of three may hold the separator |
| Text.ContainsAt | hamacontrol.py:25-27 | substring `in` holds exactly when the substring occurs at some offset |
| Text.ContainsMiddle | hamacontrol.py:25-27 | a string contains whatever stands in its middle |
| Text.Find | keytrans.py:102-103 | the first index of the character, `None` exactly when the character is absent |
| Text.Join | keytrans.py:137 | definition of `str.join`: the pieces with one separator between neighbours; its properties are `JoinSnoc`, `JoinSplit` and `SplitJoin` |
| Text.DecimalRoundTrip | keytrans.py:72 | reading back the decimal rendering of a key code gives the code |
| KeyTrans.ToInputEvents | keytrans.py:38-63 | definition of the replay of a key event; its properties are `ToInputEventsBrackets`, `ToInputEventsLength` and `CtrlShiftPress` |
| KeyTrans.ModifierPressesInOrder | keytrans.py:46-52 | the presses before the key are one per held modifier, in the order Ctrl, Alt, Shift |
| KeyTrans.ModifierReleasesMirrored | keytrans.py:54-60 | the releases after the key are one per held modifier, in the reverse of the press order |
| KeyTrans.BracketedShape | keytrans.py:45-63 | the key sits between its modifiers' presses and their mirrored releases, and a sync ends the group |
| KeyTrans.ToInputEventsBrackets | keytrans.py:38-63 | a press is bracketed by presses of its held modifiers (Ctrl, Alt, Shift) and their releases in mirror order; a release or repeat is replayed bare; one sync closes the group |
| KeyTrans.ToInputEventsLength | keytrans.py:45-63 | a press replays as twice the number of held modifiers plus two records, anything else as two |
| KeyTrans.CtrlShiftPress | keytrans.py:46-62 | a Ctrl+Shift press replays as Ctrl, Shift, the key, Shift up, Ctrl up, sync |
| KeyTrans.Signature | keytrans.py:64-77 | the signature ends in `-down` exactly for a press (value 1) and in `-up` otherwise; with no modifiers it is the key's name and the suffix |
| KeyTrans.NameHasNoModifierStart | keytrans.py:23-26 | a key name from the reverse table (a `KEY_`/`BTN_` name) or a decimal code cannot be taken for a modifier prefix |
| KeyTrans.SignatureRoundTrip | keytrans.py:64-77 | a signature parses back to the three modifier flags, the key name and press/release |
| KeyTrans.SignatureInjective | keytrans.py:64-77 | two key events with one signature agree on modifiers, key name and press/release |
| KeyTrans.LeadingModifier | keytrans.py:88-101 | a modifier is found exactly when the token starts with `Alt-`, `Ctrl-` or `Shift-`, and the token starts with its prefix |
| KeyTrans.StripModifiers | keytrans.py:87-101 | the stripped prefixes followed by the rest spell the token, every stripped code is a left modifier, and the rest starts with no modifier prefix |
| KeyTrans.StripModifiersUnique | keytrans.py:87-101 | any way of writing a token as left-modifier prefixes followed by a rest without a modifier prefix is the one the prefix loop finds, so the codes are determined by the token |
| KeyTrans.Reverse | keytrans.py:113 | the reversal has the same length and holds element `i` at the mirrored position |
| KeyTrans.ReverseMultiset | keytrans.py:113 | reversal keeps the same elements |
| KeyTrans.KeyPartSuffixes | keytrans.py:102-111 | a bare known name gives its press and release, `-down` the press, `-up` the release, any other suffix or an unknown name nothing |
| KeyTrans.KeyPart | keytrans.py:102-111 | definition of the key part of a token (name, optional suffix, lookup); its properties are `KeyPartSuffixes` and `PressKey` |
| KeyTrans.TokenStep | keytrans.py:86-116 | what one token leaves is empty or ends in a sync |
| KeyTrans.Expand | keytrans.py:81-117 | the expansion of a keystring is empty or ends in a sync |
| KeyTrans.ExpandTokens | keytrans.py:85-116 | the fold of the token step: with no tokens the state is unchanged, and after at least one token (or from a closed output) the output is empty or ends in a sync |
| KeyTrans.PressModifiers | keytrans.py:87-101 | the prefix loop leaves the text after the prefixes, with one press added to the output and one release added to the release list per prefix, in order |
| KeyTrans.PressKey | keytrans.py:102-111 | the key part appends exactly the records of the suffix rules |
| KeyTrans.MakeKeyEvents | keytrans.py:81-117 | the token loop yields the expansion of the keystring |
| KeyTrans.TokenStepUntap | keytrans.py:91-114 | after a token the release list holds the earlier releases and the token's own, none dropped |
| KeyTrans.ExpandTokensKeepsUntap | keytrans.py:84-116 | a release pending before some tokens is still pending after them |
| KeyTrans.TokenStepExtends | keytrans.py:86-116 | a token only appends to the output so far |
| KeyTrans.ExpandTokensExtends | keytrans.py:85-116 | a run of tokens only appends to the output so far |
| KeyTrans.TokenStepSyncs | keytrans.py:115-116 | once anything has been produced, every further token, even an unknown one, adds at least a sync |
| KeyTrans.PlainTokenStep | keytrans.py:102-116 | a bare known key gives its press and release, every pending release again, and a sync |
| KeyTrans.CtrlStrip | keytrans.py:92-95 | `Ctrl-` before a dash-free name strips to Ctrl and the name |
| KeyTrans.CtrlTokenStep | keytrans.py:92-116 | `Ctrl-` before a known key adds Ctrl's press and puts its release on the release list |
| KeyTrans.UnknownKeyReleasesModifiers | keytrans.py:104-114 | an unknown key name still presses the token's modifiers, and every one of their releases follows in the output |
| KeyTrans.CtrlUnknownTokenStep | keytrans.py:92-116 | `Ctrl-` before an unknown dash-free name adds Ctrl's press, then every pending release with Ctrl's reversed, then a sync |
| KeyTrans.CtrlUnknownFresh | keytrans.py:81-117 | on its own, `Ctrl-` before an unknown name yields Ctrl down, Ctrl up and a sync |
| KeyTrans.ExpandTwo | keytrans.py:83-85 | two space-separated tokens expand one after the other |
| KeyTrans.TwoTokens | keytrans.py:81-117 | `Ctrl-a b` expands to Ctrl, a, a up, Ctrl up, sync, b, b up, Ctrl up again, sync |
| Keymap.ClassifyLine | keytrans.py:126-133 | a blank or `#` line is skipped, a line without `=` is malformed, and a rule's signature holds no `=` and has at least one action |
| Keymap.ClassifyRuleLine | keytrans.py:130-133 | a rule line is cut at its first `=`, the left side stripped, the right side split at every `;` |
| Keymap.BuildTable | keytrans.py:123-133 | loading fails only at the index of a line |
| Keymap.ParseRules | keytrans.py:126-133 | definition of loading: classify each line, then build the table; its properties are `FirstMalformed`, `FailureSticks`, `RulesDomain` and `LastDefinitionWins` |
| Keymap.FirstMalformed | keytrans.py:126-133 | loading fails exactly when a line is malformed, and then at the first such line |
| Keymap.FailureSticks | keytrans.py:126-133 | once a prefix of the file fails to load, the whole file fails at the same line |
| Keymap.RulesDomain | keytrans.py:126-133 | the table holds a rule for exactly the signatures some line defines |
| Keymap.LastDefinitionWins | keytrans.py:133 | of several rules for one signature, the last one is kept |
| Keymap.LoadRules | keytrans.py:120-133 | the loading loop yields the table the rule lines define, or the index of the first malformed line |
| Keymap.NewKeymapParser | keytrans.py:120-133 | a new parser has the loaded table, an empty queue and no variables; loading fails exactly when the file has a malformed line |
| Keymap.KeymapParser.constructor | keytrans.py:123-125 | the queue and the variables start empty |
| Keymap.LookupKeyIsJoin | keytrans.py:136-139 | the lookup key is the space-join of the signatures of the queue and then the new key |
| Keymap.LookupKey | keytrans.py:136-139 | definition of the lookup key; `LookupKeyIsJoin` states what it is |
| Keymap.ForwardEvents | keytrans.py:161-162 | definition of the replay of a queue; `ForwardEventsAppend` and `ForwardReplays` state its properties |
| Keymap.VerbOf | keytrans.py:148-203 | definition of which test of the action chain an action passes first; `VerbOfMeans`, `SetVerbOf` and `CallVerbOf` state its properties |
| Keymap.VerbOfMeans | keytrans.py:164-184 | `wait` and `clear` are recognised only as whole words, `exec`, `set` and `call` only with their prefix and a space |
| Keymap.Effect | keytrans.py:158-203 | definition of one action that passed the gate; `ForwardReplays`, `WaitAndClear`, `SendStep`, `SetDispatch`, `CallDispatch` and `UnknownActionSkipped` state its cases |
| Keymap.ExecAction | keytrans.py:147-203 | definition of one action with the gate; `IfSetsGate`, `ElseFlipsGate` and `ClosedGateSkips` state its gate rules |
| Keymap.RunActions | keytrans.py:144-205 | definition of a rule's action loop; `QueueOnlyByWaitAndClear`, `VarsOnlyBySetExecCall`, `SetFailureDiscards` and `CallShortCircuits` state its properties |
| Keymap.Dispatch | keytrans.py:134-207 | definition of one key through the table; `DispatchMiss`, `WaitQueues`, `ForwardAndClear` and `WaitThenForward` state its properties |
| Keymap.CallTarget | keytrans.py:186-194 | a call target has a non-empty module name and a non-empty function name |
| Keymap.DispatchMiss | keytrans.py:206-207 | an unknown key sequence yields nothing and leaves queue and variables unchanged |
| Keymap.IfSetsGate | keytrans.py:148-151 | `if e` sets the gate to the truth of `e` even while closed, and raises when `e` raises |
| Keymap.ElseFlipsGate | keytrans.py:152-154 | any action starting with `else` flips the gate |
| Keymap.ClosedGateSkips | keytrans.py:155-157 | while the gate is closed every other action is skipped |
| Keymap.SendStep | keytrans.py:158-159 | `send` appends the expansion of its keys while the gate is open and is skipped while it is closed |
| Keymap.IfElseSendsOneBranch | keytrans.py:146-159 | `if e; send x; else; send y` sends exactly `x` when `e` is true and exactly `y` when it is false, changing nothing else |
| Keymap.ForwardEventsAppend | keytrans.py:161-162 | the replay of a queue is the replays of its parts, in order |
| Keymap.ForwardReplays | keytrans.py:160-163 | `forward` appends the replay of every queued key and then of the current one, and keeps the queue |
| Keymap.WaitAndClear | keytrans.py:164-167 | `wait` queues the current key and `clear` empties the queue; neither produces records |
| Keymap.SetDispatch | keytrans.py:177 | an open-gate action starting with `set ` is carried out as a `set` |
| Keymap.SetFailureDiscards | keytrans.py:177-183 | a `set` whose expression raises ends the call with no records, dropping earlier output but keeping earlier state changes |
| Keymap.SetWithoutValueRaises | keytrans.py:178 | a `set` with nothing after the name raises out of the call |
| Keymap.CallDispatch | keytrans.py:184 | an open-gate action starting with `call ` is carried out as a `call` |
| Keymap.CallDropsOneCharacter | keytrans.py:189-193 | the target is read from the seventh character on, so the character after `call ` is lost |
| Keymap.CallWithArgument | keytrans.py:189-191 | `module:function:argument` after the lost character names the function and its argument |
| Keymap.CallShortCircuits | keytrans.py:194-201 | a call with a target ends the call with the function's records (none if it raised), skipping the remaining actions |
| Keymap.CallWithoutTargetIsSkipped | keytrans.py:189-194 | a call without a `:` in its target does nothing |
| Keymap.UnknownActionSkipped | keytrans.py:168-172 | `none`, `echo` and unknown actions change nothing |
| Keymap.SetVerbOf | keytrans.py:148-177 | an action starting with `set ` passes every earlier test and is taken as a `set` |
| Keymap.CallVerbOf | keytrans.py:148-184 | an action starting with `call ` passes every earlier test and is taken as a `call` |
| Keymap.ExecActionKeepsQueue | keytrans.py:146-205 | an action other than `wait` and `clear` that lets the loop go on leaves the queue as it was |
| Keymap.ExecActionKeepsVars | keytrans.py:146-205 | an action not starting with `set `, `exec ` or `call ` that lets the loop go on leaves the variables as they were |
| Keymap.QueueOnlyByWaitAndClear | keytrans.py:146-205 | a rule without `wait` or `clear` leaves the queue as it was |
| Keymap.VarsOnlyBySetExecCall | keytrans.py:146-205 | a rule without `set`, `exec` or `call` leaves the variables as they were |
| Keymap.WaitQueues | keytrans.py:164-165 | a key whose rule is `wait` is queued and yields nothing |
| Keymap.ForwardAndClear | keytrans.py:160-167 | a key whose rule is `forward; clear` replays the queue and itself and empties the queue |
| Keymap.WaitThenForward | keytrans.py:134-207 | the first key of a two-key rule is held back and replayed, in order, with the second |
| Keymap.KeymapParser.Forward | keytrans.py:160-163 | the loop appends the replay of each queued key and then of the current key |
| Keymap.KeymapParser.Perform | keytrans.py:158-203 | one gated action changes the state and output as its specification says, and reports when it ends the call |
| Keymap.KeymapParser.Exec | keytrans.py:173-176 | `exec` binds `res` to None, runs the statement and raises when it raises |
| Keymap.KeymapParser.Set | keytrans.py:177-183 | `set` yields the variables with the name bound, returns no records when the expression raises, and raises without a space after the name |
| Keymap.KeymapParser.Call | keytrans.py:184-201 | `call` with both names ends the call with the function's records, and otherwise does nothing |
| Keymap.KeymapParser.RunAction | keytrans.py:146-203 | one action, `if` and `else` included, changes the gate, state and output as the step specification says, and reports when it ends the call |
| Keymap.KeymapParser.Process | keytrans.py:134-207 | the new queue, variables and result are those of the lookup-and-run specification |
| HamaControl.ModCode | hamacontrol.py:61-70 | the mask is below 8 and its Shift, Ctrl and Alt bits are the three flags |
| HamaControl.ModCodeOfBits | hamacontrol.py:61-70 | every mask below 8 is the code of its own three bits |
| HamaControl.React | hamacontrol.py:71-98 | definition of one event through the device; `ModifierKeySetsFlag`, `OtherKeyDispatches`, `MotionIsHeld`, `QuietEvents` and `ReactFlag` state its cases |
| HamaControl.ReactAll | hamacontrol.py:71-98 | definition of a stream through the device, stopping at a raise; `ReactAllAppend`, `MotionThenSync` and `FlagFollowsLastModifierKey` state its properties |
| HamaControl.QuietEvents | hamacontrol.py:73-97 | a miscellaneous event, a marker with no motion held, and an event of any other type leave the device unchanged and send nothing |
| HamaControl.ModifierKeySetsFlag | hamacontrol.py:78-87 | a left or right modifier key sets only its own flag, to whether its value is non-zero, and sends nothing |
| HamaControl.OtherKeyDispatches | hamacontrol.py:88-89 | any other key goes to the parser with a mask whose bits are the flags; exactly the parser's records are sent, and a raise propagates |
| HamaControl.SendsOnlyOnSyncOrKey | hamacontrol.py:71-98 | records are sent only for a synchronisation marker or a non-modifier key |
| HamaControl.MotionIsHeld | hamacontrol.py:75-77 | relative and absolute motion events are held in arrival order and nothing is sent |
| HamaControl.ReactAllAppend | hamacontrol.py:71-98 | handling a stream in two pieces is handling all of it, unless the first piece raised |
| HamaControl.MotionThenSync | hamacontrol.py:75-95 | motion and then a marker sends the held motion and one marker, and leaves nothing held |
| HamaControl.ReactFlag | hamacontrol.py:78-87 | an event moves a flag only when it is that flag's modifier key |
| HamaControl.FlagKeptWithoutItsKeys | hamacontrol.py:78-87 | a flag whose keys do not occur in a stream keeps its value |
| HamaControl.FlagFollowsLastModifierKey | hamacontrol.py:78-87 | after a stream each flag holds the value of the last event of its keys |
| HamaControl.ForwardDevice.constructor | hamacontrol.py:44-54 | the flags start cleared and no motion is held |
| HamaControl.OutputDevice.SendEvent | hamacontrol.py:59 | the event is appended to the output device's log |
| HamaControl.ForwardDevice.SendAll | hamacontrol.py:56-59 | the events reach the output device one by one, in order |
| HamaControl.ForwardDevice.Receive | hamacontrol.py:71-98 | the new flags, held motion, parser state and sent records are those of the one-event specification |
| HamaControl.HandlerIsLastEventToken | hamacontrol.py:22-28 | the handler is the last token containing `event`, and there is none exactly when no token does |
| HamaControl.ScanHandlers | hamacontrol.py:22-28 | the token loop finds that handler and whether any token names a mouse |
| HamaControl.ExamineBlock | hamacontrol.py:20-32 | definition of the examination of a finished block; `RemoteBlockExamined` and `OneBlockDetected` state its cases |
| HamaControl.ScanLine | hamacontrol.py:19-36 | definition of one listing line; `FieldLine`, `ScanLineKeepsHandlers` and `BlankLineCloses` state its cases |
| HamaControl.ScanFrom | hamacontrol.py:18-36 | definition of the line loop, stopping at the first failure |
| HamaControl.Detect | hamacontrol.py:13-37 | definition of the detection from a listing; `NoRemoteFound`, `NoBlankLineNoHandlers` and `OneBlockDetected` state its properties |
| HamaControl.FieldLine | hamacontrol.py:33-36 | a line `key:value` records the stripped value under the key |
| HamaControl.BlankLineCloses | hamacontrol.py:19-20 | a blank line after some fields examines the block |
| HamaControl.RemoteBlockExamined | hamacontrol.py:20-32 | a blank line closing the remote's block stores the last event handler as the mouse when some handler token names a mouse, else as the keyboard, and keeps the fields |
| HamaControl.OneBlockDetected | hamacontrol.py:13-37 | a one-block listing yields its event handler as the mouse or keyboard, by whether a handler token names a mouse, exactly when the block names the remote, and nothing otherwise |
| HamaControl.ExampleHandlers | hamacontrol.py:24-28 | the handlers line `Handlers=mouse0 event3` names a mouse and the event device `event3` |
| HamaControl.FieldsPersist | hamacontrol.py:15-36 | fields are never dropped: a field seen in one block is still there in the later ones |
| HamaControl.ScanLineKeepsHandlers | hamacontrol.py:19-36 | a line that does not name the remote changes no handler and does not make the name the remote's |
| HamaControl.NoRemoteNoHandlers | hamacontrol.py:13-37 | without a line naming the remote, the handlers stay as they were |
| HamaControl.NoRemoteFound | hamacontrol.py:13-37 | a listing that never names the remote yields no handlers, if it scans at all |
| HamaControl.NoBlankLineNoHandlers | hamacontrol.py:20-32 | without a blank line no block is examined and no handler is found |
| HamaControl.DetectHamaMce | hamacontrol.py:13-37 | the line loop yields the handlers the scan specification finds, or the field or line that makes it raise |

## Left out

- Reading the rule file, the device listing and the input devices is
  not modelled. The model takes lines of text and events as parameters.
  This leaves out `main`, the poll loop, the grab `ioctl`, command-line
  handling, `test()` and the `__main__` block.
- The virtual output device is a log of the records sent to it. The
  `uinput` module is not part of this model.
- The Python host's `eval`, `exec`, `compile` and `__import__` are
  parameters (`Evaluator`). The side effects of an evaluated expression
  or statement on the variables are whatever those functions return. The
  `if` and `set` evaluators get the variables but cannot change them.
- The `queue` variable bound for evaluated code is a copy of the queue,
  not the same list. In the source, code that mutates `queue` also
  mutates the parser's queue; that aliasing is not modelled.
- `if`'s truth test covers only the values the model names
  (`Value.Truthy`); Python's full truthiness is not modelled.
- The concrete scancode table and its reverse are parameters.
  - Which of several names for one code the reverse table keeps depends
    on dictionary iteration order, so it is not modelled.
  - `hasattr(scancodes, k)` becomes membership in the table.
  - `WellFormedRevmap` assumes the reverse table holds only `KEY_`/`BTN_`
    names, as it is built.
- Logging, `echo`'s message and the "Unhandled event" message are not
  modelled. The "Unknown key" and "Unknown action" warnings become plain
  skips.
- The unused `ForwardDevice` fields `state`, `doq` and `keyev`, the
  `keyup` property and `__repr__` are not modelled.
- `Keymap.KeymapParser.Process` reports every exception, whether
  raised by `if`, by `exec` or by a `set` that cannot be split, as the
  same `Raised`. The model does not tell these exceptions apart.
- `HamaControl.ForwardDevice.Receive` reports a parser exception as
  `raised`. A rule file that fails to load is the `Failure` of
  `Keymap.NewKeymapParser`; constructing a `ForwardDevice` from a file
  name is not modelled.
- `HamaControl.DetectHamaMce` reports which field was missing
  (`MissingField`) or which line lacked a `:` (`NoColon`). Python's
  exception types and messages are not modelled.
- Python's `str.strip()` is modelled for the six ASCII whitespace
  characters that Python 2 byte strings strip.
