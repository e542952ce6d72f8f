/**
 * The input normaliser in front of the rule interpreter: it tracks the
 * Ctrl/Alt/Shift flags, drops miscellaneous events, holds pointer motion
 * until the next synchronisation marker, and hands every other key to the
 * keymap parser, sending what comes back to the output device. Also the
 * scan of the kernel's input-device listing that finds the remote's
 * keyboard and mouse handlers.
 */
module HamaControl {
  import opened Common
  import opened Text
  import opened Events
  import opened KeyTrans
  import opened Keymap

  // ---------------------------------------------------------------------
  // Modifier state
  // ---------------------------------------------------------------------

  /** The modifier bit mask of the three flags: Shift 1, Ctrl 2, Alt 4. */
  function ModCode(shift: bool, ctrl: bool, alt: bool): (code: nat)
    ensures code < 8
    ensures HasMod(code, MOD_SHIFT) == shift
    ensures HasMod(code, MOD_CTRL) == ctrl
    ensures HasMod(code, MOD_ALT) == alt
  {
    (if shift then 1 else 0) + (if ctrl then 2 else 0) + (if alt then 4 else 0)
  }

  /** Every mask below 8 is the code of exactly its own three bits. */
  lemma ModCodeOfBits(m: nat)
    requires m < 8
    ensures ModCode(HasMod(m, MOD_SHIFT), HasMod(m, MOD_CTRL), HasMod(m, MOD_ALT)) == m
  {
    assert m == 0 || m == 1 || m == 2 || m == 3 || m == 4 || m == 5 || m == 6 || m == 7;
  }

  datatype Modifier = Ctrl | Alt | Shift

  /** The key codes that drive each flag: the left and the right key. */
  predicate IsModifierKey(e: InputEvent, m: Modifier) {
    e.etype == EV_KEY &&
    match m
    case Ctrl => e.ecode == KEY_LEFTCTRL || e.ecode == KEY_RIGHTCTRL
    case Alt => e.ecode == KEY_LEFTALT || e.ecode == KEY_RIGHTALT
    case Shift => e.ecode == KEY_LEFTSHIFT || e.ecode == KEY_RIGHTSHIFT
  }

  predicate IsAnyModifierKey(e: InputEvent) {
    IsModifierKey(e, Ctrl) || IsModifierKey(e, Alt) || IsModifierKey(e, Shift)
  }

  // ---------------------------------------------------------------------
  // The normaliser as a function of its state
  // ---------------------------------------------------------------------

  /** The normaliser's state: the flags, the held motion events and the parser's session. */
  datatype Device = Device(ctrl: bool, alt: bool, shift: bool, mouseev: seq<InputEvent>, session: Session)

  function Flag(d: Device, m: Modifier): bool {
    match m
    case Ctrl => d.ctrl
    case Alt => d.alt
    case Shift => d.shift
  }

  /** The state after one event, the records sent for it, and whether the parser raised. */
  datatype Reaction = Reaction(device: Device, sent: seq<InputEvent>, raised: bool)

  /**
   * One incoming event: miscellaneous events are dropped; motion is held;
   * a modifier key sets its flag to whether its value is non-zero; any
   * other key goes through the rules with the current modifier mask; a
   * synchronisation marker (type 0) sends the held motion and one marker;
   * other event types are ignored.
   */
  function React(ctx: Context, rules: RuleTable, d: Device, e: InputEvent): Reaction {
    if e.etype == EV_MSC then
      Reaction(d, [], false)
    else if e.etype == EV_REL || e.etype == EV_ABS then
      Reaction(d.(mouseev := d.mouseev + [e]), [], false)
    else if e.etype == EV_KEY then
      if e.ecode == KEY_LEFTCTRL || e.ecode == KEY_RIGHTCTRL then
        Reaction(d.(ctrl := e.evalue != 0), [], false)
      else if e.ecode == KEY_LEFTALT || e.ecode == KEY_RIGHTALT then
        Reaction(d.(alt := e.evalue != 0), [], false)
      else if e.ecode == KEY_LEFTSHIFT || e.ecode == KEY_RIGHTSHIFT then
        Reaction(d.(shift := e.evalue != 0), [], false)
      else
        var o := Dispatch(ctx, rules, KeyEvent(e, ModCode(d.shift, d.ctrl, d.alt)), d.session);
        match o.exit
        case Raised => Reaction(d.(session := o.session), [], true)
        case Returned(evs) => Reaction(d.(session := o.session), evs, false)
    else if e.etype == 0 then
      if d.mouseev != [] then Reaction(d.(mouseev := []), d.mouseev + [SYNC], false)
      else Reaction(d, [], false)
    else
      Reaction(d, [], false)
  }

  /** A stream of events, stopping at the first one whose handling raises. */
  function ReactAll(ctx: Context, rules: RuleTable, d: Device, events: seq<InputEvent>): Reaction
    decreases |events|
  {
    if events == [] then Reaction(d, [], false)
    else
      var r := React(ctx, rules, d, events[0]);
      if r.raised then r
      else
        var rest := ReactAll(ctx, rules, r.device, events[1..]);
        Reaction(rest.device, r.sent + rest.sent, rest.raised)
  }

  // ---------------------------------------------------------------------
  // Properties of the normaliser
  // ---------------------------------------------------------------------

  /** A modifier key changes only its own flag, and sends nothing. */
  lemma ModifierKeySetsFlag(ctx: Context, rules: RuleTable, d: Device, e: InputEvent, m: Modifier)
    requires IsModifierKey(e, m)
    ensures Flag(React(ctx, rules, d, e).device, m) == (e.evalue != 0)
    ensures forall m' :: m' != m ==> Flag(React(ctx, rules, d, e).device, m') == Flag(d, m')
    ensures React(ctx, rules, d, e).device.mouseev == d.mouseev
    ensures React(ctx, rules, d, e).device.session == d.session
    ensures React(ctx, rules, d, e).sent == [] && !React(ctx, rules, d, e).raised
  {
  }

  /**
   * Any other key is handed to the rules with a mask whose bits are the
   * flags; the flags and the held motion stay, and exactly the rule's
   * records are sent.
   */
  lemma OtherKeyDispatches(ctx: Context, rules: RuleTable, d: Device, e: InputEvent)
    requires e.etype == EV_KEY && !IsAnyModifierKey(e)
    ensures
      var k := KeyEvent(e, ModCode(d.shift, d.ctrl, d.alt));
      var o := Dispatch(ctx, rules, k, d.session);
      var r := React(ctx, rules, d, e);
      && HasMod(k.modstate, MOD_CTRL) == d.ctrl
      && HasMod(k.modstate, MOD_ALT) == d.alt
      && HasMod(k.modstate, MOD_SHIFT) == d.shift
      && r.device == d.(session := o.session)
      && r.raised == o.exit.Raised?
      && r.sent == (if o.exit.Returned? then o.exit.events else [])
  {
  }

  /**
   * Miscellaneous events, a marker with no motion held, and events of any
   * type the normaliser does not know leave the device as it was and send
   * nothing.
   */
  lemma QuietEvents(ctx: Context, rules: RuleTable, d: Device, e: InputEvent)
    ensures e.etype == EV_MSC ==> React(ctx, rules, d, e) == Reaction(d, [], false)
    ensures e.etype == 0 && d.mouseev == [] ==> React(ctx, rules, d, e) == Reaction(d, [], false)
    ensures e.etype !in {0, EV_KEY, EV_REL, EV_ABS, EV_MSC} ==> React(ctx, rules, d, e) == Reaction(d, [], false)
  {
  }

  /** Records go out only for a synchronisation marker or a non-modifier key. */
  lemma SendsOnlyOnSyncOrKey(ctx: Context, rules: RuleTable, d: Device, e: InputEvent)
    requires React(ctx, rules, d, e).sent != []
    ensures e.etype == 0 || (e.etype == EV_KEY && !IsAnyModifierKey(e))
  {
  }

  /** Motion events are held back in arrival order, and nothing is sent meanwhile. */
  lemma {:induction false} MotionIsHeld(ctx: Context, rules: RuleTable, d: Device, events: seq<InputEvent>)
    requires forall i :: 0 <= i < |events| ==> events[i].etype == EV_REL || events[i].etype == EV_ABS
    ensures ReactAll(ctx, rules, d, events) == Reaction(d.(mouseev := d.mouseev + events), [], false)
    decreases |events|
  {
    if events != [] {
      var d' := d.(mouseev := d.mouseev + [events[0]]);
      MotionIsHeld(ctx, rules, d', events[1..]);
      assert d.mouseev + [events[0]] + events[1..] == d.mouseev + events by {
        assert [events[0]] + events[1..] == events;
        Assoc(d.mouseev, [events[0]], events[1..]);
      }
    }
  }

  /** Handling a stream in two pieces is handling the whole of it, unless the first piece raised. */
  lemma {:induction false} ReactAllAppend(ctx: Context, rules: RuleTable, d: Device, a: seq<InputEvent>, b: seq<InputEvent>)
    requires !ReactAll(ctx, rules, d, a).raised
    ensures
      var ra := ReactAll(ctx, rules, d, a);
      var rb := ReactAll(ctx, rules, ra.device, b);
      ReactAll(ctx, rules, d, a + b) == Reaction(rb.device, ra.sent + rb.sent, rb.raised)
    decreases |a|
  {
    if a == [] {
      assert a + b == b;
    } else {
      var r := React(ctx, rules, d, a[0]);
      assert (a + b)[0] == a[0] && (a + b)[1..] == a[1..] + b;
      ReactAllAppend(ctx, rules, r.device, a[1..], b);
      var ra' := ReactAll(ctx, rules, r.device, a[1..]);
      var rb := ReactAll(ctx, rules, ra'.device, b);
      Assoc(r.sent, ra'.sent, rb.sent);
    }
  }

  /**
   * A run of motion events followed by a synchronisation marker sends
   * the held motion, the run, and one marker, and leaves nothing held.
   */
  lemma MotionThenSync(ctx: Context, rules: RuleTable, d: Device, events: seq<InputEvent>, sync: InputEvent)
    requires forall i :: 0 <= i < |events| ==> events[i].etype == EV_REL || events[i].etype == EV_ABS
    requires sync.etype == 0 && d.mouseev + events != []
    ensures ReactAll(ctx, rules, d, events + [sync]).sent == d.mouseev + events + [SYNC]
    ensures ReactAll(ctx, rules, d, events + [sync]).device.mouseev == []
  {
    MotionIsHeld(ctx, rules, d, events);
    ReactAllAppend(ctx, rules, d, events, [sync]);
    var d' := d.(mouseev := d.mouseev + events);
    assert ReactAll(ctx, rules, d', [sync]) == Reaction(d'.(mouseev := []), d.mouseev + events + [SYNC], false) by {
      assert [sync][1..] == [];
    }
  }

  /** One event moves a flag only when it is that flag's modifier key. */
  lemma ReactFlag(ctx: Context, rules: RuleTable, d: Device, e: InputEvent, m: Modifier)
    ensures Flag(React(ctx, rules, d, e).device, m) ==
      if IsModifierKey(e, m) then e.evalue != 0 else Flag(d, m)
  {
  }

  lemma ReactAllStep(ctx: Context, rules: RuleTable, d: Device, events: seq<InputEvent>)
    requires events != [] && !ReactAll(ctx, rules, d, events).raised
    ensures !React(ctx, rules, d, events[0]).raised
    ensures
      var rest := ReactAll(ctx, rules, React(ctx, rules, d, events[0]).device, events[1..]);
      !rest.raised && ReactAll(ctx, rules, d, events).device == rest.device
  {
  }

  /** A flag whose modifier keys do not occur keeps its value. */
  lemma {:induction false} FlagKeptWithoutItsKeys(
    ctx: Context, rules: RuleTable, d: Device, events: seq<InputEvent>, m: Modifier)
    requires !ReactAll(ctx, rules, d, events).raised
    requires forall i :: 0 <= i < |events| ==> !IsModifierKey(events[i], m)
    ensures Flag(ReactAll(ctx, rules, d, events).device, m) == Flag(d, m)
    decreases |events|
  {
    if events != [] {
      ReactAllStep(ctx, rules, d, events);
      ReactFlag(ctx, rules, d, events[0], m);
      var tail := events[1..];
      assert forall j :: 0 <= j < |tail| ==> !IsModifierKey(tail[j], m) by {
        forall j | 0 <= j < |tail| ensures !IsModifierKey(tail[j], m) {
          assert tail[j] == events[j + 1];
        }
      }
      FlagKeptWithoutItsKeys(ctx, rules, React(ctx, rules, d, events[0]).device, tail, m);
    }
  }

  /** Each flag holds the value of the last event of its modifier keys. */
  lemma {:induction false} FlagFollowsLastModifierKey(
    ctx: Context, rules: RuleTable, d: Device, events: seq<InputEvent>, m: Modifier, i: nat)
    requires !ReactAll(ctx, rules, d, events).raised
    requires i < |events| && IsModifierKey(events[i], m)
    requires forall j :: i < j < |events| ==> !IsModifierKey(events[j], m)
    ensures Flag(ReactAll(ctx, rules, d, events).device, m) == (events[i].evalue != 0)
    decreases |events|
  {
    ReactAllStep(ctx, rules, d, events);
    ReactFlag(ctx, rules, d, events[0], m);
    var d' := React(ctx, rules, d, events[0]).device;
    var tail := events[1..];
    if i > 0 {
      assert tail[i - 1] == events[i];
      assert forall j :: i - 1 < j < |tail| ==> !IsModifierKey(tail[j], m) by {
        forall j | i - 1 < j < |tail| ensures !IsModifierKey(tail[j], m) {
          assert tail[j] == events[j + 1];
        }
      }
      FlagFollowsLastModifierKey(ctx, rules, d', tail, m, i - 1);
    } else {
      assert forall j :: 0 <= j < |tail| ==> !IsModifierKey(tail[j], m) by {
        forall j | 0 <= j < |tail| ensures !IsModifierKey(tail[j], m) {
          assert tail[j] == events[j + 1];
        }
      }
      FlagKeptWithoutItsKeys(ctx, rules, d', tail, m);
    }
  }

  // ---------------------------------------------------------------------
  // The devices
  // ---------------------------------------------------------------------

  /** The virtual output device: everything sent to it, in order. */
  class OutputDevice {
    var log: seq<InputEvent>

    constructor()
      ensures log == []
    {
      log := [];
    }

    method SendEvent(e: InputEvent)
      modifies this
      ensures log == old(log) + [e]
    {
      log := log + [e];
    }
  }

  class ForwardDevice {
    const udev: OutputDevice
    const parser: KeymapParser
    var ctrl: bool
    var alt: bool
    var shift: bool
    /** Motion events held until the next synchronisation marker. */
    var mouseev: seq<InputEvent>

    constructor(udev: OutputDevice, parser: KeymapParser)
      ensures this.udev == udev && this.parser == parser
      ensures !ctrl && !alt && !shift && mouseev == []
    {
      this.udev := udev;
      this.parser := parser;
      ctrl, alt, shift := false, false, false;
      mouseev := [];
    }

    /** The normaliser's state as a value. */
    function State(): Device
      reads this, parser
    {
      Device(ctrl, alt, shift, mouseev, Session(parser.queue, parser.vars))
    }

    /** Sends `events` one by one, in order. */
    method SendAll(events: seq<InputEvent>)
      modifies udev
      ensures udev.log == old(udev.log) + events
    {
      for i := 0 to |events|
        invariant udev.log == old(udev.log) + events[..i]
      {
        assert events[..i + 1] == events[..i] + [events[i]];
        udev.SendEvent(events[i]);
      }
      assert events[..|events|] == events;
    }

    /** Handles one incoming event; `raised` when the rule interpreter raised. */
    method Receive(ctx: Context, event: InputEvent) returns (raised: bool)
      modifies this, udev, parser
      ensures
        var r := React(ctx, parser.rules, old(State()), event);
        && State() == r.device
        && udev.log == old(udev.log) + r.sent
        && raised == r.raised
    {
      raised := false;
      if event.etype == EV_MSC {
        return;
      } else if event.etype == EV_REL || event.etype == EV_ABS {
        mouseev := mouseev + [event];
        return;
      } else if event.etype == EV_KEY {
        if event.ecode == KEY_LEFTCTRL || event.ecode == KEY_RIGHTCTRL {
          ctrl := event.evalue != 0;
          return;
        } else if event.ecode == KEY_LEFTALT || event.ecode == KEY_RIGHTALT {
          alt := event.evalue != 0;
          return;
        } else if event.ecode == KEY_LEFTSHIFT || event.ecode == KEY_RIGHTSHIFT {
          shift := event.evalue != 0;
          return;
        } else {
          var exit := parser.Process(ctx, KeyEvent(event, ModCode(shift, ctrl, alt)));
          if exit.Raised? {
            return true;
          }
          SendAll(exit.events);
        }
      } else if event.etype == 0 {
        if mouseev != [] {
          SendAll(mouseev + [SYNC]);
          mouseev := [];
        }
        return;
      }
    }
  }

  // ---------------------------------------------------------------------
  // Finding the remote in the input-device listing
  // ---------------------------------------------------------------------

  /** The `N:` value that identifies the remote. */
  const REMOTE_NAME := "Name=\"HID 05a4:9881\""

  predicate IsMouseToken(h: string) {
    Contains(h, "mouse")
  }

  predicate IsEventToken(h: string) {
    Contains(h, "event")
  }

  /** Some handler token names a mouse. */
  predicate AnyMouse(tokens: seq<string>) {
    exists i :: 0 <= i < |tokens| && IsMouseToken(tokens[i])
  }

  /** The last handler token naming an event device, if any. */
  function HandlerOf(tokens: seq<string>): Option<string>
    decreases |tokens|
  {
    if tokens == [] then None
    else if IsEventToken(tokens[|tokens| - 1]) then Some(tokens[|tokens| - 1])
    else HandlerOf(tokens[..|tokens| - 1])
  }

  /**
   * The handler is the last token containing `event`, and there is none
   * exactly when no token contains it.
   */
  lemma {:induction false} HandlerIsLastEventToken(tokens: seq<string>)
    ensures HandlerOf(tokens).None? <==> forall i :: 0 <= i < |tokens| ==> !IsEventToken(tokens[i])
    ensures HandlerOf(tokens).Some? ==>
      exists i :: (0 <= i < |tokens| && tokens[i] == HandlerOf(tokens).value && IsEventToken(tokens[i]) &&
        forall j :: i < j < |tokens| ==> !IsEventToken(tokens[j]))
    decreases |tokens|
  {
    if tokens != [] {
      var n := |tokens| - 1;
      var init := tokens[..n];
      if IsEventToken(tokens[n]) {
        assert tokens[n] == HandlerOf(tokens).value;
      } else {
        HandlerIsLastEventToken(init);
        assert forall i :: 0 <= i < n ==> init[i] == tokens[i];
        if HandlerOf(init).Some? {
          var i :| 0 <= i < n && init[i] == HandlerOf(init).value && IsEventToken(init[i]) &&
            forall j :: i < j < n ==> !IsEventToken(init[j]);
          assert tokens[i] == HandlerOf(tokens).value && IsEventToken(tokens[i]);
        }
      }
    }
  }

  /** What the scan keeps: the fields seen so far (never reset) and the handlers found. */
  datatype Scan = Scan(entry: map<string, string>, mouse: Option<string>, kbd: Option<string>)

  /** Why the scan raises: a block without a field it reads, or a line without `:`. */
  datatype ScanError = MissingField(key: string) | NoColon(line: string)

  /**
   * A block ends: when its name is the remote's, its handler goes to
   * `mouse` if any handler token names a mouse, otherwise to `kbd`.
   */
  function ExamineBlock(st: Scan): Result<Scan, ScanError> {
    if "N" !in st.entry then Failure(MissingField("N"))
    else if st.entry["N"] != REMOTE_NAME then Success(st)
    else if "H" !in st.entry then Failure(MissingField("H"))
    else
      var tokens := Split(st.entry["H"], ' ');
      if AnyMouse(tokens) then Success(st.(mouse := HandlerOf(tokens)))
      else Success(st.(kbd := HandlerOf(tokens)))
  }

  /** One line: a blank line after fields ends a block; a `key: value` line records a field. */
  function ScanLine(line: string, st: Scan): Result<Scan, ScanError> {
    var s := Strip(line);
    if s == [] && st.entry != map[] then ExamineBlock(st)
    else if s != [] then
      match SplitOnce(s, ':')
      case None => Failure(NoColon(s))
      case Some((key, value)) => Success(st.(entry := st.entry[key := Strip(value)]))
    else Success(st)
  }

  function ScanFrom(lines: seq<string>, st: Scan): Result<Scan, ScanError>
    decreases |lines|
  {
    if lines == [] then Success(st)
    else match ScanLine(lines[0], st)
      case Failure(err) => Failure(err)
      case Success(st') => ScanFrom(lines[1..], st')
  }

  /** The remote's mouse and keyboard handlers named in a device listing. */
  function Detect(lines: seq<string>): Result<(Option<string>, Option<string>), ScanError> {
    match ScanFrom(lines, Scan(map[], None, None))
    case Failure(err) => Failure(err)
    case Success(st) => Success((st.mouse, st.kbd))
  }

  /** Fields are never dropped: every field seen stays recorded until the end. */
  lemma {:induction false} FieldsPersist(lines: seq<string>, st: Scan)
    requires ScanFrom(lines, st).Success?
    ensures st.entry.Keys <= ScanFrom(lines, st).value.entry.Keys
    decreases |lines|
  {
    if lines != [] {
      var st' := ScanLine(lines[0], st).value;
      assert st.entry.Keys <= st'.entry.Keys;
      FieldsPersist(lines[1..], st');
    }
  }

  /** A line that sets the name field to the remote's name. */
  predicate NamesRemote(line: string) {
    var s := Strip(line);
    SplitOnce(s, ':').Some? && SplitOnce(s, ':').value.0 == "N" && Strip(SplitOnce(s, ':').value.1) == REMOTE_NAME
  }

  lemma ScanLineKeepsHandlers(line: string, st: Scan)
    requires !NamesRemote(line)
    requires "N" in st.entry ==> st.entry["N"] != REMOTE_NAME
    requires ScanLine(line, st).Success?
    ensures ScanLine(line, st).value.mouse == st.mouse && ScanLine(line, st).value.kbd == st.kbd
    ensures "N" in ScanLine(line, st).value.entry ==> ScanLine(line, st).value.entry["N"] != REMOTE_NAME
  {
  }

  /** Without a line naming the remote, nothing is found. */
  lemma {:induction false} NoRemoteNoHandlers(lines: seq<string>, st: Scan)
    requires forall i :: 0 <= i < |lines| ==> !NamesRemote(lines[i])
    requires "N" in st.entry ==> st.entry["N"] != REMOTE_NAME
    requires ScanFrom(lines, st).Success?
    ensures ScanFrom(lines, st).value.mouse == st.mouse
    ensures ScanFrom(lines, st).value.kbd == st.kbd
    decreases |lines|
  {
    if lines != [] {
      var st' := ScanLine(lines[0], st).value;
      ScanLineKeepsHandlers(lines[0], st);
      assert forall i :: 0 <= i < |lines[1..]| ==> !NamesRemote(lines[1..][i]) by {
        forall i | 0 <= i < |lines[1..]| ensures !NamesRemote(lines[1..][i]) {
          assert lines[1..][i] == lines[i + 1];
        }
      }
      NoRemoteNoHandlers(lines[1..], st');
    }
  }

  /** A listing with no line naming the remote yields no handlers, if it scans at all. */
  lemma NoRemoteFound(lines: seq<string>)
    requires forall i :: 0 <= i < |lines| ==> !NamesRemote(lines[i])
    ensures Detect(lines).Success? ==> Detect(lines).value == (None, None)
  {
    if ScanFrom(lines, Scan(map[], None, None)).Success? {
      NoRemoteNoHandlers(lines, Scan(map[], None, None));
    }
  }

  /** Without a blank line no block is ever examined, so nothing is found. */
  lemma {:induction false} NoBlankLineNoHandlers(lines: seq<string>, st: Scan)
    requires forall i :: 0 <= i < |lines| ==> Strip(lines[i]) != []
    requires ScanFrom(lines, st).Success?
    ensures ScanFrom(lines, st).value.mouse == st.mouse
    ensures ScanFrom(lines, st).value.kbd == st.kbd
    decreases |lines|
  {
    if lines != [] {
      var st' := ScanLine(lines[0], st).value;
      assert forall i :: 0 <= i < |lines[1..]| ==> Strip(lines[1..][i]) != [] by {
        forall i | 0 <= i < |lines[1..]| ensures Strip(lines[1..][i]) != [] {
          assert lines[1..][i] == lines[i + 1];
        }
      }
      NoBlankLineNoHandlers(lines[1..], st');
    }
  }

  lemma ScanFromStep(lines: seq<string>, i: nat, st: Scan)
    requires i < |lines|
    ensures ScanFrom(lines[i..], st) ==
      match ScanLine(lines[i], st)
      case Failure(err) => Failure(err)
      case Success(st') => ScanFrom(lines[i + 1..], st')
  {
    assert lines[i..][1..] == lines[i + 1..];
  }

  /**
   * A blank line that ends a block naming the remote stores its handler:
   * in `mouse` when some handler token names a mouse, otherwise in `kbd`,
   * replacing whatever an earlier block stored there.
   */
  lemma RemoteBlockExamined(line: string, st: Scan)
    requires Strip(line) == [] && "N" in st.entry && st.entry["N"] == REMOTE_NAME && "H" in st.entry
    ensures ScanLine(line, st).Success? && ScanLine(line, st).value.entry == st.entry
    ensures AnyMouse(Split(st.entry["H"], ' ')) ==>
      ScanLine(line, st).value.mouse == HandlerOf(Split(st.entry["H"], ' ')) && ScanLine(line, st).value.kbd == st.kbd
    ensures !AnyMouse(Split(st.entry["H"], ' ')) ==>
      ScanLine(line, st).value.kbd == HandlerOf(Split(st.entry["H"], ' ')) && ScanLine(line, st).value.mouse == st.mouse
  {
    assert st.entry != map[];
  }

  /** A `key: value` line whose key holds no colon records the stripped value under the key. */
  lemma FieldLine(key: string, value: string, st: Scan)
    requires key != [] && ':' !in key && !IsSpace(key[0])
    requires value == [] || !IsSpace(value[|value| - 1])
    ensures ScanLine(key + ":" + value, st) == Success(st.(entry := st.entry[key := Strip(value)]))
  {
    var line := key + ":" + value;
    assert line[0] == key[0] && line[|line| - 1] == (if value == [] then ':' else value[|value| - 1]);
    assert Strip(line) == line;
    SplitOnceAt(key, ':', value);
  }

  /** A value after `: ` loses the single leading space. */
  lemma StripLeadingSpace(v: string)
    requires v != [] && !IsSpace(v[0]) && !IsSpace(v[|v| - 1])
    ensures Strip(" " + v) == v
  {
    assert (" " + v)[1..] == v;
    assert TrimLeft(" " + v) == v;
  }

  /** The handler field of the example listing splits into two tokens. */
  lemma ExampleSplit()
    ensures Split("Handlers=mouse0 event3", ' ') == ["Handlers=mouse0", "event3"]
  {
    var a, b := "Handlers=mouse0", "event3";
    assert ' ' !in a && ' ' !in b;
    SplitOnceAt(a, ' ', b);
    assert a + [' '] + b == "Handlers=mouse0 event3";
    assert SplitOnce(b, ' ') == None;
  }

  /** The first example token names a mouse. */
  lemma ExampleMouse()
    ensures AnyMouse(["Handlers=mouse0", "event3"])
  {
    ContainsMiddle("Handlers=", "mouse", "0");
    assert "Handlers=" + "mouse" + "0" == ["Handlers=mouse0", "event3"][0];
  }

  /** The last example token names an event device. */
  lemma ExampleHandler()
    ensures HandlerOf(["Handlers=mouse0", "event3"]) == Some("event3")
  {
    var t := "event3";
    assert t[..5] == "event";
    assert StartsWith(t, "event");
    assert IsEventToken(t);
    assert ["Handlers=mouse0", "event3"][1] == t;
  }

  /** A field line written as the listing writes it: the key, a colon, a space, the value. */
  lemma FieldText(key: string, v: string)
    ensures key + ": " + v == key + ":" + (" " + v)
  {
    assert ": " == ":" + " ";
    Assoc(key + ":", " ", v);
  }

  /** Scanning a line that succeeds continues from the state it leaves. */
  lemma ScanFromCons(line: string, rest: seq<string>, st: Scan, st': Scan)
    requires ScanLine(line, st) == Success(st')
    ensures ScanFrom([line] + rest, st) == ScanFrom(rest, st')
  {
    assert ([line] + rest)[1..] == rest;
  }

  /** A field line `key: value` at the head of a listing records the value before the rest is scanned. */
  lemma FieldStep(key: string, v: string, rest: seq<string>, st: Scan)
    requires key != [] && ':' !in key && !IsSpace(key[0])
    requires v != [] && !IsSpace(v[0]) && !IsSpace(v[|v| - 1])
    ensures ScanFrom([key + ": " + v] + rest, st) == ScanFrom(rest, st.(entry := st.entry[key := v]))
  {
    FieldText(key, v);
    StripLeadingSpace(v);
    assert (" " + v)[|" " + v| - 1] == v[|v| - 1];
    FieldLine(key, " " + v, st);
    ScanFromCons(key + ": " + v, rest, st, st.(entry := st.entry[key := v]));
  }

  /** A pair of lines ahead of the rest, as two conses. */
  lemma PairThen<T>(a: T, b: T, rest: seq<T>)
    ensures [a, b] + rest == [a] + ([b] + rest)
  {
    assert ([a] + ([b] + rest))[1..] == [b] + rest;
  }

  /** Two field lines at the head of a listing record both values, in order, before the rest is scanned. */
  lemma TwoFieldsScanned(k0: string, v0: string, k1: string, v1: string, rest: seq<string>, st: Scan)
    requires k0 != [] && ':' !in k0 && !IsSpace(k0[0]) && v0 != [] && !IsSpace(v0[0]) && !IsSpace(v0[|v0| - 1])
    requires k1 != [] && ':' !in k1 && !IsSpace(k1[0]) && v1 != [] && !IsSpace(v1[0]) && !IsSpace(v1[|v1| - 1])
    ensures ScanFrom([k0 + ": " + v0, k1 + ": " + v1] + rest, st)
         == ScanFrom(rest, st.(entry := st.entry[k0 := v0][k1 := v1]))
  {
    var l0, l1 := k0 + ": " + v0, k1 + ": " + v1;
    PairThen(l0, l1, rest);
    FieldStep(k0, v0, [l1] + rest, st);
    FieldStep(k1, v1, rest, st.(entry := st.entry[k0 := v0]));
  }

  /** A blank line after some fields closes the block: scanning it examines the block. */
  lemma BlankLineCloses(line: string, st: Scan)
    requires Strip(line) == [] && st.entry != map[]
    ensures ScanFrom([line], st) == ExamineBlock(st)
  {
    assert ScanFrom([line], st) == match ScanLine(line, st)
      case Failure(err) => Failure(err)
      case Success(st') => ScanFrom([], st');
  }

  /** A name line and a handlers line closed by a blank line are scanned to that block's examination. */
  lemma OneBlockScanned(name: string, h: string, blank: string, st: Scan)
    requires name != [] && !IsSpace(name[0]) && !IsSpace(name[|name| - 1])
    requires h != [] && !IsSpace(h[0]) && !IsSpace(h[|h| - 1])
    requires Strip(blank) == []
    ensures ScanFrom(["N: " + name, "H: " + h] + [blank], st)
         == ExamineBlock(st.(entry := st.entry["N" := name]["H" := h]))
  {
    var st' := st.(entry := st.entry["N" := name]["H" := h]);
    assert "N" + ": " + name == "N: " + name by { assert "N" + ": " == "N: "; }
    assert "H" + ": " + h == "H: " + h by { assert "H" + ": " == "H: "; }
    TwoFieldsScanned("N", name, "H", h, [blank], st);
    assert "N" in st'.entry;
    BlankLineCloses(blank, st');
  }

  /** Two lines and a third, as one sequence. */
  lemma PairAndOne<T>(a: T, b: T, c: T)
    ensures [a, b] + [c] == [a, b, c]
  {
  }

  /** Examining a block with a name and handlers: only the remote's block yields a handler, placed by the kind of its devices. */
  lemma OneBlockExamined(name: string, h: string)
    ensures name == REMOTE_NAME && AnyMouse(Split(h, ' ')) ==>
      ExamineBlock(Scan(map[]["N" := name]["H" := h], None, None)).value == Scan(map[]["N" := name]["H" := h], HandlerOf(Split(h, ' ')), None)
    ensures name == REMOTE_NAME && !AnyMouse(Split(h, ' ')) ==>
      ExamineBlock(Scan(map[]["N" := name]["H" := h], None, None)).value == Scan(map[]["N" := name]["H" := h], None, HandlerOf(Split(h, ' ')))
    ensures name != REMOTE_NAME ==> ExamineBlock(Scan(map[]["N" := name]["H" := h], None, None)).value == Scan(map[]["N" := name]["H" := h], None, None)
    ensures ExamineBlock(Scan(map[]["N" := name]["H" := h], None, None)).Success?
  {
    var m := map[]["N" := name]["H" := h];
    assert "N" in m && m["N"] == name && "H" in m && m["H"] == h;
  }

  /**
   * A listing of one block, a name line and a handlers line closed by a
   * blank line: the block's event handler is found, as the mouse when one
   * of its handler tokens names a mouse and as the keyboard otherwise, if
   * and only if the block names the remote.
   */
  lemma OneBlockDetected(name: string, h: string, blank: string)
    requires name != [] && !IsSpace(name[0]) && !IsSpace(name[|name| - 1])
    requires h != [] && !IsSpace(h[0]) && !IsSpace(h[|h| - 1])
    requires Strip(blank) == []
    ensures name == REMOTE_NAME && AnyMouse(Split(h, ' ')) ==>
      Detect(["N: " + name, "H: " + h, blank]) == Success((HandlerOf(Split(h, ' ')), None))
    ensures name == REMOTE_NAME && !AnyMouse(Split(h, ' ')) ==>
      Detect(["N: " + name, "H: " + h, blank]) == Success((None, HandlerOf(Split(h, ' '))))
    ensures name != REMOTE_NAME ==> Detect(["N: " + name, "H: " + h, blank]) == Success((None, None))
  {
    var st := Scan(map[], None, None);
    PairAndOne("N: " + name, "H: " + h, blank);
    OneBlockScanned(name, h, blank, st);
    assert st.(entry := st.entry["N" := name]["H" := h]) == Scan(map[]["N" := name]["H" := h], None, None);
    OneBlockExamined(name, h);
  }

  /** The remote's usual handlers line names a mouse and the event device `event3`. */
  lemma ExampleHandlers()
    ensures AnyMouse(Split("Handlers=mouse0 event3", ' '))
    ensures HandlerOf(Split("Handlers=mouse0 event3", ' ')) == Some("event3")
  {
    ExampleSplit();
    ExampleMouse();
    ExampleHandler();
  }

  /** The handler tokens of a block: the last naming an event device, and whether any names a mouse. */
  method ScanHandlers(tokens: seq<string>) returns (ev: Option<string>, ismouse: bool)
    ensures ev == HandlerOf(tokens) && ismouse == AnyMouse(tokens)
  {
    ev, ismouse := None, false;
    for j := 0 to |tokens|
      invariant ev == HandlerOf(tokens[..j])
      invariant ismouse == AnyMouse(tokens[..j])
    {
      assert tokens[..j + 1][..j] == tokens[..j];
      assert forall t :: 0 <= t < j ==> tokens[..j + 1][t] == tokens[..j][t];
      if IsMouseToken(tokens[j]) {
        ismouse := true;
      }
      if IsEventToken(tokens[j]) {
        ev := Some(tokens[j]);
      }
    }
    assert tokens[..|tokens|] == tokens;
  }

  /** Scans a device listing line by line for the remote's mouse and keyboard handlers. */
  method DetectHamaMce(lines: seq<string>) returns (r: Result<(Option<string>, Option<string>), ScanError>)
    ensures r == Detect(lines)
  {
    var entry: map<string, string> := map[];
    var mouse: Option<string> := None;
    var kbd: Option<string> := None;
    for i := 0 to |lines|
      invariant ScanFrom(lines[i..], Scan(entry, mouse, kbd)) == ScanFrom(lines, Scan(map[], None, None))
    {
      ScanFromStep(lines, i, Scan(entry, mouse, kbd));
      var line := Strip(lines[i]);
      if line == [] && entry != map[] {
        if "N" !in entry {
          return Failure(MissingField("N"));
        }
        if entry["N"] == REMOTE_NAME {
          if "H" !in entry {
            return Failure(MissingField("H"));
          }
          var ev, ismouse := ScanHandlers(Split(entry["H"], ' '));
          if ismouse {
            mouse := ev;
          } else {
            kbd := ev;
          }
        }
      } else if line != [] {
        var split := SplitOnce(line, ':');
        if split.None? {
          return Failure(NoColon(line));
        }
        var (l, v) := split.value;
        entry := entry[l := Strip(v)];
      }
    }
    assert lines[|lines|..] == [];
    return Success((mouse, kbd));
  }
}
