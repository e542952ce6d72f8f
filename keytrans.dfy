/**
 * Key events as the rule engine sees them: a raw record plus the modifier
 * bitmask held when it arrived, its replay as output records, its
 * rule-lookup signature, and the expansion of a textual keystring such as
 * `Ctrl-Alt-KEY_P KEY_Q-up` into output records.
 */
module KeyTrans {
  import opened Common
  import opened Text
  import opened Events

  const MOD_SHIFT: nat := 1
  const MOD_CTRL: nat := 2
  const MOD_ALT: nat := 4

  /** `modstate & flag` is non-zero, for one of the three one-bit flags. */
  predicate HasMod(modstate: nat, flag: nat)
    requires flag == MOD_SHIFT || flag == MOD_CTRL || flag == MOD_ALT
  {
    if flag == MOD_SHIFT then modstate % 2 == 1
    else if flag == MOD_CTRL then (modstate / 2) % 2 == 1
    else (modstate / 4) % 2 == 1
  }

  /** A raw event annotated with the modifier bitmask held when it arrived. */
  datatype KeyEvent = KeyEvent(event: InputEvent, modstate: nat) {
    /** A press; a release (0) and an autorepeat (2) are not. */
    predicate Keydown() {
      event.evalue == 1
    }
  }

  /** The left-hand modifier keys of the given flags, in press order: Ctrl, Alt, Shift. */
  function ModifierKeys(ctrl: bool, alt: bool, shift: bool): seq<nat> {
    (if ctrl then [KEY_LEFTCTRL] else []) + (if alt then [KEY_LEFTALT] else []) + (if shift then [KEY_LEFTSHIFT] else [])
  }

  /** The left-hand modifier keys a bitmask holds, in press order. */
  function HeldModifiers(modstate: nat): seq<nat> {
    ModifierKeys(HasMod(modstate, MOD_CTRL), HasMod(modstate, MOD_ALT), HasMod(modstate, MOD_SHIFT))
  }

  /** The number of the three modifier bits set in `modstate`. */
  function PopCount(modstate: nat): nat {
    modstate % 2 + (modstate / 2) % 2 + (modstate / 4) % 2
  }

  /** Presses of the given modifiers: Ctrl, Alt, Shift. */
  function ModifierPresses(ctrl: bool, alt: bool, shift: bool): seq<InputEvent> {
    (if ctrl then [Press(KEY_LEFTCTRL)] else [])
    + (if alt then [Press(KEY_LEFTALT)] else [])
    + (if shift then [Press(KEY_LEFTSHIFT)] else [])
  }

  /** Releases of the given modifiers: Shift, Alt, Ctrl. */
  function ModifierReleases(ctrl: bool, alt: bool, shift: bool): seq<InputEvent> {
    (if shift then [Release(KEY_LEFTSHIFT)] else [])
    + (if alt then [Release(KEY_LEFTALT)] else [])
    + (if ctrl then [Release(KEY_LEFTCTRL)] else [])
  }

  /** A press of `e` with the given modifiers held: their presses, the key, their releases, a sync. */
  function Bracketed(e: InputEvent, ctrl: bool, alt: bool, shift: bool): seq<InputEvent> {
    ModifierPresses(ctrl, alt, shift) + [e] + ModifierReleases(ctrl, alt, shift) + [SYNC]
  }

  /**
   * The output records that replay `k`: a press is bracketed by presses of
   * its held modifiers and their releases; anything else is replayed bare.
   */
  function ToInputEvents(k: KeyEvent): seq<InputEvent> {
    var m := k.modstate;
    if k.Keydown() then Bracketed(k.event, HasMod(m, MOD_CTRL), HasMod(m, MOD_ALT), HasMod(m, MOD_SHIFT))
    else [k.event, SYNC]
  }

  lemma ModifierPressesInOrder(ctrl: bool, alt: bool, shift: bool)
    ensures
      var p := ModifierPresses(ctrl, alt, shift);
      var mods := ModifierKeys(ctrl, alt, shift);
      |p| == |mods| && forall i :: 0 <= i < |mods| ==> p[i] == Press(mods[i])
  {
  }

  lemma ModifierReleasesMirrored(ctrl: bool, alt: bool, shift: bool)
    ensures
      var q := ModifierReleases(ctrl, alt, shift);
      var mods := ModifierKeys(ctrl, alt, shift);
      |q| == |mods| && forall i :: 0 <= i < |mods| ==> q[|mods| - 1 - i] == Release(mods[i])
  {
  }

  /** The records of a bracketed press, position by position. */
  lemma BracketedShape(e: InputEvent, ctrl: bool, alt: bool, shift: bool)
    ensures
      var r := Bracketed(e, ctrl, alt, shift);
      var mods := ModifierKeys(ctrl, alt, shift);
      && |r| == 2 * |mods| + 2
      && r[|mods|] == e
      && r[|r| - 1] == SYNC
      && forall i :: 0 <= i < |mods| ==> r[i] == Press(mods[i]) && r[|r| - 2 - i] == Release(mods[i])
  {
    var p, q := ModifierPresses(ctrl, alt, shift), ModifierReleases(ctrl, alt, shift);
    var mods := ModifierKeys(ctrl, alt, shift);
    ModifierPressesInOrder(ctrl, alt, shift);
    ModifierReleasesMirrored(ctrl, alt, shift);
    var r := Bracketed(e, ctrl, alt, shift);
    forall i | 0 <= i < |mods|
      ensures r[i] == Press(mods[i]) && r[|r| - 2 - i] == Release(mods[i])
    {
      assert r[i] == p[i];
      assert r[|r| - 2 - i] == q[|mods| - 1 - i];
    }
  }

  /**
   * A press is bracketed by presses of its held modifiers (Ctrl, Alt,
   * Shift) and their releases in mirror order, and closed by one sync;
   * anything else is replayed bare, with a sync.
   */
  lemma ToInputEventsBrackets(k: KeyEvent)
    ensures k.Keydown() ==>
      var r := ToInputEvents(k);
      var mods := HeldModifiers(k.modstate);
      && |r| == 2 * |mods| + 2
      && r[|mods|] == k.event
      && r[|r| - 1] == SYNC
      && forall i :: 0 <= i < |mods| ==> r[i] == Press(mods[i]) && r[|r| - 2 - i] == Release(mods[i])
    ensures !k.Keydown() ==> ToInputEvents(k) == [k.event, SYNC]
  {
    var m := k.modstate;
    BracketedShape(k.event, HasMod(m, MOD_CTRL), HasMod(m, MOD_ALT), HasMod(m, MOD_SHIFT));
  }

  /** A press replays as 2 * popcount(modstate & 7) + 2 records. */
  lemma ToInputEventsLength(k: KeyEvent)
    ensures |ToInputEvents(k)| == if k.Keydown() then 2 * PopCount(k.modstate) + 2 else 2
  {
    var m := k.modstate;
    assert HasMod(m, MOD_SHIFT) <==> m % 2 == 1;
  }

  /** A Ctrl+Shift press replays as Ctrl, Shift, the key, Shift up, Ctrl up, sync. */
  lemma CtrlShiftPress(e: InputEvent)
    requires e.evalue == 1
    ensures ToInputEvents(KeyEvent(e, MOD_CTRL + MOD_SHIFT)) ==
      [Press(KEY_LEFTCTRL), Press(KEY_LEFTSHIFT), e, Release(KEY_LEFTSHIFT), Release(KEY_LEFTCTRL), SYNC]
  {
  }

  /** The name the signature uses for a code: its reverse-table name, else its decimal digits. */
  function CodeName(revmap: map<nat, string>, code: nat): string {
    if code in revmap then revmap[code] else Decimal(code)
  }

  /** `Ctrl-`, `Alt-`, `Shift-` for the bits set in `modstate`, always in that order. */
  function ModifierPrefix(modstate: nat): (p: string)
    ensures modstate == 0 ==> p == ""
  {
    (if HasMod(modstate, MOD_CTRL) then "Ctrl-" else "")
    + (if HasMod(modstate, MOD_ALT) then "Alt-" else "")
    + (if HasMod(modstate, MOD_SHIFT) then "Shift-" else "")
  }

  /** Whichever of the two suffixes ends a string, the other does not. */
  lemma SuffixFacts(body: string)
    ensures EndsWith(body + "-down", "-down") && !EndsWith(body + "-down", "-up")
    ensures EndsWith(body + "-up", "-up") && !EndsWith(body + "-up", "-down")
  {
    var d, u := body + "-down", body + "-up";
    assert d[|d| - 5..] == "-down" && d[|d| - 1] == 'n';
    assert u[|u| - 3..] == "-up" && u[|u| - 1] == 'p';
  }

  /**
   * The canonical signature of `k` used to look rules up:
   * `[Ctrl-][Alt-][Shift-]<name>-down` for a press, `...-up` otherwise.
   */
  function Signature(revmap: map<nat, string>, k: KeyEvent): (s: string)
    ensures EndsWith(s, "-down") <==> k.Keydown()
    ensures EndsWith(s, "-up") <==> !k.Keydown()
    ensures k.modstate == 0 ==> s == CodeName(revmap, k.event.ecode) + (if k.Keydown() then "-down" else "-up")
  {
    var body := ModifierPrefix(k.modstate) + CodeName(revmap, k.event.ecode);
    SuffixFacts(body);
    body + (if k.Keydown() then "-down" else "-up")
  }

  /** What a signature says: which modifiers, which key name, press or not. */
  datatype SignatureParts = SignatureParts(ctrl: bool, alt: bool, shift: bool, name: string, down: bool)

  /** Python's `s.startswith(p)` followed by dropping `p` when it is there. */
  function StripOptional(s: string, p: string): (bool, string) {
    if StartsWith(s, p) then (true, s[|p|..]) else (false, s)
  }

  /** The key name and press/release of a signature without its modifier prefixes. */
  function ParseKey(s: string): Option<(string, bool)> {
    if EndsWith(s, "-down") then Some((s[..|s| - 5], true))
    else if EndsWith(s, "-up") then Some((s[..|s| - 3], false))
    else None
  }

  /** Reads a single-event signature back into its parts. */
  function ParseSignature(s: string): Option<SignatureParts> {
    var (ctrl, s1) := StripOptional(s, "Ctrl-");
    var (alt, s2) := StripOptional(s1, "Alt-");
    var (shift, s3) := StripOptional(s2, "Shift-");
    match ParseKey(s3)
    case None => None
    case Some((name, down)) => Some(SignatureParts(ctrl, alt, shift, name, down))
  }

  /** The reverse table only holds `KEY_` and `BTN_` names, as it is built from the scancode table. */
  predicate WellFormedRevmap(revmap: map<nat, string>) {
    forall code :: code in revmap ==> StartsWith(revmap[code], "KEY_") || StartsWith(revmap[code], "BTN_")
  }

  /** A string that cannot be mistaken for one beginning with a modifier prefix. */
  predicate NoModifierStart(t: string) {
    |t| > 0 && t[0] != 'C' && t[0] != 'A' && t[0] != 'S'
  }

  lemma NameHasNoModifierStart(revmap: map<nat, string>, code: nat)
    requires WellFormedRevmap(revmap)
    ensures NoModifierStart(CodeName(revmap, code))
  {
    if code in revmap {
      var n := revmap[code];
      assert n[..4] == "KEY_" || n[..4] == "BTN_";
      assert n[0] == n[..4][0];
    } else {
      assert '0' <= Decimal(code)[0] <= '9';
    }
  }

  /** `p` when `present`, else nothing. */
  function Optional(p: string, present: bool): string {
    if present then p else ""
  }

  /** An optional prefix `p` in front of `t` is recognised exactly when present, and stripping it leaves `t`. */
  lemma OptionalPrefix(p: string, present: bool, t: string)
    requires |p| > 0 && |t| > 0 && t[0] != p[0]
    ensures StripOptional(Optional(p, present) + t, p) == (present, t)
  {
    var s := Optional(p, present) + t;
    if present {
      assert s[..|p|] == p;
      assert s[|p|..] == t;
    } else {
      assert s == t;
      if |p| <= |s| {
        assert s[..|p|][0] == t[0];
      }
    }
  }

  lemma Regroup(a: string, b: string, c: string, d: string, e: string)
    ensures a + b + c + d + e == a + (b + (c + (d + e)))
  {
  }

  /** The three optional prefixes in front of `t` are each recognised exactly when present. */
  lemma StripPrefixes(ctrl: bool, alt: bool, shift: bool, t: string)
    requires NoModifierStart(t)
    ensures
      var s2 := Optional("Shift-", shift) + t;
      var s1 := Optional("Alt-", alt) + s2;
      && StripOptional(Optional("Ctrl-", ctrl) + s1, "Ctrl-") == (ctrl, s1)
      && StripOptional(s1, "Alt-") == (alt, s2)
      && StripOptional(s2, "Shift-") == (shift, t)
  {
    var s2 := Optional("Shift-", shift) + t;
    OptionalPrefix("Shift-", shift, t);
    assert s2[0] != 'A' && s2[0] != 'C';
    var s1 := Optional("Alt-", alt) + s2;
    OptionalPrefix("Alt-", alt, s2);
    assert s1[0] != 'C';
    OptionalPrefix("Ctrl-", ctrl, s1);
  }

  /** A key name followed by its suffix reads back as the name and press/release. */
  lemma ParseKeyOf(name: string, down: bool)
    ensures ParseKey(name + (if down then "-down" else "-up")) == Some((name, down))
  {
    SuffixFacts(name);
    var s := name + (if down then "-down" else "-up");
    if down {
      assert s[..|s| - 5] == name;
    } else {
      assert s[..|s| - 3] == name;
    }
  }

  /** The signature loses nothing: it parses back to the modifier flags, the key name and press/release. */
  lemma SignatureRoundTrip(revmap: map<nat, string>, k: KeyEvent)
    requires WellFormedRevmap(revmap)
    ensures ParseSignature(Signature(revmap, k)) ==
      Some(SignatureParts(HasMod(k.modstate, MOD_CTRL), HasMod(k.modstate, MOD_ALT), HasMod(k.modstate, MOD_SHIFT),
                          CodeName(revmap, k.event.ecode), k.Keydown()))
  {
    var m := k.modstate;
    var ctrl, alt, shift := HasMod(m, MOD_CTRL), HasMod(m, MOD_ALT), HasMod(m, MOD_SHIFT);
    var name := CodeName(revmap, k.event.ecode);
    var suffix := if k.Keydown() then "-down" else "-up";
    NameHasNoModifierStart(revmap, k.event.ecode);
    var t := name + suffix;
    assert t[0] == name[0];
    StripPrefixes(ctrl, alt, shift, t);
    ParseKeyOf(name, k.Keydown());
    var c, a, sh := Optional("Ctrl-", ctrl), Optional("Alt-", alt), Optional("Shift-", shift);
    assert ModifierPrefix(m) == c + a + sh;
    Regroup(c, a, sh, name, suffix);
  }

  /** Two key events share a signature only if they agree on modifiers, key name and press/release. */
  lemma SignatureInjective(revmap: map<nat, string>, k1: KeyEvent, k2: KeyEvent)
    requires WellFormedRevmap(revmap)
    requires Signature(revmap, k1) == Signature(revmap, k2)
    ensures HasMod(k1.modstate, MOD_CTRL) == HasMod(k2.modstate, MOD_CTRL)
    ensures HasMod(k1.modstate, MOD_ALT) == HasMod(k2.modstate, MOD_ALT)
    ensures HasMod(k1.modstate, MOD_SHIFT) == HasMod(k2.modstate, MOD_SHIFT)
    ensures CodeName(revmap, k1.event.ecode) == CodeName(revmap, k2.event.ecode)
    ensures k1.Keydown() == k2.Keydown()
  {
    SignatureRoundTrip(revmap, k1);
    SignatureRoundTrip(revmap, k2);
  }

  // ---------------------------------------------------------------------
  // Expanding a keystring into output records
  // ---------------------------------------------------------------------

  /** `s` back to front. */
  function Reverse<T>(s: seq<T>): (r: seq<T>)
    ensures |r| == |s|
    ensures forall i :: 0 <= i < |s| ==> r[i] == s[|s| - 1 - i]
    decreases |s|
  {
    if s == [] then [] else Reverse(s[1..]) + [s[0]]
  }

  /** The text a modifier prefix of a keystring token spells. */
  function PrefixText(code: nat): string {
    if code == KEY_LEFTALT then "Alt-" else if code == KEY_LEFTCTRL then "Ctrl-" else "Shift-"
  }

  function PrefixesText(codes: seq<nat>): string
    decreases |codes|
  {
    if codes == [] then "" else PrefixText(codes[0]) + PrefixesText(codes[1..])
  }

  predicate IsLeftModifier(code: nat) {
    code == KEY_LEFTALT || code == KEY_LEFTCTRL || code == KEY_LEFTSHIFT
  }

  lemma PrefixesCons(k: string, c: nat, codes: seq<nat>, rest: string)
    requires StartsWith(k, PrefixText(c))
    requires PrefixesText(codes) + rest == k[|PrefixText(c)|..]
    ensures PrefixesText([c] + codes) + rest == k
  {
    assert ([c] + codes)[1..] == codes;
    var p := PrefixText(c);
    assert k == p + k[|p|..];
  }

  /** The token starts with one of the three modifier prefixes. */
  predicate StartsWithModifier(k: string) {
    StartsWith(k, "Alt-") || StartsWith(k, "Ctrl-") || StartsWith(k, "Shift-")
  }

  /** The modifier whose prefix a token starts with, tested in the order Alt, Ctrl, Shift. */
  function LeadingModifier(k: string): (r: Option<nat>)
    ensures r.Some? <==> StartsWithModifier(k)
    ensures r.Some? ==> StartsWith(k, PrefixText(r.value)) && IsLeftModifier(r.value)
  {
    if StartsWith(k, "Alt-") then Some(KEY_LEFTALT)
    else if StartsWith(k, "Ctrl-") then Some(KEY_LEFTCTRL)
    else if StartsWith(k, "Shift-") then Some(KEY_LEFTSHIFT)
    else None
  }

  /**
   * The modifier prefixes a token starts with, as key codes in encounter
   * order (repeats allowed), and the text after them.
   */
  function StripModifiers(k: string): (r: (seq<nat>, string))
    ensures PrefixesText(r.0) + r.1 == k
    ensures forall i :: 0 <= i < |r.0| ==> IsLeftModifier(r.0[i])
    ensures !StartsWithModifier(r.1)
    decreases |k|
  {
    match LeadingModifier(k)
    case None => ([], k)
    case Some(c) =>
      var p := PrefixText(c);
      var (codes, rest) := StripModifiers(k[|p|..]);
      PrefixesCons(k, c, codes, rest);
      ([c] + codes, rest)
  }

  /**
   * The codes and the rest are the only reading of `k` as left-modifier
   * prefixes followed by a text that starts with none.
   */
  lemma {:induction false} StripModifiersUnique(k: string, codes: seq<nat>, rest: string)
    requires forall i :: 0 <= i < |codes| ==> IsLeftModifier(codes[i])
    requires PrefixesText(codes) + rest == k && !StartsWithModifier(rest)
    ensures StripModifiers(k) == (codes, rest)
    decreases |codes|
  {
    if codes == [] {
      assert k == rest;
    } else {
      var c, tail := codes[0], PrefixesText(codes[1..]) + rest;
      var p := PrefixText(c);
      assert k == p + tail by {
        Assoc(p, PrefixesText(codes[1..]), rest);
      }
      LeadingModifierOf(k, c, tail);
      StripModifiersUnique(tail, codes[1..], rest);
      assert StripModifiers(k) == ([c] + codes[1..], rest);
      assert codes == [c] + codes[1..];
    }
  }

  /** A text made of a left modifier's prefix and more is read as that modifier and that more. */
  lemma LeadingModifierOf(k: string, c: nat, tail: string)
    requires IsLeftModifier(c) && k == PrefixText(c) + tail
    ensures LeadingModifier(k) == Some(c) && k[|PrefixText(c)|..] == tail
  {
    var p := PrefixText(c);
    assert k[..|p|] == p && k[|p|..] == tail;
    var c' := LeadingModifier(k).value;
    assert k[0] == p[0] == PrefixText(c')[0];
  }

  function Presses(codes: seq<nat>): seq<InputEvent>
    decreases |codes|
  {
    if codes == [] then [] else Presses(codes[..|codes| - 1]) + [Press(codes[|codes| - 1])]
  }

  function Releases(codes: seq<nat>): seq<InputEvent>
    decreases |codes|
  {
    if codes == [] then [] else Releases(codes[..|codes| - 1]) + [Release(codes[|codes| - 1])]
  }

  /**
   * The key records for what follows the prefixes: `name` alone is a press
   * and a release, `name-down` / `name-up` only that one, any other suffix
   * nothing; an unknown name gives nothing.
   */
  function KeyPart(scancodes: map<string, nat>, k: string): seq<InputEvent> {
    var (name, suffix) := match SplitOnce(k, '-')
      case None => (k, None)
      case Some((n, l)) => (n, Some(l));
    if name in scancodes then
      var sc := scancodes[name];
      (if suffix == None || suffix == Some("down") then [Press(sc)] else [])
      + (if suffix == None || suffix == Some("up") then [Release(sc)] else [])
    else
      []
  }

  /** What has been produced so far, and the pending modifier releases (never cleared). */
  datatype Synth = Synth(res: seq<InputEvent>, untap: seq<InputEvent>)

  /**
   * One token: its modifier presses, its key records, then the whole
   * release list (earlier tokens' included) reversed in place and emitted,
   * then a sync whenever anything at all has been produced so far.
   */
  function TokenStep(scancodes: map<string, nat>, tok: string, st: Synth): (r: Synth)
    ensures Closed(r.res)
  {
    var (codes, rest) := StripModifiers(tok);
    var untap := Reverse(st.untap + Releases(codes));
    Synth(Close(st.res + Presses(codes) + KeyPart(scancodes, rest) + untap), untap)
  }

  /** Empty, or ending in a sync record. */
  predicate Closed(s: seq<InputEvent>) {
    s == [] || s[|s| - 1] == SYNC
  }

  function ExpandTokens(scancodes: map<string, nat>, toks: seq<string>, st: Synth): (r: Synth)
    ensures toks != [] || Closed(st.res) ==> Closed(r.res)
    ensures toks == [] ==> r == st
    decreases |toks|
  {
    if toks == [] then st
    else ExpandTokens(scancodes, toks[1..], TokenStep(scancodes, toks[0], st))
  }

  /** The records a keystring of space-separated tokens expands to; empty or closed by a sync. */
  function Expand(scancodes: map<string, nat>, keystring: string): (r: seq<InputEvent>)
    ensures Closed(r)
  {
    var toks := Split(keystring, ' ');
    ExpandTokens(scancodes, toks, Synth([], [])).res
  }

  /** The prefix a token starts with, as the scan tests them: Alt-, then Ctrl-, then Shift-. */
  predicate ScanStep(k: string, n: nat, c: nat) {
    if StartsWith(k, "Alt-") then n == 4 && c == KEY_LEFTALT
    else if StartsWith(k, "Ctrl-") then n == 5 && c == KEY_LEFTCTRL
    else StartsWith(k, "Shift-") && n == 6 && c == KEY_LEFTSHIFT
  }

  /** Stripping one leading prefix and then the rest is stripping them all. */
  lemma StripModifiersStep(k: string, n: nat, c: nat, done: seq<nat>)
    requires ScanStep(k, n, c)
    ensures n <= |k|
    ensures done + StripModifiers(k).0 == (done + [c]) + StripModifiers(k[n..]).0
    ensures StripModifiers(k).1 == StripModifiers(k[n..]).1
  {
    assert LeadingModifier(k) == Some(c) && |PrefixText(c)| == n;
    var codes := StripModifiers(k[n..]).0;
    assert StripModifiers(k).0 == [c] + codes;
    Assoc(done, [c], codes);
  }

  lemma Assoc<T>(a: seq<T>, b: seq<T>, c: seq<T>)
    ensures a + (b + c) == (a + b) + c
  {
  }

  /** A token none of whose prefixes is a modifier strips to nothing. */
  lemma StripModifiersNone(k: string, done: seq<nat>)
    requires !StartsWith(k, "Alt-") && !StartsWith(k, "Ctrl-") && !StartsWith(k, "Shift-")
    ensures done + StripModifiers(k).0 == done && StripModifiers(k).1 == k
  {
    assert LeadingModifier(k) == None;
  }

  /** `TokenStep` once the token's presses, key records and releases are known. */
  lemma TokenStepOf(scancodes: map<string, nat>, tok: string, st: Synth, mid: seq<InputEvent>, untap: seq<InputEvent>)
    requires mid == st.res + Presses(StripModifiers(tok).0) + KeyPart(scancodes, StripModifiers(tok).1)
    requires untap == st.untap + Releases(StripModifiers(tok).0)
    ensures untap != [] ==> TokenStep(scancodes, tok, st) == Synth(Close(mid + Reverse(untap)), Reverse(untap))
    ensures untap == [] ==> TokenStep(scancodes, tok, st) == Synth(Close(mid), untap)
  {
    if untap == [] {
      assert Reverse(untap) == [] && mid + [] == mid;
    }
  }

  /** Appends a sync to anything non-empty. */
  function Close(res: seq<InputEvent>): (r: seq<InputEvent>)
    ensures res == [] ==> r == []
    ensures res != [] ==> r == res + [SYNC]
  {
    if res == [] then res else res + [SYNC]
  }

  lemma ExpandTokensStep(scancodes: map<string, nat>, ks: seq<string>, t: nat, st: Synth)
    requires t < |ks|
    ensures ExpandTokens(scancodes, ks[t..], st) == ExpandTokens(scancodes, ks[t + 1..], TokenStep(scancodes, ks[t], st))
  {
    assert ks[t..][1..] == ks[t + 1..];
  }

  lemma PressesReleasesSnoc(done: seq<nat>, c: nat)
    ensures Presses(done + [c]) == Presses(done) + [Press(c)]
    ensures Releases(done + [c]) == Releases(done) + [Release(c)]
  {
    assert (done + [c])[..|done|] == done;
  }

  /**
   * The modifier-prefix loop of one token: each prefix appends its press to
   * `res` and its release to `untap`; returns what follows the prefixes.
   */
  method PressModifiers(tok: string, res0: seq<InputEvent>, untap0: seq<InputEvent>)
    returns (rest: string, res: seq<InputEvent>, untap: seq<InputEvent>)
    ensures rest == StripModifiers(tok).1
    ensures res == res0 + Presses(StripModifiers(tok).0)
    ensures untap == untap0 + Releases(StripModifiers(tok).0)
  {
    rest, res, untap := tok, res0, untap0;
    ghost var done: seq<nat> := [];
    while true
      invariant StripModifiers(tok).0 == done + StripModifiers(rest).0
      invariant StripModifiers(tok).1 == StripModifiers(rest).1
      invariant res == res0 + Presses(done)
      invariant untap == untap0 + Releases(done)
      decreases |rest|
    {
      var n: nat, c: nat;
      if StartsWith(rest, "Alt-") {
        n, c := 4, KEY_LEFTALT;
      } else if StartsWith(rest, "Ctrl-") {
        n, c := 5, KEY_LEFTCTRL;
      } else if StartsWith(rest, "Shift-") {
        n, c := 6, KEY_LEFTSHIFT;
      } else {
        StripModifiersNone(rest, done);
        break;
      }
      StripModifiersStep(rest, n, c, done);
      rest := rest[n..];
      PressesReleasesSnoc(done, c);
      Assoc(res0, Presses(done), [Press(c)]);
      Assoc(untap0, Releases(done), [Release(c)]);
      res := res + [Press(c)];
      untap := untap + [Release(c)];
      done := done + [c];
    }
  }

  /** The key-name part of one token: appends its press and/or release to `res`. */
  method PressKey(scancodes: map<string, nat>, tok: string, res0: seq<InputEvent>)
    returns (res: seq<InputEvent>)
    ensures res == res0 + KeyPart(scancodes, tok)
  {
    res := res0;
    var k := tok;
    var l: Option<string> := None;
    if '-' in k {
      var parts := SplitOnce(k, '-');
      k, l := parts.value.0, Some(parts.value.1);
    }
    if k in scancodes {
      var sc := scancodes[k];
      if l == None || l == Some("down") {
        res := res + [Press(sc)];
      }
      if l == None || l == Some("up") {
        res := res + [Release(sc)];
      }
    }
  }

  /** Expands `keystring` token by token, keeping one release list across all tokens. */
  method MakeKeyEvents(scancodes: map<string, nat>, keystring: string) returns (res: seq<InputEvent>)
    ensures res == Expand(scancodes, keystring)
  {
    res := [];
    var ks := Split(keystring, ' ');
    var untap: seq<InputEvent> := [];
    for t := 0 to |ks|
      invariant ExpandTokens(scancodes, ks[t..], Synth(res, untap)).res == Expand(scancodes, keystring)
    {
      ghost var before := Synth(res, untap);
      ExpandTokensStep(scancodes, ks, t, before);
      var rest;
      rest, res, untap := PressModifiers(ks[t], res, untap);
      res := PressKey(scancodes, rest, res);
      TokenStepOf(scancodes, ks[t], before, res, untap);
      if untap != [] {
        untap := Reverse(untap);
        res := res + untap;
      }
      if res != [] {
        res := res + [SYNC];
      }
    }
  }

  // ---------------------------------------------------------------------
  // Properties of the expansion
  // ---------------------------------------------------------------------

  /**
   * The suffix rules of one key name: the bare name is a press and a
   * release, `-down` only the press, `-up` only the release, any other
   * suffix nothing; an unknown name gives nothing whatever its suffix.
   */
  lemma KeyPartSuffixes(scancodes: map<string, nat>, name: string, suffix: string)
    requires '-' !in name
    ensures name in scancodes ==> KeyPart(scancodes, name) == [Press(scancodes[name]), Release(scancodes[name])]
    ensures name in scancodes && suffix == "down" ==> KeyPart(scancodes, name + "-" + suffix) == [Press(scancodes[name])]
    ensures name in scancodes && suffix == "up" ==> KeyPart(scancodes, name + "-" + suffix) == [Release(scancodes[name])]
    ensures suffix != "down" && suffix != "up" ==> KeyPart(scancodes, name + "-" + suffix) == []
    ensures name !in scancodes ==> KeyPart(scancodes, name) == [] && KeyPart(scancodes, name + "-" + suffix) == []
  {
    SplitOnceAt(name, '-', suffix);
  }

  lemma {:induction false} ReverseMultiset<T>(s: seq<T>)
    ensures multiset(Reverse(s)) == multiset(s)
    decreases |s|
  {
    if s != [] {
      ReverseMultiset(s[1..]);
      assert s == [s[0]] + s[1..];
    }
  }

  /**
   * The pending releases are never cleared: after a token they are the
   * earlier ones together with the token's own (in a new order).
   */
  lemma TokenStepUntap(scancodes: map<string, nat>, tok: string, st: Synth)
    ensures multiset(TokenStep(scancodes, tok, st).untap)
         == multiset(st.untap) + multiset(Releases(StripModifiers(tok).0))
  {
    ReverseMultiset(st.untap + Releases(StripModifiers(tok).0));
  }

  /** Every release pending before a run of tokens is still pending after it. */
  lemma {:induction false} ExpandTokensKeepsUntap(scancodes: map<string, nat>, toks: seq<string>, st: Synth)
    ensures multiset(st.untap) <= multiset(ExpandTokens(scancodes, toks, st).untap)
    decreases |toks|
  {
    if toks != [] {
      var next := TokenStep(scancodes, toks[0], st);
      TokenStepUntap(scancodes, toks[0], st);
      ExpandTokensKeepsUntap(scancodes, toks[1..], next);
    }
  }

  /** A token only appends to what has been produced. */
  lemma TokenStepExtends(scancodes: map<string, nat>, tok: string, st: Synth)
    ensures st.res <= TokenStep(scancodes, tok, st).res
  {
    var codes := StripModifiers(tok).0;
    var untap := Reverse(st.untap + Releases(codes));
    var m := st.res + Presses(codes) + KeyPart(scancodes, StripModifiers(tok).1) + untap;
    assert m[..|st.res|] == st.res;
    if m != [] {
      assert (m + [SYNC])[..|st.res|] == st.res;
    }
  }

  /** A run of tokens only appends to what has been produced. */
  lemma {:induction false} ExpandTokensExtends(scancodes: map<string, nat>, toks: seq<string>, st: Synth)
    ensures st.res <= ExpandTokens(scancodes, toks, st).res
    decreases |toks|
  {
    if toks != [] {
      var next := TokenStep(scancodes, toks[0], st);
      TokenStepExtends(scancodes, toks[0], st);
      ExpandTokensExtends(scancodes, toks[1..], next);
      PrefixTransitive(st.res, next.res, ExpandTokens(scancodes, toks, st).res);
    }
  }

  lemma PrefixTransitive<T>(a: seq<T>, b: seq<T>, c: seq<T>)
    requires a <= b && b <= c
    ensures a <= c
  {
    assert c[..|b|][..|a|] == c[..|a|];
  }

  /**
   * Once anything has been produced, every further token adds at least a
   * sync, even one that names no known key and no modifier.
   */
  lemma TokenStepSyncs(scancodes: map<string, nat>, tok: string, st: Synth)
    requires st.res != []
    ensures |TokenStep(scancodes, tok, st).res| > |st.res|
    ensures TokenStep(scancodes, tok, st).res[|TokenStep(scancodes, tok, st).res| - 1] == SYNC
  {
  }

  lemma {:induction false} PressesLength(codes: seq<nat>)
    ensures |Presses(codes)| == |codes| && |Releases(codes)| == |codes|
    decreases |codes|
  {
    if codes != [] {
      PressesLength(codes[..|codes| - 1]);
    }
  }

  /**
   * A token whose key part yields nothing (an unknown name or suffix) still
   * presses its modifiers, and the records after those presses release
   * every one of them.
   */
  lemma UnknownKeyReleasesModifiers(scancodes: map<string, nat>, tok: string, st: Synth)
    requires KeyPart(scancodes, StripModifiers(tok).1) == []
    ensures |st.res| + |StripModifiers(tok).0| <= |TokenStep(scancodes, tok, st).res|
    ensures TokenStep(scancodes, tok, st).res[..|st.res| + |StripModifiers(tok).0|]
         == st.res + Presses(StripModifiers(tok).0)
    ensures multiset(Releases(StripModifiers(tok).0))
         <= multiset(TokenStep(scancodes, tok, st).res[|st.res| + |StripModifiers(tok).0|..])
  {
    var codes := StripModifiers(tok).0;
    var pre := st.res + Presses(codes);
    var untap := st.untap + Releases(codes);
    var u := Reverse(untap);
    var r := TokenStep(scancodes, tok, st).res;
    PressesLength(codes);
    assert |pre| == |st.res| + |codes|;
    TokenStepWithoutKey(scancodes, tok, st);
    assert r == Close(pre + u);
    ReverseMultiset(untap);
    CloseKeepsParts(pre, u);
    SubMultisetTrans(multiset(Releases(codes)), multiset(u), multiset(r[|pre|..]));
    assert r[|pre|..] == TokenStep(scancodes, tok, st).res[|st.res| + |StripModifiers(tok).0|..];
  }

  lemma SubMultisetTrans<T>(a: multiset<T>, b: multiset<T>, c: multiset<T>)
    requires a <= b && b <= c
    ensures a <= c
  {
  }

  /** With no key records, a token's output is its presses and the reversed release list, closed. */
  lemma TokenStepWithoutKey(scancodes: map<string, nat>, tok: string, st: Synth)
    requires KeyPart(scancodes, StripModifiers(tok).1) == []
    ensures TokenStep(scancodes, tok, st).res
         == Close(st.res + Presses(StripModifiers(tok).0) + Reverse(st.untap + Releases(StripModifiers(tok).0)))
  {
    var codes := StripModifiers(tok).0;
    var pre := st.res + Presses(codes);
    var untap := st.untap + Releases(codes);
    assert pre == st.res + Presses(codes) + KeyPart(scancodes, StripModifiers(tok).1);
    TokenStepOf(scancodes, tok, st, pre, untap);
    if untap == [] {
      assert pre + Reverse(untap) == pre;
    }
  }

  /** Closing `pre + u` keeps `pre` in front and every record of `u` after it. */
  lemma CloseKeepsParts(pre: seq<InputEvent>, u: seq<InputEvent>)
    ensures
      var r := Close(pre + u);
      && |pre| <= |r|
      && r[..|pre|] == pre
      && multiset(u) <= multiset(r[|pre|..])
  {
    var r := Close(pre + u);
    if pre + u == [] {
      assert u == [];
    } else {
      assert r[|pre|..] == u + [SYNC];
    }
  }

  /** `Ctrl-` before an unknown key name: Ctrl is pressed and released all the same. */
  lemma CtrlUnknownTokenStep(scancodes: map<string, nat>, name: string, st: Synth)
    requires name !in scancodes && '-' !in name
    ensures TokenStep(scancodes, "Ctrl-" + name, st) ==
      Synth(st.res + [Press(KEY_LEFTCTRL)] + Reverse(st.untap + [Release(KEY_LEFTCTRL)]) + [SYNC],
            Reverse(st.untap + [Release(KEY_LEFTCTRL)]))
  {
    var tok := "Ctrl-" + name;
    CtrlStrip(name);
    KeyPartSuffixes(scancodes, name, "");
    assert Presses([KEY_LEFTCTRL]) == [Press(KEY_LEFTCTRL)] && Releases([KEY_LEFTCTRL]) == [Release(KEY_LEFTCTRL)] by {
      PressesReleasesSnoc([], KEY_LEFTCTRL);
      assert [] + [KEY_LEFTCTRL] == [KEY_LEFTCTRL];
    }
    var mid := st.res + [Press(KEY_LEFTCTRL)];
    var untap := st.untap + [Release(KEY_LEFTCTRL)];
    assert mid == st.res + Presses(StripModifiers(tok).0) + KeyPart(scancodes, StripModifiers(tok).1);
    TokenStepOf(scancodes, tok, st, mid, untap);
  }

  /** From a fresh start, `Ctrl-` before an unknown name gives exactly Ctrl down, Ctrl up, sync. */
  lemma CtrlUnknownFresh(scancodes: map<string, nat>, name: string)
    requires name !in scancodes && '-' !in name
    ensures TokenStep(scancodes, "Ctrl-" + name, Synth([], [])).res == [Press(KEY_LEFTCTRL), Release(KEY_LEFTCTRL), SYNC]
  {
    CtrlUnknownTokenStep(scancodes, name, Synth([], []));
    assert Reverse([] + [Release(KEY_LEFTCTRL)]) == [Release(KEY_LEFTCTRL)];
  }

  /** A bare known key name: its press and release, then every pending release, then a sync. */
  lemma PlainTokenStep(scancodes: map<string, nat>, name: string, st: Synth)
    requires name in scancodes && '-' !in name
    ensures TokenStep(scancodes, name, st) ==
      Synth(st.res + [Press(scancodes[name]), Release(scancodes[name])] + Reverse(st.untap) + [SYNC], Reverse(st.untap))
  {
    NoDashNoModifier(name);
    StripModifiersNone(name, []);
    KeyPartSuffixes(scancodes, name, "");
    assert st.untap + Releases([]) == st.untap;
    assert st.res + Presses([]) == st.res;
  }

  /** `Ctrl-` before a key name with no dash strips to Ctrl and the name. */
  lemma CtrlStrip(name: string)
    requires '-' !in name
    ensures StripModifiers("Ctrl-" + name).0 == [KEY_LEFTCTRL]
    ensures StripModifiers("Ctrl-" + name).1 == name
  {
    var t := "Ctrl-" + name;
    assert t[..5] == "Ctrl-";
    assert !StartsWith(t, "Alt-") by {
      assert t[0] == 'C' && "Alt-"[0] == 'A';
    }
    assert ScanStep(t, 5, KEY_LEFTCTRL);
    StripModifiersStep(t, 5, KEY_LEFTCTRL, []);
    assert t[5..] == name;
    NoDashNoModifier(name);
    StripModifiersNone(name, []);
  }

  /** A name without a dash cannot start with a modifier prefix, each of which ends in one. */
  lemma NoDashNoModifier(name: string)
    requires '-' !in name
    ensures !StartsWith(name, "Alt-") && !StartsWith(name, "Ctrl-") && !StartsWith(name, "Shift-")
  {
    assert "Alt-"[3] == '-' && "Ctrl-"[4] == '-' && "Shift-"[5] == '-';
  }

  /** `Ctrl-` before a known key name: the press of Ctrl is added and its release joins the pending ones. */
  lemma CtrlTokenStep(scancodes: map<string, nat>, name: string, st: Synth)
    requires name in scancodes && '-' !in name
    ensures TokenStep(scancodes, "Ctrl-" + name, st) ==
      Synth(st.res + [Press(KEY_LEFTCTRL)] + [Press(scancodes[name]), Release(scancodes[name])]
              + Reverse(st.untap + [Release(KEY_LEFTCTRL)]) + [SYNC],
            Reverse(st.untap + [Release(KEY_LEFTCTRL)]))
  {
    CtrlStrip(name);
    KeyPartSuffixes(scancodes, name, "");
    assert Presses([KEY_LEFTCTRL]) == [Press(KEY_LEFTCTRL)] && Releases([KEY_LEFTCTRL]) == [Release(KEY_LEFTCTRL)] by {
      PressesReleasesSnoc([], KEY_LEFTCTRL);
      assert [] + [KEY_LEFTCTRL] == [KEY_LEFTCTRL];
    }
  }

  /** Two space-separated tokens expand one after the other. */
  lemma ExpandTwo(scancodes: map<string, nat>, t1: string, t2: string)
    requires ' ' !in t1 && ' ' !in t2
    ensures Expand(scancodes, t1 + " " + t2) == TokenStep(scancodes, t2, TokenStep(scancodes, t1, Synth([], []))).res
  {
    assert Join([t1, t2], ' ') == t1 + " " + t2 by {
      assert [t1, t2][1..] == [t2];
    }
    SplitJoin([t1, t2], ' ');
    var st1 := TokenStep(scancodes, t1, Synth([], []));
    assert ExpandTokens(scancodes, [t1, t2], Synth([], [])) == ExpandTokens(scancodes, [t2], st1) by {
      assert [t1, t2][1..] == [t2];
    }
    assert ExpandTokens(scancodes, [t2], st1) == TokenStep(scancodes, t2, st1) by {
      assert [t2][1..] == [];
    }
  }

  /**
   * A keystring of two tokens: a Ctrl-prefixed key, then a plain key.
   * Ctrl's release is emitted again after the second key, because the
   * release list is never cleared.
   */
  lemma TwoTokens(scancodes: map<string, nat>, a: string, b: string)
    requires a in scancodes && b in scancodes
    requires '-' !in a && '-' !in b && ' ' !in a && ' ' !in b
    ensures Expand(scancodes, "Ctrl-" + a + " " + b) ==
      [Press(KEY_LEFTCTRL), Press(scancodes[a]), Release(scancodes[a]), Release(KEY_LEFTCTRL), SYNC,
       Press(scancodes[b]), Release(scancodes[b]), Release(KEY_LEFTCTRL), SYNC]
  {
    var t1 := "Ctrl-" + a;
    assert ' ' !in t1;
    ExpandTwo(scancodes, t1, b);
    var rc := [Release(KEY_LEFTCTRL)];
    assert Reverse(rc) == rc;
    assert [] + rc == rc;
    CtrlTokenStep(scancodes, a, Synth([], []));
    var st1 := TokenStep(scancodes, t1, Synth([], []));
    Flatten1(Press(KEY_LEFTCTRL), Press(scancodes[a]), Release(scancodes[a]), Release(KEY_LEFTCTRL), SYNC);
    assert st1.untap == rc;
    PlainTokenStep(scancodes, b, st1);
    Flatten2(Press(KEY_LEFTCTRL), Press(scancodes[a]), Release(scancodes[a]), Release(KEY_LEFTCTRL), SYNC,
             Press(scancodes[b]), Release(scancodes[b]));
  }

  lemma Flatten1(p: InputEvent, q: InputEvent, r: InputEvent, s: InputEvent, t: InputEvent)
    ensures [] + [p] + [q, r] + Reverse([] + [s]) + [t] == [p, q, r, s, t]
  {
    assert [] + [s] == [s];
    assert Reverse([s]) == [s];
  }

  lemma Flatten2(p: InputEvent, q: InputEvent, r: InputEvent, s: InputEvent, t: InputEvent, u: InputEvent, v: InputEvent)
    ensures [p, q, r, s, t] + [u, v] + Reverse([s]) + [t] == [p, q, r, s, t, u, v, s, t]
  {
    assert Reverse([s]) == [s];
  }
}
