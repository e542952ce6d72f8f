/**
 * The kernel input-event records the remapper reads and writes, and the
 * event-type and key codes it tests for (the values of Linux's
 * input-event-codes table, which the Python `scancodes` module mirrors).
 */
module Events {

  /** One input-event record: its type, its code and its value (1 press, 0 release, 2 autorepeat). */
  datatype InputEvent = InputEvent(etype: nat, ecode: nat, evalue: int)

  const EV_KEY: nat := 1
  const EV_REL: nat := 2
  const EV_ABS: nat := 3
  const EV_MSC: nat := 4

  const KEY_LEFTCTRL: nat := 29
  const KEY_LEFTSHIFT: nat := 42
  const KEY_RIGHTSHIFT: nat := 54
  const KEY_LEFTALT: nat := 56
  const KEY_RIGHTCTRL: nat := 97
  const KEY_RIGHTALT: nat := 100

  /** The synchronisation marker that closes a group of events. */
  const SYNC := InputEvent(0, 0, 0)

  /** A key-press record for `code`. */
  function Press(code: nat): InputEvent {
    InputEvent(EV_KEY, code, 1)
  }

  /** A key-release record for `code`. */
  function Release(code: nat): InputEvent {
    InputEvent(EV_KEY, code, 0)
  }
}
