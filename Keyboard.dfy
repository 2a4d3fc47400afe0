/**
 * The keyboard toggles: the shift key's three-state cycle with a double-tap
 * lock on the letters keyboard, the symbols keyboard's shift key, and the
 * switch between the letters and symbols keyboards. Time is a parameter in
 * milliseconds, standing in for System.currentTimeMillis.
 */
module Keyboard {
  import opened ScribeTypes

  /** DEFAULT_SHIFT_PERM_TOGGLE_SPEED: a second shift press this soon (ms) locks capitals. */
  const ShiftPermToggleSpeed: int := 500

  /**
   * handleKeyboardLetters on the letters keyboard. A locked shift always unlocks;
   * otherwise a quick second press locks, and a slow press toggles between one
   * capital and none.
   */
  function NextShift(shift: ShiftState, now: int, lastPress: int): (r: ShiftState)
    ensures r == ShiftPermanent <==> shift != ShiftPermanent && now - lastPress < ShiftPermToggleSpeed
    ensures r == ShiftOff <==>
      shift == ShiftPermanent || (shift == ShiftOneChar && now - lastPress >= ShiftPermToggleSpeed)
    ensures r == ShiftOneChar <==> shift == ShiftOff && now - lastPress >= ShiftPermToggleSpeed
  {
    if shift.ShiftPermanent? then ShiftOff
    else if now - lastPress < ShiftPermToggleSpeed then ShiftPermanent
    else if shift.ShiftOneChar? then ShiftOff
    else ShiftOneChar
  }

  /**
   * handleKeyboardLetters on any other keyboard: the symbols keyboard's shift key
   * opens the shifted symbols, and from anywhere else it returns to the symbols.
   */
  function SymbolShiftToggle(mode: KeyboardMode): (r: KeyboardMode)
    ensures r != Letters
    ensures r == SymbolShift <==> mode == Symbols
  {
    if mode.Symbols? then SymbolShift else Symbols
  }

  /** handleModeChange(mode): from letters to symbols, from anything else to letters. */
  function ModeAfterChange(mode: KeyboardMode): (r: KeyboardMode)
    ensures r == Symbols <==> mode == Letters
    ensures r == Letters <==> mode != Letters
  {
    if mode.Letters? then Symbols else Letters
  }

  /** After a typed character: a one-character shift on the letters keyboard is used up. */
  function ShiftAfterTyping(shift: ShiftState, mode: KeyboardMode): (r: ShiftState)
    ensures mode.Letters? && shift.ShiftOneChar? ==> r.ShiftOff?
    ensures !(mode.Letters? && shift.ShiftOneChar?) ==> r == shift
    ensures !(r.ShiftOneChar? && mode.Letters?)
  {
    if shift.ShiftOneChar? && mode.Letters? then ShiftOff else shift
  }

  /** On delete: a one-character shift is dropped on any keyboard. */
  function ShiftAfterDelete(shift: ShiftState): (r: ShiftState)
    ensures !r.ShiftOneChar?
    ensures !shift.ShiftOneChar? ==> r == shift
  {
    if shift.ShiftOneChar? then ShiftOff else shift
  }

  /** Two presses less than the toggle speed apart, the first one slow, lock capitals. */
  lemma DoubleTapLocks(last: int, t1: int, t2: int)
    requires t1 - last >= ShiftPermToggleSpeed && t2 - t1 < ShiftPermToggleSpeed
    ensures NextShift(NextShift(ShiftOff, t1, last), t2, t1) == ShiftPermanent
    ensures NextShift(NextShift(ShiftOneChar, t1, last), t2, t1) == ShiftPermanent
  {
  }

  /** A locked shift is unlocked by the next press however soon it comes, and a third slow press gives one capital. */
  lemma LockReleases(t: int, last: int, t2: int)
    requires t2 - t >= ShiftPermToggleSpeed
    ensures NextShift(ShiftPermanent, t, last) == ShiftOff
    ensures NextShift(NextShift(ShiftPermanent, t, last), t2, t) == ShiftOneChar
  {
  }

  /** Slow presses alternate between one capital and none. */
  lemma SlowPressesAlternate(shift: ShiftState, t1: int, last: int)
    requires shift != ShiftPermanent && t1 - last >= ShiftPermToggleSpeed
    ensures NextShift(shift, t1, last) != shift
    ensures NextShift(shift, t1, last) != ShiftPermanent
  {
  }

  /** Changing mode twice from letters or symbols comes back; shifted symbols go to letters. */
  lemma ModeChangeRoundTrip(mode: KeyboardMode)
    ensures mode != SymbolShift ==> ModeAfterChange(ModeAfterChange(mode)) == mode
    ensures ModeAfterChange(SymbolShift) == Letters
  {
  }

  /** The symbols shift key alternates between the two symbol keyboards. */
  lemma SymbolShiftRoundTrip(mode: KeyboardMode)
    requires mode != Letters
    ensures SymbolShiftToggle(SymbolShiftToggle(mode)) != SymbolShiftToggle(mode)
    ensures SymbolShiftToggle(SymbolShiftToggle(Symbols)) == Symbols
  {
  }
}
