/** Values shared by every part of the Scribe command and annotation engine. */
module ScribeTypes {

  datatype Option<+T> = None | Some(value: T)

  /** The mode of the Scribe command bar. Exactly one is active at a time. */
  datatype ScribeState =
    | Idle
    | SelectCommand
    | Translate
    | Conjugate
    | Plural
    | SelectVerbConjunction
    | SelectCaseDeclension
    | AlreadyPlural
    | Invalid
    | DisplayInformation

  /** The three shift states of the letters keyboard. */
  datatype ShiftState = ShiftOff | ShiftOneChar | ShiftPermanent

  /** The three key layouts an IME can show. */
  datatype KeyboardMode = Letters | Symbols | SymbolShift

  /** Colour resources a suggestion chip can be tinted with. */
  datatype ColorRole =
    | Orange        // annotateOrange: plural
    | Green         // annotateGreen: neuter
    | Purple        // annotatePurple: common gender
    | Blue          // annotateBlue: masculine
    | Red           // annotateRed: feminine
    | GreyBlackDark // md_grey_black_dark: grammatical case
    | White         // white
    | Transparent   // transparent: no annotation

  /** One suggestion button: its label and its background tint. */
  datatype Chip = Chip(text: string, color: ColorRole)

  /** What the suggestion area shows: the centre button alone, or the left/right pair. */
  datatype Display = Single(chip: Chip) | Dual(left: Chip, right: Chip)

  /**
   * The effect of one formatting call on the suggestion area: nothing changes,
   * a new display is shown, or the call throws because it indexed past the end
   * of an annotation list.
   */
  datatype Suggestion = Keep | Show(display: Display) | IndexOutOfBounds

  /** The states in which keystrokes go to the command bar instead of the text field. */
  predicate IsCommandState(s: ScribeState)
  {
    !(s.Idle? || s.SelectCommand?)
  }
}
