/**
 * The keyboard service's own state and the handlers that change it: the Scribe
 * state and the view it selects, the command bar's text, the shift state and
 * the time of the last shift press, the keyboard mode, the singular-and-plural
 * flag of the last gender lookup, and the dictionaries loaded when input starts.
 * Calls on the input connection become out-parameters (the text committed),
 * and a missing input connection becomes a boolean parameter.
 */
module Engine {
  import opened ScribeTypes
  import opened KotlinText
  import opened Annotations
  import opened SuggestionFormatter
  import opened CommandBar
  import opened Keyboard

  /** The taps and events that assign the Scribe state. */
  datatype Tap =
    | IdleScribeKey            // Scribe key of the idle view
    | SelectCommandScribeKey   // Scribe key of the command selection view
    | TranslateButton
    | ConjugateButton
    | PluralButton
    | ToolbarScribeKey         // Scribe key of a command's toolbar
    | CommandToolbarScribeKey  // Scribe key of the command options toolbar
    | FinishInputView          // onFinishInputView

  /** The state each tap assigns, whatever the state was. */
  function Target(t: Tap): (r: ScribeState)
    ensures r.SelectCommand? <==> t.IdleScribeKey?
    ensures r.Translate? <==> t.TranslateButton?
    ensures r.Conjugate? <==> t.ConjugateButton?
    ensures r.Plural? <==> t.PluralButton?
    ensures r.Idle? <==> t.SelectCommandScribeKey? || t.ToolbarScribeKey? || t.CommandToolbarScribeKey? || t.FinishInputView?
  {
    match t
    case IdleScribeKey => SelectCommand
    case TranslateButton => Translate
    case ConjugateButton => Conjugate
    case PluralButton => Plural
    case _ => Idle
  }

  /** The three layouts updateUI can set up. */
  datatype View = IdleView | SelectCommandView | ToolBarView

  /** updateUI: the idle view, the command selection view, or a command's toolbar. */
  function ViewFor(s: ScribeState): (r: View)
    ensures r.IdleView? <==> s.Idle?
    ensures r.SelectCommandView? <==> s.SelectCommand?
    ensures r.ToolBarView? <==> IsCommandState(s)
  {
    if s.Idle? then IdleView else if s.SelectCommand? then SelectCommandView else ToolBarView
  }

  /** The enter key's colour: the theme's default, or Scribe blue while a command is active. */
  datatype EnterKeyColor = ThemeEnterColor | ScribeBlue

  /** updateEnterKeyColor, by state. */
  function EnterKeyColorFor(s: ScribeState): (r: EnterKeyColor)
    ensures r.ScribeBlue? <==> IsCommandState(s)
  {
    if s.Idle? || s.SelectCommand? then ThemeEnterColor else ScribeBlue
  }

  /** The class of the focused field, from EditorInfo.inputType. */
  datatype InputClass = TextClass | NumberClass | DatetimeClass | PhoneClass | OtherClass

  /** onStartInput: number, date-time and phone fields open on the symbols keyboard. */
  function StartMode(c: InputClass): (r: KeyboardMode)
    ensures r.Symbols? <==> c.NumberClass? || c.DatetimeClass? || c.PhoneClass?
    ensures !r.SymbolShift?
  {
    match c
    case NumberClass => Symbols
    case DatetimeClass => Symbols
    case PhoneClass => Symbols
    case _ => Letters
  }

  /** handleElseCondition: a letter is typed in upper case when shift is on in either way. */
  function CharToType(c: char, shift: ShiftState): (r: char)
    ensures IsLetter(c) && !shift.ShiftOff? ==> r == ToUpper(c) && IsUpperAscii(r)
    ensures !(IsLetter(c) && !shift.ShiftOff?) ==> r == c
    ensures IsLetter(r) <==> IsLetter(c)
  {
    if IsLetter(c) && !shift.ShiftOff? then ToUpper(c) else c
  }

  /** The dictionaries read from the language database when input starts. */
  datatype Lexicon = Lexicon(
    emojiKeywords: map<string, seq<string>>,
    nounKeywords: map<string, seq<string>>,
    pluralWords: seq<string>,
    caseAnnotation: map<string, seq<string>>,
    pluralForms: map<string, seq<Option<string>>>)

  class ScribeEngine {
    /** The keyboard's language, e.g. "German". */
    const language: string
    /** The shift state of a newly built keyboard layout. */
    const freshShift: ShiftState

    var state: ScribeState
    var view: View
    /** The command bar's text. */
    var commandBar: string
    var shift: ShiftState
    /** lastShiftPressTS, in milliseconds. */
    var lastShiftPress: int
    var keyboardMode: KeyboardMode
    var isSingularAndPlural: bool
    var hasTextBeforeCursor: bool
    var lexicon: Lexicon

    /**
     * A service that has not yet started input. The state starts idle and the
     * singular-and-plural flag false, as their initialisers say; the keyboard
     * mode, the last shift press and the text-before-cursor flag are abstract
     * properties, so the concrete keyboard supplies them. The command bar is
     * empty, the view is the one the idle state selects, and the dictionaries,
     * which the source leaves uninitialised until input starts, are empty.
     */
    constructor (language: string, freshShift: ShiftState, keyboardMode: KeyboardMode,
                 lastShiftPress: int, hasTextBeforeCursor: bool)
      ensures this.language == language && this.freshShift == freshShift
      ensures state == Idle && view == ViewFor(Idle) && commandBar == []
      ensures shift == freshShift && this.lastShiftPress == lastShiftPress && this.keyboardMode == keyboardMode
      ensures !isSingularAndPlural && this.hasTextBeforeCursor == hasTextBeforeCursor
      ensures lexicon == Lexicon(map[], map[], [], map[], map[])
    {
      this.language := language;
      this.freshShift := freshShift;
      state := Idle;
      view := ViewFor(Idle);
      commandBar := [];
      shift := freshShift;
      this.lastShiftPress := lastShiftPress;
      this.keyboardMode := keyboardMode;
      isSingularAndPlural := false;
      this.hasTextBeforeCursor := hasTextBeforeCursor;
      lexicon := Lexicon(map[], map[], [], map[], map[]);
    }

    /**
     * A tap handler or the end of the input view: assigns the tap's state, then
     * updateUI shows its view. Entering a command builds a fresh toolbar, so the
     * command bar is empty, and handleModeChange(keyboardSymbols) rebuilds the
     * letters keyboard; the plural button in German then sets a one-character shift.
     * Returning to the idle or selection view keeps the bar, mode and shift.
     */
    method Tap(t: Tap)
      modifies this`state, this`view, this`commandBar, this`keyboardMode, this`shift
      ensures state == Target(t) && view == ViewFor(state)
      ensures IsCommandState(state) ==> commandBar == [] && keyboardMode == Letters
      ensures IsCommandState(state) ==>
        shift == if t.PluralButton? && language == "German" then ShiftOneChar else freshShift
      ensures !IsCommandState(state) ==> unchanged(this`commandBar, this`keyboardMode, this`shift)
    {
      state := Target(t);
      view := ViewFor(state);
      if IsCommandState(state) {
        commandBar := [];
        keyboardMode := ModeAfterChange(Symbols);
        shift := freshShift;
        if t.PluralButton? && language == "German" {
          shift := ShiftOneChar;
        }
      }
    }

    /**
     * onStartInput: the keyboard for the field's class, built afresh; whether the
     * field has text before the cursor; and the language's dictionaries.
     */
    method StartInput(inputClass: InputClass, textBeforeCursor: Option<string>, loaded: Lexicon)
      modifies this`keyboardMode, this`shift, this`hasTextBeforeCursor, this`lexicon
      ensures keyboardMode == StartMode(inputClass) && shift == freshShift && lexicon == loaded
      ensures hasTextBeforeCursor <==> textBeforeCursor.Some? && textBeforeCursor.value != []
    {
      keyboardMode := StartMode(inputClass);
      shift := freshShift;
      hasTextBeforeCursor := textBeforeCursor.Some? && textBeforeCursor.value != [];
      lexicon := loaded;
    }

    /**
     * handleKeyboardLetters with the current mode: on letters the shift cycle at
     * time `now`, which records the press; elsewhere the symbols shift key, which
     * builds a new layout.
     */
    method ShiftPress(now: int)
      modifies this`shift, this`lastShiftPress, this`keyboardMode
      ensures old(keyboardMode).Letters? ==>
        shift == NextShift(old(shift), now, old(lastShiftPress)) && lastShiftPress == now && keyboardMode == Letters
      ensures !old(keyboardMode).Letters? ==>
        keyboardMode == SymbolShiftToggle(old(keyboardMode)) && shift == freshShift && unchanged(this`lastShiftPress)
    {
      if keyboardMode.Letters? {
        shift := NextShift(shift, now, lastShiftPress);
        lastShiftPress := now;
      } else {
        keyboardMode := SymbolShiftToggle(keyboardMode);
        shift := freshShift;
      }
    }

    /** handleModeChange(mode): the other keyboard, built afresh. */
    method ModeChange(mode: KeyboardMode)
      modifies this`keyboardMode, this`shift
      ensures keyboardMode == ModeAfterChange(mode) && shift == freshShift
    {
      keyboardMode := ModeAfterChange(mode);
      shift := freshShift;
    }

    /**
     * handleElseCondition: typing `c`. In the command bar the character goes in
     * front of the marker and nothing reaches the field. Otherwise it is committed
     * to the field, and the bar gets it appended, except that a space on a
     * non-letters keyboard sets the bar to a single space. A one-character shift on
     * the letters keyboard is then used up. Without an input connection nothing happens.
     */
    method TypeKey(c: char, commandBarState: bool, connected: bool) returns (committed: string)
      modifies this`commandBar, this`shift
      ensures !connected ==> committed == [] && unchanged(this`commandBar, this`shift)
      ensures connected ==> shift == ShiftAfterTyping(old(shift), keyboardMode)
      ensures connected && commandBarState ==>
        committed == [] && commandBar == AppendText(old(commandBar), CharToType(c, old(shift)))
      ensures connected && !commandBarState ==> committed == [CharToType(c, old(shift))]
      ensures connected && !commandBarState && !keyboardMode.Letters? && c == ' ' ==> commandBar == " "
      ensures connected && !commandBarState && !(!keyboardMode.Letters? && c == ' ') ==>
        commandBar == old(commandBar) + [CharToType(c, old(shift))]
    {
      if !connected {
        return [];
      }
      var ch := CharToType(c, shift);
      if commandBarState {
        commandBar := AppendText(commandBar, ch);
        committed := [];
      } else if !keyboardMode.Letters? && c == ' ' {
        commandBar := " ";
        committed := [ch];
      } else {
        commandBar := commandBar + [ch];
        committed := [ch];
      }
      shift := ShiftAfterTyping(shift, keyboardMode);
    }

    /**
     * handleDelete: a one-character shift is dropped first; in the command bar the
     * bar then loses its last character, and emptying a short bar in the German
     * plural command sets a one-character shift again.
     */
    method Delete(commandBarState: bool)
      modifies this`commandBar, this`shift
      ensures commandBarState ==> commandBar == DeleteText(old(commandBar))
      ensures commandBarState && |old(commandBar)| <= 2 && language == "German" && state.Plural? ==> shift == ShiftOneChar
      ensures !(commandBarState && |old(commandBar)| <= 2 && language == "German" && state.Plural?) ==>
        shift == ShiftAfterDelete(old(shift))
      ensures !commandBarState ==> unchanged(this`commandBar)
    {
      shift := ShiftAfterDelete(shift);
      if commandBarState {
        if |commandBar| <= 2 && language == "German" && state.Plural? {
          shift := ShiftOneChar;
        }
        commandBar := DeleteText(commandBar);
      }
    }

    /**
     * handleKeycodeEnter: in the command bar, commits the command's output and
     * empties the bar; otherwise the field's own enter action runs and nothing is
     * committed (None). Without an input connection the first call on it fails
     * (commitText or performEditorAction) before the bar is cleared, so nothing
     * is committed and the bar is left as it was.
     */
    method Enter(commandBarState: bool, connected: bool) returns (committed: Option<string>)
      modifies this`commandBar
      ensures connected && commandBarState ==> committed == Some(CommitText(state, old(commandBar), lexicon.pluralForms))
      ensures connected && commandBarState ==> commandBar == []
      ensures !(connected && commandBarState) ==> committed.None? && unchanged(this`commandBar)
    {
      if connected && commandBarState {
        committed := Some(CommitText(state, commandBar, lexicon.pluralForms));
        commandBar := [];
      } else {
        committed := None;
      }
    }

    /**
     * findGenderForLastWord: the genders of the word ignoring case; on a hit the
     * flag records whether the word is also a plural, compared ignoring case. A
     * miss leaves the flag as it was.
     */
    method FindGenderForLastWord(nouns: map<string, seq<string>>, lastWord: Option<string>)
      returns (r: Option<seq<string>>)
      modifies this`isSingularAndPlural
      ensures r == LookupLowercase(nouns, lastWord)
      ensures r.Some? ==> isSingularAndPlural == AnyEqualsIgnoreCase(lexicon.pluralWords, lastWord.value)
      ensures r.None? ==> unchanged(this`isSingularAndPlural)
    {
      r := LookupLowercase(nouns, lastWord);
      if r.Some? {
        isSingularAndPlural := AnyEqualsIgnoreCase(lexicon.pluralWords, lastWord.value);
      }
    }

    /** updateAutoSuggestText, reading the flag left by the last gender lookup. */
    method UpdateAutoSuggest(nouns: Option<seq<string>>, isPlural: bool, cases: Option<seq<string>>, darkMode: bool)
      returns (r: Suggestion)
      ensures r == UpdateAutoSuggestText(nouns, isPlural, cases, isSingularAndPlural, language, darkMode)
      ensures isPlural ==> r == Show(Single(Chip("PL", Orange)))
    {
      r := UpdateAutoSuggestText(nouns, isPlural, cases, isSingularAndPlural, language, darkMode);
    }

    /**
     * commitPeriodAfterSpace: outside a command, the space before the cursor is
     * replaced (one character deleted) by ". " when a double-tapped space types a
     * period and by two spaces otherwise; in a command, or without an input
     * connection, nothing happens (None).
     */
    method CommitPeriodAfterSpace(periodOnDoubleTap: bool, connected: bool) returns (replacement: Option<string>)
      ensures replacement.Some? <==> !IsCommandState(state) && connected
      ensures replacement.Some? ==> replacement.value == (if periodOnDoubleTap then ". " else "  ")
    {
      if (state.Idle? || state.SelectCommand?) && connected {
        replacement := Some(if periodOnDoubleTap then ". " else "  ");
      } else {
        replacement := None;
      }
    }

    /**
     * A scenario rather than a handler of the service: the loop stands for the
     * user's key presses, each one a TypeKey in the command bar.
     * Typing the characters of `w` one by one into the command bar, shift off:
     * the bar becomes the one typing `w` into an empty bar builds, and the shift
     * stays off.
     */
    method TypeWord(w: string)
      requires commandBar == [] && shift == ShiftOff
      modifies this`commandBar, this`shift
      ensures commandBar == BarAfterTyping(w) && shift == ShiftOff
    {
      var i := 0;
      while i < |w|
        invariant 0 <= i <= |w|
        invariant commandBar == BarAfterTyping(w[..i])
        invariant shift == ShiftOff
      {
        var _ := TypeKey(w[i], true, true);
        BarAfterTypingPrefix(w, i);
        i := i + 1;
      }
      assert w[..|w|] == w;
    }

    /**
     * A scenario rather than a handler of the service: TypeWord, then Enter.
     * Typing `w` into the empty bar of a command, shift off, and then pressing
     * enter: the bar ends up empty, and the text committed is that of the bar
     * typing `w` builds. Outside the plural command that is `w` without its
     * leading whitespace.
     */
    method TypeAndEnter(w: string) returns (committed: Option<string>)
      requires IsCommandState(state) && commandBar == [] && shift == ShiftOff
      modifies this`commandBar, this`shift
      ensures committed == Some(CommitText(state, BarAfterTyping(w), lexicon.pluralForms))
      ensures !state.Plural? ==> committed == Some(TrimStart(w))
      ensures commandBar == []
    {
      TypeWord(w);
      committed := Enter(true, true);
      if !state.Plural? {
        CommitAfterTyping(state, w, lexicon.pluralForms);
      }
    }
  }
}
