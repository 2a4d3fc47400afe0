# Scribe command and annotation engine, modelled in Dafny

Scribe's Android keyboards are input method services. Their shared base,
`GeneralKeyboardIME`, has two jobs besides typing text.

- **Commands.** A Scribe key opens a command selection view. It offers
  translate, conjugate and plural. A chosen command shows a toolbar with a
  private *command bar*. There the user types a word in front of a marker glyph
  (U+239C) that stands in for the cursor. Enter commits the bar's content to
  the text field. In the plural command, the word's plural form is committed
  instead.
- **Annotations.** The word before the cursor is looked up in dictionaries
  loaded from the language database: emojis, noun genders, plural words and
  preposition cases. The genders and cases are shown as coloured chips in the
  suggestion area.

This project models that engine and proves properties of it:

- the Scribe state machine and the view and enter-key colour it selects;
- the command bar's append, delete and commit edits, with Kotlin's `trim` and
  `dropLast` written out;
- the shift key's three-state cycle with its 500 ms double-tap lock, and the
  letters/symbols toggles;
- reading the last word from a 20-character window before the cursor;
- the case-insensitive dictionary lookups, the plural query and the language
  aliases;
- the suggestion formatter, as chip directives: a text and a colour role per
  chip, one or two chips.

The modules follow the structure of the source:

- `ScribeTypes` holds the shared enums and values.
- `KotlinText` holds the standard-library string operations.
- `WordExtractor`, `Annotations`, `SuggestionFormatter`, `CommandBar` and
  `Keyboard` are pure functions and the lemmas about them.
- `Engine` holds the `ScribeEngine` class. Its fields are the ones the
  service updates in place: state, view, command bar text, shift state, time
  of the last shift press, keyboard mode, the singular-and-plural flag, the
  text-before-cursor flag, and the loaded dictionaries. Its methods are the
  handlers. Each one is specified by the pure functions, and the lemmas about
  those functions carry the properties.

## Model

| member | source | states |
|---|---|---|
| KotlinText.IsSpaceChar | app/src/main/java/be/scri/services/GeneralKeyboardIME.kt:508 | Character.isSpaceChar: below U+0100 exactly space and no-break space; nothing above U+3000 |
| KotlinText.IsWhitespace | app/src/main/java/be/scri/services/GeneralKeyboardIME.kt:508 | Char.isWhitespace: on ASCII exactly space, tab to carriage return and U+001C to U+001F; every space separator, line separator and paragraph separator; nothing above U+3000 |
| KotlinText.IsRegexSpace | app/src/main/java/be/scri/services/GeneralKeyboardIME.kt:509 | the regex class \s as Android's ICU engine matches it (White_Space): on ASCII exactly space and tab to carriage return, U+000B included; U+0085 and every separator; never U+001C to U+001F |
| KotlinText.RegexSpaceVersusWhitespace | app/src/main/java/be/scri/services/GeneralKeyboardIME.kt:508-509 | a regex space is exactly a whitespace character other than U+001C to U+001F, or U+0085; U+0085 is the only regex space that trim keeps |
| KotlinText.TrimStart | app/src/main/java/be/scri/services/GeneralKeyboardIME.kt:508 | the result is a suffix of the input that is empty or starts with a non-whitespace character, and everything dropped is whitespace |
| KotlinText.TrimEnd | app/src/main/java/be/scri/services/GeneralKeyboardIME.kt:508 | the result is a prefix of the input that is empty or ends with a non-whitespace character, and everything dropped is whitespace |
| KotlinText.Trim | app/src/main/java/be/scri/services/GeneralKeyboardIME.kt:508 | the result is a slice of the input with only whitespace before and only whitespace after it, and it is empty or starts and ends with non-whitespace |
| KotlinText.TrimBounds | app/src/main/java/be/scri/services/GeneralKeyboardIME.kt:508 | gives the two positions at which trim cuts the input: the kept slice between them, only whitespace outside them |
| KotlinText.TrimPositions | app/src/main/java/be/scri/services/GeneralKeyboardIME.kt:508 | a non-empty trim is the slice of the input from its first to its last non-whitespace character |
| KotlinText.TrimEmptyIff | app/src/main/java/be/scri/services/GeneralKeyboardIME.kt:452 | trim gives the empty string exactly when every character is whitespace |
| KotlinText.TrimLastChar | app/src/main/java/be/scri/services/GeneralKeyboardIME.kt:452 | a non-empty trim ends with the input's last non-whitespace character |
| KotlinText.LastNonWhitespaceUnique | app/src/main/java/be/scri/services/GeneralKeyboardIME.kt:452 | the last non-whitespace position is unique |
| KotlinText.FirstNonWhitespaceUnique | app/src/main/java/be/scri/services/GeneralKeyboardIME.kt:508 | the first non-whitespace position is unique |
| KotlinText.DropLast | app/src/main/java/be/scri/services/GeneralKeyboardIME.kt:1017 | dropLast(n) keeps a prefix of length max(0, length - n) |
| KotlinText.ToLower | app/src/main/java/be/scri/services/GeneralKeyboardIME.kt:518 | upper-case ASCII letters map to their lower case (code + 32), every other character to itself |
| KotlinText.ToUpper | app/src/main/java/be/scri/services/GeneralKeyboardIME.kt:1160 | lower-case ASCII letters map to their upper case (code - 32), every other character to itself |
| KotlinText.Lowercase | app/src/main/java/be/scri/services/GeneralKeyboardIME.kt:518 | same length, each character lower-cased |
| KotlinText.LowercaseIdempotent | app/src/main/java/be/scri/services/GeneralKeyboardIME.kt:518 | lower-casing twice is lower-casing once |
| KotlinText.EqualsIgnoreCase | app/src/main/java/be/scri/services/GeneralKeyboardIME.kt:543 | equals(ignoreCase = true): equal strings are equal ignoring case, and strings equal ignoring case have the same length |
| KotlinText.EqualsIgnoreCaseIffSameLowercase | app/src/main/java/be/scri/services/GeneralKeyboardIME.kt:543 | equals(ignoreCase = true) holds exactly when the lower-case forms are equal |
| KotlinText.IsLetter | app/src/main/java/be/scri/services/GeneralKeyboardIME.kt:1159 | Character.isLetter: a letter exactly when its lower and upper case differ; a letter is never whitespace nor a regex space |
| WordExtractor.Window | app/src/main/java/be/scri/services/GeneralKeyboardIME.kt:501-504 | the last min(20, length) characters before the cursor |
| WordExtractor.LastToken | app/src/main/java/be/scri/services/GeneralKeyboardIME.kt:509 | the last token of a \s+ split: a suffix with no regex space, preceded by a regex space when it is not the whole text |
| WordExtractor.LastWordBeforeCursor | app/src/main/java/be/scri/services/GeneralKeyboardIME.kt:506-511 | None exactly when there was no text to read; otherwise the last word of the 20-character window: no regex space in it, empty when the window is all whitespace, and otherwise the run that ends at the window's last non-whitespace character and starts at its first non-whitespace character or just after a regex space |
| WordExtractor.LastTokenOfTrim | app/src/main/java/be/scri/services/GeneralKeyboardIME.kt:508-509 | the last token of the split trimmed window is the window's last word in that sense |
| WordExtractor.LastWordUnique | app/src/main/java/be/scri/services/GeneralKeyboardIME.kt:506-511 | a window has only one last word, so that characterisation fixes the result |
| WordExtractor.LastWordEmptyIff | app/src/main/java/be/scri/services/GeneralKeyboardIME.kt:506-511 | the last word is empty exactly when the window is all whitespace or its last non-whitespace character is a regex space, which can only be U+0085 |
| WordExtractor.SplitAtInnerTabulation | app/src/main/java/be/scri/services/GeneralKeyboardIME.kt:508-509 | for the text "a", U+000B, "b" the last word is "b": trim keeps the inner U+000B and the split cuts there |
| WordExtractor.EmptyWordAfterNextLine | app/src/main/java/be/scri/services/GeneralKeyboardIME.kt:508-509 | for the text "a", U+0085 the last word is "": trim keeps the final U+0085 and the split leaves an empty last token |
| WordExtractor.HasTextBeforeCursor | app/src/main/java/be/scri/services/GeneralKeyboardIME.kt:450-454 | false without an input connection |
| WordExtractor.HasTextBeforeCursorIff | app/src/main/java/be/scri/services/GeneralKeyboardIME.kt:450-454 | true exactly when some non-whitespace character precedes the cursor and the last one is not a period |
| Annotations.LookupLowercase | app/src/main/java/be/scri/services/GeneralKeyboardIME.kt:513-582 | a hit exactly when the word is present and its lower-case form is a key, and then that key's entry |
| Annotations.LookupIgnoresCase | app/src/main/java/be/scri/services/GeneralKeyboardIME.kt:518 | spellings that differ only in case find the same entry |
| Annotations.LookupFindsKeyIgnoringCase | app/src/main/java/be/scri/services/GeneralKeyboardIME.kt:535-539 | over lower-case keys, a word is found exactly when some key equals it ignoring case, and that key's entry is returned |
| Annotations.FindEmojis | app/src/main/java/be/scri/services/GeneralKeyboardIME.kt:513-528 | the emoji list under the lower-cased word, None for a miss or a null word |
| Annotations.GetCaseAnnotation | app/src/main/java/be/scri/services/GeneralKeyboardIME.kt:572-582 | the case list under the lower-cased word, None for a miss or a null word |
| Annotations.FindWhetherWordIsPlural | app/src/main/java/be/scri/services/GeneralKeyboardIME.kt:560-570 | the scan returns true exactly when the word is non-null and occurs exactly (case-sensitively) in the plural words |
| Annotations.AnyEqualsIgnoreCase | app/src/main/java/be/scri/services/GeneralKeyboardIME.kt:543 | pluralWords.any { it.equals(word, ignoreCase = true) }: true exactly when some plural word has the same lower-case form as the word |
| Annotations.SomeEqualIgnoringCaseIff | app/src/main/java/be/scri/services/GeneralKeyboardIME.kt:543 | some plural word equals the word ignoring case exactly when some plural word has the same lower-case form |
| Annotations.ExactPluralImpliesIgnoringCase | app/src/main/java/be/scri/services/GeneralKeyboardIME.kt:543 | an exact plural hit is also a hit ignoring case |
| Annotations.FirstPresent | app/src/main/java/be/scri/services/GeneralKeyboardIME.kt:871 | filterNotNull().firstOrNull(): None exactly when all values are null, otherwise the first non-null value |
| Annotations.PluralRepresentation | app/src/main/java/be/scri/services/GeneralKeyboardIME.kt:867-872 | None for a null or empty word or a word without forms, otherwise the first non-null form |
| Annotations.LanguageAlias | app/src/main/java/be/scri/services/GeneralKeyboardIME.kt:919-930 | each of the eight languages maps to its alias, position by position, and "" exactly for every other name |
| Annotations.LanguageAliasInjective | app/src/main/java/be/scri/services/GeneralKeyboardIME.kt:919-930 | different known languages get different aliases |
| Annotations.ProcessValueForNouns | app/src/main/java/be/scri/services/GeneralKeyboardIME.kt:826-837 | the table's entry when the language and abbreviation are in the noun table, the input otherwise |
| Annotations.ProcessValuesForPreposition | app/src/main/java/be/scri/services/GeneralKeyboardIME.kt:839-850 | the table's entry when the language and abbreviation are in the case table, the input otherwise |
| Annotations.NounRemapLanguages | app/src/main/java/be/scri/services/GeneralKeyboardIME.kt:118-128 | only Swedish and Russian remap gender abbreviations |
| Annotations.PrepRemapLanguages | app/src/main/java/be/scri/services/GeneralKeyboardIME.kt:104-116 | only German and Russian remap case abbreviations |
| Annotations.NounTag | app/src/main/java/be/scri/services/GeneralKeyboardIME.kt:808-824 | PL is orange "PL", neuter is green "N" and never remapped, common/masculine/feminine are purple/blue/red with the remapped C/M/F, and an unknown tag is the transparent placeholder (transparent exactly for unknown tags) |
| Annotations.CaseTag | app/src/main/java/be/scri/services/GeneralKeyboardIME.kt:792-806 | a known case is dark grey with its remapped abbreviation, an unknown one the transparent placeholder |
| Annotations.RussianFixedLabels | app/src/main/java/be/scri/services/GeneralKeyboardIME.kt:808-824 | Russian neuter and plural chips keep "N" and "PL" although the Russian table maps them; feminine shows "Ж" and German accusative "Akk" |
| SuggestionFormatter.PluralAutoSuggest | app/src/main/java/be/scri/services/GeneralKeyboardIME.kt:630-646 | one orange "PL" chip, overriding the noun table's result |
| SuggestionFormatter.DisableAutoSuggest | app/src/main/java/be/scri/services/GeneralKeyboardIME.kt:852-860 | the transparent "Suggestion" placeholder |
| SuggestionFormatter.SingleType | app/src/main/java/be/scri/services/GeneralKeyboardIME.kt:648-698 | an empty list throws; a noun chip takes the noun table's colour and text; a preposition chip takes the case table's text and the theme colour (white in dark mode, dark grey otherwise) |
| SuggestionFormatter.MultipleFormats | app/src/main/java/be/scri/services/GeneralKeyboardIME.kt:700-726 | two chips: (PL, first) for a singular-and-plural word, (first, second) otherwise; a list too short for the branch throws |
| SuggestionFormatter.FormatList | app/src/main/java/be/scri/services/GeneralKeyboardIME.kt:613-626 | a null list leaves the suggestion area as it was; an empty list throws; otherwise two chips exactly for several entries, or for a noun list on a word flagged singular-and-plural |
| SuggestionFormatter.UpdateAutoSuggestText | app/src/main/java/be/scri/services/GeneralKeyboardIME.kt:605-628 | a plural word gives the PL chip; no lists change nothing |
| SuggestionFormatter.NounChipCount | app/src/main/java/be/scri/services/GeneralKeyboardIME.kt:610-616 | for nouns alone: two chips exactly for several genders or a singular-and-plural word, one chip exactly for one unambiguous gender, an exception exactly for an empty list |
| SuggestionFormatter.AmbiguousNounOrder | app/src/main/java/be/scri/services/GeneralKeyboardIME.kt:710-712 | a singular-and-plural noun shows orange PL on the left and its first gender on the right |
| SuggestionFormatter.TwoGendersOrder | app/src/main/java/be/scri/services/GeneralKeyboardIME.kt:713-714 | otherwise two genders are shown first-left, second-right |
| SuggestionFormatter.CasesOverwriteNouns | app/src/main/java/be/scri/services/GeneralKeyboardIME.kt:613-626 | when the noun formatting did not throw, a present case list decides the display alone |
| SuggestionFormatter.NounThrowSkipsCases | app/src/main/java/be/scri/services/GeneralKeyboardIME.kt:605-626 | when formatting the noun list throws, the whole update throws, whatever the case list holds |
| SuggestionFormatter.AmbiguousPrepositionLeftPlaceholder | app/src/main/java/be/scri/services/GeneralKeyboardIME.kt:710-712 | several cases on a word flagged singular-and-plural put the placeholder on the left, since the case table does not know PL |
| SuggestionFormatter.TagChip | app/src/main/java/be/scri/services/GeneralKeyboardIME.kt:792-824 | a chip is transparent exactly for a tag its table (noun genders or case names) does not know, and a transparent chip shows the placeholder |
| CommandBar.MarkerNotWhitespace | app/src/main/java/be/scri/services/GeneralKeyboardIME.kt:103 | the marker is not whitespace, so trim never removes it |
| CommandBar.AppendText | app/src/main/java/be/scri/services/GeneralKeyboardIME.kt:1163-1176 | the new bar ends with the typed character and the marker, preceded by the trimmed old bar without its last character; from an empty bar it is the character and the marker |
| CommandBar.DeleteText | app/src/main/java/be/scri/services/GeneralKeyboardIME.kt:1093-1112 | a bar of at most two characters is cleared; otherwise the trimmed bar loses two characters and gets the marker back; never longer than before |
| CommandBar.CommandBarInput | app/src/main/java/be/scri/services/GeneralKeyboardIME.kt:1013-1019 | the trimmed bar without its last character, shorter than the bar unless empty |
| CommandBar.CommandModeOutput | app/src/main/java/be/scri/services/GeneralKeyboardIME.kt:1020-1024 | outside the plural state the input; in the plural state the plural form, or "" when there is none |
| CommandBar.CommitText | app/src/main/java/be/scri/services/GeneralKeyboardIME.kt:1012-1029 | the output with exactly one space appended exactly when the output is longer than the input; outside the plural state the input itself |
| CommandBar.AppendToMarked | app/src/main/java/be/scri/services/GeneralKeyboardIME.kt:1174 | typing into a marked bar that does not start with whitespace inserts the character before the marker |
| CommandBar.AppendToSpace | app/src/main/java/be/scri/services/GeneralKeyboardIME.kt:1174 | typing into a bar holding one whitespace character and the marker replaces that character |
| CommandBar.TrimStartSnoc | app/src/main/java/be/scri/services/GeneralKeyboardIME.kt:1174 | how the leading-whitespace trim of a text grows by one character |
| CommandBar.BarAfterTyping | app/src/main/java/be/scri/services/GeneralKeyboardIME.kt:1163-1176 | the bar after typing a word into an empty bar is empty exactly when the word is empty; its closed form is stated by BarAfterTypingShape |
| CommandBar.BarAfterTypingShape | app/src/main/java/be/scri/services/GeneralKeyboardIME.kt:1163-1176 | after typing any word into an empty bar, the bar is the word without its leading whitespace followed by the marker (or the last whitespace character and the marker, or empty) |
| CommandBar.CommitAfterTyping | app/src/main/java/be/scri/services/GeneralKeyboardIME.kt:1012-1029 | outside the plural state, committing after typing w commits w without its leading whitespace, with no space added |
| CommandBar.TwoKeysRoundTrip | app/src/main/java/be/scri/services/GeneralKeyboardIME.kt:1012-1029 | typing a and then b into an empty bar, a not whitespace, and committing outside the plural state commits "ab" |
| CommandBar.PluralCommitAfterTyping | app/src/main/java/be/scri/services/GeneralKeyboardIME.kt:1020-1027 | in the plural state, committing a typed word that does not start with whitespace commits its plural form, plus one space when the form is longer, or "" when there is none |
| CommandBar.DeleteMarked | app/src/main/java/be/scri/services/GeneralKeyboardIME.kt:1104-1106 | deleting in a marked bar of two or more characters that does not start with whitespace removes the character before the marker |
| CommandBar.DeleteUndoesTyping | app/src/main/java/be/scri/services/GeneralKeyboardIME.kt:1093-1112 | for a word that does not start with whitespace, deleting right after typing its last character gives the bar from before that character |
| CommandBar.DeleteAfterLeadingWhitespace | app/src/main/java/be/scri/services/GeneralKeyboardIME.kt:1093-1112 | after a whitespace key and then any character the bar holds only that character and the marker, so deleting clears it instead of giving back the whitespace key's bar |
| CommandBar.LeadingWhitespaceKeyLost | app/src/main/java/be/scri/services/GeneralKeyboardIME.kt:1163-1176 | typing a whitespace key and then c, and committing outside the plural state, commits c alone, or nothing when c is whitespace too |
| CommandBar.DeleteOnEmptyBar | app/src/main/java/be/scri/services/GeneralKeyboardIME.kt:1096-1110 | deleting in an empty bar leaves it empty |
| Keyboard.NextShift | app/src/main/java/be/scri/services/GeneralKeyboardIME.kt:1062-1075 | locked exactly when not locked before and pressed within 500 ms; off exactly from locked, or from one-char after a slow press; one-char exactly from off after a slow press |
| Keyboard.SymbolShiftToggle | app/src/main/java/be/scri/services/GeneralKeyboardIME.kt:1079-1090 | never letters; shifted symbols exactly from symbols |
| Keyboard.ModeAfterChange | app/src/main/java/be/scri/services/GeneralKeyboardIME.kt:1040-1056 | symbols exactly from letters, letters from anything else |
| Keyboard.ShiftAfterTyping | app/src/main/java/be/scri/services/GeneralKeyboardIME.kt:1191-1194 | a one-char shift on letters is used up; otherwise the shift is kept |
| Keyboard.ShiftAfterDelete | app/src/main/java/be/scri/services/GeneralKeyboardIME.kt:1120-1122 | a one-char shift is dropped on any keyboard; others are kept |
| Keyboard.DoubleTapLocks | app/src/main/java/be/scri/services/GeneralKeyboardIME.kt:1062-1075 | two presses less than 500 ms apart, the first slow, lock capitals from off or one-char |
| Keyboard.LockReleases | app/src/main/java/be/scri/services/GeneralKeyboardIME.kt:1064-1066 | a locked shift unlocks on the next press, however soon, and a later slow press gives one capital |
| Keyboard.SlowPressesAlternate | app/src/main/java/be/scri/services/GeneralKeyboardIME.kt:1067-1075 | slow presses alternate between one capital and none |
| Keyboard.ModeChangeRoundTrip | app/src/main/java/be/scri/services/GeneralKeyboardIME.kt:1040-1056 | changing mode twice from letters or symbols comes back; shifted symbols go to letters |
| Keyboard.SymbolShiftRoundTrip | app/src/main/java/be/scri/services/GeneralKeyboardIME.kt:1079-1090 | the symbols shift key alternates between the two symbol keyboards |
| Engine.Target | app/src/main/java/be/scri/services/GeneralKeyboardIME.kt:231-437 | the Scribe key of the idle view gives SELECT_COMMAND; the three buttons give TRANSLATE, CONJUGATE and PLURAL; every other Scribe key and finishing the input view force IDLE |
| Engine.ViewFor | app/src/main/java/be/scri/services/GeneralKeyboardIME.kt:275-284 | the idle view exactly for idle, the selection view exactly for command selection, the toolbar exactly in a command state |
| Engine.EnterKeyColorFor | app/src/main/java/be/scri/services/GeneralKeyboardIME.kt:217-221 | Scribe blue exactly in a command state |
| Engine.StartMode | app/src/main/java/be/scri/services/GeneralKeyboardIME.kt:892-902 | number, date-time and phone fields open on symbols, all others on letters, never on shifted symbols |
| Engine.CharToType | app/src/main/java/be/scri/services/GeneralKeyboardIME.kt:1159-1161 | a letter is upper-cased when shift is on in either way; everything else is typed as is |
| Engine.ScribeEngine.constructor | app/src/main/java/be/scri/services/GeneralKeyboardIME.kt:87-132 | the state starts IDLE (line 132) and the singular-and-plural flag false (line 87); the keyboard mode, the last shift press and the text-before-cursor flag are abstract in the base class and are taken from the caller; the bar is empty and the view is the idle one |
| Engine.ScribeEngine.Tap | app/src/main/java/be/scri/services/GeneralKeyboardIME.kt:231-437 | the state becomes the tap's target and the view follows it; entering a command empties the bar, rebuilds the letters keyboard and, for the German plural button, sets a one-char shift; the idle and selection views keep bar, mode and shift |
| Engine.ScribeEngine.StartInput | app/src/main/java/be/scri/services/GeneralKeyboardIME.kt:880-917 | the keyboard for the field's class with a fresh shift, the text-before-cursor flag, and the loaded dictionaries |
| Engine.ScribeEngine.ShiftPress | app/src/main/java/be/scri/services/GeneralKeyboardIME.kt:1058-1091 | on letters the shift follows NextShift and the press time is recorded; elsewhere the symbols keyboard toggles with a fresh shift |
| Engine.ScribeEngine.ModeChange | app/src/main/java/be/scri/services/GeneralKeyboardIME.kt:1040-1056 | the other keyboard with a fresh shift |
| Engine.ScribeEngine.TypeKey | app/src/main/java/be/scri/services/GeneralKeyboardIME.kt:1150-1195 | in the command bar the character goes before the marker and nothing is committed; otherwise the character is committed and appended to the bar, or the bar becomes " " for a space off the letters keyboard; the one-char shift is used up; nothing happens without an input connection |
| Engine.ScribeEngine.Delete | app/src/main/java/be/scri/services/GeneralKeyboardIME.kt:1114-1138 | the one-char shift is dropped; in the command bar the bar is edited by DeleteText, and clearing a short bar in the German plural command sets a one-char shift |
| Engine.ScribeEngine.Enter | app/src/main/java/be/scri/services/GeneralKeyboardIME.kt:1005-1038 | with an input connection, in the command bar the committed text is CommitText of the old bar and the bar is emptied; outside the command bar, or without a connection, nothing is committed and the bar is kept |
| Engine.ScribeEngine.FindGenderForLastWord | app/src/main/java/be/scri/services/GeneralKeyboardIME.kt:530-558 | the genders under the lower-cased word; on a hit the flag becomes whether some plural word equals the word ignoring case; on a miss the flag is kept |
| Engine.ScribeEngine.UpdateAutoSuggest | app/src/main/java/be/scri/services/GeneralKeyboardIME.kt:605-628 | the formatter applied with the flag left by the last gender lookup; a plural word gives the PL chip |
| Engine.ScribeEngine.CommitPeriodAfterSpace | app/src/main/java/be/scri/services/GeneralKeyboardIME.kt:238-252 | a replacement exactly outside a command with an input connection: ". " when double-tap gives a period, two spaces otherwise |
| Engine.ScribeEngine.TypeWord | app/src/main/java/be/scri/services/GeneralKeyboardIME.kt:1163-1176 | a key-press scenario, not a source function: typing the characters of a word one by one into an empty bar, shift off, leaves the bar BarAfterTyping of the word |
| Engine.ScribeEngine.TypeAndEnter | app/src/main/java/be/scri/services/GeneralKeyboardIME.kt:1005-1038 | a key-press scenario, not a source function: typing a word into the empty bar of a command and pressing enter commits what CommitText gives for that bar, which outside the plural command is the word without its leading whitespace; the bar ends empty |

## Left out

- Views, bindings and theming are left out: layouts, colours, drawables, padding, visibility, text sizes and `updateCommandBarHintandPrompt`. Only the chip directive (text and colour role) and the selected view are modelled.
- SharedPreferences reads (dark mode, period on double tap) become boolean parameters.
- The database (`DatabaseHelper`) becomes the `Lexicon` value passed to `StartInput`. For plural forms it becomes a map from a word to the values the query returns. The language alias the query takes is not modelled, because the map stands for one language.
- Input-connection calls become values.
  - The committed text is an out-parameter and the text before the cursor an `Option<string>`.
  - A missing input connection is a `connected` flag or `None`. Where the source reads the editor info or calls the connection without a null check (`currentInputEditorInfo` at line 999, then `commitText` and `performEditorAction` in `handleKeycodeEnter` at lines 1028 and 1032), Kotlin throws. Engine.ScribeEngine.Enter instead commits nothing and keeps the bar.
  - `deleteSurroundingText`, `performEditorAction`, `sendKeyEvent`, `getExtractedText` and the `switchToLetters` comparison are left out.
- The non-command branch of `handleDelete` is left out, including `isEmoji` and the selected-text check, because it only issues input-connection calls.
- Engine.ScribeEngine.constructor: the emoji, noun, plural and case dictionaries are `lateinit` (lines 92-95) and reading them before `onStartInput` throws; the model starts them as empty maps.
- KotlinText.IsRegexSpace, WordExtractor.LastToken: `\s` follows Android's ICU-based regex engine, which matches the White_Space property. On a desktop JVM `\s` is `[ \t\n\x0B\f\r]` and would match neither U+0085 nor the Unicode separators.
- `KeyboardBase` and its XML layouts: the shift state of a freshly built keyboard is the constructor constant `freshShift`.
- The placeholder labels (`*InterfaceVariables`) and `updateButtonText` are display only. Their definitions are not part of this model.
- `System.currentTimeMillis` becomes a parameter of `ShiftPress`. Its `Long` timestamps are unbounded integers, so overflow is not modelled.
- The views `setupIdleView`, `onStartInputView`, `switchToLetters`/`onActionUp`, `updateShiftKeyState`, `moveCursor`, `onText`, `onPress` vibration and `updateKeyboardMode` are left out. They are UI, or they depend on editor flags this model does not carry.
- `handleElseCondition` and `handleKeyboardLetters` receive the keyboard mode as an argument. The model reads the `keyboardMode` field instead. The callers are not part of this model.
- `Log` calls and `vibrateIfNeeded`.
- `app/src/main/java/be/scri/ui/common/appcomponents/PageTitle.kt` is a UI widget with no logic.
- KotlinText.ToLower, KotlinText.ToUpper, KotlinText.IsLetter: case mapping and `isLetter` cover ASCII only. Other letters are treated as caseless non-letters.
- Strings are sequences of Unicode scalar values, not of UTF-16 code units, so lengths of text with surrogate pairs differ.
- A null command bar binding, whose text Kotlin would render as "null", is not modelled. The bar is always present.
- Engine.ScribeEngine.TypeWord, Engine.ScribeEngine.TypeAndEnter: stated for typing with the shift off. With the shift off every key types itself. The one-char shift that the German plural command sets would capitalise the first letter instead.

Four points where the code differs from an informal reading follow the code:
- An all-whitespace window gives the last word `Some("")` (Kotlin splits "" into [""]), not null.
- A window whose last non-whitespace character is U+0085 also gives `Some("")`: trim keeps that character, and the split cuts at it.
- `updateAutoSuggestText` with both lists null changes nothing.
- Returning to the idle or selection view does not clear the command bar. A new bar is built only on entering a command.
