/**
 * The command bar: the private text the user composes while translating,
 * conjugating or pluralising, with a marker glyph standing in for the cursor at
 * its end. These functions give the bar's new text for each edit; the engine
 * applies them to its field.
 */
module CommandBar {
  import opened ScribeTypes
  import opened KotlinText
  import opened Annotations

  /** commandChar: the cursor stand-in at the end of the command bar. */
  const Marker: char := '\U{239C}'

  lemma MarkerNotWhitespace()
    ensures !IsWhitespace(Marker)
  {
  }

  /**
   * Typing `c` into the command bar: the trimmed text loses its last character
   * (the marker) and gets `c` and a new marker.
   */
  function AppendText(bar: string, c: char): (r: string)
    ensures |r| >= 2 && r[|r| - 2] == c && r[|r| - 1] == Marker
    ensures r[..|r| - 2] == DropLast(Trim(bar), 1)
    ensures bar == [] ==> r == [c, Marker]
  {
    DropLast(Trim(bar), 1) + [c, Marker]
  }

  /**
   * Deleting in the command bar: a text of at most two characters (one character
   * and the marker) is cleared; otherwise the trimmed text loses the marker and
   * the character before it, and gets the marker back.
   */
  function DeleteText(bar: string): (r: string)
    ensures |bar| <= 2 ==> r == []
    ensures |bar| > 2 ==> |r| >= 1 && r[|r| - 1] == Marker && r[..|r| - 1] == DropLast(Trim(bar), 2)
    ensures |r| <= |bar|
  {
    if |bar| <= 2 then [] else DropLast(Trim(bar), 2) + [Marker]
  }

  /** What the bar holds when committed: its trimmed text without the final marker. */
  function CommandBarInput(bar: string): (r: string)
    ensures |r| < |bar| || r == []
    ensures r == DropLast(Trim(bar), 1)
  {
    DropLast(Trim(bar), 1)
  }

  /**
   * commandModeOutput: in the plural state the plural form of the input, or ""
   * when there is none (not the input itself); in any other state the input.
   */
  function CommandModeOutput(state: ScribeState, input: string,
                             pluralForms: map<string, seq<Option<string>>>): (r: string)
    ensures !state.Plural? ==> r == input
    ensures state.Plural? && PluralRepresentation(pluralForms, Some(input)).None? ==> r == ""
    ensures state.Plural? && PluralRepresentation(pluralForms, Some(input)).Some? ==>
      r == PluralRepresentation(pluralForms, Some(input)).value
  {
    if state.Plural? then
      match PluralRepresentation(pluralForms, Some(input))
      case None => ""
      case Some(p) => p
    else input
  }

  /**
   * The text committed on enter: the command-mode output, with exactly one space
   * appended exactly when that output is longer than the input.
   */
  function CommitText(state: ScribeState, bar: string,
                      pluralForms: map<string, seq<Option<string>>>): (r: string)
    ensures var input := CommandBarInput(bar);
      var output := CommandModeOutput(state, input, pluralForms);
      && (|output| > |input| ==> r == output + " ")
      && (|output| <= |input| ==> r == output)
    ensures !state.Plural? ==> r == CommandBarInput(bar)
  {
    var input := CommandBarInput(bar);
    var output := CommandModeOutput(state, input, pluralForms);
    if |output| > |input| then output + " " else output
  }

  /** Trim leaves a marked text alone when it does not start with whitespace. */
  lemma TrimMarked(t: string)
    requires t == [] || !IsWhitespace(t[0])
    ensures Trim(t + [Marker]) == t + [Marker]
  {
    var s := t + [Marker];
    assert s[0] == if t == [] then Marker else t[0];
    TrimStartKeeps(s);
    TrimEndKeeps(s);
  }

  /** Trim drops a lone leading space in front of the marker. */
  lemma TrimSpaceMarked(x: char)
    requires IsWhitespace(x)
    ensures Trim([x, Marker]) == [Marker]
  {
    assert [x, Marker][1..] == [Marker];
    TrimStartStep([x, Marker]);
    TrimStartKeeps([Marker]);
    TrimEndKeeps([Marker]);
  }

  /**
   * The bar after typing the characters of `w` one by one into an empty bar;
   * it is empty only when nothing was typed.
   */
  function BarAfterTyping(w: string): (r: string)
    ensures w == [] <==> r == []
  {
    if w == [] then [] else AppendText(BarAfterTyping(w[..|w| - 1]), w[|w| - 1])
  }

  /** Leading whitespace of `w + [c]`, from that of `w`. */
  lemma {:induction false} TrimStartSnoc(w: string, c: char)
    ensures TrimStart(w + [c]) ==
      if TrimStart(w) != [] then TrimStart(w) + [c]
      else if IsWhitespace(c) then []
      else [c]
  {
    if w == [] {
      assert w + [c] == [c];
      if IsWhitespace(c) {
        TrimStartStep([c]);
        assert [c][1..] == [];
      } else {
        TrimStartKeeps([c]);
      }
    } else if IsWhitespace(w[0]) {
      assert (w + [c])[1..] == w[1..] + [c];
      TrimStartStep(w + [c]);
      TrimStartStep(w);
      TrimStartSnoc(w[1..], c);
    } else {
      TrimStartKeeps(w + [c]);
      TrimStartKeeps(w);
    }
  }

  /** Typing into a marked bar that does not start with whitespace inserts before the marker. */
  lemma AppendToMarked(t: string, c: char)
    requires t == [] || !IsWhitespace(t[0])
    ensures AppendText(t + [Marker], c) == t + [c, Marker]
  {
    TrimMarked(t);
    assert DropLast(t + [Marker], 1) == t;
  }

  /** Typing into a bar holding one whitespace character replaces it. */
  lemma AppendToSpace(x: char, c: char)
    requires IsWhitespace(x)
    ensures AppendText([x, Marker], c) == [c, Marker]
  {
    TrimSpaceMarked(x);
  }

  /** Typing one more character is one more AppendText. */
  lemma {:induction false} BarAfterTypingSnoc(p: string, c: char)
    ensures BarAfterTyping(p + [c]) == AppendText(BarAfterTyping(p), c)
  {
    var q := p + [c];
    assert q[..|q| - 1] == p && q[|q| - 1] == c;
    assert BarAfterTyping(q) == AppendText(BarAfterTyping(q[..|q| - 1]), q[|q| - 1]);
  }

  /** Typing the prefix of `w` one character longer appends that character. */
  lemma {:induction false} BarAfterTypingPrefix(w: string, i: nat)
    requires i < |w|
    ensures BarAfterTyping(w[..i + 1]) == AppendText(BarAfterTyping(w[..i]), w[i])
  {
    assert w[..i + 1][..i] == w[..i];
  }

  /** Regrouping a character and the marker at the end. */
  lemma SnocMarker(t: string, c: char)
    ensures t + [c, Marker] == (t + [c]) + [Marker]
  {
  }

  /** Typing after a non-blank start inserts the character before the marker. */
  lemma StepShaped(p: string, c: char)
    requires TrimStart(p) != [] && BarAfterTyping(p) == TrimStart(p) + [Marker]
    ensures BarAfterTyping(p + [c]) == (TrimStart(p) + [c]) + [Marker]
  {
    BarAfterTypingSnoc(p, c);
    AppendToMarked(TrimStart(p), c);
    SnocMarker(TrimStart(p), c);
  }

  /** Typing after whitespace only replaces the lone whitespace character. */
  lemma StepBlank(p: string, c: char)
    requires TrimStart(p) == [] && p != [] && BarAfterTyping(p) == [p[|p| - 1], Marker]
    ensures BarAfterTyping(p + [c]) == [c, Marker]
  {
    BarAfterTypingSnoc(p, c);
    AppendToSpace(p[|p| - 1], c);
  }

  /** Typing into the empty bar gives the character and the marker. */
  lemma StepEmpty(c: char)
    ensures BarAfterTyping([c]) == [c, Marker]
  {
    BarAfterTypingSnoc([], c);
  }

  /**
   * The bar after typing `w`, in closed form: `w` without its leading whitespace
   * and the marker; or, when `w` is all whitespace, its last character and the
   * marker; or nothing for nothing typed.
   */
  ghost predicate Shaped(w: string)
  {
    BarAfterTyping(w) ==
      if TrimStart(w) != [] then TrimStart(w) + [Marker]
      else if w == [] then []
      else [w[|w| - 1], Marker]
  }

  /** A one-character sequence and the marker, as a display. */
  lemma PairMarker(c: char)
    ensures [c] + [Marker] == [c, Marker]
  {
  }

  /** The closed form survives one more character: the three cases, then together. */
  lemma ShapeStepShaped(p: string, c: char)
    requires Shaped(p) && TrimStart(p) != []
    ensures Shaped(p + [c])
  {
    TrimStartSnoc(p, c);
    StepShaped(p, c);
  }

  lemma ShapeStepBlankSpace(p: string, c: char)
    requires Shaped(p) && TrimStart(p) == [] && IsWhitespace(c)
    ensures Shaped(p + [c])
  {
    TrimStartSnoc(p, c);
    var w := p + [c];
    assert w[|w| - 1] == c;
    if p != [] {
      StepBlank(p, c);
    } else {
      StepEmpty(c);
      assert w == [c];
    }
  }

  lemma ShapeStepBlankLetter(p: string, c: char)
    requires Shaped(p) && TrimStart(p) == [] && !IsWhitespace(c)
    ensures Shaped(p + [c])
  {
    TrimStartSnoc(p, c);
    PairMarker(c);
    if p != [] {
      StepBlank(p, c);
    } else {
      StepEmpty(c);
      assert p + [c] == [c];
    }
  }

  lemma ShapeStep(p: string, c: char)
    requires Shaped(p)
    ensures Shaped(p + [c])
  {
    if TrimStart(p) != [] {
      ShapeStepShaped(p, c);
    } else if IsWhitespace(c) {
      ShapeStepBlankSpace(p, c);
    } else {
      ShapeStepBlankLetter(p, c);
    }
  }

  /** Every typed word leaves the bar in its closed form, by induction on the word. */
  lemma {:induction false} BarAfterTypingShape(w: string)
    ensures Shaped(w)
  {
    if w != [] {
      var p := w[..|w| - 1];
      assert w == p + [w[|w| - 1]];
      BarAfterTypingShape(p);
      ShapeStep(p, w[|w| - 1]);
    }
  }

  /** The input read from a marked bar that does not start with whitespace is the text before the marker. */
  lemma InputOfMarked(t: string)
    requires t == [] || !IsWhitespace(t[0])
    ensures CommandBarInput(t + [Marker]) == t
  {
    TrimMarked(t);
    assert DropLast(t + [Marker], 1) == t;
  }

  /** Outside the plural state, committing a marked text that does not start with whitespace commits the text. */
  lemma CommitMarked(state: ScribeState, t: string, pluralForms: map<string, seq<Option<string>>>)
    requires !state.Plural?
    requires t == [] || !IsWhitespace(t[0])
    ensures CommitText(state, t + [Marker], pluralForms) == t
  {
    InputOfMarked(t);
  }

  /** What the plural command commits for a bar whose input is `w`. */
  lemma PluralCommitOfInput(bar: string, w: string, pluralForms: map<string, seq<Option<string>>>)
    requires CommandBarInput(bar) == w
    ensures var r := CommitText(Plural, bar, pluralForms);
      match PluralRepresentation(pluralForms, Some(w))
      case None => r == ""
      case Some(p) => r == (if |p| > |w| then p + " " else p)
  {
  }

  /** Outside the plural state, committing a bar holding one whitespace character commits nothing. */
  lemma CommitSpace(state: ScribeState, x: char, pluralForms: map<string, seq<Option<string>>>)
    requires !state.Plural? && IsWhitespace(x)
    ensures CommitText(state, [x, Marker], pluralForms) == []
  {
    TrimSpaceMarked(x);
  }

  /**
   * Outside the plural state, committing after typing `w` yields `w` without its
   * leading whitespace, and no space is added.
   */
  lemma CommitAfterTyping(state: ScribeState, w: string, pluralForms: map<string, seq<Option<string>>>)
    requires !state.Plural?
    ensures CommitText(state, BarAfterTyping(w), pluralForms) == TrimStart(w)
  {
    BarAfterTypingShape(w);
    if TrimStart(w) != [] {
      CommitMarked(state, TrimStart(w), pluralForms);
    } else if w != [] {
      assert IsWhitespace(w[|w| - 1]);
      CommitSpace(state, w[|w| - 1], pluralForms);
    }
  }

  /**
   * Typing two characters into an empty bar and committing outside the plural
   * state commits exactly those two characters, e.g. "ab" in the translate state.
   */
  lemma TwoKeysRoundTrip(state: ScribeState, a: char, b: char, pluralForms: map<string, seq<Option<string>>>)
    requires !state.Plural? && !IsWhitespace(a)
    ensures CommitText(state, AppendText(AppendText([], a), b), pluralForms) == [a, b]
  {
    var first := [a];
    assert [a, b] == first + [b];
    PairMarker(a);
    AppendToMarked(first, b);
    SnocMarker(first, b);
    CommitMarked(state, [a, b], pluralForms);
  }

  /**
   * In the plural state, committing a typed word gives its plural form followed
   * by one space when the form is longer, the form alone when it is not, and ""
   * for a word without a plural form.
   */
  lemma PluralCommitAfterTyping(w: string, pluralForms: map<string, seq<Option<string>>>)
    requires w != [] && !IsWhitespace(w[0])
    ensures var r := CommitText(Plural, BarAfterTyping(w), pluralForms);
      match PluralRepresentation(pluralForms, Some(w))
      case None => r == ""
      case Some(p) => r == (if |p| > |w| then p + " " else p)
  {
    BarAfterTypingShape(w);
    TrimStartKeeps(w);
    InputOfMarked(w);
    PluralCommitOfInput(BarAfterTyping(w), w, pluralForms);
  }

  /** Deleting in a marked text of two or more characters removes the character before the marker. */
  lemma DeleteMarked(t: string)
    requires |t| >= 2 && !IsWhitespace(t[0])
    ensures DeleteText(t + [Marker]) == t[..|t| - 1] + [Marker]
  {
    TrimMarked(t);
    assert DropLast(t + [Marker], 2) == t[..|t| - 1];
  }

  /** Deleting right after typing a character undoes it. */
  lemma DeleteUndoesTyping(w: string)
    requires w != [] && !IsWhitespace(w[0])
    ensures DeleteText(BarAfterTyping(w)) == BarAfterTyping(w[..|w| - 1])
  {
    BarAfterTypingShape(w);
    TrimStartKeeps(w);
    var p := w[..|w| - 1];
    BarAfterTypingShape(p);
    if |w| > 1 {
      TrimStartKeeps(p);
      DeleteMarked(w);
    }
  }

  /**
   * Typing a whitespace key first and then any character, and deleting, clears
   * the bar: the two-character bar is cleared outright, so the delete does not
   * give back the bar holding the whitespace key.
   */
  lemma DeleteAfterLeadingWhitespace(x: char, c: char)
    requires IsWhitespace(x)
    ensures BarAfterTyping([x]) == [x, Marker]
    ensures BarAfterTyping([x, c]) == [c, Marker]
    ensures DeleteText(BarAfterTyping([x, c])) == []
  {
    StepEmpty(x);
    BarAfterTypingSnoc([x], c);
    AppendToSpace(x, c);
  }

  /**
   * Typing a whitespace key and then a character, and committing outside the
   * plural state, commits the second character alone (nothing when it is
   * whitespace too): the first key is lost.
   */
  lemma LeadingWhitespaceKeyLost(state: ScribeState, x: char, c: char, pluralForms: map<string, seq<Option<string>>>)
    requires !state.Plural? && IsWhitespace(x)
    ensures CommitText(state, AppendText(AppendText([], x), c), pluralForms) == if IsWhitespace(c) then [] else [c]
  {
    AppendToSpace(x, c);
    if IsWhitespace(c) {
      CommitSpace(state, c, pluralForms);
    } else {
      PairMarker(c);
      CommitMarked(state, [c], pluralForms);
    }
  }

  /** Deleting in an empty bar leaves it empty. */
  lemma DeleteOnEmptyBar()
    ensures DeleteText([]) == []
  {
  }
}
