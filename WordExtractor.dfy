/**
 * Reading the real text field: the word just before the cursor, and whether
 * there is text before the cursor that does not already end a sentence.
 * The text before the cursor is given as a value; None stands for a missing
 * input connection or a null answer from it.
 */
module WordExtractor {
  import opened ScribeTypes
  import opened KotlinText

  /** How many characters before the cursor are read to find the last word. */
  const TextLength: nat := 20

  /** getTextBeforeCursor(TextLength, 0): at most the last TextLength characters. */
  function Window(before: string): (r: string)
    ensures |r| == if |before| <= TextLength then |before| else TextLength
    ensures r == before[|before| - |r|..]
  {
    if |before| <= TextLength then before else before[|before| - TextLength..]
  }

  /**
   * The last element of `s.split("\\s+".toRegex())`: the characters after the
   * final regex space (all of `s` when there is none).
   */
  function LastToken(s: string): (r: string)
    ensures |r| <= |s| && r == s[|s| - |r|..]
    ensures forall i :: 0 <= i < |r| ==> !IsRegexSpace(r[i])
    ensures |r| < |s| ==> IsRegexSpace(s[|s| - |r| - 1])
  {
    if |s| == 0 || IsRegexSpace(s[|s| - 1]) then []
    else
      var t := LastToken(s[..|s| - 1]);
      SuffixSnoc(s, t);
      t + [s[|s| - 1]]
  }

  /** A suffix of `s` without its last character, with that character appended, is a suffix of `s`. */
  lemma SuffixSnoc(s: string, t: string)
    requires |s| > 0 && |t| <= |s| - 1 && t == s[..|s| - 1][|s| - 1 - |t|..]
    ensures t + [s[|s| - 1]] == s[|s| - |t| - 1..]
    ensures |t| < |s| - 1 ==> s[..|s| - 1][|s| - 1 - |t| - 1] == s[|s| - |t| - 2]
  {
  }

  /**
   * `w` is the run of `win` that ends at position `k` and starts either at
   * position `j` or just after a regex space.
   */
  ghost predicate EndsRun(win: string, w: string, j: int, k: int)
  {
    && 0 <= j <= k + 1 - |w|
    && k < |win|
    && w == win[k + 1 - |w|..k + 1]
    && (k + 1 - |w| == j || IsRegexSpace(win[k - |w|]))
  }

  /**
   * `w` is the last word of the window `win`: it has no regex space; it is empty
   * when the window is all whitespace; otherwise it is the run of the window
   * that ends at the last non-whitespace character and starts either at the
   * first non-whitespace character or just after a regex space.
   */
  ghost predicate IsLastWord(win: string, w: string)
  {
    && (forall i :: 0 <= i < |w| ==> !IsRegexSpace(w[i]))
    && ((forall i :: 0 <= i < |win| ==> IsWhitespace(win[i])) ==> w == [])
    && (forall j, k :: FirstNonWhitespaceAt(win, j) && LastNonWhitespaceAt(win, k) ==> EndsRun(win, w, j, k))
  }

  /** A window that is not all whitespace has a first and a last non-whitespace character. */
  lemma {:induction false} NonWhitespaceBounds(s: string) returns (j: nat, k: nat)
    requires exists i :: 0 <= i < |s| && !IsWhitespace(s[i])
    ensures FirstNonWhitespaceAt(s, j) && LastNonWhitespaceAt(s, k)
  {
    TrimEmptyIff(s);
    j := TrimPositions(s);
    k := j + |Trim(s)| - 1;
  }

  /** Two runs without a regex space that end at the same place and both start as EndsRun demands are equal. */
  lemma {:induction false} RunsUnique(win: string, w1: string, w2: string, j: int, k: int)
    requires EndsRun(win, w1, j, k) && EndsRun(win, w2, j, k)
    requires forall i :: 0 <= i < |w1| ==> !IsRegexSpace(w1[i])
    requires forall i :: 0 <= i < |w2| ==> !IsRegexSpace(w2[i])
    ensures w1 == w2
  {
    if |w1| < |w2| {
      ShorterRunMeetsSpace(win, w1, w2, j, k);
      assert false;
    } else if |w2| < |w1| {
      ShorterRunMeetsSpace(win, w2, w1, j, k);
      assert false;
    }
  }

  /** A longer run that ends where a shorter one does holds the character before the shorter one, a regex space. */
  lemma {:induction false} ShorterRunMeetsSpace(win: string, w1: string, w2: string, j: int, k: int)
    requires EndsRun(win, w1, j, k) && EndsRun(win, w2, j, k) && |w1| < |w2|
    ensures IsRegexSpace(w2[|w2| - |w1| - 1])
  {
    assert w2[|w2| - |w1| - 1] == win[k - |w1|];
  }

  /**
   * A suffix of a slice of the window that is the whole slice or follows a regex
   * space is a run that ends where the slice ends.
   */
  lemma {:induction false} SuffixOfSliceRun(win: string, tr: string, a: nat, w: string)
    requires a + |tr| <= |win| && tr == win[a..a + |tr|]
    requires |w| <= |tr| && w == tr[|tr| - |w|..]
    requires |w| < |tr| ==> IsRegexSpace(tr[|tr| - |w| - 1])
    ensures EndsRun(win, w, a, a + |tr| - 1)
  {
    var st := a + |tr| - |w|;
    assert w == win[st..a + |tr|] by {
      assert forall i :: 0 <= i < |w| ==> w[i] == tr[|tr| - |w| + i] == win[st + i];
    }
    if |w| < |tr| {
      assert win[st - 1] == tr[|tr| - |w| - 1];
    }
  }

  /**
   * A window has only one first and one last non-whitespace character, so a run
   * between that pair is a run between every such pair.
   */
  lemma {:induction false} RunAtBounds(win: string, w: string, a: int, b: int)
    requires FirstNonWhitespaceAt(win, a) && LastNonWhitespaceAt(win, b) && EndsRun(win, w, a, b)
    ensures forall j, k :: FirstNonWhitespaceAt(win, j) && LastNonWhitespaceAt(win, k) ==> EndsRun(win, w, j, k)
  {
    forall j, k | FirstNonWhitespaceAt(win, j) && LastNonWhitespaceAt(win, k)
      ensures EndsRun(win, w, j, k)
    {
      FirstNonWhitespaceUnique(win, a, j);
      LastNonWhitespaceUnique(win, b, k);
    }
  }

  /**
   * The last token of the slice between the first and the last non-whitespace
   * character of the window is the window's last word.
   */
  lemma {:induction false} LastWordOfSlice(win: string, tr: string, a: nat)
    requires TrimmedAt(win, tr, a)
    ensures IsLastWord(win, LastToken(tr))
  {
    var w := LastToken(tr);
    SuffixOfSliceRun(win, tr, a, w);
    RunAtBounds(win, w, a, a + |tr| - 1);
  }

  /** The last word of a window that is all whitespace is empty. */
  lemma {:induction false} BlankLastWord(win: string)
    requires forall i :: 0 <= i < |win| ==> IsWhitespace(win[i])
    ensures IsLastWord(win, [])
  {
  }

  /** The last token of a non-empty trimmed window is the window's last word. */
  lemma {:induction false} LastTokenOfNonBlank(win: string)
    requires Trim(win) != []
    ensures IsLastWord(win, LastToken(Trim(win)))
  {
    var tr := Trim(win);
    var a := TrimPositions(win);
    LastWordOfSlice(win, tr, a);
  }

  /** The last token of an empty trimmed window is the window's (empty) last word. */
  lemma {:induction false} LastTokenOfBlank(win: string)
    requires Trim(win) == []
    ensures IsLastWord(win, LastToken(Trim(win)))
  {
    TrimEmptyIff(win);
    BlankLastWord(win);
  }

  /** The last token of the trimmed window is the window's last word. */
  lemma {:induction false} LastTokenOfTrim(win: string)
    ensures IsLastWord(win, LastToken(Trim(win)))
  {
    if Trim(win) != [] {
      LastTokenOfNonBlank(win);
    } else {
      LastTokenOfBlank(win);
    }
  }

  /** A window has at most one last word. */
  lemma {:induction false} LastWordUnique(win: string, w1: string, w2: string)
    requires IsLastWord(win, w1) && IsLastWord(win, w2)
    ensures w1 == w2
  {
    if exists i :: 0 <= i < |win| && !IsWhitespace(win[i]) {
      var j, k := NonWhitespaceBounds(win);
      RunsUnique(win, w1, w2, j, k);
    }
  }

  /**
   * The last word is empty exactly when the window is all whitespace or its last
   * non-whitespace character is a regex space (U+0085, which trim keeps).
   */
  lemma {:induction false} LastWordEmptyIff(win: string, w: string)
    requires IsLastWord(win, w)
    ensures w == [] <==>
      (forall i :: 0 <= i < |win| ==> IsWhitespace(win[i]))
      || (exists k :: LastNonWhitespaceAt(win, k) && IsRegexSpace(win[k]))
  {
    if exists i :: 0 <= i < |win| && !IsWhitespace(win[i]) {
      var j, k := NonWhitespaceBounds(win);
      LastWordAtBounds(win, w, j, k);
    }
  }

  /** The same, once the first and the last non-whitespace positions are known. */
  lemma {:induction false} LastWordAtBounds(win: string, w: string, j: int, k: int)
    requires FirstNonWhitespaceAt(win, j) && LastNonWhitespaceAt(win, k)
    requires EndsRun(win, w, j, k) && forall i :: 0 <= i < |w| ==> !IsRegexSpace(w[i])
    ensures !(forall i :: 0 <= i < |win| ==> IsWhitespace(win[i]))
    ensures w == [] <==> exists k' :: LastNonWhitespaceAt(win, k') && IsRegexSpace(win[k'])
  {
    if w != [] {
      assert w[|w| - 1] == win[k];
      forall k' | LastNonWhitespaceAt(win, k') ensures !IsRegexSpace(win[k']) {
        LastNonWhitespaceUnique(win, k, k');
      }
    }
  }

  /**
   * getLastWordBeforeCursor: trims the window and takes its last token.
   * A window that is all whitespace yields Some(""), because Kotlin splits the
   * empty string into one empty token.
   */
  function LastWordBeforeCursor(before: Option<string>): (r: Option<string>)
    ensures r.None? <==> before.None?
    ensures before.Some? ==> IsLastWord(Window(before.value), r.value)
  {
    match before
    case None => None
    case Some(t) =>
      LastTokenOfTrim(Window(t));
      Some(LastToken(Trim(Window(t))))
  }

  /** The line tabulation U+000B inside a text: trim keeps it and split cuts there. */
  lemma SplitAtInnerTabulation()
    ensures LastWordBeforeCursor(Some("a\U{0B}b")) == Some("b")
  {
    var t := "a\U{0B}b";
    TrimStartKeeps(t);
    TrimEndKeeps(t);
    assert Window(t) == t && Trim(t) == t;
    assert LastToken(t) == "b" by {
      assert t[..2][..1] == "a";
      assert LastToken(t[..2]) == [];
    }
  }

  /** A final U+0085: trim keeps it, and the split then leaves an empty last token. */
  lemma EmptyWordAfterNextLine()
    ensures LastWordBeforeCursor(Some("a\U{85}")) == Some("")
  {
    var t := "a\U{85}";
    TrimStartKeeps(t);
    TrimEndKeeps(t);
    assert Window(t) == t && Trim(t) == t;
    assert IsRegexSpace(t[|t| - 1]);
  }

  /** hasTextBeforeCursor: the trimmed text is non-empty and does not end in '.'. */
  function HasTextBeforeCursor(before: Option<string>): (r: bool)
    ensures before.None? ==> !r
  {
    match before
    case None => false
    case Some(t) =>
      var tr := Trim(t);
      |tr| > 0 && tr[|tr| - 1] != '.'
  }

  /**
   * There is text before the cursor exactly when some non-whitespace character
   * precedes it and the last such character is not a period.
   */
  lemma HasTextBeforeCursorIff(t: string)
    ensures HasTextBeforeCursor(Some(t)) <==>
      exists k :: LastNonWhitespaceAt(t, k) && t[k] != '.'
  {
    TrimEmptyIff(t);
    var tr := Trim(t);
    var has := HasTextBeforeCursor(Some(t));
    assert has == (|tr| > 0 && tr[|tr| - 1] != '.');
    if tr != [] {
      TrimLastChar(t);
      var k :| LastNonWhitespaceAt(t, k) && tr[|tr| - 1] == t[k];
      if !has {
        forall k' | LastNonWhitespaceAt(t, k') ensures t[k'] == '.' {
          LastNonWhitespaceUnique(t, k, k');
        }
      }
    } else {
      forall k' | 0 <= k' < |t| ensures !LastNonWhitespaceAt(t, k') {
        assert IsWhitespace(t[k']);
      }
    }
  }
}
