/**
 * The suggestion formatter: turns the annotation lists found for the last word
 * into what the suggestion area shows. Colours are the resource names, as a
 * ColorRole; sizes, drawables and visibility flags are rendering detail.
 */
module SuggestionFormatter {
  import opened ScribeTypes
  import opened Annotations

  /** Which tag table a list of annotations is read with. */
  datatype Kind = Noun | Preposition

  /**
   * The chip for one tag of the given kind. A chip is transparent exactly for a
   * tag its table does not know, and it then shows the placeholder.
   */
  function TagChip(kind: Kind, language: string, tag: string): (r: Chip)
    ensures r.color == Transparent <==>
      (kind.Noun? && tag !in NounTypes) || (kind.Preposition? && tag !in CaseNames)
    ensures r.color == Transparent ==> r.text == Placeholder
  {
    match kind
    case Noun => NounTag(language, tag)
    case Preposition => CaseTag(language, tag)
  }

  /** handlePluralAutoSuggest: one orange "PL" chip, whatever the noun table says about "PL". */
  function PluralAutoSuggest(): (r: Display)
    ensures r == Single(Chip("PL", Orange))
  {
    Single(Chip("PL", Orange))
  }

  /** disableAutoSuggest: the transparent placeholder chip. */
  function DisableAutoSuggest(): (r: Display)
    ensures r == Single(Chip(Placeholder, Transparent))
  {
    Single(Chip(Placeholder, Transparent))
  }

  /**
   * handleSingleType: one chip for the first annotation. A noun takes the noun
   * table's colour; a preposition takes only its label from the case table and
   * keeps the theme colour (white in dark mode, dark grey otherwise).
   */
  function SingleType(annotations: seq<string>, kind: Kind, language: string, darkMode: bool): (r: Suggestion)
    ensures r.IndexOutOfBounds? <==> |annotations| == 0
    ensures !r.IndexOutOfBounds? ==> r.Show? && r.display.Single?
    ensures |annotations| > 0 && kind == Noun ==> r.display.chip == NounTag(language, annotations[0])
    ensures |annotations| > 0 && kind == Preposition ==>
      r.display.chip.text == CaseTag(language, annotations[0]).text
      && r.display.chip.color == (if darkMode then White else GreyBlackDark)
  {
    if |annotations| == 0 then IndexOutOfBounds
    else
      var themeColor := if darkMode then White else GreyBlackDark;
      match kind
      case Noun => Show(Single(NounTag(language, annotations[0])))
      case Preposition => Show(Single(Chip(CaseTag(language, annotations[0]).text, themeColor)))
  }

  /**
   * handleMultipleNounFormats: two chips. A word that is also plural puts "PL" on
   * the left and the first annotation on the right; otherwise the first two
   * annotations go left and right.
   */
  function MultipleFormats(annotations: seq<string>, kind: Kind, language: string, singularAndPlural: bool): (r: Suggestion)
    ensures r.IndexOutOfBounds? <==> |annotations| < (if singularAndPlural then 1 else 2)
    ensures !r.IndexOutOfBounds? ==> r.Show? && r.display.Dual?
    ensures r.Show? && singularAndPlural ==>
      r.display == Dual(TagChip(kind, language, "PL"), TagChip(kind, language, annotations[0]))
    ensures r.Show? && !singularAndPlural ==>
      r.display == Dual(TagChip(kind, language, annotations[0]), TagChip(kind, language, annotations[1]))
  {
    if singularAndPlural then
      if |annotations| < 1 then IndexOutOfBounds
      else Show(Dual(TagChip(kind, language, "PL"), TagChip(kind, language, annotations[0])))
    else
      if |annotations| < 2 then IndexOutOfBounds
      else Show(Dual(TagChip(kind, language, annotations[0]), TagChip(kind, language, annotations[1])))
  }

  /**
   * What formatting one list does: nothing for a null list, an index error for an
   * empty one, and otherwise a display with two chips exactly when the list has
   * several entries or, for a noun, the word is also a plural.
   */
  function FormatList(annotations: Option<seq<string>>, kind: Kind, language: string,
                      singularAndPlural: bool, darkMode: bool): (r: Suggestion)
    ensures r.Keep? <==> annotations.None?
    ensures r.IndexOutOfBounds? <==> annotations == Some([])
    ensures r.Show? ==>
      (r.display.Dual? <==> |annotations.value| > 1 || (kind.Noun? && singularAndPlural))
  {
    match annotations
    case None => Keep
    case Some(list) =>
      var dual := match kind
        case Noun => |list| > 1 || singularAndPlural
        case Preposition => |list| > 1;
      if dual then MultipleFormats(list, kind, language, singularAndPlural)
      else SingleType(list, kind, language, darkMode)
  }

  /**
   * updateAutoSuggestText. A plural word shows the "PL" chip. Otherwise the noun
   * list is formatted and then the case list, so a case list overwrites the noun
   * display; an exception while formatting the nouns stops before the cases.
   */
  function UpdateAutoSuggestText(nouns: Option<seq<string>>, isPlural: bool, cases: Option<seq<string>>,
                                 singularAndPlural: bool, language: string, darkMode: bool): (r: Suggestion)
    ensures isPlural ==> r == Show(PluralAutoSuggest())
    ensures !isPlural && nouns.None? && cases.None? ==> r == Keep
  {
    if isPlural then Show(PluralAutoSuggest())
    else
      var n := FormatList(nouns, Noun, language, singularAndPlural, darkMode);
      if n.IndexOutOfBounds? then n
      else
        var c := FormatList(cases, Preposition, language, singularAndPlural, darkMode);
        if c.Keep? then n else c
  }

  /**
   * For nouns alone: two chips exactly when there are several genders or the word
   * is also plural (and has a gender), one chip for a single unambiguous gender,
   * and an exception for an empty list.
   */
  lemma NounChipCount(nouns: seq<string>, singularAndPlural: bool, language: string, darkMode: bool)
    ensures var r := UpdateAutoSuggestText(Some(nouns), false, None, singularAndPlural, language, darkMode);
      && (r.Show? && r.display.Dual? <==> |nouns| > 1 || (singularAndPlural && |nouns| >= 1))
      && (r.Show? && r.display.Single? <==> |nouns| == 1 && !singularAndPlural)
      && (r.IndexOutOfBounds? <==> |nouns| == 0)
      && !r.Keep?
  {
  }

  /**
   * An ambiguous noun (singular and plural at once) is shown as an orange "PL" on
   * the left and its first gender on the right.
   */
  lemma AmbiguousNounOrder(nouns: seq<string>, language: string, darkMode: bool)
    requires |nouns| >= 1
    ensures UpdateAutoSuggestText(Some(nouns), false, None, true, language, darkMode)
      == Show(Dual(Chip("PL", Orange), NounTag(language, nouns[0])))
  {
  }

  /** Otherwise two genders are shown first-left, second-right. */
  lemma TwoGendersOrder(nouns: seq<string>, language: string, darkMode: bool)
    requires |nouns| >= 2
    ensures UpdateAutoSuggestText(Some(nouns), false, None, false, language, darkMode)
      == Show(Dual(NounTag(language, nouns[0]), NounTag(language, nouns[1])))
  {
  }

  /**
   * Whenever a case list is present and the nouns did not throw, the result is
   * what the case list alone gives: the case display overwrites the noun display.
   */
  lemma CasesOverwriteNouns(nouns: Option<seq<string>>, cases: seq<string>, singularAndPlural: bool,
                            language: string, darkMode: bool)
    requires !FormatList(nouns, Noun, language, singularAndPlural, darkMode).IndexOutOfBounds?
    ensures UpdateAutoSuggestText(nouns, false, Some(cases), singularAndPlural, language, darkMode)
      == UpdateAutoSuggestText(None, false, Some(cases), singularAndPlural, language, darkMode)
  {
  }

  /**
   * When formatting the nouns throws, the exception ends updateAutoSuggestText:
   * whatever the case list holds, it is never formatted.
   */
  lemma NounThrowSkipsCases(nouns: Option<seq<string>>, cases: Option<seq<string>>, singularAndPlural: bool,
                            language: string, darkMode: bool)
    requires FormatList(nouns, Noun, language, singularAndPlural, darkMode).IndexOutOfBounds?
    ensures UpdateAutoSuggestText(nouns, false, cases, singularAndPlural, language, darkMode).IndexOutOfBounds?
  {
  }

  /**
   * A preposition with several cases on a word flagged singular-and-plural gets a
   * placeholder on the left: the case table does not know "PL".
   */
  lemma AmbiguousPrepositionLeftPlaceholder(cases: seq<string>, language: string, darkMode: bool)
    requires |cases| > 1
    ensures UpdateAutoSuggestText(None, false, Some(cases), true, language, darkMode)
      == Show(Dual(Chip(Placeholder, Transparent), CaseTag(language, cases[0])))
  {
  }
}
