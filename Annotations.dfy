/**
 * The annotation lookups: emoji, case and plural dictionaries keyed by the
 * lower-cased word, the plural-form query of the command bar, the language
 * alias and the two tables that remap grammatical abbreviations per language.
 */
module Annotations {
  import opened ScribeTypes
  import opened KotlinText

  /**
   * `dictionary[word.lowercase()]`, or None for a null word: the shape shared by
   * the emoji, gender and case lookups.
   */
  function LookupLowercase<V>(dictionary: map<string, V>, lastWord: Option<string>): (r: Option<V>)
    ensures r.Some? <==> lastWord.Some? && Lowercase(lastWord.value) in dictionary
    ensures r.Some? ==> r.value == dictionary[Lowercase(lastWord.value)]
  {
    match lastWord
    case None => None
    case Some(word) =>
      var key := Lowercase(word);
      if key in dictionary then Some(dictionary[key]) else None
  }

  /** Two spellings of a word that differ only in case find the same entry. */
  lemma LookupIgnoresCase<V>(dictionary: map<string, V>, a: string, b: string)
    requires EqualsIgnoreCase(a, b)
    ensures LookupLowercase(dictionary, Some(a)) == LookupLowercase(dictionary, Some(b))
  {
    EqualsIgnoreCaseIffSameLowercase(a, b);
  }

  /** Every key of a dictionary loaded from the database is already lower case. */
  ghost predicate KeysLowercase<V>(dictionary: map<string, V>)
  {
    forall k :: k in dictionary ==> Lowercase(k) == k
  }

  /**
   * Over a dictionary with lower-case keys a word is found exactly when some key
   * equals it ignoring case, and then that key's entry is returned.
   */
  lemma LookupFindsKeyIgnoringCase<V>(dictionary: map<string, V>, word: string)
    requires KeysLowercase(dictionary)
    ensures LookupLowercase(dictionary, Some(word)).Some? <==>
      exists k :: k in dictionary && EqualsIgnoreCase(k, word)
    ensures forall k :: k in dictionary && EqualsIgnoreCase(k, word) ==>
      LookupLowercase(dictionary, Some(word)) == Some(dictionary[k])
  {
    var key := Lowercase(word);
    if key in dictionary {
      LowercaseIdempotent(word);
      EqualsIgnoreCaseIffSameLowercase(key, word);
    }
    forall k | k in dictionary && EqualsIgnoreCase(k, word) ensures k == key {
      EqualsIgnoreCaseIffSameLowercase(k, word);
    }
  }

  /** findEmojisForLastWord: the emoji list stored under the lower-cased word. */
  function FindEmojis(emojiKeywords: map<string, seq<string>>, lastWord: Option<string>): (r: Option<seq<string>>)
    ensures r.Some? <==> lastWord.Some? && Lowercase(lastWord.value) in emojiKeywords
    ensures r.Some? ==> r.value == emojiKeywords[Lowercase(lastWord.value)]
  {
    LookupLowercase(emojiKeywords, lastWord)
  }

  /** getCaseAnnotationForPreposition: the case list stored under the lower-cased word. */
  function GetCaseAnnotation(caseAnnotation: map<string, seq<string>>, lastWord: Option<string>): (r: Option<seq<string>>)
    ensures r.Some? <==> lastWord.Some? && Lowercase(lastWord.value) in caseAnnotation
    ensures r.Some? ==> r.value == caseAnnotation[Lowercase(lastWord.value)]
  {
    LookupLowercase(caseAnnotation, lastWord)
  }

  /**
   * findWheatherWordIsPlural: scans the plural words and returns at the first one
   * that equals the word exactly (case matters here, unlike the gender lookup).
   */
  method FindWhetherWordIsPlural(pluralWords: seq<string>, lastWord: Option<string>) returns (r: bool)
    ensures r <==> lastWord.Some? && lastWord.value in pluralWords
  {
    for i := 0 to |pluralWords|
      invariant forall j :: 0 <= j < i ==> Some(pluralWords[j]) != lastWord
    {
      if Some(pluralWords[i]) == lastWord {
        return true;
      }
    }
    return false;
  }

  /** Does some plural word equal `word` ignoring case (`pluralWords.any { it.equals(word, true) }`)? */
  predicate AnyEqualsIgnoreCase(pluralWords: seq<string>, word: string): (r: bool)
    ensures r <==> exists i :: 0 <= i < |pluralWords| && Lowercase(pluralWords[i]) == Lowercase(word)
  {
    SomeEqualIgnoringCaseIff(pluralWords, word);
    exists i :: 0 <= i < |pluralWords| && EqualsIgnoreCase(pluralWords[i], word)
  }

  /** Some word equals `word` ignoring case exactly when some word has its lower-case form. */
  lemma {:induction false} SomeEqualIgnoringCaseIff(words: seq<string>, word: string)
    ensures (exists i :: 0 <= i < |words| && EqualsIgnoreCase(words[i], word))
        <==> (exists i :: 0 <= i < |words| && Lowercase(words[i]) == Lowercase(word))
  {
    forall i | 0 <= i < |words|
      ensures EqualsIgnoreCase(words[i], word) <==> Lowercase(words[i]) == Lowercase(word)
    {
      EqualsIgnoreCaseIffSameLowercase(words[i], word);
    }
  }

  /** An exact plural hit is also a hit ignoring case; the converse fails on case differences. */
  lemma ExactPluralImpliesIgnoringCase(pluralWords: seq<string>, word: string)
    requires word in pluralWords
    ensures AnyEqualsIgnoreCase(pluralWords, word)
  {
    var i :| 0 <= i < |pluralWords| && pluralWords[i] == word;
    assert EqualsIgnoreCase(pluralWords[i], word);
  }

  /** `values.filterNotNull().firstOrNull()`: the first value that is present. */
  function FirstPresent(values: seq<Option<string>>): (r: Option<string>)
    ensures r.None? <==> forall i :: 0 <= i < |values| ==> values[i].None?
    ensures r.Some? ==>
      exists i :: 0 <= i < |values| && values[i] == r && forall j :: 0 <= j < i ==> values[j].None?
  {
    if |values| == 0 then None
    else if values[0].Some? then values[0]
    else
      var rest := FirstPresent(values[1..]);
      assert forall i :: 0 < i < |values| ==> values[i] == values[1..][i - 1];
      rest
  }

  /**
   * getPluralRepresentation: None for a null or empty word; otherwise the first
   * non-null value of what the database returns for the word. `pluralForms`
   * stands for the database: a word it lacks gets an empty answer.
   */
  function PluralRepresentation(pluralForms: map<string, seq<Option<string>>>, word: Option<string>): (r: Option<string>)
    ensures word.None? || word.value == [] ==> r.None?
    ensures word.Some? && word.value != [] && word.value in pluralForms ==>
      r == FirstPresent(pluralForms[word.value])
    ensures word.Some? && word.value !in pluralForms ==> r.None?
  {
    match word
    case None => None
    case Some(w) =>
      if w == [] then None
      else FirstPresent(if w in pluralForms then pluralForms[w] else [])
  }

  /** The languages the keyboard ships with, by the name an IME subclass passes. */
  const Languages: seq<string> :=
    ["English", "French", "German", "Italian", "Portuguese", "Russian", "Spanish", "Swedish"]

  /** Their two-letter aliases, position by position. */
  const Aliases: seq<string> := ["EN", "FR", "DE", "IT", "PT", "RU", "ES", "SV"]

  /** getLanguageAlias: the database alias of a language name, "" for any other name. */
  function LanguageAlias(language: string): (r: string)
    ensures language !in Languages <==> r == ""
    ensures forall i :: 0 <= i < |Languages| && Languages[i] == language ==> r == Aliases[i]
  {
    match language
    case "English" => "EN"
    case "French" => "FR"
    case "German" => "DE"
    case "Italian" => "IT"
    case "Portuguese" => "PT"
    case "Russian" => "RU"
    case "Spanish" => "ES"
    case "Swedish" => "SV"
    case _ => ""
  }

  /** The alias determines the language: different known languages get different aliases. */
  lemma LanguageAliasInjective(a: string, b: string)
    requires a in Languages && b in Languages && a != b
    ensures LanguageAlias(a) != LanguageAlias(b)
  {
  }

  /** nounAnnotationConversionDict: per-language display of gender abbreviations. */
  const NounAnnotationConversion: map<string, map<string, string>> := map[
    "Swedish" := map["C" := "U"],
    "Russian" := map["F" := "Ж", "M" := "М", "N" := "Н", "PL" := "МН"]
  ]

  /** prepAnnotationConversionDict: per-language display of case abbreviations. */
  const PrepAnnotationConversion: map<string, map<string, string>> := map[
    "German" := map["Acc" := "Akk"],
    "Russian" := map["Acc" := "Вин", "Dat" := "Дат", "Gen" := "Род", "Loc" := "Мес", "Pre" := "Пре", "Ins" := "Инс"]
  ]

  /** processValueForNouns: the gender abbreviation as the language displays it. */
  function ProcessValueForNouns(language: string, text: string): (r: string)
    ensures language in NounAnnotationConversion && text in NounAnnotationConversion[language] ==>
      r == NounAnnotationConversion[language][text]
    ensures !(language in NounAnnotationConversion && text in NounAnnotationConversion[language]) ==>
      r == text
  {
    if language in NounAnnotationConversion && text in NounAnnotationConversion[language]
    then NounAnnotationConversion[language][text]
    else text
  }

  /** processValuesForPreposition: the case abbreviation as the language displays it. */
  function ProcessValuesForPreposition(language: string, text: string): (r: string)
    ensures language in PrepAnnotationConversion && text in PrepAnnotationConversion[language] ==>
      r == PrepAnnotationConversion[language][text]
    ensures !(language in PrepAnnotationConversion && text in PrepAnnotationConversion[language]) ==>
      r == text
  {
    if language in PrepAnnotationConversion && text in PrepAnnotationConversion[language]
    then PrepAnnotationConversion[language][text]
    else text
  }

  /** Only Swedish and Russian remap gender abbreviations; every other language shows them verbatim. */
  lemma NounRemapLanguages(language: string, text: string)
    requires language != "Swedish" && language != "Russian"
    ensures ProcessValueForNouns(language, text) == text
  {
  }

  /** Only German and Russian remap case abbreviations; every other language shows them verbatim. */
  lemma PrepRemapLanguages(language: string, text: string)
    requires language != "German" && language != "Russian"
    ensures ProcessValuesForPreposition(language, text) == text
  {
  }

  /** The case names handleTextForCaseAnnotation knows, with the abbreviation each is shown as. */
  const CaseNames: map<string, string> := map[
    "genitive case" := "Gen",
    "accusative case" := "Acc",
    "dative case" := "Dat",
    "locative case" := "Loc",
    "Prepositional case" := "Pre",
    "Instrumental case" := "Ins"
  ]

  /** The gender names handleColorAndTextForNounType knows. */
  const NounTypes: set<string> :=
    {"PL", "neuter", "common of two genders", "common", "masculine", "feminine"}

  /** The placeholder shown for an annotation the tables do not know. */
  const Placeholder: string := "Suggestion"

  /**
   * handleColorAndTextForNounType. "PL" and "neuter" are fixed labels; the other
   * genders show their abbreviation through the noun remap table.
   */
  function NounTag(language: string, nounType: string): (r: Chip)
    ensures r.color == Transparent <==> nounType !in NounTypes
    ensures nounType !in NounTypes ==> r.text == Placeholder
    ensures nounType == "PL" ==> r == Chip("PL", Orange)
    ensures nounType == "neuter" ==> r == Chip("N", Green)
    ensures nounType == "common" || nounType == "common of two genders" ==>
      r == Chip(ProcessValueForNouns(language, "C"), Purple)
    ensures nounType == "masculine" ==> r == Chip(ProcessValueForNouns(language, "M"), Blue)
    ensures nounType == "feminine" ==> r == Chip(ProcessValueForNouns(language, "F"), Red)
  {
    match nounType
    case "PL" => Chip("PL", Orange)
    case "neuter" => Chip("N", Green)
    case "common of two genders" => Chip(ProcessValueForNouns(language, "C"), Purple)
    case "common" => Chip(ProcessValueForNouns(language, "C"), Purple)
    case "masculine" => Chip(ProcessValueForNouns(language, "M"), Blue)
    case "feminine" => Chip(ProcessValueForNouns(language, "F"), Red)
    case _ => Chip(Placeholder, Transparent)
  }

  /** handleTextForCaseAnnotation: every known case is dark grey, labelled by its remapped abbreviation. */
  function CaseTag(language: string, caseName: string): (r: Chip)
    ensures caseName in CaseNames ==>
      r == Chip(ProcessValuesForPreposition(language, CaseNames[caseName]), GreyBlackDark)
    ensures caseName !in CaseNames ==> r == Chip(Placeholder, Transparent)
  {
    if caseName in CaseNames
    then Chip(ProcessValuesForPreposition(language, CaseNames[caseName]), GreyBlackDark)
    else Chip(Placeholder, Transparent)
  }

  /**
   * The Russian table maps "N" and "PL", but no noun tag ever looks them up:
   * Russian neuter and plural chips keep their Latin labels.
   */
  lemma RussianFixedLabels()
    ensures NounAnnotationConversion["Russian"]["N"] != "N"
    ensures NounTag("Russian", "neuter").text == "N"
    ensures NounTag("Russian", "PL").text == "PL"
    ensures NounTag("Russian", "feminine").text == "Ж"
    ensures CaseTag("German", "accusative case").text == "Akk"
  {
  }
}
