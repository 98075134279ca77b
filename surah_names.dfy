/**
 * The literals `createSurahNameMapping` is built from: the number words and the common surah
 * names, each a dictionary literal kept in its insertion order. Each literal is written as the
 * concatenation of a few consecutive parts, which keeps the facts about it cheap to check.
 */
module SurahNames {
  datatype Entry = Entry(name: string, surah: int)

  type Index = seq<Entry>

  const UNIT_WORDS: seq<Entry> := [
    Entry("one", 1), Entry("two", 2), Entry("three", 3), Entry("four", 4), Entry("five", 5),
    Entry("six", 6), Entry("seven", 7), Entry("eight", 8), Entry("nine", 9), Entry("ten", 10)]

  const TEEN_WORDS: seq<Entry> := [
    Entry("eleven", 11), Entry("twelve", 12), Entry("thirteen", 13), Entry("fourteen", 14),
    Entry("fifteen", 15), Entry("sixteen", 16), Entry("seventeen", 17), Entry("eighteen", 18),
    Entry("nineteen", 19)]

  const TENS_WORDS: seq<Entry> := [
    Entry("twenty", 20), Entry("thirty", 30), Entry("forty", 40), Entry("fifty", 50),
    Entry("sixty", 60), Entry("seventy", 70), Entry("eighty", 80), Entry("ninety", 90),
    Entry("hundred", 100)]

  const ORDINAL_WORDS: seq<Entry> := [
    Entry("first", 1), Entry("second", 2), Entry("third", 3)]

  /** The number and ordinal words, in the order of the dictionary literal. */
  const NUMBER_WORDS: seq<Entry> := UNIT_WORDS + TEEN_WORDS + TENS_WORDS + ORDINAL_WORDS

  const ARABIC_NAMES: seq<Entry> := [
    Entry("الفاتحة", 1), Entry("فاتحة", 1), Entry("سورة الفاتحة", 1), Entry("البقرة", 2),
    Entry("بقرة", 2), Entry("سورة البقرة", 2), Entry("آل عمران", 3), Entry("عمران", 3),
    Entry("سورة آل عمران", 3), Entry("النساء", 4), Entry("نساء", 4), Entry("سورة النساء", 4),
    Entry("المائدة", 5), Entry("مائدة", 5), Entry("سورة المائدة", 5)]

  const ENGLISH_NAMES_1: seq<Entry> := [
    Entry("al-fatiha", 1), Entry("fatiha", 1), Entry("al fatiha", 1), Entry("the opening", 1),
    Entry("al-baqarah", 2), Entry("baqarah", 2), Entry("al baqarah", 2), Entry("the cow", 2)]

  const ENGLISH_NAMES_2: seq<Entry> := [
    Entry("al-imran", 3), Entry("imran", 3), Entry("al imran", 3), Entry("family of imran", 3),
    Entry("an-nisa", 4), Entry("nisa", 4), Entry("an nisa", 4), Entry("the women", 4),
    Entry("al-maidah", 5), Entry("maidah", 5), Entry("al maidah", 5), Entry("the table", 5)]

  /** The Arabic and English names of the first five surahs, in the order of the literal. */
  const COMMON_SURAH_NAMES: seq<Entry> := ARABIC_NAMES + ENGLISH_NAMES_1 + ENGLISH_NAMES_2

  /** The numbers the index covers: `range(1, 115)`. */
  const SURAH_COUNT: nat := 114

  predicate DistinctNames(d: seq<Entry>)
  {
    forall i, j :: 0 <= i < j < |d| ==> d[i].name != d[j].name
  }

  // ---------------------------------------------------------------------------------------------
  // Proof scaffolding, not part of the program: the position of each literal name, that is of a
  // number word in NUMBER_WORDS, and 100 plus that of a surah name in COMMON_SURAH_NAMES, read off
  // the name's length and a character or two. Distinct positions make distinct names, with one
  // check per name rather than one per pair.

  function LiteralPosition(s: string): int
  {
    match |s|
    case 3 => (match s[1]
      case 'n' => 0
      case 'w' => 1
      case 'i' => 5
      case _ => 9)
    case 4 => (match s[2]
      case 'u' => 3
      case 'v' => 4
      case 'n' => 8
      case '\U{631}' => 104
      case '\U{627}' => 110
      case _ => 128)
    case 5 => (match s[2]
      case 'r' => (match s[1]
        case 'h' => 2
        case 'o' => 21
        case 'i' => 28
        case _ => 124)
      case 'v' => 6
      case 'g' => 7
      case 'f' => 22
      case 'x' => 23
      case 'i' => 30
      case '\U{62a}' => 101
      case '\U{631}' => 107
      case _ => 113)
    case 6 => (match s[3]
      case 'v' => 10
      case 'l' => 11
      case 'n' => 19
      case 'r' => 20
      case 'h' => 25
      case 'e' => 26
      case 'o' => 29
      case '\U{642}' => 103
      case '\U{633}' => 109
      case 'i' => 116
      case _ => 132)
    case 7 => (match s[2]
      case 'f' => 14
      case 'x' => 15
      case 'v' => 24
      case 'n' => 27
      case '\U{641}' => 100
      case '\U{645}' => 112
      case 'q' => 120
      case 'e' => 122
      case '-' => 127
      case _ => 129)
    case 8 => (match s[0]
      case 't' => 12
      case 'f' => 13
      case 'e' => 17
      case 'n' => 18
      case '\U{622}' => 106
      case _ => (match s[2]
        case '-' => 123
        case _ => 125))
    case 9 => (match s[6]
      case 'e' => 16
      case 'i' => (match s[2]
        case '-' => 115
        case _ => 117)
      case 'm' => 130
      case 'd' => (match s[2]
        case '-' => 131
        case _ => 133)
      case _ => 134)
    case 10 => (match s[2]
      case '-' => 119
      case _ => 121)
    case 11 => (match s[7]
      case '\U{628}' => 105
      case '\U{646}' => 111
      case _ => 118)
    case 12 => (match s[7]
      case '\U{641}' => 102
      case _ => 114)
    case 13 => 108
    case 15 => 126
    case _ => -1
  }

  /** Key reads the position, counted from `offset`, of every entry of `d`. */
  predicate Keyed(d: seq<Entry>, offset: int)
  {
    forall i :: 0 <= i < |d| ==> LiteralPosition(d[i].name) == offset + i
  }

  lemma KeyedAppend(a: seq<Entry>, b: seq<Entry>, offset: int)
    requires Keyed(a, offset) && Keyed(b, offset + |a|)
    ensures Keyed(a + b, offset)
  {
    forall i | 0 <= i < |a + b| ensures LiteralPosition((a + b)[i].name) == offset + i {
      if i >= |a| {
        assert (a + b)[i] == b[i - |a|];
      }
    }
  }

  predicate StartWithLetter(d: seq<Entry>)
  {
    forall j :: 0 <= j < |d| ==> d[j].name != [] && 'a' <= d[j].name[0] <= 'z'
  }

  predicate NoLeadingDigits(d: seq<Entry>)
  {
    forall j :: 0 <= j < |d| ==> d[j].name != [] && !('0' <= d[j].name[0] <= '9')
  }

  predicate ValuesBetween(d: seq<Entry>, lo: int, hi: int)
  {
    forall j :: 0 <= j < |d| ==> lo <= d[j].surah <= hi
  }

  lemma AppendStartWithLetter(a: seq<Entry>, b: seq<Entry>)
    requires StartWithLetter(a) && StartWithLetter(b)
    ensures StartWithLetter(a + b)
  {
    forall j | 0 <= j < |a + b| ensures (a + b)[j].name != [] && 'a' <= (a + b)[j].name[0] <= 'z' {
      if j >= |a| {
        assert (a + b)[j] == b[j - |a|];
      }
    }
  }

  lemma AppendNoLeadingDigits(a: seq<Entry>, b: seq<Entry>)
    requires NoLeadingDigits(a) && NoLeadingDigits(b)
    ensures NoLeadingDigits(a + b)
  {
    forall j | 0 <= j < |a + b| ensures (a + b)[j].name != [] && !('0' <= (a + b)[j].name[0] <= '9') {
      if j >= |a| {
        assert (a + b)[j] == b[j - |a|];
      }
    }
  }

  lemma AppendValuesBetween(a: seq<Entry>, b: seq<Entry>, lo: int, hi: int)
    requires ValuesBetween(a, lo, hi) && ValuesBetween(b, lo, hi)
    ensures ValuesBetween(a + b, lo, hi)
  {
    forall j | 0 <= j < |a + b| ensures lo <= (a + b)[j].surah <= hi {
      if j >= |a| {
        assert (a + b)[j] == b[j - |a|];
      }
    }
  }

  // ---------------------------------------------------------------------------------------------
  // Facts about the parts, entry by entry.

  lemma UnitKeys1()
    ensures LiteralPosition(UNIT_WORDS[0].name) == 0
      && LiteralPosition(UNIT_WORDS[1].name) == 1
      && LiteralPosition(UNIT_WORDS[2].name) == 2
      && LiteralPosition(UNIT_WORDS[3].name) == 3
      && LiteralPosition(UNIT_WORDS[4].name) == 4
  {
  }

  lemma UnitKeys2()
    ensures LiteralPosition(UNIT_WORDS[5].name) == 5
      && LiteralPosition(UNIT_WORDS[6].name) == 6
      && LiteralPosition(UNIT_WORDS[7].name) == 7
      && LiteralPosition(UNIT_WORDS[8].name) == 8
      && LiteralPosition(UNIT_WORDS[9].name) == 9
  {
  }

  lemma UnitKeyed()
    ensures Keyed(UNIT_WORDS, 0)
  {
    UnitKeys1();
    UnitKeys2();
  }

  lemma TeenKeys1()
    ensures LiteralPosition(TEEN_WORDS[0].name) == 10
      && LiteralPosition(TEEN_WORDS[1].name) == 11
      && LiteralPosition(TEEN_WORDS[2].name) == 12
      && LiteralPosition(TEEN_WORDS[3].name) == 13
      && LiteralPosition(TEEN_WORDS[4].name) == 14
  {
  }

  lemma TeenKeys2()
    ensures LiteralPosition(TEEN_WORDS[5].name) == 15
      && LiteralPosition(TEEN_WORDS[6].name) == 16
      && LiteralPosition(TEEN_WORDS[7].name) == 17
      && LiteralPosition(TEEN_WORDS[8].name) == 18
  {
  }

  lemma TeenKeyed()
    ensures Keyed(TEEN_WORDS, 10)
  {
    TeenKeys1();
    TeenKeys2();
  }

  lemma TensKeys1()
    ensures LiteralPosition(TENS_WORDS[0].name) == 19
      && LiteralPosition(TENS_WORDS[1].name) == 20
      && LiteralPosition(TENS_WORDS[2].name) == 21
      && LiteralPosition(TENS_WORDS[3].name) == 22
      && LiteralPosition(TENS_WORDS[4].name) == 23
  {
  }

  lemma TensKeys2()
    ensures LiteralPosition(TENS_WORDS[5].name) == 24
      && LiteralPosition(TENS_WORDS[6].name) == 25
      && LiteralPosition(TENS_WORDS[7].name) == 26
      && LiteralPosition(TENS_WORDS[8].name) == 27
  {
  }

  lemma TensKeyed()
    ensures Keyed(TENS_WORDS, 19)
  {
    TensKeys1();
    TensKeys2();
  }

  lemma OrdinalKeys()
    ensures LiteralPosition(ORDINAL_WORDS[0].name) == 28
      && LiteralPosition(ORDINAL_WORDS[1].name) == 29
      && LiteralPosition(ORDINAL_WORDS[2].name) == 30
  {
  }

  lemma OrdinalKeyed()
    ensures Keyed(ORDINAL_WORDS, 28)
  {
    OrdinalKeys();
  }

  lemma ArabicKeys1()
    ensures LiteralPosition(ARABIC_NAMES[0].name) == 100
      && LiteralPosition(ARABIC_NAMES[1].name) == 101
      && LiteralPosition(ARABIC_NAMES[2].name) == 102
      && LiteralPosition(ARABIC_NAMES[3].name) == 103
      && LiteralPosition(ARABIC_NAMES[4].name) == 104
  {
  }

  lemma ArabicKeys2()
    ensures LiteralPosition(ARABIC_NAMES[5].name) == 105
      && LiteralPosition(ARABIC_NAMES[6].name) == 106
      && LiteralPosition(ARABIC_NAMES[7].name) == 107
      && LiteralPosition(ARABIC_NAMES[8].name) == 108
      && LiteralPosition(ARABIC_NAMES[9].name) == 109
  {
  }

  lemma ArabicKeys3()
    ensures LiteralPosition(ARABIC_NAMES[10].name) == 110
      && LiteralPosition(ARABIC_NAMES[11].name) == 111
      && LiteralPosition(ARABIC_NAMES[12].name) == 112
      && LiteralPosition(ARABIC_NAMES[13].name) == 113
      && LiteralPosition(ARABIC_NAMES[14].name) == 114
  {
  }

  lemma ArabicKeyed()
    ensures Keyed(ARABIC_NAMES, 100)
  {
    ArabicKeys1();
    ArabicKeys2();
    ArabicKeys3();
  }

  lemma EnglishFirstKeys1()
    ensures LiteralPosition(ENGLISH_NAMES_1[0].name) == 115
      && LiteralPosition(ENGLISH_NAMES_1[1].name) == 116
      && LiteralPosition(ENGLISH_NAMES_1[2].name) == 117
      && LiteralPosition(ENGLISH_NAMES_1[3].name) == 118
      && LiteralPosition(ENGLISH_NAMES_1[4].name) == 119
  {
  }

  lemma EnglishFirstKeys2()
    ensures LiteralPosition(ENGLISH_NAMES_1[5].name) == 120
      && LiteralPosition(ENGLISH_NAMES_1[6].name) == 121
      && LiteralPosition(ENGLISH_NAMES_1[7].name) == 122
  {
  }

  lemma EnglishFirstKeyed()
    ensures Keyed(ENGLISH_NAMES_1, 115)
  {
    EnglishFirstKeys1();
    EnglishFirstKeys2();
  }

  lemma EnglishSecondKeys1()
    ensures LiteralPosition(ENGLISH_NAMES_2[0].name) == 123
      && LiteralPosition(ENGLISH_NAMES_2[1].name) == 124
      && LiteralPosition(ENGLISH_NAMES_2[2].name) == 125
      && LiteralPosition(ENGLISH_NAMES_2[3].name) == 126
      && LiteralPosition(ENGLISH_NAMES_2[4].name) == 127
  {
  }

  lemma EnglishSecondKeys2()
    ensures LiteralPosition(ENGLISH_NAMES_2[5].name) == 128
      && LiteralPosition(ENGLISH_NAMES_2[6].name) == 129
      && LiteralPosition(ENGLISH_NAMES_2[7].name) == 130
      && LiteralPosition(ENGLISH_NAMES_2[8].name) == 131
      && LiteralPosition(ENGLISH_NAMES_2[9].name) == 132
  {
  }

  lemma EnglishSecondKeys3()
    ensures LiteralPosition(ENGLISH_NAMES_2[10].name) == 133
      && LiteralPosition(ENGLISH_NAMES_2[11].name) == 134
  {
  }

  lemma EnglishSecondKeyed()
    ensures Keyed(ENGLISH_NAMES_2, 123)
  {
    EnglishSecondKeys1();
    EnglishSecondKeys2();
    EnglishSecondKeys3();
  }

  lemma UnitShape()
    ensures StartWithLetter(UNIT_WORDS) && ValuesBetween(UNIT_WORDS, 1, SURAH_COUNT)
  {
  }

  lemma TeenShape()
    ensures StartWithLetter(TEEN_WORDS) && ValuesBetween(TEEN_WORDS, 1, SURAH_COUNT)
  {
  }

  lemma TensShape()
    ensures StartWithLetter(TENS_WORDS) && ValuesBetween(TENS_WORDS, 1, SURAH_COUNT)
  {
  }

  lemma OrdinalShape()
    ensures StartWithLetter(ORDINAL_WORDS) && ValuesBetween(ORDINAL_WORDS, 1, SURAH_COUNT)
  {
  }

  lemma ArabicShape()
    ensures NoLeadingDigits(ARABIC_NAMES) && ValuesBetween(ARABIC_NAMES, 1, 5)
  {
  }

  lemma EnglishFirstShape()
    ensures NoLeadingDigits(ENGLISH_NAMES_1) && ValuesBetween(ENGLISH_NAMES_1, 1, 5)
  {
  }

  lemma EnglishSecondShape()
    ensures NoLeadingDigits(ENGLISH_NAMES_2) && ValuesBetween(ENGLISH_NAMES_2, 1, 5)
  {
  }

  /** A name made of the ASCII letters a..z only. */
  predicate LowerWord(s: string)
  {
    forall k :: 0 <= k < |s| ==> 'a' <= s[k] <= 'z'
  }

  predicate LowerWords(d: seq<Entry>)
  {
    forall j :: 0 <= j < |d| ==> LowerWord(d[j].name)
  }

  lemma AppendLowerWords(a: seq<Entry>, b: seq<Entry>)
    requires LowerWords(a) && LowerWords(b)
    ensures LowerWords(a + b)
  {
    forall j | 0 <= j < |a + b| ensures LowerWord((a + b)[j].name) {
      if j >= |a| {
        assert (a + b)[j] == b[j - |a|];
      }
    }
  }

  lemma UnitLower1()
    ensures LowerWord(UNIT_WORDS[0].name)
      && LowerWord(UNIT_WORDS[1].name)
      && LowerWord(UNIT_WORDS[2].name)
      && LowerWord(UNIT_WORDS[3].name)
      && LowerWord(UNIT_WORDS[4].name)
  {
  }

  lemma UnitLower2()
    ensures LowerWord(UNIT_WORDS[5].name)
      && LowerWord(UNIT_WORDS[6].name)
      && LowerWord(UNIT_WORDS[7].name)
      && LowerWord(UNIT_WORDS[8].name)
      && LowerWord(UNIT_WORDS[9].name)
  {
  }

  lemma UnitLower()
    ensures LowerWords(UNIT_WORDS)
  {
    UnitLower1();
    UnitLower2();
  }

  lemma TeenLower1()
    ensures LowerWord(TEEN_WORDS[0].name)
      && LowerWord(TEEN_WORDS[1].name)
      && LowerWord(TEEN_WORDS[2].name)
      && LowerWord(TEEN_WORDS[3].name)
      && LowerWord(TEEN_WORDS[4].name)
  {
  }

  lemma TeenLower2()
    ensures LowerWord(TEEN_WORDS[5].name)
      && LowerWord(TEEN_WORDS[6].name)
      && LowerWord(TEEN_WORDS[7].name)
      && LowerWord(TEEN_WORDS[8].name)
  {
  }

  lemma TeenLower()
    ensures LowerWords(TEEN_WORDS)
  {
    TeenLower1();
    TeenLower2();
  }

  lemma TensLower1()
    ensures LowerWord(TENS_WORDS[0].name)
      && LowerWord(TENS_WORDS[1].name)
      && LowerWord(TENS_WORDS[2].name)
      && LowerWord(TENS_WORDS[3].name)
      && LowerWord(TENS_WORDS[4].name)
  {
  }

  lemma TensLower2()
    ensures LowerWord(TENS_WORDS[5].name)
      && LowerWord(TENS_WORDS[6].name)
      && LowerWord(TENS_WORDS[7].name)
      && LowerWord(TENS_WORDS[8].name)
  {
  }

  lemma TensLower()
    ensures LowerWords(TENS_WORDS)
  {
    TensLower1();
    TensLower2();
  }

  lemma OrdinalLower1()
    ensures LowerWord(ORDINAL_WORDS[0].name)
      && LowerWord(ORDINAL_WORDS[1].name)
      && LowerWord(ORDINAL_WORDS[2].name)
  {
  }

  lemma OrdinalLower()
    ensures LowerWords(ORDINAL_WORDS)
  {
    OrdinalLower1();
  }

  // ---------------------------------------------------------------------------------------------
  // Facts about the literals.

  lemma WordsKeyed()
    ensures Keyed(NUMBER_WORDS, 0)
  {
    UnitKeyed();
    TeenKeyed();
    TensKeyed();
    OrdinalKeyed();
    KeyedAppend(UNIT_WORDS, TEEN_WORDS, 0);
    KeyedAppend(UNIT_WORDS + TEEN_WORDS, TENS_WORDS, 0);
    KeyedAppend(UNIT_WORDS + TEEN_WORDS + TENS_WORDS, ORDINAL_WORDS, 0);
  }

  lemma NamesKeyed()
    ensures Keyed(COMMON_SURAH_NAMES, 100)
  {
    ArabicKeyed();
    EnglishFirstKeyed();
    EnglishSecondKeyed();
    KeyedAppend(ARABIC_NAMES, ENGLISH_NAMES_1, 100);
    KeyedAppend(ARABIC_NAMES + ENGLISH_NAMES_1, ENGLISH_NAMES_2, 100);
  }

  lemma WordCount()
    ensures |NUMBER_WORDS| == 31
  {
  }

  lemma WordNamesDistinct()
    ensures forall i, j :: 0 <= i < j < |NUMBER_WORDS| ==> NUMBER_WORDS[i].name != NUMBER_WORDS[j].name
  {
    WordsKeyed();
  }

  lemma WordNamesStartWithLetter()
    ensures forall j :: 0 <= j < |NUMBER_WORDS| ==> NUMBER_WORDS[j].name != [] && 'a' <= NUMBER_WORDS[j].name[0] <= 'z'
  {
    UnitShape();
    TeenShape();
    TensShape();
    OrdinalShape();
    AppendStartWithLetter(UNIT_WORDS, TEEN_WORDS);
    AppendStartWithLetter(UNIT_WORDS + TEEN_WORDS, TENS_WORDS);
    AppendStartWithLetter(UNIT_WORDS + TEEN_WORDS + TENS_WORDS, ORDINAL_WORDS);
  }

  lemma WordNamesAreLowerCase()
    ensures forall j, k :: 0 <= j < |NUMBER_WORDS| && 0 <= k < |NUMBER_WORDS[j].name| ==> 'a' <= NUMBER_WORDS[j].name[k] <= 'z'
  {
    UnitLower();
    TeenLower();
    TensLower();
    OrdinalLower();
    AppendLowerWords(UNIT_WORDS, TEEN_WORDS);
    AppendLowerWords(UNIT_WORDS + TEEN_WORDS, TENS_WORDS);
    AppendLowerWords(UNIT_WORDS + TEEN_WORDS + TENS_WORDS, ORDINAL_WORDS);
    assert LowerWords(NUMBER_WORDS);
  }

  lemma WordValuesInRange()
    ensures forall j :: 0 <= j < |NUMBER_WORDS| ==> 1 <= NUMBER_WORDS[j].surah <= SURAH_COUNT
  {
    UnitShape();
    TeenShape();
    TensShape();
    OrdinalShape();
    AppendValuesBetween(UNIT_WORDS, TEEN_WORDS, 1, SURAH_COUNT);
    AppendValuesBetween(UNIT_WORDS + TEEN_WORDS, TENS_WORDS, 1, SURAH_COUNT);
    AppendValuesBetween(UNIT_WORDS + TEEN_WORDS + TENS_WORDS, ORDINAL_WORDS, 1, SURAH_COUNT);
  }

  lemma NameCount()
    ensures |COMMON_SURAH_NAMES| == 35
  {
  }

  lemma NamesDistinct()
    ensures forall i, j :: 0 <= i < j < |COMMON_SURAH_NAMES| ==> COMMON_SURAH_NAMES[i].name != COMMON_SURAH_NAMES[j].name
  {
    NamesKeyed();
  }

  lemma NamesStartWithNonDigit()
    ensures forall j :: 0 <= j < |COMMON_SURAH_NAMES| ==> COMMON_SURAH_NAMES[j].name != [] && !('0' <= COMMON_SURAH_NAMES[j].name[0] <= '9')
  {
    ArabicShape();
    EnglishFirstShape();
    EnglishSecondShape();
    AppendNoLeadingDigits(ARABIC_NAMES, ENGLISH_NAMES_1);
    AppendNoLeadingDigits(ARABIC_NAMES + ENGLISH_NAMES_1, ENGLISH_NAMES_2);
  }

  lemma NameValuesInRange()
    ensures forall j :: 0 <= j < |COMMON_SURAH_NAMES| ==> 1 <= COMMON_SURAH_NAMES[j].surah <= 5
  {
    ArabicShape();
    EnglishFirstShape();
    EnglishSecondShape();
    AppendValuesBetween(ARABIC_NAMES, ENGLISH_NAMES_1, 1, 5);
    AppendValuesBetween(ARABIC_NAMES + ENGLISH_NAMES_1, ENGLISH_NAMES_2, 1, 5);
  }

  /** No surah name is also a number word: their positions differ. */
  lemma NamesAreNotWords()
    ensures forall i, j :: 0 <= i < |COMMON_SURAH_NAMES| && 0 <= j < |NUMBER_WORDS| ==> COMMON_SURAH_NAMES[i].name != NUMBER_WORDS[j].name
  {
    WordsKeyed();
    NamesKeyed();
  }
}
