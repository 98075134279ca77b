/**
 * The surah resolver (`detectSurahFromSpeech`): map a transcribed utterance to a surah number by
 * scanning the surah-name index for the first key that contains the utterance or is contained in
 * it, and fall back on the first run of decimal digits in the utterance.
 */
module Resolver {
  import opened Wrappers
  import opened UnicodeText
  import opened Decimal
  import opened SurahNames
  import opened SurahIndex

  /** The loaded Quran text: surah number to (ayah number to ayah text). */
  type QuranData = map<int, map<int, string>>

  /** `recognizedText.lower().strip()`. */
  function Utterance(t: CharTables, text: string): string
  {
    Strip(t, Lower(t, text))
  }

  /** `name.lower() in u or u in name.lower()`. */
  predicate KeyMatches(t: CharTables, name: string, u: string)
  {
    IsSubstring(Lower(t, name), u) || IsSubstring(u, Lower(t, name))
  }

  /** An entry the scan accepts: its key matches and its surah was loaded. */
  predicate Hit(t: CharTables, data: QuranData, e: Entry, u: string)
  {
    KeyMatches(t, e.name, u) && e.surah in data
  }

  /** Position `j` holds the first entry of the index that the scan accepts. */
  predicate FirstHitAt(t: CharTables, index: Index, data: QuranData, u: string, j: int)
  {
    0 <= j < |index| && Hit(t, data, index[j], u) && forall k :: 0 <= k < j ==> !Hit(t, data, index[k], u)
  }

  /** The name scan: the surah of the first accepted entry, if any. */
  function NameScan(t: CharTables, index: Index, data: QuranData, u: string): (r: Option<int>)
    ensures r.None? <==> forall j :: 0 <= j < |index| ==> !Hit(t, data, index[j], u)
    ensures r.Some? ==> exists j :: FirstHitAt(t, index, data, u, j) && r.value == index[j].surah
  {
    if index == [] then None
    else if Hit(t, data, index[0], u) then
      assert FirstHitAt(t, index, data, u, 0);
      Some(index[0].surah)
    else
      var r := NameScan(t, index[1..], data, u);
      assert forall j :: 1 <= j < |index| ==> index[1..][j - 1] == index[j];
      assert r.Some? ==> exists j :: FirstHitAt(t, index, data, u, j) && r.value == index[j].surah by {
        if r.Some? {
          var j :| FirstHitAt(t, index[1..], data, u, j) && r.value == index[1..][j].surah;
          assert FirstHitAt(t, index, data, u, j + 1);
        }
      }
      r
  }

  /** The digit fallback: `int(findall(r'\d+', text)[0])` when it is a loaded surah number. */
  function DigitFallback(t: CharTables, data: QuranData, text: string): (r: Option<int>)
    ensures var numbers := Runs(t, Digits, text);
            r.Some? <==> (&& numbers != []
                          && |numbers[0]| <= MAX_STR_DIGITS
                          && 1 <= DigitsValue(t, numbers[0]) <= SURAH_COUNT
                          && DigitsValue(t, numbers[0]) in data)
    ensures r.Some? ==> r.value == DigitsValue(t, Runs(t, Digits, text)[0])
  {
    var numbers := Runs(t, Digits, text);
    if numbers == [] then None
    else
      match ParseDigits(t, numbers[0])
      case None => None
      case Some(v) => if 1 <= v <= SURAH_COUNT && v in data then Some(v) else None
  }

  /** What `detectSurahFromSpeech` returns: a loaded surah, and a surah number when the index
      holds only surah numbers. */
  function Resolve(t: CharTables, index: Index, data: QuranData, text: string): (r: Option<int>)
    ensures r.Some? ==> r.value in data
    ensures (forall i :: 0 <= i < |index| ==> 1 <= index[i].surah <= SURAH_COUNT) && r.Some? ==> 1 <= r.value <= SURAH_COUNT
  {
    var scanned := NameScan(t, index, data, Utterance(t, text));
    if scanned.Some? then scanned else DigitFallback(t, data, text)
  }

  /** The resolver as the program runs it: a loop over the index with an early return, then the
      digit fallback. */
  method DetectSurahFromSpeech(t: CharTables, index: Index, data: QuranData, recognizedText: string) returns (r: Option<int>)
    ensures r == Resolve(t, index, data, recognizedText)
  {
    var recognizedTextLower := Strip(t, Lower(t, recognizedText));
    r := ScanIndex(t, index, data, recognizedTextLower);
    if r.None? {
      r := FallBackOnDigits(t, data, recognizedText);
    }
  }

  /** The loop of detectSurahFromSpeech over the index, returning at the first accepted entry. */
  method ScanIndex(t: CharTables, index: Index, data: QuranData, u: string) returns (r: Option<int>)
    ensures r == NameScan(t, index, data, u)
  {
    var i := 0;
    while i < |index|
      invariant 0 <= i <= |index|
      invariant NameScan(t, index, data, u) == NameScan(t, index[i..], data, u)
    {
      var name, surahNum := index[i].name, index[i].surah;
      ScanUnfolds(t, index, data, u, i);
      if IsSubstring(Lower(t, name), u) || IsSubstring(u, Lower(t, name)) {
        if surahNum in data {
          return Some(surahNum);
        }
      }
      i := i + 1;
    }
    return None;
  }

  lemma ScanUnfolds(t: CharTables, index: Index, data: QuranData, u: string, i: int)
    requires 0 <= i < |index|
    ensures NameScan(t, index[i..], data, u)
            == if Hit(t, data, index[i], u) then Some(index[i].surah) else NameScan(t, index[i + 1..], data, u)
  {
    assert index[i..][0] == index[i] && index[i..][1..] == index[i + 1..];
  }

  /** The digit fallback of detectSurahFromSpeech: `int()` of the first digit run, when it names a
      loaded surah. */
  method FallBackOnDigits(t: CharTables, data: QuranData, recognizedText: string) returns (r: Option<int>)
    ensures r == DigitFallback(t, data, recognizedText)
  {
    var numbers := Runs(t, Digits, recognizedText);
    if numbers != [] {
      var parsed := ParseDigits(t, numbers[0]);
      // A None is int()'s ValueError, which the program passes over.
      if parsed.Some? {
        var surahNum := parsed.value;
        if 1 <= surahNum <= SURAH_COUNT && surahNum in data {
          return Some(surahNum);
        }
      }
    }
    return None;
  }

  // ---------------------------------------------------------------------------------------------
  // What the resolver returns.

  /** The first accepted entry decides: the rest of the index and the digit fallback do not count. */
  lemma {:induction false} ResolveFirstHit(t: CharTables, index: Index, data: QuranData, text: string, j: int)
    requires FirstHitAt(t, index, data, Utterance(t, text), j)
    ensures Resolve(t, index, data, text) == Some(index[j].surah)
  {
    ScanFirstHit(t, index, data, Utterance(t, text), j);
  }

  lemma {:induction false} ScanFirstHit(t: CharTables, index: Index, data: QuranData, u: string, j: int)
    requires FirstHitAt(t, index, data, u, j)
    ensures NameScan(t, index, data, u) == Some(index[j].surah)
    decreases j
  {
    if j > 0 {
      assert !Hit(t, data, index[0], u);
      assert forall k :: 0 <= k < j - 1 ==> index[1..][k] == index[k + 1];
      assert FirstHitAt(t, index[1..], data, u, j - 1);
      ScanFirstHit(t, index[1..], data, u, j - 1);
    }
  }

  /** Some entry is accepted exactly when the scan decides; otherwise the digits decide. */
  lemma ResolveCases(t: CharTables, index: Index, data: QuranData, text: string)
    ensures (forall j :: 0 <= j < |index| ==> !Hit(t, data, index[j], Utterance(t, text)))
              ==> Resolve(t, index, data, text) == DigitFallback(t, data, text)
    ensures (exists j :: 0 <= j < |index| && Hit(t, data, index[j], Utterance(t, text)))
              ==> exists j :: FirstHitAt(t, index, data, Utterance(t, text), j) && Resolve(t, index, data, text) == Some(index[j].surah)
  {
    var u := Utterance(t, text);
    var r := NameScan(t, index, data, u);
    if r.Some? {
      var j :| FirstHitAt(t, index, data, u, j) && r.value == index[j].surah;
      assert Resolve(t, index, data, text) == Some(index[j].surah);
    }
  }

  // ---------------------------------------------------------------------------------------------
  // The scan shadows the fallback for ASCII numerals.

  /** An ASCII numeral without a leading zero in the text is kept, lower-cased, in the utterance. */
  lemma NumeralInUtterance(t: CharTables, text: string, s: string, g: int)
    requires AsciiConventional(t)
    requires OccursAt(s, text, g)
    requires s != [] && forall i :: 0 <= i < |s| ==> IsAsciiDigit(s[i])
    ensures IsSubstring(s, Utterance(t, text))
  {
    var pre, post := text[..g], text[g + |s|..];
    assert text == pre + s + post;
    LowerKeepsNumeral(t, pre, s, post);
    OccursBetween(Lower(t, pre), s, Lower(t, post), Lower(t, text));
    StripKeepsWord(t, s, Lower(t, text), |Lower(t, pre)|);
  }

  lemma LowerKeepsNumeral(t: CharTables, pre: string, s: string, post: string)
    requires AsciiConventional(t)
    requires forall i :: 0 <= i < |s| ==> IsAsciiDigit(s[i])
    ensures Lower(t, pre + s + post) == Lower(t, pre) + s + Lower(t, post)
  {
    LowerAppend(t, pre + s, post);
    LowerAppend(t, pre, s);
    LowerOfLowerAscii(t, s);
  }

  lemma OccursBetween(a: string, s: string, b: string, x: string)
    requires x == a + s + b
    ensures OccursAt(s, x, |a|)
  {
    assert x[|a|..|a| + |s|] == s;
  }

  /** When the first digit run of the text is a canonical ASCII numeral of a loaded surah, the name
      scan over the real index already accepts an entry, so the digit fallback never decides such
      an utterance: "12" resolves through the key "1", not through the number 12. */
  lemma ScanShadowsAsciiNumerals(t: CharTables, data: QuranData, text: string)
    requires AsciiConventional(t)
    requires Runs(t, Digits, text) != []
    requires var s := Runs(t, Digits, text)[0];
             s[0] != '0' && forall i :: 0 <= i < |s| ==> IsAsciiDigit(s[i])
    requires var s := Runs(t, Digits, text)[0];
             AllDecimal(t, s) && 1 <= DigitsValue(t, s) <= SURAH_COUNT && DigitsValue(t, s) in data
    ensures NameScan(t, SurahNameIndex(), data, Utterance(t, text)).Some?
  {
    var s := Runs(t, Digits, text)[0];
    var v := DigitsValue(t, s);
    FirstRunOccurs(t, Digits, text);
    NumeralInUtterance(t, text, s, GapLength(t, Digits, text));
    ValueDecimalString(t, s);
    NumeralsMapToThemselves(v);
    var index := SurahNameIndex();
    var j := FirstIndex(index, DecimalString(v));
    assert index[j] == Entry(s, v);
    LowerOfLowerAscii(t, s);
    assert Hit(t, data, index[j], Utterance(t, text));
  }

  // ---------------------------------------------------------------------------------------------
  // The resolver over the real index, on utterances the program's behaviour is easy to misread on.

  /** Every name in `ws` is a non-empty run of lower-case ASCII letters. */
  predicate LetterNames(ws: seq<Entry>)
  {
    forall j :: 0 <= j < |ws| ==> ws[j].name != [] && forall k :: 0 <= k < |ws[j].name| ==> 'a' <= ws[j].name[k] <= 'z'
  }

  lemma NumberWordsAreLetters()
    ensures LetterNames(NUMBER_WORDS)
  {
    WordNamesAreLowerCase();
    WordNamesStartWithLetter();
  }

  /** A digit utterance matches no letter-only key: neither contains the other's first character. */
  lemma DigitsMatchNoWord(t: CharTables, ws: seq<Entry>, u: string, e: Entry)
    requires AsciiConventional(t) && LetterNames(ws)
    requires u != [] && forall i :: 0 <= i < |u| ==> IsAsciiDigit(u[i])
    requires e in ws
    ensures !KeyMatches(t, e.name, u)
  {
    var j :| 0 <= j < |ws| && ws[j] == e;
    LowerOfLowerAscii(t, e.name);
    NotSubstringByChar(e.name, u);
    NotSubstringByChar(u, e.name);
  }

  /** The start of an index laid out as the real one: "1", then letter-only keys worth 1, then "2". */
  predicate StartsWithOneThenTwo(ws: seq<Entry>, index: Index, p: int)
  {
    && 0 < p < |index|
    && index[0] == Entry("1", 1)
    && index[p] == Entry("2", 2)
    && forall k :: 0 < k < p ==> index[k] in ws && index[k].surah == 1
  }

  lemma RealIndexStart()
    ensures StartsWithOneThenTwo(NUMBER_WORDS, SurahNameIndex(), 1 + |WordsFor(NUMBER_WORDS, 1)|)
  {
    IndexStart();
  }

  lemma Resolve200In(t: CharTables, ws: seq<Entry>, index: Index, p: int, data: QuranData)
    requires AsciiConventional(t) && LetterNames(ws) && StartsWithOneThenTwo(ws, index, p)
    requires 2 in data
    ensures Resolve(t, index, data, "200") == Some(2)
  {
    LowerOfLowerAscii(t, "200");
    StripWord(t, "200");
    var u := Utterance(t, "200");
    assert u == "200";
    LowerOfLowerAscii(t, "1");
    LowerOfLowerAscii(t, "2");
    NotSubstringByChar("1", u);
    assert !IsSubstring(u, "1");
    assert !KeyMatches(t, index[0].name, u);
    forall k | 0 < k < p
      ensures !Hit(t, data, index[k], u)
    {
      DigitsMatchNoWord(t, ws, u, index[k]);
    }
    assert OccursAt("2", u, 0);
    assert FirstHitAt(t, index, data, u, p);
    ResolveFirstHit(t, index, data, "200", p);
  }

  /** "200" resolves to surah 2: the key "2" is contained in it, and "1" and the words worth 1 are
      not. The out-of-range number 200 is never considered. */
  lemma Resolve200(t: CharTables, data: QuranData)
    requires AsciiConventional(t)
    requires 2 in data
    ensures Resolve(t, SurahNameIndex(), data, "200") == Some(2)
  {
    RealIndexStart();
    NumberWordsAreLetters();
    Resolve200In(t, NUMBER_WORDS, SurahNameIndex(), 1 + |WordsFor(NUMBER_WORDS, 1)|, data);
  }

  lemma Resolve12In(t: CharTables, index: Index, data: QuranData)
    requires AsciiConventional(t)
    requires index != [] && index[0] == Entry("1", 1) && 1 in data
    ensures Resolve(t, index, data, "12") == Some(1)
  {
    LowerOfLowerAscii(t, "12");
    StripWord(t, "12");
    var u := Utterance(t, "12");
    assert u == "12";
    LowerOfLowerAscii(t, "1");
    assert OccursAt("1", u, 0);
    assert FirstHitAt(t, index, data, u, 0);
    ResolveFirstHit(t, index, data, "12", 0);
  }

  /** "12" resolves to surah 1, through the key "1", whatever surah 12 is. */
  lemma Resolve12(t: CharTables, data: QuranData)
    requires AsciiConventional(t)
    requires 1 in data
    ensures Resolve(t, SurahNameIndex(), data, "12") == Some(1)
  {
    RealIndexStart();
    Resolve12In(t, SurahNameIndex(), data);
  }

  lemma ResolveBlankIn(t: CharTables, index: Index, data: QuranData, text: string)
    requires AsciiConventional(t) && LowerKeepsSpaces(t)
    requires forall i :: 0 <= i < |text| ==> t.isSpace(text[i])
    requires index != [] && index[0] == Entry("1", 1) && 1 in data
    ensures Resolve(t, index, data, text) == Some(1)
  {
    LowerOfBlank(t, text);
    StripBlank(t, Lower(t, text));
    var u := Utterance(t, text);
    assert u == [];
    LowerOfLowerAscii(t, "1");
    assert OccursAt(u, "1", 0);
    assert FirstHitAt(t, index, data, u, 0);
    ResolveFirstHit(t, index, data, text, 0);
  }

  /** An empty or blank utterance (whitespace of any script) resolves to surah 1: `strip()` leaves
      the empty string, which is contained in the first key, "1". */
  lemma ResolveBlank(t: CharTables, data: QuranData, text: string)
    requires AsciiConventional(t) && LowerKeepsSpaces(t)
    requires forall i :: 0 <= i < |text| ==> t.isSpace(text[i])
    requires 1 in data
    ensures Resolve(t, SurahNameIndex(), data, text) == Some(1)
  {
    RealIndexStart();
    ResolveBlankIn(t, SurahNameIndex(), data, text);
  }
}
