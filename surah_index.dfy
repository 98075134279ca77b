/**
 * The surah-name index (`createSurahNameMapping`): an insertion-ordered dictionary from spoken
 * names to surah numbers. A Python dict iterates in insertion order, and the resolver's scan
 * depends on that order, so the index is a sequence of entries.
 */
module SurahIndex {
  import opened Wrappers
  import opened UnicodeText
  import opened Decimal
  import opened SurahNames

  // ---------------------------------------------------------------------------------------------
  // Dictionary operations on an insertion-ordered index.

  predicate HasName(d: Index, k: string)
  {
    exists i :: 0 <= i < |d| && d[i].name == k
  }

  /** The position of the first entry named `k`. */
  function FirstIndex(d: Index, k: string): (i: nat)
    requires HasName(d, k)
    ensures i < |d| && d[i].name == k
    ensures forall j :: 0 <= j < i ==> d[j].name != k
  {
    if d[0].name == k then 0
    else
      assert HasName(d[1..], k) by {
        var i :| 0 <= i < |d| && d[i].name == k;
        assert d[1..][i - 1] == d[i];
      }
      1 + FirstIndex(d[1..], k)
  }

  /** `d[k] = v`: a present key keeps its place and takes the new value; a new key goes last. */
  function Assign(d: Index, k: string, v: int): (r: Index)
    ensures !HasName(d, k) ==> r == d + [Entry(k, v)]
    ensures HasName(d, k) ==> r == d[FirstIndex(d, k) := Entry(k, v)]
  {
    if d == [] then [Entry(k, v)]
    else if d[0].name == k then [Entry(k, v)] + d[1..]
    else
      assert HasName(d[1..], k) ==> HasName(d, k) by {
        if HasName(d[1..], k) {
          var i :| 0 <= i < |d[1..]| && d[1..][i].name == k;
          assert d[i + 1].name == k;
        }
      }
      [d[0]] + Assign(d[1..], k, v)
  }

  /** `d.update(es)` for a sequence of entries, applied in order. */
  function AssignAll(d: Index, es: seq<Entry>): Index
  {
    if es == [] then d else Assign(AssignAll(d, es[..|es| - 1]), es[|es| - 1].name, es[|es| - 1].surah)
  }

  /** `d[k]` as a lookup that may miss: the value of the entry named `k`, or None. */
  function Lookup(d: Index, k: string): (r: Option<int>)
    ensures !HasName(d, k) ==> r == None
    ensures HasName(d, k) ==> r == Some(d[FirstIndex(d, k)].surah)
  {
    if d == [] then None
    else if d[0].name == k then Some(d[0].surah)
    else
      assert HasName(d[1..], k) <==> HasName(d, k) by {
        if HasName(d[1..], k) {
          var i :| 0 <= i < |d[1..]| && d[1..][i].name == k;
          assert d[i + 1].name == k;
        }
        if HasName(d, k) {
          var i :| 0 <= i < |d| && d[i].name == k;
          assert d[1..][i - 1] == d[i];
        }
      }
      Lookup(d[1..], k)
  }

  /** Assigning makes the key map to the new value and leaves every other key as it was. */
  lemma AssignThenLookup(d: Index, k: string, v: int, k': string)
    ensures Lookup(Assign(d, k, v), k) == Some(v)
    ensures k' != k ==> Lookup(Assign(d, k, v), k') == Lookup(d, k')
  {
    AssignedKeyFound(d, k, v);
    if k' != k {
      AssignKeepsOthers(d, k, v, k');
    }
  }

  lemma AssignedKeyFound(d: Index, k: string, v: int)
    ensures Lookup(Assign(d, k, v), k) == Some(v)
  {
    var r := Assign(d, k, v);
    var i := if HasName(d, k) then FirstIndex(d, k) else |d|;
    assert r[i] == Entry(k, v);
    assert forall j :: 0 <= j < i ==> r[j] == d[j];
    assert FirstIndex(r, k) == i;
  }

  lemma AssignKeepsOthers(d: Index, k: string, v: int, k': string)
    requires k' != k
    ensures Lookup(Assign(d, k, v), k') == Lookup(d, k')
  {
    var r := Assign(d, k, v);
    assert forall j :: 0 <= j < |d| ==> (r[j].name == k' <==> d[j].name == k');
    assert |r| == |d| || r[|d|].name == k;
    assert HasName(r, k') <==> HasName(d, k');
    if HasName(d, k') {
      assert FirstIndex(r, k') == FirstIndex(d, k');
    }
  }

  /** In an index whose names are distinct, looking a name up finds its one entry. */
  lemma LookupDistinct(d: Index, i: int)
    requires DistinctNames(d) && 0 <= i < |d|
    ensures Lookup(d, d[i].name) == Some(d[i].surah)
  {
    assert HasName(d, d[i].name);
    var f := FirstIndex(d, d[i].name);
    assert f == i;
  }

  /** Entries whose names are new, and distinct among themselves, are simply appended. */
  lemma {:induction false} AssignAllFresh(d: Index, es: seq<Entry>)
    requires DistinctNames(es)
    requires forall j :: 0 <= j < |es| ==> !HasName(d, es[j].name)
    ensures AssignAll(d, es) == d + es
  {
    if es != [] {
      var init, e := es[..|es| - 1], es[|es| - 1];
      AssignAllFresh(d, init);
      forall i | 0 <= i < |d + init| ensures (d + init)[i].name != e.name {
        if i < |d| {
          assert !HasName(d, e.name);
        } else {
          assert (d + init)[i] == es[i - |d|];
        }
      }
      assert !HasName(d + init, e.name);
      assert AssignAll(d, es) == Assign(d + init, e.name, e.surah) == (d + init) + [e];
      assert init + [e] == es;
      AppendAssociates(d, init, [e]);
    }
  }

  lemma DistinctAppend(a: Index, b: Index)
    requires DistinctNames(a) && DistinctNames(b)
    requires forall j :: 0 <= j < |b| ==> !HasName(a, b[j].name)
    ensures DistinctNames(a + b)
  {
    forall i, j | 0 <= i < |a| <= j < |a + b| ensures (a + b)[i].name != (a + b)[j].name {
      assert (a + b)[j] == b[j - |a|];
      assert !HasName(a, b[j - |a|].name);
    }
  }

  // ---------------------------------------------------------------------------------------------
  // The index itself.

  /** The number words worth `n`, in literal order (`for word, val ...: if val == num`). */
  function WordsFor(ws: seq<Entry>, n: int): (r: seq<Entry>)
    ensures |r| <= |ws|
    ensures forall j :: 0 <= j < |r| ==> r[j] in ws && r[j].surah == n
  {
    if ws == [] then []
    else WordsFor(ws[..|ws| - 1], n) + (if ws[|ws| - 1].surah == n then [ws[|ws| - 1]] else [])
  }

  /** `num in numberWords.values()`. */
  predicate HasValue(ws: seq<Entry>, n: int)
  {
    exists j :: 0 <= j < |ws| && ws[j].surah == n
  }

  /** The index after the first `n` rounds of the number loop over the words `ws`, as successive
      assignments. */
  function NumberRounds(ws: seq<Entry>, n: nat): Index
  {
    if n == 0 then [] else AssignAll(Assign(NumberRounds(ws, n - 1), DecimalString(n), n), WordsFor(ws, n))
  }

  /** What `createSurahNameMapping` returns, as successive assignments. */
  function SurahNameIndex(): Index
  {
    AssignAll(NumberRounds(NUMBER_WORDS, SURAH_COUNT), COMMON_SURAH_NAMES)
  }

  /** The same entries laid out plainly: each numeral followed by its words. */
  function NumberEntries(ws: seq<Entry>, n: nat): Index
  {
    if n == 0 then [] else NumberEntries(ws, n - 1) + [Entry(DecimalString(n), n)] + WordsFor(ws, n)
  }

  /** `createSurahNameMapping`. */
  method CreateSurahNameMapping() returns (mapping: Index)
    ensures mapping == SurahNameIndex()
  {
    mapping := NumberLoop(NUMBER_WORDS, SURAH_COUNT);
    mapping := Update(mapping, COMMON_SURAH_NAMES);
  }

  /** The number loop, `for num in range(1, count + 1)`, over any word list. */
  method NumberLoop(numberWords: seq<Entry>, count: nat) returns (mapping: Index)
    ensures mapping == NumberRounds(numberWords, count)
  {
    mapping := [];
    var num := 1;
    while num < count + 1
      invariant 1 <= num <= count + 1
      invariant mapping == NumberRounds(numberWords, num - 1)
    {
      mapping := AssignNumber(mapping, num, numberWords);
      num := num + 1;
    }
  }

  /** `d.update(es)`: each entry assigned in turn. */
  method Update(d: Index, es: seq<Entry>) returns (r: Index)
    ensures r == AssignAll(d, es)
  {
    r := d;
    var k := 0;
    while k < |es|
      invariant 0 <= k <= |es|
      invariant r == AssignAll(d, es[..k])
    {
      AssignAllStep(d, es, k);
      r := Assign(r, es[k].name, es[k].surah);
      k := k + 1;
    }
    assert es[..k] == es;
  }

  /** One round of the number loop: the numeral of `num`, then the words worth `num` if there are any. */
  method AssignNumber(mapping: Index, num: nat, numberWords: seq<Entry>) returns (r: Index)
    ensures r == AssignAll(Assign(mapping, DecimalString(num), num), WordsFor(numberWords, num))
  {
    r := Assign(mapping, DecimalString(num), num);
    ghost var afterNumeral := r;
    if HasValue(numberWords, num) {
      var j := 0;
      while j < |numberWords|
        invariant 0 <= j <= |numberWords|
        invariant r == AssignAll(afterNumeral, WordsFor(numberWords[..j], num))
      {
        WordsForStep(numberWords, j, num);
        if numberWords[j].surah == num {
          AssignAllSnoc(afterNumeral, WordsFor(numberWords[..j], num), numberWords[j]);
          r := Assign(r, numberWords[j].name, num);
        } else {
          assert WordsFor(numberWords[..j], num) + [] == WordsFor(numberWords[..j], num);
        }
        j := j + 1;
      }
      assert numberWords[..j] == numberWords;
    } else {
      NoWordsFor(numberWords, num);
    }
  }

  lemma AssignAllSnoc(d: Index, es: seq<Entry>, e: Entry)
    ensures AssignAll(d, es + [e]) == Assign(AssignAll(d, es), e.name, e.surah)
  {
    assert (es + [e])[..|es|] == es;
  }

  lemma AssignAllStep(d: Index, es: seq<Entry>, k: int)
    requires 0 <= k < |es|
    ensures AssignAll(d, es[..k + 1]) == Assign(AssignAll(d, es[..k]), es[k].name, es[k].surah)
  {
    assert es[..k + 1][..k] == es[..k];
  }

  lemma WordsForStep(ws: seq<Entry>, j: int, n: int)
    requires 0 <= j < |ws|
    ensures WordsFor(ws[..j + 1], n) == WordsFor(ws[..j], n) + (if ws[j].surah == n then [ws[j]] else [])
  {
    assert ws[..j + 1][..j] == ws[..j];
  }

  lemma NoWordsFor(ws: seq<Entry>, n: int)
    requires !HasValue(ws, n)
    ensures WordsFor(ws, n) == []
  {
    var r := WordsFor(ws, n);
    forall e | e in ws ensures e.surah != n {
      var j :| 0 <= j < |ws| && ws[j] == e;
    }
    assert forall j :: 0 <= j < |r| ==> r[j].surah != n;
  }

  // ---------------------------------------------------------------------------------------------
  // The shape of the index, for any word list with the properties of the literal.

  /** Number words: distinct names, each starting with a lower-case ASCII letter. */
  predicate WordList(ws: seq<Entry>)
  {
    DistinctNames(ws) && forall j :: 0 <= j < |ws| ==> ws[j].name != [] && 'a' <= ws[j].name[0] <= 'z'
  }

  /** Surah names: distinct, none starting with an ASCII digit, none a number word. */
  predicate NameList(ws: seq<Entry>, ns: seq<Entry>)
  {
    && DistinctNames(ns)
    && (forall j :: 0 <= j < |ns| ==> ns[j].name != [] && !IsAsciiDigit(ns[j].name[0]))
    && (forall i, j :: 0 <= i < |ns| && 0 <= j < |ws| ==> ns[i].name != ws[j].name)
  }

  /** An entry of the number part of the index: a numeral or a number word, worth 1..n. */
  predicate NumberEntryUpTo(ws: seq<Entry>, e: Entry, n: int)
  {
    1 <= e.surah <= n && (e.name == DecimalString(e.surah) || e in ws)
  }

  predicate NumberPart(ws: seq<Entry>, d: Index, n: int)
  {
    forall i :: 0 <= i < |d| ==> NumberEntryUpTo(ws, d[i], n)
  }

  lemma {:induction false} WordsForDistinct(ws: seq<Entry>, n: int)
    requires DistinctNames(ws)
    ensures DistinctNames(WordsFor(ws, n))
  {
    if ws != [] {
      var init, last := ws[..|ws| - 1], ws[|ws| - 1];
      var r := WordsFor(init, n);
      WordsForDistinct(init, n);
      if last.surah == n {
        forall i | 0 <= i < |r| ensures r[i].name != last.name {
          var k :| 0 <= k < |init| && init[k] == r[i];
          assert ws[k] == init[k];
        }
        DistinctAppend(r, [last]);
      } else {
        assert r + [] == r;
      }
    }
  }

  /** Two number words with different values have different names. */
  lemma WordNameDeterminesValue(ws: seq<Entry>, a: Entry, b: Entry)
    requires WordList(ws)
    requires a in ws && b in ws && a.surah != b.surah
    ensures a.name != b.name
  {
    var i :| 0 <= i < |ws| && ws[i] == a;
    var j :| 0 <= j < |ws| && ws[j] == b;
    assert i != j;
  }

  /** A numeral is never a number word. */
  lemma NumeralIsNotWord(ws: seq<Entry>, m: nat, e: Entry)
    requires WordList(ws) && e in ws
    ensures e.name != DecimalString(m)
  {
    var j :| 0 <= j < |ws| && ws[j] == e;
    assert !IsAsciiDigit(e.name[0]);
  }

  lemma NumeralFresh(ws: seq<Entry>, n: nat, p: Index)
    requires WordList(ws) && NumberPart(ws, p, n - 1)
    ensures !HasName(p, DecimalString(n))
  {
    forall i | 0 <= i < |p| ensures p[i].name != DecimalString(n) {
      if p[i].name == DecimalString(p[i].surah) {
        DecimalStringInjective(p[i].surah, n);
      } else {
        NumeralIsNotWord(ws, n, p[i]);
      }
    }
  }

  lemma WordsFresh(ws: seq<Entry>, n: nat, p: Index)
    requires WordList(ws) && NumberPart(ws, p, n - 1)
    ensures forall j :: 0 <= j < |WordsFor(ws, n)| ==> !HasName(p + [Entry(DecimalString(n), n)], WordsFor(ws, n)[j].name)
  {
    var q := p + [Entry(DecimalString(n), n)];
    var w := WordsFor(ws, n);
    forall j, i | 0 <= j < |w| && 0 <= i < |q| ensures q[i].name != w[j].name {
      if i == |p| {
        NumeralIsNotWord(ws, n, w[j]);
      } else if p[i].name == DecimalString(p[i].surah) {
        NumeralIsNotWord(ws, p[i].surah, w[j]);
      } else {
        WordNameDeterminesValue(ws, p[i], w[j]);
      }
    }
  }

  /** One round of the number loop on an index that holds only lower numbers appends the numeral
      and its words. */
  lemma RoundAppends(ws: seq<Entry>, n: nat, p: Index)
    requires WordList(ws) && DistinctNames(p) && NumberPart(ws, p, n - 1)
    ensures AssignAll(Assign(p, DecimalString(n), n), WordsFor(ws, n)) == p + [Entry(DecimalString(n), n)] + WordsFor(ws, n)
    ensures DistinctNames(p + [Entry(DecimalString(n), n)] + WordsFor(ws, n))
  {
    var q := p + [Entry(DecimalString(n), n)];
    var w := WordsFor(ws, n);
    NumeralFresh(ws, n, p);
    DistinctAppend(p, [Entry(DecimalString(n), n)]);
    WordsForDistinct(ws, n);
    WordsFresh(ws, n, p);
    AssignAllFresh(q, w);
    DistinctAppend(q, w);
  }

  lemma NumberPartGrows(ws: seq<Entry>, n: nat, p: Index)
    requires 1 <= n && NumberPart(ws, p, n - 1)
    ensures NumberPart(ws, p + [Entry(DecimalString(n), n)] + WordsFor(ws, n), n)
  {
    var q := p + [Entry(DecimalString(n), n)];
    var w := WordsFor(ws, n);
    forall i | 0 <= i < |q + w| ensures NumberEntryUpTo(ws, (q + w)[i], n) {
      if i < |p| {
        assert (q + w)[i] == p[i];
        assert NumberEntryUpTo(ws, p[i], n - 1);
      } else if i >= |q| {
        assert (q + w)[i] == w[i - |q|];
      }
    }
  }

  /** The numerals 1..n, each followed by its words, have distinct names, all worth 1..n. */
  lemma {:induction false} NumberEntriesShape(ws: seq<Entry>, n: nat)
    requires WordList(ws)
    ensures DistinctNames(NumberEntries(ws, n))
    ensures NumberPart(ws, NumberEntries(ws, n), n)
  {
    if n > 0 {
      NumberEntriesShape(ws, n - 1);
      ShapeStep(ws, n, NumberEntries(ws, n - 1), NumberEntries(ws, n));
    }
  }

  lemma ShapeStep(ws: seq<Entry>, n: nat, p: Index, entries: Index)
    requires WordList(ws) && 1 <= n && DistinctNames(p) && NumberPart(ws, p, n - 1)
    requires entries == p + [Entry(DecimalString(n), n)] + WordsFor(ws, n)
    ensures DistinctNames(entries) && NumberPart(ws, entries, n)
  {
    RoundAppends(ws, n, p);
    NumberPartGrows(ws, n, p);
  }

  /** The number loop never meets a key twice: after `n` rounds the index is the numerals 1..n,
      each followed by its words, with distinct names. */
  lemma {:induction false} NumberRoundsLayout(ws: seq<Entry>, n: nat)
    requires WordList(ws)
    ensures NumberRounds(ws, n) == NumberEntries(ws, n)
    ensures DistinctNames(NumberEntries(ws, n))
    ensures NumberPart(ws, NumberEntries(ws, n), n)
  {
    NumberEntriesShape(ws, n);
    if n > 0 {
      NumberRoundsLayout(ws, n - 1);
      RoundStep(ws, n, NumberEntries(ws, n - 1), NumberRounds(ws, n), NumberEntries(ws, n));
    }
  }

  lemma RoundStep(ws: seq<Entry>, n: nat, p: Index, rounds: Index, entries: Index)
    requires WordList(ws) && 1 <= n && DistinctNames(p) && NumberPart(ws, p, n - 1)
    requires rounds == AssignAll(Assign(p, DecimalString(n), n), WordsFor(ws, n))
    requires entries == p + [Entry(DecimalString(n), n)] + WordsFor(ws, n)
    ensures rounds == entries
  {
    RoundAppends(ws, n, p);
  }

  /** The index is the number part followed by the names, and every name occurs once. */
  lemma IndexLayout(ws: seq<Entry>, ns: seq<Entry>, n: nat)
    requires WordList(ws) && NameList(ws, ns)
    ensures AssignAll(NumberRounds(ws, n), ns) == NumberEntries(ws, n) + ns
    ensures DistinctNames(NumberEntries(ws, n) + ns)
    ensures NumberPart(ws, NumberEntries(ws, n), n)
  {
    NumberRoundsLayout(ws, n);
    var p := NumberEntries(ws, n);
    forall j, i | 0 <= j < |ns| && 0 <= i < |p| ensures p[i].name != ns[j].name {
      assert NumberEntryUpTo(ws, p[i], n);
      if p[i].name == DecimalString(p[i].surah) {
        assert IsAsciiDigit(p[i].name[0]);
      } else {
        var k :| 0 <= k < |ws| && ws[k] == p[i];
      }
    }
    AssignAllFresh(p, ns);
    DistinctAppend(p, ns);
  }

  lemma {:induction false} NumberEntriesPrefix(ws: seq<Entry>, m: nat, n: nat)
    requires m <= n
    ensures |NumberEntries(ws, m)| <= |NumberEntries(ws, n)|
    ensures NumberEntries(ws, n)[..|NumberEntries(ws, m)|] == NumberEntries(ws, m)
    decreases n
  {
    if m < n {
      NumberEntriesPrefix(ws, m, n - 1);
      AppendAssociates(NumberEntries(ws, n - 1), [Entry(DecimalString(n), n)], WordsFor(ws, n));
      PrefixGrows(NumberEntries(ws, m), NumberEntries(ws, n - 1), [Entry(DecimalString(n), n)] + WordsFor(ws, n),
                  NumberEntries(ws, n));
    } else {
      WholePrefix(NumberEntries(ws, n));
    }
  }

  lemma WholePrefix(a: Index)
    ensures a[..|a|] == a
  {
  }

  lemma AppendAssociates(a: Index, b: Index, c: Index)
    ensures a + b + c == a + (b + c)
  {
  }

  lemma PrefixGrows(a: Index, b: Index, round: Index, c: Index)
    requires |a| <= |b| && b[..|a|] == a && c == b + round
    ensures |a| <= |c| && c[..|a|] == a
  {
    PrefixOfAppend(b, round, |a|);
  }

  lemma PrefixOfAppend(a: Index, b: Index, k: nat)
    requires k <= |a|
    ensures (a + b)[..k] == a[..k]
  {
  }

  // ---------------------------------------------------------------------------------------------
  // The index `createSurahNameMapping` builds.

  lemma LiteralsWellFormed()
    ensures WordList(NUMBER_WORDS) && NameList(NUMBER_WORDS, COMMON_SURAH_NAMES)
  {
    WordNamesDistinct();
    WordNamesStartWithLetter();
    NamesDistinct();
    NamesStartWithNonDigit();
    NamesAreNotWords();
  }

  lemma ValuesUpTo(ws: seq<Entry>, p: Index, ns: seq<Entry>, n: int)
    requires NumberPart(ws, p, n)
    requires forall j :: 0 <= j < |ns| ==> 1 <= ns[j].surah <= n
    ensures forall i :: 0 <= i < |p + ns| ==> 1 <= (p + ns)[i].surah <= n
  {
    forall i | 0 <= i < |p + ns| ensures 1 <= (p + ns)[i].surah <= n {
      if i < |p| {
        assert NumberEntryUpTo(ws, p[i], n);
      } else {
        assert (p + ns)[i] == ns[i - |p|];
      }
    }
  }

  lemma IndexFacts(ws: seq<Entry>, ns: seq<Entry>, n: nat)
    requires WordList(ws) && NameList(ws, ns)
    requires forall j :: 0 <= j < |ns| ==> 1 <= ns[j].surah <= n
    ensures AssignAll(NumberRounds(ws, n), ns) == NumberEntries(ws, n) + ns
    ensures DistinctNames(NumberEntries(ws, n) + ns)
    ensures NumberPart(ws, NumberEntries(ws, n), n)
    ensures forall i :: 0 <= i < |NumberEntries(ws, n) + ns| ==> 1 <= (NumberEntries(ws, n) + ns)[i].surah <= n
  {
    IndexLayout(ws, ns, n);
    ValuesUpTo(ws, NumberEntries(ws, n), ns, n);
  }

  /** The index is the numerals "1".."114", each followed by the number words worth it, then the
      surah names: the names come after every numeral and number word. */
  lemma SurahNameIndexLayout()
    ensures SurahNameIndex() == NumberEntries(NUMBER_WORDS, SURAH_COUNT) + COMMON_SURAH_NAMES
    ensures NumberPart(NUMBER_WORDS, NumberEntries(NUMBER_WORDS, SURAH_COUNT), SURAH_COUNT)
  {
    LiteralsWellFormed();
    NameValuesInRange();
    IndexFacts(NUMBER_WORDS, COMMON_SURAH_NAMES, SURAH_COUNT);
  }

  /** No name occurs twice in the index, so no assignment ever overwrote an earlier one. */
  lemma SurahNameIndexDistinct()
    ensures DistinctNames(SurahNameIndex())
  {
    LiteralsWellFormed();
    NameValuesInRange();
    IndexFacts(NUMBER_WORDS, COMMON_SURAH_NAMES, SURAH_COUNT);
  }

  /** Every value in the index is a surah number. */
  lemma SurahNameIndexValues()
    ensures forall i :: 0 <= i < |SurahNameIndex()| ==> 1 <= SurahNameIndex()[i].surah <= SURAH_COUNT
  {
    SurahNameIndexLayout();
    NameValuesInRange();
    ValuesUpTo(NUMBER_WORDS, NumberEntries(NUMBER_WORDS, SURAH_COUNT), COMMON_SURAH_NAMES, SURAH_COUNT);
  }

  /** Every numeral "1" .. "114" is a key, mapped to its own number. */
  lemma NumeralsMapToThemselves(n: nat)
    requires 1 <= n <= SURAH_COUNT
    ensures Lookup(SurahNameIndex(), DecimalString(n)) == Some(n)
  {
    SurahNameIndexLayout();
    SurahNameIndexDistinct();
    NumberEntriesPrefix(NUMBER_WORDS, n, SURAH_COUNT);
    var i := |NumberEntries(NUMBER_WORDS, n - 1)|;
    assert NumberEntries(NUMBER_WORDS, n)[i] == Entry(DecimalString(n), n);
    assert SurahNameIndex()[i] == NumberEntries(NUMBER_WORDS, SURAH_COUNT)[i];
    LookupDistinct(SurahNameIndex(), i);
  }

  lemma NumberEntriesTwo(ws: seq<Entry>)
    ensures NumberEntries(ws, 2) == [Entry("1", 1)] + WordsFor(ws, 1) + [Entry("2", 2)] + WordsFor(ws, 2)
  {
    assert DecimalString(1) == "1" && DecimalString(2) == "2";
    assert NumberEntries(ws, 1) == [] + [Entry("1", 1)] + WordsFor(ws, 1);
  }

  /** Any index that starts with the number part up to at least 2 starts with "1", then the words
      worth 1, then "2". */
  lemma NumberPartStart(ws: seq<Entry>, n: nat, d: Index)
    requires 2 <= n && |NumberEntries(ws, n)| <= |d| && d[..|NumberEntries(ws, n)|] == NumberEntries(ws, n)
    ensures |d| > 1 + |WordsFor(ws, 1)|
    ensures d[0] == Entry("1", 1)
    ensures d[1 + |WordsFor(ws, 1)|] == Entry("2", 2)
    ensures forall i :: 0 < i < 1 + |WordsFor(ws, 1)| ==> d[i] in ws && d[i].surah == 1
  {
    NumberEntriesPrefix(ws, 2, n);
    NumberEntriesTwo(ws);
    var w1 := WordsFor(ws, 1);
    var two := NumberEntries(ws, 2);
    assert d[..|two|] == two;
    assert forall i :: 0 <= i < |two| ==> d[i] == two[i];
    assert forall i :: 0 < i < 1 + |w1| ==> two[i] == w1[i - 1];
  }

  /** The scan meets "1" first, then the words worth 1, then "2". */
  lemma IndexStart()
    ensures |SurahNameIndex()| > 1 + |WordsFor(NUMBER_WORDS, 1)|
    ensures SurahNameIndex()[0] == Entry("1", 1)
    ensures SurahNameIndex()[1 + |WordsFor(NUMBER_WORDS, 1)|] == Entry("2", 2)
    ensures forall i :: 0 < i < 1 + |WordsFor(NUMBER_WORDS, 1)| ==> SurahNameIndex()[i] in NUMBER_WORDS && SurahNameIndex()[i].surah == 1
  {
    SurahNameIndexLayout();
    var p := NumberEntries(NUMBER_WORDS, SURAH_COUNT);
    assert SurahNameIndex()[..|p|] == p;
    NumberPartStart(NUMBER_WORDS, SURAH_COUNT, SurahNameIndex());
  }
}
