/**
 * Judging a recitation: how recognised chunks add up to the recitation of the current ayah, how
 * the recitation is compared with the reference text, and when the error buzz may sound again.
 */
module Recitation {
  import opened Wrappers
  import opened UnicodeText

  // ---------------------------------------------------------------------------------------------
  // Accumulation of recognised chunks.

  /** One step of the accumulation: a non-empty recitation gains " " and the chunk, an empty one
      becomes the chunk. */
  function Accumulate(acc: string, chunk: string): string
  {
    if acc != "" then acc + " " + chunk else chunk
  }

  /** The recitation after the chunks, in order, starting from an empty one. */
  function Accumulated(chunks: seq<string>): string
  {
    if chunks == [] then "" else Accumulate(Accumulated(chunks[..|chunks| - 1]), chunks[|chunks| - 1])
  }

  /** The words of each chunk, one after the other. */
  function WordsOfAll(t: CharTables, chunks: seq<string>): seq<string>
  {
    if chunks == [] then [] else WordsOfAll(t, chunks[..|chunks| - 1]) + Split(t, chunks[|chunks| - 1])
  }

  /** The separator never joins two words: the words of the accumulated text are those of the old
      text followed by those of the chunk. */
  lemma AccumulateWords(t: CharTables, acc: string, chunk: string)
    requires t.isSpace(' ')
    ensures Split(t, Accumulate(acc, chunk)) == Split(t, acc) + Split(t, chunk)
  {
    if acc != "" {
      assert acc + " " + chunk == acc + [' '] + chunk;
      RunsAroundSeparator(t, Word, acc, ' ', chunk);
    } else {
      RunsOfNothing(t, Word);
    }
  }

  /** The words of the whole recitation are the words of its chunks, in order: nothing is lost,
      merged or reordered, and empty chunks contribute nothing. */
  lemma {:induction false} AccumulatedWords(t: CharTables, chunks: seq<string>)
    requires t.isSpace(' ')
    ensures Split(t, Accumulated(chunks)) == WordsOfAll(t, chunks)
  {
    if chunks == [] {
      RunsOfNothing(t, Word);
    } else {
      AccumulatedWords(t, chunks[..|chunks| - 1]);
      AccumulateWords(t, Accumulated(chunks[..|chunks| - 1]), chunks[|chunks| - 1]);
    }
  }

  /** So the collapsed recitation is the chunks' words joined by single spaces. */
  lemma CollapseAccumulated(t: CharTables, chunks: seq<string>)
    requires t.isSpace(' ')
    ensures Collapse(t, Accumulated(chunks)) == Join(WordsOfAll(t, chunks))
  {
    AccumulatedWords(t, chunks);
  }

  // ---------------------------------------------------------------------------------------------
  // Comparison with the reference text.

  /** SequenceMatcher(None, a, b): the number of characters its matching blocks cover. */
  type Matcher = (string, string) -> nat

  datatype Verdict =
    | TooShort                            // fewer than three characters recited: no feedback
    | Low(matched: nat, total: nat)       // similarity below 80%
    | High(matched: nat, total: nat)      // similarity of at least 80%

  /** `ratio() * 100 < 80`, where ratio() is 2*M/T (1.0 when T is 0), in integers. */
  predicate BelowThreshold(matched: nat, total: nat)
  {
    200 * matched < 80 * total
  }

  /** The ratio difflib reports. */
  function Ratio(matched: nat, total: nat): real
  {
    if total == 0 then 1.0 else (2 * matched) as real / total as real
  }

  /** The integer test is the percentage test. */
  lemma ThresholdIsRatio(matched: nat, total: nat)
    ensures BelowThreshold(matched, total) <==> Ratio(matched, total) * 100.0 < 80.0
  {
    if total > 0 {
      var tr := total as real;
      var m2 := (2 * matched) as real;
      var r := m2 / tr;
      assert Ratio(matched, total) == r;
      PercentScaled(m2, tr);
      assert (200 * matched) as real == 100.0 * m2;
      assert (80 * total) as real == 80.0 * tr;
    }
  }

  /** 100 * (a / c) < 80 exactly when 100 * a < 80 * c, for a positive c. */
  lemma PercentScaled(a: real, c: real)
    requires c > 0.0
    ensures (a / c) * 100.0 < 80.0 <==> 100.0 * a < 80.0 * c
  {
    var r := a / c;
    assert r * c == a;
    assert (r * 100.0) * c == 100.0 * a;
    ScaleLess(r * 100.0, 80.0, c);
  }

  lemma ScaleLess(x: real, y: real, c: real)
    requires c > 0.0
    ensures x < y <==> x * c < y * c
  {
    assert (y - x) * c == y * c - x * c;
  }

  /** What compareRecitation decides for the reference `correct` and the recitation `recited`. */
  function Judge(t: CharTables, matcher: Matcher, correct: string, recited: string): Verdict
  {
    var normalizedCorrect := Normalize(t, correct);
    var normalizedRecited := Normalize(t, recited);
    var matched := matcher(normalizedCorrect, normalizedRecited);
    var total := |normalizedCorrect| + |normalizedRecited|;
    if |Strip(t, normalizedRecited)| < 3 then TooShort
    else if BelowThreshold(matched, total) then Low(matched, total)
    else High(matched, total)
  }

  /** Whether a recitation is too short depends on the recitation alone, and on tables whose
      lower-casing keeps the layout `.strip()` has nothing left to cut: it is fewer than three
      normalised characters. */
  lemma JudgeTooShort(t: CharTables, matcher: Matcher, correct: string, recited: string)
    requires LowerKeepsLayout(t)
    ensures Judge(t, matcher, correct, recited).TooShort? <==> |Normalize(t, recited)| < 3
  {
    NormalizedIsCollapsed(t, recited);
  }

  /** Otherwise the verdict follows the percentage difflib reports on the normalised texts. */
  lemma JudgeByRatio(t: CharTables, matcher: Matcher, correct: string, recited: string)
    ensures var v := Judge(t, matcher, correct, recited);
            !v.TooShort? ==>
              && v.matched == matcher(Normalize(t, correct), Normalize(t, recited))
              && v.total == |Normalize(t, correct)| + |Normalize(t, recited)|
              && (v.Low? <==> Ratio(v.matched, v.total) * 100.0 < 80.0)
  {
    var nc, nr := Normalize(t, correct), Normalize(t, recited);
    ThresholdIsRatio(matcher(nc, nr), |nc| + |nr|);
  }

  /** Judging is insensitive to how the recitation was split into chunks and to the whitespace
      between them: two recitations with the same words get the same verdict. */
  lemma JudgeSeesWords(t: CharTables, matcher: Matcher, correct: string, a: string, b: string)
    requires Split(t, DropCombining(t, Decompose(t, a))) == Split(t, DropCombining(t, Decompose(t, b)))
    ensures Judge(t, matcher, correct, a) == Judge(t, matcher, correct, b)
  {
  }

  /** What normalizeArabic gives to the whitespace collapse: the NFKD text without combining marks. */
  function Filtered(t: CharTables, s: string): string
  {
    DropCombining(t, Decompose(t, s))
  }

  /** The filtered text of each chunk. */
  function FilterEach(t: CharTables, chunks: seq<string>): (r: seq<string>)
    ensures |r| == |chunks|
  {
    if chunks == [] then [] else FilterEach(t, chunks[..|chunks| - 1]) + [Filtered(t, chunks[|chunks| - 1])]
  }

  /** Tables under which the separator " " is decomposed to itself and is no combining mark, as in
      Unicode. */
  predicate PlainSpace(t: CharTables)
  {
    t.isSpace(' ') && t.decompose(' ') == [' '] && !t.combining(' ')
  }

  /** Filtering goes through the separator the accumulation inserts. */
  lemma FilteredSeparated(t: CharTables, a: string, b: string)
    requires PlainSpace(t)
    ensures Filtered(t, a + " " + b) == Filtered(t, a) + [' '] + Filtered(t, b)
  {
    var sp: string := [' '];
    assert a + " " + b == a + sp + b;
    var none: string := [];
    assert sp[1..] == none && sp[0] == ' ';
    assert Decompose(t, sp) == t.decompose(' ') + Decompose(t, none) == sp;
    assert DropCombining(t, sp) == sp + DropCombining(t, none) == sp;
    DecomposeConcat(t, a + sp, b);
    DecomposeConcat(t, a, sp);
    DropCombiningConcat(t, Decompose(t, a) + sp, Decompose(t, b));
    DropCombiningConcat(t, Decompose(t, a), sp);
  }

  /** The words the comparison sees in the whole recitation are the filtered chunks' words, in
      order, however the chunks were cut. */
  lemma {:induction false} FilteredWords(t: CharTables, chunks: seq<string>)
    requires PlainSpace(t)
    ensures Split(t, Filtered(t, Accumulated(chunks))) == WordsOfAll(t, FilterEach(t, chunks))
  {
    if chunks == [] {
      assert Filtered(t, "") == [];
      RunsOfNothing(t, Word);
    } else {
      var p, c := chunks[..|chunks| - 1], chunks[|chunks| - 1];
      FilteredWords(t, p);
      var fs := FilterEach(t, chunks);
      assert fs[..|fs| - 1] == FilterEach(t, p) && fs[|fs| - 1] == Filtered(t, c);
      var acc := Accumulated(p);
      if acc != "" {
        FilteredSeparated(t, acc, c);
        RunsAroundSeparator(t, Word, Filtered(t, acc), ' ', Filtered(t, c));
      } else {
        assert Filtered(t, acc) == [];
        RunsOfNothing(t, Word);
      }
    }
  }

  /** Judging is insensitive to how the recitation was cut into chunks and to the whitespace
      around them: two series of chunks whose filtered words agree get the same verdict. */
  lemma JudgeSeesChunkWords(t: CharTables, matcher: Matcher, correct: string, xs: seq<string>, ys: seq<string>)
    requires PlainSpace(t)
    requires WordsOfAll(t, FilterEach(t, xs)) == WordsOfAll(t, FilterEach(t, ys))
    ensures Judge(t, matcher, correct, Accumulated(xs)) == Judge(t, matcher, correct, Accumulated(ys))
  {
    FilteredWords(t, xs);
    FilteredWords(t, ys);
    JudgeSeesWords(t, matcher, correct, Accumulated(xs), Accumulated(ys));
  }

  // ---------------------------------------------------------------------------------------------
  // The error buzz.

  /** `not hasattr(self, '_lastBuzzTime') or (now - self._lastBuzzTime) > 2`. */
  predicate BuzzDue(lastBuzz: Option<real>, now: real)
  {
    lastBuzz.None? || now - lastBuzz.value > 2.0
  }

  function LastTime(times: seq<real>): Option<real>
  {
    if times == [] then None else Some(times[|times| - 1])
  }

  /** Consecutive buzzes are more than two seconds apart. */
  predicate Spaced(times: seq<real>)
  {
    forall i :: 0 <= i < |times| - 1 ==> times[i + 1] - times[i] > 2.0
  }

  /** A buzz stamped no earlier than the check that allowed it keeps the buzzes spaced. */
  lemma DebounceKeepsSpacing(times: seq<real>, check: real, stamp: real)
    requires Spaced(times)
    requires stamp >= check
    requires BuzzDue(LastTime(times), check)
    ensures Spaced(times + [stamp])
  {
    var s := times + [stamp];
    forall i | 0 <= i < |s| - 1 ensures s[i + 1] - s[i] > 2.0 {
      if i < |times| - 1 {
        assert s[i] == times[i] && s[i + 1] == times[i + 1];
      } else {
        assert s[i] == times[|times| - 1] && s[i + 1] == stamp;
      }
    }
  }

  /** Spaced buzzes are pairwise more than two seconds apart, and further the more buzzes lie
      between them. */
  lemma {:induction false} SpacedPairwise(times: seq<real>, i: int, j: int)
    requires Spaced(times)
    requires 0 <= i < j < |times|
    ensures times[j] - times[i] > 2.0 * (j - i) as real
    decreases j - i
  {
    if j > i + 1 {
      SpacedPairwise(times, i, j - 1);
      assert times[j] - times[j - 1] > 2.0;
    }
  }
}
