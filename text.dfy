/**
 * Text handling beneath the practice loop: the Unicode tables the program consults, the normalisation
 * applied before a recitation is compared with the reference text (`normalizeArabic`), Python's
 * whitespace `split()`/`strip()` and the `\d+` digit runs, and substring containment (`in` on strings).
 *
 * The Unicode tables are left uninterpreted: they arrive as a value of `CharTables`, so every fact
 * proved here holds for any tables, and facts that need a property of the real tables say so.
 */
module UnicodeText {
  import opened Wrappers

  /** The parts of the Unicode character database the program relies on, one code point at a time. */
  datatype CharTables = CharTables(
    decompose: char -> string,    // NFKD decomposition of one code point
    combining: char -> bool,      // unicodedata.combining(c) != 0
    isSpace: char -> bool,        // str.isspace(), which split() and strip() use
    lower: char -> string,        // str.lower() of one code point
    decimal: char -> Option<nat>  // the value of a character in category Nd: what `\d` matches and int() reads
  )

  /** The characters below U+0080 that Python's str.isspace() accepts. */
  predicate IsAsciiSpace(c: char)
  {
    c == ' ' || c == '\t' || c == '\n' || c == '\r' || c == '\U{B}' || c == '\U{C}' || '\U{1C}' <= c <= '\U{1F}'
  }

  function AsciiLower(c: char): char
  {
    if 'A' <= c <= 'Z' then (c as int + 32) as char else c
  }

  /** What the real tables say about the ASCII range, and that a decimal digit has a value below ten. */
  ghost predicate AsciiConventional(t: CharTables)
  {
    && (forall c: char :: c < '\U{80}' ==> t.decompose(c) == [c])
    && (forall c: char :: c < '\U{80}' ==> !t.combining(c))
    && (forall c: char :: c < '\U{80}' ==> (t.isSpace(c) <==> IsAsciiSpace(c)))
    && (forall c: char :: c < '\U{80}' ==> t.lower(c) == [AsciiLower(c)])
    && (forall c: char :: c < '\U{80}' ==> t.decimal(c) == if '0' <= c <= '9' then Some(c as int - '0' as int) else None)
    && (forall c: char :: t.decimal(c).Some? ==> t.decimal(c).value < 10)
  }

  // ---------------------------------------------------------------------------------------------
  // Containment: Python's `p in s` on strings.

  predicate OccursAt(p: string, s: string, k: int)
  {
    0 <= k && k + |p| <= |s| && s[k..k + |p|] == p
  }

  predicate IsSubstring(p: string, s: string)
  {
    exists k :: 0 <= k <= |s| - |p| && OccursAt(p, s, k)
  }

  /** A text none of whose characters is the first character of `p` does not contain `p`. */
  lemma NotSubstringByChar(p: string, s: string)
    requires p != [] && forall i :: 0 <= i < |s| ==> s[i] != p[0]
    ensures !IsSubstring(p, s)
  {
    forall k | 0 <= k <= |s| - |p| ensures !OccursAt(p, s, k) {
      assert s[k..k + |p|][0] == s[k] != p[0];
    }
  }

  // ---------------------------------------------------------------------------------------------
  // Maximal runs: str.split() cuts text into runs of non-whitespace, re.findall(r'\d+') into runs
  // of decimal digits.

  datatype RunKind = Word | Digits

  predicate InRun(t: CharTables, kind: RunKind, c: char)
  {
    match kind
    case Word => !t.isSpace(c)
    case Digits => t.decimal(c).Some?
  }

  predicate IsRun(t: CharTables, kind: RunKind, w: string)
  {
    w != [] && forall i :: 0 <= i < |w| ==> InRun(t, kind, w[i])
  }

  /** The number of characters before the first run of `s`. */
  function GapLength(t: CharTables, kind: RunKind, s: string): (n: nat)
    ensures n <= |s|
    ensures forall i :: 0 <= i < n ==> !InRun(t, kind, s[i])
    ensures n < |s| ==> InRun(t, kind, s[n])
  {
    if s != [] && !InRun(t, kind, s[0]) then 1 + GapLength(t, kind, s[1..]) else 0
  }

  /** The length of the longest prefix of `s` that lies inside a run. */
  function RunLength(t: CharTables, kind: RunKind, s: string): (n: nat)
    ensures n <= |s|
    ensures forall i :: 0 <= i < n ==> InRun(t, kind, s[i])
    ensures n < |s| ==> !InRun(t, kind, s[n])
  {
    if s != [] && InRun(t, kind, s[0]) then 1 + RunLength(t, kind, s[1..]) else 0
  }

  /** The maximal runs of `s`, left to right. */
  function Runs(t: CharTables, kind: RunKind, s: string): (rs: seq<string>)
    ensures forall k :: 0 <= k < |rs| ==> IsRun(t, kind, rs[k])
    decreases |s|
  {
    var rest := s[GapLength(t, kind, s)..];
    if rest == [] then []
    else
      var n := RunLength(t, kind, rest);
      [rest[..n]] + Runs(t, kind, rest[n..])
  }

  /** The characters of `s` that lie inside runs, in order. */
  function Keep(t: CharTables, kind: RunKind, s: string): string
  {
    if s == [] then [] else (if InRun(t, kind, s[0]) then [s[0]] else []) + Keep(t, kind, s[1..])
  }

  function Concat(ws: seq<string>): string
  {
    if ws == [] then [] else ws[0] + Concat(ws[1..])
  }

  lemma {:induction false} KeepAppend(t: CharTables, kind: RunKind, a: string, b: string)
    ensures Keep(t, kind, a + b) == Keep(t, kind, a) + Keep(t, kind, b)
  {
    if a != [] {
      var head := if InRun(t, kind, a[0]) then [a[0]] else [];
      assert (a + b)[0] == a[0] && (a + b)[1..] == a[1..] + b;
      KeepAppend(t, kind, a[1..], b);
      calc {
        Keep(t, kind, a + b);
        head + Keep(t, kind, a[1..] + b);
        head + (Keep(t, kind, a[1..]) + Keep(t, kind, b));
        (head + Keep(t, kind, a[1..])) + Keep(t, kind, b);
        Keep(t, kind, a) + Keep(t, kind, b);
      }
    } else {
      assert a + b == b;
    }
  }

  lemma {:induction false} KeepGap(t: CharTables, kind: RunKind, s: string)
    requires forall i :: 0 <= i < |s| ==> !InRun(t, kind, s[i])
    ensures Keep(t, kind, s) == []
  {
    if s != [] {
      KeepGap(t, kind, s[1..]);
    }
  }

  lemma {:induction false} KeepRun(t: CharTables, kind: RunKind, s: string)
    requires forall i :: 0 <= i < |s| ==> InRun(t, kind, s[i])
    ensures Keep(t, kind, s) == s
  {
    if s != [] {
      KeepRun(t, kind, s[1..]);
      assert [s[0]] + s[1..] == s;
    }
  }

  /** Cutting text into runs loses no character that belongs to a run and invents none. */
  lemma {:induction false} RunsKeepText(t: CharTables, kind: RunKind, s: string)
    ensures Concat(Runs(t, kind, s)) == Keep(t, kind, s)
    decreases |s|
  {
    var rest := s[GapLength(t, kind, s)..];
    KeepSkipsGap(t, kind, s);
    if rest == [] {
      assert Runs(t, kind, s) == [];
    } else {
      var n := RunLength(t, kind, rest);
      KeepSplitsRun(t, kind, rest);
      RunsKeepText(t, kind, rest[n..]);
      ConcatCons(rest[..n], Runs(t, kind, rest[n..]));
    }
  }

  lemma KeepSkipsGap(t: CharTables, kind: RunKind, s: string)
    ensures Keep(t, kind, s) == Keep(t, kind, s[GapLength(t, kind, s)..])
  {
    var g := GapLength(t, kind, s);
    assert s == s[..g] + s[g..];
    KeepAppend(t, kind, s[..g], s[g..]);
    KeepGap(t, kind, s[..g]);
  }

  lemma KeepSplitsRun(t: CharTables, kind: RunKind, s: string)
    ensures var n := RunLength(t, kind, s); Keep(t, kind, s) == s[..n] + Keep(t, kind, s[n..])
  {
    var n := RunLength(t, kind, s);
    assert s == s[..n] + s[n..];
    KeepAppend(t, kind, s[..n], s[n..]);
    KeepRun(t, kind, s[..n]);
  }

  lemma ConcatCons(w: string, ws: seq<string>)
    ensures Concat([w] + ws) == w + Concat(ws)
  {
    assert ([w] + ws)[1..] == ws;
  }

  /** A leading run followed by a character outside runs (or by nothing) is measured exactly. */
  lemma {:induction false} RunLengthOfPrefix(t: CharTables, kind: RunKind, w: string, y: string)
    requires forall i :: 0 <= i < |w| ==> InRun(t, kind, w[i])
    requires y == [] || !InRun(t, kind, y[0])
    ensures RunLength(t, kind, w + y) == |w|
    decreases |w|
  {
    if w != [] {
      assert (w + y)[1..] == w[1..] + y;
      RunLengthOfPrefix(t, kind, w[1..], y);
    } else {
      assert w + y == y;
    }
  }

  /** The first run of `s` occurs in `s`. */
  lemma FirstRunOccurs(t: CharTables, kind: RunKind, s: string)
    requires Runs(t, kind, s) != []
    ensures OccursAt(Runs(t, kind, s)[0], s, GapLength(t, kind, s))
  {
    var g := GapLength(t, kind, s);
    var n := RunLength(t, kind, s[g..]);
    FirstRunUnfolds(t, kind, s);
    OccursAsSlice(Runs(t, kind, s)[0], s, g, n);
  }

  lemma FirstRunUnfolds(t: CharTables, kind: RunKind, s: string)
    requires Runs(t, kind, s) != []
    ensures var rest := s[GapLength(t, kind, s)..];
            Runs(t, kind, s)[0] == rest[..RunLength(t, kind, rest)]
  {
  }

  lemma OccursAsSlice(p: string, s: string, g: nat, n: nat)
    requires g + n <= |s| && p == s[g..][..n]
    ensures OccursAt(p, s, g)
  {
    assert s[g..][..n] == s[g..g + n];
  }

  lemma {:induction false} GapLengthOfPrefix(t: CharTables, kind: RunKind, p: string, x: string)
    requires forall i :: 0 <= i < |p| ==> !InRun(t, kind, p[i])
    ensures GapLength(t, kind, p + x) == |p| + GapLength(t, kind, x)
    decreases |p|
  {
    if p != [] {
      assert (p + x)[1..] == p[1..] + x;
      GapLengthOfPrefix(t, kind, p[1..], x);
    } else {
      assert p + x == x;
    }
  }

  /** Characters outside runs in front of a text add no run. */
  lemma RunsSkipGap(t: CharTables, kind: RunKind, p: string, x: string)
    requires forall i :: 0 <= i < |p| ==> !InRun(t, kind, p[i])
    ensures Runs(t, kind, p + x) == Runs(t, kind, x)
  {
    GapLengthOfPrefix(t, kind, p, x);
    var g := GapLength(t, kind, x);
    var rest := x[g..];
    assert (p + x)[GapLength(t, kind, p + x)..] == rest;
    if rest != [] {
      var n := RunLength(t, kind, rest);
      assert Runs(t, kind, x) == [rest[..n]] + Runs(t, kind, rest[n..]);
    }
  }

  /** A run ended by a character outside runs (or by the end) is the first run. */
  lemma RunsAfterRun(t: CharTables, kind: RunKind, w: string, y: string)
    requires IsRun(t, kind, w)
    requires y == [] || !InRun(t, kind, y[0])
    ensures Runs(t, kind, w + y) == [w] + Runs(t, kind, y)
  {
    assert (w + y)[0] == w[0];
    assert GapLength(t, kind, w + y) == 0;
    RunLengthOfPrefix(t, kind, w, y);
    assert (w + y)[0..] == w + y;
    assert (w + y)[..|w|] == w;
    assert (w + y)[|w|..] == y;
  }

  /** Two texts glued by one character outside runs have the runs of the first, then those of the
      second: the separator neither merges two runs nor adds one. */
  lemma {:induction false} RunsAroundSeparator(t: CharTables, kind: RunKind, a: string, sep: char, b: string)
    requires !InRun(t, kind, sep)
    ensures Runs(t, kind, a + [sep] + b) == Runs(t, kind, a) + Runs(t, kind, b)
    decreases |a|, 2
  {
    var g := GapLength(t, kind, a);
    var gap, a' := a[..g], a[g..];
    calc {
      Runs(t, kind, a + [sep] + b);
      { assert a + [sep] + b == gap + (a' + [sep] + b); }
      Runs(t, kind, gap + (a' + [sep] + b));
      { RunsSkipGap(t, kind, gap, a' + [sep] + b); }
      Runs(t, kind, a' + [sep] + b);
      { RunsFromRunAroundSeparator(t, kind, a', sep, b); }
      Runs(t, kind, a') + Runs(t, kind, b);
      { assert a == gap + a'; RunsSkipGap(t, kind, gap, a'); }
      Runs(t, kind, a) + Runs(t, kind, b);
    }
  }

  lemma {:induction false} RunsFromRunAroundSeparator(t: CharTables, kind: RunKind, a: string, sep: char, b: string)
    requires !InRun(t, kind, sep)
    requires a != [] ==> InRun(t, kind, a[0])
    ensures Runs(t, kind, a + [sep] + b) == Runs(t, kind, a) + Runs(t, kind, b)
    decreases |a|, 1
  {
    if a == [] {
      SeparatorFirst(t, kind, sep, b);
      assert a + [sep] + b == [sep] + b;
    } else if RunLength(t, kind, a) == |a| {
      RunEndsAtSeparator(t, kind, a, sep, b);
    } else {
      LongRunAroundSeparator(t, kind, a, sep, b);
    }
  }

  lemma {:induction false} LongRunAroundSeparator(t: CharTables, kind: RunKind, a: string, sep: char, b: string)
    requires !InRun(t, kind, sep)
    requires a != [] && InRun(t, kind, a[0]) && RunLength(t, kind, a) < |a|
    ensures Runs(t, kind, a + [sep] + b) == Runs(t, kind, a) + Runs(t, kind, b)
    decreases |a|, 0
  {
    var n := RunLength(t, kind, a);
    RunSplits(t, kind, a);
    RunsAroundSeparator(t, kind, a[n..], sep, b);
    RunBeforeSeparator(t, kind, a, n, sep, b);
  }

  /** A run in front of text that starts outside runs adds itself, and only itself, to the runs. */
  lemma RunBeforeSeparator(t: CharTables, kind: RunKind, a: string, n: nat, sep: char, b: string)
    requires n < |a| && IsRun(t, kind, a[..n]) && a[n..] != [] && !InRun(t, kind, a[n..][0])
    requires Runs(t, kind, a[n..] + [sep] + b) == Runs(t, kind, a[n..]) + Runs(t, kind, b)
    ensures Runs(t, kind, a + [sep] + b) == Runs(t, kind, a) + Runs(t, kind, b)
  {
    var w, rest := a[..n], a[n..];
    var tail := rest + [sep] + b;
    assert tail[0] == rest[0];
    RunThenMore(t, kind, w, rest, tail);
    SplitGlue(a, n, sep, b);
    calc {
      Runs(t, kind, a + [sep] + b);
      Runs(t, kind, w + tail);
      [w] + Runs(t, kind, tail);
      [w] + (Runs(t, kind, rest) + Runs(t, kind, b));
      { RunsAssociate([w], Runs(t, kind, rest), Runs(t, kind, b)); }
      ([w] + Runs(t, kind, rest)) + Runs(t, kind, b);
      Runs(t, kind, w + rest) + Runs(t, kind, b);
      Runs(t, kind, a) + Runs(t, kind, b);
    }
  }

  lemma SplitGlue(a: string, n: nat, sep: char, b: string)
    requires n <= |a|
    ensures a + [sep] + b == a[..n] + (a[n..] + [sep] + b)
    ensures a == a[..n] + a[n..]
  {
  }

  lemma RunsAssociate(x: seq<string>, y: seq<string>, z: seq<string>)
    ensures x + (y + z) == (x + y) + z
  {
  }

  lemma RunSplits(t: CharTables, kind: RunKind, a: string)
    requires a != [] && InRun(t, kind, a[0]) && RunLength(t, kind, a) < |a|
    ensures var n := RunLength(t, kind, a); IsRun(t, kind, a[..n]) && a[n..] != [] && !InRun(t, kind, a[n..][0])
  {
    var n := RunLength(t, kind, a);
    assert a[n..][0] == a[n];
  }

  lemma SeparatorFirst(t: CharTables, kind: RunKind, sep: char, b: string)
    requires !InRun(t, kind, sep)
    ensures Runs(t, kind, [sep] + b) == Runs(t, kind, []) + Runs(t, kind, b)
  {
    RunsSkipGap(t, kind, [sep], b);
    RunsOfNothing(t, kind);
  }

  lemma RunThenMore(t: CharTables, kind: RunKind, w: string, rest: string, tail: string)
    requires IsRun(t, kind, w) && rest != [] && !InRun(t, kind, rest[0])
    requires tail != [] && tail[0] == rest[0]
    ensures Runs(t, kind, w + tail) == [w] + Runs(t, kind, tail)
    ensures Runs(t, kind, w + rest) == [w] + Runs(t, kind, rest)
  {
    RunsAfterRun(t, kind, w, rest);
    RunsAfterRun(t, kind, w, tail);
  }

  lemma RunsOfNothing(t: CharTables, kind: RunKind)
    ensures Runs(t, kind, []) == []
  {
    var e: string := [];
    assert GapLength(t, kind, e) == 0;
    assert e[0..] == e;
  }

  lemma {:induction false} RunEndsAtSeparator(t: CharTables, kind: RunKind, w: string, sep: char, b: string)
    requires !InRun(t, kind, sep) && IsRun(t, kind, w)
    ensures Runs(t, kind, w + [sep] + b) == Runs(t, kind, w) + Runs(t, kind, b)
  {
    var tail := [sep] + b;
    RunsSkipGap(t, kind, [sep], b);
    assert w + [sep] + b == w + tail;
    RunsAfterRun(t, kind, w, tail);
    assert Runs(t, kind, w + [sep] + b) == [w] + Runs(t, kind, b);
    RunsAfterRun(t, kind, w, []);
    RunsOfNothing(t, kind);
    assert w + [] == w;
    assert Runs(t, kind, w) == [w];
  }

  // ---------------------------------------------------------------------------------------------
  // Whitespace: split(), ' '.join(...), strip().

  /** Python's `s.split()`: the maximal runs of non-whitespace characters. */
  function Split(t: CharTables, s: string): seq<string>
  {
    Runs(t, Word, s)
  }

  /** Python's `' '.join(ws)`. */
  function Join(ws: seq<string>): string
  {
    if ws == [] then "" else if |ws| == 1 then ws[0] else ws[0] + " " + Join(ws[1..])
  }

  /** Python's `' '.join(s.split())`. */
  function Collapse(t: CharTables, s: string): string
  {
    Join(Split(t, s))
  }

  /** The length of `s` once its trailing whitespace is cut away. */
  function KeptLength(t: CharTables, s: string): (n: nat)
    ensures n <= |s|
    ensures forall i :: n <= i < |s| ==> t.isSpace(s[i])
    ensures n > 0 ==> !t.isSpace(s[n - 1])
  {
    if s != [] && t.isSpace(s[|s| - 1]) then KeptLength(t, s[..|s| - 1]) else |s|
  }

  /** Python's `s.strip()`: the slice of `s` between its leading and its trailing whitespace. */
  function Strip(t: CharTables, s: string): (r: string)
    ensures OccursAt(r, s, GapLength(t, Word, s))
    ensures forall i :: 0 <= i < GapLength(t, Word, s) ==> t.isSpace(s[i])
    ensures forall i :: GapLength(t, Word, s) + |r| <= i < |s| ==> t.isSpace(s[i])
    ensures r != [] ==> !t.isSpace(r[0]) && !t.isSpace(r[|r| - 1])
  {
    var g := GapLength(t, Word, s);
    var n := KeptLength(t, s[g..]);
    assert s[g..][..n] == s[g..g + n];
    s[g..][..n]
  }

  /** A word has nothing to strip. */
  lemma StripWord(t: CharTables, s: string)
    requires IsRun(t, Word, s)
    ensures Strip(t, s) == s
  {
    assert GapLength(t, Word, s) == 0;
    assert s[0..] == s;
    assert KeptLength(t, s) == |s|;
  }

  /** Blank text strips to nothing. */
  lemma StripBlank(t: CharTables, s: string)
    requires forall i :: 0 <= i < |s| ==> t.isSpace(s[i])
    ensures Strip(t, s) == []
  {
    var g := GapLength(t, Word, s);
    assert g == |s|;
  }

  /** Text that starts with non-whitespace and contains `x` keeps `x` when stripped. */
  lemma StripKeepsWord(t: CharTables, x: string, s: string, k: int)
    requires IsRun(t, Word, x) && OccursAt(x, s, k)
    ensures IsSubstring(x, Strip(t, s))
  {
    var g := GapLength(t, Word, s);
    var r := Strip(t, s);
    assert s[k] == x[0] && InRun(t, Word, x[0]);
    assert s[k + |x| - 1] == x[|x| - 1] && InRun(t, Word, x[|x| - 1]);
    assert InRun(t, Word, s[k]) && !t.isSpace(s[k + |x| - 1]);
    assert g <= k;
    assert k + |x| <= g + |r|;
    OccursInside(x, r, s, g, k);
  }

  /** An occurrence inside the part of `s` where `r` occurs is an occurrence in `r`. */
  lemma OccursInside(x: string, r: string, s: string, g: int, k: int)
    requires OccursAt(r, s, g) && OccursAt(x, s, k) && g <= k && k + |x| <= g + |r|
    ensures OccursAt(x, r, k - g)
  {
    forall i | 0 <= i < |x| ensures r[k - g + i] == x[i] {
      assert r[k - g + i] == s[g..g + |r|][k - g + i] == s[k + i];
      assert x[i] == s[k..k + |x|][i];
    }
    assert r[k - g..k - g + |x|] == x;
  }

  /** Whitespace-collapsed text: the only whitespace is a single ' ' between two other characters. */
  ghost predicate Collapsed(t: CharTables, s: string)
  {
    forall i :: 0 <= i < |s| && t.isSpace(s[i]) ==>
      s[i] == ' ' && 0 < i < |s| - 1 && !t.isSpace(s[i - 1]) && !t.isSpace(s[i + 1])
  }

  /** A word on its own splits into itself. */
  lemma SplitWord(t: CharTables, w: string)
    requires IsRun(t, Word, w)
    ensures Split(t, w) == [w]
  {
    RunLengthOfPrefix(t, Word, w, []);
    assert w + [] == w;
    assert GapLength(t, Word, w) == 0;
    assert w[0..] == w && w[..|w|] == w;
    assert w[|w|..] == [];
    assert GapLength(t, Word, []) == 0;
    assert Runs(t, Word, []) == [];
  }

  /** Leading whitespace before a word does not change the split. */
  lemma SplitAfterSpace(t: CharTables, rest: string)
    requires t.isSpace(' ')
    requires rest == [] || !t.isSpace(rest[0])
    ensures Split(t, " " + rest) == Split(t, rest)
  {
    assert (" " + rest)[1..] == rest;
    assert GapLength(t, Word, rest) == 0;
    assert GapLength(t, Word, " " + rest) == 1;
    assert (" " + rest)[1..] == rest[0..];
  }

  /** Text that starts with a word is split into that word and the split of what follows the next ' '. */
  lemma SplitCons(t: CharTables, w: string, rest: string)
    requires t.isSpace(' ') && IsRun(t, Word, w)
    requires rest == [] || !t.isSpace(rest[0])
    ensures Split(t, w + " " + rest) == [w] + Split(t, rest)
  {
    var s := w + " " + rest;
    assert s == w + (" " + rest);
    RunLengthOfPrefix(t, Word, w, " " + rest);
    assert GapLength(t, Word, s) == 0;
    assert s[0..] == s;
    assert s[..|w|] == w;
    assert s[|w|..] == " " + rest;
    SplitAfterSpace(t, rest);
  }

  /** Splitting the joined words gives the words back. */
  lemma {:induction false} SplitJoin(t: CharTables, ws: seq<string>)
    requires t.isSpace(' ')
    requires forall k :: 0 <= k < |ws| ==> IsRun(t, Word, ws[k])
    ensures Split(t, Join(ws)) == ws
  {
    if |ws| == 1 {
      SplitWord(t, ws[0]);
    } else if |ws| > 1 {
      var j := Join(ws[1..]);
      SplitJoin(t, ws[1..]);
      assert j[0] == ws[1][0];
      SplitCons(t, ws[0], j);
    }
  }

  /** A word, a ' ' and collapsed text that starts with a word make collapsed text. */
  lemma CollapsedCons(t: CharTables, w: string, j: string)
    requires IsRun(t, Word, w) && Collapsed(t, j) && j != [] && !t.isSpace(j[0])
    ensures Collapsed(t, w + " " + j)
  {
    var s := w + " " + j;
    assert forall i :: 0 <= i < |w| ==> s[i] == w[i];
    assert forall i :: |w| < i < |s| ==> s[i] == j[i - |w| - 1];
    forall i | |w| <= i < |s| && t.isSpace(s[i])
      ensures s[i] == ' ' && 0 < i < |s| - 1 && !t.isSpace(s[i - 1]) && !t.isSpace(s[i + 1])
    {
      if i == |w| {
        assert s[i - 1] == w[|w| - 1] && s[i + 1] == j[0];
      } else {
        assert i - |w| - 1 > 0 ==> s[i - 1] == j[i - |w| - 2];
        assert i + 1 < |s| ==> s[i + 1] == j[i - |w|];
      }
    }
  }

  /** Joining words with ' ' gives collapsed text. */
  lemma {:induction false} JoinCollapsed(t: CharTables, ws: seq<string>)
    requires forall k :: 0 <= k < |ws| ==> IsRun(t, Word, ws[k])
    ensures Collapsed(t, Join(ws))
  {
    if |ws| >= 2 {
      JoinCollapsed(t, ws[1..]);
      assert Join(ws[1..])[0] == ws[1][0];
      CollapsedCons(t, ws[0], Join(ws[1..]));
    }
  }

  /** Collapsed text that does not end at its first word continues, after one ' ', with collapsed text. */
  lemma CollapsedTail(t: CharTables, s: string) returns (n: nat)
    requires Collapsed(t, s) && s != []
    ensures n == RunLength(t, Word, s) && n > 0
    ensures n < |s| ==> n + 1 < |s| && s == s[..n] + " " + s[n + 1..] && Collapsed(t, s[n + 1..]) && !t.isSpace(s[n + 1])
  {
    n := RunLength(t, Word, s);
    if n < |s| {
      var rest := s[n + 1..];
      forall i | 0 <= i < |rest| && t.isSpace(rest[i])
        ensures rest[i] == ' ' && 0 < i < |rest| - 1 && !t.isSpace(rest[i - 1]) && !t.isSpace(rest[i + 1])
      {
        assert rest[i] == s[n + 1 + i];
      }
      assert s == s[..n] + [s[n]] + rest;
    }
  }

  /** Collapsing leaves collapsed text unchanged. */
  lemma {:induction false} CollapseFixesCollapsed(t: CharTables, s: string)
    requires t.isSpace(' ') && Collapsed(t, s)
    ensures Collapse(t, s) == s
    decreases |s|
  {
    if s != [] {
      var n := CollapsedTail(t, s);
      var w := s[..n];
      assert IsRun(t, Word, w);
      if n == |s| {
        assert w == s;
        SplitWord(t, w);
      } else {
        var rest := s[n + 1..];
        CollapseFixesCollapsed(t, rest);
        SplitCons(t, w, rest);
        assert Split(t, rest) != [];
      }
    }
  }

  lemma CollapseIsCollapsed(t: CharTables, s: string)
    ensures Collapsed(t, Collapse(t, s))
  {
    JoinCollapsed(t, Split(t, s));
  }

  /** The text that ' '.join(s.split()) leaves alone is exactly the collapsed text. */
  lemma CollapseFixpoints(t: CharTables, s: string)
    requires t.isSpace(' ')
    ensures Collapse(t, s) == s <==> Collapsed(t, s)
  {
    CollapseIsCollapsed(t, s);
    if Collapsed(t, s) {
      CollapseFixesCollapsed(t, s);
    }
  }

  /** Collapsing twice is collapsing once. */
  lemma CollapseIdempotent(t: CharTables, s: string)
    requires t.isSpace(' ')
    ensures Collapse(t, Collapse(t, s)) == Collapse(t, s)
  {
    CollapseIsCollapsed(t, s);
    CollapseFixesCollapsed(t, Collapse(t, s));
  }

  lemma {:induction false} JoinKeep(t: CharTables, ws: seq<string>)
    requires t.isSpace(' ')
    requires forall k :: 0 <= k < |ws| ==> IsRun(t, Word, ws[k])
    ensures Keep(t, Word, Join(ws)) == Concat(ws)
  {
    if |ws| == 1 {
      KeepRun(t, Word, ws[0]);
      assert Concat(ws[1..]) == [];
      assert ws[0] + [] == ws[0];
    } else if |ws| > 1 {
      JoinKeep(t, ws[1..]);
      KeepRun(t, Word, ws[0]);
      var j := Join(ws[1..]);
      assert ws[0] + " " + j == ws[0] + (" " + j);
      KeepAppend(t, Word, ws[0], " " + j);
      KeepAppend(t, Word, " ", j);
      assert Keep(t, Word, " ") == [];
    }
  }

  /** Collapsing keeps every non-whitespace character, in order, and nothing else. */
  lemma CollapseKeepsText(t: CharTables, s: string)
    requires t.isSpace(' ')
    ensures Keep(t, Word, Collapse(t, s)) == Keep(t, Word, s)
  {
    RunsKeepText(t, Word, s);
    JoinKeep(t, Split(t, s));
  }

  /** Stripping collapsed text changes nothing. */
  lemma StripCollapsed(t: CharTables, s: string)
    requires Collapsed(t, s)
    ensures Strip(t, s) == s
  {
    if s != [] {
      assert !t.isSpace(s[0]) && !t.isSpace(s[|s| - 1]);
      assert GapLength(t, Word, s) == 0;
      assert KeptLength(t, s) == |s|;
    }
  }

  // ---------------------------------------------------------------------------------------------
  // Normalisation: NFKD, drop combining marks, collapse whitespace, lower-case.

  /** The full compatibility decomposition of every code point, concatenated. This is
      unicodedata.normalize('NFKD', s) without its canonical reordering, which only permutes marks
      of non-zero combining class; `DropCombining` then removes all of those, so
      `DropCombining(t, Decompose(t, s))` is exactly the filtered NFKD text, though `Decompose`
      alone is not NFKD. */
  function Decompose(t: CharTables, s: string): string
  {
    if s == [] then [] else t.decompose(s[0]) + Decompose(t, s[1..])
  }

  /** ''.join([c for c in s if not unicodedata.combining(c)]). */
  function DropCombining(t: CharTables, s: string): (r: string)
    ensures |r| <= |s|
    ensures forall i :: 0 <= i < |r| ==> !t.combining(r[i])
  {
    if s == [] then [] else (if t.combining(s[0]) then [] else [s[0]]) + DropCombining(t, s[1..])
  }

  /** s.lower(), code point by code point. */
  function Lower(t: CharTables, s: string): string
  {
    if s == [] then [] else t.lower(s[0]) + Lower(t, s[1..])
  }

  /** normalizeArabic. */
  function Normalize(t: CharTables, s: string): string
  {
    Lower(t, Collapse(t, DropCombining(t, Decompose(t, s))))
  }

  lemma {:induction false} LowerAppend(t: CharTables, a: string, b: string)
    ensures Lower(t, a + b) == Lower(t, a) + Lower(t, b)
  {
    if a != [] {
      assert (a + b)[1..] == a[1..] + b;
      LowerAppend(t, a[1..], b);
    } else {
      assert a + b == b;
    }
  }

  function LowerEach(t: CharTables, ws: seq<string>): (r: seq<string>)
    ensures |r| == |ws|
    ensures forall k :: 0 <= k < |ws| ==> r[k] == Lower(t, ws[k])
  {
    if ws == [] then [] else [Lower(t, ws[0])] + LowerEach(t, ws[1..])
  }

  /** Lower-casing turns whitespace into whitespace only, as Python's `str.lower` leaves every
      whitespace character as it is. */
  ghost predicate LowerKeepsSpaces(t: CharTables)
  {
    forall c: char :: t.isSpace(c) ==> forall d :: d in t.lower(c) ==> t.isSpace(d)
  }

  /** Under such tables a blank text lower-cases to a blank text. */
  lemma {:induction false} LowerOfBlank(t: CharTables, s: string)
    requires LowerKeepsSpaces(t)
    requires forall i :: 0 <= i < |s| ==> t.isSpace(s[i])
    ensures forall i :: 0 <= i < |Lower(t, s)| ==> t.isSpace(Lower(t, s)[i])
    decreases |s|
  {
    if s != [] {
      LowerOfBlank(t, s[1..]);
      var h, r := t.lower(s[0]), Lower(t, s[1..]);
      forall i | 0 <= i < |h + r| ensures t.isSpace((h + r)[i]) {
        if i < |h| {
          assert (h + r)[i] == h[i] && h[i] in h;
        } else {
          assert (h + r)[i] == r[i - |h|];
        }
      }
    }
  }

  /** Lower-casing keeps ' ' and turns every other character into non-whitespace characters. */
  ghost predicate LowerKeepsLayout(t: CharTables)
  {
    t.lower(' ') == [' '] && forall c: char :: !t.isSpace(c) ==> IsRun(t, Word, t.lower(c))
  }

  lemma {:induction false} LowerWord(t: CharTables, w: string)
    requires LowerKeepsLayout(t)
    requires forall i :: 0 <= i < |w| ==> !t.isSpace(w[i])
    ensures forall i :: 0 <= i < |Lower(t, w)| ==> !t.isSpace(Lower(t, w)[i])
    ensures w != [] ==> Lower(t, w) != []
  {
    if w != [] {
      LowerWord(t, w[1..]);
      var h := t.lower(w[0]);
      assert IsRun(t, Word, h);
      forall i | 0 <= i < |Lower(t, w)| ensures !t.isSpace(Lower(t, w)[i]) {
        if i >= |h| {
          assert Lower(t, w)[i] == Lower(t, w[1..])[i - |h|];
        }
      }
    }
  }

  lemma {:induction false} LowerJoin(t: CharTables, ws: seq<string>)
    requires t.lower(' ') == [' ']
    ensures Lower(t, Join(ws)) == Join(LowerEach(t, ws))
  {
    if |ws| >= 2 {
      LowerJoin(t, ws[1..]);
      var j := Join(ws[1..]);
      LowerAppend(t, ws[0] + " ", j);
      LowerAppend(t, ws[0], " ");
      assert Lower(t, " ") == [' '] + [];
      assert LowerEach(t, ws)[1..] == LowerEach(t, ws[1..]);
    }
  }

  /** When lower-casing keeps the layout, normalised text is collapsed: the `.strip()` applied
      before the length test is then a no-op. */
  lemma NormalizedIsCollapsed(t: CharTables, s: string)
    requires LowerKeepsLayout(t)
    ensures Collapsed(t, Normalize(t, s))
    ensures Strip(t, Normalize(t, s)) == Normalize(t, s)
  {
    var ws := Split(t, DropCombining(t, Decompose(t, s)));
    LowerJoin(t, ws);
    var lw := LowerEach(t, ws);
    forall k | 0 <= k < |lw| ensures IsRun(t, Word, lw[k]) {
      LowerWord(t, ws[k]);
    }
    JoinCollapsed(t, lw);
    StripCollapsed(t, Normalize(t, s));
  }

  /** A character that NFKD, the combining filter and lower-casing all leave alone. */
  ghost predicate Settled(t: CharTables, c: char)
  {
    t.decompose(c) == [c] && !t.combining(c) && t.lower(c) == [c]
  }

  ghost predicate LowerYieldsSettled(t: CharTables)
  {
    forall c: char, i :: 0 <= i < |t.lower(c)| ==> Settled(t, t.lower(c)[i])
  }

  lemma {:induction false} LowerOutputSettled(t: CharTables, s: string)
    requires LowerYieldsSettled(t)
    ensures forall i :: 0 <= i < |Lower(t, s)| ==> Settled(t, Lower(t, s)[i])
  {
    if s != [] {
      LowerOutputSettled(t, s[1..]);
      var h := t.lower(s[0]);
      forall i | 0 <= i < |Lower(t, s)| ensures Settled(t, Lower(t, s)[i]) {
        if i < |h| {
          assert Lower(t, s)[i] == h[i];
        } else {
          assert Lower(t, s)[i] == Lower(t, s[1..])[i - |h|];
        }
      }
    }
  }

  lemma {:induction false} SettledUnchanged(t: CharTables, x: string)
    requires forall i :: 0 <= i < |x| ==> Settled(t, x[i])
    ensures Decompose(t, x) == x && DropCombining(t, x) == x && Lower(t, x) == x
  {
    if x != [] {
      SettledUnchanged(t, x[1..]);
      assert [x[0]] + x[1..] == x;
    }
  }

  /** Normalising twice is normalising once for tables whose lower-casing only yields settled
      characters and keeps the whitespace layout. Nothing in the algorithm itself guarantees it
      (see NormalizeCanMoveAgain). */
  lemma NormalizeIdempotent(t: CharTables, s: string)
    requires t.isSpace(' ') && LowerKeepsLayout(t) && LowerYieldsSettled(t)
    ensures Normalize(t, Normalize(t, s)) == Normalize(t, s)
  {
    var x := Normalize(t, s);
    LowerOutputSettled(t, Collapse(t, DropCombining(t, Decompose(t, s))));
    SettledUnchanged(t, x);
    NormalizedIsCollapsed(t, s);
    CollapseFixesCollapsed(t, x);
  }

  /** Tables in which lower-casing 'X' yields "x" followed by a combining acute accent. */
  function AccentingTables(): CharTables
  {
    CharTables(c => [c], c => c == '\U{301}', c => c == ' ', c => if c == 'X' then ['x', '\U{301}'] else [c], c => None)
  }

  lemma NormalizeAccentingOnce()
    ensures Normalize(AccentingTables(), "X") == ['x', '\U{301}']
  {
    var t := AccentingTables();
    var x := "X";
    OneCharStages(t, 'X');
    assert x == ['X'];
    SplitWord(t, x);
    assert Collapse(t, x) == x;
  }

  lemma NormalizeAccentingTwice()
    ensures Normalize(AccentingTables(), ['x', '\U{301}']) == "x"
  {
    var t := AccentingTables();
    var once := ['x', '\U{301}'];
    OneCharStages(t, 'x');
    OneCharStages(t, '\U{301}');
    assert once == ['x'] + ['\U{301}'];
    DecomposeAppend(t, ['x'], ['\U{301}']);
    DropCombiningAppend(t, "x", ['\U{301}']);
    assert DropCombining(t, Decompose(t, once)) == "x";
    SplitWord(t, "x");
    assert Collapse(t, "x") == "x";
  }

  /** What each stage does to text of one character. */
  lemma OneCharStages(t: CharTables, c: char)
    ensures Decompose(t, [c]) == t.decompose(c)
    ensures DropCombining(t, [c]) == if t.combining(c) then [] else [c]
    ensures Lower(t, [c]) == t.lower(c)
  {
    assert [c][1..] == [];
  }

  lemma DecomposeAppend(t: CharTables, a: string, b: string)
    requires |a| == 1
    ensures Decompose(t, a + b) == Decompose(t, a) + Decompose(t, b)
  {
    assert (a + b)[1..] == b;
  }

  lemma DropCombiningAppend(t: CharTables, a: string, b: string)
    requires |a| == 1
    ensures DropCombining(t, a + b) == DropCombining(t, a) + DropCombining(t, b)
  {
    assert (a + b)[1..] == b;
  }

  /** Decomposition works code point by code point, so it distributes over concatenation. */
  lemma {:induction false} DecomposeConcat(t: CharTables, a: string, b: string)
    ensures Decompose(t, a + b) == Decompose(t, a) + Decompose(t, b)
    decreases |a|
  {
    if a == [] {
      assert a + b == b;
    } else {
      assert (a + b)[1..] == a[1..] + b;
      DecomposeConcat(t, a[1..], b);
    }
  }

  /** So does the filter of combining marks. */
  lemma {:induction false} DropCombiningConcat(t: CharTables, a: string, b: string)
    ensures DropCombining(t, a + b) == DropCombining(t, a) + DropCombining(t, b)
    decreases |a|
  {
    if a == [] {
      assert a + b == b;
    } else {
      assert (a + b)[1..] == a[1..] + b;
      DropCombiningConcat(t, a[1..], b);
    }
  }

  /** Normalising twice can differ from normalising once: under AccentingTables, lower-casing
      brings back a combining mark that only the second pass removes. */
  lemma NormalizeCanMoveAgain()
    ensures exists t: CharTables, s: string :: Normalize(t, Normalize(t, s)) != Normalize(t, s)
  {
    NormalizeAccentingOnce();
    NormalizeAccentingTwice();
    var t := AccentingTables();
    assert Normalize(t, Normalize(t, "X")) != Normalize(t, "X");
  }

  /** Text made of ASCII characters that are not capital letters is its own lower-case form. */
  lemma {:induction false} LowerOfLowerAscii(t: CharTables, s: string)
    requires AsciiConventional(t)
    requires forall i :: 0 <= i < |s| ==> s[i] < '\U{80}' && !('A' <= s[i] <= 'Z')
    ensures Lower(t, s) == s
  {
    if s != [] {
      LowerOfLowerAscii(t, s[1..]);
      assert [s[0]] + s[1..] == s;
    }
  }
}
