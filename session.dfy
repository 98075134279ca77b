/**
 * The practice session as a state machine: one step function per method of the tool that changes
 * the session, each from the fields before the call to the fields after it. What the tool shows
 * or plays, and the callbacks it schedules with `root.after`, are appended to an event log.
 */
module Session {
  import opened Wrappers
  import opened UnicodeText
  import opened SurahNames
  import opened SurahIndex
  import opened Resolver
  import opened Recitation
  import opened Sorting

  datatype Mode = SurahMode | AyahMode

  /** One entry of `ayahList`: (surah number, ayah number, ayah text). */
  datatype Ayah = Ayah(surah: int, ayah: int, text: string)

  /** The texts of the feedback label and of the error dialogs. */
  datatype Message =
    | MicrophoneMissing
    | ListeningForSurah
    | CouldNotDetect(heard: string)
    | CouldNotUnderstand
    | ServiceError
    | SurahNotFound(surah: int)
    | NoAyahs(surah: int)
    | SurahDetected(surah: int, count: nat)
    | SessionCompleted(count: nat, practised: Option<int>)
    | Recite(surah: int, ayah: int, position: nat, count: nat)
    | Transcribing
    | LowSimilarity(matched: nat, total: nat)
    | AyahCompleted(matched: nat, total: nat)
    | StillCorrect(matched: nat, total: nat)
    | ListeningStopped

  /** What a `root.after` call runs later. */
  datatype Callback =
    | StartPracticeFor(surah: int)
    | DisplayAyah
    | MoveToNext
    | Compare(recited: string)
    | UpdateTranscript(chunk: string)
    | ShowFeedback(message: Message)
    | RemoveHighlight
    | RaiseUnboundName                     // a lambda reading an `except ... as e` name after the clause

  datatype Event =
    | Feedback(message: Message)                  // the feedback label's new text
    | ErrorDialog(message: Message)               // an error message box
    | ShowPrompt                                  // the reference box asks for a surah name
    | ShowAyah(ayah: Ayah)                        // the reference box shows an ayah
    | ClearTranscript                             // the transcript box is emptied
    | MarkTranscript(correct: bool)               // the transcript is tinted green or red
    | HighlightReference                          // the reference text is highlighted
    | Buzz(at: real)                              // the error buzz, stamped with the time it records
    | ListenerStarted                             // a listening thread is started
    | Buttons(startEnabled: bool)                 // start button state; the stop button is the opposite
    | Schedule(delayMs: nat, callback: Callback)  // root.after(delayMs, callback)

  /** What the tool fixes when it is created. */
  datatype Config = Config(
    tables: CharTables,
    matcher: Matcher,
    microphoneAvailable: bool,
    quranData: QuranData,
    surahNameMapping: Index)

  /** The fields the session methods update, and the event log. */
  datatype State = State(
    listeningMode: Mode,
    currentSurah: Option<int>,
    ayahList: seq<Ayah>,
    currentAyahIndex: nat,
    accumulatedRecitation: string,
    currentAyahCompleted: bool,
    isListening: bool,
    lastBuzzTime: Option<real>,   // None while `_lastBuzzTime` is not set
    events: seq<Event>)

  // ---------------------------------------------------------------------------------------------
  // The ayahs of a surah, sorted by ayah number.

  /** The ayah list `startPracticeForSurah` builds for surah `n`. */
  function AyahsOf(n: int, ayahs: map<int, string>): seq<Ayah>
  {
    var numbers := SortedKeys(ayahs.Keys);
    seq(|numbers|, i requires 0 <= i < |numbers| => Ayah(n, numbers[i], ayahs[numbers[i]]))
  }

  /** The list holds every ayah of the surah once, with its text, in ayah-number order. */
  lemma AyahsOfSorted(n: int, ayahs: map<int, string>)
    ensures var list := AyahsOf(n, ayahs);
            && |list| == |ayahs.Keys|
            && (forall i :: 0 <= i < |list| ==> list[i].surah == n && list[i].ayah in ayahs && list[i].text == ayahs[list[i].ayah])
            && (forall i, j :: 0 <= i < j < |list| ==> list[i].ayah < list[j].ayah)
            && (forall k :: k in ayahs ==> exists i :: 0 <= i < |list| && list[i].ayah == k)
  {
    var numbers := SortedKeys(ayahs.Keys);
    var list := AyahsOf(n, ayahs);
    forall k | k in ayahs ensures exists i :: 0 <= i < |list| && list[i].ayah == k {
      var i :| 0 <= i < |numbers| && numbers[i] == k;
      assert list[i].ayah == k;
    }
    IncreasingCount(numbers, ayahs.Keys);
  }

  // ---------------------------------------------------------------------------------------------
  // The steps.

  function Emit(s: State, es: seq<Event>): State
  {
    s.(events := s.events + es)
  }

  /** The fields `__init__` sets; with no microphone the feedback label reports it. */
  function InitialState(c: Config): State
  {
    State(SurahMode, None, [], 0, "", false, false, None,
          if c.microphoneAvailable then [] else [Feedback(MicrophoneMissing)])
  }

  /** startListening. */
  function StartListeningStep(c: Config, s: State): State
  {
    if !c.microphoneAvailable then Emit(s, [ErrorDialog(MicrophoneMissing)])
    else if s.isListening then s
    else s.(isListening := true, accumulatedRecitation := "", events := s.events + [ClearTranscript, ListenerStarted])
  }

  /** startListeningForSurah. */
  function StartListeningForSurahStep(c: Config, s: State): State
  {
    if !c.microphoneAvailable then Emit(s, [ErrorDialog(MicrophoneMissing)])
    else
      StartListeningStep(c, s.(listeningMode := SurahMode, currentSurah := None, ayahList := [],
                               currentAyahIndex := 0, accumulatedRecitation := "",
                               events := s.events + [ShowPrompt, ClearTranscript, Feedback(ListeningForSurah), Buttons(false)]))
  }

  /** The listening thread's handling of one recognised utterance. */
  function RecognizedStep(c: Config, s: State, text: string): State
  {
    if s.listeningMode == SurahMode then
      DetectedStep(s, Resolve(c.tables, c.surahNameMapping, c.quranData, text), text)
    else
      var acc := Accumulate(s.accumulatedRecitation, text);
      s.(accumulatedRecitation := acc, events := s.events + [Schedule(0, UpdateTranscript(text)), Schedule(0, Compare(acc))])
  }

  /** What the surah-mode handler does with the surah detected in `text`, if any. */
  function DetectedStep(s: State, surahNum: Option<int>, text: string): State
  {
    if surahNum.Some? && surahNum.value != 0 then
      s.(isListening := false, events := s.events + [Schedule(0, StartPracticeFor(surahNum.value))])
    else
      Emit(s, [Schedule(0, ShowFeedback(CouldNotDetect(text)))])
  }

  /** The listening thread's handling of an utterance the recogniser could not understand. */
  function UnrecognizedStep(s: State): State
  {
    if s.listeningMode == SurahMode then Emit(s, [Schedule(0, ShowFeedback(CouldNotUnderstand))]) else s
  }

  /** The listening thread's handling of a failure of the recognition service. */
  function ServiceErrorStep(s: State): State
  {
    Emit(s, [Schedule(0, ShowFeedback(ServiceError))])
  }

  /** The same handler as the code is written: the scheduled lambda formats `e`, which Python 3
      deletes when the `except sr.RequestError as e` clause ends, so the callback raises NameError. */
  function ServiceErrorStepAsWritten(s: State): State
  {
    Emit(s, [Schedule(0, RaiseUnboundName)])
  }

  /** startPracticeForSurah. */
  function StartPracticeStep(c: Config, s: State, n: int): State
  {
    if n !in c.quranData then Emit(s, [Feedback(SurahNotFound(n)), Buttons(true)])
    else PracticeStep(s, n, AyahsOf(n, c.quranData[n]))
  }

  /** The part of startPracticeForSurah after the surah's ayahs are loaded into `ayahList`. */
  function PracticeStep(s: State, n: int, ayahs: seq<Ayah>): State
  {
    if ayahs == [] then s.(ayahList := [], events := s.events + [Feedback(NoAyahs(n)), Buttons(true)])
    else
      s.(ayahList := ayahs, currentSurah := Some(n), currentAyahIndex := 0, listeningMode := AyahMode,
         currentAyahCompleted := false,
         events := s.events + [Feedback(SurahDetected(n, |ayahs|)), Schedule(2000, DisplayAyah)])
  }

  /** stopListening. */
  function StopStep(s: State): State
  {
    s.(isListening := false, events := s.events + [Buttons(true), Feedback(ListeningStopped)])
  }

  /** displayCurrentAyah. */
  function DisplayStep(c: Config, s: State): State
  {
    if s.currentAyahIndex >= |s.ayahList| then
      Emit(StopStep(Emit(s, [Feedback(SessionCompleted(|s.ayahList|, s.currentSurah))])), [Buttons(true)])
    else
      ShowStep(c, s, s.ayahList[s.currentAyahIndex])
  }

  /** The part of displayCurrentAyah that shows ayah `a`, the one at the current position. */
  function ShowStep(c: Config, s: State, a: Ayah): State
  {
    var shown := s.(accumulatedRecitation := "", currentAyahCompleted := false,
                    events := s.events + [ShowAyah(a), ClearTranscript,
                                          Feedback(Recite(a.surah, a.ayah, s.currentAyahIndex + 1, |s.ayahList|))]);
    if !shown.isListening then StartListeningStep(c, shown) else shown
  }

  /** The events of a below-threshold comparison. */
  function LowEvents(buzz: bool, stamp: real, matched: nat, total: nat): seq<Event>
  {
    (if buzz then [Buzz(stamp)] else [])
      + [MarkTranscript(false), HighlightReference, Schedule(2000, RemoveHighlight), Feedback(LowSimilarity(matched, total))]
  }

  /** compareRecitation; `check` and `stamp` are the two readings of the clock in the buzz branch. */
  function CompareStep(c: Config, s: State, recited: string, check: real, stamp: real): State
  {
    if s.currentAyahIndex >= |s.ayahList| then s
    else VerdictStep(s, Judge(c.tables, c.matcher, s.ayahList[s.currentAyahIndex].text, recited), check, stamp)
  }

  /** What compareRecitation does once the recitation of the current ayah is judged. */
  function VerdictStep(s: State, v: Verdict, check: real, stamp: real): State
  {
    match v
    case TooShort => s
    case Low(m, total) =>
      var buzz := BuzzDue(s.lastBuzzTime, check);
      s.(lastBuzzTime := if buzz then Some(stamp) else s.lastBuzzTime,
         events := s.events + LowEvents(buzz, stamp, m, total))
    case High(m, total) =>
      if !s.currentAyahCompleted then
        s.(currentAyahCompleted := true,
           events := s.events + [MarkTranscript(true), Feedback(AyahCompleted(m, total)), Schedule(2000, MoveToNext)])
      else
        Emit(s, [MarkTranscript(true), Feedback(StillCorrect(m, total))])
  }

  /** moveToNextAyah. */
  function MoveStep(c: Config, s: State): State
  {
    if s.currentAyahCompleted then DisplayStep(c, s.(currentAyahIndex := s.currentAyahIndex + 1)) else s
  }

  /** Running a callback scheduled with `root.after`, reading the clock at `check` and `stamp`
      if it compares a recitation. */
  function CallbackStep(c: Config, s: State, cb: Callback, check: real, stamp: real): State
  {
    match cb
    case StartPracticeFor(n) => StartPracticeStep(c, s, n)
    case DisplayAyah => DisplayStep(c, s)
    case MoveToNext => MoveStep(c, s)
    case Compare(recited) => CompareStep(c, s, recited, check, stamp)
    case UpdateTranscript(_) => Emit(s, [Feedback(Transcribing)])
    case ShowFeedback(m) => Emit(s, [Feedback(m)])
    case RemoveHighlight => s
    case RaiseUnboundName => s      // Tk reports the NameError; nothing else happens
  }

  // ---------------------------------------------------------------------------------------------
  // The log.

  /** The number of scheduled advances to the next ayah. */
  function Advances(es: seq<Event>): nat
  {
    if es == [] then 0
    else Advances(es[..|es| - 1]) + (if es[|es| - 1] == Schedule(2000, MoveToNext) then 1 else 0)
  }

  /** The times of the buzzes, in order. */
  function BuzzTimes(es: seq<Event>): seq<real>
  {
    if es == [] then [] else BuzzTimes(es[..|es| - 1]) + (if es[|es| - 1].Buzz? then [es[|es| - 1].at] else [])
  }

  lemma {:induction false} AdvancesAppend(a: seq<Event>, b: seq<Event>)
    ensures Advances(a + b) == Advances(a) + Advances(b)
    decreases |b|
  {
    if b == [] {
      assert a + b == a;
    } else {
      assert (a + b)[..|a + b| - 1] == a + b[..|b| - 1];
      AdvancesAppend(a, b[..|b| - 1]);
    }
  }

  lemma {:induction false} BuzzTimesAppend(a: seq<Event>, b: seq<Event>)
    ensures BuzzTimes(a + b) == BuzzTimes(a) + BuzzTimes(b)
    decreases |b|
  {
    if b == [] {
      assert a + b == a;
    } else {
      assert (a + b)[..|a + b| - 1] == a + b[..|b| - 1];
      BuzzTimesAppend(a, b[..|b| - 1]);
    }
  }

  lemma {:induction false} NoAdvances(es: seq<Event>)
    requires forall i :: 0 <= i < |es| ==> es[i] != Schedule(2000, MoveToNext)
    ensures Advances(es) == 0
    decreases |es|
  {
    if es != [] {
      NoAdvances(es[..|es| - 1]);
    }
  }

  lemma {:induction false} NoBuzzes(es: seq<Event>)
    requires forall i :: 0 <= i < |es| ==> !es[i].Buzz?
    ensures BuzzTimes(es) == []
    decreases |es|
  {
    if es != [] {
      NoBuzzes(es[..|es| - 1]);
    }
  }

  /** A below-threshold comparison schedules no advance and buzzes exactly when `buzz`. */
  lemma LowEventsLog(buzz: bool, stamp: real, matched: nat, total: nat)
    ensures Advances(LowEvents(buzz, stamp, matched, total)) == 0
    ensures BuzzTimes(LowEvents(buzz, stamp, matched, total)) == if buzz then [stamp] else []
  {
    var tail: seq<Event> := [MarkTranscript(false), HighlightReference, Schedule(2000, RemoveHighlight), Feedback(LowSimilarity(matched, total))];
    var head: seq<Event> := if buzz then [Buzz(stamp)] else [];
    AdvancesAppend(head, tail);
    BuzzTimesAppend(head, tail);
    NoAdvances(tail);
    NoBuzzes(tail);
    if buzz {
      assert head[..0] == [];
    }
  }
}
