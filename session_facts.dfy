/**
 * What the practice session guarantees: the guards of each step, the invariants the steps keep,
 * and a few runs through the session.
 */
module SessionFacts {
  import opened Wrappers
  import opened UnicodeText
  import opened SurahIndex
  import opened Resolver
  import opened Recitation
  import opened Sorting
  import opened Session

  // ---------------------------------------------------------------------------------------------
  // The buzz log: `_lastBuzzTime` is the time of the last buzz, and buzzes are spaced.

  predicate BuzzLog(s: State)
  {
    s.lastBuzzTime == LastTime(BuzzTimes(s.events)) && Spaced(BuzzTimes(s.events))
  }

  /** Events without a buzz leave the buzz times as they were. */
  lemma QuietEmit(s: State, es: seq<Event>)
    requires forall i :: 0 <= i < |es| ==> !es[i].Buzz?
    ensures BuzzTimes(Emit(s, es).events) == BuzzTimes(s.events)
  {
    BuzzTimesAppend(s.events, es);
    NoBuzzes(es);
  }

  lemma QuietAppend(a: seq<Event>, es: seq<Event>)
    requires forall i :: 0 <= i < |es| ==> !es[i].Buzz?
    ensures BuzzTimes(a + es) == BuzzTimes(a)
  {
    BuzzTimesAppend(a, es);
    NoBuzzes(es);
  }

  lemma InitialBuzzLog(c: Config)
    ensures BuzzLog(InitialState(c))
  {
    NoBuzzes(InitialState(c).events);
  }

  lemma StartListeningBuzzLog(c: Config, s: State)
    requires BuzzLog(s)
    ensures BuzzLog(StartListeningStep(c, s))
  {
    QuietAppend(s.events, [ErrorDialog(MicrophoneMissing)]);
    QuietAppend(s.events, [ClearTranscript, ListenerStarted]);
  }

  lemma StartListeningForSurahBuzzLog(c: Config, s: State)
    requires BuzzLog(s)
    ensures BuzzLog(StartListeningForSurahStep(c, s))
  {
    QuietAppend(s.events, [ErrorDialog(MicrophoneMissing)]);
    var es: seq<Event> := [ShowPrompt, ClearTranscript, Feedback(ListeningForSurah), Buttons(false)];
    QuietAppend(s.events, es);
    StartListeningBuzzLog(c, s.(listeningMode := SurahMode, currentSurah := None, ayahList := [],
                                currentAyahIndex := 0, accumulatedRecitation := "", events := s.events + es));
  }

  lemma RecognizedBuzzLog(c: Config, s: State, text: string)
    requires BuzzLog(s)
    ensures BuzzLog(RecognizedStep(c, s, text))
  {
    if s.listeningMode == SurahMode {
      DetectedBuzzLog(s, Resolve(c.tables, c.surahNameMapping, c.quranData, text), text);
    } else {
      var acc := Accumulate(s.accumulatedRecitation, text);
      QuietAppend(s.events, [Schedule(0, UpdateTranscript(text)), Schedule(0, Compare(acc))]);
    }
  }

  lemma DetectedBuzzLog(s: State, r: Option<int>, text: string)
    requires BuzzLog(s)
    ensures BuzzLog(DetectedStep(s, r, text))
  {
    if r.Some? {
      QuietAppend(s.events, [Schedule(0, StartPracticeFor(r.value))]);
    }
    QuietAppend(s.events, [Schedule(0, ShowFeedback(CouldNotDetect(text)))]);
  }

  lemma StartPracticeBuzzLog(c: Config, s: State, n: int)
    requires BuzzLog(s)
    ensures BuzzLog(StartPracticeStep(c, s, n))
  {
    QuietAppend(s.events, [Feedback(SurahNotFound(n)), Buttons(true)]);
    QuietAppend(s.events, [Feedback(NoAyahs(n)), Buttons(true)]);
    if n in c.quranData {
      var ayahs := AyahsOf(n, c.quranData[n]);
      QuietAppend(s.events, [Feedback(SurahDetected(n, |ayahs|)), Schedule(2000, DisplayAyah)]);
    }
  }

  lemma DisplayBuzzLog(c: Config, s: State)
    requires BuzzLog(s)
    ensures BuzzLog(DisplayStep(c, s))
  {
    if s.currentAyahIndex >= |s.ayahList| {
      SessionEndBuzzLog(c, s);
    } else {
      ShowAyahBuzzLog(c, s);
    }
  }

  lemma SessionEndBuzzLog(c: Config, s: State)
    requires BuzzLog(s) && s.currentAyahIndex >= |s.ayahList|
    ensures BuzzLog(DisplayStep(c, s))
  {
    var e1: seq<Event> := [Feedback(SessionCompleted(|s.ayahList|, s.currentSurah))];
    var e2: seq<Event> := [Buttons(true), Feedback(ListeningStopped)];
    var e3: seq<Event> := [Buttons(true)];
    assert DisplayStep(c, s).events == s.events + e1 + e2 + e3;
    QuietAppend(s.events, e1);
    QuietAppend(s.events + e1, e2);
    QuietAppend(s.events + e1 + e2, e3);
  }

  lemma ShowAyahBuzzLog(c: Config, s: State)
    requires BuzzLog(s) && s.currentAyahIndex < |s.ayahList|
    ensures BuzzLog(DisplayStep(c, s))
  {
    ShowBuzzLog(c, s, s.ayahList[s.currentAyahIndex]);
  }

  lemma ShowBuzzLog(c: Config, s: State, a: Ayah)
    requires BuzzLog(s)
    ensures BuzzLog(ShowStep(c, s, a))
  {
    var es: seq<Event> := [ShowAyah(a), ClearTranscript, Feedback(Recite(a.surah, a.ayah, s.currentAyahIndex + 1, |s.ayahList|))];
    var shown := s.(accumulatedRecitation := "", currentAyahCompleted := false, events := s.events + es);
    QuietFieldsBuzzLog(s, es, shown);
    StartListeningBuzzLog(c, shown);
  }

  /** A state that differs by fields other than the buzz time, and by events without a buzz, keeps
      the buzz log. */
  lemma QuietFieldsBuzzLog(s: State, es: seq<Event>, s': State)
    requires BuzzLog(s) && forall i :: 0 <= i < |es| ==> !es[i].Buzz?
    requires s'.lastBuzzTime == s.lastBuzzTime && s'.events == s.events + es
    ensures BuzzLog(s')
  {
    QuietAppend(s.events, es);
  }

  lemma MoveBuzzLog(c: Config, s: State)
    requires BuzzLog(s)
    ensures BuzzLog(MoveStep(c, s))
  {
    DisplayBuzzLog(c, s.(currentAyahIndex := s.currentAyahIndex + 1));
  }

  /** A comparison buzzes exactly when it is below the threshold and the last buzz is more than
      two seconds before the check, and it records the buzz's time. */
  lemma CompareBuzzes(c: Config, s: State, recited: string, check: real, stamp: real)
    ensures var s' := CompareStep(c, s, recited, check, stamp);
            var due := s.currentAyahIndex < |s.ayahList|
                       && Judge(c.tables, c.matcher, s.ayahList[s.currentAyahIndex].text, recited).Low?
                       && BuzzDue(s.lastBuzzTime, check);
            && BuzzTimes(s'.events) == BuzzTimes(s.events) + (if due then [stamp] else [])
            && s'.lastBuzzTime == (if due then Some(stamp) else s.lastBuzzTime)
  {
    if s.currentAyahIndex < |s.ayahList| {
      VerdictBuzzes(s, Judge(c.tables, c.matcher, s.ayahList[s.currentAyahIndex].text, recited), check, stamp);
    }
  }

  /** Acting on a verdict buzzes exactly for a low verdict whose two-second test passes. */
  lemma VerdictBuzzes(s: State, v: Verdict, check: real, stamp: real)
    ensures var s' := VerdictStep(s, v, check, stamp);
            var due := v.Low? && BuzzDue(s.lastBuzzTime, check);
            && BuzzTimes(s'.events) == BuzzTimes(s.events) + (if due then [stamp] else [])
            && s'.lastBuzzTime == (if due then Some(stamp) else s.lastBuzzTime)
  {
    match v
    case TooShort =>
    case Low(m, total) =>
      var buzz := BuzzDue(s.lastBuzzTime, check);
      BuzzTimesAppend(s.events, LowEvents(buzz, stamp, m, total));
      LowEventsLog(buzz, stamp, m, total);
    case High(m, total) =>
      QuietAppend(s.events, [MarkTranscript(true), Feedback(AyahCompleted(m, total)), Schedule(2000, MoveToNext)]);
      QuietAppend(s.events, [MarkTranscript(true), Feedback(StillCorrect(m, total))]);
  }

  /** The debounce: with the second clock reading no earlier than the first, buzzes stay more than
      two seconds apart and `_lastBuzzTime` stays the time of the last one. */
  lemma CompareBuzzLog(c: Config, s: State, recited: string, check: real, stamp: real)
    requires BuzzLog(s)
    requires stamp >= check
    ensures BuzzLog(CompareStep(c, s, recited, check, stamp))
  {
    CompareBuzzes(c, s, recited, check, stamp);
    if s.currentAyahIndex < |s.ayahList|
       && Judge(c.tables, c.matcher, s.ayahList[s.currentAyahIndex].text, recited).Low?
       && BuzzDue(s.lastBuzzTime, check) {
      DebounceKeepsSpacing(BuzzTimes(s.events), check, stamp);
    }
  }

  // ---------------------------------------------------------------------------------------------
  // compareRecitation.

  /** Past the last ayah, or for a recitation of fewer than three characters, nothing happens. */
  lemma CompareIgnored(c: Config, s: State, recited: string, check: real, stamp: real)
    requires s.currentAyahIndex >= |s.ayahList|
             || Judge(c.tables, c.matcher, s.ayahList[s.currentAyahIndex].text, recited).TooShort?
    ensures CompareStep(c, s, recited, check, stamp) == s
  {
  }

  /** A comparison moves neither the ayah list nor the position in it, never clears the completed
      flag, and sets it only for a similarity of at least 80%. */
  lemma CompareKeepsPlace(c: Config, s: State, recited: string, check: real, stamp: real)
    ensures var s' := CompareStep(c, s, recited, check, stamp);
            && s'.ayahList == s.ayahList && s'.currentAyahIndex == s.currentAyahIndex
            && s'.listeningMode == s.listeningMode && s'.currentSurah == s.currentSurah
            && s'.isListening == s.isListening && s'.accumulatedRecitation == s.accumulatedRecitation
            && (s'.currentAyahCompleted <==>
                  s.currentAyahCompleted
                  || (s.currentAyahIndex < |s.ayahList|
                      && Judge(c.tables, c.matcher, s.ayahList[s.currentAyahIndex].text, recited).High?))
  {
    if s.currentAyahIndex < |s.ayahList| {
      VerdictKeepsPlace(s, Judge(c.tables, c.matcher, s.ayahList[s.currentAyahIndex].text, recited), check, stamp);
    }
  }

  /** Acting on a verdict moves nothing, and completes the ayah only for a high one. */
  lemma VerdictKeepsPlace(s: State, v: Verdict, check: real, stamp: real)
    ensures var s' := VerdictStep(s, v, check, stamp);
            && s'.ayahList == s.ayahList && s'.currentAyahIndex == s.currentAyahIndex
            && s'.listeningMode == s.listeningMode && s'.currentSurah == s.currentSurah
            && s'.isListening == s.isListening && s'.accumulatedRecitation == s.accumulatedRecitation
            && (s'.currentAyahCompleted <==> s.currentAyahCompleted || v.High?)
  {
  }

  /** The first similarity of at least 80% on an ayah schedules exactly one advance; every other
      comparison schedules none. */
  lemma CompareAdvances(c: Config, s: State, recited: string, check: real, stamp: real)
    ensures var s' := CompareStep(c, s, recited, check, stamp);
            Advances(s'.events) == Advances(s.events) + (if !s.currentAyahCompleted && s'.currentAyahCompleted then 1 else 0)
  {
    if s.currentAyahIndex < |s.ayahList| {
      VerdictAdvances(s, Judge(c.tables, c.matcher, s.ayahList[s.currentAyahIndex].text, recited), check, stamp);
    }
  }

  /** Acting on a verdict schedules an advance exactly when it completes the ayah. */
  lemma VerdictAdvances(s: State, v: Verdict, check: real, stamp: real)
    ensures var s' := VerdictStep(s, v, check, stamp);
            Advances(s'.events) == Advances(s.events) + (if !s.currentAyahCompleted && s'.currentAyahCompleted then 1 else 0)
  {
    match v
    case TooShort =>
    case Low(m, total) =>
      var buzz := BuzzDue(s.lastBuzzTime, check);
      AdvancesAppend(s.events, LowEvents(buzz, stamp, m, total));
      LowEventsLog(buzz, stamp, m, total);
    case High(m, total) =>
      var first: seq<Event> := [MarkTranscript(true), Feedback(AyahCompleted(m, total)), Schedule(2000, MoveToNext)];
      var again: seq<Event> := [MarkTranscript(true), Feedback(StillCorrect(m, total))];
      AdvancesAppend(s.events, first);
      AdvancesAppend(s.events, again);
      NoAdvances(first[..2]);
      NoAdvances(again);
  }

  // ---------------------------------------------------------------------------------------------
  // The service-error message.

  /** As written, the service-error callback shows nothing: running it leaves every field and the
      display as they were, so the log holds no service-error message, unlike the intended handler. */
  lemma ServiceErrorMessageLost(c: Config, s: State, check: real, stamp: real)
    ensures var written := CallbackStep(c, ServiceErrorStepAsWritten(s), RaiseUnboundName, check, stamp);
            var meant := CallbackStep(c, ServiceErrorStep(s), ShowFeedback(ServiceError), check, stamp);
            && written.(events := s.events) == s
            && written.events == s.events + [Schedule(0, RaiseUnboundName)]
            && Feedback(ServiceError) !in written.events[|s.events|..]
            && written != meant
  {
    var written := CallbackStep(c, ServiceErrorStepAsWritten(s), RaiseUnboundName, check, stamp);
    assert written.events[|s.events|..] == [Schedule(0, RaiseUnboundName)];
  }

  /** With the message bound before the lambda is built, running the callback shows the
      service-error message and changes no session field. */
  lemma ServiceErrorReported(c: Config, s: State, check: real, stamp: real)
    ensures var meant := CallbackStep(c, ServiceErrorStep(s), ShowFeedback(ServiceError), check, stamp);
            && meant.(events := s.events) == s
            && meant.events == s.events + [Schedule(0, ShowFeedback(ServiceError)), Feedback(ServiceError)]
            && meant.events[|meant.events| - 1] == Feedback(ServiceError)
  {
  }

  /** A recitation compared at `check` seconds, with the buzz stamped at `stamp` seconds. */
  datatype Attempt = Attempt(recited: string, check: real, stamp: real)

  function CompareAll(c: Config, s: State, attempts: seq<Attempt>): State
  {
    if attempts == [] then s
    else
      var a := attempts[|attempts| - 1];
      CompareStep(c, CompareAll(c, s, attempts[..|attempts| - 1]), a.recited, a.check, a.stamp)
  }

  /** However many recitations are compared on one ayah, at most one advance is scheduled: one if
      the ayah went from not completed to completed, none otherwise. */
  lemma {:induction false} CompletionFiresOnce(c: Config, s: State, attempts: seq<Attempt>)
    ensures var s' := CompareAll(c, s, attempts);
            && s'.currentAyahIndex == s.currentAyahIndex && s'.ayahList == s.ayahList
            && (s.currentAyahCompleted ==> s'.currentAyahCompleted)
            && Advances(s'.events) == Advances(s.events) + (if !s.currentAyahCompleted && s'.currentAyahCompleted then 1 else 0)
    decreases |attempts|
  {
    if attempts != [] {
      var a := attempts[|attempts| - 1];
      var mid := CompareAll(c, s, attempts[..|attempts| - 1]);
      CompletionFiresOnce(c, s, attempts[..|attempts| - 1]);
      CompareKeepsPlace(c, mid, a.recited, a.check, a.stamp);
      CompareAdvances(c, mid, a.recited, a.check, a.stamp);
    }
  }

  // ---------------------------------------------------------------------------------------------
  // startListening, startPracticeForSurah, displayCurrentAyah, moveToNextAyah.

  /** With a microphone, starting to listen while listening changes nothing; otherwise it raises
      the flag and empties the recitation. */
  lemma StartListeningGuard(c: Config, s: State)
    requires c.microphoneAvailable
    ensures s.isListening ==> StartListeningStep(c, s) == s
    ensures !s.isListening ==> StartListeningStep(c, s) == s.(isListening := true, accumulatedRecitation := "",
                                                            events := s.events + [ClearTranscript, ListenerStarted])
  {
  }

  /** A loaded surah with ayahs starts the practice at its first ayah, in ayah-number order; an
      unknown surah changes no field; a surah without ayahs empties the list and keeps the mode. */
  lemma StartPracticeCases(c: Config, s: State, n: int)
    ensures var s' := StartPracticeStep(c, s, n);
            && (n in c.quranData && c.quranData[n] != map[] ==>
                  && s'.ayahList == AyahsOf(n, c.quranData[n]) && |s'.ayahList| == |c.quranData[n].Keys|
                  && s'.currentAyahIndex == 0 && s'.listeningMode == AyahMode && !s'.currentAyahCompleted
                  && s'.currentSurah == Some(n))
            && (n !in c.quranData ==> s'.(events := s.events) == s)
            && (n in c.quranData && c.quranData[n] == map[] ==>
                  s'.ayahList == [] && s'.listeningMode == s.listeningMode && s'.currentAyahIndex == s.currentAyahIndex
                  && s'.currentSurah == s.currentSurah)
  {
    if n in c.quranData {
      var ayahs := c.quranData[n];
      AyahsOfSorted(n, ayahs);
      if ayahs != map[] {
        var k :| k in ayahs;
        assert AyahsOf(n, ayahs) != [];
      } else {
        assert ayahs.Keys == {};
      }
    }
  }

  /** Past the last ayah the display ends the session and stops listening; otherwise it clears the
      recitation and the completed flag, and starts listening only if not listening. */
  lemma DisplayCases(c: Config, s: State)
    ensures var s' := DisplayStep(c, s);
            && (s.currentAyahIndex >= |s.ayahList| ==> !s'.isListening)
            && (s.currentAyahIndex < |s.ayahList| ==>
                  && s'.accumulatedRecitation == "" && !s'.currentAyahCompleted
                  && (c.microphoneAvailable ==> s'.isListening)
                  && (s.isListening ==> s'.events == s.events + [ShowAyah(s.ayahList[s.currentAyahIndex]), ClearTranscript,
                                                                  Feedback(Recite(s.ayahList[s.currentAyahIndex].surah,
                                                                                  s.ayahList[s.currentAyahIndex].ayah,
                                                                                  s.currentAyahIndex + 1, |s.ayahList|))]))
            && s'.currentAyahIndex == s.currentAyahIndex && s'.ayahList == s.ayahList
  {
  }

  /** The advance moves one ayah on if the ayah was completed, and otherwise does nothing. */
  lemma MoveCases(c: Config, s: State)
    ensures s.currentAyahCompleted ==> MoveStep(c, s).currentAyahIndex == s.currentAyahIndex + 1
    ensures !s.currentAyahCompleted ==> MoveStep(c, s) == s
  {
  }

  // ---------------------------------------------------------------------------------------------
  // The position stays within the ayah list.

  predicate InBounds(s: State)
  {
    s.currentAyahIndex <= |s.ayahList|
  }

  /** Every step keeps the position within the list, the advance as long as it is made from an
      ayah of the list (an advance scheduled for an ayah that is still current). */
  lemma StepsKeepBounds(c: Config, s: State, text: string, n: int, check: real, stamp: real)
    requires InBounds(s)
    ensures InBounds(InitialState(c))
    ensures InBounds(StartListeningStep(c, s)) && InBounds(StartListeningForSurahStep(c, s))
    ensures InBounds(RecognizedStep(c, s, text)) && InBounds(UnrecognizedStep(s)) && InBounds(ServiceErrorStep(s))
    ensures InBounds(StopStep(s)) && InBounds(DisplayStep(c, s))
    ensures n !in c.quranData || c.quranData[n] != map[] || s.currentAyahIndex == 0 ==> InBounds(StartPracticeStep(c, s, n))
    ensures InBounds(CompareStep(c, s, text, check, stamp))
    ensures s.currentAyahIndex < |s.ayahList| ==> InBounds(MoveStep(c, s))
  {
    InitialBounds(c);
    ListeningBounds(c, s);
    RecognitionBounds(c, s, text);
    StartPracticeBounds(c, s, n);
    DisplayBounds(c, s);
    CompareBounds(c, s, text, check, stamp);
    MoveBounds(c, s);
  }

  lemma InitialBounds(c: Config)
    ensures InBounds(InitialState(c))
  {
  }

  lemma ListeningBounds(c: Config, s: State)
    requires InBounds(s)
    ensures InBounds(StartListeningStep(c, s)) && InBounds(StartListeningForSurahStep(c, s)) && InBounds(StopStep(s))
  {
  }

  lemma RecognitionBounds(c: Config, s: State, text: string)
    requires InBounds(s)
    ensures InBounds(RecognizedStep(c, s, text)) && InBounds(UnrecognizedStep(s)) && InBounds(ServiceErrorStep(s))
  {
    if s.listeningMode == SurahMode {
      assert InBounds(DetectedStep(s, Resolve(c.tables, c.surahNameMapping, c.quranData, text), text));
    }
  }

  lemma DisplayBounds(c: Config, s: State)
    requires InBounds(s)
    ensures InBounds(DisplayStep(c, s))
  {
  }

  lemma CompareBounds(c: Config, s: State, text: string, check: real, stamp: real)
    requires InBounds(s)
    ensures InBounds(CompareStep(c, s, text, check, stamp))
  {
    CompareKeepsPlace(c, s, text, check, stamp);
  }

  lemma MoveBounds(c: Config, s: State)
    requires InBounds(s)
    ensures s.currentAyahIndex < |s.ayahList| ==> InBounds(MoveStep(c, s))
  {
    if s.currentAyahIndex < |s.ayahList| && s.currentAyahCompleted {
      DisplayBounds(c, s.(currentAyahIndex := s.currentAyahIndex + 1));
    }
  }

  lemma StartPracticeBounds(c: Config, s: State, n: int)
    requires InBounds(s)
    ensures n !in c.quranData || c.quranData[n] != map[] || s.currentAyahIndex == 0 ==> InBounds(StartPracticeStep(c, s, n))
  {
    if n in c.quranData && c.quranData[n] != map[] {
      StartPracticeCases(c, s, n);
    }
  }

  /** A surah without ayahs empties the list but leaves the position: the position leaves the list
      when the surah is picked at any position but the first. */
  lemma EmptySurahLeavesPosition(c: Config, s: State, n: int)
    requires n in c.quranData && c.quranData[n] == map[] && s.currentAyahIndex > 0
    ensures !InBounds(StartPracticeStep(c, s, n))
  {
    StartPracticeCases(c, s, n);
  }

  // ---------------------------------------------------------------------------------------------
  // Runs through the session.

  /** The surah-mode handler: a resolved surah stops the listening and schedules the practice; an
      unresolved utterance schedules a "could not detect" message. */
  lemma SurahUtterance(c: Config, s: State, text: string)
    requires s.listeningMode == SurahMode
    ensures var r := Resolve(c.tables, c.surahNameMapping, c.quranData, text);
            var s' := RecognizedStep(c, s, text);
            && (r.Some? && r.value != 0 ==>
                  !s'.isListening && s'.events == s.events + [Schedule(0, StartPracticeFor(r.value))])
            && (!(r.Some? && r.value != 0) ==>
                  s' == Emit(s, [Schedule(0, ShowFeedback(CouldNotDetect(text)))]))
  {
  }

  /** The ayah-mode handler: the recitation gains the chunk's words and the whole recitation is
      scheduled for comparison. */
  lemma AyahUtterance(c: Config, s: State, text: string)
    requires s.listeningMode == AyahMode && c.tables.isSpace(' ')
    ensures var s' := RecognizedStep(c, s, text);
            && Split(c.tables, s'.accumulatedRecitation) == Split(c.tables, s.accumulatedRecitation) + Split(c.tables, text)
            && s'.events == s.events + [Schedule(0, UpdateTranscript(text)), Schedule(0, Compare(s'.accumulatedRecitation))]
  {
    AccumulateWords(c.tables, s.accumulatedRecitation, text);
  }

  /** The session-completed message is replaced straight away: stopListening, called from the
      display, writes its own message last. */
  lemma CompletionMessageOverwritten(c: Config, s: State)
    requires s.currentAyahIndex >= |s.ayahList|
    ensures var es := DisplayStep(c, s).events;
            && es == s.events + [Feedback(SessionCompleted(|s.ayahList|, s.currentSurah)), Buttons(true),
                                 Feedback(ListeningStopped), Buttons(true)]
            && LastFeedback(es) == Some(ListeningStopped)
  {
    var es := DisplayStep(c, s).events;
    assert es[..|es| - 1][|es| - 2] == Feedback(ListeningStopped);
  }

  /** The text the feedback label shows after the events. */
  function LastFeedback(es: seq<Event>): Option<Message>
  {
    if es == [] then None
    else if es[|es| - 1].Feedback? then Some(es[|es| - 1].message)
    else LastFeedback(es[..|es| - 1])
  }

  /** A stale advance: an ayah is completed and its advance scheduled, the user restarts listening
      for a surah before the advance runs, and the advance then moves past the empty list, ends a
      session of zero ayahs and stops the listening the restart began. */
  lemma StaleAdvance(c: Config, s: State)
    requires c.microphoneAvailable && s.currentAyahCompleted
    ensures var restarted := StartListeningForSurahStep(c, s);
            var advanced := MoveStep(c, restarted);
            && restarted.isListening && restarted.ayahList == []
            && advanced.currentAyahIndex == 1 && !InBounds(advanced)
            && !advanced.isListening
            && Feedback(SessionCompleted(0, None)) in advanced.events
  {
    var restarted := StartListeningForSurahStep(c, s);
    var advanced := MoveStep(c, restarted);
    var before := restarted.(currentAyahIndex := 1);
    assert advanced.events == before.events + [Feedback(SessionCompleted(0, None)), Buttons(true),
                                               Feedback(ListeningStopped), Buttons(true)];
    assert advanced.events[|before.events|] == Feedback(SessionCompleted(0, None));
  }

  lemma CompareAllTwo(c: Config, s: State, a: Attempt, b: Attempt)
    ensures CompareAll(c, s, [a, b]) == CompareStep(c, CompareStep(c, s, a.recited, a.check, a.stamp), b.recited, b.check, b.stamp)
  {
    assert [a][..0] == [];
    assert CompareAll(c, s, [a]) == CompareStep(c, s, a.recited, a.check, a.stamp);
    assert [a, b][..1] == [a];
  }

  /** A whole ayah: shown, recited well twice, and advanced exactly once to the next ayah. */
  lemma OneAyahPractised(c: Config, s: State, good1: Attempt, good2: Attempt)
    requires s.currentAyahIndex < |s.ayahList|
    requires var reference := s.ayahList[s.currentAyahIndex].text;
             && Judge(c.tables, c.matcher, reference, good1.recited).High?
             && Judge(c.tables, c.matcher, reference, good2.recited).High?
    ensures var shown := DisplayStep(c, s);
            var recited := CompareAll(c, shown, [good1, good2]);
            && recited.currentAyahCompleted
            && Advances(recited.events) == Advances(shown.events) + 1
            && MoveStep(c, recited).currentAyahIndex == s.currentAyahIndex + 1
  {
    var shown := DisplayStep(c, s);
    DisplayCases(c, s);
    CompletionFiresOnce(c, shown, [good1, good2]);
    CompareAllTwo(c, shown, good1, good2);
    CompareKeepsPlace(c, shown, good1.recited, good1.check, good1.stamp);
    var after1 := CompareStep(c, shown, good1.recited, good1.check, good1.stamp);
    CompareKeepsPlace(c, after1, good2.recited, good2.check, good2.stamp);
    MoveCases(c, CompareAll(c, shown, [good1, good2]));
  }
}
