/**
 * The tool itself: an object whose methods update the session fields in place, each proved to
 * leave the fields as the matching step function says.
 */
module Tool {
  import opened Wrappers
  import opened UnicodeText
  import opened SurahNames
  import opened SurahIndex
  import opened Resolver
  import opened Recitation
  import opened Sorting
  import opened Session

  class QuranMemorizationTool {
    const tables: CharTables
    const matcher: Matcher
    const microphoneAvailable: bool
    const quranData: QuranData
    const surahNameMapping: Index

    var listeningMode: Mode
    var currentSurah: Option<int>
    var ayahList: seq<Ayah>
    var currentAyahIndex: nat
    var accumulatedRecitation: string
    var currentAyahCompleted: bool
    var isListening: bool
    var lastBuzzTime: Option<real>
    var events: seq<Event>

    function Settings(): Config
    {
      Config(tables, matcher, microphoneAvailable, quranData, surahNameMapping)
    }

    function Snapshot(): State
      reads this
    {
      State(listeningMode, currentSurah, ayahList, currentAyahIndex, accumulatedRecitation,
            currentAyahCompleted, isListening, lastBuzzTime, events)
    }

    /** `__init__`, with the Quran data already loaded and the microphone probed. */
    constructor (tables: CharTables, matcher: Matcher, microphoneAvailable: bool, quranData: QuranData)
      ensures Settings() == Config(tables, matcher, microphoneAvailable, quranData, SurahNameIndex())
      ensures Snapshot() == InitialState(Settings())
    {
      this.tables := tables;
      this.matcher := matcher;
      this.microphoneAvailable := microphoneAvailable;
      this.quranData := quranData;
      var mapping := CreateSurahNameMapping();
      surahNameMapping := mapping;
      listeningMode := SurahMode;
      currentSurah := None;
      ayahList := [];
      currentAyahIndex := 0;
      accumulatedRecitation := "";
      currentAyahCompleted := false;
      isListening := false;
      lastBuzzTime := None;
      events := if microphoneAvailable then [] else [Feedback(MicrophoneMissing)];
    }

    method StartListening()
      modifies this
      ensures Snapshot() == StartListeningStep(Settings(), old(Snapshot()))
    {
      if !microphoneAvailable {
        events := events + [ErrorDialog(MicrophoneMissing)];
        return;
      }
      if isListening {
        return;
      }
      isListening := true;
      events := events + [ClearTranscript];
      accumulatedRecitation := "";
      events := events + [ListenerStarted];
    }

    method StartListeningForSurah()
      modifies this
      ensures Snapshot() == StartListeningForSurahStep(Settings(), old(Snapshot()))
    {
      if !microphoneAvailable {
        events := events + [ErrorDialog(MicrophoneMissing)];
        return;
      }
      listeningMode := SurahMode;
      currentSurah := None;
      ayahList := [];
      currentAyahIndex := 0;
      accumulatedRecitation := "";
      events := events + [ShowPrompt, ClearTranscript, Feedback(ListeningForSurah), Buttons(false)];
      StartListening();
    }

    method StopListening()
      modifies this
      ensures Snapshot() == StopStep(old(Snapshot()))
    {
      isListening := false;
      events := events + [Buttons(true), Feedback(ListeningStopped)];
    }

    /** The listening thread's handling of one recognised utterance. */
    method OnRecognized(recognizedText: string)
      modifies this
      ensures Snapshot() == RecognizedStep(Settings(), old(Snapshot()), recognizedText)
    {
      if listeningMode == SurahMode {
        var surahNum := DetectSurahFromSpeech(tables, surahNameMapping, quranData, recognizedText);
        if surahNum.Some? && surahNum.value != 0 {
          isListening := false;
          events := events + [Schedule(0, StartPracticeFor(surahNum.value))];
        } else {
          events := events + [Schedule(0, ShowFeedback(CouldNotDetect(recognizedText)))];
        }
      } else {
        if accumulatedRecitation != "" {
          accumulatedRecitation := accumulatedRecitation + " " + recognizedText;
        } else {
          accumulatedRecitation := recognizedText;
        }
        events := events + [Schedule(0, UpdateTranscript(recognizedText)), Schedule(0, Compare(accumulatedRecitation))];
      }
    }

    /** The listening thread's handling of an utterance the recogniser could not understand. */
    method OnUnrecognized()
      modifies this
      ensures Snapshot() == UnrecognizedStep(old(Snapshot()))
    {
      if listeningMode == SurahMode {
        events := events + [Schedule(0, ShowFeedback(CouldNotUnderstand))];
      }
    }

    /** The listening thread's handling of a failure of the recognition service. */
    method OnServiceError()
      modifies this
      ensures Snapshot() == ServiceErrorStep(old(Snapshot()))
    {
      events := events + [Schedule(0, ShowFeedback(ServiceError))];
    }

    /** The loop of startPracticeForSurah that fills `ayahList` from the surah's ayahs, by number. */
    method LoadAyahs(surahNum: int, surah: map<int, string>)
      modifies this`ayahList
      ensures ayahList == AyahsOf(surahNum, surah)
    {
      ayahList := [];
      var ayahNumbers := SortedKeys(surah.Keys);
      for i := 0 to |ayahNumbers|
        invariant ayahList == seq(i, j requires 0 <= j < i => Ayah(surahNum, ayahNumbers[j], surah[ayahNumbers[j]]))
      {
        ayahList := ayahList + [Ayah(surahNum, ayahNumbers[i], surah[ayahNumbers[i]])];
      }
    }

    method StartPracticeForSurah(surahNum: int)
      modifies this
      ensures Snapshot() == StartPracticeStep(Settings(), old(Snapshot()), surahNum)
    {
      if surahNum !in quranData {
        events := events + [Feedback(SurahNotFound(surahNum)), Buttons(true)];
        return;
      }
      LoadAyahs(surahNum, quranData[surahNum]);
      BeginPractice(surahNum);
    }

    /** The rest of startPracticeForSurah, once `ayahList` holds the surah's ayahs. */
    method BeginPractice(surahNum: int)
      modifies this
      ensures Snapshot() == PracticeStep(old(Snapshot()), surahNum, old(ayahList))
    {
      if ayahList == [] {
        events := events + [Feedback(NoAyahs(surahNum)), Buttons(true)];
        return;
      }
      currentSurah := Some(surahNum);
      currentAyahIndex := 0;
      listeningMode := AyahMode;
      currentAyahCompleted := false;
      events := events + [Feedback(SurahDetected(surahNum, |ayahList|)), Schedule(2000, DisplayAyah)];
    }

    method DisplayCurrentAyah()
      modifies this
      ensures Snapshot() == DisplayStep(Settings(), old(Snapshot()))
    {
      if currentAyahIndex >= |ayahList| {
        events := events + [Feedback(SessionCompleted(|ayahList|, currentSurah))];
        StopListening();
        events := events + [Buttons(true)];
        return;
      }
      PresentAyah(ayahList[currentAyahIndex]);
    }

    /** The rest of displayCurrentAyah, for the ayah at the current position. */
    method PresentAyah(ayah: Ayah)
      modifies this
      ensures Snapshot() == ShowStep(Settings(), old(Snapshot()), ayah)
    {
      events := events + [ShowAyah(ayah), ClearTranscript];
      accumulatedRecitation := "";
      currentAyahCompleted := false;
      events := events + [Feedback(Recite(ayah.surah, ayah.ayah, currentAyahIndex + 1, |ayahList|))];
      if !isListening {
        StartListening();
      }
    }

    /** compareRecitation; `checkTime` and `stampTime` are the readings of time.time() in the
        buzz test and in the assignment to `_lastBuzzTime`. */
    method CompareRecitation(recitedText: string, checkTime: real, stampTime: real)
      modifies this
      ensures Snapshot() == CompareStep(Settings(), old(Snapshot()), recitedText, checkTime, stampTime)
    {
      if currentAyahIndex >= |ayahList| {
        return;
      }
      var correctText := ayahList[currentAyahIndex].text;
      var normalizedCorrect := Normalize(tables, correctText);
      var normalizedRecited := Normalize(tables, recitedText);
      var matched := matcher(normalizedCorrect, normalizedRecited);
      var total := |normalizedCorrect| + |normalizedRecited|;
      ghost var verdict := Judge(tables, matcher, correctText, recitedText);
      if |Strip(tables, normalizedRecited)| < 3 {
        assert verdict == TooShort;
        return;
      }
      if 200 * matched < 80 * total {
        assert verdict == Low(matched, total);
        ReportLowSimilarity(matched, total, checkTime, stampTime);
      } else {
        assert verdict == High(matched, total);
        ReportHighSimilarity(matched, total);
      }
    }

    /** The below-threshold branch of compareRecitation: the debounced buzz, then the feedback. */
    method ReportLowSimilarity(matched: nat, total: nat, checkTime: real, stampTime: real)
      modifies this
      ensures Snapshot() == VerdictStep(old(Snapshot()), Low(matched, total), checkTime, stampTime)
    {
      var buzz := lastBuzzTime.None? || checkTime - lastBuzzTime.value > 2.0;
      if buzz {
        events := events + [Buzz(stampTime)];
        lastBuzzTime := Some(stampTime);
      }
      events := events + [MarkTranscript(false), HighlightReference, Schedule(2000, RemoveHighlight),
                          Feedback(LowSimilarity(matched, total))];
      assert events == old(events) + LowEvents(buzz, stampTime, matched, total);
    }

    /** The branch of compareRecitation for a similarity of at least 80%: the first one on an ayah
        completes it and schedules the advance. */
    method ReportHighSimilarity(matched: nat, total: nat)
      modifies this
      ensures forall check: real, stamp: real ::
                Snapshot() == VerdictStep(old(Snapshot()), High(matched, total), check, stamp)
    {
      events := events + [MarkTranscript(true)];
      if !currentAyahCompleted {
        currentAyahCompleted := true;
        events := events + [Feedback(AyahCompleted(matched, total)), Schedule(2000, MoveToNext)];
      } else {
        events := events + [Feedback(StillCorrect(matched, total))];
      }
    }

    method MoveToNextAyah()
      modifies this
      ensures Snapshot() == MoveStep(Settings(), old(Snapshot()))
    {
      if currentAyahCompleted {
        currentAyahIndex := currentAyahIndex + 1;
        DisplayCurrentAyah();
      }
    }

    /** The event loop running a callback that `root.after` scheduled. */
    method RunCallback(cb: Callback, checkTime: real, stampTime: real)
      modifies this
      ensures Snapshot() == CallbackStep(Settings(), old(Snapshot()), cb, checkTime, stampTime)
    {
      match cb
      case StartPracticeFor(n) => StartPracticeForSurah(n);
      case DisplayAyah => DisplayCurrentAyah();
      case MoveToNext => MoveToNextAyah();
      case Compare(recited) => CompareRecitation(recited, checkTime, stampTime);
      case UpdateTranscript(_) => events := events + [Feedback(Transcribing)];
      case ShowFeedback(m) => events := events + [Feedback(m)];
      case RemoveHighlight =>
      case RaiseUnboundName =>
    }
  }
}
