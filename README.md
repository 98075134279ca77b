# Quran memorisation tool — a verified model of its practice core

The tool listens to a learner reciting the Quran. First it asks for a surah and resolves the spoken
answer, which may be a number, a number word or a surah name, against a fixed name index. Then it shows
the surah one ayah at a time. Each recognised chunk of speech is appended to the recitation of the
current ayah. The normalised recitation is compared with the normalised reference text. Below 80%
similarity the tool buzzes, at most once every two seconds, and highlights the reference. At 80% or
more it marks the ayah complete and schedules, exactly once, the move to the next ayah. After the last
ayah it reports the session as completed and stops listening.

The model has three parts, following the program's structure:

- **The surah-name index and resolver.**
  - `SurahNames` holds the literal number words and surah names.
  - `SurahIndex` replays `createSurahNameMapping` as an insertion-ordered sequence of `(name, surah)`
    entries (`Index`), with Python's dictionary assignment and `update` written out.
  - `Resolver` models `detectSurahFromSpeech`: a first-hit scan with containment in both directions,
    then the digit fallback.
  - `Decimal` models `str(n)` and `int(...)` on a run of Unicode decimal digits, including the
    4300-digit limit of `int()`. Past that limit `int()` raises `ValueError`, which the source catches
    and turns into "no surah".
- **Text.**
  - `UnicodeText` models `str.split`, `' '.join`, `str.strip` and `re.findall(r'\d+')` concretely, as
    the maximal runs of a character class.
  - NFKD decomposition, `unicodedata.combining`, `str.isspace`, `str.lower` and the decimal value of a
    digit stay uninterpreted. They are fields of a `CharTables` value that every operation takes.
  - `normalizeArabic` is `Normalize` and the accumulation of chunks is `Recitation.Accumulate`.
  - `Recitation.Judge` models the comparison in `compareRecitation`. The similarity of two texts is an
    abstract `Matcher`, which counts the characters `difflib.SequenceMatcher` matches (M). With
    `T = |a| + |b|`, the float test `ratio() * 100 < 80` becomes `200 * M < 80 * T`. The lemma
    `ThresholdIsRatio` proves the two tests agree.
- **The session.**
  - `Session` gives every session operation as a step function on a `State` value. A `State` holds
    the session fields and an event log. The log records what the program shows, buzzes and schedules:
    each `root.after(delay, f)` becomes a `Schedule(delay, callback)` event, and the driver later runs
    the callback (`CallbackStep`).
  - `SessionFacts` proves the session's guarantees about those step functions.
  - `Tool.QuranMemorizationTool` is the program's object. Its fields are the session fields, and its
    methods update them in place as the source does, except `OnServiceError`, which implements the
    evidently intended error handler rather than the one as written (see Findings). Each method is
    proved to leave the object in exactly the state its step function describes.
  - Wall-clock readings are parameters. `compareRecitation` reads `time.time()` twice in the buzz
    branch, once in the test and once in the assignment, so the model takes both as `check` and
    `stamp`.

Behaviour worth knowing, all of it proved about the code as written:

- **Numbers with digit keys inside them.** The name scan runs before the digit fallback, and every
  digit key comes before any word in the index. Containment runs both ways, and "2" is contained in
  "200", so "200" resolves to surah 2 (`Resolver.Resolve200`). For the same reason "12" resolves to
  surah 1 (`Resolver.Resolve12`). An empty or blank utterance, with whitespace of any script, strips
  to the empty string, which is contained in "1", so it resolves to surah 1
  (`Resolver.ResolveBlank`). The digit fallback is therefore never reached for an ASCII numeral in
  1..114 whose surah is loaded (`Resolver.ScanShadowsAsciiNumerals`).
- **Delayed actions.** No `root.after` callback is ever cancelled. A `moveToNextAyah` that fires
  after "Start Listening for Surah" has emptied the list pushes the index past the end. The tool
  then reports a completed session of 0 ayahs and stops listening (`SessionFacts.StaleAdvance`).
- **The completion message.** At the end of a session the completion message is immediately
  replaced by "Listening stopped" (`SessionFacts.CompletionMessageOverwritten`).
- **Similarity.** The matcher is not assumed symmetric.

## Model

| member | source | states |
|---|---|---|
| SurahNames.WordValuesInRange | quran_memorization_tool.py:83-88 | every number word names a surah in 1..114 |
| SurahNames.WordNamesDistinct | quran_memorization_tool.py:83-88 | the number words are pairwise distinct, as dictionary keys are |
| SurahNames.WordNamesAreLowerCase | quran_memorization_tool.py:83-88 | every number word is made of the ASCII letters a..z only |
| SurahNames.NamesDistinct | quran_memorization_tool.py:97-108 | the 35 common surah names are pairwise distinct |
| SurahNames.NameValuesInRange | quran_memorization_tool.py:97-108 | every common surah name maps to one of the surahs 1..5 |
| SurahNames.NamesAreNotWords | quran_memorization_tool.py:83-108 | no surah name is also a number word, so `update` adds every name as a new key |
| SurahIndex.Assign | quran_memorization_tool.py:91 | `mapping[k] = v` appends a new key at the end and overwrites an existing key in place, keeping its position |
| SurahIndex.Lookup | quran_memorization_tool.py:91-95 | what the finished dictionary associates with a key: the value of its entry, or None when the key is absent |
| SurahIndex.AssignThenLookup | quran_memorization_tool.py:91-95 | after `mapping[k] = v` the key reads `v` and every other key reads as before |
| SurahIndex.AssignAllFresh | quran_memorization_tool.py:109 | `update` with distinct keys the mapping lacks appends them in order |
| SurahIndex.CreateSurahNameMapping | quran_memorization_tool.py:81-111 | the nested loops followed by `update` build exactly `SurahNameIndex()` |
| SurahIndex.AssignNumber | quran_memorization_tool.py:91-95 | one round of the outer loop assigns `str(num)` and then each number word worth `num`, in dictionary order |
| SurahIndex.NumberLoop | quran_memorization_tool.py:90-95 | the outer loop over 1..114 with its inner loop over the number words builds exactly the rounds `NumberRounds` describes |
| SurahIndex.Update | quran_memorization_tool.py:109 | `dict.update` assigns the entries one after another |
| SurahIndex.SurahNameIndexLayout | quran_memorization_tool.py:90-111 | the index is the rounds for 1..114 followed by the 35 surah names, all inserted after every digit key and number word |
| SurahIndex.SurahNameIndexDistinct | quran_memorization_tool.py:81-111 | no key occurs twice in the index |
| SurahIndex.SurahNameIndexValues | quran_memorization_tool.py:81-111 | every value in the index lies in 1..114 |
| SurahIndex.NumeralsMapToThemselves | quran_memorization_tool.py:90-91 | for every n in 1..114 the key `str(n)` maps to n |
| SurahIndex.IndexStart | quran_memorization_tool.py:90-95 | the index opens with "1", then exactly the number words worth 1, then "2" |
| Decimal.DecimalString | quran_memorization_tool.py:91 | `str(n)` is a non-empty ASCII numeral with no leading zero, of one digit exactly when n < 10 |
| Decimal.DecimalStringValue | quran_memorization_tool.py:91 | reading `str(n)` back as a number gives n |
| Decimal.DecimalStringInjective | quran_memorization_tool.py:90-91 | distinct numbers give distinct digit keys |
| Decimal.ValueDecimalString | quran_memorization_tool.py:277 | a numeral with no leading zero is `str` of its own value |
| Decimal.LeadingZeros | quran_memorization_tool.py:277 | leading zeros do not change the value `int()` reads |
| Decimal.ParseDecimalString | quran_memorization_tool.py:276-278 | `int(str(n))` gives n back whenever `str(n)` has at most 4300 digits |
| Decimal.ParseRefusesLongNumerals | quran_memorization_tool.py:276-281 | more than 4300 digits make `int()` raise `ValueError` even when zeros in front of `str(n)` leave the value n |
| UnicodeText.Runs | quran_memorization_tool.py:274 | `re.findall(r'\d+')` and `str.split()` give runs of the class: each element is non-empty and made of class members only (maximality, i.e. neighbouring runs separated by a non-member, is stated by `RunsAfterRun` and `RunsSkipGap`) |
| UnicodeText.RunsKeepText | quran_memorization_tool.py:274 | the runs, concatenated, are exactly the class members of the text, in order |
| UnicodeText.FirstRunOccurs | quran_memorization_tool.py:274-277 | the first digit run occurs in the text right after the leading non-digits |
| UnicodeText.Strip | quran_memorization_tool.py:267 | `str.strip()` is the part of the text after its leading and before its trailing whitespace, and starts and ends with non-whitespace |
| UnicodeText.StripKeepsWord | quran_memorization_tool.py:267 | `strip()` never cuts into a run of non-whitespace |
| UnicodeText.SplitJoin | quran_memorization_tool.py:494 | splitting words joined by single spaces gives the words back |
| UnicodeText.CollapseFixpoints | quran_memorization_tool.py:494 | `' '.join(s.split())` leaves a text unchanged exactly when it has single inner spaces and no outer ones |
| UnicodeText.CollapseIdempotent | quran_memorization_tool.py:494 | collapsing whitespace twice is the same as once |
| UnicodeText.CollapseKeepsText | quran_memorization_tool.py:494 | collapsing whitespace keeps every non-whitespace character, in order |
| UnicodeText.DropCombining | quran_memorization_tool.py:493 | the filter keeps no combining code point and never lengthens the text |
| UnicodeText.NormalizedIsCollapsed | quran_memorization_tool.py:491-495 | when lower-casing keeps whitespace and non-whitespace apart, the normalised text has single inner spaces, and `strip()` leaves it unchanged |
| UnicodeText.NormalizeIdempotent | quran_memorization_tool.py:491-495 | normalising twice is normalising once when lower-case output needs no further decomposition, filtering or lower-casing |
| UnicodeText.NormalizeCanMoveAgain | quran_memorization_tool.py:491-495 | in general normalising is not idempotent: `lower()` can produce a combining mark that a second pass removes |
| Resolver.NameScan | quran_memorization_tool.py:269-272 | the scan finds nothing exactly when no entry is a hit (key inside the utterance or the utterance inside the key, with its surah loaded), and otherwise gives the surah of the first hit in insertion order |
| Resolver.DigitFallback | quran_memorization_tool.py:274-283 | the fallback gives a surah exactly when there is a first digit run, `int()` accepts it, and its value is in 1..114 and loaded; the result is then that value |
| Resolver.Resolve | quran_memorization_tool.py:266-283 | any surah resolved is a key of the loaded data, and lies in 1..114 when the index values do |
| Resolver.DetectSurahFromSpeech | quran_memorization_tool.py:266-283 | the loop over the index, returning at the first hit, followed by the fallback, gives `Resolve` |
| Resolver.ScanIndex | quran_memorization_tool.py:269-272 | the loop over the index, returning the surah of the first accepted entry, gives `NameScan` |
| Resolver.FallBackOnDigits | quran_memorization_tool.py:274-283 | parsing the first digit run and checking its range and presence gives `DigitFallback` |
| Resolver.ResolveFirstHit | quran_memorization_tool.py:269-272 | a first hit at position j decides the result as the surah of entry j |
| Resolver.ResolveCases | quran_memorization_tool.py:266-283 | with no hit the result is the digit fallback's; with some hit it is the surah of the first one |
| Resolver.ScanShadowsAsciiNumerals | quran_memorization_tool.py:269-279 | whenever the fallback would accept an ASCII numeral without a leading zero, the name scan has already hit |
| Resolver.DigitsMatchNoWord | quran_memorization_tool.py:269-272 | a number word never matches an utterance made only of ASCII digits |
| Resolver.Resolve200 | quran_memorization_tool.py:269-272 | "200" resolves to surah 2 whenever surah 2 is loaded |
| Resolver.Resolve12 | quran_memorization_tool.py:269-272 | "12" resolves to surah 1 whenever surah 1 is loaded |
| Resolver.ResolveBlank | quran_memorization_tool.py:267-272 | an empty utterance, or one made only of whitespace of any script, resolves to surah 1 whenever surah 1 is loaded, for tables whose lower-casing keeps whitespace |
| Recitation.AccumulateWords | quran_memorization_tool.py:399-402 | the words of the accumulated recitation are the old words followed by the chunk's, since the separator never joins two words |
| Recitation.AccumulatedWords | quran_memorization_tool.py:399-402 | the words of the whole recitation are the words of its chunks, in order, with empty chunks contributing nothing |
| Recitation.CollapseAccumulated | quran_memorization_tool.py:399-402 | the whitespace-collapsed recitation is the chunks' words joined by single spaces |
| Recitation.ThresholdIsRatio | quran_memorization_tool.py:452-458 | `200*M < 80*T` holds exactly when difflib's ratio (2M/T, or 1 for empty texts) times 100 is below 80 |
| Recitation.JudgeTooShort | quran_memorization_tool.py:455-456 | a recitation is ignored exactly when its normalised form has fewer than three characters |
| Recitation.JudgeByRatio | quran_memorization_tool.py:449-458 | otherwise the verdict is low exactly when the similarity percentage of the normalised texts is below 80, and carries M and T |
| Recitation.JudgeSeesWords | quran_memorization_tool.py:449-458 | two recitations whose filtered texts split into the same words get the same verdict, however the chunks and spaces fell |
| Recitation.FilteredWords | quran_memorization_tool.py:399-402 | filtering the space-joined chunks and splitting gives the words of the separately filtered chunks |
| Recitation.JudgeSeesChunkWords | quran_memorization_tool.py:443-458 | two series of recognised chunks whose filtered words agree get the same verdict, however the chunks and spaces fell |
| Recitation.DebounceKeepsSpacing | quran_memorization_tool.py:459-461 | a buzz allowed by the two-second test and stamped no earlier keeps consecutive buzzes more than two seconds apart |
| Recitation.SpacedPairwise | quran_memorization_tool.py:459-461 | spaced buzzes j - i apart in the log are more than 2(j - i) seconds apart |
| Sorting.SortedKeys | quran_memorization_tool.py:297 | `sorted(keys)` is strictly increasing and holds exactly the keys |
| Sorting.IncreasingCount | quran_memorization_tool.py:297-299 | an increasing list of exactly the keys has one element per key |
| Session.AyahsOfSorted | quran_memorization_tool.py:296-299 | the ayah list holds each ayah of the surah once, with its text, in ayah-number order |
| Session.LowEventsLog | quran_memorization_tool.py:458-469 | a low-similarity verdict schedules no advance and buzzes once or not at all |
| SessionFacts.InitialBuzzLog | quran_memorization_tool.py:57-79 | the fresh object has `_lastBuzzTime` unset and no buzz in its log |
| SessionFacts.StartListeningBuzzLog | quran_memorization_tool.py:352-368 | starting to listen keeps the last buzz time equal to that of the last buzz in the log |
| SessionFacts.StartListeningForSurahBuzzLog | quran_memorization_tool.py:237-264 | so does asking for a surah |
| SessionFacts.RecognizedBuzzLog | quran_memorization_tool.py:380-405 | so does handling a recognised utterance |
| SessionFacts.StartPracticeBuzzLog | quran_memorization_tool.py:285-319 | so does starting the practice of a surah |
| SessionFacts.DisplayBuzzLog | quran_memorization_tool.py:321-350 | so does displaying an ayah or the end of the session |
| SessionFacts.MoveBuzzLog | quran_memorization_tool.py:486-489 | so does moving to the next ayah |
| SessionFacts.CompareBuzzes | quran_memorization_tool.py:458-461 | a comparison buzzes, and sets `_lastBuzzTime` to the stamp, exactly when the ayah is in range, the verdict is low and the two-second test passes |
| SessionFacts.CompareBuzzLog | quran_memorization_tool.py:458-461 | a comparison keeps buzzes spaced and the last buzz time equal to the last buzz, provided the stamp is read no earlier than the test |
| SessionFacts.VerdictBuzzes | quran_memorization_tool.py:458-461 | acting on a verdict buzzes, and sets `_lastBuzzTime` to the stamp, exactly when the verdict is low and the two-second test passes |
| SessionFacts.CompareIgnored | quran_memorization_tool.py:443-456 | with the index past the list or a recitation too short, the comparison changes nothing at all |
| SessionFacts.CompareKeepsPlace | quran_memorization_tool.py:443-484 | a comparison never moves the index, the list, the mode, the surah, the listening flag or the recitation; afterwards the ayah is complete exactly when it was, or when the recitation scored at least 80% |
| SessionFacts.CompareAdvances | quran_memorization_tool.py:470-484 | a comparison schedules one advance exactly when it is the one that completes the ayah, and none otherwise |
| SessionFacts.VerdictAdvances | quran_memorization_tool.py:470-484 | acting on a verdict schedules one advance exactly when the verdict is high and the ayah was not yet complete |
| SessionFacts.CompletionFiresOnce | quran_memorization_tool.py:470-484 | over any series of comparisons on one ayah, at most one advance is scheduled, and exactly one when the ayah becomes complete; the index and list are unchanged |
| SessionFacts.StartListeningGuard | quran_memorization_tool.py:352-368 | starting to listen while listening is a no-op; otherwise it sets the flag, empties the recitation and starts the listener |
| SessionFacts.StartPracticeCases | quran_memorization_tool.py:285-319 | a loaded, non-empty surah gives its sorted ayahs, index 0, ayah mode, completed false; an absent surah changes no session field; an empty surah leaves the list empty and the mode, index and surah as they were |
| SessionFacts.DisplayCases | quran_memorization_tool.py:321-350 | past the end, listening stops; otherwise the recitation and the completed flag are cleared, listening is on, and nothing else is started when it already was |
| SessionFacts.MoveCases | quran_memorization_tool.py:486-489 | moving advances the index by exactly one when the ayah is complete, and does nothing otherwise |
| SessionFacts.StepsKeepBounds | quran_memorization_tool.py:237-489 | every operation keeps the index within 0..len(ayahList), except an advance made when the index is already past the last ayah (a stale advance, see `StaleAdvance`) and the practice of an empty surah from a later position |
| SessionFacts.EmptySurahLeavesPosition | quran_memorization_tool.py:296-308 | practising an empty surah from a position past 0 leaves the index beyond the now empty list |
| SessionFacts.SurahUtterance | quran_memorization_tool.py:386-395 | in surah mode a resolved surah other than 0 stops the listener and schedules its practice; otherwise "could not detect" is scheduled |
| SessionFacts.AyahUtterance | quran_memorization_tool.py:397-405 | in ayah mode the chunk's words are appended to the recitation's, and the transcript update and the comparison of the whole recitation are scheduled |
| SessionFacts.CompletionMessageOverwritten | quran_memorization_tool.py:321-331 | at the end of the session the completion message is followed by "Listening stopped", which is what stays on screen |
| SessionFacts.StaleAdvance | quran_memorization_tool.py:486-489 | an advance scheduled before a restart still fires: it reports a completed session of 0 ayahs and stops listening |
| SessionFacts.OneAyahPractised | quran_memorization_tool.py:470-489 | two good recitations of a displayed ayah complete it, schedule one advance, and that advance moves to the next ayah |
| SessionFacts.ServiceErrorMessageLost | quran_memorization_tool.py:414-418 | as written, the service-error callback leaves every field and the display unchanged, so no service-error message is shown, unlike the intended handler |
| SessionFacts.ServiceErrorReported | quran_memorization_tool.py:414-418 | with the message bound when the callback is scheduled, running it shows the service-error message and changes no session field |
| Tool.QuranMemorizationTool.constructor | quran_memorization_tool.py:57-79 | the new object has the empty session, the index `createSurahNameMapping` builds, and the microphone warning when there is no microphone |
| Tool.QuranMemorizationTool.StartListening | quran_memorization_tool.py:352-368 | updates the fields as `StartListeningStep` says |
| Tool.QuranMemorizationTool.StartListeningForSurah | quran_memorization_tool.py:237-264 | updates the fields as `StartListeningForSurahStep` says |
| Tool.QuranMemorizationTool.StopListening | quran_memorization_tool.py:551-558 | clears the listening flag and shows "Listening stopped", changing nothing else |
| Tool.QuranMemorizationTool.OnRecognized | quran_memorization_tool.py:380-405 | updates the fields as `RecognizedStep` says |
| Tool.QuranMemorizationTool.OnUnrecognized | quran_memorization_tool.py:407-413 | schedules "could not understand" in surah mode, and does nothing in ayah mode |
| Tool.QuranMemorizationTool.OnServiceError | quran_memorization_tool.py:414-418 | schedules the service-error message, as `ServiceErrorStep` says (the corrected handler; see Findings) |
| Tool.QuranMemorizationTool.LoadAyahs | quran_memorization_tool.py:296-299 | the loop leaves `ayahList` equal to the surah's ayahs in sorted order (`AyahsOf`) |
| Tool.QuranMemorizationTool.StartPracticeForSurah | quran_memorization_tool.py:285-319 | updates the fields as `StartPracticeStep` says |
| Tool.QuranMemorizationTool.BeginPractice | quran_memorization_tool.py:301-319 | after loading, an empty list reports "no ayahs"; otherwise the surah, index 0, ayah mode and completed false are set and the display is scheduled, as `PracticeStep` says |
| Tool.QuranMemorizationTool.DisplayCurrentAyah | quran_memorization_tool.py:321-350 | updates the fields as `DisplayStep` says |
| Tool.QuranMemorizationTool.PresentAyah | quran_memorization_tool.py:332-350 | showing the current ayah clears the transcript, the recitation and the completed flag, shows the progress and starts listening when not already, as `ShowStep` says |
| Tool.QuranMemorizationTool.CompareRecitation | quran_memorization_tool.py:443-484 | updates the fields as `CompareStep` says |
| Tool.QuranMemorizationTool.ReportLowSimilarity | quran_memorization_tool.py:458-469 | the below-80% branch updates the fields as `VerdictStep` says for a low verdict |
| Tool.QuranMemorizationTool.ReportHighSimilarity | quran_memorization_tool.py:470-484 | the 80%-or-more branch updates the fields as `VerdictStep` says for a high verdict, whatever the clock reads |
| Tool.QuranMemorizationTool.MoveToNextAyah | quran_memorization_tool.py:486-489 | updates the fields as `MoveStep` says |
| Tool.QuranMemorizationTool.RunCallback | quran_memorization_tool.py:430-507 | running a scheduled callback updates the fields as `CallbackStep` says |

## Left out

- The tkinter interface (`setupGUI`, text widgets, tags, colours, button states) is reduced to events in the log. `updateRecitedText` is modelled only by its feedback message, `removeHighlight` changes nothing, and the highlight helpers are `MarkTranscript` and `HighlightReference` events.
- `loadQuranData`, which reads a CSV file, is left out. The loaded data is a `map<int, map<int, string>>` given to the constructor.
- The speech recogniser, the microphone, `calibrateMicrophone` and the PyAudio probe are foreign services. A recognition outcome is an input of `OnRecognized`, `OnUnrecognized` or `OnServiceError`, and the probe's outcome is the constructor's `microphoneAvailable`.
- The `listenThread` loop and its threading are left out. Its `WaitTimeoutError` path does nothing, and its catch-all path schedules an error message and ends the thread. The model has only the per-result handlers, which the driver calls while the object is listening.
- `playBuzzSound` and `playSystemBeep` (numpy, pygame, OS audio) become one `Buzz` event.
- The internals of `difflib.SequenceMatcher` and its float ratio are left out. The matcher is an abstract matched-character count, so no property of the matcher (such as symmetry) is assumed.
- The Unicode tables are uninterpreted character functions. These are NFKD decomposition, `unicodedata.combining`, `str.isspace`, `str.lower` and the decimal value of a `\d` digit. `str.lower` is taken per code point, so the context rule for a final Greek sigma is not modelled.
- The text of each message is left out. A message is a datatype constructor that carries the values the source formats into it; the percentage is carried as M and T.
- The catch-all `except Exception as e` path of `listenThread` (lines 422-428) schedules a lambda that reads the same kind of unbound `e`, so that message would not be shown either. It is left out with the thread loop.
- Session.ServiceErrorStepAsWritten: assumes the listening thread is not inside another `except ... as e` clause when Tk runs the callback. Inside one, the lambda would read that clause's exception instead of raising.
- Session.RecognizedStep: the "could not detect" callback reads `recognizedText` when it runs, not when it is scheduled. The model binds the text at scheduling time. The two differ only if the thread recognises another utterance before the event loop runs the callback.
- `startAyah` and `endAyah` are set in `__init__` and never read, so they are not modelled.

## Findings

| source | as written | input that shows it | evidently intended | confidence | as-written member | corrected member |
|---|---|---|---|---|---|---|
| quran_memorization_tool.py:414-418 | the lambda passed to `root.after` formats `e`, which Python 3 deletes when the `except sr.RequestError as e` clause ends, so Tk reports `NameError` and the label keeps its old text | any `RequestError` from the recogniser, followed by the event loop running the scheduled callback | the label shows "Error with speech recognition service: ..." | not executed | SessionFacts.ServiceErrorMessageLost | SessionFacts.ServiceErrorReported |
