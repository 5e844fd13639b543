# Speech-to-text session model

A Dafny model of the session logic of the speech-to-text client component
`src/SpeechToText.js`. The component streams microphone audio over a web
socket to a recognition server and shows what comes back: a live
(partial) transcript, a committed (final) transcript, and a record of
extracted medical terms by category. Finished sessions go into a history
list, newest first, capped at 50 entries.

Without React, the browser audio APIs and the socket, the component is a
set of state transitions over one record: `liveTranscript`,
`finalTranscript`, `extractedData`, `isListening`, `isLoading`,
`isResultFinal`, `error`, `history`, the selected language and the
`hasCompletedSuccessfully` flag. The model has these parts:

- `Js`: the JavaScript semantics the code relies on. It covers `trim`, with
  the ECMA-262 WhiteSpace and LineTerminator characters, and `||` defaults on
  values that may be absent.
- `Seqs`: `filter` on sequences and the subsequence order it keeps.
- `Terms`: the extracted-terms record, the add-term and remove-term edits, and
  the split into populated and empty categories for display.
- `History`: the capped newest-first insert and delete-by-id.
- `Session`: the state record and its transitions. These are the server
  message reducer `Step` (`ws.onmessage`), the start and stop guards, the
  socket open/error/close handlers, the microphone button, loading a saved
  history entry, clearing the history, the language buttons, and a
  `Dispatch` over all events.
- `Traces`: sequences of messages and events. It covers how the committed
  text accumulates, what the `entities` fallback does across sessions, and an
  invariant that every event keeps.

The code has two stale closures. `ws.onmessage` and `ws.onclose` are created
inside `startStreaming`, so they read the state of the render in which the
start button was clicked. The model makes those reads explicit: `Step` takes
the fallback text as a parameter, and `OnClose` takes the state at start.
The corrected versions, `StepCurrent` and `OnCloseIntended`, read the
current state. `Dispatch` uses the corrected versions (see Findings).

Some behaviours of the code that a reader may not expect:

- Removing a term removes every equal term, because the code uses `filter`.
  It does not remove only the first match.
- Start is guarded by `isListening` alone. That flag only becomes true when
  the socket opens, so a second start before the socket opens is not a no-op.
- Two `entities` messages in one session push two history entries.
- An `error` message only clears the listening and loading flags. It does not
  stop capture or close the socket.

## Model

| member | source | states |
|---|---|---|
| Js.Trim | src/SpeechToText.js:188 | `trim` returns the slice of its input that has only whitespace outside it and no whitespace at either end; the result is empty exactly when the input is all whitespace |
| Js.TrimUnique | src/SpeechToText.js:188 | any slice with those properties equals `trim`'s result, so that property is an independent definition of `trim` |
| Js.TrimIdempotent | src/SpeechToText.js:188 | for every string s, Trim(Trim(s)) equals Trim(s) |
| Seqs.Filter | src/SpeechToText.js:203 | `filter` returns no more elements than it was given, and every element it returns passes the test |
| Seqs.FilterCounts | src/SpeechToText.js:203 | `filter` keeps every occurrence of a value that passes the test and drops every occurrence of a value that fails it |
| Seqs.FilterIsSubsequence | src/SpeechToText.js:203 | the elements `filter` keeps stay in their original relative order |
| Seqs.FilterAppend | src/SpeechToText.js:203 | filtering a concatenation is concatenating the filtered parts |
| Terms.AddItem | src/SpeechToText.js:185-197 | a cancelled or blank prompt leaves the record unchanged, including a missing record; otherwise the trimmed value is appended at the end of the category, the category is created when absent, and every other category keeps its terms |
| Terms.RemoveTerm | src/SpeechToText.js:200-205 | the category no longer contains the term; every other term keeps its multiplicity and order; other categories and the set of categories are unchanged |
| Terms.RemoveTermNoOpIffAbsent | src/SpeechToText.js:200-205 | removing a term leaves the record equal to before if and only if the term was absent from the category |
| Terms.RemoveTermIdempotent | src/SpeechToText.js:200-205 | removing a term a second time changes nothing |
| Terms.AddThenRemove | src/SpeechToText.js:185-205 | adding a value the category lacks and then removing its trimmed form gives back the original record |
| Terms.Partition | src/SpeechToText.js:255-261 | every key is in exactly one of the two parts: populated when it holds at least one term, empty otherwise; both parts keep the key order, and together they hold every key as often as the key list does |
| Terms.ResultsPanel | src/SpeechToText.js:255-265 | the "nothing detected" notice is shown exactly when there are categories and none holds a term; otherwise the cards come from the partition |
| History.Insert | src/SpeechToText.js:39-45 | the new entry is element 0; the rest is a prefix of the previous history; the length is one more than before, but at most 50 |
| History.InsertIntoFullEvictsOldest | src/SpeechToText.js:41 | inserting into a full history drops exactly its oldest (last) entry and adds the new one |
| History.InsertBelowCapKeepsAll | src/SpeechToText.js:41 | below the cap, inserting loses no entry |
| History.InsertAllIsNewestFirst | src/SpeechToText.js:39-45 | after any series of inserts the history is the inserted entries, latest first, followed by the old history, cut to 50: a bounded newest-first log |
| History.Delete | src/SpeechToText.js:179-183 | no entry with the id remains; every entry with another id keeps its multiplicity and its relative order |
| History.DeleteUndoesInsert | src/SpeechToText.js:179-183 | deleting an entry just inserted under a fresh id, into a history below the cap, gives back that history |
| Session.Step | src/SpeechToText.js:96-134 | a partial transcript replaces the live text only; a final one appends text and a space to the committed text and clears the live text; `entities` sets the result-final and completed flags and clears loading; without an error field it sets the text to the server's final text or the fallback, replaces the terms wholesale (`{}` when absent), sets the language (default `en`) and adds exactly one history entry; with an error field it shows `Processing Error: ` and the error, takes the terms, and keeps the text, language and history; a missing `data` object shows the parse failure message after the flags are set; an `error` message shows its text and clears listening and loading; an unparsable message shows the parse failure message; other types change nothing |
| Session.StepCurrent | src/SpeechToText.js:115 | corrected reducer: when an `entities` message has data, no error and no final text, the committed text stays as it is, the history gains one entry (the old history cut to 49 behind it) that records that text, and every other field (terms, flags, language, error) is what the handler as written sets; for every other message, `entities` ones with a final text, an error or no data included, the result is the handler as written with any fallback whatever |
| Session.Start | src/SpeechToText.js:47-55 | while listening, start changes nothing and opens no socket; otherwise it clears both transcripts, the terms, the error and the loading, result-final and completed flags, keeps the history and language, and opens a socket |
| Session.StartIdempotent | src/SpeechToText.js:47-55 | a second start from the state a start produced resets nothing further, and it opens another socket exactly when the first start was not ignored, because the guard reads only `isListening` |
| Session.StopSeen | src/SpeechToText.js:154-167 | `stopStreaming` as a closure over an earlier render: a no-op when that render was neither listening nor loading; otherwise listening ends, loading turns on if that render had non-blank text and is otherwise kept, nothing else changes, and `end_stream` is sent exactly when signalling was asked for and the socket is open |
| Session.Stop | src/SpeechToText.js:154-167 | with neither listening nor loading, stop changes nothing and sends nothing; otherwise listening ends, the loading flag turns on if and only if it was on or the trimmed final or live text is non-empty, `end_stream` is sent if and only if signalling is asked for and the socket is open, and every other field (texts, terms, history, error, language, result-final and completed flags) is unchanged |
| Session.StopIdempotent | src/SpeechToText.js:154-167 | a second stop leaves the state the first stop left |
| Session.OnOpen | src/SpeechToText.js:68-69 | opening the socket sets listening and changes nothing else |
| Session.OnError | src/SpeechToText.js:136-142 | a socket error shows the connection failure message only when no result has arrived, and always clears listening and loading |
| Session.OnClose | src/SpeechToText.js:144-148 | close handler as written: it does nothing unless the render at start was listening |
| Session.OnCloseNeverStops | src/SpeechToText.js:144-148 | for any socket that a start actually opened, the close handler as written leaves the state unchanged |
| Session.OnCloseLeavesListening | src/SpeechToText.js:144-148 | an example, not a general claim: the state that is listening with committed text "hello ", after a start from the first render, is still listening once the as-written close handler runs; `Session.OnCloseNeverStops` states the general fact for every state |
| Session.OnCloseIntended | src/SpeechToText.js:144-147 | corrected close handler: listening always ends; if it was listening, loading turns on when there was non-blank text; if it was not listening, nothing changes |
| Session.Click | src/SpeechToText.js:169 | while loading the click is ignored; while listening it stops, its state is exactly that of `stopStreaming` with signalling asked for, and it sends `end_stream` exactly when the socket is open; otherwise it starts and opens a socket |
| Session.LoadHistory | src/SpeechToText.js:171-177 | the entry's text and terms are put on show as a final result, its language is selected (English when the entry has none), and every other field is unchanged |
| Session.LoadRestoresSavedResult | src/SpeechToText.js:171-175 | loading the entry a successful `entities` message saved, from any later state, puts back the text, terms and language that message showed |
| Session.ClearHistory | src/SpeechToText.js:216 | "Clear All" empties the history and changes no other field |
| Session.SelectLanguage | src/SpeechToText.js:241-242 | a language button is ignored while listening (it is disabled then) and otherwise selects the language and changes no other field |
| Session.SelectedLanguageReachesSession | src/SpeechToText.js:241-242 | a language picked while not listening is the language of the session the next start opens; a pick while listening leaves the running session's language as it was |
| Session.ClickNeverSignalsTwice | src/SpeechToText.js:154-169 | two clicks in a row never both send `end_stream` |
| Session.Dispatch | src/SpeechToText.js:47-205 | every event, including loading or clearing the history and picking a language, keeps the invariant: history at most 50, and a completed session has its result-final flag set; a socket opens only from a state that was neither listening nor loading; `end_stream` goes out only on an open socket from a listening state, which it leaves |
| Traces.TranscriptsIgnoreFallback | src/SpeechToText.js:99-105 | on transcript messages alone, the handler as written and the corrected one give the same state |
| Traces.FinalsAccumulate | src/SpeechToText.js:100-102 | a run of final transcripts appends each text and a space, in arrival order, clears the live text, and changes nothing else |
| Traces.PartialsSupersede | src/SpeechToText.js:103-105 | after a run of partial transcripts, the live text is the last one and nothing else has changed |
| Traces.PartialsThenFinal | src/SpeechToText.js:99-105 | partials followed by a final transcript leave the committed text extended by the final text and a space, and the live text empty |
| Traces.FallbackKeepsSessionText | src/SpeechToText.js:115 | with the corrected handler, a session whose server sends no final text ends with exactly the text its final transcripts committed |
| Traces.AsWrittenFallbackIsPreviousText | src/SpeechToText.js:115 | as written, such a session ends with the previous session's text, whatever it transcribed |
| Traces.StaleFallbackExample | src/SpeechToText.js:115 | previous text "old ", this session's final "new", no server final text: as written the result is "old ", corrected it is "new " |
| Traces.ReplayKeepsInv | src/SpeechToText.js:39-45 | over any sequence of events the invariant holds: the history never exceeds 50 entries and a completed session has its result-final flag set |
| Traces.InitialKeepsInv | src/SpeechToText.js:39-45 | starting from the first render, no sequence of events takes the history past 50 entries |
| Traces.HelloWorldScenario | src/SpeechToText.js:99-105 | start, then partial "hello": the live text is "hello" and the committed text is empty; then final "hello world": the committed text is "hello world " and the live text is empty |
| Traces.ProcessingErrorScenario | src/SpeechToText.js:106-113 | an `entities` message with error "low confidence" and terms `{symptoms: [fever]}` marks the result final, shows "Processing Error: low confidence", takes the terms and adds no history entry |

## Left out

- Audio capture is not modelled. This covers `getUserMedia`, `AudioContext`, the worklet node and its wiring (src/SpeechToText.js:70-94), and `public/audio-processor.js`. They are device I/O and asynchronous platform callbacks.
- The float-to-16-bit PCM conversion (src/SpeechToText.js:85) is floating-point numerics and is not modelled.
- Stopping the media tracks and closing the audio context (src/SpeechToText.js:158-160) are device I/O. `Stop` models only the flags and the `end_stream` signal.
- The socket itself is not modelled: its construction, URL and `readyState`. A start reports only that a socket is opened. Whether the socket is open is a parameter. Message delivery order is assumed to be arrival order.
- `JSON.parse` is not modelled. A message arrives already parsed as `Msg`, and unparsable text is `Unparseable`. Fields of the wrong JSON type, such as a missing `text`, are not modelled.
- `localStorage` is not modelled: loading the history at mount, writing after insert and delete, and removing the key (src/SpeechToText.js:28-37, 42, 182). It is persistence.
- `Date.now()` and `toISOString()` are passed in as a `Clock`. The result of `window.prompt` is passed in as an optional string. The runs in `Traces` use one clock reading for all their messages.
- Hiding the history panel when an entry is loaded (src/SpeechToText.js:176) is not modelled, nor is the history panel toggle and close button (lines 210, 217). They change only `isHistoryVisible`, which is display state outside the session record. The rest of the JSX is not modelled either, apart from the results panel.
- The `Object.keys` order of the terms record is a parameter of `Terms.Partition`, because a Dafny map has no key order.
- JavaScript strings are sequences of UTF-16 code units. Here a character is a Unicode scalar value.
- Terms.RemoveTerm: it requires that the category is present. The code throws a `TypeError` otherwise, and the panel only offers removal for categories it shows.
- Traces.Replay: a removal the panel cannot offer ends the replay. The code would throw there.
- Session.Start: a socket constructor that throws (src/SpeechToText.js:149-151) is not modelled. The constructor throws, for example, when the language in the URL holds a `#`. In the model a start that passes the guard always opens a socket.
- Session.Dispatch: it uses the corrected reducer and close handler from Findings. The as-written versions are `Session.Step` with an explicit fallback and `Session.OnClose`.
- Session.Inv: it states only that a completed session has its result-final flag set, not the converse. Loading a history entry sets that flag without a completed session.
- Session.Inv: it does not promise that a completed session shows the results panel. An `entities` message without `data` (src/SpeechToText.js:107-111) completes the session and sets the flag but leaves the terms as they were, so after a fresh start they are still absent and the panel, which also needs the terms (line 250), stays hidden and only the failure message shows.

## Findings

| source | as written | input that shows it | evidently intended | confidence | as-written member | corrected member |
|---|---|---|---|---|---|---|
| src/SpeechToText.js:115 | the fallback `finalTranscript` is the one captured when `startStreaming` ran, which is the previous session's text, not this session's accumulated text | the previous session ended with "old "; this session receives final transcript "new", then `entities` without `final_english_text`; the text becomes "old " | the text committed in this session, "new " | high for the stale capture, medium for the intent; not executed | Traces.AsWrittenFallbackIsPreviousText | Session.StepCurrent |
| src/SpeechToText.js:144-147 | `onclose` tests the `isListening` captured when `startStreaming` ran, which the start guard makes false, so it never calls `stopStreaming` | listening with committed text "hello " when the socket closes; afterwards `isListening` is still true | stop the session without signalling the server when the socket closes while listening | high for the stale capture, medium for the intent; not executed | Session.OnCloseNeverStops | Session.OnCloseIntended |
