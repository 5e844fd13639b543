/** The session state of the speech-to-text component (src/SpeechToText.js)
    and its transitions: the reducer for server messages, the start and stop
    guards, the socket events, the microphone button and the result edits.
    Audio capture, the socket itself, storage and the clock are outside the
    model; what the code reads from them arrives as parameters. */
module Session {
  import opened Js
  import Terms
  import History

  /** The component's state variables (src/SpeechToText.js:6-18) together with
      the `hasCompletedSuccessfully` flag (line 26), here `completed`. */
  datatype State = State(
    liveTranscript: string,
    finalTranscript: string,
    extractedData: Option<Terms.Terms>,
    isListening: bool,
    isLoading: bool,
    isResultFinal: bool,
    error: string,
    history: seq<History.Entry>,
    language: string,
    completed: bool)

  const DefaultLanguage := "en"

  /** The state on first render, before any saved history is loaded. */
  const Initial := State("", "", None, false, false, false, "", [], DefaultLanguage, false)

  const ProcessingErrorPrefix := "Processing Error: "
  const ResponseFailure := "Failed to process server response"
  const ConnectionFailure := "Connection to server failed. Please ensure the backend is running."

  /** The `data` object of an `entities` message; every field may be absent. */
  datatype EntitiesData = EntitiesData(
    extractedTerms: Option<Terms.Terms>,
    finalEnglishText: Option<string>,
    sourceLanguage: Option<string>,
    error: Option<string>)

  /** A server message after `JSON.parse`, by its `type` field. `OtherType` is
      a parsed message of any other type; `Unparseable` is text that
      `JSON.parse` rejects. `Entities(None)` is an `entities` message without
      a `data` object. */
  datatype Msg =
    | Transcript(text: string, isFinal: bool)
    | Entities(data: Option<EntitiesData>)
    | ServerError(message: string)
    | OtherType
    | Unparseable

  /** The readings of `Date.now()` and `new Date().toISOString()`. */
  datatype Clock = Clock(now: int, iso: string)

  /** `extracted_terms || {}`. */
  function TermsOrEmpty(d: EntitiesData): Terms.Terms {
    d.extractedTerms.GetOr(map[])
  }

  /** `source_language || 'en'`. */
  function LanguageOf(d: EntitiesData): string {
    Or(d.sourceLanguage, DefaultLanguage)
  }

  /** `ws.onmessage` (src/SpeechToText.js:96-134). `fallback` is the
      `finalTranscript` the handler closed over, which the code uses when the
      server sends no `final_english_text`. */
  function Step(s: State, m: Msg, fallback: string, clock: Clock): (r: State)
    // A partial transcript replaces the live text and touches nothing else.
    ensures m.Transcript? && !m.isFinal ==>
      r.liveTranscript == m.text && r == s.(liveTranscript := r.liveTranscript)
    // A final transcript extends the committed text by the text and a space,
    // and clears the live text.
    ensures m.Transcript? && m.isFinal ==>
      && r.finalTranscript == s.finalTranscript + m.text + " "
      && r.liveTranscript == ""
      && r == s.(finalTranscript := r.finalTranscript, liveTranscript := "")
    // Every entities message ends the wait for a result.
    ensures m.Entities? ==> r.completed && r.isResultFinal && !r.isLoading
    ensures m.Entities? ==>
      && r.liveTranscript == s.liveTranscript
      && r.isListening == s.isListening
    // Success: the text is the server's final text or the fallback, the
    // terms are replaced wholesale and exactly one history entry is added.
    ensures m.Entities? && m.data.Some? && !Truthy(m.data.value.error) ==>
      var d := m.data.value;
      && r.error == ""
      && r.finalTranscript == (if Truthy(d.finalEnglishText) then d.finalEnglishText.value else fallback)
      && r.extractedData == Some(TermsOrEmpty(d))
      && r.language == LanguageOf(d)
      && r.history == History.Insert(s.history, History.Entry(clock.now, r.finalTranscript, TermsOrEmpty(d), r.language, clock.iso))
    // A server-side processing error is shown; the terms are still taken,
    // but the text, language and history stay.
    ensures m.Entities? && m.data.Some? && Truthy(m.data.value.error) ==>
      && r.error == ProcessingErrorPrefix + m.data.value.error.value
      && r.extractedData == Some(TermsOrEmpty(m.data.value))
      && r.finalTranscript == s.finalTranscript
      && r.language == s.language
      && r.history == s.history
    // Without a data object the handler throws after settling the flags.
    ensures m.Entities? && m.data.None? ==>
      r == s.(completed := true, isResultFinal := true, isLoading := false, error := ResponseFailure)
    // An error message stops the session and shows its text.
    ensures m.ServerError? ==>
      r == s.(error := m.message, isLoading := false, isListening := false)
    ensures m.OtherType? ==> r == s
    ensures m.Unparseable? ==> r == s.(error := ResponseFailure)
  {
    match m
    case Transcript(text, isFinal) =>
      if isFinal then s.(finalTranscript := s.finalTranscript + text + " ", liveTranscript := "")
      else s.(liveTranscript := text)
    case Entities(data) =>
      var settled := s.(completed := true, isLoading := false, isResultFinal := true, error := "");
      if data.None? then settled.(error := ResponseFailure)
      else if Truthy(data.value.error) then
        settled.(error := ProcessingErrorPrefix + data.value.error.value,
                 extractedData := Some(TermsOrEmpty(data.value)))
      else
        var text := Or(data.value.finalEnglishText, fallback);
        var entry := History.Entry(clock.now, text, TermsOrEmpty(data.value), LanguageOf(data.value), clock.iso);
        settled.(finalTranscript := text,
                 extractedData := Some(TermsOrEmpty(data.value)),
                 language := LanguageOf(data.value),
                 history := History.Insert(s.history, entry))
    case ServerError(message) =>
      s.(error := message, isLoading := false, isListening := false)
    case OtherType =>
      s
    case Unparseable =>
      s.(error := ResponseFailure)
  }

  /** The reducer with the fallback the code evidently means: the text
      committed so far in this session. When the server sends no final text,
      the committed text stays as it is and is what the history entry
      records; everything else is what the handler as written does. Every
      other message does not read the fallback at all. */
  function StepCurrent(s: State, m: Msg, clock: Clock): (r: State)
    ensures m.Entities? && m.data.Some? && !Truthy(m.data.value.error) && !Truthy(m.data.value.finalEnglishText) ==>
      r.finalTranscript == s.finalTranscript && |r.history| > 0 && r.history[0].text == s.finalTranscript
    ensures m.Entities? && m.data.Some? && !Truthy(m.data.value.error) && !Truthy(m.data.value.finalEnglishText) ==>
      var w := Step(s, m, "", clock);
      && r == w.(finalTranscript := s.finalTranscript, history := r.history)
      && r.history == History.Insert(s.history, w.history[0].(text := s.finalTranscript))
    ensures !(m.Entities? && m.data.Some? && !Truthy(m.data.value.error) && !Truthy(m.data.value.finalEnglishText)) ==>
      forall fb: string :: r == Step(s, m, fb, clock)
    ensures !m.Entities? ==> r == Step(s, m, "", clock)
  {
    Step(s, m, s.finalTranscript, clock)
  }

  /** The outcome of `startStreaming`: the new state and whether a socket is
      opened. */
  datatype StartResult = StartResult(state: State, connects: bool)

  /** `startStreaming` up to the socket (src/SpeechToText.js:47-55, 65). While
      listening it does nothing; otherwise it clears the previous result and
      error and opens a socket. History and language are kept. */
  function Start(s: State): (r: StartResult)
    ensures s.isListening ==> r.state == s && !r.connects
    ensures !s.isListening ==>
      && r.connects
      && r.state.finalTranscript == "" && r.state.liveTranscript == ""
      && r.state.extractedData.None? && r.state.error == ""
      && !r.state.isLoading && !r.state.isResultFinal && !r.state.completed
      && !r.state.isListening
      && r.state.history == s.history && r.state.language == s.language
  {
    if s.isListening then StartResult(s, false)
    else
      StartResult(s.(completed := false, isResultFinal := false, finalTranscript := "",
                     liveTranscript := "", extractedData := None, error := "", isLoading := false),
                  true)
  }

  /** A second start from the state a start produced resets nothing further,
      but it opens another socket unless the first start was ignored: the
      guard reads `isListening`, which only the socket's open event sets. */
  lemma StartIdempotent(s: State)
    ensures Start(Start(s).state).state == Start(s).state
    ensures Start(Start(s).state).connects == !s.isListening
  {
  }

  /** The outcome of `stopStreaming`: the new state and whether the
      `{"type": "end_stream"}` control message is sent. */
  datatype StopResult = StopResult(state: State, endStreamSent: bool)

  /** Some committed or live text is more than whitespace. */
  predicate HasText(s: State) {
    Trim(s.finalTranscript) != "" || Trim(s.liveTranscript) != ""
  }

  /** `stopStreaming` (src/SpeechToText.js:154-167) as a closure that reads the
      flags and texts of the render it was created in (`seen`) and updates the
      current state `s`. `socketOpen` says whether the socket exists and is
      open. */
  function StopSeen(s: State, seen: State, shouldSignalServer: bool, socketOpen: bool): (r: StopResult)
    ensures !seen.isListening && !seen.isLoading ==> r == StopResult(s, false)
    ensures seen.isListening || seen.isLoading ==>
      && !r.state.isListening
      && r.state.isLoading == (s.isLoading || HasText(seen))
      && r.state == s.(isListening := false, isLoading := r.state.isLoading)
      && r.endStreamSent == (shouldSignalServer && socketOpen)
  {
    if !seen.isListening && !seen.isLoading then StopResult(s, false)
    else
      var loading := if HasText(seen) then true else s.isLoading;
      StopResult(s.(isListening := false, isLoading := loading), shouldSignalServer && socketOpen)
  }

  /** `stopStreaming` called from the current render. Without an active or
      pending session it does nothing. Otherwise listening ends, the spinner
      turns on only if some text is more than whitespace, and `end_stream` is
      sent exactly when asked for and the socket is open. */
  function Stop(s: State, shouldSignalServer: bool, socketOpen: bool): (r: StopResult)
    ensures !s.isListening && !s.isLoading ==> r.state == s && !r.endStreamSent
    ensures s.isListening || s.isLoading ==>
      && !r.state.isListening
      && (r.state.isLoading <==> s.isLoading || HasText(s))
      && r.state.finalTranscript == s.finalTranscript
      && r.state.liveTranscript == s.liveTranscript
      && r.state.extractedData == s.extractedData
      && r.state.history == s.history
      && r.state.error == s.error
      && (r.endStreamSent <==> shouldSignalServer && socketOpen)
      && r.state == s.(isListening := false, isLoading := r.state.isLoading)
  {
    StopSeen(s, s, shouldSignalServer, socketOpen)
  }

  /** Stopping twice leaves the state stopping once leaves. (The second call
      may still send `end_stream` again when it is asked to; the button never
      makes that call, see `ClickNeverSignalsTwice`.) */
  lemma StopIdempotent(s: State, a: bool, b: bool, open1: bool, open2: bool)
    ensures Stop(Stop(s, a, open1).state, b, open2).state == Stop(s, a, open1).state
  {
  }

  /** `ws.onopen` as far as the state goes (src/SpeechToText.js:68-69). */
  function OnOpen(s: State): (r: State)
    ensures r.isListening && r == s.(isListening := true)
  {
    s.(isListening := true)
  }

  /** `ws.onerror` (src/SpeechToText.js:136-142): the connection error is shown
      only if no result has arrived; listening and loading end either way. */
  function OnError(s: State): (r: State)
    ensures !r.isListening && !r.isLoading
    ensures r.error == (if s.completed then s.error else ConnectionFailure)
    ensures r == s.(isListening := false, isLoading := false, error := r.error)
  {
    var shown := if s.completed then s.error else ConnectionFailure;
    s.(error := shown, isLoading := false, isListening := false)
  }

  /** `ws.onclose` as written (src/SpeechToText.js:144-148): both the
      `isListening` it tests and the `stopStreaming` it calls are those of the
      render in which `startStreaming` ran, whose state was `atStart`. */
  function OnClose(s: State, atStart: State, socketOpen: bool): (r: State)
    ensures !atStart.isListening ==> r == s
    ensures atStart.isListening ==> !r.isListening
  {
    if atStart.isListening then StopSeen(s, atStart, false, socketOpen).state else s
  }

  /** A socket only exists after a start that connected, and that start saw
      `isListening` false; so the close handler never stops anything, even
      when the session is still listening. */
  lemma OnCloseNeverStops(s: State, atStart: State, socketOpen: bool)
    requires Start(atStart).connects
    ensures OnClose(s, atStart, socketOpen) == s
  {
  }

  /** A concrete case: listening with text when the socket closes, the state
      still says it is listening afterwards. */
  lemma OnCloseLeavesListening()
    ensures var s := Initial.(isListening := true, finalTranscript := "hello ");
            Start(Initial).connects && OnClose(s, Initial, false).isListening
  {
  }

  /** The close handler as intended: if the current state is listening, stop
      without signalling the server (the socket is gone). */
  function OnCloseIntended(s: State, socketOpen: bool): (r: State)
    ensures !r.isListening
    ensures s.isListening ==> r.isLoading == (s.isLoading || HasText(s))
    ensures !s.isListening ==> r == s
    ensures r == s.(isListening := false, isLoading := r.isLoading)
  {
    if s.isListening then Stop(s, false, socketOpen).state else s
  }

  /** What one user or socket event produces: the new state, whether a socket
      is opened and whether `end_stream` is sent. */
  datatype Reaction = Reaction(state: State, connects: bool, endStreamSent: bool)

  /** `handleMicClick` (src/SpeechToText.js:169) behind the button, which is
      disabled while loading (line 312). */
  function Click(s: State, socketOpen: bool): (r: Reaction)
    ensures s.isLoading ==> r == Reaction(s, false, false)
    ensures !s.isLoading && s.isListening ==>
      && !r.state.isListening && !r.connects && (r.endStreamSent <==> socketOpen)
      && r.state == Stop(s, true, socketOpen).state
    ensures !s.isLoading && !s.isListening ==>
      r.connects && !r.endStreamSent && r.state == Start(s).state
  {
    if s.isLoading then Reaction(s, false, false)
    else if s.isListening then
      var stopped := Stop(s, true, socketOpen);
      Reaction(stopped.state, false, stopped.endStreamSent)
    else
      var started := Start(s);
      Reaction(started.state, started.connects, false)
  }

  /** Two clicks in a row never send `end_stream` twice: a click that sends it
      leaves the state not listening, so the next click starts a new session
      or is ignored. */
  lemma ClickNeverSignalsTwice(s: State, open1: bool, open2: bool)
    ensures !(Click(s, open1).endStreamSent && Click(Click(s, open1).state, open2).endStreamSent)
  {
  }

  /** Every input the component reacts to. */
  datatype Event =
    | MicClicked
    | SocketOpened
    | SocketFailed
    | SocketClosed
    | Received(msg: Msg)
    | AddTerm(category: string, input: Option<string>)
    | RemoveTerm(category: string, term: string)
    | DeleteHistory(id: int)
    | LoadHistory(entry: History.Entry)
    | ClearHistory
    | SelectLanguage(lang: string)

  /** A term can be removed from a category the results panel shows. */
  predicate CanRemove(s: State, category: string) {
    s.extractedData.Some? && category in s.extractedData.value
  }

  /** `handleLoadHistory` (src/SpeechToText.js:171-177): a saved entry's text,
      terms and language (English when it has none) are put on show as a
      final result. The session flags, the live text, the error and the
      history stay as they are. */
  function LoadHistory(s: State, e: History.Entry): (r: State)
    ensures r.finalTranscript == e.text && r.extractedData == Some(e.terms) && r.isResultFinal
    ensures r.language == (if e.language == "" then DefaultLanguage else e.language)
    ensures r == s.(finalTranscript := e.text, extractedData := Some(e.terms),
                    language := r.language, isResultFinal := true)
  {
    s.(finalTranscript := e.text, extractedData := Some(e.terms),
       language := Or(Some(e.language), DefaultLanguage), isResultFinal := true)
  }

  /** Loading the entry a successful `entities` message saved, in whatever
      state the component is in later, puts back the text, terms and language
      that message put on show. */
  lemma LoadRestoresSavedResult(s: State, d: EntitiesData, fallback: string, clock: Clock, later: State)
    requires !Truthy(d.error)
    ensures var r := Step(s, Entities(Some(d)), fallback, clock);
            var l := LoadHistory(later, r.history[0]);
            && l.finalTranscript == r.finalTranscript
            && l.extractedData == r.extractedData
            && l.language == r.language
            && l.isResultFinal
  {
  }

  /** The "Clear All" button (src/SpeechToText.js:216): the history becomes
      empty and nothing else changes. (The button is disabled on an empty
      history, where the click would change nothing anyway.) */
  function ClearHistory(s: State): (r: State)
    ensures r.history == [] && r == s.(history := [])
  {
    s.(history := [])
  }

  /** A language button (src/SpeechToText.js:241-242, which offer "en" and
      "ml"): disabled while listening, otherwise it selects the language and
      nothing else changes. */
  function SelectLanguage(s: State, lang: string): (r: State)
    ensures s.isListening ==> r == s
    ensures !s.isListening ==> r.language == lang && r == s.(language := lang)
  {
    if s.isListening then s else s.(language := lang)
  }

  /** The language picked before a start is the one the new session records
      (and which the socket URL carries, src/SpeechToText.js:60); a pick
      while listening cannot change the running session's language. */
  lemma SelectedLanguageReachesSession(s: State, lang: string)
    ensures !s.isListening ==>
      && Start(SelectLanguage(s, lang)).connects
      && Start(SelectLanguage(s, lang)).state.language == lang
    ensures s.isListening ==> SelectLanguage(s, lang).language == s.language
  {
  }

  /** The invariant the component keeps: the history stays within its cap,
      and once the session has received its `entities` message the
      result-final flag is set. (Loading a history entry sets that flag
      without a completed session, so the converse does not hold; and an
      `entities` message without `data` completes the session with no terms,
      so the results panel, which also needs the terms, stays hidden.) */
  predicate Inv(s: State) {
    |s.history| <= History.Cap && (s.completed ==> s.isResultFinal)
  }

  /** One event, with the corrected message reducer and close handler. */
  function Dispatch(s: State, e: Event, socketOpen: bool, clock: Clock): (r: Reaction)
    requires e.RemoveTerm? ==> CanRemove(s, e.category)
    ensures Inv(s) ==> Inv(r.state)
    ensures r.connects ==> !s.isListening && !s.isLoading
    ensures r.endStreamSent ==> socketOpen && s.isListening && !r.state.isListening
  {
    match e
    case MicClicked => Click(s, socketOpen)
    case SocketOpened => Reaction(OnOpen(s), false, false)
    case SocketFailed => Reaction(OnError(s), false, false)
    case SocketClosed => Reaction(OnCloseIntended(s, socketOpen), false, false)
    case Received(m) => Reaction(StepCurrent(s, m, clock), false, false)
    case AddTerm(category, input) =>
      Reaction(s.(extractedData := Terms.AddItem(s.extractedData, category, input)), false, false)
    case RemoveTerm(category, term) =>
      Reaction(s.(extractedData := Some(Terms.RemoveTerm(s.extractedData.value, category, term))), false, false)
    case DeleteHistory(id) =>
      Reaction(s.(history := History.Delete(s.history, id)), false, false)
    case LoadHistory(entry) =>
      Reaction(LoadHistory(s, entry), false, false)
    case ClearHistory =>
      Reaction(ClearHistory(s), false, false)
    case SelectLanguage(lang) =>
      Reaction(SelectLanguage(s, lang), false, false)
  }
}
