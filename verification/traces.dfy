/** Sequences of server messages and of events: how the committed text
    accumulates over a session, what the closed-over fallback of the
    `entities` handler does across sessions, and the invariant every event
    keeps. */
module Traces {
  import opened Js
  import opened Session
  import History

  /** The messages applied in order by the handler as written: every message
      sees the same closed-over fallback text. */
  function Run(s: State, ms: seq<Msg>, fallback: string, clock: Clock): State
    decreases |ms|
  {
    if ms == [] then s else Run(Step(s, ms[0], fallback, clock), ms[1..], fallback, clock)
  }

  /** The messages applied in order by the corrected handler. */
  function RunCurrent(s: State, ms: seq<Msg>, clock: Clock): State
    decreases |ms|
  {
    if ms == [] then s else RunCurrent(StepCurrent(s, ms[0], clock), ms[1..], clock)
  }

  /** A session as the code runs it: `startStreaming` from state `s0`, then the
      messages, whose handler closed over the `finalTranscript` of the render
      in which the start ran. */
  function SessionAsWritten(s0: State, ms: seq<Msg>, clock: Clock): State {
    Run(Start(s0).state, ms, s0.finalTranscript, clock)
  }

  /** The same session with the corrected handler. */
  function SessionIntended(s0: State, ms: seq<Msg>, clock: Clock): State {
    RunCurrent(Start(s0).state, ms, clock)
  }

  /** Final transcript messages carrying `texts`. */
  function Finals(texts: seq<string>): seq<Msg>
    decreases |texts|
  {
    if texts == [] then [] else [Transcript(texts[0], true)] + Finals(texts[1..])
  }

  /** Partial transcript messages carrying `texts`. */
  function Partials(texts: seq<string>): seq<Msg>
    decreases |texts|
  {
    if texts == [] then [] else [Transcript(texts[0], false)] + Partials(texts[1..])
  }

  /** Each text followed by a space, all joined. */
  function Spaced(texts: seq<string>): string
    decreases |texts|
  {
    if texts == [] then "" else texts[0] + " " + Spaced(texts[1..])
  }

  predicate AllTranscripts(ms: seq<Msg>) {
    forall i | 0 <= i < |ms| :: ms[i].Transcript?
  }

  lemma {:induction false} RunCurrentAppend(s: State, a: seq<Msg>, b: seq<Msg>, clock: Clock)
    ensures RunCurrent(s, a + b, clock) == RunCurrent(RunCurrent(s, a, clock), b, clock)
    decreases |a|
  {
    if a == [] {
      assert a + b == b;
    } else {
      assert (a + b)[0] == a[0] && (a + b)[1..] == a[1..] + b;
      RunCurrentAppend(StepCurrent(s, a[0], clock), a[1..], b, clock);
    }
  }

  lemma {:induction false} RunAppend(s: State, a: seq<Msg>, b: seq<Msg>, fallback: string, clock: Clock)
    ensures Run(s, a + b, fallback, clock) == Run(Run(s, a, fallback, clock), b, fallback, clock)
    decreases |a|
  {
    if a == [] {
      assert a + b == b;
    } else {
      assert (a + b)[0] == a[0] && (a + b)[1..] == a[1..] + b;
      RunAppend(Step(s, a[0], fallback, clock), a[1..], b, fallback, clock);
    }
  }

  /** Transcript messages never read the fallback, so on them the handler as
      written and the corrected one agree. */
  lemma {:induction false} TranscriptsIgnoreFallback(s: State, ms: seq<Msg>, fallback: string, clock: Clock)
    requires AllTranscripts(ms)
    ensures Run(s, ms, fallback, clock) == RunCurrent(s, ms, clock)
    decreases |ms|
  {
    if ms != [] {
      TranscriptsIgnoreFallback(Step(s, ms[0], fallback, clock), ms[1..], fallback, clock);
    }
  }

  lemma {:induction false} FinalsAreTranscripts(texts: seq<string>)
    ensures |Finals(texts)| == |texts|
    ensures AllTranscripts(Finals(texts))
    decreases |texts|
  {
    if texts != [] {
      FinalsAreTranscripts(texts[1..]);
    }
  }

  /** Final transcripts accumulate: the committed text grows by each text and
      a space, in arrival order, the live text ends empty, and nothing else
      changes. */
  lemma {:induction false} FinalsAccumulate(s: State, texts: seq<string>, clock: Clock)
    ensures var r := RunCurrent(s, Finals(texts), clock);
      && r.finalTranscript == s.finalTranscript + Spaced(texts)
      && (texts != [] ==> r.liveTranscript == "")
      && r == s.(finalTranscript := r.finalTranscript, liveTranscript := r.liveTranscript)
    decreases |texts|
  {
    if texts != [] {
      var s' := StepCurrent(s, Transcript(texts[0], true), clock);
      FinalsAccumulate(s', texts[1..], clock);
      assert s.finalTranscript + texts[0] + " " + Spaced(texts[1..]) == s.finalTranscript + Spaced(texts);
    }
  }

  /** Partial transcripts supersede one another: after any run of them the
      live text is the last one and the committed text is untouched. */
  lemma {:induction false} PartialsSupersede(s: State, texts: seq<string>, clock: Clock)
    requires texts != []
    ensures RunCurrent(s, Partials(texts), clock) == s.(liveTranscript := texts[|texts| - 1])
    decreases |texts|
  {
    var s' := StepCurrent(s, Transcript(texts[0], false), clock);
    if |texts| > 1 {
      PartialsSupersede(s', texts[1..], clock);
    }
  }

  /** Any run of partial transcripts followed by one final transcript commits
      exactly the final text and a space and leaves no live text. */
  lemma PartialsThenFinal(s: State, texts: seq<string>, t: string, clock: Clock)
    ensures var r := RunCurrent(s, Partials(texts) + [Transcript(t, true)], clock);
      r.finalTranscript == s.finalTranscript + t + " " && r.liveTranscript == ""
  {
    RunCurrentAppend(s, Partials(texts), [Transcript(t, true)], clock);
    if texts != [] {
      PartialsSupersede(s, texts, clock);
    }
  }

  /** With the corrected handler, a session whose server sends no final text
      keeps exactly the text its final transcripts committed. */
  lemma FallbackKeepsSessionText(s0: State, texts: seq<string>, d: EntitiesData, clock: Clock)
    requires !s0.isListening
    requires !Truthy(d.error) && !Truthy(d.finalEnglishText)
    ensures SessionIntended(s0, Finals(texts) + [Entities(Some(d))], clock).finalTranscript == Spaced(texts)
  {
    var st := Start(s0).state;
    RunCurrentAppend(st, Finals(texts), [Entities(Some(d))], clock);
    FinalsAccumulate(st, texts, clock);
  }

  /** As written, the same session ends with the text of the previous session
      (the `finalTranscript` on screen when the start was clicked), whatever
      this session transcribed. */
  lemma AsWrittenFallbackIsPreviousText(s0: State, texts: seq<string>, d: EntitiesData, clock: Clock)
    requires !s0.isListening
    requires !Truthy(d.error) && !Truthy(d.finalEnglishText)
    ensures SessionAsWritten(s0, Finals(texts) + [Entities(Some(d))], clock).finalTranscript == s0.finalTranscript
  {
    var st := Start(s0).state;
    RunAppend(st, Finals(texts), [Entities(Some(d))], s0.finalTranscript, clock);
    FinalsAreTranscripts(texts);
    TranscriptsIgnoreFallback(st, Finals(texts), s0.finalTranscript, clock);
  }

  /** The concrete input: the previous session ended with "old ", this one
      transcribes "new" and the server sends an `entities` message without a
      final text. */
  lemma StaleFallbackExample()
    ensures var s0 := Initial.(finalTranscript := "old ");
            var ms := [Transcript("new", true), Entities(Some(EntitiesData(None, None, None, None)))];
            && SessionAsWritten(s0, ms, Clock(0, "")).finalTranscript == "old "
            && SessionIntended(s0, ms, Clock(0, "")).finalTranscript == "new "
  {
    var s0 := Initial.(finalTranscript := "old ");
    var d := EntitiesData(None, None, None, None);
    assert Finals(["new"]) == [Transcript("new", true)];
    assert Spaced(["new"]) == "new ";
    AsWrittenFallbackIsPreviousText(s0, ["new"], d, Clock(0, ""));
    FallbackKeepsSessionText(s0, ["new"], d, Clock(0, ""));
  }

  /** An event together with the socket state and clock reading it meets. */
  datatype Stimulus = Stimulus(event: Event, socketOpen: bool, clock: Clock)

  /** The events applied in order. A removal from a category that is not on
      show (which the code would throw on, and the panel never offers) ends
      the replay. */
  function Replay(s: State, stimuli: seq<Stimulus>): State
    decreases |stimuli|
  {
    if stimuli == [] then s
    else
      var st := stimuli[0];
      if st.event.RemoveTerm? && !CanRemove(s, st.event.category) then s
      else Replay(Dispatch(s, st.event, st.socketOpen, st.clock).state, stimuli[1..])
  }

  /** Every reachable state keeps the invariant: the history never exceeds
      its cap, whatever the users and the server do. */
  lemma {:induction false} ReplayKeepsInv(s: State, stimuli: seq<Stimulus>)
    requires Inv(s)
    ensures Inv(Replay(s, stimuli))
    ensures |Replay(s, stimuli).history| <= History.Cap
    decreases |stimuli|
  {
    if stimuli != [] {
      var st := stimuli[0];
      if !(st.event.RemoveTerm? && !CanRemove(s, st.event.category)) {
        ReplayKeepsInv(Dispatch(s, st.event, st.socketOpen, st.clock).state, stimuli[1..]);
      }
    }
  }

  lemma InitialKeepsInv(stimuli: seq<Stimulus>)
    ensures |Replay(Initial, stimuli).history| <= History.Cap
  {
    ReplayKeepsInv(Initial, stimuli);
  }

  /** A start, a partial "hello", then a final "hello world": the live text
      follows the partial, and the final commits "hello world ". */
  lemma HelloWorldScenario()
    ensures var s1 := StepCurrent(Start(Initial).state, Transcript("hello", false), Clock(0, ""));
            var s2 := StepCurrent(s1, Transcript("hello world", true), Clock(0, ""));
            && s1.liveTranscript == "hello" && s1.finalTranscript == ""
            && s2.finalTranscript == "hello world " && s2.liveTranscript == ""
  {
  }

  /** An `entities` message with a processing error still yields its terms,
      shows the error, and records nothing in the history. */
  lemma ProcessingErrorScenario(s: State)
    ensures var terms := map["symptoms" := ["fever"]];
            var d := EntitiesData(Some(terms), None, None, Some("low confidence"));
            var r := StepCurrent(s, Entities(Some(d)), Clock(0, ""));
            && r.isResultFinal && r.error == "Processing Error: low confidence"
            && r.extractedData == Some(terms) && r.history == s.history
  {
  }
}
