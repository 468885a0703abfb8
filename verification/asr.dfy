/**
 * The recognition session of the speech-recognition handler. The streaming recognizer
 * runs elsewhere and pushes its events onto a result queue; each tick of the handler
 * forwards audio, then drains the queue: between ticks it emits newly finalized
 * sentences, and at the end of speech it stops the recognizer, empties the session and
 * emits the remaining text followed by an end-of-turn sentinel, or, when nothing was
 * recognized, re-enables voice-activity detection and emits nothing.
 */
module Asr {
  import opened Wrappers
  import opened Text
  import opened Chat

  /** One slice of 16-bit PCM samples, as cut by the audio slicer. */
  type Frame = seq<int>

  /** The sentence of a recognition result: its text (empty when the engine gave none) and whether it is final. */
  datatype Sentence = Sentence(text: string, isEnd: bool)

  /** A queued callback: `None` for an engine error, else a result that may carry a sentence. */
  datatype RecognitionEvent = EngineError | Recognized(sentence: Option<Sentence>)

  /** A started streaming recognizer: a serial number and the frames sent to it. */
  datatype Recognizer = Recognizer(serial: nat, sentFrames: seq<Frame>)

  /** The session-wide flags the handler may touch. */
  datatype SharedStates = SharedStates(enableVad: bool)

  datatype AsrContext = AsrContext(
    sessionId: string,
    isProcessing: bool,
    recognition: Option<Recognizer>,
    started: nat,                      // recognizers started so far in this context
    outputAudios: seq<Frame>,
    sentenceBuffer: seq<string>,
    resultQueue: seq<RecognitionEvent>,
    sharedStates: Option<SharedStates>)

  /** A recognizer runs exactly while the context is processing, and it is the latest one started. */
  predicate Valid(ctx: AsrContext) {
    (ctx.isProcessing <==> ctx.recognition.Some?)
    && (ctx.recognition.Some? ==> ctx.recognition.value.serial + 1 == ctx.started)
  }

  /** No recognizer, nothing buffered, nothing queued. */
  predicate Idle(ctx: AsrContext) {
    !ctx.isProcessing && ctx.recognition.None? && ctx.outputAudios == [] && ctx.sentenceBuffer == []
    && ctx.resultQueue == []
  }

  /** `create_context` followed by `start_context`. */
  function CreateContext(sessionId: string, shared: Option<SharedStates>): (ctx: AsrContext)
    ensures Valid(ctx) && Idle(ctx)
  {
    AsrContext(sessionId, false, None, 0, [], [], [], shared)
  }

  /** The recognizer callback (`on_event`, `on_error`): the event joins the queue. */
  function Deliver(ctx: AsrContext, e: RecognitionEvent): (r: AsrContext)
    ensures Valid(ctx) ==> Valid(r)
    ensures r.resultQueue == ctx.resultQueue + [e]
  {
    ctx.(resultQueue := ctx.resultQueue + [e])
  }

  /** The stripped sentence text of an event, with its final flag, when it is non-empty. */
  function EventText(e: RecognitionEvent): Option<(string, bool)>
  {
    match e
    case EngineError => None
    case Recognized(None) => None
    case Recognized(Some(s)) => if Strip(s.text) != "" then Some((Strip(s.text), s.isEnd)) else None
  }

  /** The text of a finalized sentence, the only kind the intermediate drain may emit. */
  function FinalSentence(e: RecognitionEvent): Option<string>
  {
    var t := EventText(e);
    if t.Some? && t.value.1 then Some(t.value.0) else None
  }

  /** The queue read as finalized sentences: `None` for errors, partial and blank sentences. */
  function Finals(events: seq<RecognitionEvent>): (r: seq<Option<string>>)
    ensures |r| == |events|
    ensures forall k :: 0 <= k < |r| ==> r[k] == FinalSentence(events[k])
  {
    seq(|events|, k requires 0 <= k < |events| => FinalSentence(events[k]))
  }

  /** The buffer after the drain, and the sentences the drain emits, in order. */
  datatype Drained = Drained(buffer: seq<string>, emitted: seq<string>)

  /**
   * `_process_intermediate_results`, over the queue read as finalized sentences: every
   * one not yet in the buffer is emitted and remembered; the others pass silently.
   */
  function DrainIntermediate(buffer: seq<string>, finals: seq<Option<string>>): (r: Drained)
    decreases |finals|
    ensures r.buffer == buffer + r.emitted
    // each emitted text differs from everything buffered before it
    ensures forall k :: 0 <= k < |r.emitted| ==> r.emitted[k] !in buffer + r.emitted[..k]
  {
    if |finals| == 0 then Drained(buffer, [])
    else
      var f := finals[0];
      if f.Some? && f.value !in buffer then
        var t := f.value;
        var rest := DrainIntermediate(buffer + [t], finals[1..]);
        var out := [t] + rest.emitted;
        assert forall k :: 1 <= k < |out| ==> buffer + out[..k] == buffer + [t] + rest.emitted[..k - 1];
        Drained(rest.buffer, out)
      else DrainIntermediate(buffer, finals[1..])
  }

  /** Every emitted text is one of the drained sentences. */
  lemma {:induction false} DrainEmitsOnlyFinalSentences(buffer: seq<string>, finals: seq<Option<string>>)
    ensures forall t :: t in DrainIntermediate(buffer, finals).emitted ==> Some(t) in finals
    decreases |finals|
  {
    if |finals| > 0 {
      var f := finals[0];
      assert forall x :: x in finals[1..] ==> x in finals;
      if f.Some? && f.value !in buffer {
        DrainEmitsOnlyFinalSentences(buffer + [f.value], finals[1..]);
      } else {
        DrainEmitsOnlyFinalSentences(buffer, finals[1..]);
      }
    }
  }

  /** After a drain, every drained sentence is in the buffer. */
  lemma {:induction false} DrainCoversFinalSentences(buffer: seq<string>, finals: seq<Option<string>>)
    ensures forall t :: Some(t) in finals ==> t in DrainIntermediate(buffer, finals).buffer
    decreases |finals|
  {
    if |finals| > 0 {
      var f := finals[0];
      if f.Some? && f.value !in buffer {
        DrainCoversFinalSentences(buffer + [f.value], finals[1..]);
      } else {
        DrainCoversFinalSentences(buffer, finals[1..]);
      }
      assert forall x :: x in finals ==> x == finals[0] || x in finals[1..];
    }
  }

  /** One queued entry: a final sentence not yet buffered is emitted and remembered; anything else passes. */
  lemma DrainOne(buffer: seq<string>, f: Option<string>)
    ensures DrainIntermediate(buffer, [f]) ==
      if f.Some? && f.value !in buffer then Drained(buffer + [f.value], [f.value]) else Drained(buffer, [])
  {
    assert [f][1..] == [];
  }

  /**
   * Draining a queue in two parts is draining the first part, then the second against
   * the grown buffer: the texts come out in queue order.
   */
  lemma {:induction false} DrainAppend(buffer: seq<string>, xs: seq<Option<string>>, ys: seq<Option<string>>)
    ensures var d := DrainIntermediate(buffer, xs); var e := DrainIntermediate(d.buffer, ys);
      DrainIntermediate(buffer, xs + ys) == Drained(e.buffer, d.emitted + e.emitted)
    decreases |xs|
  {
    if |xs| == 0 {
      assert xs + ys == ys;
    } else {
      assert (xs + ys)[0] == xs[0] && (xs + ys)[1..] == xs[1..] + ys;
      var f := xs[0];
      if f.Some? && f.value !in buffer {
        DrainAppend(buffer + [f.value], xs[1..], ys);
      } else {
        DrainAppend(buffer, xs[1..], ys);
      }
    }
  }

  /** When every sentence is already buffered, a drain emits nothing and keeps the buffer. */
  lemma {:induction false} DrainOfKnownSentencesIsSilent(buffer: seq<string>, finals: seq<Option<string>>)
    requires forall t :: Some(t) in finals ==> t in buffer
    ensures DrainIntermediate(buffer, finals) == Drained(buffer, [])
    decreases |finals|
  {
    if |finals| > 0 {
      assert forall x :: x in finals[1..] ==> x in finals;
      DrainOfKnownSentencesIsSilent(buffer, finals[1..]);
    }
  }

  /** A recognizer that delivers the same sentences again within the turn causes no new output. */
  lemma RedeliveryEmitsNothing(buffer: seq<string>, finals: seq<Option<string>>)
    ensures DrainIntermediate(DrainIntermediate(buffer, finals).buffer, finals).emitted == []
  {
    DrainCoversFinalSentences(buffer, finals);
    DrainOfKnownSentencesIsSilent(DrainIntermediate(buffer, finals).buffer, finals);
  }

  /** Errors, partial and blank sentences anywhere in the queue change nothing the drain does. */
  lemma {:induction false} DrainIgnoresNonFinal(buffer: seq<string>, xs: seq<Option<string>>, ys: seq<Option<string>>)
    ensures DrainIntermediate(buffer, xs + [None] + ys) == DrainIntermediate(buffer, xs + ys)
    decreases |xs|
  {
    if |xs| == 0 {
      assert xs + [None] + ys == [None] + ys && ([None] + ys)[1..] == ys && xs + ys == ys;
    } else {
      assert (xs + [None] + ys)[1..] == xs[1..] + [None] + ys;
      assert (xs + ys)[1..] == xs[1..] + ys;
      assert (xs + [None] + ys)[0] == xs[0] == (xs + ys)[0];
      var f := xs[0];
      if f.Some? && f.value !in buffer {
        DrainIgnoresNonFinal(buffer + [f.value], xs[1..], ys);
      } else {
        DrainIgnoresNonFinal(buffer, xs[1..], ys);
      }
    }
  }

  /** The final text: every non-empty stripped sentence text left in the queue, final or not, in order. */
  function FinalText(events: seq<RecognitionEvent>): string
  {
    if |events| == 0 then ""
    else (match EventText(events[0]) case Some((t, _)) => t case None => "") + FinalText(events[1..])
  }

  /** The final text of two queue segments is the two final texts, in order. */
  lemma {:induction false} FinalTextAppend(a: seq<RecognitionEvent>, b: seq<RecognitionEvent>)
    ensures FinalText(a + b) == FinalText(a) + FinalText(b)
  {
    if |a| == 0 {
      assert a + b == b;
    } else {
      assert (a + b)[1..] == a[1..] + b;
      FinalTextAppend(a[1..], b);
    }
  }

  /** The final text is empty exactly when no queued event carries a non-empty sentence. */
  lemma {:induction false} FinalTextEmptyIff(events: seq<RecognitionEvent>)
    ensures FinalText(events) == "" <==> forall e :: e in events ==> EventText(e).None?
  {
    if |events| > 0 {
      FinalTextEmptyIff(events[1..]);
      assert forall x :: x in events <==> x == events[0] || x in events[1..];
    }
  }

  /** Stopping the recognizer: whatever it delivers while stopping joins the queue, if one was running. */
  function RemainingEvents(ctx: AsrContext, flushed: seq<RecognitionEvent>): seq<RecognitionEvent>
  {
    ctx.resultQueue + (if ctx.recognition.Some? && ctx.isProcessing then flushed else [])
  }

  /** The session after the end of speech: no recognizer, no audio, no sentences, empty queue. */
  function Reset(ctx: AsrContext): (r: AsrContext)
    ensures Idle(r) && Valid(r)
    ensures r.sessionId == ctx.sessionId && r.started == ctx.started && r.sharedStates == ctx.sharedStates
  {
    ctx.(isProcessing := false, recognition := None, outputAudios := [], sentenceBuffer := [], resultQueue := [])
  }

  /** Voice-activity detection switched back on, when there are shared states to switch. */
  function ReArmVad(s: Option<SharedStates>): Option<SharedStates>
  {
    match s
    case Some(st) => Some(st.(enableVad := true))
    case None => None
  }

  datatype TickResult = TickResult(ctx: AsrContext, outputs: seq<TextBundle>)

  /**
   * `_process_final_results` as written: the emptiness test looks at the text before
   * markup is stripped, so a markup-only result is sent as an empty text plus sentinel.
   */
  function FinalDrainAsWritten(ctx: AsrContext, flushed: seq<RecognitionEvent>, speechId: string): (r: TickResult)
    ensures Idle(r.ctx) && Valid(r.ctx)
    ensures var text := FinalText(RemainingEvents(ctx, flushed));
      && (text != "" ==> r.outputs == [Fragment(StripMarkup(text), speechId), Sentinel(speechId)]
                         && r.ctx.sharedStates == ctx.sharedStates)
      && (text == "" ==> r.outputs == [] && r.ctx.sharedStates == ReArmVad(ctx.sharedStates))
  {
    var text := FinalText(RemainingEvents(ctx, flushed));
    var c := Reset(ctx);
    if text != "" then TickResult(c, [Fragment(StripMarkup(text), speechId), Sentinel(speechId)])
    else TickResult(c.(sharedStates := ReArmVad(c.sharedStates)), [])
  }

  /**
   * The end-of-speech drain with the emptiness test on the stripped text: a turn whose
   * recognized text is only markup re-enables voice-activity detection like an empty one.
   */
  function FinalDrain(ctx: AsrContext, flushed: seq<RecognitionEvent>, speechId: string): (r: TickResult)
    ensures Idle(r.ctx) && Valid(r.ctx)
    ensures r.ctx.sessionId == ctx.sessionId && r.ctx.started == ctx.started
    ensures r.outputs == [] || |r.outputs| == 2
    ensures forall b :: b in r.outputs ==> b.speechId == speechId && (b.isEnd || b.text != "")
    ensures r.outputs != [] ==>
      r.outputs[0].text == StripMarkup(FinalText(RemainingEvents(ctx, flushed))) && !r.outputs[0].isEnd
      && r.outputs[1] == Sentinel(speechId)
    ensures r.outputs == [] <==> StripMarkup(FinalText(RemainingEvents(ctx, flushed))) == ""
    ensures r.ctx.sharedStates == if r.outputs == [] then ReArmVad(ctx.sharedStates) else ctx.sharedStates
  {
    var text := StripMarkup(FinalText(RemainingEvents(ctx, flushed)));
    var c := Reset(ctx);
    if text != "" then TickResult(c, [Fragment(text, speechId), Sentinel(speechId)])
    else TickResult(c.(sharedStates := ReArmVad(c.sharedStates)), [])
  }

  /** The as-written drain emits an empty human text and an end sentinel for a markup-only result,
      and leaves voice-activity detection off. */
  lemma MarkupOnlyResultAsWritten(ctx: AsrContext, flushed: seq<RecognitionEvent>, speechId: string)
    requires FinalText(RemainingEvents(ctx, flushed)) != ""
    requires StripMarkup(FinalText(RemainingEvents(ctx, flushed))) == ""
    ensures FinalDrainAsWritten(ctx, flushed, speechId).outputs == [Fragment("", speechId), Sentinel(speechId)]
    ensures FinalDrainAsWritten(ctx, flushed, speechId).ctx.sharedStates == ctx.sharedStates
    ensures FinalDrain(ctx, flushed, speechId).outputs == []
    ensures FinalDrain(ctx, flushed, speechId).ctx.sharedStates == ReArmVad(ctx.sharedStates)
  {
  }

  /** A markup token that is the whole recognized text of a turn: the recognizer's noise tag. */
  const NoiseTag: string := "<|NOISE|>"

  lemma NoiseTagIsStripped()
    ensures Strip(NoiseTag) == NoiseTag
  {
    assert SkipSpace(NoiseTag, 0) == 0;
    assert SkipSpaceBack(NoiseTag, 0, |NoiseTag|) == |NoiseTag|;
  }

  lemma NoiseTagCloses()
    ensures FindInLine(NoiseTag, "|>", 2) == Some(7)
  {
    var s := NoiseTag;
    assert StartsAt(s, 7, "|>");
    assert s[2] == 'N' && s[3] == 'O' && s[4] == 'I' && s[5] == 'S' && s[6] == 'E';
    forall k | 2 <= k < 7 ensures !StartsAt(s, k, "|>") && s[k] != '\n' {
      assert s[k..k + 2][0] == s[k] != '|';
    }
  }

  lemma NoiseTagIsMarkup()
    ensures StripMarkup(NoiseTag) == ""
  {
    NoiseTagCloses();
    assert StartsAt(NoiseTag, 0, "<|");
    assert MarkupEnd(NoiseTag, 0) == Some(9);
    assert StripMarkupFrom(NoiseTag, 9) == "";
  }

  /** Such a result exists: one finalized sentence that is a single markup token. */
  lemma MarkupOnlyResultExists()
    ensures var events := [Recognized(Some(Sentence(NoiseTag, true)))];
      FinalText(events) == NoiseTag && StripMarkup(FinalText(events)) == ""
  {
    var events := [Recognized(Some(Sentence(NoiseTag, true)))];
    NoiseTagIsStripped();
    NoiseTagIsMarkup();
    assert EventText(events[0]) == Some((NoiseTag, true));
    assert FinalText(events[1..]) == "";
  }

  /** A session whose queue holds only the sentence `<|NOISE|>`, with voice-activity detection off. */
  const NoiseTurn: AsrContext :=
    AsrContext("s", false, None, 0, [], [], [Recognized(Some(Sentence(NoiseTag, true)))], Some(SharedStates(false)))

  /**
   * On that session the code as written sends an empty human text and an end sentinel
   * and leaves detection off; the corrected drain sends nothing and turns detection
   * back on.
   */
  lemma NoiseTurnAsWritten()
    ensures FinalDrainAsWritten(NoiseTurn, [], "s").outputs == [Fragment("", "s"), Sentinel("s")]
    ensures FinalDrainAsWritten(NoiseTurn, [], "s").ctx.sharedStates == Some(SharedStates(false))
    ensures FinalDrain(NoiseTurn, [], "s").outputs == []
    ensures FinalDrain(NoiseTurn, [], "s").ctx.sharedStates == Some(SharedStates(true))
  {
    var events := [Recognized(Some(Sentence(NoiseTag, true)))];
    MarkupOnlyResultExists();
    assert RemainingEvents(NoiseTurn, []) == events;
    MarkupOnlyResultAsWritten(NoiseTurn, [], "s");
  }

  /** One audio bundle: its kind, the sliced frames, `speech_id` and `human_speech_end` metadata. */
  datatype AudioInput = AudioInput(
    kind: ChatDataType,
    audio: Option<seq<Frame>>,
    speechId: Option<string>,
    speechEnd: bool)

  /** Starting a recognizer, only when none is running. */
  function StartIfIdle(ctx: AsrContext): (r: AsrContext)
    requires Valid(ctx)
    ensures Valid(r) && r.isProcessing
    ensures ctx.isProcessing ==> r == ctx
    ensures !ctx.isProcessing ==> r.started == ctx.started + 1 && r.recognition.value.sentFrames == []
    ensures r.resultQueue == ctx.resultQueue && r.sentenceBuffer == ctx.sentenceBuffer
  {
    if !ctx.isProcessing then
      ctx.(recognition := Some(Recognizer(ctx.started, [])), started := ctx.started + 1, isProcessing := true)
    else ctx
  }

  /** The non-empty frames are kept and sent to the running recognizer, in order. */
  function SendFrames(ctx: AsrContext, frames: seq<Frame>): (r: AsrContext)
    requires Valid(ctx) && ctx.isProcessing
    ensures Valid(r) && r.isProcessing && r.started == ctx.started
    ensures r.outputAudios == ctx.outputAudios + NonEmpty(frames)
    ensures var rec := ctx.recognition.value;
      r.recognition == Some(rec.(sentFrames := rec.sentFrames + NonEmpty(frames)))
    ensures r == ctx.(outputAudios := r.outputAudios, recognition := r.recognition)
    decreases |frames|
  {
    if |frames| == 0 then
      assert ctx.recognition.value.sentFrames + NonEmpty(frames) == ctx.recognition.value.sentFrames;
      ctx
    else
      var rec := ctx.recognition.value;
      var head := if |frames[0]| == 0 then [] else [frames[0]];
      var next := ctx.(outputAudios := ctx.outputAudios + head,
                       recognition := Some(rec.(sentFrames := rec.sentFrames + head)));
      NonEmptyStep(ctx.outputAudios, frames);
      NonEmptyStep(rec.sentFrames, frames);
      SendFrames(next, frames[1..])
  }

  /** The speech id of the turn: the input's, or the session id when it has none. */
  function TurnSpeechId(ctx: AsrContext, input: AudioInput): string
  {
    input.speechId.GetOr(ctx.sessionId)
  }

  /** The audio step of `handle`: with audio, a recognizer is started if none runs and the frames are sent. */
  function Forward(ctx: AsrContext, input: AudioInput): (c: AsrContext)
    requires Valid(ctx)
    ensures Valid(c) && c.sessionId == ctx.sessionId && c.sharedStates == ctx.sharedStates
    ensures c.resultQueue == ctx.resultQueue && c.sentenceBuffer == ctx.sentenceBuffer
    ensures c.started == ctx.started + (if input.audio.Some? && !ctx.isProcessing then 1 else 0)
    ensures input.audio.None? ==> c == ctx
    ensures input.audio.Some? ==>
      && c.isProcessing
      && c.outputAudios == ctx.outputAudios + NonEmpty(input.audio.value)
      && (ctx.isProcessing ==> c.recognition.value.serial == ctx.recognition.value.serial)
      && c.recognition.value.sentFrames ==
           (if ctx.isProcessing then ctx.recognition.value.sentFrames else []) + NonEmpty(input.audio.value)
  {
    if input.audio.Some? then SendFrames(StartIfIdle(ctx), input.audio.value) else ctx
  }

  /**
   * `handle`, for one input bundle; `flushed` is what the recognizer delivers while
   * being stopped, should this bundle end the speech. The end of speech runs the final
   * drain as written.
   */
  function Handle(ctx: AsrContext, input: AudioInput, flushed: seq<RecognitionEvent>): (r: TickResult)
    requires Valid(ctx)
    ensures Valid(r.ctx)
    // at most one recognizer: a new one only when none was running
    ensures r.ctx.started == ctx.started + (if input.kind == HumanAudio && input.audio.Some? && !ctx.isProcessing then 1 else 0)
    ensures input.kind == HumanAudio && input.audio.Some? && ctx.isProcessing && !input.speechEnd ==>
              r.ctx.recognition.Some? && r.ctx.recognition.value.serial == ctx.recognition.value.serial
    ensures input.kind != HumanAudio ==> r == TickResult(ctx, [])
    // between ticks: the sentences the drain emits, as intermediate text with the turn's speech id
    ensures input.kind == HumanAudio && !input.speechEnd ==>
              var c := Forward(ctx, input);
              var d := DrainIntermediate(c.sentenceBuffer, Finals(c.resultQueue));
              && r.ctx == c.(sentenceBuffer := d.buffer, resultQueue := [])
              && r.ctx.resultQueue == [] && r.ctx.sentenceBuffer == d.buffer
              && r.outputs == Fragments(d.emitted, TurnSpeechId(ctx, input))
    // at the end of speech: the final drain of the forwarded session; it is idle again
    ensures input.kind == HumanAudio && input.speechEnd ==>
              && r == FinalDrainAsWritten(Forward(ctx, input), flushed, TurnSpeechId(ctx, input))
              && Idle(r.ctx) && (r.outputs == [] || |r.outputs| == 2)
  {
    if input.kind != HumanAudio then TickResult(ctx, [])
    else
      var sid := TurnSpeechId(ctx, input);
      var c := Forward(ctx, input);
      if !input.speechEnd then
        var d := DrainIntermediate(c.sentenceBuffer, Finals(c.resultQueue));
        TickResult(c.(sentenceBuffer := d.buffer, resultQueue := []), Fragments(d.emitted, sid))
      else FinalDrainAsWritten(c, flushed, sid)
  }

  /**
   * `handle` with the corrected final drain: at the end of speech no empty human text is
   * ever sent, and nothing at all is sent exactly when the markup-free text is empty.
   */
  function HandleCorrected(ctx: AsrContext, input: AudioInput, flushed: seq<RecognitionEvent>): (r: TickResult)
    requires Valid(ctx)
    ensures Valid(r.ctx)
    ensures !(input.kind == HumanAudio && input.speechEnd) ==> r == Handle(ctx, input, flushed)
    ensures input.kind == HumanAudio && input.speechEnd ==>
              var text := StripMarkup(FinalText(RemainingEvents(Forward(ctx, input), flushed)));
              && Idle(r.ctx)
              && (forall b :: b in r.outputs ==> b.isEnd || b.text != "")
              && (r.outputs == [] <==> text == "")
              && (r.outputs != [] ==> r.outputs == [Fragment(text, TurnSpeechId(ctx, input)), Sentinel(TurnSpeechId(ctx, input))])
  {
    if input.kind == HumanAudio && input.speechEnd then FinalDrain(Forward(ctx, input), flushed, TurnSpeechId(ctx, input))
    else Handle(ctx, input, flushed)
  }

  /** The end of speech on the `<|NOISE|>` session. */
  const NoiseEnd: AudioInput := AudioInput(HumanAudio, None, None, true)

  /** Through `handle`, the `<|NOISE|>` session ends with an empty human text and leaves detection off. */
  lemma NoiseTurnHandled()
    ensures Handle(NoiseTurn, NoiseEnd, []).outputs == [Fragment("", "s"), Sentinel("s")]
    ensures Handle(NoiseTurn, NoiseEnd, []).ctx.sharedStates == Some(SharedStates(false))
    ensures HandleCorrected(NoiseTurn, NoiseEnd, []).outputs == []
    ensures HandleCorrected(NoiseTurn, NoiseEnd, []).ctx.sharedStates == Some(SharedStates(true))
  {
    NoiseTurnAsWritten();
  }

  /** `destroy_context`: the recognizer, if any, is stopped and dropped. */
  function DestroyContext(ctx: AsrContext): (r: AsrContext)
    ensures Valid(r) && !r.isProcessing && r.recognition.None?
    ensures r.sentenceBuffer == ctx.sentenceBuffer && r.resultQueue == ctx.resultQueue
  {
    ctx.(isProcessing := false, recognition := None)
  }
}
