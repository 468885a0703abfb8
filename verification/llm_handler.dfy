/**
 * The reply-side handler: per-session context, session creation (user id resolution
 * and the initial system prompt), the one-way switch from the opening phase, and the
 * per-turn text buffer that turns accumulated human text into one streamed reply
 * closed by an end-of-turn sentinel. The completion service is an input: the stream of
 * text deltas it produces, or the API error it raises.
 */
module LlmHandler {
  import opened Wrappers
  import opened Text
  import opened Chat
  import opened Prompt
  import opened UserIdStorage

  /** The handler configuration. An empty template map stands for "no templates". */
  datatype LlmConfig = LlmConfig(
    modelName: string,
    systemPrompt: string,
    defaultUserId: string,
    historyLength: int,
    enableVideoInput: bool,
    templates: map<string, string>)

  /** The configuration used when none is given. */
  const DefaultConfig: LlmConfig := LlmConfig(
    "qwen-plus",
    "请你扮演一个 AI 助手，用简短的对话来回答用户的问题，并在对话内容中加入合适的标点符号，不需要加入标点符号相关的内容",
    "4d8f3a08-e886-43ff-ba7f-93ca0a1b0f96",
    20,
    false,
    map[])

  /** What the handler reads from the session: its id, a user id set on it, and whether that id was updated. */
  datatype SessionView = SessionView(sessionId: string, userId: Option<string>, userIdUpdated: bool)

  datatype HistoryMessage = HistoryMessage(role: string, content: string)

  /** A camera frame, kept as an opaque payload. */
  datatype VideoFrame = VideoFrame(pixels: seq<int>)

  datatype LlmContext = LlmContext(
    sessionId: string,
    config: LlmConfig,
    userId: Option<string>,
    systemPrompt: string,
    isFirstInteraction: bool,
    inputTexts: string,
    outputTexts: string,
    currentImage: Option<VideoFrame>,
    history: seq<HistoryMessage>)

  /**
   * The user id chosen at session creation, and the id published back to the session
   * (only one that differs from the configured default).
   */
  function CreateUserId(session: SessionView, storage: Storage, defaultId: string): (r: (string, Option<string>))
    ensures var stored := GetUserId(storage, session.sessionId);
      r.0 == if Truthy(session.userId) && session.userId.value != defaultId then session.userId.value
             else if Truthy(stored) then stored.value
             else defaultId
    ensures r.1.Some? <==> r.0 != "" && r.0 != defaultId
    ensures r.1.Some? ==> r.1.value == r.0
  {
    var u0 := if Truthy(session.userId) then session.userId.value else defaultId;
    var u1 := if session.userIdUpdated && Truthy(session.userId) then session.userId.value else u0;
    var u2 :=
      if u1 == "" || u1 == defaultId then
        (var stored := GetUserId(storage, session.sessionId); if Truthy(stored) then stored.value else u1)
      else u1;
    (u2, if u2 != "" && u2 != defaultId then Some(u2) else None)
  }

  /** `create_context`: the fresh context and the user id published to the session. */
  function CreateContext(session: SessionView, given: Option<LlmConfig>, storage: Storage, svc: Services)
    : (r: (LlmContext, Option<string>))
    ensures r.0.isFirstInteraction && r.0.inputTexts == "" && r.0.outputTexts == ""
    ensures r.0.history == [] && r.0.currentImage.None?
    ensures r.0.sessionId == session.sessionId && r.0.config == given.GetOr(DefaultConfig)
    ensures r.0.userId.Some?
    // the id chosen, and the one published back to the session, follow the creation precedence
    ensures (r.0.userId.value, r.1) == CreateUserId(session, storage, given.GetOr(DefaultConfig).defaultUserId)
    ensures var cfg := given.GetOr(DefaultConfig); var uid := r.0.userId.value;
      r.0.systemPrompt == InitialBase(cfg.templates, cfg.systemPrompt)
                            + Enrichment(ProfileText(svc, uid), SurveyText(svc, uid))
                            + PartSeparator + OpeningInstruction
  {
    var cfg := given.GetOr(DefaultConfig);
    var (uid, published) := CreateUserId(session, storage, cfg.defaultUserId);
    var profile, survey := ProfileText(svc, uid), SurveyText(svc, uid);
    var isFirst := true;
    InitialPromptLayout(cfg.templates, cfg.systemPrompt, profile, survey, isFirst);
    var ctx := LlmContext(
      session.sessionId, cfg, Some(uid),
      InitialPrompt(cfg.templates, cfg.systemPrompt, profile, survey, isFirst),
      isFirst, "", "", None, []);
    (ctx, published)
  }

  /** The user id used when the prompt is rebuilt: the context's own when it is not blank,
      else the stored one, else the default. */
  function UpdateUserId(ctx: LlmContext, storage: Storage): (r: string)
    ensures var own := ctx.userId.Some? && Strip(ctx.userId.value) != "";
      var stored := GetUserId(storage, ctx.sessionId);
      && (own ==> r == ctx.userId.value)
      && (!own && Truthy(stored) ==> r == stored.value)
      && (!own && !Truthy(stored) ==> r == ctx.config.defaultUserId)
  {
    if ctx.userId.Some? && Strip(ctx.userId.value) != "" then ctx.userId.value
    else
      var stored := GetUserId(storage, ctx.sessionId);
      if Truthy(stored) then stored.value else ctx.config.defaultUserId
  }

  /**
   * A rebuild in a created session looks up the user chosen at creation, whatever the
   * store holds by then, unless that id is blank.
   */
  lemma RebuildKeepsCreationUser(session: SessionView, given: Option<LlmConfig>, storage: Storage, svc: Services,
                                 later: Storage)
    requires var uid := CreateUserId(session, storage, given.GetOr(DefaultConfig).defaultUserId).0; Strip(uid) != ""
    ensures var ctx := CreateContext(session, given, storage, svc).0;
      UpdateUserId(ctx, later) == CreateUserId(session, storage, given.GetOr(DefaultConfig).defaultUserId).0
  {
  }

  /**
   * `update_system_prompt_for_conversation`: without the named template nothing
   * changes; with it the prompt is rebuilt from that template (no closing instruction)
   * and the session leaves its first-interaction phase.
   */
  function UpdateSystemPrompt(ctx: LlmContext, template: string, storage: Storage, svc: Services): (r: LlmContext)
    ensures template !in ctx.config.templates ==> r == ctx
    ensures template in ctx.config.templates ==>
      && !r.isFirstInteraction
      && r == ctx.(systemPrompt := r.systemPrompt, isFirstInteraction := false)
      && StartsAt(r.systemPrompt, 0, ctx.config.templates[template])
      && var uid := UpdateUserId(ctx, storage);
         r.systemPrompt == ctx.config.templates[template] + Enrichment(ProfileText(svc, uid), SurveyText(svc, uid))
  {
    // An empty template map (Python's None or {}) holds no template either.
    if template !in ctx.config.templates then ctx
    else
      var uid := UpdateUserId(ctx, storage);
      var base := ctx.config.templates[template];
      var prompt := ConversationPrompt(base, ProfileText(svc, uid), SurveyText(svc, uid));
      ConversationPromptLayout(base, ProfileText(svc, uid), SurveyText(svc, uid));
      ctx.(systemPrompt := prompt, isFirstInteraction := false)
  }

  /** One input bundle: its kind, text or camera frame, `speech_id` and `human_text_end` metadata. */
  datatype LlmInput = LlmInput(
    kind: ChatDataType,
    text: Option<string>,
    frame: Option<VideoFrame>,
    speechId: Option<string>,
    textEnd: bool)

  /**
   * What the completion service did: streamed its deltas (an empty string is a chunk
   * without content), raised an API error before streaming, or raised one after some
   * deltas. The message stands for the error body's message.
   */
  datatype Completion =
    | Streamed(chunks: seq<string>)
    | FailedAtCreate(message: string)
    | FailedMidStream(chunks: seq<string>, message: string)

  /** What is sent to the completion service: the system prompt, the history, the turn's text and pending image. */
  datatype CompletionRequest = CompletionRequest(
    systemPrompt: string,
    history: seq<HistoryMessage>,
    text: string,
    image: Option<VideoFrame>)

  datatype TurnResult = TurnResult(ctx: LlmContext, outputs: seq<TextBundle>, request: Option<CompletionRequest>)

  /** One output bundle per delta that has content, in arrival order. */
  function ChunkBundles(chunks: seq<string>, speechId: string): (r: seq<TextBundle>)
    ensures forall b :: b in r ==> !b.isEnd && b.speechId == speechId && b.text != ""
    ensures Texts(r) == Concat(chunks)
  {
    if |chunks| == 0 then []
    else
      var head := if chunks[0] != "" then [Fragment(chunks[0], speechId)] else [];
      var rest := ChunkBundles(chunks[1..], speechId);
      TextsAppend(head, rest);
      head + rest
  }

  /** Exactly one bundle per delta with content: the k-th bundle carries the k-th such delta. */
  lemma {:induction false} ChunkBundlesPerDelta(chunks: seq<string>, speechId: string)
    ensures ChunkBundles(chunks, speechId) == Fragments(NonEmpty(chunks), speechId)
  {
    if |chunks| > 0 {
      var head := if chunks[0] != "" then [chunks[0]] else [];
      ChunkBundlesPerDelta(chunks[1..], speechId);
      assert NonEmpty(chunks) == head + NonEmpty(chunks[1..]);
      FragmentsAppend(head, NonEmpty(chunks[1..]), speechId);
      assert Fragments(head, speechId) == if chunks[0] != "" then [Fragment(chunks[0], speechId)] else [];
    }
  }

  /** Fragments for the given texts followed by the sentinel: only the last bundle ends the turn. */
  lemma ClosedTurn(texts: seq<string>, speechId: string)
    ensures var r := Fragments(texts, speechId) + [Sentinel(speechId)];
      && |r| >= 1 && r[|r| - 1] == Sentinel(speechId)
      && (forall k :: 0 <= k < |r| - 1 ==> !r[k].isEnd)
      && (forall b :: b in r ==> b.speechId == speechId)
  {
  }

  /**
   * The bundles streamed for one completion: one per delta with content, then the error
   * message when the service failed, then the sentinel.
   */
  function ReplyBundles(completion: Completion, speechId: string): (r: seq<TextBundle>)
    ensures |r| >= 1 && r[|r| - 1] == Sentinel(speechId)
    ensures forall k :: 0 <= k < |r| - 1 ==> !r[k].isEnd
    ensures forall b :: b in r ==> b.speechId == speechId
    ensures completion.Streamed? ==> r == Fragments(NonEmpty(completion.chunks), speechId) + [Sentinel(speechId)]
    ensures completion.FailedAtCreate? ==> r == [Fragment(completion.message, speechId), Sentinel(speechId)]
    ensures completion.FailedMidStream? ==>
      r == Fragments(NonEmpty(completion.chunks), speechId) + [Fragment(completion.message, speechId), Sentinel(speechId)]
  {
    if completion.Streamed? then
      ClosedTurn(NonEmpty(completion.chunks), speechId);
      Fragments(NonEmpty(completion.chunks), speechId) + [Sentinel(speechId)]
    else if completion.FailedAtCreate? then
      [Fragment(completion.message, speechId), Sentinel(speechId)]
    else
      var texts, tail := NonEmpty(completion.chunks), [Fragment(completion.message, speechId), Sentinel(speechId)];
      ClosedTurn(texts + [completion.message], speechId);
      FragmentsAppend(texts, [completion.message], speechId);
      assert Fragments([completion.message], speechId) + [Sentinel(speechId)] == tail;
      Fragments(texts, speechId) + tail
  }

  /** The reply to a non-empty turn text: streamed bundles, history, cleared buffers, and the sentinel. */
  function Respond(ctx: LlmContext, chat: string, speechId: string, completion: Completion): (r: TurnResult)
    ensures r.request.Some? && r.request.value.text == chat && r.request.value.systemPrompt == ctx.systemPrompt
    ensures |r.outputs| >= 1 && r.outputs[|r.outputs| - 1] == Sentinel(speechId)
    ensures forall k :: 0 <= k < |r.outputs| - 1 ==> !r.outputs[k].isEnd
    ensures forall b :: b in r.outputs ==> b.speechId == speechId
    ensures r.ctx == ctx.(inputTexts := "", outputTexts := "", currentImage := r.ctx.currentImage, history := r.ctx.history)
    // the request pairs the text with the pending frame; the frame is consumed once the stream was created
    ensures r.request.value.image == ctx.currentImage && r.request.value.history == ctx.history
    ensures completion.FailedAtCreate? ==> r.ctx.currentImage == ctx.currentImage
    ensures !completion.FailedAtCreate? ==> r.ctx.currentImage.None?
    // only a completed stream enters the history
    ensures completion.Streamed? ==>
      r.ctx.history == ctx.history + [HistoryMessage("human", chat), HistoryMessage("avatar", Concat(completion.chunks))]
    ensures !completion.Streamed? ==> r.ctx.history == ctx.history
    // one bundle per delta with content, then the error message, if any, then the sentinel
    ensures completion.Streamed? ==> r.outputs == Fragments(NonEmpty(completion.chunks), speechId) + [Sentinel(speechId)]
    ensures completion.FailedAtCreate? ==> r.outputs == [Fragment(completion.message, speechId), Sentinel(speechId)]
    ensures completion.FailedMidStream? ==>
      r.outputs == Fragments(NonEmpty(completion.chunks), speechId) + [Fragment(completion.message, speechId), Sentinel(speechId)]
  {
    var request := CompletionRequest(ctx.systemPrompt, ctx.history, chat, ctx.currentImage);
    var cleared := ctx.(inputTexts := "", outputTexts := "");
    var outputs := ReplyBundles(completion, speechId);
    match completion
    case Streamed(chunks) =>
      var history := ctx.history + [HistoryMessage("human", chat), HistoryMessage("avatar", Concat(chunks))];
      TurnResult(cleared.(currentImage := None, history := history), outputs, Some(request))
    case FailedAtCreate(_) =>
      TurnResult(cleared, outputs, Some(request))
    case FailedMidStream(_, _) =>
      TurnResult(cleared.(currentImage := None), outputs, Some(request))
  }

  /** The speech id of the turn: the input's, or the session id when it has none. */
  function TurnSpeechId(ctx: LlmContext, input: LlmInput): string
  {
    input.speechId.GetOr(ctx.sessionId)
  }

  /**
   * The phase switch at the top of `handle`: the first human text of a session rebuilds
   * the prompt from template "A", when there is one, and ends the opening phase.
   */
  function SwitchPhase(ctx: LlmContext, input: LlmInput, storage: Storage, svc: Services): (c: LlmContext)
    ensures c.isFirstInteraction ==> ctx.isFirstInteraction
    ensures ctx.isFirstInteraction && !c.isFirstInteraction <==>
      ctx.isFirstInteraction && input.kind == HumanText && "A" in ctx.config.templates
    ensures c == ctx.(systemPrompt := c.systemPrompt, isFirstInteraction := c.isFirstInteraction)
    // the first human text switches to the conversation prompt of template "A"; otherwise nothing changes
    ensures ctx.isFirstInteraction && input.kind == HumanText && "A" in ctx.config.templates ==>
      var uid := UpdateUserId(ctx, storage);
      c.systemPrompt == ctx.config.templates["A"] + Enrichment(ProfileText(svc, uid), SurveyText(svc, uid))
    ensures !(ctx.isFirstInteraction && input.kind == HumanText && "A" in ctx.config.templates) ==> c == ctx
  {
    if ctx.isFirstInteraction && input.kind == HumanText then UpdateSystemPrompt(ctx, "A", storage, svc) else ctx
  }

  /** Once the first human text has switched to template "A", later inputs keep that prompt. */
  lemma PromptSwitchesOnce(ctx: LlmContext, first: LlmInput, later: LlmInput, storage: Storage, svc: Services)
    requires first.kind == HumanText && "A" in ctx.config.templates
    ensures var c := SwitchPhase(ctx, first, storage, svc);
      && !c.isFirstInteraction
      && SwitchPhase(c, later, storage, svc) == c
  {
  }

  /** The human-text branch of `handle`: buffer the fragment; at the end of the turn, reply or give up. */
  function HandleText(ctx: LlmContext, input: LlmInput, completion: Completion): (r: TurnResult)
    requires input.kind == HumanText
    ensures r.request.Some? <==> r.outputs != []
    ensures !input.textEnd ==> r.request.None? && r.ctx == ctx.(inputTexts := ctx.inputTexts + input.text.GetOr(""))
    ensures input.textEnd ==> (r.request.Some? <==> StripMarkup(ctx.inputTexts + input.text.GetOr("")) != "")
    ensures r.request.None? ==> r.ctx == ctx.(inputTexts := ctx.inputTexts + input.text.GetOr(""))
    ensures r.request.Some? ==>
      var sid := TurnSpeechId(ctx, input);
      && r.request.value.text == StripMarkup(ctx.inputTexts + input.text.GetOr(""))
      && r.request.value.systemPrompt == ctx.systemPrompt
      && r.outputs[|r.outputs| - 1] == Sentinel(sid)
      && (forall k :: 0 <= k < |r.outputs| - 1 ==> !r.outputs[k].isEnd)
      && (forall b :: b in r.outputs ==> b.speechId == sid)
      && r.ctx.inputTexts == "" && r.ctx.outputTexts == ""
      && r.request.value.image == ctx.currentImage && r.request.value.history == ctx.history
      && (completion.Streamed? ==> r.outputs == Fragments(NonEmpty(completion.chunks), sid) + [Sentinel(sid)])
      && (completion.FailedAtCreate? ==> r.outputs == [Fragment(completion.message, sid), Sentinel(sid)])
      && (completion.FailedMidStream? ==>
            r.outputs == Fragments(NonEmpty(completion.chunks), sid) + [Fragment(completion.message, sid), Sentinel(sid)])
    ensures r.ctx.isFirstInteraction == ctx.isFirstInteraction && r.ctx.config == ctx.config
  {
    var sid := TurnSpeechId(ctx, input);
    var c := ctx.(inputTexts := ctx.inputTexts + input.text.GetOr(""));
    if !input.textEnd then TurnResult(c, [], None)
    else
      var chat := StripMarkup(c.inputTexts);
      if chat == "" then TurnResult(c, [], None)
      else Respond(c, chat, sid, completion)
  }

  /** `handle`, for one input bundle. */
  function Handle(ctx: LlmContext, input: LlmInput, storage: Storage, svc: Services, completion: Completion)
    : (r: TurnResult)
    ensures r.ctx.isFirstInteraction ==> ctx.isFirstInteraction
    ensures ctx.isFirstInteraction && !r.ctx.isFirstInteraction <==>
      ctx.isFirstInteraction && input.kind == HumanText && "A" in ctx.config.templates
    ensures r.ctx.config == ctx.config
    ensures r.request.Some? <==> r.outputs != []
    ensures r.request.Some? ==> input.kind == HumanText && input.textEnd
    ensures input.kind != HumanText ==> r.ctx.inputTexts == ctx.inputTexts
    ensures input.kind == HumanText ==> r == HandleText(SwitchPhase(ctx, input, storage, svc), input, completion)
    // a camera frame becomes the pending image when video input is on; any other input changes nothing
    ensures input.kind == CameraVideo && ctx.config.enableVideoInput ==>
      r.ctx == ctx.(currentImage := input.frame) && r.outputs == [] && r.request.None?
    ensures input.kind != HumanText && !(input.kind == CameraVideo && ctx.config.enableVideoInput) ==>
      r.ctx == ctx && r.outputs == [] && r.request.None?
  {
    var c := SwitchPhase(ctx, input, storage, svc);
    if input.kind == CameraVideo && c.config.enableVideoInput then
      TurnResult(c.(currentImage := input.frame), [], None)
    else if input.kind != HumanText then
      TurnResult(c, [], None)
    else
      HandleText(c, input, completion)
  }

  /** A turn-ending text with something left after markup removal is answered by `Respond`. */
  lemma TurnEndResponds(ctx: LlmContext, input: LlmInput, storage: Storage, svc: Services, completion: Completion)
    requires input.kind == HumanText && input.textEnd
    requires StripMarkup(ctx.inputTexts + input.text.GetOr("")) != ""
    ensures var c := SwitchPhase(ctx, input, storage, svc);
      && c.history == ctx.history && c.currentImage == ctx.currentImage
      && Handle(ctx, input, storage, svc, completion)
         == Respond(c.(inputTexts := ctx.inputTexts + input.text.GetOr("")),
                    StripMarkup(ctx.inputTexts + input.text.GetOr("")), TurnSpeechId(ctx, input), completion)
  {
    var c := SwitchPhase(ctx, input, storage, svc);
    assert Handle(ctx, input, storage, svc, completion) == HandleText(c, input, completion);
  }

  /** A streamed reply is recorded as one human and one avatar message, and its bundles spell it out. */
  lemma StreamedTurnHistory(ctx: LlmContext, input: LlmInput, storage: Storage, svc: Services, chunks: seq<string>)
    requires input.kind == HumanText && input.textEnd
    requires StripMarkup(ctx.inputTexts + input.text.GetOr("")) != ""
    ensures var r := Handle(ctx, input, storage, svc, Streamed(chunks));
      && r.ctx.history == ctx.history + [HistoryMessage("human", StripMarkup(ctx.inputTexts + input.text.GetOr(""))),
                                         HistoryMessage("avatar", Concat(chunks))]
      && Texts(r.outputs) == Concat(chunks)
      && r.ctx.currentImage.None?
  {
    var sid := TurnSpeechId(ctx, input);
    TurnEndResponds(ctx, input, storage, svc, Streamed(chunks));
    ChunkBundlesPerDelta(chunks, sid);
    TextsAppend(ChunkBundles(chunks, sid), [Sentinel(sid)]);
  }

  /** A failed completion leaves the history as it was, and the error text is the last thing before the sentinel. */
  lemma FailedTurnKeepsHistory(ctx: LlmContext, input: LlmInput, storage: Storage, svc: Services, completion: Completion)
    requires input.kind == HumanText && input.textEnd && !completion.Streamed?
    requires StripMarkup(ctx.inputTexts + input.text.GetOr("")) != ""
    ensures var r := Handle(ctx, input, storage, svc, completion);
      && r.ctx.history == ctx.history
      && |r.outputs| >= 2
      && r.outputs[|r.outputs| - 2] == Fragment(completion.message, TurnSpeechId(ctx, input))
  {
    TurnEndResponds(ctx, input, storage, svc, completion);
  }

  /**
   * A camera frame is sent with the next turn's text; when `create()` fails, it is still
   * pending and goes with the turn after that.
   */
  lemma FrameGoesWithNextTurn(ctx: LlmContext, camera: LlmInput, text: LlmInput, storage: Storage, svc: Services,
                              completion: Completion)
    requires camera.kind == CameraVideo && ctx.config.enableVideoInput
    requires text.kind == HumanText && text.textEnd
    requires StripMarkup(ctx.inputTexts + text.text.GetOr("")) != ""
    ensures var c := Handle(ctx, camera, storage, svc, completion).ctx;
      var r := Handle(c, text, storage, svc, completion);
      && r.request.Some? && r.request.value.image == camera.frame
      && (completion.FailedAtCreate? ==> r.ctx.currentImage == camera.frame)
      && (!completion.FailedAtCreate? ==> r.ctx.currentImage.None?)
  {
    var c := Handle(ctx, camera, storage, svc, completion).ctx;
    assert c == ctx.(currentImage := camera.frame);
    var d := SwitchPhase(c, text, storage, svc);
    assert d.currentImage == camera.frame && d.inputTexts == ctx.inputTexts;
    var r := HandleText(d, text, completion);
    assert r.request.Some?;
  }

  /** Human-text fragments fed one by one, none of them closing the turn. */
  function Feed(ctx: LlmContext, inputs: seq<LlmInput>, storage: Storage, svc: Services, completion: Completion)
    : LlmContext
    decreases |inputs|
  {
    if |inputs| == 0 then ctx
    else Feed(Handle(ctx, inputs[0], storage, svc, completion).ctx, inputs[1..], storage, svc, completion)
  }

  /** The texts of a list of inputs, a missing text counting as empty. */
  function InputTexts(inputs: seq<LlmInput>): string
  {
    if |inputs| == 0 then "" else inputs[0].text.GetOr("") + InputTexts(inputs[1..])
  }

  /** Fragments before the end of a turn only accumulate, in arrival order. */
  lemma {:induction false} FeedAccumulates(ctx: LlmContext, inputs: seq<LlmInput>, storage: Storage, svc: Services,
                                           completion: Completion)
    requires forall i :: i in inputs ==> i.kind == HumanText && !i.textEnd
    ensures Feed(ctx, inputs, storage, svc, completion).inputTexts == ctx.inputTexts + InputTexts(inputs)
    decreases |inputs|
  {
    if |inputs| > 0 {
      var next := Handle(ctx, inputs[0], storage, svc, completion).ctx;
      assert inputs[0] in inputs;
      assert forall i :: i in inputs[1..] ==> i in inputs;
      FragmentAccumulates(ctx, inputs[0], storage, svc, completion);
      FeedAccumulates(next, inputs[1..], storage, svc, completion);
      AppendAssoc(ctx.inputTexts, inputs[0].text.GetOr(""), InputTexts(inputs[1..]));
    }
  }

  /** A fragment that does not end the turn is appended to the turn buffer. */
  lemma FragmentAccumulates(ctx: LlmContext, input: LlmInput, storage: Storage, svc: Services, completion: Completion)
    requires input.kind == HumanText && !input.textEnd
    ensures Handle(ctx, input, storage, svc, completion).ctx.inputTexts == ctx.inputTexts + input.text.GetOr("")
  {
  }

  /**
   * The turn buffer: after fragments that do not end the turn, the closing fragment
   * sends the markup-stripped concatenation of all of them, in arrival order, when
   * that is non-empty; otherwise the turn produces nothing.
   */
  lemma TurnTextIsStrippedConcatenation(ctx: LlmContext, inputs: seq<LlmInput>, last: LlmInput, storage: Storage,
                                        svc: Services, completion: Completion)
    requires forall i :: i in inputs ==> i.kind == HumanText && !i.textEnd
    requires last.kind == HumanText && last.textEnd
    ensures var r := Handle(Feed(ctx, inputs, storage, svc, completion), last, storage, svc, completion);
      var text := StripMarkup(ctx.inputTexts + InputTexts(inputs) + last.text.GetOr(""));
      && (r.request.Some? <==> text != "")
      && (r.request.Some? ==> r.request.value.text == text)
      && (r.request.None? ==> r.outputs == [])
  {
    FeedAccumulates(ctx, inputs, storage, svc, completion);
  }

  /** Once any human text has been handled with template "A" configured, the opening phase is over for good. */
  lemma {:induction false} OpeningPhaseEndsOnFirstText(ctx: LlmContext, inputs: seq<LlmInput>, storage: Storage,
                                                       svc: Services, completion: Completion)
    requires "A" in ctx.config.templates
    requires exists i :: i in inputs && i.kind == HumanText
    ensures !Feed(ctx, inputs, storage, svc, completion).isFirstInteraction
    decreases |inputs|
  {
    var next := Handle(ctx, inputs[0], storage, svc, completion).ctx;
    assert next.config == ctx.config;
    if inputs[0].kind == HumanText || !ctx.isFirstInteraction {
      FeedKeepsPhaseOver(next, inputs[1..], storage, svc, completion);
    } else {
      var i :| i in inputs && i.kind == HumanText;
      assert i in inputs[1..];
      OpeningPhaseEndsOnFirstText(next, inputs[1..], storage, svc, completion);
    }
  }

  /** Handling more input never returns a session to its opening phase. */
  lemma {:induction false} FeedKeepsPhaseOver(ctx: LlmContext, inputs: seq<LlmInput>, storage: Storage,
                                              svc: Services, completion: Completion)
    requires !ctx.isFirstInteraction
    ensures !Feed(ctx, inputs, storage, svc, completion).isFirstInteraction
    ensures Feed(ctx, inputs, storage, svc, completion).config == ctx.config
    decreases |inputs|
  {
    if |inputs| > 0 {
      FeedKeepsPhaseOver(Handle(ctx, inputs[0], storage, svc, completion).ctx, inputs[1..], storage, svc, completion);
    }
  }
}
