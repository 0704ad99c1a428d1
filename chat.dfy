/** The Chat page: the conversation of the session, in which every user
    message is followed by the run of replies of the configured models, one
    of which the user selects when there are several; the history that is
    sent to the models; and the per-model token counters. */
module Chat {
  import opened Values
  import opened Text
  import opened Formatter
  import opened Models
  import opened Documents

  datatype Role = System | User | Assistant

  /** What a reply reports about its token usage; whether a speed in tokens
      per second can be computed stands for the speed itself. */
  datatype UsageInfo = UsageInfo(inputTokens: int, outputTokens: int, evalDurationNs: int, hasSpeed: bool)

  /** The metadata of a stored message. `selected` is absent on messages that
      never had it (loaded ones, for instance). */
  datatype Meta = Meta(
    selected: Option<bool>,
    modelName: Option<string>,
    provider: Option<string>,
    modelId: Option<string>,
    usage: Option<UsageInfo>)

  const NoMeta: Meta := Meta(None, None, None, None, None)

  datatype Message = Message(role: Role, text: string, meta: Meta)

  /** The metadata of a model reply: `done` and `eval_duration` may be
      absent; an absent `usage` reads as the empty map. */
  datatype ReplyMeta = ReplyMeta(done: Option<bool>, usage: map<string, int>, evalDuration: Option<int>)

  /** What one model call produced: a reply, or the text of the exception. */
  datatype GenResult = Success(text: string, meta: ReplyMeta) | Failure(error: string)

  // ---------------------------------------------------------------------
  // Token usage

  /** Usage of a reply: none when the reply says it is not done or reports no
      usage; otherwise the counts, a missing count reading as 0. */
  function ExtractTokenUsage(meta: ReplyMeta): (r: Option<UsageInfo>)
    ensures r.None? <==> meta.done == Some(false) || meta.usage == map[]
    ensures r.Some? ==> r.value.inputTokens == (if "prompt_tokens" in meta.usage then meta.usage["prompt_tokens"] else 0)
    ensures r.Some? ==> r.value.outputTokens == (if "completion_tokens" in meta.usage then meta.usage["completion_tokens"] else 0)
    ensures r.Some? ==> r.value.evalDurationNs == meta.evalDuration.GetOr(0)
    ensures r.Some? ==> (r.value.hasSpeed <==> r.value.outputTokens > 0 && r.value.evalDurationNs > 0)
  {
    if meta.done == Some(false) then None
    else if meta.usage == map[] then None
    else
      var input := if "prompt_tokens" in meta.usage then meta.usage["prompt_tokens"] else 0;
      var output := if "completion_tokens" in meta.usage then meta.usage["completion_tokens"] else 0;
      var eval := meta.evalDuration.GetOr(0);
      Some(UsageInfo(input, output, eval, output > 0 && eval > 0))
  }

  /** The index of the first model with the given id, or the length. */
  function FirstWithId(models: seq<ModelConfig>, id: string): (f: nat)
    ensures f <= |models|
    ensures forall j :: 0 <= j < f ==> models[j].id != id
    ensures f < |models| ==> models[f].id == id
  {
    if models == [] then 0
    else if models[0].id == id then 0
    else 1 + FirstWithId(models[1..], id)
  }

  /** A model's counters after one more reply with the given usage, starting
      from zero when it has none yet. */
  function AddUsage(m: ModelConfig, u: UsageInfo): ModelConfig {
    var s := m.usageStats.GetOr(UsageStats(0, 0, 0, 0));
    m.(usageStats := Some(UsageStats(s.totalInput + u.inputTokens, s.totalOutput + u.outputTokens,
                                     s.totalEval + u.evalDurationNs, s.responseCount + 1)))
  }

  /** The model list after a reply with usage from the model with id `id`. */
  function ApplyUsage(models: seq<ModelConfig>, id: string, u: UsageInfo): seq<ModelConfig> {
    var f := FirstWithId(models, id);
    if f < |models| then models[f := AddUsage(models[f], u)] else models
  }

  /** Two configurations that differ at most in their counters. */
  predicate SameConfig(a: ModelConfig, b: ModelConfig) {
    a.(usageStats := None) == b.(usageStats := None)
  }

  /** Only the first model with the id is touched: its reply count grows by
      one and its totals by the reply's usage; every other model, and every
      configuration, stays as it was. */
  lemma ApplyUsageEffect(models: seq<ModelConfig>, id: string, u: UsageInfo)
    ensures var r := ApplyUsage(models, id, u);
      |r| == |models|
      && (forall j :: 0 <= j < |models| ==> SameConfig(r[j], models[j]))
      && (forall j :: 0 <= j < |models| && j != FirstWithId(models, id) ==> r[j] == models[j])
      && ((forall j :: 0 <= j < |models| ==> models[j].id != id) ==> r == models)
    ensures var f := FirstWithId(models, id);
      f < |models| ==>
        var old_ := models[f].usageStats.GetOr(UsageStats(0, 0, 0, 0));
        var new_ := ApplyUsage(models, id, u)[f].usageStats;
        new_.Some?
        && new_.value.responseCount == old_.responseCount + 1
        && new_.value.totalInput == old_.totalInput + u.inputTokens
        && new_.value.totalOutput == old_.totalOutput + u.outputTokens
        && new_.value.totalEval == old_.totalEval + u.evalDurationNs
  {
  }

  /** Average speed is shown for a model only when it has counters, at least
      one counted reply, and positive output-token and eval-duration totals. */
  predicate SpeedShown(m: ModelConfig) {
    m.usageStats.Some? && m.usageStats.value.responseCount > 0
    && m.usageStats.value.totalOutput > 0 && m.usageStats.value.totalEval > 0
  }

  /** A reply whose own speed is available makes the model's average speed
      shown, provided its totals were not negative. */
  lemma SpeedShownAfterUsage(models: seq<ModelConfig>, id: string, u: UsageInfo)
    requires u.hasSpeed <==> u.outputTokens > 0 && u.evalDurationNs > 0
    requires u.hasSpeed
    requires forall j :: 0 <= j < |models| && models[j].usageStats.Some? ==>
      models[j].usageStats.value.totalOutput >= 0 && models[j].usageStats.value.totalEval >= 0
        && models[j].usageStats.value.responseCount >= 0
    requires exists j :: 0 <= j < |models| && models[j].id == id
    ensures SpeedShown(ApplyUsage(models, id, u)[FirstWithId(models, id)])
  {
    var f := FirstWithId(models, id);
    assert f < |models| by {
      var j :| 0 <= j < |models| && models[j].id == id;
    }
    ApplyUsageEffect(models, id, u);
  }

  /** Adds a reply's usage to the first model with the given id; nothing
      happens when the reply has no usage. */
  method UpdateModelUsageStats(ml: ModelList, id: string, usage: Option<UsageInfo>)
    modifies ml
    ensures ml.models == if usage.None? then old(ml.models) else ApplyUsage(old(ml.models), id, usage.value)
  {
    if usage.None? {
      return;
    }
    var i := 0;
    while i < |ml.models|
      invariant 0 <= i <= |ml.models|
      invariant ml.models == old(ml.models)
      invariant forall j :: 0 <= j < i ==> ml.models[j].id != id
    {
      if ml.models[i].id == id {
        assert FirstWithId(ml.models, id) == i;
        ml.models := ml.models[i := AddUsage(ml.models[i], usage.value)];
        return;
      }
      i := i + 1;
    }
  }

  // ---------------------------------------------------------------------
  // The history sent to the models, and the runs of replies

  function SystemMessage(prompt: string): Message {
    Message(System, prompt, NoMeta)
  }

  /** A stored message goes to the models when it is the user's, or when it
      is not explicitly deselected (an absent flag counts as selected). */
  predicate InHistory(m: Message) {
    m.role == User || m.meta.selected != Some(false)
  }

  /** The stored messages that go to the models, in order. */
  function Kept(msgs: seq<Message>): seq<Message> {
    if msgs == [] then []
    else Kept(msgs[..|msgs| - 1]) + (if InHistory(msgs[|msgs| - 1]) then [msgs[|msgs| - 1]] else [])
  }

  /** The effective history: the system prompt, when it is not blank, then the
      kept messages. */
  function History(msgs: seq<Message>, systemPrompt: string): seq<Message> {
    (if Strip(systemPrompt) != "" then [SystemMessage(systemPrompt)] else []) + Kept(msgs)
  }

  lemma {:induction false} KeptAppend(a: seq<Message>, b: seq<Message>)
    ensures Kept(a + b) == Kept(a) + Kept(b)
    decreases |b|
  {
    if b == [] {
      assert a + b == a;
    } else {
      var b' := b[..|b| - 1];
      assert (a + b)[..|a + b| - 1] == a + b';
      KeptAppend(a, b');
    }
  }

  /** A message is kept exactly when it is stored and goes to the models. */
  lemma {:induction false} KeptMembers(msgs: seq<Message>)
    ensures forall m :: m in Kept(msgs) <==> m in msgs && InHistory(m)
    ensures |Kept(msgs)| <= |msgs|
  {
    if msgs != [] {
      KeptMembers(msgs[..|msgs| - 1]);
      assert msgs == msgs[..|msgs| - 1] + [msgs[|msgs| - 1]];
    }
  }

  /** With nothing deselected the whole conversation is sent. */
  lemma {:induction false} KeptAll(msgs: seq<Message>)
    requires forall i :: 0 <= i < |msgs| ==> InHistory(msgs[i])
    ensures Kept(msgs) == msgs
  {
    if msgs != [] {
      var init := msgs[..|msgs| - 1];
      var last := msgs[|msgs| - 1];
      forall i | 0 <= i < |init| ensures InHistory(init[i]) { assert init[i] == msgs[i]; }
      KeptAll(init);
      assert Kept(msgs) == Kept(init) + [last];
      assert init + [last] == msgs;
    }
  }

  /** The history starts with a system message exactly when the system
      prompt is not blank, and the rest is the kept conversation. */
  lemma HistoryShape(msgs: seq<Message>, systemPrompt: string)
    ensures !Blank(systemPrompt) ==> History(msgs, systemPrompt) == [SystemMessage(systemPrompt)] + Kept(msgs)
    ensures Blank(systemPrompt) ==> History(msgs, systemPrompt) == Kept(msgs)
    ensures forall m :: m in History(msgs, systemPrompt) && m.role != System ==> m in msgs && InHistory(m)
  {
    StripEmptyIffBlank(systemPrompt);
    KeptMembers(msgs);
  }

  /** The end of the run of assistant messages that starts at `i`. */
  function RunEnd(msgs: seq<Message>, i: nat): (e: nat)
    requires i <= |msgs|
    ensures i <= e <= |msgs|
    ensures forall t :: i <= t < e ==> msgs[t].role == Assistant
    ensures e == |msgs| || msgs[e].role != Assistant
    decreases |msgs| - i
  {
    if i < |msgs| && msgs[i].role == Assistant then RunEnd(msgs, i + 1) else i
  }

  /** The replies to the message at `k`: the maximal run of assistant
      messages right after it. */
  function Responses(msgs: seq<Message>, k: int): seq<Message>
    requires k >= -1
  {
    if k + 1 > |msgs| then [] else msgs[k + 1..RunEnd(msgs, k + 1)]
  }

  /** A run of assistant messages appended at the end of the conversation
      becomes the whole run of the message before it. */
  lemma {:induction false} RunEndAppend(msgs: seq<Message>, replies: seq<Message>, i: nat)
    requires i <= |msgs| && RunEnd(msgs, i) == |msgs|
    requires forall r :: r in replies ==> r.role == Assistant
    ensures RunEnd(msgs + replies, i) == |msgs| + |replies|
    decreases |msgs| + |replies| - i
  {
    var all := msgs + replies;
    if i < |all| {
      assert all[i].role == Assistant by {
        if i >= |msgs| { assert all[i] == replies[i - |msgs|]; }
      }
      if i < |msgs| {
        RunEndAppend(msgs, replies, i + 1);
      } else {
        RunEndTail(all, i);
      }
    }
  }

  lemma {:induction false} RunEndTail(msgs: seq<Message>, i: nat)
    requires i <= |msgs|
    requires forall t :: i <= t < |msgs| ==> msgs[t].role == Assistant
    ensures RunEnd(msgs, i) == |msgs|
    decreases |msgs| - i
  {
    if i < |msgs| {
      RunEndTail(msgs, i + 1);
    }
  }

  /** The replies appended after a new user message are exactly its run. */
  lemma RunAfterSubmit(msgs: seq<Message>, user: Message, replies: seq<Message>)
    requires user.role == User
    requires forall r :: r in replies ==> r.role == Assistant
    ensures Responses(msgs + [user] + replies, |msgs|) == replies
  {
    var pre := msgs + [user];
    RunEndAppend(pre, replies, |pre|);
    assert pre + replies == msgs + [user] + replies;
    assert (pre + replies)[|pre|..|pre| + |replies|] == replies;
  }

  /** `/retry` adds no user message: when the run of the message at `k`
      reaches the end of the conversation, the new replies extend that run. */
  lemma RetryExtendsRun(msgs: seq<Message>, k: int, replies: seq<Message>)
    requires -1 <= k && k + 1 <= |msgs| && RunEnd(msgs, k + 1) == |msgs|
    requires forall r :: r in replies ==> r.role == Assistant
    ensures Responses(msgs + replies, k) == Responses(msgs, k) + replies
  {
    var all := msgs + replies;
    RunEndAppend(msgs, replies, k + 1);
    assert Responses(all, k) == all[k + 1..|all|];
    assert Responses(msgs, k) == msgs[k + 1..];
    assert all[k + 1..|all|] == msgs[k + 1..] + replies;
  }

  // ---------------------------------------------------------------------
  // Dispatch to the models

  /** The reply of model `c` as stored: selected by default only when a
      single model is configured. */
  function ReplyMessage(c: ModelConfig, text: string, usage: Option<UsageInfo>, multi: bool): Message {
    Message(Assistant, text, Meta(Some(!multi), Some(c.name), Some(c.provider), Some(c.id), usage))
  }

  /** What a failed call shows: the exception text, with a hint to retry when
      it is Bedrock throttling a streamed conversation. */
  function ErrorMessage(modelName: string, error: string): (r: string)
    ensures var throttled := Contains(error, "ThrottlingException") && Contains(error, "ConverseStream");
      && (throttled ==> StartsWith(r, ThrottlingPrefix + modelName + ": " + error) && EndsWith(r, RetryHint))
      && (!throttled ==> StartsWith(r, GenerationFailed) && EndsWith(r, error))
  {
    if Contains(error, "ThrottlingException") && Contains(error, "ConverseStream") then
      var lead := ThrottlingPrefix + modelName + ": " + error;
      ConcatEnds(lead, [], RetryHint);
      assert lead + [] == lead;
      lead + RetryHint
    else
      ConcatEnds(GenerationFailed, [], error);
      assert GenerationFailed + [] == GenerationFailed;
      GenerationFailed + error
  }

  const GenerationFailed: string := "Error generating response: "
  const ThrottlingPrefix: string := "\U{26a0}\U{fe0f} AWS Bedrock throttling error occurred with "
  const RetryHint: string := "\n\nPlease try again by typing `/retry` in the chat input."

  /** The stored reply of one model's call, if it succeeded. */
  function ReplyOf(c: ModelConfig, history: seq<Message>,
                   generate: (ModelConfig, seq<Message>) -> GenResult, multi: bool): seq<Message> {
    match generate(c, history)
    case Success(text, meta) => [ReplyMessage(c, text, ExtractTokenUsage(meta), multi)]
    case Failure(_) => []
  }

  /** The error shown for one model's call, if it failed. */
  function ErrorOf(c: ModelConfig, history: seq<Message>,
                   generate: (ModelConfig, seq<Message>) -> GenResult): seq<string> {
    match generate(c, history)
    case Success(_, _) => []
    case Failure(e) => [ErrorMessage(c.name, e)]
  }

  /** The model list after the usage of one model's reply is counted. */
  function CountUsage(models: seq<ModelConfig>, c: ModelConfig, history: seq<Message>,
                      generate: (ModelConfig, seq<Message>) -> GenResult): seq<ModelConfig> {
    match generate(c, history)
    case Success(_, meta) =>
      (match ExtractTokenUsage(meta)
       case Some(u) => ApplyUsage(models, c.id, u)
       case None => models)
    case Failure(_) => models
  }

  /** The stored replies of a turn, in configured-model order: one per model
      whose call succeeded, every one computed from the same history. */
  function Replies(cfgs: seq<ModelConfig>, history: seq<Message>,
                   generate: (ModelConfig, seq<Message>) -> GenResult, multi: bool): seq<Message> {
    if cfgs == [] then []
    else Replies(cfgs[..|cfgs| - 1], history, generate, multi) + ReplyOf(cfgs[|cfgs| - 1], history, generate, multi)
  }

  /** The error messages of a turn, in configured-model order. */
  function Errors(cfgs: seq<ModelConfig>, history: seq<Message>,
                  generate: (ModelConfig, seq<Message>) -> GenResult): seq<string> {
    if cfgs == [] then []
    else Errors(cfgs[..|cfgs| - 1], history, generate) + ErrorOf(cfgs[|cfgs| - 1], history, generate)
  }

  /** The model list after the usage of the replies of `cfgs` is counted. */
  function StatsAfter(models: seq<ModelConfig>, cfgs: seq<ModelConfig>, history: seq<Message>,
                      generate: (ModelConfig, seq<Message>) -> GenResult): seq<ModelConfig> {
    if cfgs == [] then models
    else CountUsage(StatsAfter(models, cfgs[..|cfgs| - 1], history, generate), cfgs[|cfgs| - 1], history, generate)
  }

  /** Counting the usage of the `k`-th model keeps every id and leaves the
      models after it alone. */
  lemma CountUsageFrame(models: seq<ModelConfig>, k: nat, history: seq<Message>,
                        generate: (ModelConfig, seq<Message>) -> GenResult)
    requires k < |models|
    ensures var r := CountUsage(models, models[k], history, generate);
      |r| == |models|
      && (forall j :: 0 <= j < |models| ==> r[j].id == models[j].id)
      && (forall j :: k < j < |models| ==> r[j] == models[j])
  {
    match generate(models[k], history)
    case Success(_, meta) =>
      match ExtractTokenUsage(meta) {
        case Some(u) =>
          ApplyUsageEffect(models, models[k].id, u);
          var r := ApplyUsage(models, models[k].id, u);
          forall j | 0 <= j < |models| ensures r[j].id == models[j].id {
            assert SameConfig(r[j], models[j]);
            assert r[j].(usageStats := None).id == models[j].(usageStats := None).id;
          }
        case None =>
      }
    case Failure(_) =>
  }

  /** One more model of the turn adds its reply, its error and its usage. */
  lemma TurnStep(models: seq<ModelConfig>, cfgs: seq<ModelConfig>, k: nat, history: seq<Message>,
                 generate: (ModelConfig, seq<Message>) -> GenResult, multi: bool)
    requires k < |cfgs|
    ensures Replies(cfgs[..k + 1], history, generate, multi)
            == Replies(cfgs[..k], history, generate, multi) + ReplyOf(cfgs[k], history, generate, multi)
    ensures Errors(cfgs[..k + 1], history, generate) == Errors(cfgs[..k], history, generate) + ErrorOf(cfgs[k], history, generate)
    ensures StatsAfter(models, cfgs[..k + 1], history, generate)
            == CountUsage(StatsAfter(models, cfgs[..k], history, generate), cfgs[k], history, generate)
  {
    assert cfgs[..k + 1][..k] == cfgs[..k];
  }

  /** Every model either adds one reply or one error; every reply is an
      assistant message carrying the default selection; when all calls
      succeed the i-th reply is the i-th model's. */
  lemma RepliesShape(cfgs: seq<ModelConfig>, history: seq<Message>,
                     generate: (ModelConfig, seq<Message>) -> GenResult, multi: bool)
    ensures |Replies(cfgs, history, generate, multi)| + |Errors(cfgs, history, generate)| == |cfgs|
    ensures forall r :: r in Replies(cfgs, history, generate, multi) ==>
      r.role == Assistant && r.meta.selected == Some(!multi)
    ensures (forall i :: 0 <= i < |cfgs| ==> generate(cfgs[i], history).Success?) ==>
      |Replies(cfgs, history, generate, multi)| == |cfgs|
      && forall i :: 0 <= i < |cfgs| ==> Replies(cfgs, history, generate, multi)[i].meta.modelId == Some(cfgs[i].id)
  {
    RepliesCount(cfgs, history, generate, multi);
    RepliesAreReplies(cfgs, history, generate, multi);
    if forall i :: 0 <= i < |cfgs| ==> generate(cfgs[i], history).Success? {
      RepliesAllSucceed(cfgs, history, generate, multi);
    }
  }

  lemma {:induction false} RepliesCount(cfgs: seq<ModelConfig>, history: seq<Message>,
                                        generate: (ModelConfig, seq<Message>) -> GenResult, multi: bool)
    ensures |Replies(cfgs, history, generate, multi)| + |Errors(cfgs, history, generate)| == |cfgs|
  {
    if cfgs != [] {
      RepliesCount(cfgs[..|cfgs| - 1], history, generate, multi);
    }
  }

  lemma {:induction false} RepliesAreReplies(cfgs: seq<ModelConfig>, history: seq<Message>,
                                             generate: (ModelConfig, seq<Message>) -> GenResult, multi: bool)
    ensures forall r :: r in Replies(cfgs, history, generate, multi) ==>
      r.role == Assistant && r.meta.selected == Some(!multi)
  {
    if cfgs != [] {
      RepliesAreReplies(cfgs[..|cfgs| - 1], history, generate, multi);
    }
  }

  lemma {:induction false} RepliesAllSucceed(cfgs: seq<ModelConfig>, history: seq<Message>,
                                             generate: (ModelConfig, seq<Message>) -> GenResult, multi: bool)
    requires forall i :: 0 <= i < |cfgs| ==> generate(cfgs[i], history).Success?
    ensures |Replies(cfgs, history, generate, multi)| == |cfgs|
    ensures forall i :: 0 <= i < |cfgs| ==> Replies(cfgs, history, generate, multi)[i].meta.modelId == Some(cfgs[i].id)
  {
    if cfgs != [] {
      var init := cfgs[..|cfgs| - 1];
      forall i | 0 <= i < |init| ensures generate(init[i], history).Success? {
        assert init[i] == cfgs[i];
      }
      RepliesAllSucceed(init, history, generate, multi);
      var c := cfgs[|cfgs| - 1];
      assert Replies(cfgs, history, generate, multi)
          == Replies(init, history, generate, multi) + ReplyOf(c, history, generate, multi);
      assert generate(c, history).Success?;
    }
  }

  /** With several models no new reply goes to the models until one is
      selected; with a single model its reply goes at once. */
  lemma {:induction false} RepliesInHistory(cfgs: seq<ModelConfig>, history: seq<Message>,
                                            generate: (ModelConfig, seq<Message>) -> GenResult, multi: bool)
    ensures multi ==> Kept(Replies(cfgs, history, generate, multi)) == []
    ensures !multi ==> Kept(Replies(cfgs, history, generate, multi)) == Replies(cfgs, history, generate, multi)
  {
    if cfgs != [] {
      var init := cfgs[..|cfgs| - 1];
      RepliesInHistory(init, history, generate, multi);
      var c := cfgs[|cfgs| - 1];
      var tail := ReplyOf(c, history, generate, multi);
      KeptAppend(Replies(init, history, generate, multi), tail);
      if tail != [] {
        assert [tail[0]][..0] == [];
        assert tail == [tail[0]];
      }
    }
  }

  /** Counting usage keeps the list's length and every configuration, and
      changes the counters of no model after position `k` while only the
      first `k` models have been counted. */
  lemma {:induction false} StatsAfterFrame(models: seq<ModelConfig>, cfgs: seq<ModelConfig>, history: seq<Message>,
                                           generate: (ModelConfig, seq<Message>) -> GenResult)
    requires |cfgs| <= |models|
    requires forall j :: 0 <= j < |cfgs| ==> cfgs[j].id == models[j].id
    ensures var r := StatsAfter(models, cfgs, history, generate);
      |r| == |models|
      && (forall j :: 0 <= j < |models| ==> SameConfig(r[j], models[j]))
      && (forall j :: |cfgs| <= j < |models| ==> r[j] == models[j])
  {
    if cfgs != [] {
      var init := cfgs[..|cfgs| - 1];
      var c := cfgs[|cfgs| - 1];
      StatsAfterFrame(models, init, history, generate);
      var before := StatsAfter(models, init, history, generate);
      match generate(c, history)
      case Success(_, meta) =>
        match ExtractTokenUsage(meta) {
          case Some(u) =>
            ApplyUsageEffect(before, c.id, u);
            assert before[|cfgs| - 1].id == c.id;
            var r := ApplyUsage(before, c.id, u);
            forall j | 0 <= j < |models| ensures SameConfig(r[j], models[j]) {
              assert SameConfig(r[j], before[j]) && SameConfig(before[j], models[j]);
            }
          case None =>
        }
      case Failure(_) =>
    }
  }

  /** One successful call of `/retry` or of a new prompt: its usage counts
      once, to its own model, when the model ids are distinct. */
  lemma SingleModelUsage(m: ModelConfig, history: seq<Message>,
                         generate: (ModelConfig, seq<Message>) -> GenResult)
    requires generate(m, history).Success? && ExtractTokenUsage(generate(m, history).meta).Some?
    ensures var r := StatsAfter([m], [m], history, generate);
      |r| == 1 && r[0].usageStats.Some?
      && r[0].usageStats.value.responseCount == m.usageStats.GetOr(UsageStats(0, 0, 0, 0)).responseCount + 1
  {
    assert [m][..0] == [];
    ApplyUsageEffect([m], m.id, ExtractTokenUsage(generate(m, history).meta).value);
  }

  /** The documents prepended to the first message: none when no document
      is selected, otherwise the preview of the selection. */
  function ChatFormatted(docs: seq<Doc>, style: string): (r: seq<string>)
    ensures |r| == |docs|
  {
    seq(|docs|, i requires 0 <= i < |docs| => ChatFormatDocument(docs[i].path, docs[i].content, style))
  }

  method PrepareDocumentContext(docs: seq<Doc>, style: string, instructions: string) returns (context: Option<string>)
    ensures docs == [] ==> context == None
    ensures docs != [] ==> context == Some(Preview(instructions, ChatFormatted(docs, style)))
  {
    if docs == [] {
      return None;
    }
    ghost var formatted := ChatFormatted(docs, style);
    var head := instructions + "\n\n";
    var text := head;
    var i := 0;
    while i < |docs|
      invariant 0 <= i <= |docs|
      invariant text == head + Blocks(formatted[..i])
    {
      var block := ChatFormatDocument(docs[i].path, docs[i].content, style);
      assert block == formatted[i];
      BlocksStep(head, formatted, i);
      text := text + (block + "\n\n");
      i := i + 1;
    }
    assert formatted[..i] == formatted;
    return Some(text);
  }

  /** The stored text of a submitted prompt: the document context, a blank
      line and the prompt on the first message when documents are selected;
      the prompt alone otherwise. */
  function SubmittedText(prompt: string, first: bool, docs: seq<Doc>, style: string, instructions: string): string {
    if first && docs != [] then Preview(instructions, ChatFormatted(docs, style)) + "\n\n" + prompt else prompt
  }

  /** The prompt always ends the stored text, and the documents lead it only
      on the first message. */
  lemma SubmittedTextShape(prompt: string, first: bool, docs: seq<Doc>, style: string, instructions: string)
    ensures var t := SubmittedText(prompt, first, docs, style, instructions);
      |prompt| <= |t| && t[|t| - |prompt|..] == prompt
      && (!first || docs == [] ==> t == prompt)
      && (first && docs != [] ==> StartsWith(t, instructions + "\n\n"))
  {
    var t := SubmittedText(prompt, first, docs, style, instructions);
    if first && docs != [] {
      var lead, blocks := instructions + "\n\n", Blocks(ChatFormatted(docs, style));
      assert t == (lead + blocks) + "\n\n" + prompt;
      AppendAssoc(lead, blocks, "\n\n");
      ConcatEnds(lead, blocks + "\n\n", prompt);
    }
  }

  /** The stored user message of a prompt. */
  function UserMessage(text: string): Message {
    Message(User, text, Meta(Some(true), None, None, None, None))
  }

  /** Marks a message selected or not. */
  function WithSelected(m: Message, value: bool): Message {
    m.(meta := m.meta.(selected := Some(value)))
  }

  /** The selection radio shows a reply as selected only when its flag is
      explicitly true. */
  predicate IsSelected(m: Message) {
    m.meta.selected == Some(true)
  }

  /** After an exclusive selection, the run contributes exactly the chosen
      reply to the history: the others are explicitly deselected. */
  lemma ExclusiveRunHistory(run: seq<Message>, t: nat)
    requires t < |run| && IsSelected(run[t])
    requires forall i :: 0 <= i < |run| && i != t ==> run[i].role == Assistant && run[i].meta.selected == Some(false)
    ensures Kept(run) == [run[t]]
  {
    var pre, post := run[0..t], run[t + 1..|run|];
    DeselectedNotKept(run, t, 0, t);
    DeselectedNotKept(run, t, t + 1, |run|);
    var m := run[t];
    SplitAt(run, t);
    KeptAppend3(pre, [m], post);
    KeptSingle(m);
  }

  /** A stretch of the run that leaves out the chosen reply contributes
      nothing to the history. */
  lemma DeselectedNotKept(run: seq<Message>, t: nat, lo: nat, hi: nat)
    requires lo <= hi <= |run| && (hi <= t || t < lo)
    requires forall i :: 0 <= i < |run| && i != t ==> run[i].role == Assistant && run[i].meta.selected == Some(false)
    ensures Kept(run[lo..hi]) == []
  {
    forall i | 0 <= i < hi - lo ensures !InHistory(run[lo..hi][i]) {
      assert run[lo..hi][i] == run[lo + i];
    }
    KeptNone(run[lo..hi]);
  }

  lemma KeptAppend3(a: seq<Message>, b: seq<Message>, c: seq<Message>)
    ensures Kept(a + b + c) == Kept(a) + Kept(b) + Kept(c)
  {
    KeptAppend(a + b, c);
    KeptAppend(a, b);
  }

  lemma KeptSingle(m: Message)
    ensures Kept([m]) == if InHistory(m) then [m] else []
  {
    assert [m][..0] == [];
  }

  lemma {:induction false} KeptNone(msgs: seq<Message>)
    requires forall i :: 0 <= i < |msgs| ==> !InHistory(msgs[i])
    ensures Kept(msgs) == []
  {
    if msgs != [] {
      var init := msgs[..|msgs| - 1];
      assert forall i :: 0 <= i < |init| ==> !InHistory(init[i]) by {
        forall i | 0 <= i < |init| ensures !InHistory(init[i]) { assert init[i] == msgs[i]; }
      }
      KeptNone(init);
    }
  }

  // ---------------------------------------------------------------------
  // The session's conversation

  class ChatState {
    var messages: seq<Message>
    var lastUserMsgIdx: int
    var awaitingSelection: bool
    var showHelp: bool

    constructor ()
      ensures messages == [] && lastUserMsgIdx == -1 && !awaitingSelection && !showHelp
    {
      messages := [];
      lastUserMsgIdx := -1;
      awaitingSelection := false;
      showHelp := false;
    }

    /** The history sent to the models, built in one pass. */
    method EffectiveHistory(systemPrompt: string) returns (history: seq<Message>)
      ensures history == History(messages, systemPrompt)
    {
      history := [];
      if Strip(systemPrompt) != "" {
        history := history + [SystemMessage(systemPrompt)];
      }
      ghost var head := history;
      var i := 0;
      while i < |messages|
        invariant 0 <= i <= |messages|
        invariant history == head + Kept(messages[..i])
      {
        assert messages[..i + 1][..i] == messages[..i];
        var msg := messages[i];
        if msg.role == User || msg.meta.selected != Some(false) {
          history := history + [msg];
        }
        i := i + 1;
      }
      assert messages[..i] == messages;
    }

    /** The replies to the message at `k`, collected one by one. */
    method ResponsesFor(k: int) returns (responses: seq<Message>)
      requires k >= -1
      ensures responses == Responses(messages, k)
    {
      responses := [];
      var i := k + 1;
      if i > |messages| {
        return;
      }
      while i < |messages| && messages[i].role == Assistant
        invariant k + 1 <= i <= RunEnd(messages, k + 1)
        invariant responses == messages[k + 1..i]
        decreases |messages| - i
      {
        responses := responses + [messages[i]];
        i := i + 1;
      }
    }

    /** "Reset Chat": an empty conversation, and no counters on any model. */
    method Reset(ml: ModelList)
      modifies this, ml
      ensures messages == [] && lastUserMsgIdx == -1 && !awaitingSelection
      ensures showHelp == old(showHelp)
      ensures |ml.models| == |old(ml.models)|
      ensures forall j :: 0 <= j < |ml.models| ==>
        ml.models[j] == old(ml.models[j]).(usageStats := None) && SameConfig(ml.models[j], old(ml.models[j]))
    {
      messages := [];
      lastUserMsgIdx := -1;
      awaitingSelection := false;
      var j := 0;
      while j < |ml.models|
        invariant 0 <= j <= |ml.models| && |ml.models| == |old(ml.models)|
        invariant forall t :: 0 <= t < j ==> ml.models[t] == old(ml.models[t]).(usageStats := None)
        invariant forall t :: j <= t < |ml.models| ==> ml.models[t] == old(ml.models[t])
        invariant messages == [] && lastUserMsgIdx == -1 && !awaitingSelection && showHelp == old(showHelp)
      {
        ml.models := ml.models[j := ml.models[j].(usageStats := None)];
        j := j + 1;
      }
    }

    /** Stores a prompt as a new selected user message, with the documents
        in front of it when it is the first message, and makes it the last
        user message. */
    method Submit(prompt: string, docs: seq<Doc>, style: string, instructions: string)
      modifies this
      ensures messages == old(messages) + [UserMessage(SubmittedText(prompt, old(messages) == [], docs, style, instructions))]
      ensures lastUserMsgIdx == |old(messages)| && lastUserMsgIdx == |messages| - 1
      ensures awaitingSelection == old(awaitingSelection) && showHelp == old(showHelp)
    {
      var isFirst := |messages| == 0;
      var context: Option<string> := None;
      if isFirst {
        context := PrepareDocumentContext(docs, style, instructions);
      }
      var text := prompt;
      if context.Some? {
        text := context.value + "\n\n" + prompt;
      }
      messages := messages + [UserMessage(text)];
      lastUserMsgIdx := |messages| - 1;
    }

    /** Sends the history, computed once, to every configured model in
        order; stores one reply per successful call, counts its usage, and
        collects one error per failed call. With several models the user
        must then select a reply. */
    method Dispatch(generate: (ModelConfig, seq<Message>) -> GenResult, systemPrompt: string, ml: ModelList)
      returns (errors: seq<string>)
      modifies this, ml
      ensures var history := History(old(messages), systemPrompt);
        messages == old(messages) + Replies(old(ml.models), history, generate, |old(ml.models)| > 1)
        && ml.models == StatsAfter(old(ml.models), old(ml.models), history, generate)
        && errors == Errors(old(ml.models), history, generate)
      ensures awaitingSelection == (old(awaitingSelection) || |old(ml.models)| > 1)
      ensures lastUserMsgIdx == old(lastUserMsgIdx) && showHelp == old(showHelp)
    {
      var history := EffectiveHistory(systemPrompt);
      var multi := |ml.models| > 1;
      errors := AskModels(history, generate, multi, ml);
      if multi {
        awaitingSelection := true;
      }
    }

    /** The loop of a turn: every configured model, in order, is sent the
        same history; replies, usage and errors accumulate model by model. */
    method AskModels(history: seq<Message>, generate: (ModelConfig, seq<Message>) -> GenResult,
                     multi: bool, ml: ModelList)
      returns (errors: seq<string>)
      modifies this, ml
      ensures messages == old(messages) + Replies(old(ml.models), history, generate, multi)
      ensures ml.models == StatsAfter(old(ml.models), old(ml.models), history, generate)
      ensures errors == Errors(old(ml.models), history, generate)
      ensures lastUserMsgIdx == old(lastUserMsgIdx) && showHelp == old(showHelp)
      ensures awaitingSelection == old(awaitingSelection)
    {
      var n := |ml.models|;
      ghost var cfgs := ml.models;
      ghost var msgs0 := messages;
      errors := [];
      var k := 0;
      while k < n
        invariant n == |cfgs| && 0 <= k <= n
        invariant ml.models == StatsAfter(cfgs, cfgs[..k], history, generate)
        invariant messages == msgs0 + Replies(cfgs[..k], history, generate, multi)
        invariant errors == Errors(cfgs[..k], history, generate)
        invariant lastUserMsgIdx == old(lastUserMsgIdx) && showHelp == old(showHelp)
        invariant awaitingSelection == old(awaitingSelection)
      {
        StatsAfterFrame(cfgs, cfgs[..k], history, generate);
        var model := ml.models[k];
        assert model == cfgs[k];
        TurnStep(cfgs, cfgs, k, history, generate, multi);
        var error := CallModel(model, history, generate, multi, ml);
        ghost var reply := ReplyOf(cfgs[k], history, generate, multi);
        ghost var rs := Replies(cfgs[..k], history, generate, multi);
        AppendAssoc(msgs0, rs, reply);
        errors := errors + error;
        k := k + 1;
      }
      assert cfgs[..k] == cfgs;
    }

    /** One model's part of a turn: on success its reply is stored and its
        usage counted; on failure only the error is returned. */
    method CallModel(model: ModelConfig, history: seq<Message>,
                     generate: (ModelConfig, seq<Message>) -> GenResult, multi: bool, ml: ModelList)
      returns (error: seq<string>)
      modifies this, ml
      ensures messages == old(messages) + ReplyOf(model, history, generate, multi)
      ensures ml.models == CountUsage(old(ml.models), model, history, generate)
      ensures error == ErrorOf(model, history, generate)
      ensures lastUserMsgIdx == old(lastUserMsgIdx) && showHelp == old(showHelp)
      ensures awaitingSelection == old(awaitingSelection)
    {
      match generate(model, history) {
        case Success(text, meta) =>
          var usage := ExtractTokenUsage(meta);
          UpdateModelUsageStats(ml, model.id, usage);
          messages := messages + [ReplyMessage(model, text, usage, multi)];
          error := [];
        case Failure(e) =>
          error := [ErrorMessage(model.name, e)];
      }
    }

    /** Handles one chat input. The page disables the input while a selection
        is awaited, so this is only called when none is. "/help" only shows
        help; "/retry" sends the conversation again without a new message;
        any other text is stored as a user message and sent. */
    method HandleChatInput(prompt: string, docs: seq<Doc>, style: string, instructions: string,
                           systemPrompt: string, generate: (ModelConfig, seq<Message>) -> GenResult,
                           ml: ModelList)
      returns (errors: seq<string>)
      requires !awaitingSelection
      modifies this, ml
      ensures prompt == "/help" ==>
        showHelp && messages == old(messages) && ml.models == old(ml.models) && errors == []
        && lastUserMsgIdx == old(lastUserMsgIdx) && !awaitingSelection
      ensures prompt == "/retry" ==>
        var history := History(old(messages), systemPrompt);
        messages == old(messages) + Replies(old(ml.models), history, generate, |old(ml.models)| > 1)
        && ml.models == StatsAfter(old(ml.models), old(ml.models), history, generate)
        && errors == Errors(old(ml.models), history, generate)
        && lastUserMsgIdx == old(lastUserMsgIdx)
      ensures prompt != "/help" && prompt != "/retry" ==>
        var user := UserMessage(SubmittedText(prompt, old(messages) == [], docs, style, instructions));
        var history := History(old(messages) + [user], systemPrompt);
        messages == old(messages) + [user] + Replies(old(ml.models), history, generate, |old(ml.models)| > 1)
        && ml.models == StatsAfter(old(ml.models), old(ml.models), history, generate)
        && errors == Errors(old(ml.models), history, generate)
        && lastUserMsgIdx == |old(messages)|
      ensures prompt != "/help" ==> awaitingSelection == (|old(ml.models)| > 1) && showHelp == old(showHelp)
    {
      if prompt == "/help" {
        showHelp := true;
        return [];
      }
      if prompt != "/retry" {
        Submit(prompt, docs, style, instructions);
      }
      errors := Dispatch(generate, systemPrompt, ml);
    }

    /** Sets the selection of the `j`-th reply to the user message at `u`
        (offered only when the run has several replies). Choosing a reply
        deselects the rest of its run; a choice for the last user message
        ends the wait for a selection. An unchanged value does nothing. */
    method SelectResponse(u: nat, j: nat, value: bool)
      modifies this
      requires u < |messages| && messages[u].role == User
      requires |Responses(messages, u)| > 1 && j < |Responses(messages, u)|
      ensures var e := RunEnd(old(messages), u + 1);
        var t := u + 1 + j;
        |messages| == |old(messages)| && t < e
        && (value == IsSelected(old(messages)[t]) ==>
              messages == old(messages) && awaitingSelection == old(awaitingSelection))
        && (value != IsSelected(old(messages)[t]) ==>
              (forall i :: 0 <= i < |messages| ==>
                 messages[i] == if i == t then WithSelected(old(messages)[i], value)
                                else if value && u < i < e then WithSelected(old(messages)[i], false)
                                else old(messages)[i])
              && awaitingSelection == (old(awaitingSelection) && !(u == old(lastUserMsgIdx) && value)))
      ensures var e := RunEnd(old(messages), u + 1);
        value && !IsSelected(old(messages)[u + 1 + j]) ==>
          forall i :: u < i < e ==> (IsSelected(messages[i]) <==> i == u + 1 + j)
      ensures lastUserMsgIdx == old(lastUserMsgIdx) && showHelp == old(showHelp)
    {
      var responses := ResponsesFor(u);
      var t := u + 1 + j;
      var end := u + 1 + |responses|;
      assert end == RunEnd(messages, u + 1);
      assert responses[j] == messages[t];
      if value != IsSelected(responses[j]) {
        if value {
          Deselect(u + 1, end);
        }
        messages := messages[t := WithSelected(messages[t], value)];
        if u == lastUserMsgIdx && value {
          awaitingSelection := false;
        }
      }
    }

    /** Marks the messages at positions `from` up to `to` deselected and
        leaves every other message as it was. */
    method Deselect(from: nat, to: nat)
      requires from <= to <= |messages|
      modifies this
      ensures |messages| == |old(messages)|
      ensures forall s :: 0 <= s < |messages| ==>
        messages[s] == if from <= s < to then WithSelected(old(messages)[s], false) else old(messages)[s]
      ensures lastUserMsgIdx == old(lastUserMsgIdx) && showHelp == old(showHelp)
      ensures awaitingSelection == old(awaitingSelection)
    {
      var i := from;
      while i < to
        invariant from <= i <= to && |messages| == |old(messages)|
        invariant forall s :: 0 <= s < |messages| ==>
          messages[s] == if from <= s < i then WithSelected(old(messages)[s], false) else old(messages)[s]
        invariant lastUserMsgIdx == old(lastUserMsgIdx) && showHelp == old(showHelp)
        invariant awaitingSelection == old(awaitingSelection)
      {
        messages := messages[i := WithSelected(messages[i], false)];
        i := i + 1;
      }
    }
  }

  /** "Start Chat" of the Model Selection and Documents pages: with at least
      one model configured, a fresh conversation (the model counters are
      kept); otherwise nothing changes. */
  method StartChat(chat: ChatState, ml: ModelList) returns (started: bool)
    modifies chat
    ensures started <==> |ml.models| > 0
    ensures started ==> chat.messages == [] && chat.lastUserMsgIdx == -1 && !chat.awaitingSelection
    ensures !started ==> chat.messages == old(chat.messages) && chat.lastUserMsgIdx == old(chat.lastUserMsgIdx)
                         && chat.awaitingSelection == old(chat.awaitingSelection)
    ensures chat.showHelp == old(chat.showHelp)
  {
    if |ml.models| == 0 {
      return false;
    }
    chat.messages := [];
    chat.lastUserMsgIdx := -1;
    chat.awaitingSelection := false;
    return true;
  }
}
