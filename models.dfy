/** The Model Selection page: the list of configured models of the session,
    and the provider listings it offers (Ollama's local models with their
    display names, sorted; AWS Bedrock's text chat models). */
module Models {
  import opened Values
  import opened Text

  /** Per-model counters the Chat page accumulates. */
  datatype UsageStats = UsageStats(totalInput: int, totalOutput: int, totalEval: int, responseCount: int)

  /** One configured model. `url` is present only for Ollama models;
      `usageStats` is absent until the first reply that reports usage. */
  datatype ModelConfig = ModelConfig(
    id: string,
    provider: string,
    name: string,
    params: map<string, Value>,
    url: Option<Value>,
    usageStats: Option<UsageStats>)

  const OllamaProvider: string := "Ollama"
  const DefaultOllamaUrl: string := "http://localhost:11434"

  /** The id of a model added with the given clock reading (rendered as text). */
  function ModelId(provider: string, name: string, clock: string): (id: string)
    ensures StartsWith(id, provider + "_" + name + "_")
  {
    provider + "_" + name + "_" + clock
  }

  /** The models whose id differs from `id`, in their order. */
  function WithoutId(models: seq<ModelConfig>, id: string): seq<ModelConfig> {
    if models == [] then []
    else WithoutId(models[..|models| - 1], id)
         + (if models[|models| - 1].id != id then [models[|models| - 1]] else [])
  }

  /** `WithoutId` keeps exactly the models with another id, in order. */
  lemma WithoutIdKeeps(models: seq<ModelConfig>, id: string)
    ensures forall m :: m in WithoutId(models, id) <==> m in models && m.id != id
    ensures |WithoutId(models, id)| <= |models|
    ensures (forall i :: 0 <= i < |models| ==> models[i].id != id) ==> WithoutId(models, id) == models
  {
    WithoutIdMembers(models, id);
    WithoutIdShorter(models, id);
    if forall i :: 0 <= i < |models| ==> models[i].id != id {
      WithoutUnknownId(models, id);
    }
  }

  lemma {:induction false} WithoutIdMembers(models: seq<ModelConfig>, id: string)
    ensures forall m :: m in WithoutId(models, id) <==> m in models && m.id != id
  {
    if models != [] {
      var init := models[..|models| - 1];
      WithoutIdMembers(init, id);
      assert models == init + [models[|models| - 1]];
    }
  }

  lemma {:induction false} WithoutIdShorter(models: seq<ModelConfig>, id: string)
    ensures |WithoutId(models, id)| <= |models|
  {
    if models != [] {
      WithoutIdShorter(models[..|models| - 1], id);
    }
  }

  lemma {:induction false} WithoutUnknownId(models: seq<ModelConfig>, id: string)
    requires forall i :: 0 <= i < |models| ==> models[i].id != id
    ensures WithoutId(models, id) == models
  {
    if models != [] {
      var init := models[..|models| - 1];
      WithoutUnknownId(init, id);
      assert models == init + [models[|models| - 1]];
    }
  }

  /** The models configured in the session, in the order they were added. */
  class ModelList {
    var models: seq<ModelConfig>

    constructor ()
      ensures models == []
    {
      models := [];
    }

    /** Appends one model. An Ollama model takes its server URL out of the
        parameters (the default URL when there is none); every other
        parameter, display name included, stays. */
    method AddModel(provider: string, name: string, params: map<string, Value>, clock: string)
      modifies this
      ensures |models| == |old(models)| + 1 && models[..|old(models)|] == old(models)
      ensures var m := models[|old(models)|];
        m.id == ModelId(provider, name, clock) && m.provider == provider && m.name == name
        && m.usageStats == None
        && (provider == OllamaProvider ==>
              m.url == Some(Get(params, "url", Str(DefaultOllamaUrl))) && m.params == params - {"url"})
        && (provider != OllamaProvider ==> m.url == None && m.params == params)
    {
      var config := ModelConfig(ModelId(provider, name, clock), provider, name, params, None, None);
      if provider == OllamaProvider {
        var url := if "url" in params then params["url"] else Str(DefaultOllamaUrl);
        config := config.(params := params - {"url"}, url := Some(url));
      }
      models := models + [config];
    }

    /** Removes every model with the given id, keeping the others in order. */
    method RemoveModel(id: string)
      modifies this
      ensures models == WithoutId(old(models), id)
      ensures forall m :: m in models ==> m.id != id
    {
      WithoutIdKeeps(models, id);
      models := WithoutId(models, id);
    }

    /** "Clear All Models". */
    method ClearModels()
      modifies this
      ensures models == []
    {
      models := [];
    }
  }

  // ---------------------------------------------------------------------
  // Ollama listing

  /** The `details` of an Ollama listing entry: a missing key reads as "". */
  datatype OllamaDetails = OllamaDetails(parameterSize: string, quantizationLevel: string)

  /** One entry of the parsed `/api/tags` response. */
  datatype OllamaRaw = OllamaRaw(name: string, details: Option<OllamaDetails>)

  /** The outcome of querying the Ollama server: the HTTP status and the
      parsed models, or a connection error. */
  datatype OllamaResponse = OllamaHttp(status: int, raw: seq<OllamaRaw>) | OllamaUnreachable(error: string)

  /** An entry of the model drop-down: the name used for API calls and the
      name shown. */
  datatype OllamaEntry = OllamaEntry(name: string, displayName: string, details: Option<OllamaDetails>)

  const OllamaFallback: OllamaEntry := OllamaEntry("gemma3:27b", "gemma3:27b", None)

  /** The non-empty ones of parameter size and quantisation, in that order. */
  function DisplayParts(d: OllamaDetails): seq<string> {
    (if d.parameterSize != "" then [d.parameterSize] else [])
    + (if d.quantizationLevel != "" then [d.quantizationLevel] else [])
  }

  /** The shown name: the model name, followed by the non-empty details in
      parentheses when there are any. */
  function DisplayName(name: string, details: Option<OllamaDetails>): (r: string)
    ensures StartsWith(r, name)
    ensures details.None? ==> r == name
  {
    if details.Some? && DisplayParts(details.value) != [] then
      name + " (" + Join(DisplayParts(details.value), ", ") + ")"
    else name
  }

  /** The display name is the bare name exactly when no detail is non-empty,
      and otherwise lists the non-empty details in order. */
  lemma DisplayNameShape(name: string, details: Option<OllamaDetails>)
    ensures StartsWith(DisplayName(name, details), name)
    ensures DisplayName(name, details) == name
            <==> details.None? || (details.value.parameterSize == "" && details.value.quantizationLevel == "")
    ensures details.Some? && details.value.parameterSize != "" && details.value.quantizationLevel != "" ==>
      DisplayName(name, details) == name + " (" + details.value.parameterSize + ", " + details.value.quantizationLevel + ")"
    ensures details.Some? && details.value.parameterSize == "" && details.value.quantizationLevel != "" ==>
      DisplayName(name, details) == name + " (" + details.value.quantizationLevel + ")"
    ensures details.Some? && details.value.parameterSize != "" && details.value.quantizationLevel == "" ==>
      DisplayName(name, details) == name + " (" + details.value.parameterSize + ")"
  {
    var r := DisplayName(name, details);
    assert r[..|name|] == name;
    if details.Some? && DisplayParts(details.value) != [] {
      assert |r| > |name|;
      var d := details.value;
      if d.parameterSize != "" && d.quantizationLevel != "" {
        assert DisplayParts(d) == [d.parameterSize, d.quantizationLevel];
        assert DisplayParts(d)[1..] == [d.quantizationLevel];
        assert Join(DisplayParts(d), ", ") == d.parameterSize + ", " + d.quantizationLevel;
        assert r == name + " (" + (d.parameterSize + ", " + d.quantizationLevel) + ")";
      } else if d.parameterSize != "" {
        assert DisplayParts(d) == [d.parameterSize];
      }
    }
  }

  /** The sort key of an entry: its display name, lower-cased. */
  function SortKey(e: OllamaEntry): string {
    Lower(e.displayName)
  }

  predicate SortedByKey(s: seq<OllamaEntry>) {
    forall i, j :: 0 <= i < j < |s| ==> LexLe(SortKey(s[i]), SortKey(s[j]))
  }

  /** Inserts `e` after every entry whose key is not greater, keeping the
      order of equal keys as `sorted` does. */
  function InsertByKey(e: OllamaEntry, s: seq<OllamaEntry>): (r: seq<OllamaEntry>)
    ensures multiset(r) == multiset(s) + multiset{e}
    ensures |r| == |s| + 1
  {
    if s == [] then [e]
    else if LexLe(SortKey(s[|s| - 1]), SortKey(e)) then s + [e]
    else
      assert s == s[..|s| - 1] + [s[|s| - 1]];
      InsertByKey(e, s[..|s| - 1]) + [s[|s| - 1]]
  }

  lemma {:induction false} InsertKeepsSorted(e: OllamaEntry, s: seq<OllamaEntry>)
    requires SortedByKey(s)
    ensures SortedByKey(InsertByKey(e, s))
    ensures InsertByKey(e, s) != [] && forall x :: x in InsertByKey(e, s) ==> x == e || x in s
  {
    if s != [] {
      var last := s[|s| - 1];
      if LexLe(SortKey(last), SortKey(e)) {
        var r := s + [e];
        forall i, j | 0 <= i < j < |r| ensures LexLe(SortKey(r[i]), SortKey(r[j])) {
          if j == |s| && i < |s| - 1 {
            LexLeTrans(SortKey(s[i]), SortKey(last), SortKey(e));
          }
        }
      } else {
        var init := s[..|s| - 1];
        assert SortedByKey(init);
        InsertKeepsSorted(e, init);
        var r0 := InsertByKey(e, init);
        LexLeTotal(SortKey(last), SortKey(e));
        forall x | x in r0 ensures LexLe(SortKey(x), SortKey(last)) {
          if x != e {
            var k :| 0 <= k < |init| && init[k] == x;
            assert s[k] == x;
          }
        }
        var r := r0 + [last];
        forall i, j | 0 <= i < j < |r| ensures LexLe(SortKey(r[i]), SortKey(r[j])) {
          if j == |r0| {
            assert r[i] in r0;
          }
        }
        forall x | x in r ensures x == e || x in s {
          if x in r0 && x != e {
            assert x in init;
          }
        }
      }
    }
  }

  /** `sorted(entries, key=display name lower-cased)`. */
  function SortByKey(entries: seq<OllamaEntry>): (r: seq<OllamaEntry>)
    ensures multiset(r) == multiset(entries)
  {
    if entries == [] then []
    else
      assert entries == entries[..|entries| - 1] + [entries[|entries| - 1]];
      InsertByKey(entries[|entries| - 1], SortByKey(entries[..|entries| - 1]))
  }

  /** The sorted listing is ordered by key and is a permutation of its input. */
  lemma {:induction false} SortByKeySorted(entries: seq<OllamaEntry>)
    ensures SortedByKey(SortByKey(entries))
    ensures multiset(SortByKey(entries)) == multiset(entries)
  {
    if entries != [] {
      SortByKeySorted(entries[..|entries| - 1]);
      InsertKeepsSorted(entries[|entries| - 1], SortByKey(entries[..|entries| - 1]));
    }
  }

  /** The drop-down entry for one listed model. */
  function EntryOf(raw: OllamaRaw): OllamaEntry {
    OllamaEntry(raw.name, DisplayName(raw.name, raw.details), raw.details)
  }

  /** The entries of the listed models, in listing order. */
  function EntriesOf(raw: seq<OllamaRaw>): (r: seq<OllamaEntry>)
    ensures |r| == |raw| && forall i :: 0 <= i < |raw| ==> r[i] == EntryOf(raw[i])
  {
    seq(|raw|, i requires 0 <= i < |raw| => EntryOf(raw[i]))
  }

  /** Listing one more model adds its entry at the end. */
  lemma EntriesOfStep(raw: seq<OllamaRaw>, i: nat)
    requires i < |raw|
    ensures EntriesOf(raw[..i + 1]) == EntriesOf(raw[..i]) + [EntryOf(raw[i])]
  {
    assert raw[..i + 1][..i] == raw[..i];
  }

  /** The drop-down entries for an Ollama server: on status 200 one entry per
      listed model, sorted by lower-cased display name; otherwise the single
      fallback model. */
  method OllamaModels(response: OllamaResponse) returns (entries: seq<OllamaEntry>)
    ensures response.OllamaHttp? && response.status == 200 ==>
      SortedByKey(entries) && multiset(entries) == multiset(EntriesOf(response.raw))
    ensures !(response.OllamaHttp? && response.status == 200) ==> entries == [OllamaFallback]
  {
    if !(response.OllamaHttp? && response.status == 200) {
      return [OllamaFallback];
    }
    var raw := response.raw;
    var infos: seq<OllamaEntry> := [];
    var i := 0;
    while i < |raw|
      invariant 0 <= i <= |raw|
      invariant infos == EntriesOf(raw[..i])
    {
      var name := raw[i].name;
      var displayName := name;
      if raw[i].details.Some? {
        var d := raw[i].details.value;
        if d.parameterSize != "" || d.quantizationLevel != "" {
          var info: seq<string> := [];
          if d.parameterSize != "" {
            info := info + [d.parameterSize];
          }
          if d.quantizationLevel != "" {
            info := info + [d.quantizationLevel];
          }
          assert info == DisplayParts(d);
          displayName := name + " (" + Join(info, ", ") + ")";
        }
      }
      assert displayName == DisplayName(name, raw[i].details);
      EntriesOfStep(raw, i);
      infos := infos + [OllamaEntry(name, displayName, raw[i].details)];
      i := i + 1;
    }
    assert raw[..i] == raw;
    SortByKeySorted(infos);
    entries := SortByKey(infos);
  }

  // ---------------------------------------------------------------------
  // AWS Bedrock listing

  /** One parsed entry of `list_foundation_models`: missing modality lists
      read as empty, a missing lifecycle status as None. */
  datatype BedrockSummary = BedrockSummary(
    modelId: string, inputModalities: seq<string>, outputModalities: seq<string>, status: Option<string>)

  /** The outcome of the listing call. */
  datatype BedrockResponse = BedrockListed(summaries: seq<BedrockSummary>) | BedrockFailed(error: string)

  const DefaultBedrockModel: string := "us.anthropic.claude-3-7-sonnet-20250219-v1:0"

  /** A model is offered when it takes and produces text and is active. */
  predicate IsChatModel(m: BedrockSummary) {
    "text" in m.inputModalities && "text" in m.outputModalities && m.status == Some("ACTIVE")
  }

  /** The ids of the chat models, in listing order. */
  function ChatModelIds(summaries: seq<BedrockSummary>): seq<string> {
    if summaries == [] then []
    else ChatModelIds(summaries[..|summaries| - 1])
         + (if IsChatModel(summaries[|summaries| - 1]) then [summaries[|summaries| - 1].modelId] else [])
  }

  /** An id is offered exactly when some listed chat model has it. */
  lemma {:induction false} ChatModelIdsMembers(summaries: seq<BedrockSummary>)
    ensures forall id :: id in ChatModelIds(summaries) <==>
      exists i :: 0 <= i < |summaries| && IsChatModel(summaries[i]) && summaries[i].modelId == id
  {
    if summaries != [] {
      var init := summaries[..|summaries| - 1];
      ChatModelIdsMembers(init);
      forall id ensures id in ChatModelIds(summaries) <==>
        exists i :: 0 <= i < |summaries| && IsChatModel(summaries[i]) && summaries[i].modelId == id
      {
        if exists i :: 0 <= i < |init| && IsChatModel(init[i]) && init[i].modelId == id {
          var i :| 0 <= i < |init| && IsChatModel(init[i]) && init[i].modelId == id;
          assert summaries[i] == init[i];
        }
        if exists i :: 0 <= i < |summaries| && IsChatModel(summaries[i]) && summaries[i].modelId == id {
          var i :| 0 <= i < |summaries| && IsChatModel(summaries[i]) && summaries[i].modelId == id;
          if i < |init| {
            assert init[i] == summaries[i];
          }
        }
      }
    }
  }

  /** The drop-down ids for AWS Bedrock: the chat models in listing order, or
      the single default when there are none or the listing failed. */
  method BedrockModels(response: BedrockResponse) returns (ids: seq<string>)
    ensures response.BedrockFailed? ==> ids == [DefaultBedrockModel]
    ensures response.BedrockListed? ==>
      ids == if ChatModelIds(response.summaries) == [] then [DefaultBedrockModel] else ChatModelIds(response.summaries)
    ensures ids != []
  {
    match response
    case BedrockFailed(_) =>
      return [DefaultBedrockModel];
    case BedrockListed(summaries) =>
      var chatModels: seq<string> := [];
      var i := 0;
      while i < |summaries|
        invariant 0 <= i <= |summaries|
        invariant chatModels == ChatModelIds(summaries[..i])
      {
        assert summaries[..i + 1][..i] == summaries[..i];
        if IsChatModel(summaries[i]) {
          chatModels := chatModels + [summaries[i].modelId];
        }
        i := i + 1;
      }
      assert summaries[..i] == summaries;
      if chatModels == [] {
        return [DefaultBedrockModel];
      }
      return chatModels;
  }
}
