/**
 * One step of the interactive story: the checks made before the storyteller
 * agent is called, the prompt variables and input text sent to it, the reply
 * taken from its response, and what is written back to the story on success.
 * The agent call itself is an input: the response it produced (or its failure).
 */
module Storyteller {
  import opened Wrappers
  import opened Text
  import opened JsonDoc
  import opened StoryCrud

  /** The process environment the step reads (None: the variable is not set). */
  datatype Env = Env(promptId: Option<string>, apiKey: Option<string>, project: Option<string>)

  /** The `ValueError`s raised before the agent is called. */
  datatype StepError = StoryNotFound | MissingPromptId | MissingApiKey | MissingProject
  {
    function Message(): string
    {
      match this
      case StoryNotFound => "История не найдена или нет доступа"
      case MissingPromptId => "Не задан yc_agent_prompt_id / YANDEX_CLOUD_AGENT_PROMPT_ID"
      case MissingApiKey => "Не задан YANDEX_CLOUD_API_KEY"
      case MissingProject => "Не задан YANDEX_CLOUD_PROJECT"
    }
  }

  /** The text returned instead of a story when the agent call fails. */
  const Sentinel: string := "Сейчас рассказчик недоступен, попробуйте ещё раз позже."

  const PreviousResponseKey: string := "yc_previous_response_id"

  /**
   * The agent's variables. The three description values are kept as the JSON
   * the config holds; their text rendering (`json.dumps`, `str`) is not modelled.
   */
  datatype Variables = Variables(
    npcDescription: Json,
    storyDescription: Json,
    user: string,
    playerDescription: Json,
    mode: string)

  /** The arguments of `responses.create`. */
  datatype ProviderRequest = ProviderRequest(
    promptId: Json,
    variables: Variables,
    input: string,
    previousResponseId: Option<Json>)

  /**
   * What the agent call produced: it raised, or it returned a response whose
   * `output_text`, `output[0].content[0].text` and `id` may each be missing.
   */
  datatype ProviderOutcome =
    | ProviderFailure
    | ProviderSuccess(outputText: Option<string>, nestedText: Option<string>, id: Option<string>)

  /** `cfg = deepcopy(config or {}); cfg[key] = value`. */
  function ConfigWith(config: Option<Config>, key: string, value: Json): (r: Config)
    ensures key in r && r[key] == value
    ensures forall k :: k != key ==> (k in r <==> config.Some? && k in config.value)
    ensures forall k :: k != key && k in r ==> config.Some? && r[k] == config.value[k]
  {
    (if config.Some? then config.value else map[])[key := value]
  }

  /**
   * `_set_story_config_value` on the story with this id: its config gets
   * `key -> value`, and the write refreshes `updated_at` (the column's `onupdate`).
   */
  method SetStoryConfigValue(db: StoryTable, storyId: int, key: string, value: Json, now: int)
    requires db.Valid()
    modifies db
    ensures db.Valid() && db.turns == old(db.turns)
    ensures db.stories == WithConfigValue(old(db.stories), storyId, key, value, now)
  {
    db.stories := WithConfigValue(db.stories, storyId, key, value, now);
  }

  /** The stories with the one of this id given `key -> value` in its config and `updated_at = now`. */
  function WithConfigValue(stories: seq<Story>, storyId: int, key: string, value: Json, now: int): (r: seq<Story>)
    ensures |r| == |stories|
    ensures forall i :: 0 <= i < |r| ==> r[i].id == stories[i].id
    ensures forall i :: 0 <= i < |r| ==>
      r[i] == if stories[i].id == storyId
        then stories[i].(config := Some(ConfigWith(stories[i].config, key, value)), updatedAt := now)
        else stories[i]
  {
    seq(|stories|, i requires 0 <= i < |stories| =>
      if stories[i].id == storyId
      then stories[i].(config := Some(ConfigWith(stories[i].config, key, value)), updatedAt := now)
      else stories[i])
  }

  /**
   * The player's name in `"Name — description"`: the stripped text before the
   * first em-dash; without an em-dash, before the first hyphen; otherwise all of it.
   */
  function ParseName(text: string): (r: string)
    ensures IsStripped(r)
    ensures '—' !in r
    ensures '—' !in text ==> '-' !in r
    ensures '—' in text ==> r == Strip(BeforeFirst(text, '—'))
    ensures '—' !in text && '-' in text ==> r == Strip(BeforeFirst(text, '-'))
    ensures '—' !in text && '-' !in text ==> r == Strip(text)
  {
    if '—' in text then
      StripKeepsOut(BeforeFirst(text, '—'), '—');
      Strip(BeforeFirst(text, '—'))
    else if '-' in text then
      StripKeepsOut(BeforeFirst(text, '-'), '—');
      StripKeepsOut(BeforeFirst(text, '-'), '-');
      Strip(BeforeFirst(text, '-'))
    else
      StripKeepsOut(text, '—');
      StripKeepsOut(text, '-');
      Strip(text)
  }

  /** The em-dash wins even over a hyphen that comes earlier (inside the name). */
  lemma ParseNameEmDash(name: string, description: string)
    requires IsStripped(name) && '—' !in name
    ensures ParseName(name + " — " + description) == name
  {
    var text := name + " — " + description;
    assert text == (name + " ") + ['—'] + (" " + description);
    BeforeFirstAt(name + " ", '—', " " + description);
    StripKeeps(name, " ");
  }

  /** Without any em-dash, the name ends at the first hyphen. */
  lemma ParseNameHyphen(name: string, description: string)
    requires IsStripped(name) && '—' !in name && '-' !in name && '—' !in description
    ensures ParseName(name + " - " + description) == name
  {
    var text := name + " - " + description;
    assert text == (name + " ") + ['-'] + (" " + description);
    assert '—' !in text;
    BeforeFirstAt(name + " ", '-', " " + description);
    StripKeeps(name, " ");
  }

  /**
   * The name taken from `player_description`: its `"user"` entry when it is an
   * object, the value itself when it is a string; anything else gives "".
   */
  function ResolveUserName(playerDescription: Json): (r: string)
    ensures playerDescription.JString? ==> r == ParseName(playerDescription.s)
    ensures playerDescription.JObject? && "user" in playerDescription.fields
            && playerDescription.fields["user"].JString?
            ==> r == ParseName(playerDescription.fields["user"].s)
    ensures playerDescription.JObject? && "user" !in playerDescription.fields ==> r == ""
    ensures playerDescription.JObject? && "user" in playerDescription.fields
            && !playerDescription.fields["user"].JString?
            ==> r == ""
    ensures !playerDescription.JString? && !playerDescription.JObject? ==> r == ""
    ensures IsStripped(r) && '—' !in r
  {
    var userField := match playerDescription
      case JObject(fields) => Get(fields, "user", JString(""))
      case JString(_) => playerDescription
      case _ => JString("");
    match userField
    case JString(s) => ParseName(s)
    case _ => ""
  }

  const ModeHead: string := "MODE: "
  const TurnHead: string := "\nUSER_TURN:"

  /**
   * `f"MODE: {mode}\nUSER_TURN: {user_input}".strip()`: the mode line is kept
   * whole, and only whitespace at the end of the player's text is dropped.
   */
  function BuildInput(mode: string, userInput: string): (r: string)
    ensures ModeHead + mode + TurnHead <= r
    ensures r <= ModeHead + mode + TurnHead + " " + userInput
    ensures var full := ModeHead + mode + TurnHead + " " + userInput;
      forall k :: |r| <= k < |full| ==> IsSpace(full[k])
    ensures IsStripped(r)
  {
    var head := ModeHead + mode + TurnHead;
    var tail := " " + userInput;
    assert head + " " + userInput == head + tail;
    assert (head + tail)[0] == ModeHead[0] == 'M';
    assert head[|head| - 1] == TurnHead[|TurnHead| - 1] == ':';
    assert TrimStart(head + tail) == head + tail;
    TrimEndAfter(head, tail);
    Strip(head + tail)
  }

  /** A player's text without surrounding whitespace is sent exactly as written. */
  lemma BuildInputKeepsTurn(mode: string, userInput: string)
    requires userInput != [] && IsStripped(userInput)
    ensures BuildInput(mode, userInput) == "MODE: " + mode + "\nUSER_TURN: " + userInput
  {
    var tail := " " + userInput;
    assert tail[|tail| - 1] == userInput[|userInput| - 1];
    assert TrimEnd(tail) == tail;
    assert ModeHead + mode + TurnHead + " " + userInput == (ModeHead + mode + TurnHead) + tail;
  }

  /** Whitespace after the player's text is dropped; the text itself is sent as written. */
  lemma BuildInputTrailingSpace(mode: string, userInput: string, pad: string)
    requires userInput != [] && IsStripped(userInput)
    requires forall k :: 0 <= k < |pad| ==> IsSpace(pad[k])
    ensures BuildInput(mode, userInput + pad) == "MODE: " + mode + "\nUSER_TURN: " + userInput
  {
    var sent := ModeHead + mode + TurnHead + " " + userInput;
    assert ModeHead + mode + TurnHead + " " + (userInput + pad) == sent + pad;
    assert sent[|sent| - 1] == userInput[|userInput| - 1];
    StrippedOfPadded(sent, pad, BuildInput(mode, userInput + pad));
  }

  /** The only stripped prefix of `s + pad` that leaves nothing but whitespace is `s`. */
  lemma StrippedOfPadded(s: string, pad: string, r: string)
    requires s != [] && !IsSpace(s[|s| - 1])
    requires forall k :: 0 <= k < |pad| ==> IsSpace(pad[k])
    requires r <= s + pad && IsStripped(r)
    requires forall k :: |r| <= k < |s + pad| ==> IsSpace((s + pad)[k])
    ensures r == s
  {
    var full := s + pad;
    assert r == full[..|s|] == s;
  }

  /** A blank turn leaves the input ending at the `USER_TURN:` label. */
  lemma BuildInputBlankTurn(mode: string, userInput: string)
    requires forall k :: 0 <= k < |userInput| ==> IsSpace(userInput[k])
    ensures BuildInput(mode, userInput) == "MODE: " + mode + "\nUSER_TURN:"
  {
    var tail := " " + userInput;
    TrimEndAllSpace(tail);
  }

  /**
   * The story text of a response: a non-empty `output_text`, else the nested
   * `output[0].content[0].text`, else "" when that is missing too.
   */
  function ExtractReply(outputText: Option<string>, nestedText: Option<string>): (r: string)
    ensures outputText.Some? && outputText.value != "" ==> r == outputText.value
    ensures (outputText.None? || outputText.value == "") && nestedText.Some? ==> r == nestedText.value
    ensures (outputText.None? || outputText.value == "") && nestedText.None? ==> r == ""
  {
    if outputText.Some? && outputText.value != "" then outputText.value
    else if nestedText.Some? then nestedText.value
    else ""
  }

  /** The request for a story whose configuration is `config`. */
  function BuildRequest(config: Config, promptId: Json, userInput: string, mode: string): (req: ProviderRequest)
    ensures req.promptId == promptId
    ensures req.input == BuildInput(mode, userInput)
    ensures "NPC_description" in config ==> req.variables.npcDescription == config["NPC_description"]
    ensures "NPC_description" !in config ==> req.variables.npcDescription == JArray([])
    ensures "story_description" in config ==> req.variables.storyDescription == config["story_description"]
    ensures "story_description" !in config ==> req.variables.storyDescription == JString("")
    ensures "player_description" in config ==> req.variables.playerDescription == config["player_description"]
    ensures "player_description" !in config ==> req.variables.playerDescription == JObject(map[])
    ensures req.variables.user == ResolveUserName(req.variables.playerDescription)
    ensures req.variables.mode == mode
    ensures req.previousResponseId.Some? <==> Truthy(Get(config, PreviousResponseKey, JNull))
    ensures req.previousResponseId.Some? ==> req.previousResponseId.value == config[PreviousResponseKey]
  {
    var playerDescription := Get(config, "player_description", JObject(map[]));
    var variables := Variables(
      Get(config, "NPC_description", JArray([])),
      Get(config, "story_description", JString("")),
      ResolveUserName(playerDescription),
      playerDescription,
      mode);
    var previous := Get(config, PreviousResponseKey, JNull);
    ProviderRequest(promptId, variables, BuildInput(mode, userInput),
      if Truthy(previous) then Some(previous) else None)
  }

  /** The prompt id: the config's value when truthy, otherwise the environment's. */
  function PromptId(config: Config, env: Env): (id: Json)
    ensures Truthy(Get(config, "yc_agent_prompt_id", JNull)) ==> id == config["yc_agent_prompt_id"]
    ensures !Truthy(Get(config, "yc_agent_prompt_id", JNull)) ==>
      (Truthy(id) <==> IsSet(env.promptId))
    ensures !Truthy(Get(config, "yc_agent_prompt_id", JNull)) && env.promptId.Some? ==>
      id == JString(env.promptId.value)
    ensures !Truthy(Get(config, "yc_agent_prompt_id", JNull)) && env.promptId.None? ==> id == JNull
  {
    var fromConfig := Get(config, "yc_agent_prompt_id", JNull);
    if Truthy(fromConfig) then fromConfig
    else match env.promptId
      case Some(p) => JString(p)
      case None => JNull
  }

  /** The story's configuration as the step reads it (`story.config or {}`). */
  function EffectiveConfig(story: Story): (c: Config)
    ensures story.config.Some? ==> c == story.config.value
    ensures story.config.None? ==> c == map[]
  {
    if story.config.Some? then story.config.value else map[]
  }

  /**
   * `generate_story_step`. Returns the error raised by a failed check, or the
   * text returned to the player, together with the request sent to the agent
   * (None when a check failed first). `outcome` is what the agent call produced.
   */
  method GenerateStoryStep(
    db: StoryTable, env: Env, storyId: int, userId: int, userInput: string,
    outcome: ProviderOutcome, now: int, mode: string := "dialogue")
    returns (r: Result<string, StepError>, sent: Option<ProviderRequest>)
    requires db.Valid()
    modifies db
    ensures db.Valid()
    // the checks, in order, each before anything is sent or written
    ensures old(db.GetStory(storyId, userId)).None? ==>
      r == Err(StoryNotFound) && sent.None? && unchanged(db)
    ensures r.Err? ==> sent.None? && unchanged(db)
    ensures old(db.GetStory(storyId, userId)).Some? ==>
      var config := EffectiveConfig(old(db.GetStory(storyId, userId)).value);
      && (!Truthy(PromptId(config, env)) ==> r == Err(MissingPromptId))
      && (Truthy(PromptId(config, env)) && !IsSet(env.apiKey) ==> r == Err(MissingApiKey))
      && (Truthy(PromptId(config, env)) && IsSet(env.apiKey) && !IsSet(env.project) ==> r == Err(MissingProject))
      && (Truthy(PromptId(config, env)) && IsSet(env.apiKey) && IsSet(env.project) ==>
            sent == Some(BuildRequest(config, PromptId(config, env), userInput, mode)))
    // a failed call returns the sentinel and writes nothing
    ensures sent.Some? && outcome.ProviderFailure? ==> r == Ok(Sentinel) && unchanged(db)
    // a successful call appends exactly one turn and remembers the response id
    ensures sent.Some? && outcome.ProviderSuccess? ==>
      var reply := ExtractReply(outcome.outputText, outcome.nestedText);
      var touched := Touch(old(db.stories), storyId, now);
      && r == Ok(reply)
      && db.turns == old(db.turns) + [TurnRow(|old(db.turns)| + 1, storyId,
                                              |TurnsOf(old(db.turns), storyId)| + 1, userInput, reply)]
      && db.stories == if IsSet(outcome.id)
                       then WithConfigValue(touched, storyId, PreviousResponseKey, JString(outcome.id.value), now)
                       else touched
  {
    var story := db.GetStory(storyId, userId);
    if story.None? {
      return Err(StoryNotFound), None;
    }
    var config := EffectiveConfig(story.value);
    var promptId := PromptId(config, env);
    if !Truthy(promptId) {
      return Err(MissingPromptId), None;
    }
    if !IsSet(env.apiKey) {
      return Err(MissingApiKey), None;
    }
    if !IsSet(env.project) {
      return Err(MissingProject), None;
    }
    var request := BuildRequest(config, promptId, userInput, mode);
    sent := Some(request);
    if outcome.ProviderFailure? {
      return Ok(Sentinel), sent;
    }
    var storyText := ExtractReply(outcome.outputText, outcome.nestedText);
    var _ := db.AddTurn(storyId, userInput, storyText, now);
    if IsSet(outcome.id) {
      SetStoryConfigValue(db, storyId, PreviousResponseKey, JString(outcome.id.value), now);
    }
    r := Ok(storyText);
  }
}
