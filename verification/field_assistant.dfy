/**
 * The prompt sent to the language model to draft one field of a story's
 * configuration: the field type is normalised, a template is chosen and
 * filled in with `str.format`, and the story's configuration is appended to
 * the system prompt. The completion call itself is not part of this model.
 */
module FieldAssistant {
  import opened Wrappers
  import opened Text

  /** Text without braces: `str.format` copies it unchanged. */
  type Plain = s: string | '{' !in s && '}' !in s

  function Concat(parts: seq<Plain>): (r: string)
    ensures '{' !in r && '}' !in r
  {
    if parts == [] then [] else parts[0] + Concat(parts[1..])
  }

  // ---------- str.format ----------

  /** The only replacement field the templates use. */
  const UserInputField: string := "{user_input}"

  function Prepend(prefix: string, o: Option<string>): Option<string>
  {
    match o
    case None => None
    case Some(s) => Some(prefix + s)
  }

  /**
   * `template.format(user_input=arg)`: `{{` and `}}` stand for single braces,
   * `{user_input}` is replaced by `arg`, and any other use of a brace fails
   * (None), as an unknown field or a single `}` raises in Python.
   */
  function Format(template: string, arg: string): (r: Option<string>)
    ensures '{' !in template && '}' !in template ==> r == Some(template)
    decreases |template|
  {
    if template == [] then Some([])
    else if template[0] == '{' then
      if |template| >= 2 && template[1] == '{' then Prepend("{", Format(template[2..], arg))
      else if UserInputField <= template then Prepend(arg, Format(template[|UserInputField|..], arg))
      else None
    else if template[0] == '}' then
      if |template| >= 2 && template[1] == '}' then Prepend("}", Format(template[2..], arg))
      else None
    else
      assert [template[0]] + template[1..] == template;
      Prepend([template[0]], Format(template[1..], arg))
  }

  lemma PrependTwice(a: string, b: string, o: Option<string>)
    ensures Prepend(a, Prepend(b, o)) == Prepend(a + b, o)
  {
    if o.Some? {
      assert a + (b + o.value) == (a + b) + o.value;
    }
  }

  /** Text without braces is copied verbatim. */
  lemma {:induction false} FormatPlain(p: string, rest: string, arg: string)
    requires '{' !in p && '}' !in p
    ensures Format(p + rest, arg) == Prepend(p, Format(rest, arg))
  {
    if p == [] {
      assert p + rest == rest;
      if Format(rest, arg).Some? {
        assert p + Format(rest, arg).value == Format(rest, arg).value;
      }
    } else {
      var s := p + rest;
      assert s[0] == p[0];
      assert s[1..] == p[1..] + rest;
      FormatPlain(p[1..], rest, arg);
      PrependTwice([p[0]], p[1..], Format(rest, arg));
      assert [p[0]] + p[1..] == p;
    }
  }

  /** The replacement field is replaced by the argument, whatever braces it holds. */
  lemma FormatField(rest: string, arg: string)
    ensures Format(UserInputField + rest, arg) == Prepend(arg, Format(rest, arg))
  {
    var s := UserInputField + rest;
    assert s[0] == '{' && s[1] == 'u';
    assert UserInputField <= s;
    assert s[|UserInputField|..] == rest;
  }

  /** `{{w}}`: how a template writes a marker that must reach the model as `{w}`. */
  function Escaped(w: Plain): string
  {
    "{{" + w + "}}"
  }

  /** `{w}`: a marker as the model reads it. */
  function Marker(w: Plain): string
  {
    "{" + w + "}"
  }

  /** A doubled-brace marker `{{w}}` comes out as `{w}`. */
  lemma FormatEscaped(w: Plain, rest: string, arg: string)
    ensures Format(Escaped(w) + rest, arg) == Prepend(Marker(w), Format(rest, arg))
  {
    var s := Escaped(w) + rest;
    assert s[0] == '{' && s[1] == '{';
    assert s[2..] == w + ("}}" + rest);
    FormatPlain(w, "}}" + rest, arg);
    var t := "}}" + rest;
    assert t[0] == '}' && t[1] == '}' && t[2..] == rest;
    PrependTwice(w, "}", Format(rest, arg));
    PrependTwice("{", w + "}", Format(rest, arg));
    assert "{" + (w + "}") == Marker(w);
  }

  /** Brace-free text formats to itself. */
  lemma FormatPlainAll(p: Plain, arg: string)
    ensures Format(p, arg) == Some(p)
  {
    FormatPlain(p, [], arg);
    assert p + [] == p;
  }

  /** Brace-free text followed by an escaped marker. */
  lemma FormatSegment(p: Plain, w: Plain, rest: string, arg: string)
    ensures Format(p + Escaped(w) + rest, arg) == Prepend(p + Marker(w), Format(rest, arg))
  {
    assert p + Escaped(w) + rest == p + (Escaped(w) + rest);
    FormatPlain(p, Escaped(w) + rest, arg);
    FormatEscaped(w, rest, arg);
    PrependTwice(p, Marker(w), Format(rest, arg));
  }

  // ---------- templates ----------

  // The template texts, in pieces short enough to be checked brace-free one by one.
  const InstructionStart0: Plain := " Учитывай общую конфигурацию"
  const InstructionStart1: Plain := " истории, которая передана в"
  const InstructionStart2: Plain := " системном сообщении. Если в тексте"
  const InstructionStart3: Plain := " нужно упомянуть героя игрока,"
  const InstructionStart4: Plain := " всегда используй маркер "

  const InstructionMiddle0: Plain := " вместо имени. Если нужно упомянуть"
  const InstructionMiddle1: Plain := " любого NPC, используй маркер вида "

  const InstructionEnd0: Plain := " в двойных фигурных скобках."

  const DescriptionLead0: Plain := "Сделай связное описание истории"
  const DescriptionLead1: Plain := " объёмом не более 15 предложений."
  const DescriptionLead2: Plain := " Используй следующую информацию"
  const DescriptionLead3: Plain := " пользователя как черновик,"
  const DescriptionLead4: Plain := " структурируй и уточни её, но не"
  const DescriptionLead5: Plain := " меняй суть и не добавляй новые"
  const DescriptionLead6: Plain := " факты: "

  const PlayerLead0: Plain := "Сделай описание персонажа игрока"
  const PlayerLead1: Plain := " объёмом не более 5 предложений."
  const PlayerLead2: Plain := " Пиши в третьем лице. Всегда"
  const PlayerLead3: Plain := " начинай описание текста с имени"
  const PlayerLead4: Plain := " персонажа.  Используй следующую"
  const PlayerLead5: Plain := " информацию пользователя: "

  const NpcLead0: Plain := "Сделай описание NPC объёмом не"
  const NpcLead1: Plain := " более 5 предложений. Пиши в"
  const NpcLead2: Plain := " третьем лице. NPC должен быть"
  const NpcLead3: Plain := " индивидуальным, но не добавляй"
  const NpcLead4: Plain := " новых фактов. Информация"
  const NpcLead5: Plain := " пользователя: "

  const StartLead0: Plain := "Сделай стартовую фразу истории"
  const StartLead1: Plain := " объёмом не более 3 предложений."
  const StartLead2: Plain := " Это должна быть начальная сцена"
  const StartLead3: Plain := " или реплика, которая плавно вводит"
  const StartLead4: Plain := " игрока в ситуацию. Используй"
  const StartLead5: Plain := " следующую информацию пользователя: "

  const InstructionStart: seq<Plain> := [InstructionStart0, InstructionStart1, InstructionStart2, InstructionStart3, InstructionStart4]
  const InstructionMiddle: seq<Plain> := [InstructionMiddle0, InstructionMiddle1]
  const InstructionEnd: seq<Plain> := [InstructionEnd0]

  const PlayerMarker: Plain := "user"
  const NpcMarker: Plain := "Имя_NPC"

  /** The instruction every template ends with, with its markers written `{{user}}` and `{{Имя_NPC}}`. */
  function PlaceholderInstruction(): string
  {
    Concat(InstructionStart) + Escaped(PlayerMarker) + Concat(InstructionMiddle)
      + Escaped(NpcMarker) + Concat(InstructionEnd)
  }

  /** The same instruction as the model reads it: the markers are `{user}` and `{Имя_NPC}`. */
  function RenderedInstruction(): string
  {
    Concat(InstructionStart) + Marker(PlayerMarker) + Concat(InstructionMiddle)
      + Marker(NpcMarker) + Concat(InstructionEnd)
  }

  /** The four prompt templates. */
  datatype TemplateKind = Description | Player | Npc | Start
  {
    /** The key of the template in the template table. */
    function Key(): string
    {
      match this
      case Description => "description"
      case Player => "player"
      case Npc => "npc"
      case Start => "start"
    }

    /** The template's text before the `{user_input}` field. */
    function Lead(): seq<Plain>
    {
      match this
      case Description => [DescriptionLead0, DescriptionLead1, DescriptionLead2, DescriptionLead3, DescriptionLead4, DescriptionLead5, DescriptionLead6]
      case Player => [PlayerLead0, PlayerLead1, PlayerLead2, PlayerLead3, PlayerLead4, PlayerLead5]
      case Npc => [NpcLead0, NpcLead1, NpcLead2, NpcLead3, NpcLead4, NpcLead5]
      case Start => [StartLead0, StartLead1, StartLead2, StartLead3, StartLead4, StartLead5]
    }

    function Template(): string
    {
      Concat(Lead()) + UserInputField + PlaceholderInstruction()
    }
  }

  /** Formatting text with two doubled-brace markers collapses each of them. */
  lemma TwoMarkersRender(a: Plain, user: Plain, b: Plain, npc: Plain, c: Plain, arg: string)
    ensures Format(a + Escaped(user) + b + Escaped(npc) + c, arg)
         == Some(a + Marker(user) + b + Marker(npc) + c)
  {
    var rest := b + Escaped(npc) + c;
    var renderedRest := b + Marker(npc) + c;
    FormatSegment(b, npc, c, arg);
    FormatPlainAll(c, arg);
    assert Format(rest, arg) == Some(renderedRest);
    FormatSegment(a, user, rest, arg);
    assert a + Escaped(user) + b + Escaped(npc) + c == a + Escaped(user) + rest;
    assert (a + Marker(user)) + renderedRest == a + Marker(user) + b + Marker(npc) + c;
  }

  /** Formatting the instruction collapses each doubled brace. */
  lemma InstructionRenders(arg: string)
    ensures Format(PlaceholderInstruction(), arg) == Some(RenderedInstruction())
  {
    TwoMarkersRender(Concat(InstructionStart), PlayerMarker, Concat(InstructionMiddle), NpcMarker,
                     Concat(InstructionEnd), arg);
  }

  /** Brace-free text, the field, then text that formats on its own. */
  lemma FieldBetween(lead: Plain, rest: string, rendered: string, arg: string)
    requires Format(rest, arg) == Some(rendered)
    ensures Format(lead + UserInputField + rest, arg) == Some(lead + arg + rendered)
  {
    FormatField(rest, arg);
    FormatPlain(lead, UserInputField + rest, arg);
    assert lead + UserInputField + rest == lead + (UserInputField + rest);
    assert lead + arg + rendered == lead + (arg + rendered);
  }

  /**
   * Every template formats without error: its lead, then the argument as
   * given (braces in it are not interpreted), then the rendered instruction.
   */
  lemma TemplateRenders(kind: TemplateKind, arg: string)
    ensures Format(kind.Template(), arg) == Some(Concat(kind.Lead()) + arg + RenderedInstruction())
  {
    InstructionRenders(arg);
    FieldBetween(Concat(kind.Lead()), PlaceholderInstruction(), RenderedInstruction(), arg);
  }

  /** No two opening braces stand side by side. */
  predicate NoDoubledOpen(s: string)
  {
    forall i :: 0 <= i < |s| - 1 ==> !(s[i] == '{' && s[i + 1] == '{')
  }

  lemma NoDoubledOpenJoin(a: string, b: string)
    requires NoDoubledOpen(a) && NoDoubledOpen(b)
    requires a == [] || a[|a| - 1] != '{'
    ensures NoDoubledOpen(a + b)
  {
    var s := a + b;
    forall i | 0 <= i < |s| - 1 ensures !(s[i] == '{' && s[i + 1] == '{') {
      if i + 1 < |a| {
        assert s[i] == a[i] && s[i + 1] == a[i + 1];
      } else if i + 1 == |a| {
        assert s[i] == a[i];
      } else {
        assert s[i] == b[i - |a|] && s[i + 1] == b[i + 1 - |a|];
      }
    }
  }

  /** A one-brace marker `{w}` never holds a doubled opening brace. */
  lemma MarkerNoDoubledOpen(w: Plain)
    ensures NoDoubledOpen(Marker(w))
  {
    var m := Marker(w);
    forall i | 0 <= i < |m| - 1 ensures !(m[i] == '{' && m[i + 1] == '{') {
      if i > 0 {
        assert m[i] == w[i - 1];
      } else {
        assert m[1] == if w == [] then '}' else w[0];
      }
    }
  }

  /** Text with two one-brace markers between brace-free pieces has no `{{`. */
  lemma {:induction false} TwoMarkersSingleBraces(a: Plain, user: Plain, b: Plain, npc: Plain, c: Plain)
    ensures NoDoubledOpen(a + Marker(user) + b + Marker(npc) + c)
    ensures Contains(a + Marker(user) + b + Marker(npc) + c, Marker(user))
  {
    var m1, m2 := Marker(user), Marker(npc);
    MarkerNoDoubledOpen(user);
    MarkerNoDoubledOpen(npc);
    assert a == [] || a[|a| - 1] in a;
    NoDoubledOpenJoin(a, m1);
    assert (a + m1)[|a + m1| - 1] == '}';
    NoDoubledOpenJoin(a + m1, b);
    var ab := a + m1 + b;
    assert ab[|ab| - 1] != '{' by {
      if b != [] {
        assert ab[|ab| - 1] == b[|b| - 1];
        assert b[|b| - 1] in b;
      } else {
        assert ab == a + m1;
      }
    }
    NoDoubledOpenJoin(ab, m2);
    assert (ab + m2)[|ab + m2| - 1] == '}';
    NoDoubledOpenJoin(ab + m2, c);
    assert ab + m2 + c == a + Marker(user) + b + Marker(npc) + c;
    ContainsInfix(a, m1, b + m2 + c);
    assert a + m1 + (b + m2 + c) == ab + m2 + c;
  }

  /** The rendered instruction names the markers with single braces: `{user}`, and no `{{` anywhere. */
  lemma RenderedInstructionSingleBraces()
    ensures NoDoubledOpen(RenderedInstruction())
    ensures Contains(RenderedInstruction(), "{user}")
  {
    var a, b, c := Concat(InstructionStart), Concat(InstructionMiddle), Concat(InstructionEnd);
    TwoMarkersSingleBraces(a, PlayerMarker, b, NpcMarker, c);
    assert Marker(PlayerMarker) == "{user}";
  }

  // ---------- the request ----------

  /** Field names accepted from clients, and the template each one uses. */
  const FieldMap: map<string, string> := map[
    "story_description" := "description",
    "player_description" := "player",
    "npc_description" := "npc",
    "start_phrase" := "start"]

  /** `field_map.get(field_type, field_type)`. */
  function InternalFieldType(fieldType: string): (r: string)
    ensures fieldType == "story_description" ==> r == "description"
    ensures fieldType == "player_description" ==> r == "player"
    ensures fieldType == "npc_description" ==> r == "npc"
    ensures fieldType == "start_phrase" ==> r == "start"
    ensures fieldType !in FieldMap ==> r == fieldType
  {
    if fieldType in FieldMap then FieldMap[fieldType] else fieldType
  }

  /** `prompt_templates.get(internal, prompt_templates["description"])`. */
  function TemplateFor(internal: string): (k: TemplateKind)
    ensures internal in {"description", "player", "npc", "start"} ==> k.Key() == internal
    ensures internal !in {"description", "player", "npc", "start"} ==> k == Description
  {
    if internal == "player" then Player
    else if internal == "npc" then Npc
    else if internal == "start" then Start
    else Description
  }

  const SystemPrompt: string :=
    "\n" +
    "Ты — помощник по написанию интерактивных историй. Твоя задача — по краткой заявке пользователя писать законченные тексты для отдельных полей конфигурации истории (описание истории, герой, NPC, стартовая фраза).\n" +
    "Ты всегда учитываешь текущую конфигурацию истории, которая передана в системных сообщениях в формате JSON.\n" +
    "Всегда строго соблюдай формат и ограничения по длине, указанные в запросе.\n" +
    "Пиши по-русски, литературным, но понятным языком. Не используй списки и не добавляй пояснений от себя.\n" +
    "Не используй много творческих оборотов. Пиши так, будто продолжаешь идею пользователя.\n" +
    "Если пользователь использует какую-то существующую вселенную, уточняй информацию об этой вселенной в интернете.\n"

  const ConfigHeader: string := "\n\nТекущая конфигурация истории (JSON):\n"

  /**
   * The text of `story_config`: its indented JSON, or its `str` form when
   * it cannot be serialised. Producing either text is not modelled.
   */
  datatype ConfigRendering = Serialised(json: string) | Unserialisable(strForm: string)

  /** The text appended to the system prompt: nothing without a configuration. */
  function ConfigText(config: Option<ConfigRendering>): (r: string)
    ensures r == [] <==> config.None?
    ensures config.Some? && config.value.Serialised? ==> r == ConfigHeader + config.value.json
    ensures config.Some? && config.value.Unserialisable? ==> r == ConfigHeader + config.value.strForm
  {
    match config
    case None => ""
    case Some(Serialised(json)) => ConfigHeader + json
    case Some(Unserialisable(strForm)) => ConfigHeader + strForm
  }

  datatype ChatMessage = ChatMessage(role: string, content: string)

  /**
   * The messages of `generate_field_value`: the system prompt with the
   * configuration, then the chosen template filled in with the stripped request.
   */
  function BuildMessages(userPrompt: string, fieldType: string := "description",
                         config: Option<ConfigRendering> := None)
    : (msgs: seq<ChatMessage>)
    ensures |msgs| == 2
    ensures msgs[0] == ChatMessage("system", SystemPrompt + ConfigText(config))
    ensures msgs[1] == ChatMessage("user",
      Concat(TemplateFor(InternalFieldType(fieldType)).Lead()) + Strip(userPrompt) + RenderedInstruction())
  {
    var kind := TemplateFor(InternalFieldType(fieldType));
    TemplateRenders(kind, Strip(userPrompt));
    var userMessage := Format(kind.Template(), Strip(userPrompt)).value;
    [ChatMessage("system", SystemPrompt + ConfigText(config)), ChatMessage("user", userMessage)]
  }
}
