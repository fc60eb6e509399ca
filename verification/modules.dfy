/**
 * The intent-routing modules: the `Module` base class (a name, a score in
 * [0,1], a reply, and the threshold rule `decide`) and its four keyword
 * scorers. The class hierarchy is closed, so it becomes one datatype whose
 * constructors are the four subclasses.
 */
module Modules {
  import opened Text

  /** The request body; only `message` is read by the modules. */
  datatype InferenceRequest = InferenceRequest(message: string)

  const DefaultThreshold: real := 0.5

  const GreetingWords: seq<string> := ["привет", "здрав", "hello", "hi"]
  const LoreWords: seq<string> := ["мир", "локаци", "персонаж", "сеттинг"]
  const ActionWords: seq<string> := ["идти", "атак", "взять", "осмотреть", "open", "go"]

  const GreetingReply := "Принято. Вы в Сториграде. Кратко опишите, что хотите сделать в мире истории."
  const LoreReply := "Опишите локацию, время, цель. Я предложу три стартовых сцены."
  const ActionReply := "Действие принято. Сформирую ответ ведущего и последствия."
  const FallbackReply := "Опишите цель. Доступны: создание мира, выбор роли, действие."

  /** `any(w in text for w in words)`; the lore regex is the same test over its alternatives. */
  predicate MentionsAny(text: string, words: seq<string>)
  {
    exists k | 0 <= k < |words| :: Contains(text, words[k])
  }

  datatype Module = Greeting | Lore | Action | Fallback {

    /** The name each subclass passes to `Module.__init__`. */
    function Name(): string
    {
      match this
      case Greeting => "greeting"
      case Lore => "lore"
      case Action => "action"
      case Fallback => "fallback"
    }

    /** Whether the module's keyword test holds for the lower-cased message. */
    predicate Triggered(req: InferenceRequest)
    {
      var text := Lower(req.message);
      match this
      case Greeting => MentionsAny(text, GreetingWords)
      case Lore => MentionsAny(text, LoreWords)
      case Action => MentionsAny(text, ActionWords)
      case Fallback => true
    }

    /** Confidence that this module should handle the request; documented to lie in [0,1]. */
    function Score(req: InferenceRequest): (s: real)
      ensures 0.0 <= s <= 1.0
      ensures s == 0.0 || s == 0.8 || s == 1.0
      ensures s > 0.0 <==> Triggered(req)
      ensures (this.Greeting? || this.Lore?) ==> s == (if Triggered(req) then 1.0 else 0.0)
      ensures this.Action? ==> s == (if Triggered(req) then 0.8 else 0.0)
      ensures this.Fallback? ==> s == 1.0
    {
      var text := Lower(req.message);
      match this
      case Greeting => if MentionsAny(text, GreetingWords) then 1.0 else 0.0
      case Lore => if MentionsAny(text, LoreWords) then 1.0 else 0.0
      case Action => if MentionsAny(text, ActionWords) then 0.8 else 0.0
      case Fallback => 1.0
    }

    /** The module's contribution to the reply: a fixed text per module. */
    function Run(req: InferenceRequest): (out: string)
      ensures out != []
    {
      match this
      case Greeting => GreetingReply
      case Lore => LoreReply
      case Action => ActionReply
      case Fallback => FallbackReply
    }

    /** `decide`: whether the module accepts at threshold `thr`, and the score it saw. */
    function Decide(req: InferenceRequest, thr: real := DefaultThreshold): (d: (bool, real))
      ensures d.1 == Score(req)
      ensures d.0 <==> Score(req) >= thr
    {
      var s := Score(req);
      (s >= thr, s)
    }
  }

  /** At the default threshold a module accepts exactly when its keyword test holds. */
  lemma AcceptsIffTriggered(m: Module, req: InferenceRequest)
    ensures m.Decide(req).0 <==> m.Triggered(req)
  {
  }

  /** Every module replies with the same text whatever the request says. */
  lemma RunIgnoresRequest(m: Module, a: InferenceRequest, b: InferenceRequest)
    ensures m.Run(a) == m.Run(b)
  {
  }

  /** The fallback module accepts every request. */
  lemma FallbackAlwaysAccepts(req: InferenceRequest)
    ensures Fallback.Decide(req) == (true, 1.0)
  {
  }

  function DefaultModules(): (ms: seq<Module>)
    ensures |ms| == 4 && ms[|ms| - 1].Name() == "fallback"
    ensures forall i :: 0 <= i < |ms| - 1 ==> ms[i].Name() != "fallback"
    ensures forall i, j :: 0 <= i < j < |ms| ==> ms[i].Name() != ms[j].Name()
  {
    [Greeting, Lore, Action, Fallback]
  }
}
