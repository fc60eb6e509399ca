/**
 * The routing pipeline: modules are consulted in order, every decision is
 * recorded in a trace, the first accepting module that is not the fallback
 * answers alone, and otherwise only the fallback's output is used.
 */
module Service {
  import opened Text
  import opened Modules

  /** One entry of the routing trace (`module` is a keyword here, hence `moduleName`). */
  datatype TraceItem = TraceItem(moduleName: string, accepted: bool, output: string, score: real)

  /** The trace entry recorded for module `m`: its decision, its score, and its output if accepted. */
  function Evaluate(m: Module, req: InferenceRequest): (t: TraceItem)
    ensures t.moduleName == m.Name() && t.score == m.Score(req)
    ensures t.accepted <==> m.Triggered(req)
    ensures t.output == (if t.accepted then m.Run(req) else "")
  {
    var d := m.Decide(req);
    TraceItem(m.Name(), d.0, if d.0 then m.Run(req) else "", d.1)
  }

  /** The trace of consulting every module of `ms`, in order. */
  function TraceOf(ms: seq<Module>, req: InferenceRequest): (t: seq<TraceItem>)
    ensures |t| == |ms|
  {
    seq(|ms|, j requires 0 <= j < |ms| => Evaluate(ms[j], req))
  }

  /** Entry `j` of the trace carries module `j`'s name, score and keyword decision. */
  lemma TraceOfEntries(ms: seq<Module>, req: InferenceRequest)
    ensures forall j :: 0 <= j < |ms| ==>
      TraceOf(ms, req)[j].moduleName == ms[j].Name() && TraceOf(ms, req)[j].score == ms[j].Score(req)
      && (TraceOf(ms, req)[j].accepted <==> ms[j].Triggered(req))
  {
  }

  /** Consulting one more module adds its entry at the end of the trace. */
  lemma TraceOfSnoc(ms: seq<Module>, m: Module, req: InferenceRequest)
    ensures TraceOf(ms + [m], req) == TraceOf(ms, req) + [Evaluate(m, req)]
  {
    assert (ms + [m])[|ms|] == m;
  }

  /** Module `m` ends the routing: it accepts and is not the fallback. */
  predicate Routes(m: Module, req: InferenceRequest)
  {
    m.Decide(req).0 && m.Name() != "fallback"
  }

  /** Position of the first module that ends the routing, or `|ms|` when none does. */
  function FirstRouted(ms: seq<Module>, req: InferenceRequest): (k: nat)
    ensures k <= |ms|
    ensures forall j :: 0 <= j < k ==> !Routes(ms[j], req)
    ensures k < |ms| ==> Routes(ms[k], req)
  {
    if ms == [] then 0
    else if Routes(ms[0], req) then 0
    else 1 + FirstRouted(ms[1..], req)
  }

  /** `[t.output for t in trace if t.moduleName == "fallback"]`. */
  function FallbackOutputs(trace: seq<TraceItem>): (outs: seq<string>)
    ensures |outs| <= |trace|
  {
    if trace == [] then []
    else (if trace[0].moduleName == "fallback" then [trace[0].output] else [])
         + FallbackOutputs(trace[1..])
  }

  /** A string is a fallback output exactly when some trace entry named "fallback" carries it. */
  lemma {:induction false} FallbackOutputsMembers(trace: seq<TraceItem>)
    ensures forall x :: x in FallbackOutputs(trace) <==>
      exists k :: 0 <= k < |trace| && trace[k].moduleName == "fallback" && trace[k].output == x
  {
    if trace != [] {
      FallbackOutputsMembers(trace[1..]);
      forall x | x in FallbackOutputs(trace)
        ensures exists k :: 0 <= k < |trace| && trace[k].moduleName == "fallback" && trace[k].output == x
      {
        if !(trace[0].moduleName == "fallback" && trace[0].output == x) {
          assert x in FallbackOutputs(trace[1..]);
          var k :| 0 <= k < |trace[1..]| && trace[1..][k].moduleName == "fallback" && trace[1..][k].output == x;
          assert trace[k + 1] == trace[1..][k];
        }
      }
      forall x, k | 0 <= k < |trace| && trace[k].moduleName == "fallback" && trace[k].output == x
        ensures x in FallbackOutputs(trace)
      {
        if k > 0 {
          assert trace[1..][k - 1] == trace[k];
        }
      }
    }
  }

  /** `filter(None, outputs)`: drops the empty strings. */
  function NonEmpty(outs: seq<string>): (r: seq<string>)
    ensures forall k :: 0 <= k < |r| ==> r[k] != []
    ensures forall x :: x in outs && x != [] ==> x in r
  {
    if outs == [] then []
    else (if outs[0] == [] then [] else [outs[0]]) + NonEmpty(outs[1..])
  }

  /** The filter adds nothing: every output it keeps was among the inputs. */
  lemma {:induction false} NonEmptyKeepsOnly(outs: seq<string>)
    ensures |NonEmpty(outs)| <= |outs|
    ensures forall x :: x in NonEmpty(outs) ==> x in outs
  {
    if outs != [] {
      NonEmptyKeepsOnly(outs[1..]);
    }
  }

  /** The filter keeps the order: filtering a concatenation concatenates the filtered parts. */
  lemma {:induction false} NonEmptyAppend(a: seq<string>, b: seq<string>)
    ensures NonEmpty(a + b) == NonEmpty(a) + NonEmpty(b)
  {
    if a != [] {
      assert (a + b)[1..] == a[1..] + b;
      NonEmptyAppend(a[1..], b);
    } else {
      assert a + b == b;
    }
  }

  /** Outputs that are all non-empty pass through unchanged. */
  lemma {:induction false} NonEmptyKeepsAll(outs: seq<string>)
    requires forall k :: 0 <= k < |outs| ==> outs[k] != []
    ensures NonEmpty(outs) == outs
  {
    if outs != [] {
      NonEmptyKeepsAll(outs[1..]);
    }
  }

  class Pipeline {
    var modules: seq<Module>

    constructor (modules: seq<Module>)
      ensures this.modules == modules
    {
      this.modules := modules;
    }

    /** Routes one request; returns the reply and the trace of the modules consulted. */
    method Run(req: InferenceRequest) returns (reply: string, trace: seq<TraceItem>)
      ensures |trace| == if FirstRouted(modules, req) < |modules|
                         then FirstRouted(modules, req) + 1 else |modules|
      ensures trace == TraceOf(modules[..|trace|], req)
      ensures FirstRouted(modules, req) < |modules| ==>
                reply == modules[FirstRouted(modules, req)].Run(req)
      ensures FirstRouted(modules, req) == |modules| ==>
                reply == Join("\n", NonEmpty(FallbackOutputs(trace)))
    {
      trace := [];
      var outputs: seq<string> := [];
      var i := 0;
      while i < |modules|
        invariant 0 <= i <= FirstRouted(modules, req)
        invariant trace == TraceOf(modules[..i], req)
        invariant outputs == []
      {
        var m := modules[i];
        var d := m.Decide(req);
        var ok, s := d.0, d.1;
        var out := if ok then m.Run(req) else "";
        trace := trace + [TraceItem(m.Name(), ok, out, s)];
        assert modules[..i + 1] == modules[..i] + [m];
        if ok && m.Name() != "fallback" {
          outputs := outputs + [out];
          assert NonEmpty(outputs) == [out] by {
            assert outputs[1..] == [];
          }
          break;
        }
        i := i + 1;
      }
      if outputs == [] {
        outputs := FallbackOutputs(trace);
      }
      reply := Join("\n", NonEmpty(outputs));
    }
  }

  /** The process-wide pipeline, created on first use. */
  class PipelineRegistry {
    var pipeline: Pipeline?

    constructor ()
      ensures pipeline == null
    {
      pipeline := null;
    }

    method GetPipeline() returns (p: Pipeline)
      modifies this
      ensures pipeline == p
      ensures old(pipeline) != null ==> p == old(pipeline)
      ensures old(pipeline) == null ==> fresh(p) && p.modules == DefaultModules()
    {
      if pipeline == null {
        pipeline := new Pipeline(DefaultModules());
      }
      p := pipeline;
    }
  }

  /** With the default modules the trace always names the fallback exactly once, with its own text. */
  lemma DefaultFallbackOutputs(req: InferenceRequest)
    ensures FallbackOutputs(TraceOf(DefaultModules(), req)) == [FallbackReply]
  {
    var t := TraceOf(DefaultModules(), req);
    assert t[3] == Evaluate(Fallback, req);
    assert t[3..][1..] == [];
    assert FallbackOutputs(t[3..]) == [FallbackReply];
    assert t[2].moduleName == "action" && t[2..][1..] == t[3..];
    assert FallbackOutputs(t[2..]) == FallbackOutputs(t[3..]);
    assert t[1].moduleName == "lore" && t[1..][1..] == t[2..];
    assert FallbackOutputs(t[1..]) == FallbackOutputs(t[2..]);
    assert t[0].moduleName == "greeting";
    assert FallbackOutputs(t) == FallbackOutputs(t[1..]);
  }

  /** Module `m` ends the routing exactly when its keyword test holds; the fallback never does. */
  lemma RoutesIffTriggered(m: Module, req: InferenceRequest)
    ensures Routes(m, req) <==> m != Fallback && m.Triggered(req)
  {
  }

  /** With the default modules, routing is decided by the keyword tests in priority order. */
  lemma DefaultRouting(req: InferenceRequest)
    ensures FirstRouted(DefaultModules(), req) ==
      if Greeting.Triggered(req) then 0
      else if Lore.Triggered(req) then 1
      else if Action.Triggered(req) then 2
      else 4
  {
    var ms := DefaultModules();
    RoutesIffTriggered(Greeting, req);
    RoutesIffTriggered(Lore, req);
    RoutesIffTriggered(Action, req);
    RoutesIffTriggered(Fallback, req);
    assert [Fallback][1..] == [];
    assert FirstRouted([Fallback], req) == 1;
    assert [Action, Fallback][1..] == [Fallback];
    assert FirstRouted([Action, Fallback], req) == if Action.Triggered(req) then 0 else 2;
    assert [Lore, Action, Fallback][1..] == [Action, Fallback];
    assert FirstRouted([Lore, Action, Fallback], req) ==
      if Lore.Triggered(req) then 0 else 1 + FirstRouted([Action, Fallback], req);
    assert ms[1..] == [Lore, Action, Fallback];
  }

  /**
   * When no keyword module accepts, the reply is exactly the fallback text,
   * never joined with anything else.
   */
  lemma DefaultFallbackReply(req: InferenceRequest)
    requires !Greeting.Triggered(req) && !Lore.Triggered(req) && !Action.Triggered(req)
    ensures FirstRouted(DefaultModules(), req) == |DefaultModules()|
    ensures Join("\n", NonEmpty(FallbackOutputs(TraceOf(DefaultModules(), req)))) == FallbackReply
  {
    DefaultRouting(req);
    DefaultFallbackOutputs(req);
    assert NonEmpty([FallbackReply]) == [FallbackReply];
  }

  /**
   * Routing is first-match, not highest score: a message with an action
   * keyword and no earlier keyword goes to the action module (score 0.8)
   * although the fallback, which is never consulted, would score 1.0.
   */
  lemma FirstMatchNotHighestScore(req: InferenceRequest)
    requires !Greeting.Triggered(req) && !Lore.Triggered(req) && Action.Triggered(req)
    ensures FirstRouted(DefaultModules(), req) == 2
    ensures Action.Score(req) < Fallback.Score(req)
  {
    DefaultRouting(req);
  }

  lemma ExampleLowered()
    ensures Lower("Привет, хочу идти") == "привет, хочу идти"
  {
  }

  lemma ExampleMentionsGreeting()
    ensures Contains("привет, хочу идти", "привет")
  {
    ContainsInfix([], "привет", ", хочу идти");
    assert [] + "привет" + ", хочу идти" == "привет, хочу идти";
  }

  lemma ExampleMentionsAction()
    ensures Contains("привет, хочу идти", "идти")
  {
    ContainsInfix("привет, хочу ", "идти", []);
    assert "привет, хочу " + "идти" + [] == "привет, хочу идти";
  }

  /** "Привет, хочу идти": both a greeting and an action keyword; the greeting wins at once. */
  lemma GreetingBeatsAction()
    ensures var req := InferenceRequest("Привет, хочу идти");
      FirstRouted(DefaultModules(), req) == 0 && Action.Triggered(req)
  {
    var req := InferenceRequest("Привет, хочу идти");
    ExampleLowered();
    ExampleMentionsGreeting();
    ExampleMentionsAction();
    assert Contains(Lower(req.message), GreetingWords[0]);
    assert Contains(Lower(req.message), ActionWords[0]);
    DefaultRouting(req);
  }
}
