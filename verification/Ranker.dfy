/** The model ranker's single scoring slot (recommendation_api/app/model_ranker.py), as a machine over
    requests, thread completions, timeouts and cancellations, followed by the rerank. */
module Ranker {
  import opened Options
  import opened Ranking

  datatype Mode = Heuristic | Shadow | Ml

  datatype Predictor = Predictor(version: Version, requiresContext: bool)

  datatype Reading = NotFinite | Finite(value: real)

  /** What `predict_scores` answers. */
  datatype Prediction = Raises | Scores(readings: seq<Reading>)

  datatype ModelVersion = HeuristicV1 | ModelOnly(version: Version) | WithShadow(version: Version)

  datatype Decision = Decision(items: seq<Item>, model: ModelVersion, fallbackUsed: bool)

  datatype Config = Config(mode: Mode, predictor: Option<Predictor>)
  {
    predicate Models()
    {
      mode != Heuristic && predictor.Some?
    }
  }

  /** The candidates of one request and the number of context records loaded for it, if any. */
  datatype Request = Request(items: seq<Item>, records: Option<nat>)

  predicate Valid(readings: seq<Reading>, size: nat)
  {
    |readings| == size && forall i | 0 <= i < size :: readings[i].Finite? && 0.0 <= readings[i].value <= 1.0
  }

  function Fallback(request: Request): Decision
  {
    Decision(request.items, HeuristicV1, true)
  }

  function Updated(mode: Mode, version: Version, item: Item, score: real): Item
  {
    item.(score := if mode == Ml then score else item.score,
          reason := if mode == Ml then FromModel(version) else item.reason,
          features := item.features.(mlScore := Some(score)))
  }

  /** `RankerRuntime.score`, run on the scoring thread. */
  function Score(cfg: Config, request: Request, prediction: Prediction): Decision
  {
    if cfg.mode == Heuristic then Decision(request.items, HeuristicV1, false)
    else if cfg.predictor.None? then Fallback(request)
    else if cfg.predictor.value.requiresContext && request.records.None? then Fallback(request)
    else if request.records.Some? && request.records.value != |request.items| then Fallback(request)
    else if prediction.Raises? || !Valid(prediction.readings, |request.items|) then Fallback(request)
    else
      var version := cfg.predictor.value.version;
      var updated := seq(|request.items|, i requires 0 <= i < |request.items| =>
                           Updated(cfg.mode, version, request.items[i], prediction.readings[i].value));
      Decision(updated, if cfg.mode == Ml then ModelOnly(version) else WithShadow(version), false)
  }

  // ---------------------------------------------------------------- the machine

  type Id = nat

  /** A request waits for the thread it started, or was answered, or was cancelled. */
  datatype Phase = Waiting | Served(decision: Decision) | Cancelled

  /** A scoring thread is named by the request that started it. */
  datatype State = State(inflight: Option<Id>, running: set<Id>, results: map<Id, Decision>,
                         requests: map<Id, Request>, phase: map<Id, Phase>)

  datatype Step =
    | Arrive(id: Id, request: Request)
    | Finish(thread: Id, prediction: Prediction)
    | Deliver(id: Id)
    | TimeOut(id: Id)
    | Cancel(id: Id)

  function Start(): State
  {
    State(None, {}, map[], map[], map[])
  }

  predicate IsWaiting(s: State, id: Id)
  {
    id in s.phase && s.phase[id] == Waiting
  }

  predicate Enabled(s: State, step: Step)
  {
    match step
    case Arrive(id, _) => id !in s.requests
    case Finish(thread, _) => thread in s.running && thread in s.requests
    case Deliver(id) => IsWaiting(s, id) && id in s.results
    case TimeOut(id) => IsWaiting(s, id) && id in s.requests
    case Cancel(id) => IsWaiting(s, id)
  }

  /** `self._inflight is not None and not self._inflight.done()` */
  predicate Busy(s: State)
  {
    s.inflight.Some? && s.inflight.value in s.running
  }

  /** What `score_async` answers before its first suspension; None when it starts a thread. */
  function Immediate(cfg: Config, s: State, request: Request): Option<Decision>
  {
    if !cfg.Models() then Some(Score(cfg, request, Raises))
    else if Busy(s) then Some(Fallback(request))
    else None
  }

  function Apply(cfg: Config, s: State, step: Step): State
    requires Enabled(s, step)
  {
    match step
    case Arrive(id, request) =>
      var answer := Immediate(cfg, s, request);
      if answer.Some? then s.(requests := s.requests[id := request], phase := s.phase[id := Served(answer.value)])
      else s.(inflight := Some(id), running := s.running + {id},
              requests := s.requests[id := request], phase := s.phase[id := Waiting])
    case Finish(thread, prediction) =>
      s.(running := s.running - {thread}, results := s.results[thread := Score(cfg, s.requests[thread], prediction)])
    case Deliver(id) => s.(phase := s.phase[id := Served(s.results[id])])
    case TimeOut(id) => s.(phase := s.phase[id := Served(Fallback(s.requests[id]))])
    case Cancel(id) => s.(phase := s.phase[id := Cancelled])
  }

  /** `steps` lead from `before` to `after`. */
  predicate Leads(cfg: Config, before: State, steps: seq<Step>, after: State)
    decreases |steps|
  {
    if steps == [] then before == after
    else Enabled(before, steps[0]) && Leads(cfg, Apply(cfg, before, steps[0]), steps[1..], after)
  }

  predicate Run(cfg: Config, steps: seq<Step>, s: State)
  {
    Leads(cfg, Start(), steps, s)
  }

  // ---------------------------------------------------------------- the runtime object

  /** The runtime and the event loop around it, field by field. */
  class RankerRuntime {
    const cfg: Config
    var inflight: Option<Id>
    var running: set<Id>
    var results: map<Id, Decision>
    var requests: map<Id, Request>
    var phase: map<Id, Phase>

    function View(): State
      reads this
    {
      State(inflight, running, results, requests, phase)
    }

    constructor (cfg: Config)
      ensures this.cfg == cfg && View() == Start()
    {
      this.cfg := cfg;
      inflight, running, results, requests, phase := None, {}, map[], map[], map[];
    }

    /** `score_async` up to its await. */
    method ScoreAsync(id: Id, request: Request) returns (decision: Option<Decision>)
      requires id !in requests
      modifies this
      ensures View() == Apply(cfg, old(View()), Arrive(id, request))
      ensures decision == Immediate(cfg, old(View()), request)
    {
      requests := requests[id := request];
      if cfg.mode == Heuristic || cfg.predictor.None? {
        decision := Some(Score(cfg, request, Raises));
      } else if inflight.Some? && inflight.value in running {
        decision := Some(Fallback(request));
      } else {
        decision := None;
        inflight := Some(id);
        running := running + {id};
      }
      phase := phase[id := if decision.Some? then Served(decision.value) else Waiting];
    }

    /** The scoring thread ends. */
    method ThreadEnds(thread: Id, prediction: Prediction)
      requires Enabled(View(), Finish(thread, prediction))
      modifies this
      ensures View() == Apply(cfg, old(View()), Finish(thread, prediction))
    {
      results := results[thread := Score(cfg, requests[thread], prediction)];
      running := running - {thread};
    }

    /** `score_async` after its await: the thread's decision, or the fallback on a timeout. */
    method Resume(id: Id, timedOut: bool) returns (decision: Decision)
      requires Enabled(View(), if timedOut then TimeOut(id) else Deliver(id))
      modifies this
      ensures View() == Apply(cfg, old(View()), if timedOut then TimeOut(id) else Deliver(id))
      ensures phase[id] == Served(decision)
    {
      decision := if timedOut then Fallback(requests[id]) else results[id];
      phase := phase[id := Served(decision)];
    }
  }

  // ---------------------------------------------------------------- what every run keeps

  /** A decision some thread could have computed for this request. */
  ghost predicate Computed(cfg: Config, request: Request, decision: Decision)
  {
    exists prediction :: decision == Score(cfg, request, prediction)
  }

  ghost predicate SlotInv(s: State)
  {
    && (forall thread | thread in s.running :: s.inflight == Some(thread) && thread in s.requests)
    && (forall id | id in s.results :: id in s.requests && id !in s.running)
    && (forall id | IsWaiting(s, id) :: id in s.running || id in s.results)
    && s.phase.Keys == s.requests.Keys
  }

  ghost predicate AnswersInv(cfg: Config, s: State)
  {
    && s.results.Keys <= s.requests.Keys
    && s.phase.Keys == s.requests.Keys
    && (forall id | id in s.results :: Computed(cfg, s.requests[id], s.results[id]))
    && (forall id | id in s.phase && s.phase[id].Served? ::
          Computed(cfg, s.requests[id], s.phase[id].decision) || s.phase[id].decision == Fallback(s.requests[id]))
  }

  lemma StepKeepsSlot(cfg: Config, s: State, step: Step)
    requires SlotInv(s) && Enabled(s, step)
    ensures SlotInv(Apply(cfg, s, step))
  {
  }

  lemma StepKeepsAnswers(cfg: Config, s: State, step: Step)
    requires AnswersInv(cfg, s) && Enabled(s, step)
    ensures AnswersInv(cfg, Apply(cfg, s, step))
  {
    var t := Apply(cfg, s, step);
    if step.Finish? {
      assert Computed(cfg, s.requests[step.thread], t.results[step.thread]);
    } else if step.Arrive? && !cfg.Models() {
      assert Computed(cfg, step.request, Score(cfg, step.request, Raises));
    }
  }

  lemma {:induction false} LeadsKeeps(cfg: Config, before: State, steps: seq<Step>, after: State)
    requires Leads(cfg, before, steps, after) && SlotInv(before) && AnswersInv(cfg, before)
    ensures SlotInv(after) && AnswersInv(cfg, after)
    decreases |steps|
  {
    if steps != [] {
      StepKeepsSlot(cfg, before, steps[0]);
      StepKeepsAnswers(cfg, before, steps[0]);
      LeadsKeeps(cfg, Apply(cfg, before, steps[0]), steps[1..], after);
    }
  }

  lemma RunKeeps(cfg: Config, steps: seq<Step>, s: State)
    requires Run(cfg, steps, s)
    ensures SlotInv(s) && AnswersInv(cfg, s)
  {
    LeadsKeeps(cfg, Start(), steps, s);
  }

  /** In every interleaving at most one scoring thread runs. */
  lemma OneThread(cfg: Config, steps: seq<Step>, s: State, a: Id, b: Id)
    requires Run(cfg, steps, s) && a in s.running && b in s.running
    ensures a == b && s.inflight == Some(a)
  {
    RunKeeps(cfg, steps, s);
  }

  /** With a model, an arriving request starts a thread exactly when none runs, however earlier
      requests ended; otherwise it is answered at once with its items as they came. */
  lemma StartsIffIdle(cfg: Config, steps: seq<Step>, s: State, id: Id, request: Request)
    requires Run(cfg, steps, s) && id !in s.requests && cfg.Models()
    ensures var t := Apply(cfg, s, Arrive(id, request));
            && (IsWaiting(t, id) <==> s.running == {})
            && (s.running == {} ==> t.running == {id})
            && (s.running != {} ==> t.running == s.running && t.phase[id] == Served(Fallback(request)))
  {
    RunKeeps(cfg, steps, s);
    if s.running != {} {
      var thread :| thread in s.running;
      assert Busy(s);
    }
  }

  lemma ScoreShape(cfg: Config, request: Request, prediction: Prediction)
    ensures var d := Score(cfg, request, prediction);
            && (d.fallbackUsed ==> d == Fallback(request))
            && (cfg.mode != Ml ==> Alike(d.items, request.items))
            && (!d.fallbackUsed && cfg.mode == Ml ==>
                  && |d.items| == |request.items|
                  && forall i | 0 <= i < |d.items|::
                        d.items[i].postId == request.items[i].postId && 0.0 <= d.items[i].score <= 1.0)
  {
  }

  /** Every answer of every run is for the request's own items: a fallback is those items untouched,
      shadow and heuristic modes never change a post, a score or the order, and the model mode's
      scores are probabilities of the same posts in the same order. */
  lemma EveryAnswer(cfg: Config, steps: seq<Step>, s: State, id: Id)
    requires Run(cfg, steps, s) && id in s.phase && s.phase[id].Served?
    ensures id in s.requests
    ensures var d, items := s.phase[id].decision, s.requests[id].items;
            && (d.fallbackUsed ==> d.items == items && d.model == HeuristicV1)
            && (cfg.mode != Ml ==> Alike(d.items, items))
            && (!d.fallbackUsed && cfg.mode == Ml ==>
                  && |d.items| == |items|
                  && forall i | 0 <= i < |items|::
                        d.items[i].postId == items[i].postId && 0.0 <= d.items[i].score <= 1.0)
  {
    RunKeeps(cfg, steps, s);
    var request, d := s.requests[id], s.phase[id].decision;
    if Computed(cfg, request, d) {
      var prediction :| d == Score(cfg, request, prediction);
      ScoreShape(cfg, request, prediction);
    }
  }

  function PostIds(items: seq<Item>): seq<PostId>
  {
    seq(|items|, i requires 0 <= i < |items| => items[i].postId)
  }

  /** The feed served for one request: its decision's items, reranked. */
  function Feed(ctx: Context, decision: Decision, limit: int): seq<PostId>
  {
    PostIds(Reranked(ctx, decision.items, limit))
  }

  /** In every interleaving, shadow mode, and any mode's fallback, serve the posts that heuristic mode
      would have served, in its order. */
  lemma ShadowServesTheHeuristicFeed(cfg: Config, steps: seq<Step>, s: State, id: Id, ctx: Context, limit: int)
    requires Run(cfg, steps, s) && id in s.phase && s.phase[id].Served?
    requires cfg.mode != Ml || s.phase[id].decision.fallbackUsed
    ensures id in s.requests
    ensures Feed(ctx, s.phase[id].decision, limit)
         == Feed(ctx, Score(Config(Heuristic, None), s.requests[id], Raises), limit)
  {
    EveryAnswer(cfg, steps, s, id);
    var items := s.requests[id].items;
    assert Alike(items, items);
    AlikeReranked(ctx, s.phase[id].decision.items, items, limit);
  }

  // ---------------------------------------------------------------- the answers item by item

  /** The model can be used: it is there, has the context it needs, one record per item if any were loaded,
      and answers one probability per item. */
  predicate Usable(cfg: Config, request: Request, prediction: Prediction)
  {
    && cfg.predictor.Some? && (cfg.predictor.value.requiresContext ==> request.records.Some?)
    && (request.records.Some? ==> request.records.value == |request.items|)
    && prediction.Scores? && |prediction.readings| == |request.items|
    && forall i | 0 <= i < |request.items| ::
         prediction.readings[i].Finite? && prediction.readings[i].value >= 0.0 && prediction.readings[i].value <= 1.0
  }

  /** The items as they came; with a usable model each is given its probability as a feature, and in model
      mode also as its score and reason. */
  ghost predicate IsAnswer(cfg: Config, request: Request, prediction: Prediction, d: Decision)
  {
    && (cfg.mode == Heuristic ==> d.items == request.items && d.model == HeuristicV1 && !d.fallbackUsed)
    && (cfg.mode != Heuristic ==> (d.fallbackUsed <==> !Usable(cfg, request, prediction)))
    && (d.fallbackUsed ==> d.items == request.items && d.model == HeuristicV1)
    && (cfg.mode != Heuristic && !d.fallbackUsed ==>
          var version := cfg.predictor.value.version;
          && d.model == (if cfg.mode == Shadow then WithShadow(version) else ModelOnly(version))
          && |d.items| == |request.items|
          && forall i | 0 <= i < |request.items| ::
               var reading := prediction.readings[i].value;
               var noted := request.items[i].(features := request.items[i].features.(mlScore := Some(reading)));
               d.items[i] == if cfg.mode == Shadow then noted
                             else noted.(score := reading, reason := FromModel(version)))
  }

  lemma ScoreIsAnswer(cfg: Config, request: Request, prediction: Prediction)
    ensures IsAnswer(cfg, request, prediction, Score(cfg, request, prediction))
  {
  }

  /** Every answer of every run is such an answer to some prediction, or the fallback of a request that was
      busy out or timed out. */
  lemma ServedIsAnswer(cfg: Config, steps: seq<Step>, s: State, id: Id)
    requires Run(cfg, steps, s) && id in s.phase && s.phase[id].Served?
    ensures id in s.requests
    ensures var d, request := s.phase[id].decision, s.requests[id];
            || (exists prediction :: IsAnswer(cfg, request, prediction, d))
            || (d.items == request.items && d.model == HeuristicV1 && d.fallbackUsed)
  {
    RunKeeps(cfg, steps, s);
    var d, request := s.phase[id].decision, s.requests[id];
    if Computed(cfg, request, d) {
      var prediction :| d == Score(cfg, request, prediction);
      ScoreIsAnswer(cfg, request, prediction);
    }
  }

}
