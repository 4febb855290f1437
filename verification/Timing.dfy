/** Run accounting: prover time, prover calls and tokens are counted twice, in run totals and in per-task buckets
    that a finished phase drains; nothing is lost or counted twice on the way. */
module Timing {
  import opened Wrappers
  import S = Sequences

  datatype TokenTotals = TokenTotals(input: int, output: int, cacheRead: int, cacheWrite: int) {
    function Add(other: TokenTotals): TokenTotals {
      TokenTotals(input + other.input, output + other.output, cacheRead + other.cacheRead, cacheWrite + other.cacheWrite)
    }
  }

  const NO_TOKENS := TokenTotals(0, 0, 0, 0)

  datatype UsageDict = UsageDict(modelName: Option<string>, tokens: TokenTotals)

  type TokensByModel = map<string, TokenTotals>

  datatype PhaseRecord = PhaseRecord(taskId: string, phase: string, proverS: real, proverCalls: int,
                                     finalLink: Option<string>, tokens: TokensByModel)

  function Or(x: Option<string>, y: Option<string>): Option<string> {
    if x.Some? && x.value != "" then x else y
  }

  function Get<K, V>(m: map<K, V>, k: K, default: V): V {
    if k in m then m[k] else default
  }

  // ---- What was reported ----

  /** One report: a prover call or a token usage, each for a task or for none, the link of a prover run, the end
      of a phase. */
  datatype Event =
    | Prover(task: Option<string>, seconds: real)
    | Usage(task: Option<string>, model: string, tokens: TokenTotals)
    | Link(task: Option<string>, link: string)
    | PhaseEnd(name: string, phase: string)

  datatype Cost = Cost(seconds: real, calls: int, tokens: TokenTotals) {
    function Plus(other: Cost): Cost {
      Cost(seconds + other.seconds, calls + other.calls, tokens.Add(other.tokens))
    }
  }

  const NOTHING := Cost(0.0, 0, NO_TOKENS)

  /** What one event costs, counting the tokens of one model or, for None, of all. */
  function CostOf(e: Event, model: Option<string>): Cost {
    match e
    case Prover(_, s) => Cost(s, 1, NO_TOKENS)
    case Usage(_, m, t) => if model.None? || model.value == m then Cost(0.0, 0, t) else NOTHING
    case _ => NOTHING
  }

  predicate For(e: Event, task: Option<string>) {
    (e.Prover? || e.Usage?) && e.task == task
  }

  predicate Ends(e: Event, task: string) {
    e.PhaseEnd? && e.name == task
  }

  function Last(log: seq<Event>): Event
    requires log != []
  {
    log[|log| - 1]
  }

  function Init(log: seq<Event>): seq<Event>
    requires log != []
  {
    log[..|log| - 1]
  }

  function Total(log: seq<Event>, model: Option<string>): Cost {
    if log == [] then NOTHING else Total(Init(log), model).Plus(CostOf(Last(log), model))
  }

  /** What was reported for no task. */
  function Unattributed(log: seq<Event>, model: Option<string>): Cost {
    if log == [] then NOTHING
    else if For(Last(log), None) then Unattributed(Init(log), model).Plus(CostOf(Last(log), model))
    else Unattributed(Init(log), model)
  }

  /** What was reported for a task since its last phase ended. */
  function Since(log: seq<Event>, task: string, model: Option<string>): Cost {
    if log == [] || Ends(Last(log), task) then NOTHING
    else if For(Last(log), Some(task)) then Since(Init(log), task, model).Plus(CostOf(Last(log), model))
    else Since(Init(log), task, model)
  }

  function LinkSince(log: seq<Event>, task: string): Option<string> {
    if log == [] || Ends(Last(log), task) then None
    else if Last(log).Link? && Last(log).task == Some(task) then Some(Last(log).link)
    else LinkSince(Init(log), task)
  }

  /** What each ended phase should have been charged. */
  function Charged(log: seq<Event>, model: Option<string>): seq<Cost> {
    if log == [] then []
    else if Last(log).PhaseEnd? then Charged(Init(log), model) + [Since(Init(log), Last(log).name, model)]
    else Charged(Init(log), model)
  }

  function Sum(cs: seq<Cost>): Cost {
    if cs == [] then NOTHING else Sum(cs[..|cs| - 1]).Plus(cs[|cs| - 1])
  }

  /** The open buckets of some tasks together. */
  ghost function InFlight(tasks: set<string>, log: seq<Event>, model: Option<string>): Cost {
    if tasks == {} then NOTHING
    else var t :| t in tasks; InFlight(tasks - {t}, log, model).Plus(Since(log, t, model))
  }

  lemma PlusSwaps(a: Cost, b: Cost, c: Cost)
    ensures a.Plus(b).Plus(c) == a.Plus(c).Plus(b) == a.Plus(b.Plus(c))
  {}

  lemma {:induction false} InFlightAny(tasks: set<string>, log: seq<Event>, model: Option<string>, t: string)
    requires t in tasks
    ensures InFlight(tasks, log, model) == InFlight(tasks - {t}, log, model).Plus(Since(log, t, model))
    decreases |tasks|
  {
    hide Since;
    var u :| u in tasks && InFlight(tasks, log, model) == InFlight(tasks - {u}, log, model).Plus(Since(log, u, model));
    if u != t {
      InFlightAny(tasks - {u}, log, model, t);
      InFlightAny(tasks - {t}, log, model, u);
      assert tasks - {u} - {t} == tasks - {t} - {u};
      PlusSwaps(InFlight(tasks - {u} - {t}, log, model), Since(log, u, model), Since(log, t, model));
    }
  }

  /** A task with an empty bucket adds nothing. */
  lemma InFlightMore(tasks: set<string>, log: seq<Event>, model: Option<string>, t: string)
    requires t in tasks || Since(log, t, model) == NOTHING
    ensures InFlight(tasks + {t}, log, model) == InFlight(tasks, log, model)
  {
    hide Since;
    if t in tasks {
      assert tasks + {t} == tasks;
    } else {
      InFlightAny(tasks + {t}, log, model, t);
      assert tasks + {t} - {t} == tasks;
    }
  }

  lemma {:induction false} InFlightSame(tasks: set<string>, a: seq<Event>, b: seq<Event>, model: Option<string>)
    requires forall t :: t in tasks ==> Since(a, t, model) == Since(b, t, model)
    ensures InFlight(tasks, a, model) == InFlight(tasks, b, model)
    decreases |tasks|
  {
    hide Since;
    if tasks != {} {
      var t :| t in tasks && InFlight(tasks, a, model) == InFlight(tasks - {t}, a, model).Plus(Since(a, t, model));
      InFlightAny(tasks, b, model, t);
      InFlightSame(tasks - {t}, a, b, model);
    }
  }

  lemma OneMore(init: seq<Event>, e: Event, model: Option<string>)
    ensures var log, c := init + [e], CostOf(e, model);
            Total(log, model) == Total(init, model).Plus(c) &&
            Unattributed(log, model) == Unattributed(init, model).Plus(if For(e, None) then c else NOTHING) &&
            Charged(log, model) == Charged(init, model) + if e.PhaseEnd? then [Since(init, e.name, model)] else []
    ensures forall t :: Since(init + [e], t, model) ==
                        if Ends(e, t) then NOTHING
                        else if For(e, Some(t)) then Since(init, t, model).Plus(CostOf(e, model)) else Since(init, t, model)
  {
    hide CostOf;
    assert Init(init + [e]) == init;
    assert Unattributed(init, model).Plus(NOTHING) == Unattributed(init, model);
  }

  /** A prover call counts once, with its seconds, in the total and in the bucket of its task only. */
  lemma ProverCallCounts(log: seq<Event>, task: Option<string>, s: real, t: string, model: Option<string>)
    ensures var was, now := Total(log, model), Total(log + [Prover(task, s)], model);
            now.seconds == was.seconds + s && now.calls == was.calls + 1 && now.tokens == was.tokens
    ensures var was, now := Since(log, t, model), Since(log + [Prover(task, s)], t, model);
            if task == Some(t) then now.seconds == was.seconds + s && now.calls == was.calls + 1 && now.tokens == was.tokens
            else now == was
  {
    OneMore(log, Prover(task, s), model);
    hide Total, Since;
  }

  /** A usage adds to each of the four counts, for its model and for all models together, in the total and in the
      bucket of its task only. */
  lemma UsageCounts(log: seq<Event>, task: Option<string>, name: string, u: TokenTotals, t: string, model: Option<string>)
    ensures var e := Usage(task, name, u);
            var more := if model in {None, Some(name)} then u else TokenTotals(0, 0, 0, 0);
            GrownBy(Total(log, model), Total(log + [e], model), more) &&
            GrownBy(Since(log, t, model), Since(log + [e], t, model), if task == Some(t) then more else TokenTotals(0, 0, 0, 0))
  {
    var e := Usage(task, name, u);
    OneMore(log, e, model);
    UsageAdds(Total(log, model), task, name, u, model);
    UsageAdds(Since(log, t, model), task, name, u, model);
    hide Total, Since, CostOf, Cost.Plus, GrownBy;
  }

  lemma UsageAdds(was: Cost, task: Option<string>, name: string, u: TokenTotals, model: Option<string>)
    ensures GrownBy(was, was.Plus(CostOf(Usage(task, name, u), model)), if model in {None, Some(name)} then u else TokenTotals(0, 0, 0, 0))
    ensures GrownBy(was, was, TokenTotals(0, 0, 0, 0))
  {}

  predicate GrownBy(was: Cost, now: Cost, more: TokenTotals) {
    now.seconds == was.seconds && now.calls == was.calls &&
    now.tokens.input == was.tokens.input + more.input && now.tokens.output == was.tokens.output + more.output &&
    now.tokens.cacheRead == was.tokens.cacheRead + more.cacheRead &&
    now.tokens.cacheWrite == was.tokens.cacheWrite + more.cacheWrite
  }

  /** The end of a phase empties the bucket of its task, and changes neither the total nor another bucket. */
  lemma PhaseEndEmpties(log: seq<Event>, name: string, phase: string, t: string, model: Option<string>)
    ensures Total(log + [PhaseEnd(name, phase)], model) == Total(log, model)
    ensures Since(log + [PhaseEnd(name, phase)], t, model) ==
            if name == t then Cost(0.0, 0, TokenTotals(0, 0, 0, 0)) else Since(log, t, model)
  {
    OneMore(log, PhaseEnd(name, phase), model);
    hide Total, Since;
  }

  lemma LinkStep(init: seq<Event>, e: Event)
    ensures forall t :: LinkSince(init + [e], t) ==
                        if Ends(e, t) then None else if e.Link? && e.task == Some(t) then Some(e.link) else LinkSince(init, t)
  {
    assert Init(init + [e]) == init;
  }

  /** Conservation: for every history and every model (or all together), the total is what the ended phases were
      charged, plus the open buckets, plus what no task was charged for. */
  lemma {:induction false} NothingIsLost(log: seq<Event>, model: Option<string>, tasks: set<string>)
    requires forall t :: t !in tasks ==> Since(log, t, model) == NOTHING
    ensures Total(log, model) == Sum(Charged(log, model)).Plus(InFlight(tasks, log, model)).Plus(Unattributed(log, model))
    decreases |log|
  {
    if log == [] {
      AllEmpty(tasks, log, model);
    } else {
      var init, e := Init(log), Last(log);
      assert init + [e] == log;
      OneMore(init, e, model);
      var c, un, charged := CostOf(e, model), Unattributed(init, model), Charged(init, model);
      hide Total, Since, Charged, Unattributed, InFlight, Cost.Plus, CostOf;
      var task := if e.PhaseEnd? then Some(e.name) else if e.Link? then None else e.task;
      if task.Some? {
        var t := task.value;
        OneBucket(init, log, model, tasks, t);
        var rest: Cost :| InFlight(tasks + {t}, init, model) == rest.Plus(Since(init, t, model)) &&
                          InFlight(tasks, log, model) == rest.Plus(Since(log, t, model));
        NothingIsLost(init, model, tasks + {t});
        if e.PhaseEnd? {
          assert (charged + [Since(init, t, model)])[..|charged|] == charged;
          Moved(Sum(charged), rest, Since(init, t, model), un);
        } else {
          Added(Sum(charged), rest, Since(init, t, model), un, c);
        }
      } else {
        InFlightSame(tasks, log, init, model);
        NothingIsLost(init, model, tasks);
        Added(Sum(charged), InFlight(tasks, init, model), NOTHING, un, c);
      }
    }
  }

  lemma Moved(sum: Cost, rest: Cost, since: Cost, un: Cost)
    ensures sum.Plus(rest.Plus(since)).Plus(un).Plus(NOTHING) ==
            sum.Plus(since).Plus(rest.Plus(NOTHING)).Plus(un.Plus(NOTHING))
  {}

  lemma Added(sum: Cost, rest: Cost, since: Cost, un: Cost, c: Cost)
    ensures sum.Plus(rest.Plus(since)).Plus(un).Plus(c) == sum.Plus(rest.Plus(since.Plus(c))).Plus(un.Plus(NOTHING))
    ensures sum.Plus(rest).Plus(un).Plus(c) == sum.Plus(rest).Plus(un.Plus(c))
    ensures sum.Plus(rest).Plus(un).Plus(NOTHING) == sum.Plus(rest).Plus(un) == sum.Plus(rest).Plus(un.Plus(NOTHING))
  {}

  /** When one bucket changes, the open buckets change by as much. */
  lemma OneBucket(a: seq<Event>, b: seq<Event>, model: Option<string>, tasks: set<string>, t: string)
    requires forall u :: u != t ==> Since(a, u, model) == Since(b, u, model)
    requires forall u :: u !in tasks ==> Since(b, u, model) == NOTHING
    ensures exists rest: Cost :: InFlight(tasks + {t}, a, model) == rest.Plus(Since(a, t, model)) &&
                                 InFlight(tasks, b, model) == rest.Plus(Since(b, t, model))
  {
    hide Since;
    InFlightMore(tasks, b, model, t);
    InFlightAny(tasks + {t}, b, model, t);
    InFlightAny(tasks + {t}, a, model, t);
    InFlightSame(tasks + {t} - {t}, a, b, model);
  }

  lemma {:induction false} AllEmpty(tasks: set<string>, log: seq<Event>, model: Option<string>)
    requires forall t :: t in tasks ==> Since(log, t, model) == NOTHING
    ensures InFlight(tasks, log, model) == NOTHING
    decreases |tasks|
  {
    hide Since;
    if tasks != {} {
      var t :| t in tasks && InFlight(tasks, log, model) == InFlight(tasks - {t}, log, model).Plus(Since(log, t, model));
      AllEmpty(tasks - {t}, log, model);
    }
  }

  // ---- Sums over a table of models ----

  ghost function SumOver(keys: set<string>, f: TokensByModel): TokenTotals {
    if keys == {} then NO_TOKENS else var k :| k in keys; SumOver(keys - {k}, f).Add(Get(f, k, NO_TOKENS))
  }

  ghost function SumValues(f: TokensByModel): TokenTotals {
    SumOver(f.Keys, f)
  }

  lemma AddSwaps(a: TokenTotals, b: TokenTotals, c: TokenTotals)
    ensures a.Add(b).Add(c) == a.Add(c).Add(b) == a.Add(b.Add(c))
  {}

  lemma {:induction false} SumOverAny(keys: set<string>, f: TokensByModel, k: string)
    requires k in keys
    ensures SumOver(keys, f) == SumOver(keys - {k}, f).Add(Get(f, k, NO_TOKENS))
    decreases |keys|
  {
    var u :| u in keys && SumOver(keys, f) == SumOver(keys - {u}, f).Add(Get(f, u, NO_TOKENS));
    if u != k {
      SumOverAny(keys - {u}, f, k);
      SumOverAny(keys - {k}, f, u);
      assert keys - {u} - {k} == keys - {k} - {u};
      AddSwaps(SumOver(keys - {u} - {k}, f), Get(f, u, NO_TOKENS), Get(f, k, NO_TOKENS));
    }
  }

  lemma {:induction false} SumOverSame(keys: set<string>, f: TokensByModel, g: TokensByModel)
    requires forall k :: k in keys ==> Get(f, k, NO_TOKENS) == Get(g, k, NO_TOKENS)
    ensures SumOver(keys, f) == SumOver(keys, g)
    decreases |keys|
  {
    if keys != {} {
      var k :| k in keys && SumOver(keys, f) == SumOver(keys - {k}, f).Add(Get(f, k, NO_TOKENS));
      SumOverAny(keys, g, k);
      SumOverSame(keys - {k}, f, g);
    }
  }

  /** One model's tokens in a table, or all. */
  ghost function Reading(f: TokensByModel, model: Option<string>): TokenTotals {
    if model.None? then SumValues(f) else Get(f, model.value, NO_TOKENS)
  }

  function WithUsage(f: TokensByModel, model: string, t: TokenTotals): TokensByModel {
    f[model := Get(f, model, NO_TOKENS).Add(t)]
  }

  lemma ReadingEmpty(model: Option<string>)
    ensures Reading(map[], model) == NO_TOKENS
  {}

  /** Adding to one entry moves its own reading and the sum by as much, no other. */
  lemma ReadingAdds(f: TokensByModel, k: string, t: TokenTotals, model: Option<string>)
    ensures Reading(WithUsage(f, k, t), model) == Reading(f, model).Add(if model.None? || model.value == k then t else NO_TOKENS)
  {
    if model.None? {
      var was := Get(f, k, NO_TOKENS);
      var g := f[k := was.Add(t)];
      var others := f.Keys - {k};
      assert g.Keys - {k} == others;
      SumOverAny(g.Keys, g, k);
      SumOverSame(others, f, g);
      if k in f { SumOverAny(f.Keys, f, k); } else { assert f.Keys == others; }
      AddSwaps(SumOver(others, f), was, t);
      hide SumOver;
    }
  }

  // ---- The counters against the history ----

  function Bucket(prover: map<string, (real, int)>, tokens: map<string, TokensByModel>, task: string)
    : (real, int, TokensByModel)
  {
    var p := Get(prover, task, (0.0, 0));
    (p.0, p.1, Get(tokens, task, map[]))
  }

  ghost function CostAs(b: (real, int, TokensByModel), model: Option<string>): Cost {
    Cost(b.0, b.1, Reading(b.2, model))
  }

  ghost predicate TotalsRight(totals: (real, int, TokensByModel), log: seq<Event>) {
    forall model :: CostAs(totals, model) == Total(log, model)
  }

  ghost predicate BucketsRight(prover: map<string, (real, int)>, tokens: map<string, TokensByModel>, log: seq<Event>) {
    forall task, model :: CostAs(Bucket(prover, tokens, task), model) == Since(log, task, model)
  }

  ghost function Costs(ps: seq<PhaseRecord>, model: Option<string>): seq<Cost> {
    seq(|ps|, i requires 0 <= i < |ps| => CostAs((ps[i].proverS, ps[i].proverCalls, ps[i].tokens), model))
  }

  ghost predicate PhasesRight(ps: seq<PhaseRecord>, log: seq<Event>) {
    forall model :: Costs(ps, model) == Charged(log, model)
  }

  ghost predicate LinksRight(links: map<string, string>, log: seq<Event>) {
    forall task :: (if task in links then Some(links[task]) else None) == LinkSince(log, task)
  }

  lemma BucketIs(prover: map<string, (real, int)>, tokens: map<string, TokensByModel>, log: seq<Event>, task: string)
    requires BucketsRight(prover, tokens, log)
    ensures forall model :: CostAs(Bucket(prover, tokens, task), model) == Since(log, task, model)
  {}

  /** What an event adds to some counters. */
  function Bump(b: (real, int, TokensByModel), e: Event): (real, int, TokensByModel) {
    match e
    case Prover(_, s) => (b.0 + s, b.1 + 1, b.2)
    case Usage(_, m, t) => (b.0, b.1, WithUsage(b.2, m, t))
    case _ => b
  }

  lemma BumpCosts(b: (real, int, TokensByModel), e: Event)
    ensures forall model :: CostAs(Bump(b, e), model) == CostAs(b, model).Plus(CostOf(e, model))
  {
    if e.Usage? {
      forall model ensures CostAs(Bump(b, e), model) == CostAs(b, model).Plus(CostOf(e, model)) {
        ReadingAdds(b.2, e.model, e.tokens, model);
        hide Reading, WithUsage;
      }
    }
  }

  lemma TotalsStep(totals: (real, int, TokensByModel), log: seq<Event>, e: Event)
    requires TotalsRight(totals, log)
    ensures TotalsRight(Bump(totals, e), log + [e])
  {
    BumpCosts(totals, e);
    hide Bump, CostAs, CostOf, Cost.Plus;
    forall model ensures CostAs(Bump(totals, e), model) == Total(log + [e], model) {
      OneMore(log, e, model);
      hide Total;
    }
  }

  lemma BucketsStep(prover: map<string, (real, int)>, tokens: map<string, TokensByModel>, log: seq<Event>, e: Event,
                    prover': map<string, (real, int)>, tokens': map<string, TokensByModel>)
    requires BucketsRight(prover, tokens, log)
    requires forall t :: Bucket(prover', tokens', t) ==
                         if Ends(e, t) then (0.0, 0, map[])
                         else if For(e, Some(t)) then Bump(Bucket(prover, tokens, t), e) else Bucket(prover, tokens, t)
    ensures BucketsRight(prover', tokens', log + [e])
  {
    hide Since, Bucket, Bump, Reading, CostOf, Cost.Plus, CostAs;
    forall t, model ensures CostAs(Bucket(prover', tokens', t), model) == Since(log + [e], t, model) {
      var was := Bucket(prover, tokens, t);
      assert CostAs(was, model) == Since(log, t, model);
      OneBucketStep(log, e, t, model, was, Bucket(prover', tokens', t));
    }
  }

  lemma OneBucketStep(log: seq<Event>, e: Event, t: string, model: Option<string>,
                      was: (real, int, TokensByModel), now: (real, int, TokensByModel))
    requires CostAs(was, model) == Since(log, t, model)
    requires now == if Ends(e, t) then (0.0, 0, map[]) else if For(e, Some(t)) then Bump(was, e) else was
    ensures CostAs(now, model) == Since(log + [e], t, model)
  {
    OneMore(log, e, model);
    BumpCosts(was, e);
    EmptyCosts(model);
    hide Since, Bump, CostAs, CostOf, Cost.Plus;
  }

  lemma EmptyCosts(model: Option<string>)
    ensures CostAs((0.0, 0, map[]), model) == NOTHING
  {
    ReadingEmpty(model);
  }

  lemma PhasesStep(ps: seq<PhaseRecord>, log: seq<Event>, e: Event)
    requires PhasesRight(ps, log) && !e.PhaseEnd?
    ensures PhasesRight(ps, log + [e])
  {
    forall model ensures Costs(ps, model) == Charged(log + [e], model) {
      OneMore(log, e, model);
      hide Charged, Costs;
    }
  }

  lemma PhasesEnd(ps: seq<PhaseRecord>, log: seq<Event>, e: Event, p: PhaseRecord)
    requires PhasesRight(ps, log) && e.PhaseEnd?
    requires forall model :: CostAs((p.proverS, p.proverCalls, p.tokens), model) == Since(log, e.name, model)
    ensures PhasesRight(ps + [p], log + [e])
  {
    forall model ensures Costs(ps + [p], model) == Charged(log + [e], model) {
      OneMore(log, e, model);
      CostsMore(ps, p, model);
      hide Charged, CostAs, Since, Costs;
    }
  }

  lemma CostsMore(ps: seq<PhaseRecord>, p: PhaseRecord, model: Option<string>)
    ensures Costs(ps + [p], model) == Costs(ps, model) + [CostAs((p.proverS, p.proverCalls, p.tokens), model)]
  {
    hide CostAs;
  }

  lemma ModelName(name: Option<string>)
    ensures Or(name, Some("unknown")) == Some(if name in {None, Some("")} then "unknown" else name.value)
  {}

  lemma UsageBuckets(prover: map<string, (real, int)>, tokens: map<string, TokensByModel>, log: seq<Event>, e: Event,
                     tokens': map<string, TokensByModel>)
    requires BucketsRight(prover, tokens, log) && e.Usage?
    requires tokens' == if e.task.None? then tokens
                        else tokens[e.task.value := WithUsage(Get(tokens, e.task.value, map[]), e.model, e.tokens)]
    ensures BucketsRight(prover, tokens', log + [e])
  {
    hide WithUsage, BucketsRight;
    BucketsStep(prover, tokens, log, e, prover, tokens');
  }

  lemma LinksStep(links: map<string, string>, log: seq<Event>, e: Event)
    requires LinksRight(links, log) && (e.Prover? || e.Usage?)
    ensures LinksRight(links, log + [e])
  {
    LinkStep(log, e);
    hide LinkSince;
  }

  /** The sum over a table, entry by entry. */
  method SumTable(f: TokensByModel) returns (r: TokenTotals)
    ensures r == SumValues(f)
  {
    hide SumOver;
    r := NO_TOKENS;
    var rest := f.Keys;
    AddNothing(SumValues(f));
    while rest != {}
      invariant rest <= f.Keys
      invariant SumOver(rest, f).Add(r) == SumValues(f)
      decreases |rest|
    {
      var k :| k in rest;
      SumStep(rest, f, k, r);
      r := r.Add(f[k]);
      rest := rest - {k};
    }
    SumOfNone(f, r);
  }

  lemma AddNothing(a: TokenTotals)
    ensures a.Add(NO_TOKENS) == a
  {}

  lemma SumStep(rest: set<string>, f: TokensByModel, k: string, r: TokenTotals)
    requires k in rest && k in f
    ensures SumOver(rest, f).Add(r) == SumOver(rest - {k}, f).Add(r.Add(f[k]))
  {
    SumOverAny(rest, f, k);
    AddSwaps(SumOver(rest - {k}, f), f[k], r);
    AddSwaps(SumOver(rest - {k}, f), r, f[k]);
    hide SumOver, TokenTotals.Add;
  }

  lemma SumOfNone(f: TokensByModel, r: TokenTotals)
    ensures SumOver({}, f).Add(r) == r
  {}

  lemma TotalIsSum(totals: (real, int, TokensByModel), log: seq<Event>)
    requires TotalsRight(totals, log)
    ensures SumValues(totals.2) == Total(log, None).tokens
  {
    assert CostAs(totals, None) == Total(log, None);
    hide Total, SumValues;
  }

  // ---- The run summary ----

  class RunSummary {
    var phases: seq<PhaseRecord>
    var proverTotalS: real
    var proverTotalCalls: int
    var activeProverByTask: map<string, (real, int)>
    var latestLinkByTask: map<string, string>
    var tokenUsageByModel: TokensByModel
    var activeTokensByTask: map<string, TokensByModel>
    /** Every report so far. */
    ghost var log: seq<Event>

    /** The counters are what the history says they should be. */
    ghost predicate InStep()
      reads this
    {
      TotalsRight((proverTotalS, proverTotalCalls, tokenUsageByModel), log) &&
      BucketsRight(activeProverByTask, activeTokensByTask, log) &&
      PhasesRight(phases, log) && LinksRight(latestLinkByTask, log)
    }

    constructor ()
      ensures InStep() && log == [] && phases == []
    {
      phases, proverTotalS, proverTotalCalls := [], 0.0, 0;
      activeProverByTask, latestLinkByTask, tokenUsageByModel, activeTokensByTask := map[], map[], map[], map[];
      log := [];
    }

    /** Closing a phase moves the in-flight bucket into a record and leaves the totals alone. */
    method RecordPhase(taskId: string, phase: string)
      requires InStep()
      modifies this
      ensures InStep() && log == old(log) + [PhaseEnd(taskId, phase)]
      ensures |phases| == |old(phases)| + 1 && phases[..|old(phases)|] == old(phases)
      ensures var p := phases[|old(phases)|];
              p.taskId == taskId && p.phase == phase && p.finalLink == LinkSince(old(log), taskId) &&
              forall model :: CostAs((p.proverS, p.proverCalls, p.tokens), model) == Since(old(log), taskId, model)
    {
      hide Total, Since, Charged, LinkSince, CostAs, TotalsRight, PhasesRight, BucketsRight;
      ghost var e := PhaseEnd(taskId, phase);
      TotalsStep((proverTotalS, proverTotalCalls, tokenUsageByModel), log, e);
      LinkStep(log, e);
      var prover := Get(activeProverByTask, taskId, (0.0, 0));
      var link := if taskId in latestLinkByTask then Some(latestLinkByTask[taskId]) else None;
      var tokens := Get(activeTokensByTask, taskId, map[]);
      var p := PhaseRecord(taskId, phase, prover.0, prover.1, link, tokens);
      BucketIs(activeProverByTask, activeTokensByTask, log, taskId);
      assert (p.proverS, p.proverCalls, p.tokens) == Bucket(activeProverByTask, activeTokensByTask, taskId);
      PhasesEnd(phases, log, e, p);
      BucketsStep(activeProverByTask, activeTokensByTask, log, e, activeProverByTask - {taskId}, activeTokensByTask - {taskId});
      activeProverByTask := activeProverByTask - {taskId};
      S.InitOfConcat(phases, p);
      latestLinkByTask := latestLinkByTask - {taskId};
      activeTokensByTask := activeTokensByTask - {taskId};
      phases := phases + [p];
      log := log + [e];
    }

    method AddProverCall(durationS: real, taskId: Option<string>, current: Option<string>)
      requires InStep()
      modifies this
      ensures var task := if taskId in {None, Some("")} then current else taskId;
              InStep() && log == old(log) + [Prover(task, durationS)] && phases == old(phases)
    {
      hide Total, Since, Charged, LinkSince, CostAs, TotalsRight, PhasesRight;
      var task := Or(taskId, current);
      ghost var e, provers := Prover(task, durationS), activeProverByTask;
      TotalsStep((proverTotalS, proverTotalCalls, tokenUsageByModel), log, e);
      PhasesStep(phases, log, e);
      LinkStep(log, e);
      proverTotalS, proverTotalCalls := proverTotalS + durationS, proverTotalCalls + 1;
      if task.Some? {
        var prev := Get(activeProverByTask, task.value, (0.0, 0));
        activeProverByTask := activeProverByTask[task.value := (prev.0 + durationS, prev.1 + 1)];
      }
      BucketsStep(provers, activeTokensByTask, log, e, activeProverByTask, activeTokensByTask);
      log := log + [e];
    }

    method RecordTokenUsage(usage: UsageDict, taskId: Option<string>, current: Option<string>)
      requires InStep()
      modifies this
      ensures var model := if usage.modelName in {None, Some("")} then "unknown" else usage.modelName.value;
              var task := if taskId in {None, Some("")} then current else taskId;
              InStep() && log == old(log) + [Usage(task, model, usage.tokens)] && phases == old(phases)
    {
      hide Total, Since, Charged, LinkSince, CostAs, TotalsRight, PhasesRight, WithUsage, BucketsRight, LinksRight;
      ModelName(usage.modelName);
      var model := Or(usage.modelName, Some("unknown")).value;
      var task := Or(taskId, current);
      ghost var e, buckets := Usage(task, model, usage.tokens), activeTokensByTask;
      TotalsStep((proverTotalS, proverTotalCalls, tokenUsageByModel), log, e);
      PhasesStep(phases, log, e);
      LinksStep(latestLinkByTask, log, e);
      tokenUsageByModel := WithUsage(tokenUsageByModel, model, usage.tokens);
      if task.Some? {
        var bucket := Get(activeTokensByTask, task.value, map[]);
        activeTokensByTask := activeTokensByTask[task.value := WithUsage(bucket, model, usage.tokens)];
      }
      UsageBuckets(activeProverByTask, buckets, log, e, activeTokensByTask);
      log := log + [e];
    }

    method RecordProverLink(link: string, taskId: Option<string>, current: Option<string>)
      requires InStep()
      modifies this
      ensures var task := if taskId in {None, Some("")} then current else taskId;
              InStep() && log == old(log) + [Link(task, link)] && phases == old(phases)
    {
      hide Total, Since, Charged, LinkSince, CostAs, TotalsRight, PhasesRight;
      var task := Or(taskId, current);
      ghost var e := Link(task, link);
      TotalsStep((proverTotalS, proverTotalCalls, tokenUsageByModel), log, e);
      PhasesStep(phases, log, e);
      LinkStep(log, e);
      BucketsStep(activeProverByTask, activeTokensByTask, log, e, activeProverByTask, activeTokensByTask);
      if task.Some? { latestLinkByTask := latestLinkByTask[task.value := link]; }
      log := log + [e];
    }

    method GetLatestLink(taskId: Option<string>, current: Option<string>) returns (r: Option<string>)
      requires InStep()
      ensures var task := if taskId in {None, Some("")} then current else taskId;
              r == if task.None? then None else LinkSince(log, task.value)
    {
      var task := Or(taskId, current);
      r := if task.Some? && task.value in latestLinkByTask then Some(latestLinkByTask[task.value]) else None;
    }

    /** The run total over all models is the sum of every usage ever recorded. */
    method TotalTokens() returns (r: TokenTotals)
      requires InStep()
      ensures r == Total(log, None).tokens
    {
      TotalIsSum((proverTotalS, proverTotalCalls, tokenUsageByModel), log);
      r := SumTable(tokenUsageByModel);
      hide *;
    }

    /** In every reachable state the counters balance, for each model and for all models together: the run totals
        are the recorded phases, plus the buckets of the tasks in flight, plus what was reported for no task. */
    lemma Balanced(model: Option<string>)
      requires InStep()
      ensures Cost(proverTotalS, proverTotalCalls, Reading(tokenUsageByModel, model)) ==
              Sum(Costs(phases, model))
              .Plus(InFlight(activeProverByTask.Keys + activeTokensByTask.Keys, log, model))
              .Plus(Unattributed(log, model))
      ensures forall t :: CostAs(Bucket(activeProverByTask, activeTokensByTask, t), model) == Since(log, t, model)
    {
      hide Total, Since, Charged, Unattributed, Sum, Reading;
      var tasks := activeProverByTask.Keys + activeTokensByTask.Keys;
      forall t | t !in tasks ensures Since(log, t, model) == NOTHING {
        assert CostAs(Bucket(activeProverByTask, activeTokensByTask, t), model) == Since(log, t, model);
        ReadingEmpty(model);
      }
      NothingIsLost(log, model, tasks);
      assert CostAs((proverTotalS, proverTotalCalls, tokenUsageByModel), model) == Total(log, model);
    }
  }
}
