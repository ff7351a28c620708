/** `ProviderExecutor` on its in-process path: bulkhead, circuit breaker and retries of
any number of callers whose locked sections interleave. */
module Executor {
  import opened Prelude

  // ---- The locked sections ----

  datatype Circuit = Circuit(failures: nat, openUntil: Time)

  function InFlight(m: map<Ref, int>, key: Ref): int {
    if key in m then m[key] else 0
  }

  function CircuitOf(m: map<Ref, Circuit>, key: Ref): Circuit {
    if key in m then m[key] else Circuit(0, 0)
  }

  function Acquired(m: map<Ref, int>, key: Ref, limit: nat): (map<Ref, int>, bool) {
    if InFlight(m, key) < limit then (m[key := InFlight(m, key) + 1], true) else (m, false)
  }

  function Released(m: map<Ref, int>, key: Ref): map<Ref, int> {
    var current := InFlight(m, key) - 1;
    if current <= 0 then m - {key} else m[key := current]
  }

  function Failed(m: map<Ref, Circuit>, key: Ref, now: Time, threshold: nat, openFor: Time): map<Ref, Circuit> {
    var failures := CircuitOf(m, key).failures + 1;
    m[key := Circuit(failures, if failures >= threshold then now + openFor else 0)]
  }

  datatype Config = Config(attempts: nat, threshold: nat, openFor: Time, limit: nat)

  // Settings are positive.
  predicate ConfigOk(c: Config) {
    c.attempts > 0 && c.threshold > 0 && c.openFor > 0 && c.limit > 0
  }

  // ---- Callers ----

  // `invoked` operation calls so far; `success` is known once the call is decided. A call
  // is aborted when the operation or the back-off raises a `BaseException`.
  datatype Phase =
    | Checked
    | Running(invoked: nat)
    | Deciding(invoked: nat, success: bool)
    | Recorded(invoked: nat, success: bool)
    | Aborted(invoked: nat)

  datatype Caller = Caller(key: Ref, phase: Phase)

  // One finished call: how often the operation ran, and what was recorded, if anything.
  datatype Finished = Finished(key: Ref, invoked: nat, recorded: Option<bool>)

  // A recorded success or failure and its time.
  datatype Outcome = Outcome(key: Ref, ok: bool, at: Time)

  // `outcomes` lists every recorded outcome, oldest first.
  datatype World = World(
    now: Time, inFlight: map<Ref, int>, circuits: map<Ref, Circuit>,
    callers: map<nat, Caller>, outcomes: seq<Outcome>, finished: seq<Finished>)

  datatype OperationResult = Success | Retryable | Fatal | Abort

  datatype Event =
    | Enter(caller: nat, key: Ref)
    | Admit(caller: nat)
    | Invoke(caller: nat, result: OperationResult)
    | Interrupt(caller: nat)
    | Record(caller: nat)
    | Leave(caller: nat)
    | Tick(wait: nat)

  function SetPhase(w: World, c: nat, p: Phase): World
    requires c in w.callers
  {
    w.(callers := w.callers[c := w.callers[c].(phase := p)])
  }

  // One atomic section of one caller; an event that does not apply changes nothing.
  function Step(w: World, g: Config, e: Event): World {
    match e
    case Enter(c, key) =>
      if c in w.callers || CircuitOf(w.circuits, key).openUntil > w.now then w
      else w.(callers := w.callers[c := Caller(key, Checked)])
    case Admit(c) =>
      if c in w.callers && w.callers[c].phase.Checked? then
        var (m, ok) := Acquired(w.inFlight, w.callers[c].key, g.limit);
        if ok then SetPhase(w.(inFlight := m), c, Running(0)) else w.(callers := w.callers - {c})
      else w
    case Invoke(c, r) =>
      if c in w.callers && w.callers[c].phase.Running? then
        var n := w.callers[c].phase.invoked + 1;
        if r == Abort then SetPhase(w, c, Aborted(n))
        else if r == Success then SetPhase(w, c, Deciding(n, true))
        else if r == Fatal || n >= g.attempts then SetPhase(w, c, Deciding(n, false))
        else SetPhase(w, c, Running(n))
      else w
    case Interrupt(c) =>
      if c in w.callers && w.callers[c].phase.Running? && w.callers[c].phase.invoked > 0 then
        SetPhase(w, c, Aborted(w.callers[c].phase.invoked))
      else w
    case Record(c) =>
      if c in w.callers && w.callers[c].phase.Deciding? then
        var key, p := w.callers[c].key, w.callers[c].phase;
        var circuits := if p.success then w.circuits - {key}
          else Failed(w.circuits, key, w.now, g.threshold, g.openFor);
        SetPhase(w.(circuits := circuits, outcomes := w.outcomes + [Outcome(key, p.success, w.now)]), c,
          Recorded(p.invoked, p.success))
      else w
    case Leave(c) =>
      if c in w.callers && (w.callers[c].phase.Recorded? || w.callers[c].phase.Aborted?) then
        var key, p := w.callers[c].key, w.callers[c].phase;
        w.(inFlight := Released(w.inFlight, key), callers := w.callers - {c},
           finished := w.finished + [Finished(key, p.invoked, if p.Recorded? then Some(p.success) else None)])
      else w
    case Tick(wait) => w.(now := w.now + wait)
  }

  function Start(now: Time): World {
    World(now, map[], map[], map[], [], [])
  }

  function Run(w: World, g: Config, events: seq<Event>): World {
    if |events| == 0 then w else Step(Run(w, g, events[..|events| - 1]), g, events[|events| - 1])
  }

  // ---- Invariants ----

  function Where(callers: map<nat, Caller>, f: Caller -> bool): set<nat> {
    set c | c in callers && f(callers[c])
  }

  // A caller of `key` between acquire and release.
  function Holds(key: Ref): Caller -> bool {
    (x: Caller) => x.key == key && !x.phase.Checked?
  }

  // A caller of `key` that has recorded this outcome and not yet left.
  function Leaves(key: Ref, ok: bool): Caller -> bool {
    (x: Caller) => x.key == key && x.phase.Recorded? && x.phase.success == ok
  }

  // Recorded failures of `key` since its last recorded success.
  function FailuresSince(outcomes: seq<Outcome>, key: Ref): nat {
    if |outcomes| == 0 then 0
    else
      var x := outcomes[|outcomes| - 1];
      if x.key != key then FailuresSince(outcomes[..|outcomes| - 1], key)
      else if x.ok then 0
      else FailuresSince(outcomes[..|outcomes| - 1], key) + 1
  }

  // When the last outcome of `key` was recorded.
  function LastTime(outcomes: seq<Outcome>, key: Ref): Time {
    if |outcomes| == 0 then 0
    else if outcomes[|outcomes| - 1].key == key then outcomes[|outcomes| - 1].at
    else LastTime(outcomes[..|outcomes| - 1], key)
  }

  ghost predicate BulkheadOk(w: World, g: Config) {
    forall key: Ref :: BulkheadAt(w, g, key)
  }

  ghost predicate BulkheadAt(w: World, g: Config, key: Ref) {
    InFlight(w.inFlight, key) == |Where(w.callers, Holds(key))| <= g.limit
  }

  ghost predicate CircuitsOk(w: World, g: Config) {
    forall key: Ref :: CircuitAt(w, g, key)
  }

  ghost predicate CircuitAt(w: World, g: Config, key: Ref) {
    var circuit, failures := CircuitOf(w.circuits, key), FailuresSince(w.outcomes, key);
    && circuit.failures == failures
    && circuit.openUntil == if failures >= g.threshold then LastTime(w.outcomes, key) + g.openFor else 0
  }

  ghost predicate CallersOk(w: World, g: Config) {
    && (forall c :: c in w.callers ==> match w.callers[c].phase
      case Checked => true
      case Running(n) => n < g.attempts
      case Deciding(n, ok) => 1 <= n <= g.attempts
      case Recorded(n, ok) => 1 <= n <= g.attempts
      case Aborted(n) => 1 <= n <= g.attempts)
    && (forall i :: 0 <= i < |w.finished| ==> 1 <= w.finished[i].invoked <= g.attempts)
  }

  // Recorded outcomes of a key with this result.
  function CountOutcomes(outcomes: seq<Outcome>, key: Ref, ok: bool): nat {
    if |outcomes| == 0 then 0
    else
      var x := outcomes[|outcomes| - 1];
      CountOutcomes(outcomes[..|outcomes| - 1], key, ok) + One(x.key == key && x.ok == ok)
  }

  function CountFinished(finished: seq<Finished>, key: Ref, ok: bool): nat {
    if |finished| == 0 then 0
    else
      var f := finished[|finished| - 1];
      CountFinished(finished[..|finished| - 1], key, ok) + One(f.key == key && f.recorded == Some(ok))
  }

  // Each call that is not aborted records exactly one outcome, and an aborted one none:
  // the recorded outcomes are those of the finished calls and of the callers about to leave.
  ghost predicate RecordsOk(w: World) {
    forall key: Ref, ok: bool :: RecordsAt(w, key, ok)
  }

  ghost predicate RecordsAt(w: World, key: Ref, ok: bool) {
    CountOutcomes(w.outcomes, key, ok) == CountFinished(w.finished, key, ok) + |Where(w.callers, Leaves(key, ok))|
  }

  ghost predicate Inv(w: World, g: Config) {
    w.now >= 0 && BulkheadOk(w, g) && CircuitsOk(w, g) && CallersOk(w, g) && RecordsOk(w)
  }

  function One(b: bool): nat {
    if b then 1 else 0
  }

  lemma WhereSet(callers: map<nat, Caller>, c: nat, x: Caller, f: Caller -> bool)
    ensures |Where(callers[c := x], f)| == |Where(callers, f)| - One(c in callers && f(callers[c])) + One(f(x))
  {
    var before, after := Where(callers, f), Where(callers[c := x], f);
    assert after - {c} == before - {c};
    assert c in before ==> |before - {c}| == |before| - 1;
    assert c in after ==> |after - {c}| == |after| - 1;
    assert c !in before ==> before - {c} == before;
    assert c !in after ==> after - {c} == after;
  }

  lemma WhereDrop(callers: map<nat, Caller>, c: nat, f: Caller -> bool)
    requires c in callers
    ensures |Where(callers - {c}, f)| == |Where(callers, f)| - One(f(callers[c]))
  {
    assert Where(callers - {c}, f) == Where(callers, f) - {c};
  }

  lemma StepBulkhead(w: World, g: Config, e: Event)
    requires BulkheadOk(w, g)
    ensures BulkheadOk(Step(w, g, e), g)
  {
    forall key: Ref ensures BulkheadAt(Step(w, g, e), g, key) {
      StepBulkheadAt(w, g, e, key);
    }
  }

  lemma StepBulkheadAt(w: World, g: Config, e: Event, key: Ref)
    requires BulkheadAt(w, g, key)
    ensures BulkheadAt(Step(w, g, e), g, key)
  {
    hide Where;
    var v := Step(w, g, e);
    if v.callers != w.callers {
      assert !e.Tick?;
      if e.caller in v.callers {
        WhereSet(w.callers, e.caller, v.callers[e.caller], Holds(key));
      } else {
        WhereDrop(w.callers, e.caller, Holds(key));
      }
    }
  }

  lemma FailuresAppend(outcomes: seq<Outcome>, x: Outcome, key: Ref)
    ensures FailuresSince(outcomes + [x], key)
      == if x.key != key then FailuresSince(outcomes, key) else if x.ok then 0 else FailuresSince(outcomes, key) + 1
    ensures LastTime(outcomes + [x], key) == if x.key == key then x.at else LastTime(outcomes, key)
  {
    assert (outcomes + [x])[..|outcomes|] == outcomes;
  }

  lemma OutcomesAppend(outcomes: seq<Outcome>, x: Outcome, key: Ref, ok: bool)
    ensures CountOutcomes(outcomes + [x], key, ok) == CountOutcomes(outcomes, key, ok) + One(x.key == key && x.ok == ok)
  {
    assert (outcomes + [x])[..|outcomes|] == outcomes;
  }

  lemma FinishedAppend(finished: seq<Finished>, x: Finished, key: Ref, ok: bool)
    ensures CountFinished(finished + [x], key, ok) == CountFinished(finished, key, ok) +
      One(x.key == key && x.recorded == Some(ok))
  {
    assert (finished + [x])[..|finished|] == finished;
  }

  lemma StepCircuits(w: World, g: Config, e: Event)
    requires CircuitsOk(w, g) && w.now >= 0 && ConfigOk(g)
    ensures CircuitsOk(Step(w, g, e), g)
  {
    forall key: Ref ensures CircuitAt(Step(w, g, e), g, key) {
      assert CircuitAt(w, g, key);
      StepCircuitAt(w, g, e, key);
    }
  }

  lemma StepCircuitAt(w: World, g: Config, e: Event, key: Ref)
    requires CircuitAt(w, g, key) && w.now >= 0 && ConfigOk(g)
    ensures CircuitAt(Step(w, g, e), g, key)
  {
    hide FailuresSince, LastTime;
    var v := Step(w, g, e);
    if |v.outcomes| > |w.outcomes| {
      FailuresAppend(w.outcomes, v.outcomes[|w.outcomes|], key);
    }
  }

  lemma StepRecords(w: World, g: Config, e: Event)
    requires RecordsOk(w)
    ensures RecordsOk(Step(w, g, e))
  {
    forall key: Ref, ok: bool ensures RecordsAt(Step(w, g, e), key, ok) {
      StepRecordsAt(w, g, e, key, ok);
    }
  }

  lemma StepRecordsAt(w: World, g: Config, e: Event, key: Ref, ok: bool)
    requires RecordsAt(w, key, ok)
    ensures RecordsAt(Step(w, g, e), key, ok)
  {
    hide Where, CountOutcomes, CountFinished;
    var v := Step(w, g, e);
    if |v.outcomes| > |w.outcomes| { OutcomesAppend(w.outcomes, v.outcomes[|w.outcomes|], key, ok); }
    if |v.finished| > |w.finished| { FinishedAppend(w.finished, v.finished[|w.finished|], key, ok); }
    if v.callers != w.callers {
      assert !e.Tick?;
      if e.caller in v.callers {
        WhereSet(w.callers, e.caller, v.callers[e.caller], Leaves(key, ok));
      } else {
        WhereDrop(w.callers, e.caller, Leaves(key, ok));
      }
    }
  }

  lemma StepCallers(w: World, g: Config, e: Event)
    requires CallersOk(w, g) && ConfigOk(g)
    ensures CallersOk(Step(w, g, e), g)
  {}

  // However the callers interleave: the in-flight count is the number of admitted
  // callers and within the limit, also when calls are aborted; each admitted call invokes
  // the operation between once and the configured attempts and records one outcome unless
  // it was aborted; a circuit counts the failures since the last success, and from the
  // threshold on it is open for the configured time after the last one.
  lemma {:induction false} RunKeeps(now: Time, g: Config, events: seq<Event>)
    requires now >= 0 && ConfigOk(g)
    ensures Inv(Run(Start(now), g, events), g)
  {
    if |events| == 0 {
      StartOk(now, g);
    } else {
      hide Step, BulkheadOk, CircuitsOk, CallersOk, RecordsOk, ConfigOk;
      var w, e := Run(Start(now), g, events[..|events| - 1]), events[|events| - 1];
      RunKeeps(now, g, events[..|events| - 1]);
      StepClock(w, g, e);
      StepBulkhead(w, g, e);
      StepCircuits(w, g, e);
      StepCallers(w, g, e);
      StepRecords(w, g, e);
    }
  }

  lemma StepClock(w: World, g: Config, e: Event)
    ensures Step(w, g, e).now >= w.now
  {}

  lemma StartOk(now: Time, g: Config)
    requires now >= 0 && ConfigOk(g)
    ensures Inv(Start(now), g)
  {
    forall f ensures Where(Start(now).callers, f) == {} {}
  }

  // ---- What a caller meets, told from the outcomes and callers alone ----

  // Outcome `i` is the last of `key`, a failure that brings the failures since the last
  // success to the threshold, and the circuit's time since then is not over.
  ghost predicate Blocks(outcomes: seq<Outcome>, g: Config, key: Ref, now: Time, i: nat)
    requires i < |outcomes|
  {
    && outcomes[i].key == key && !outcomes[i].ok
    && (forall j :: i < j < |outcomes| ==> outcomes[j].key != key)
    && FailuresSince(outcomes, key) >= g.threshold && now < outcomes[i].at + g.openFor
  }

  lemma {:induction false} LastOutcome(outcomes: seq<Outcome>, key: Ref, i: nat)
    requires i < |outcomes| && outcomes[i].key == key
    requires forall j :: i < j < |outcomes| ==> outcomes[j].key != key
    ensures LastTime(outcomes, key) == outcomes[i].at
    ensures FailuresSince(outcomes, key) > 0 <==> !outcomes[i].ok
  {
    var n := |outcomes| - 1;
    if i < n {
      LastOutcome(outcomes[..n], key, i);
    }
  }

  lemma {:induction false} FailureRecorded(outcomes: seq<Outcome>, key: Ref) returns (i: nat)
    requires FailuresSince(outcomes, key) > 0
    ensures i < |outcomes| && outcomes[i].key == key && !outcomes[i].ok
    ensures forall j :: i < j < |outcomes| ==> outcomes[j].key != key
  {
    i := |outcomes| - 1;
    if outcomes[i].key != key {
      var init := outcomes[..i];
      i := FailureRecorded(init, key);
      assert forall j :: i < j < |init| ==> outcomes[j] == init[j];
    }
  }

  // After any interleaving, a new caller is refused if and only if the last recorded outcome
  // of its key is a failure that brought the failures since the last success to the
  // threshold, and the circuit's time since that outcome is not over. From then on, and after
  // a success, entering works.
  lemma EnterExact(now: Time, g: Config, events: seq<Event>, c: nat, key: Ref)
    requires now >= 0 && ConfigOk(g)
    ensures
      var w := Run(Start(now), g, events);
      c !in w.callers ==>
      var v := Step(w, g, Enter(c, key));
      if exists i :: 0 <= i < |w.outcomes| && Blocks(w.outcomes, g, key, w.now, i) then v == w
      else v == w.(callers := w.callers[c := Caller(key, Checked)])
  {
    hide Run, FailuresSince, LastTime, BulkheadOk, CallersOk, RecordsOk;
    RunKeeps(now, g, events);
    var w := Run(Start(now), g, events);
    assert CircuitAt(w, g, key);
    if FailuresSince(w.outcomes, key) >= g.threshold {
      var i := FailureRecorded(w.outcomes, key);
      LastOutcome(w.outcomes, key, i);
      assert w.now < w.outcomes[i].at + g.openFor ==> Blocks(w.outcomes, g, key, w.now, i);
    }
  }

  // A caller past the circuit is admitted if and only if fewer than the limit of its key's
  // callers are admitted already; else it goes away.
  lemma AdmitExact(now: Time, g: Config, events: seq<Event>, c: nat)
    requires now >= 0 && ConfigOk(g)
    ensures
      var w := Run(Start(now), g, events);
      c in w.callers && w.callers[c].phase.Checked? ==>
      var v, key := Step(w, g, Admit(c)), w.callers[c].key;
      v.outcomes == w.outcomes && v.circuits == w.circuits && v.callers ==
        if |Where(w.callers, Holds(key))| < g.limit then w.callers[c := Caller(key, Running(0))] else w.callers - {c}
  {
    hide Run, Where, CircuitsOk, CallersOk, RecordsOk;
    RunKeeps(now, g, events);
    var w := Run(Start(now), g, events);
    if c in w.callers { assert BulkheadAt(w, g, w.callers[c].key); }
  }

  // The events of caller `c` are invocations only; other callers do anything.
  predicate InvokesOnly(events: seq<Event>, c: nat) {
    forall i :: 0 <= i < |events| ==> events[i].Tick? || events[i].caller != c || events[i].Invoke?
  }

  // What the operation answered caller `c`.
  function ResultsOf(events: seq<Event>, c: nat): seq<OperationResult> {
    if |events| == 0 then []
    else
      var e := events[|events| - 1];
      ResultsOf(events[..|events| - 1], c) + if e.Invoke? && e.caller == c then [e.result] else []
  }

  predicate AllRetryable(results: seq<OperationResult>) {
    forall i :: 0 <= i < |results| ==> results[i] == Retryable
  }

  // The phase that answers to a call's invocations lead to.
  predicate Answers(p: Phase, results: seq<OperationResult>, attempts: nat) {
    match p
    case Running(n) => n == |results| < attempts && AllRetryable(results)
    case Deciding(n, ok) =>
      && 1 <= n <= |results| && AllRetryable(results[..n - 1]) && results[n - 1] != Abort
      && ok == (results[n - 1] == Success) && (results[n - 1] == Retryable ==> n == attempts)
    case Aborted(n) => 1 <= n <= |results| && AllRetryable(results[..n - 1]) && results[n - 1] == Abort
    case _ => false
  }

  // An admitted caller invokes the operation again exactly after retryable failures while
  // attempts are left, whatever other callers do meanwhile; it succeeds exactly when the
  // deciding answer is a success.
  lemma {:induction false} CallerDecides(w: World, g: Config, c: nat, events: seq<Event>)
    requires ConfigOk(g) && c in w.callers && w.callers[c].phase == Running(0) && InvokesOnly(events, c)
    ensures
      var v := Run(w, g, events);
      c in v.callers && v.callers[c].key == w.callers[c].key
        && Answers(v.callers[c].phase, ResultsOf(events, c), g.attempts)
  {
    if |events| > 0 {
      var init, e := events[..|events| - 1], events[|events| - 1];
      CallerDecides(w, g, c, init);
      var v, results := Run(w, g, init), ResultsOf(init, c);
      hide Run, ResultsOf;
      if e.Invoke? && e.caller == c {
        AnswerStep(v, g, c, results, e.result);
      } else {
        hide Answers;
        OtherCallers(v, g, c, e);
      }
      RunLast(w, g, c, events);
    }
  }

  lemma RunLast(w: World, g: Config, c: nat, events: seq<Event>)
    requires |events| > 0
    ensures
      var init, e := events[..|events| - 1], events[|events| - 1];
      && Run(w, g, events) == Step(Run(w, g, init), g, e)
      && ResultsOf(events, c) == ResultsOf(init, c) + if e.Invoke? && e.caller == c then [e.result] else []
  {}

  // The phase one more answer leads to.
  function NextPhase(p: Phase, r: OperationResult, attempts: nat): Phase {
    if !p.Running? then p
    else if r == Abort then Aborted(p.invoked + 1)
    else if r == Success then Deciding(p.invoked + 1, true)
    else if r == Fatal || p.invoked + 1 >= attempts then Deciding(p.invoked + 1, false)
    else Running(p.invoked + 1)
  }

  lemma AnswerNext(p: Phase, results: seq<OperationResult>, r: OperationResult, attempts: nat)
    requires Answers(p, results, attempts)
    ensures Answers(NextPhase(p, r, attempts), results + [r], attempts)
  {
    var more := results + [r];
    match p {
      case Running(n) =>
        assert more[..n] == results && more[n] == r;
        assert AllRetryable(more) <==> r == Retryable by {
          assert forall i :: 0 <= i < n ==> more[i] == results[i];
        }
      case Deciding(n, ok) => assert more[..n - 1] == results[..n - 1] && more[n - 1] == results[n - 1];
      case Aborted(n) => assert more[..n - 1] == results[..n - 1] && more[n - 1] == results[n - 1];
    }
  }

  lemma InvokePhase(w: World, g: Config, c: nat, r: OperationResult)
    requires c in w.callers
    ensures
      var v := Step(w, g, Invoke(c, r));
      c in v.callers && v.callers[c] == Caller(w.callers[c].key, NextPhase(w.callers[c].phase, r, g.attempts))
  {}

  lemma AnswerStep(w: World, g: Config, c: nat, results: seq<OperationResult>, r: OperationResult)
    requires c in w.callers && Answers(w.callers[c].phase, results, g.attempts)
    ensures
      var v := Step(w, g, Invoke(c, r));
      c in v.callers && v.callers[c].key == w.callers[c].key
        && Answers(v.callers[c].phase, results + [r], g.attempts)
  {
    hide Answers;
    AnswerNext(w.callers[c].phase, results, r, g.attempts);
    InvokePhase(w, g, c, r);
    hide Step, NextPhase;
  }

  lemma OtherCallers(w: World, g: Config, c: nat, e: Event)
    requires c in w.callers && (e.Tick? || e.caller != c)
    ensures c in Step(w, g, e).callers && Step(w, g, e).callers[c] == w.callers[c]
  {}

  // ---- The executor object, one call at a time ----

  // The operation's results decide the call at the first success, the first failure that
  // may not be retried, or the last attempt.
  function Decides(results: seq<OperationResult>, attempts: nat): (n: nat)
    requires 0 < attempts <= |results|
    ensures 1 <= n <= attempts
    ensures forall i :: 0 <= i < n - 1 ==> results[i] == Retryable
    ensures n < attempts ==> results[n - 1] != Retryable
  {
    if attempts == 1 || results[0] != Retryable then 1 else 1 + Decides(results[1..], attempts - 1)
  }

  datatype CallOutcome = CircuitOpen | BulkheadFull | Done(attempts: nat, success: bool) | AbortedAt(attempts: nat)

  class ProviderExecutor {
    const config: Config
    var inFlight: map<Ref, int>
    var circuits: map<Ref, Circuit>

    method EnsureCircuitClosed(key: Ref, now: Time) returns (closed: bool)
      ensures closed <==> CircuitOf(circuits, key).openUntil <= now
    {
      var openUntil := if key in circuits then circuits[key].openUntil else 0;
      closed := !(openUntil > now);
    }

    method AcquireBulkhead(key: Ref) returns (admitted: bool)
      modifies this`inFlight
      ensures (inFlight, admitted) == Acquired(old(inFlight), key, config.limit)
      ensures admitted <==> InFlight(old(inFlight), key) < config.limit
      ensures InFlight(inFlight, key) == InFlight(old(inFlight), key) + One(admitted)
      ensures forall k: Ref :: k != key ==> InFlight(inFlight, k) == InFlight(old(inFlight), k)
    {
      var current := if key in inFlight then inFlight[key] else 0;
      admitted := current < config.limit;
      if admitted { inFlight := inFlight[key := current + 1]; }
    }

    method ReleaseBulkhead(key: Ref)
      modifies this`inFlight
      ensures inFlight == Released(old(inFlight), key)
      ensures InFlight(inFlight, key) == Max(0, InFlight(old(inFlight), key) - 1)
      ensures forall k: Ref :: k != key ==> InFlight(inFlight, k) == InFlight(old(inFlight), k)
    {
      var current := (if key in inFlight then inFlight[key] else 0) - 1;
      inFlight := if current <= 0 then inFlight - {key} else inFlight[key := current];
    }

    method RecordSuccess(key: Ref)
      modifies this`circuits
      ensures circuits == old(circuits) - {key}
    {
      circuits := circuits - {key};
    }

    method RecordFailure(key: Ref, now: Time)
      modifies this`circuits
      ensures circuits == Failed(old(circuits), key, now, config.threshold, config.openFor)
      ensures CircuitOf(circuits, key).failures == CircuitOf(old(circuits), key).failures + 1
      ensures ConfigOk(config) && now >= 0 ==>
        (CircuitOf(circuits, key).openUntil > now <==> CircuitOf(circuits, key).failures >= config.threshold)
      ensures forall k: Ref :: k != key ==> CircuitOf(circuits, k) == CircuitOf(old(circuits), k)
    {
      var failures := (if key in circuits then circuits[key].failures else 0) + 1;
      circuits := circuits[key := Circuit(failures, if failures >= config.threshold then now + config.openFor else 0)];
    }

    // `_execute` of one caller; `results` are what the operation does when invoked.
    method Execute(key: Ref, results: seq<OperationResult>, now: Time) returns (r: CallOutcome)
      requires ConfigOk(config) && config.attempts <= |results| && now >= 0
      requires key in inFlight ==> inFlight[key] > 0
      modifies this
      ensures inFlight == old(inFlight)
      ensures r == CircuitOpen <==> CircuitOf(old(circuits), key).openUntil > now
      ensures r == BulkheadFull <==>
        CircuitOf(old(circuits), key).openUntil <= now && InFlight(old(inFlight), key) >= config.limit
      ensures match r
        case CircuitOpen => circuits == old(circuits)
        case BulkheadFull => circuits == old(circuits)
        case AbortedAt(n) =>
          n == Decides(results, config.attempts) && results[n - 1] == Abort && circuits == old(circuits)
        case Done(n, ok) =>
          && n == Decides(results, config.attempts) && results[n - 1] != Abort && ok == (results[n - 1] == Success)
          && circuits == if ok then old(circuits) - {key}
            else Failed(old(circuits), key, now, config.threshold, config.openFor)
    {
      var closed := EnsureCircuitClosed(key, now);
      if !closed { return CircuitOpen; }
      var admitted := AcquireBulkhead(key);
      if !admitted { return BulkheadFull; }
      var attempt := 1;
      while attempt < config.attempts && results[attempt - 1] == Retryable
        invariant 1 <= attempt <= config.attempts
        invariant forall i :: 0 <= i < attempt - 1 ==> results[i] == Retryable
      {
        attempt := attempt + 1;
      }
      if results[attempt - 1] == Success {
        RecordSuccess(key);
      } else if results[attempt - 1] != Abort {
        RecordFailure(key, now);
      }
      ReleaseBulkhead(key);
      if results[attempt - 1] == Abort { return AbortedAt(attempt); }
      return Done(attempt, results[attempt - 1] == Success);
    }
  }
}
