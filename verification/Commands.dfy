/** Idempotent administrative commands: a command that completed under a key is never
carried out again. `exec` is what a command does, `hash` the digest of its payload, and
`world` everything else that happens between commands. */
module Commands {
  import opened Prelude

  // The unique key of a command row.
  datatype Slot = Slot(actor: Ref, kind: Ref, key: Ref)

  datatype Row = Row(hash: Ref, completed: bool, resource: Option<Ref>)

  datatype Store<S> = Store(state: S, commands: map<Slot, Row>)

  datatype Event<P, C> = Call(slot: Slot, payload: P) | Outside(change: C)

  datatype Service<!S, !P, !C> = Service(
    exec: (S, Slot, P) -> Result<(S, Ref)>, hash: P -> Ref, world: (S, C) -> S)

  // `_command`: the table and whether the call is a replay.
  function Begin(commands: map<Slot, Row>, slot: Slot, hash: Ref): (r: Result<(map<Slot, Row>, bool)>)
    ensures r.Ok? ==> slot in r.value.0
  {
    if slot in commands then
      if commands[slot].hash != hash then Err(IdempotencyKeyReused)
      else if !commands[slot].completed then Err(CommandInProgress)
      else Ok((commands, true))
    else Ok((commands[slot := Row(hash, false, None)], false))
  }

  // `_complete_command`
  function Complete(commands: map<Slot, Row>, slot: Slot, resource: Ref): map<Slot, Row>
    requires slot in commands
  {
    commands[slot := commands[slot].(completed := true, resource := Some(resource))]
  }

  // One call: it commits, or it fails and leaves the store as it was. A replay answers
  // with the resource of the first call.
  function Handle<S, P, C>(v: Service<S, P, C>, s: Store<S>, slot: Slot, payload: P): (Store<S>, Result<Option<Ref>>) {
    match Begin(s.commands, slot, v.hash(payload))
    case Err(e) => (s, Err(e))
    case Ok((commands, replay)) =>
      if replay then (s, Ok(commands[slot].resource))
      else match v.exec(s.state, slot, payload)
        case Err(e) => (s, Err(e))
        case Ok((state, resource)) =>
          (Store(state, Complete(commands, slot, resource)), Ok(Some(resource)))
  }

  function Step<S, P, C>(v: Service<S, P, C>, s: Store<S>, e: Event<P, C>): Store<S> {
    match e
    case Call(slot, payload) => Handle(v, s, slot, payload).0
    case Outside(change) => s.(state := v.world(s.state, change))
  }

  function Run<S, P, C>(v: Service<S, P, C>, s: Store<S>, es: seq<Event<P, C>>): Store<S> {
    if |es| == 0 then s else Step(v, Run(v, s, es[..|es| - 1]), es[|es| - 1])
  }

  ghost predicate AllCompleted<S>(s: Store<S>) {
    forall slot :: slot in s.commands ==> s.commands[slot].completed && s.commands[slot].resource.Some?
  }

  // A first call does what its command does: a refusal changes nothing, and a success commits
  // the command's effect with a row of its payload's hash and its resource. Any later call
  // of the slot is answered from the row.
  lemma CallExact<S, P, C>(v: Service<S, P, C>, s: Store<S>, slot: Slot, payload: P)
    requires slot in s.commands ==> AllCompleted(s)
    ensures
      var out := Handle(v, s, slot, payload);
      if slot in s.commands then
        out == (s, if s.commands[slot].hash == v.hash(payload) then Ok(s.commands[slot].resource)
                   else Err(IdempotencyKeyReused))
      else
        match v.exec(s.state, slot, payload)
        case Err(e) => out == (s, Err(e))
        case Ok((state, resource)) =>
          out == (Store(state, s.commands[slot := Row(v.hash(payload), true, Some(resource))]), Ok(Some(resource)))
  {
    if slot !in s.commands {
      match v.exec(s.state, slot, payload) {
        case Err(e) =>
        case Ok((state, resource)) =>
          var row := Row(v.hash(payload), false, None);
          assert s.commands[slot := row][slot := row.(completed := true, resource := Some(resource))] ==
            s.commands[slot := row.(completed := true, resource := Some(resource))];
      }
    }
  }

  // Only completed commands are ever committed, and a committed row never changes.
  lemma {:induction false} RowsKept<S, P, C>(v: Service<S, P, C>, s: Store<S>, es: seq<Event<P, C>>)
    requires AllCompleted(s)
    ensures AllCompleted(Run(v, s, es))
    ensures forall slot :: slot in s.commands ==>
      slot in Run(v, s, es).commands && Run(v, s, es).commands[slot] == s.commands[slot]
  {
    if |es| > 0 { RowsKept(v, s, es[..|es| - 1]); }
  }

  // No call is ever told that its command is still in progress.
  lemma {:induction false} NeverInProgress<S, P, C>(v: Service<S, P, C>, init: S, es: seq<Event<P, C>>, slot: Slot,
      payload: P)
    requires forall s, l, p :: v.exec(s, l, p) != Err(CommandInProgress)
    ensures Handle(v, Run(v, Store(init, map[]), es), slot, payload).1 != Err(CommandInProgress)
  {
    RowsKept(v, Store(init, map[]), es);
  }

  // After a call completed, whatever happens since: the same payload is answered with the
  // same resource, another payload is refused, and neither changes anything.
  lemma RepeatAnswered<S, P, C>(v: Service<S, P, C>, s: Store<S>, slot: Slot, first: P, es: seq<Event<P, C>>, again: P)
    requires AllCompleted(s) && Handle(v, s, slot, first).1.Ok?
    ensures
      var later := Run(v, Handle(v, s, slot, first).0, es);
      Handle(v, later, slot, again) ==
        (later, if v.hash(again) == v.hash(first) then Handle(v, s, slot, first).1 else Err(IdempotencyKeyReused))
  {
    RowsKept(v, Handle(v, s, slot, first).0, es);
  }

  // ---- Collapsing repeats ----

  // A call whose slot stays as it is changes nothing; no call touches another slot.
  lemma CallEffect<S, P, C>(v: Service<S, P, C>, s: Store<S>, e: Event<P, C>)
    ensures e.Call? && (e.slot in s.commands || e.slot !in Step(v, s, e).commands) ==> Step(v, s, e) == s
    ensures s.commands.Keys <= Step(v, s, e).commands.Keys
    ensures forall slot :: slot in Step(v, s, e).commands && slot !in s.commands ==> e.Call? && e.slot == slot
  {}

  // The events without the calls whose slot was already completed.
  function Collapsed<S, P, C>(v: Service<S, P, C>, s: Store<S>, es: seq<Event<P, C>>): seq<Event<P, C>> {
    if |es| == 0 then []
    else
      var init, e := es[..|es| - 1], es[|es| - 1];
      Collapsed(v, s, init) + if e.Call? && e.slot in Run(v, s, init).commands then [] else [e]
  }

  // Repeats of completed commands have no effect on the run.
  lemma {:induction false} RepeatsCollapse<S, P, C>(v: Service<S, P, C>, s: Store<S>, es: seq<Event<P, C>>)
    ensures Run(v, s, es) == Run(v, s, Collapsed(v, s, es))
  {
    if |es| > 0 {
      var init, e := es[..|es| - 1], es[|es| - 1];
      var c := Collapsed(v, s, init);
      RepeatsCollapse(v, s, init);
      CallEffect(v, Run(v, s, init), e);
      assert (c + [e])[..|c + [e]| - 1] == c;
      assert c + [] == c;
    }
  }

  predicate Calls<P, C>(es: seq<Event<P, C>>, slot: Slot) {
    exists i :: 0 <= i < |es| && es[i].Call? && es[i].slot == slot
  }

  // The events with only the first call of every slot.
  function FirstCalls<P, C>(es: seq<Event<P, C>>): seq<Event<P, C>> {
    if |es| == 0 then []
    else
      var init, e := es[..|es| - 1], es[|es| - 1];
      FirstCalls(init) + if e.Call? && Calls(init, e.slot) then [] else [e]
  }

  // Call `i` completes its slot.
  predicate CompletesAt<S, P, C>(v: Service<S, P, C>, s: Store<S>, es: seq<Event<P, C>>, i: nat)
    requires i < |es|
  {
    var e, before := es[i], Run(v, s, es[..i]);
    e.Call? && e.slot !in before.commands && e.slot in Step(v, before, e).commands
  }

  // Every command that completes does so at the first call of its slot.
  ghost predicate FirstTry<S, P, C>(v: Service<S, P, C>, s: Store<S>, es: seq<Event<P, C>>) {
    forall i :: 0 <= i < |es| && CompletesAt(v, s, es, i) ==> !Calls(es[..i], es[i].slot)
  }

  lemma {:induction false} CompletedWasCalled<S, P, C>(v: Service<S, P, C>, s: Store<S>, es: seq<Event<P, C>>,
      slot: Slot)
    requires slot in Run(v, s, es).commands && slot !in s.commands
    ensures Calls(es, slot)
  {
    var n := |es| - 1;
    if slot in Run(v, s, es[..n]).commands {
      CompletedWasCalled(v, s, es[..n], slot);
      var i :| 0 <= i < n && es[..n][i].Call? && es[..n][i].slot == slot;
      assert es[i].slot == slot;
    } else {
      assert es[n].Call? && es[n].slot == slot;
    }
  }

  lemma FirstTrySplit<S, P, C>(v: Service<S, P, C>, s: Store<S>, es: seq<Event<P, C>>)
    requires |es| > 0
    ensures
      var n := |es| - 1;
      FirstTry(v, s, es) <==> FirstTry(v, s, es[..n]) && (CompletesAt(v, s, es, n) ==> !Calls(es[..n], es[n].slot))
  {
    var n := |es| - 1;
    var init := es[..n];
    assert forall i :: 0 <= i < n ==> init[..i] == es[..i];
    assert forall i :: 0 <= i < n ==> CompletesAt(v, s, init, i) == CompletesAt(v, s, es, i);
  }

  ghost predicate Loses<S>(s: Store<S>, t: Store<S>) {
    exists slot :: slot in s.commands && slot !in t.commands
  }

  lemma {:induction false} FirstCallsTrace<S, P, C>(v: Service<S, P, C>, s: Store<S>, es: seq<Event<P, C>>)
    requires s.commands == map[]
    ensures FirstTry(v, s, es) ==> Run(v, s, es) == Run(v, s, FirstCalls(es))
    ensures !FirstTry(v, s, es) ==> Loses(Run(v, s, es), Run(v, s, FirstCalls(es)))
  {
    if |es| > 0 {
      hide Step, FirstTry, Calls;
      var n := |es| - 1;
      var init, e := es[..n], es[n];
      var was, first := Run(v, s, init), FirstCalls(init);
      FirstTrySplit(v, s, es);
      FirstCallsTrace(v, s, init);
      CallEffect(v, was, e);
      CallEffect(v, Run(v, s, first), e);
      assert (first + [e])[..|first + [e]| - 1] == first;
      assert first + [] == first;
      if !FirstTry(v, s, init) {
        var slot :| slot in was.commands && slot !in Run(v, s, first).commands;
        CompletedWasCalled(v, s, init, slot);
        assert slot in Step(v, was, e).commands;
      }
    }
  }

  // Dropping every later call of a slot preserves the final store if and only if no
  // command failed at first and completed on a later try.
  lemma FirstCallsExact<S, P, C>(v: Service<S, P, C>, s: Store<S>, es: seq<Event<P, C>>)
    requires s.commands == map[]
    ensures Run(v, s, es) == Run(v, s, FirstCalls(es)) <==> FirstTry(v, s, es)
  {
    FirstCallsTrace(v, s, es);
  }

  // A command that is refused until the balance covers it, and a world that pays in.
  function Take(balance: int, slot: Slot, need: nat): Result<(int, Ref)> {
    if balance < need then Err(AdjustmentExceedsBalance) else Ok((balance - need, slot.key))
  }

  function Waiting(): Service<int, nat, nat> {
    Service(Take, need => need, (balance, paid) => balance + paid)
  }

  function Retried(slot: Slot): seq<Event<nat, nat>> {
    [Call(slot, 1), Outside(1), Call(slot, 1)]
  }

  lemma RunThree<S, P, C>(v: Service<S, P, C>, s: Store<S>, e: Event<P, C>, f: Event<P, C>, g: Event<P, C>)
    ensures Run(v, s, [e, f]) == Step(v, Step(v, s, e), f)
    ensures Run(v, s, [e, f, g]) == Step(v, Step(v, Step(v, s, e), f), g)
  {
    assert [e][..0] == [] && Run(v, s, []) == s;
    assert [e, f][..1] == [e] && Run(v, s, [e]) == Step(v, s, e);
    assert [e, f, g][..2] == [e, f];
  }

  // Such runs exist: the first try is refused, credits arrive, the second try completes.
  // Without the second try nothing is ever taken.
  lemma RetryMatters(slot: Slot)
    ensures
      var v, s, es := Waiting(), Store(0, map[]), Retried(slot);
      && !FirstTry(v, s, es)
      && slot in Run(v, s, es).commands && Run(v, s, es).state == 0
      && slot !in Run(v, s, FirstCalls(es)).commands && Run(v, s, FirstCalls(es)).state == 1
  {
    var v, s, es := Waiting(), Store(0, map[]), Retried(slot);
    RunThree(v, s, es[0], es[1], es[2]);
    assert FirstCalls(es) == [es[0], es[1]] by {
      assert es[..2] == [es[0], es[1]] && es[..2][..1] == [es[0]] && es[..1][..0] == [];
      assert es[..2][..1] == es[..1] && Calls(es[..2], slot) by { assert es[..2][0].slot == slot; }
      assert FirstCalls(es[..1]) == [es[0]];
      assert FirstCalls(es[..2]) == [es[0], es[1]];
    }
    FirstCallsExact(v, s, es);
  }

  // ---- The command table ----

  ghost predicate SameElsewhere(commands: map<Slot, Row>, next: map<Slot, Row>, slot: Slot) {
    forall other :: other != slot ==>
      (other in commands <==> other in next) && (other in commands && other in next ==> next[other] == commands[other])
  }

  class CommandTable {
    var commands: map<Slot, Row>

    constructor ()
      ensures commands == map[]
    {
      commands := map[];
    }

    method Command(slot: Slot, hash: Ref) returns (r: Result<bool>)
      modifies this
      ensures match Begin(old(commands), slot, hash)
        case Ok((next, replay)) => r == Ok(replay) && commands == next
        case Err(e) => r == Err(e) && commands == old(commands)
      ensures r != Ok(false) ==> commands == old(commands)
      ensures r == Ok(true) ==> slot in commands && commands[slot].hash == hash && commands[slot].completed
      ensures r == Ok(false) ==>
        && slot !in old(commands) && slot in commands && commands[slot].hash == hash && !commands[slot].completed
        && SameElsewhere(old(commands), commands, slot)
    {
      if slot in commands {
        var existing := commands[slot];
        if existing.hash != hash { return Err(IdempotencyKeyReused); }
        if !existing.completed { return Err(CommandInProgress); }
        return Ok(true);
      }
      commands := commands[slot := Row(hash, false, None)];
      return Ok(false);
    }

    method CompleteCommand(slot: Slot, resource: Ref)
      requires slot in commands
      modifies this
      ensures commands == Complete(old(commands), slot, resource)
      ensures slot in commands && commands[slot] == Row(old(commands)[slot].hash, true, Some(resource))
      ensures SameElsewhere(old(commands), commands, slot)
    {
      commands := commands[slot := commands[slot].(completed := true)];
      commands := commands[slot := commands[slot].(resource := Some(resource))];
    }
  }
}
