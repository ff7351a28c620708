/** The adjustment endpoints as idempotent commands over the billing state machine: one key
makes one adjustment, however often it is sent and whatever happens in between. */
module AdjustmentCommands {
  import opened Prelude
  import opened Ledger
  import opened LedgerInvariants
  import opened Billing
  import opened BillingLaws
  import opened Guarantees
  import opened CreditOps
  import Commands
  import Inbox

  // The payload of a command; the adjustment it decides is part of the command's type.
  datatype Payload =
    | RequestIt(target: Ref, amount: int, dual: bool)
    | ApproveIt(adjustment: nat)
    | RejectIt(adjustment: nat)

  function KindOf(p: Payload): Ref {
    match p
    case RequestIt(_, _, _) => 0
    case ApproveIt(n) => 2 * n + 1
    case RejectIt(n) => 2 * n + 2
  }

  function OpOf(actor: Ref, p: Payload): Op {
    match p
    case RequestIt(target, amount, dual) => RequestOp(actor, target, amount, dual)
    case ApproveIt(n) => ApproveOp(n, actor)
    case RejectIt(n) => RejectOp(n, actor)
  }

  // The adjustment a command made or decided.
  function Resource(s: State, p: Payload): nat {
    match p
    case RequestIt(_, _, _) => |s.adjustments|
    case ApproveIt(n) => n
    case RejectIt(n) => n
  }

  function Carry(s: State, slot: Commands.Slot, p: Payload): Result<(State, Ref)> {
    var next :- Execute(s, OpOf(slot.actor, p));
    Ok((next, Resource(s, p)))
  }

  function Endpoints(hash: Payload -> Ref): Commands.Service<State, Payload, Timed> {
    Commands.Service(Carry, hash, (s: State, t: Timed) => Step(s, t.wait, t.op))
  }

  predicate DecidesAdjustments(op: Op) {
    op.RequestOp? || op.ApproveOp? || op.RejectOp?
  }

  // Calls use their own command type, and adjustments are only touched by commands.
  predicate WellRouted(e: Commands.Event<Payload, Timed>) {
    match e
    case Call(slot, p) => slot.kind == KindOf(p)
    case Outside(t) => !DecidesAdjustments(t.op)
  }

  predicate IsRequest(slot: Commands.Slot) {
    slot.kind == 0
  }

  // ---- Operations that are not commands leave the adjustments alone ----

  lemma ReserveTables(s: State, user: Ref, verified: bool, policy: Option<Policy>, quote: Quote, minutes: nat,
                      reference: Reference, expires: Option<Time>)
    requires Reserve(s, user, verified, policy, quote, minutes, reference, expires).Ok?
    ensures Reserve(s, user, verified, policy, quote, minutes, reference, expires).value.adjustments == s.adjustments
    ensures Reserve(s, user, verified, policy, quote, minutes, reference, expires).value.clock == s.clock
  {
    hide GrantBook, ReserveBook, FindReference;
  }

  lemma ViewTables(s: State, user: Ref, verified: bool, policy: Option<Policy>)
    requires View(s, user, verified, policy).Ok?
    ensures View(s, user, verified, policy).value.adjustments == s.adjustments
    ensures View(s, user, verified, policy).value.clock == s.clock
  {
    hide GrantBook, ExpireBuckets;
  }

  lemma OtherTables(s: State, op: Op)
    requires !DecidesAdjustments(op) && Execute(s, op).Ok?
    ensures Execute(s, op).value.adjustments == s.adjustments
  {
    hide Reserve, View, CaptureBook, ReleaseBook, RefundBook, ApplyEvent, OriginOk, KeepsPeriod;
    match op {
      case ReserveOp(user, verified, policy, quote, minutes, reference, expires) =>
        ReserveTables(s, user, verified, policy, quote, minutes, reference, expires);
      case ViewOp(user, verified, policy) => ViewTables(s, user, verified, policy);
      case FinishOp(id, event, origin) =>
        if ApplyEvent(s, id, event, origin).Ok? { Inbox.AppliedKeepsInbox(s, id, event, origin); }
      case _ =>
    }
  }

  // A step takes the time before it and no more, and a refused one changes nothing else.
  lemma StepTime(s: State, wait: nat, op: Op)
    ensures Step(s, wait, op).clock == s.clock + wait
    ensures Execute(s.(clock := s.clock + wait), op).Err? ==> Step(s, wait, op) == s.(clock := s.clock + wait)
  {
    hide Execute;
    var s1 := s.(clock := s.clock + wait);
    if Execute(s1, op).Ok? { ExecuteTime(s1, op); }
  }

  lemma ExecuteTime(s: State, op: Op)
    requires Execute(s, op).Ok?
    ensures Execute(s, op).value.clock == s.clock
  {
    hide Reserve, View, CaptureBook, ReleaseBook, RefundBook, ApplyEvent, OriginOk, KeepsPeriod, AdjustBook;
    match op {
      case ReserveOp(user, verified, policy, quote, minutes, reference, expires) =>
        ReserveTables(s, user, verified, policy, quote, minutes, reference, expires);
      case ViewOp(user, verified, policy) => ViewTables(s, user, verified, policy);
      case FinishOp(id, event, origin) =>
        if ApplyEvent(s, id, event, origin).Ok? { Inbox.AppliedKeepsInbox(s, id, event, origin); }
      case _ =>
    }
  }

  lemma RequestEffect(s: State, actor: Ref, target: Ref, amount: int, dual: bool)
    requires RequestAdjustment(s, actor, target, amount, dual).Ok?
    ensures
      var next, n := RequestAdjustment(s, actor, target, amount, dual).value.adjustments, |s.adjustments|;
      && |next| == n + 1 && next[..n] == s.adjustments
      && next[n].requester == actor && next[n].target == target && next[n].amount == amount
  {
    hide AdjustBook;
  }

  lemma DecisionEffect(s: State, actor: Ref, p: Payload)
    requires !p.RequestIt? && Execute(s, OpOf(actor, p)).Ok?
    ensures
      var next := Execute(s, OpOf(actor, p)).value.adjustments;
      |next| == |s.adjustments| && forall n :: 0 <= n < |next| ==> next[n].requester == s.adjustments[n].requester
  {
    hide AdjustBook;
  }

  // ---- Runs of commands and everything else ----

  // Request keys and adjustments correspond one to one.
  ghost predicate OneToOne(commands: map<Commands.Slot, Commands.Row>, rows: seq<Adjustment>) {
    && (forall x :: x in commands && IsRequest(x) ==> Made(commands, rows, x))
    && (forall x, y :: x in commands && y in commands && x != y ==> Apart(commands, x, y))
    && (forall n :: 0 <= n < |rows| ==> Keyed(commands, n))
  }

  // Two request keys stand for different adjustments.
  ghost predicate Apart(commands: map<Commands.Slot, Commands.Row>, x: Commands.Slot, y: Commands.Slot)
    requires x in commands && y in commands
  {
    IsRequest(x) && IsRequest(y) ==> commands[x].resource != commands[y].resource
  }

  ghost predicate Keyed(commands: map<Commands.Slot, Commands.Row>, n: nat) {
    exists x :: x in commands && IsRequest(x) && commands[x].resource == Some(n)
  }

  ghost predicate Made(commands: map<Commands.Slot, Commands.Row>, rows: seq<Adjustment>, x: Commands.Slot)
    requires x in commands
  {
    && commands[x].resource.Some? && commands[x].resource.value < |rows|
    && rows[commands[x].resource.value].requester == x.actor
  }

  lemma CallKeeps(hash: Payload -> Ref, st: Commands.Store<State>, slot: Commands.Slot, p: Payload)
    requires Reachable(st.state) && OneToOne(st.commands, st.state.adjustments) && slot.kind == KindOf(p)
    ensures
      var next := Commands.Handle(Endpoints(hash), st, slot, p).0;
      Reachable(next.state) && OneToOne(next.commands, next.state.adjustments)
  {
    hide Reachable, Execute;
    var s, op := st.state, OpOf(slot.actor, p);
    var next := Commands.Handle(Endpoints(hash), st, slot, p).0;
    if slot !in st.commands && Execute(s, op).Ok? {
      StepNow(s, op);
      var rows := next.state.adjustments;
      assert next.state == Execute(s, op).value;
      assert next.commands == st.commands[slot := next.commands[slot]];
      if p.RequestIt? {
        RequestIsOp(s, slot.actor, p);
        RequestEffect(s, slot.actor, p.target, p.amount, p.dual);
        NewPair(st.commands, s.adjustments, rows, slot, next.commands[slot]);
      } else {
        DecisionEffect(s, slot.actor, p);
        SamePairs(st.commands, s.adjustments, rows, slot, next.commands[slot]);
      }
    }
  }

  lemma RequestIsOp(s: State, actor: Ref, p: Payload)
    requires p.RequestIt?
    ensures Execute(s, OpOf(actor, p)) == RequestAdjustment(s, actor, p.target, p.amount, p.dual)
  {
    hide RequestAdjustment;
  }

  // A command commits like a step that takes no time.
  lemma StepNow(s: State, op: Op)
    requires Reachable(s) && Execute(s, op).Ok?
    ensures Reachable(Execute(s, op).value)
  {
    hide Execute, Reachable;
    ReachableOn(s, [Timed(0, op)]);
    assert [Timed(0, op)][..0] == [];
    assert Run(s, [Timed(0, op)]) == Step(s, 0, op);
    assert s.(clock := s.clock + 0) == s;
  }

  lemma NewPair(commands: map<Commands.Slot, Commands.Row>, rows: seq<Adjustment>, next: seq<Adjustment>,
      slot: Commands.Slot, row: Commands.Row)
    requires OneToOne(commands, rows) && slot !in commands && IsRequest(slot)
    requires |next| == |rows| + 1 && next[..|rows|] == rows && next[|rows|].requester == slot.actor
    requires row.resource == Some(|rows|)
    ensures OneToOne(commands[slot := row], next)
  {
    var after := commands[slot := row];
    forall x | x in after && IsRequest(x) ensures Made(after, next, x) {
      assert x != slot ==> Made(commands, rows, x);
    }
    forall x, y | x in after && y in after && x != y ensures Apart(after, x, y) {
      assert x != slot && IsRequest(x) ==> Made(commands, rows, x);
      assert y != slot && IsRequest(y) ==> Made(commands, rows, y);
      assert x != slot && y != slot ==> Apart(commands, x, y);
    }
    forall n | 0 <= n < |next| ensures Keyed(after, n) {
      if n < |rows| {
        assert Keyed(commands, n);
        var x :| x in commands && IsRequest(x) && commands[x].resource == Some(n);
        assert x in after && after[x] == commands[x];
      } else {
        assert after[slot].resource == Some(n);
      }
    }
  }

  lemma SamePairs(commands: map<Commands.Slot, Commands.Row>, rows: seq<Adjustment>, next: seq<Adjustment>,
      slot: Commands.Slot, row: Commands.Row)
    requires OneToOne(commands, rows) && slot !in commands && !IsRequest(slot)
    requires |next| == |rows| && forall n :: 0 <= n < |next| ==> next[n].requester == rows[n].requester
    ensures OneToOne(commands[slot := row], next)
  {
    var after := commands[slot := row];
    forall x | x in after && IsRequest(x) ensures Made(after, next, x) {
      assert Made(commands, rows, x);
    }
    forall x, y | x in after && y in after && x != y ensures Apart(after, x, y) {
      assert x != slot && y != slot ==> Apart(commands, x, y);
    }
    forall n | 0 <= n < |next| ensures Keyed(after, n) {
      assert Keyed(commands, n);
      var x :| x in commands && IsRequest(x) && commands[x].resource == Some(n);
      assert x in after && after[x] == commands[x];
    }
  }

  lemma {:induction false} RunKeeps(hash: Payload -> Ref, start: State, es: seq<Commands.Event<Payload, Timed>>)
    requires Reachable(start) && start.adjustments == []
    requires forall i :: 0 <= i < |es| ==> WellRouted(es[i])
    ensures
      var end := Commands.Run(Endpoints(hash), Commands.Store(start, map[]), es);
      Reachable(end.state) && OneToOne(end.commands, end.state.adjustments)
  {
    if |es| > 0 {
      hide Reachable, OneToOne, Commands.Handle, Step;
      var init, e := es[..|es| - 1], es[|es| - 1];
      RunKeeps(hash, start, init);
      var before := Commands.Run(Endpoints(hash), Commands.Store(start, map[]), init);
      match e {
        case Call(slot, p) => CallKeeps(hash, before, slot, p);
        case Outside(t) => OutsideKeeps(before.state, t);
      }
    }
  }

  lemma OutsideKeeps(s: State, t: Timed)
    requires Reachable(s) && !DecidesAdjustments(t.op)
    ensures Reachable(Step(s, t.wait, t.op)) && Step(s, t.wait, t.op).adjustments == s.adjustments
  {
    hide Reachable, Execute;
    ReachableOn(s, [t]);
    assert [t][..0] == [];
    assert Run(s, [t]) == Step(s, t.wait, t.op);
    var s1 := s.(clock := s.clock + t.wait);
    if Execute(s1, t.op).Ok? { OtherTables(s1, t.op); }
  }

  // The first call under a key makes or decides the adjustment its endpoint names, as its
  // actor; the answer is that adjustment, and a refusal leaves everything as it was.
  lemma FirstCommand(hash: Payload -> Ref, st: Commands.Store<State>, slot: Commands.Slot, p: Payload)
    requires slot !in st.commands
    ensures
      var s := st.state;
      var (effect, n) :=
        match p
        case RequestIt(target, amount, dual) =>
          (Execute(s, RequestOp(slot.actor, target, amount, dual)), |s.adjustments|)
        case ApproveIt(n) => (Execute(s, ApproveOp(n, slot.actor)), n)
        case RejectIt(n) => (Execute(s, RejectOp(n, slot.actor)), n);
      Commands.Handle(Endpoints(hash), st, slot, p) == if effect.Err? then (st, Err(effect.error))
        else (Commands.Store(effect.value, st.commands[slot := Commands.Row(hash(p), true, Some(n))]), Ok(Some(n)))
  {
    hide Execute;
    Commands.CallExact(Endpoints(hash), st, slot, p);
  }

  // Over every run of commands with repeats and of all other operations: each request key
  // stands for one adjustment of its requester and each adjustment for one key, and an
  // adjustment has one ledger entry if it is executed and none otherwise.
  lemma OneKeyOneAdjustment(hash: Payload -> Ref, start: Time, users: set<Ref>, offers: map<Ref, Offer>,
                            es: seq<Commands.Event<Payload, Timed>>)
    requires OffersOk(offers) && forall i :: 0 <= i < |es| ==> WellRouted(es[i])
    ensures
      var end := Commands.Run(Endpoints(hash), Commands.Store(Init(start, users, offers), map[]), es);
      var rows := end.state.adjustments;
      && OneToOne(end.commands, rows)
      && forall n :: 0 <= n < |rows| ==>
        AdjustmentItems(end.state.book.journal, n) == if rows[n].status == Executed
          then [(rows[n].target, rows[n].amount)] else []
  {
    var s := Init(start, users, offers);
    assert Reachable(s) by { assert s == Run(s, []); }
    RunKeeps(hash, s, es);
    var end := Commands.Run(Endpoints(hash), Commands.Store(s, map[]), es);
    hide Reachable, OneToOne, Commands.Run;
    forall n | 0 <= n < |end.state.adjustments|
      ensures AdjustmentItems(end.state.book.journal, n) ==
        if end.state.adjustments[n].status == Executed
          then [(end.state.adjustments[n].target, end.state.adjustments[n].amount)] else []
    {
      DualControl(end.state, n);
    }
  }
}
