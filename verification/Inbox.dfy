/** The payment inbox as a protocol of workers: the commits of `process_webhook` and
`_process_reconciled_event` for one event, in any interleaving, with crashes.

A worker that accepted the event goes on from its own memory: no step checks again what
the row says. What follows is when that lets one event be applied twice.
*/
module Inbox {
  import opened Prelude
  import opened Billing
  import opened CreditOps
  import opened Reversal

  // `Accepted` after the first commit, `Applying` since `startedAt` after the second.
  datatype Phase = Accepted | Applying(startedAt: Time)

  datatype Protocol = Protocol(
    clock: Time, status: Option<InboxStatus>, startedAt: Time, workers: map<nat, Phase>, applied: nat)

  datatype Event =
    | Deliver(worker: nat)
    | Start(worker: nat)
    | TakeOver(worker: nat)
    | Complete(worker: nat, ok: bool)
    | Crash(worker: nat)
    | Tick(wait: nat)

  const STALE_AFTER: Time := 5 * 60

  function Initial(clock: Time): Protocol {
    Protocol(clock, None, 0, map[], 0)
  }

  // Whether the reconciliation query lists the row.
  predicate Listed(s: Protocol) {
    || s.status == Some(Failed)
    || (s.status == Some(Processing) && s.startedAt < s.clock - STALE_AFTER)
  }

  function Step(s: Protocol, e: Event): Protocol {
    match e
    case Deliver(w) =>
      if w in s.workers || s.status == Some(Processed) || s.status == Some(Processing) then s
      else s.(status := Some(InboxStatus.Received), workers := s.workers[w := Accepted])
    case Start(w) =>
      if w in s.workers && s.workers[w].Accepted? then
        s.(status := Some(Processing), startedAt := s.clock, workers := s.workers[w := Applying(s.clock)])
      else s
    case TakeOver(w) =>
      if w in s.workers || s.status == Some(Processed) then s
      else s.(status := Some(Processing), startedAt := s.clock, workers := s.workers[w := Applying(s.clock)])
    case Complete(w, ok) =>
      if w in s.workers && s.workers[w].Applying? then
        if ok then s.(status := Some(Processed), workers := s.workers - {w}, applied := s.applied + 1)
        else s.(status := Some(Failed), workers := s.workers - {w})
      else s
    case Crash(w) => s.(workers := s.workers - {w})
    case Tick(wait) => s.(clock := s.clock + wait)
  }

  function Run(s: Protocol, es: seq<Event>): Protocol {
    if |es| == 0 then s else Step(Run(s, es[..|es| - 1]), es[|es| - 1])
  }

  // Left alone, the query lists a failed event at once, an event being processed as soon as
  // five minutes have passed since it was started, and no other.
  lemma ListedAfter(s: Protocol, wait: nat)
    ensures Listed(Run(s, [Tick(wait)])) <==>
      || s.status == Some(Failed)
      || (s.status == Some(Processing) && s.startedAt + 5 * 60 < s.clock + wait)
  {
    assert [Tick(wait)][..0] == [] && Run(s, []) == s;
  }

  // ---- When no further application is possible ----

  predicate Settled(s: Protocol) {
    s.status == Some(Processed) && s.workers == map[]
  }

  lemma {:induction false} SettledStays(s: Protocol, es: seq<Event>)
    requires Settled(s)
    ensures Settled(Run(s, es)) && Run(s, es).applied == s.applied
  {
    if |es| > 0 {
      SettledStays(s, es[..|es| - 1]);
    }
  }

  lemma RunTwo(s: Protocol, e: Event, f: Event)
    ensures Run(s, [e, f]) == Step(Step(s, e), f) && Run(s, [e]) == Step(s, e)
  {
    assert [e][..0] == [] && Run(s, []) == s;
    assert Run(s, [e]) == Step(s, e);
    assert [e, f][..1] == [e];
  }

  // The event can be applied once more unless it is processed and no worker is left.
  lemma AgainUnlessSettled(s: Protocol)
    ensures (exists es :: Run(s, es).applied > s.applied) <==> !Settled(s)
  {
    if Settled(s) {
      forall es ensures Run(s, es).applied == s.applied {
        SettledStays(s, es);
      }
    } else if s.workers == map[] {
      RunTwo(s, TakeOver(0), Complete(0, true));
      assert Run(s, [TakeOver(0), Complete(0, true)]).applied > s.applied;
    } else {
      var w :| w in s.workers;
      RunTwo(s, Start(w), Complete(w, true));
      RunTwo(s, Complete(w, true), Tick(0));
      assert Run(s, [if s.workers[w].Accepted? then Start(w) else Tick(0), Complete(w, true)]).applied > s.applied by {
        RunTwo(s, Tick(0), Complete(w, true));
      }
    }
  }

  // ---- At most once ----

  predicate Enters(e: Event) {
    e.Deliver? || e.TakeOver?
  }

  // No worker accepts or takes over the event while another one is at it.
  ghost predicate Solo(s: Protocol, es: seq<Event>) {
    forall i :: 0 <= i < |es| && Enters(es[i]) && Run(s, es[..i]).workers != map[] ==>
      Step(Run(s, es[..i]), es[i]) == Run(s, es[..i])
  }

  // At most one worker, whose phase the row's status tells.
  ghost predicate OneWorker(s: Protocol) {
    && (forall v, w :: v in s.workers && w in s.workers ==> v == w)
    && (forall w :: w in s.workers ==> match s.workers[w]
      case Accepted => s.status == Some(InboxStatus.Received)
      case Applying(at) => s.status == Some(Processing) && s.startedAt == at)
    && s.applied == if s.status == Some(Processed) then 1 else 0
  }

  lemma SoloStep(s: Protocol, e: Event)
    requires OneWorker(s) && (Enters(e) && s.workers != map[] ==> Step(s, e) == s)
    ensures OneWorker(Step(s, e))
  {
    if Enters(e) {
      assert s.workers == map[] || Step(s, e) == s;
    }
  }

  lemma {:induction false} SoloRun(clock: Time, es: seq<Event>)
    requires Solo(Initial(clock), es)
    ensures OneWorker(Run(Initial(clock), es))
  {
    if |es| > 0 {
      var n := |es| - 1;
      var init := es[..n];
      assert forall i :: 0 <= i < n ==> init[..i] == es[..i];
      SoloRun(clock, init);
      SoloStep(Run(Initial(clock), init), es[n]);
    }
  }

  // If workers never overlap, then through repeats, failures, crashes and takeovers the
  // event is applied at most once, and the row says "processed" exactly when it was.
  lemma AtMostOnce(clock: Time, es: seq<Event>)
    requires Solo(Initial(clock), es)
    ensures var s := Run(Initial(clock), es); s.applied == if s.status == Some(Processed) then 1 else 0
  {
    SoloRun(clock, es);
  }

  // ---- What keeps workers apart ----

  // Deliveries do not overlap a worker, nor do takeovers by events fetched from the
  // provider, which skip the query; other takeovers are of listed rows; and no worker has
  // been applying the event for more than the stale limit.
  ghost predicate Prompt(s: Protocol, e: Event) {
    && (e.Deliver? ==> s.workers == map[])
    && (e.TakeOver? ==> Listed(s) || s.workers == map[])
    && (forall w :: w in s.workers && s.workers[w].Applying? ==> s.clock <= s.workers[w].startedAt + STALE_AFTER)
  }

  lemma PromptStep(s: Protocol, e: Event)
    requires OneWorker(s) && Prompt(s, e) && Enters(e)
    ensures s.workers == map[]
  {
    assert e.TakeOver? && Listed(s) ==> forall w :: w !in s.workers;
  }

  // The stale limit is enough: under it the event is applied at most once.
  lemma {:induction false} PromptAtMostOnce(clock: Time, es: seq<Event>)
    requires forall i :: 0 <= i < |es| ==> Prompt(Run(Initial(clock), es[..i]), es[i])
    ensures OneWorker(Run(Initial(clock), es)) && Run(Initial(clock), es).applied <= 1
  {
    if |es| > 0 {
      var n := |es| - 1;
      assert forall i :: 0 <= i < n ==> es[..n][..i] == es[..i];
      PromptAtMostOnce(clock, es[..n]);
      var s := Run(Initial(clock), es[..n]);
      if Enters(es[n]) {
        PromptStep(s, es[n]);
      }
      SoloStep(s, es[n]);
    }
  }

  // Two deliveries that overlap before either has started apply the event twice.
  lemma OverlapAppliesTwice(clock: Time)
    ensures exists es :: Run(Initial(clock), es).applied == 2
  {
    var es := [Deliver(0), Deliver(1), Start(0), Start(1), Complete(0, true), Complete(1, true)];
    assert es[..0] == [] && es[..1] == [Deliver(0)];
    assert forall i :: 0 < i < 6 ==> es[..i + 1][..i] == es[..i];
    var s := Initial(clock);
    assert Run(s, es[..1]) == Step(s, es[0]) by { assert es[..1][..0] == []; }
    assert Run(s, es[..2]) == Step(Run(s, es[..1]), es[1]);
    assert Run(s, es[..3]) == Step(Run(s, es[..2]), es[2]);
    assert Run(s, es[..4]) == Step(Run(s, es[..3]), es[3]);
    assert Run(s, es[..5]) == Step(Run(s, es[..4]), es[4]);
    assert Run(s, es) == Step(Run(s, es[..5]), es[5]);
  }

  // ---- The commits of the billing state machine ----

  // `p` follows the row of event `id` in `s`.
  ghost predicate Follows(p: Protocol, s: State, id: Ref) {
    && p.clock == s.clock
    && p.status == (if id in s.inbox then Some(s.inbox[id].status) else None)
    && (p.status == Some(Processing) ==> p.startedAt == s.inbox[id].startedAt)
  }

  // What happens to the row when worker `w` takes a step of the protocol and the service
  // makes the corresponding commit.
  lemma CommitsFollow(p: Protocol, s: State, id: Ref, event: Billing.Event, hash: Ref, origin: Option<Ref>, w: nat)
    requires Follows(p, s, id)
    ensures w !in p.workers && Billing.Deliver(s, id, event, hash).Ok? ==>
      Follows(Step(p, Deliver(w)), Billing.Deliver(s, id, event, hash).value, id)
    ensures w !in p.workers && Billing.Reconcile(s, id, event, hash).Ok? ==>
      Follows(Step(p, TakeOver(w)), Billing.Reconcile(s, id, event, hash).value, id)
    ensures w in p.workers && p.workers[w].Accepted? && Begin(s, id).Ok? ==>
      Follows(Step(p, Start(w)), Begin(s, id).value, id)
    ensures w in p.workers && p.workers[w].Applying? && Finish(s, id, event, origin).Ok? ==>
      Follows(Step(p, Complete(w, ApplyEvent(s, id, event, origin).Ok?)), Finish(s, id, event, origin).value, id)
  {
    hide ApplyEvent;
    if ApplyEvent(s, id, event, origin).Ok? {
      AppliedKeepsInbox(s, id, event, origin);
    }
  }

  // Applying an event touches neither inbox nor clock nor adjustments.
  lemma AppliedKeepsInbox(s: State, id: Ref, event: Billing.Event, origin: Option<Ref>)
    requires ApplyEvent(s, id, event, origin).Ok?
    ensures ApplyEvent(s, id, event, origin).value.inbox == s.inbox
    ensures ApplyEvent(s, id, event, origin).value.clock == s.clock
    ensures ApplyEvent(s, id, event, origin).value.adjustments == s.adjustments
  {
    hide PaymentSucceeded, PaymentReversed;
    if IsSuccess(event.kind) { SucceededKeepsInbox(s, id, event); }
    if PaymentReversed(s, id, event, origin).Ok? { ReversedKeepsInbox(s, id, event, origin); }
  }

  lemma SucceededKeepsInbox(s: State, id: Ref, event: Billing.Event)
    requires PaymentSucceeded(s, id, event).Ok?
    ensures PaymentSucceeded(s, id, event).value.inbox == s.inbox
    ensures PaymentSucceeded(s, id, event).value.clock == s.clock
    ensures PaymentSucceeded(s, id, event).value.adjustments == s.adjustments
  {
    hide Payee, PaidOffer, Subscribe, GrantPayment;
    var (user, offerId) := Payee(s, event).value;
    var offer, period := PaidOffer(s, event, offerId).value, PeriodOf(event, id);
    var s1 := EnsureAccount(s, user).value;
    if offer.kind == SubscriptionOffer {
      SubscribeKeepsInbox(s1, event, user, offerId, period);
      var (s2, end) := Subscribe(s1, event, user, offerId, period).value;
      GrantKeepsInbox(s2, id, period, user, offer, Some(end));
    } else {
      GrantKeepsInbox(s1, id, period, user, offer, None);
    }
  }

  lemma SubscribeKeepsInbox(s: State, event: Billing.Event, user: Ref, offer: Ref, period: Ref)
    requires Subscribe(s, event, user, offer, period).Ok?
    ensures
      var (next, end) := Subscribe(s, event, user, offer, period).value;
      next.inbox == s.inbox && next.clock == s.clock && next.adjustments == s.adjustments
  {
    hide TimeOr;
  }

  lemma GrantKeepsInbox(s: State, id: Ref, period: Ref, user: Ref, offer: Offer, expires: Option<Time>)
    requires GrantPayment(s, id, period, user, offer, expires).Ok?
    ensures
      var next := GrantPayment(s, id, period, user, offer, expires).value;
      next.inbox == s.inbox && next.clock == s.clock && next.adjustments == s.adjustments
  {
    hide GrantBook;
  }

  lemma ReversedKeepsInbox(s: State, id: Ref, event: Billing.Event, origin: Option<Ref>)
    requires PaymentReversed(s, id, event, origin).Ok?
    ensures PaymentReversed(s, id, event, origin).value.inbox == s.inbox
    ensures PaymentReversed(s, id, event, origin).value.clock == s.clock
    ensures PaymentReversed(s, id, event, origin).value.adjustments == s.adjustments
  {
    hide ReleaseHolders, TakeBack, FindSource, CumulativeReversal, AmountOr, ReleaseAll;
  }
}
