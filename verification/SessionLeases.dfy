/** `GeminiSessionLimiter`: a bounded set of leases over time, in two backends. */
module SessionLeases {
  import opened Prelude

  // Tokens are fresh random strings; a lease maps its token to its expiry.
  type Leases = map<Ref, Time>

  function Purge(leases: Leases, now: Time): Leases {
    map t | t in leases && leases[t] > now :: leases[t]
  }

  // ---- The in-process map ----

  function Acquire(leases: Leases, token: Ref, now: Time, ttl: nat, limit: nat): (Leases, bool) {
    var live := Purge(leases, now);
    if |live| < limit then (live[token := now + ttl], true) else (live, false)
  }

  function Refresh(leases: Leases, token: Ref, now: Time, ttl: nat): (Leases, bool) {
    if token in leases then (leases[token := now + ttl], true) else (leases, false)
  }

  function Drop(leases: Leases, token: Ref): Leases {
    map t | t in leases && t != token :: leases[t]
  }

  datatype Call = AcquireCall(token: Ref) | RefreshCall(token: Ref) | DropCall(token: Ref)
  datatype Timed = Timed(wait: nat, call: Call)

  function Step(leases: Leases, now: Time, call: Call, ttl: nat, limit: nat): Leases {
    match call
    case AcquireCall(t) => Acquire(leases, t, now, ttl, limit).0
    case RefreshCall(t) => Refresh(leases, t, now, ttl).0
    case DropCall(t) => Drop(leases, t)
  }

  function Clock(start: Time, calls: seq<Timed>): Time {
    if |calls| == 0 then start else Clock(start, calls[..|calls| - 1]) + calls[|calls| - 1].wait
  }

  function Run(leases: Leases, start: Time, calls: seq<Timed>, ttl: nat, limit: nat): Leases {
    if |calls| == 0 then leases
    else Step(Run(leases, start, calls[..|calls| - 1], ttl, limit), Clock(start, calls), calls[|calls| - 1].call, ttl,
      limit)
  }

  function Unexpired(leases: Leases, now: Time): set<Ref> {
    set t | t in leases && leases[t] > now
  }

  lemma SubsetSize(a: set<Ref>, b: set<Ref>)
    requires a <= b
    ensures |a| <= |b|
  {
    assert b == a + (b - a);
  }

  lemma StepBounded(leases: Leases, now: Time, call: Call, ttl: nat, limit: nat)
    requires |leases| <= limit
    ensures |Step(leases, now, call, ttl, limit)| <= limit
  {
    SubsetSize(Purge(leases, now).Keys, leases.Keys);
    match call {
      case AcquireCall(t) =>
        var live := Purge(leases, now);
        assert live[t := now + ttl].Keys == live.Keys + {t};
      case RefreshCall(t) =>
        if t in leases { assert leases[t := now + ttl].Keys == leases.Keys; }
      case DropCall(t) => SubsetSize(Drop(leases, t).Keys, leases.Keys);
    }
  }

  // No sequence of calls ever stores more than `limit` leases, so at no time are more
  // than `limit` of them unexpired.
  lemma {:induction false} RunBounded(start: Time, calls: seq<Timed>, ttl: nat, limit: nat, at: Time)
    ensures |Run(map[], start, calls, ttl, limit)| <= limit
    ensures |Unexpired(Run(map[], start, calls, ttl, limit), at)| <= limit
  {
    var leases := Run(map[], start, calls, ttl, limit);
    if |calls| > 0 {
      RunBounded(start, calls[..|calls| - 1], ttl, limit, at);
      StepBounded(Run(map[], start, calls[..|calls| - 1], ttl, limit), Clock(start, calls), calls[|calls| - 1].call,
        ttl, limit);
    }
    SubsetSize(Unexpired(leases, at), leases.Keys);
  }

  // Acquisition is refused exactly when `limit` leases are unexpired.
  lemma AcquireExact(leases: Leases, token: Ref, now: Time, ttl: nat, limit: nat)
    ensures Acquire(leases, token, now, ttl, limit).1 <==> |Unexpired(leases, now)| < limit
    ensures ttl > 0 && Acquire(leases, token, now, ttl, limit).1 ==>
      Unexpired(Acquire(leases, token, now, ttl, limit).0, now) == Unexpired(leases, now) + {token}
    ensures !Acquire(leases, token, now, ttl, limit).1 ==>
      Unexpired(Acquire(leases, token, now, ttl, limit).0, now) == Unexpired(leases, now)
  {
    assert Purge(leases, now).Keys == Unexpired(leases, now);
  }

  // An accepted call gives its token a lease until `ttl` from now, and a drop ends it; the
  // leases of other tokens run on as before.
  lemma LeaseTerm(leases: Leases, token: Ref, now: Time, ttl: nat, limit: nat, other: Ref, at: Time)
    requires now <= at && other != token
    ensures
      var (next, ok) := Acquire(leases, token, now, ttl, limit);
      && (ok ==> (token in Unexpired(next, at) <==> at < now + ttl))
      && (!ok ==> (token in Unexpired(next, at) <==> token in Unexpired(leases, at)))
      && (other in Unexpired(next, at) <==> other in Unexpired(leases, at))
      && (other in Unexpired(next, at) ==> next[other] == leases[other])
    ensures
      var (next, ok) := Refresh(leases, token, now, ttl);
      && (ok <==> token in leases) && (ok ==> next == leases[token := now + ttl]) && (!ok ==> next == leases)
    ensures token !in Drop(leases, token)
    ensures other in Drop(leases, token) <==> other in leases
    ensures other in leases ==> Drop(leases, token)[other] == leases[other]
  {}

  // A token that has left the store is never refreshed back: as long as it is not
  // acquired again it stays out, and refreshing it is refused.
  lemma {:induction false} NeverBack(leases: Leases, start: Time, calls: seq<Timed>, ttl: nat, limit: nat, token: Ref)
    requires token !in leases && forall i :: 0 <= i < |calls| ==> calls[i].call != AcquireCall(token)
    ensures token !in Run(leases, start, calls, ttl, limit)
    ensures !Refresh(Run(leases, start, calls, ttl, limit), token, Clock(start, calls), ttl).1
  {
    if |calls| > 0 { NeverBack(leases, start, calls[..|calls| - 1], ttl, limit, token); }
  }

  // ---- The Redis sorted set ----

  // Scores by member; the whole key is evicted at `deadline`.
  datatype SortedSet = SortedSet(members: Leases, deadline: Time)

  function Read(z: SortedSet, now: Time): Leases {
    if z.deadline <= now then map[] else z.members
  }

  function AcquireScript(z: SortedSet, token: Ref, now: Time, ttl: nat, limit: nat): (SortedSet, bool) {
    var live := Purge(Read(z, now), now);
    if |live| >= limit then (SortedSet(live, z.deadline), false)
    else (SortedSet(live[token := now + ttl], now + ttl), true)
  }

  function RefreshScript(z: SortedSet, token: Ref, now: Time, ttl: nat): (SortedSet, bool) {
    if token !in Read(z, now) then (z, false)
    else (SortedSet(Read(z, now)[token := now + ttl], now + ttl), true)
  }

  function DropScript(z: SortedSet, token: Ref): SortedSet {
    z.(members := Drop(z.members, token))
  }

  function StepScript(z: SortedSet, now: Time, call: Call, ttl: nat, limit: nat): (SortedSet, bool) {
    match call
    case AcquireCall(t) => AcquireScript(z, t, now, ttl, limit)
    case RefreshCall(t) => RefreshScript(z, t, now, ttl)
    case DropCall(t) => (DropScript(z, t), true)
  }

  function Answer(leases: Leases, now: Time, call: Call, ttl: nat, limit: nat): bool {
    match call
    case AcquireCall(t) => Acquire(leases, t, now, ttl, limit).1
    case RefreshCall(t) => Refresh(leases, t, now, ttl).1
    case DropCall(t) => true
  }

  // The backends agree on every lease the sorted set still holds; what only the map
  // holds has expired.
  ghost predicate Agree(leases: Leases, z: SortedSet, now: Time, ttl: nat) {
    && (forall t :: t in Read(z, now) ==> t in leases && leases[t] == Read(z, now)[t])
    && (forall t :: t in leases && t !in Read(z, now) ==> leases[t] <= now)
    && (forall t :: t in z.members ==> z.members[t] <= z.deadline && z.members[t] <= now + ttl)
  }

  // A refresh of a token that the map still holds but the evicted sorted set does not.
  predicate Revives(leases: Leases, z: SortedSet, now: Time, call: Call) {
    call.RefreshCall? && call.token in leases && call.token !in Read(z, now)
  }

  // Both backends answer a call alike, and agree afterwards, exactly when it does not
  // revive an expired token in the map.
  lemma StepAgrees(leases: Leases, z: SortedSet, now: Time, call: Call, ttl: nat, limit: nat)
    requires Agree(leases, z, now, ttl) && ttl > 0
    ensures Answer(leases, now, call, ttl, limit) == StepScript(z, now, call, ttl, limit).1 <==>
      !Revives(leases, z, now, call)
    ensures Revives(leases, z, now, call) ==> leases[call.token] <= now
    ensures !Revives(leases, z, now, call) ==>
      Agree(Step(leases, now, call, ttl, limit), StepScript(z, now, call, ttl, limit).0, now, ttl)
  {
    assert Purge(Read(z, now), now) == Purge(leases, now);
  }

  function RunScript(z: SortedSet, start: Time, calls: seq<Timed>, ttl: nat, limit: nat): SortedSet {
    if |calls| == 0 then z
    else StepScript(RunScript(z, start, calls[..|calls| - 1], ttl, limit), Clock(start, calls), calls[|calls| - 1].call,
      ttl, limit).0
  }

  lemma StepScriptBounded(z: SortedSet, now: Time, call: Call, ttl: nat, limit: nat)
    requires |z.members| <= limit
    ensures |StepScript(z, now, call, ttl, limit).0.members| <= limit
  {
    var stored := Read(z, now);
    SubsetSize(stored.Keys, z.members.Keys);
    match call {
      case AcquireCall(t) =>
        var live := Purge(stored, now);
        SubsetSize(live.Keys, stored.Keys);
        assert live[t := now + ttl].Keys == live.Keys + {t};
      case RefreshCall(t) =>
        if t in stored { assert stored[t := now + ttl].Keys == stored.Keys; }
      case DropCall(t) => SubsetSize(Drop(z.members, t).Keys, z.members.Keys);
    }
  }

  // Neither does any sequence of script calls, whatever it refreshes or evicts.
  lemma {:induction false} ScriptBounded(deadline: Time, start: Time, calls: seq<Timed>, ttl: nat, limit: nat, at: Time)
    ensures |RunScript(SortedSet(map[], deadline), start, calls, ttl, limit).members| <= limit
    ensures |Unexpired(RunScript(SortedSet(map[], deadline), start, calls, ttl, limit).members, at)| <= limit
  {
    var empty := SortedSet(map[], deadline);
    if |calls| > 0 {
      var init, last := calls[..|calls| - 1], calls[|calls| - 1];
      ScriptBounded(deadline, start, init, ttl, limit, at);
      StepScriptBounded(RunScript(empty, start, init, ttl, limit), Clock(start, calls), last.call, ttl, limit);
    }
    var members := RunScript(empty, start, calls, ttl, limit).members;
    SubsetSize(Unexpired(members, at), members.Keys);
  }

  // The acquisition script refuses exactly when `limit` stored leases are unexpired.
  lemma AcquireScriptExact(z: SortedSet, token: Ref, now: Time, ttl: nat, limit: nat)
    ensures AcquireScript(z, token, now, ttl, limit).1 <==> |Unexpired(Read(z, now), now)| < limit
  {
    assert Purge(Read(z, now), now).Keys == Unexpired(Read(z, now), now);
  }

  // A token that has left the sorted set, or whose key was evicted, is never refreshed
  // back either.
  lemma {:induction false} ScriptNeverBack(z: SortedSet, start: Time, calls: seq<Timed>, ttl: nat, limit: nat,
      token: Ref)
    requires token !in Read(z, start) && forall i :: 0 <= i < |calls| ==> calls[i].call != AcquireCall(token)
    ensures
      var now := Clock(start, calls);
      var after := RunScript(z, start, calls, ttl, limit);
      token !in Read(after, now) && !RefreshScript(after, token, now, ttl).1
  {
    if |calls| > 0 { ScriptNeverBack(z, start, calls[..|calls| - 1], ttl, limit, token); }
  }

  // No call of the run revives an expired token.
  predicate NoRevival(leases: Leases, z: SortedSet, start: Time, calls: seq<Timed>, ttl: nat, limit: nat) {
    |calls| > 0 ==>
      var init := calls[..|calls| - 1];
      && NoRevival(leases, z, start, init, ttl, limit)
      && !Revives(Run(leases, start, init, ttl, limit), RunScript(z, start, init, ttl, limit), Clock(start, calls),
        calls[|calls| - 1].call)
  }

  // Without revivals the map and the sorted set go through the same leases, call by call.
  lemma {:induction false} RunAgrees(leases: Leases, z: SortedSet, start: Time, calls: seq<Timed>, ttl: nat, limit: nat)
    requires Agree(leases, z, start, ttl) && ttl > 0 && NoRevival(leases, z, start, calls, ttl, limit)
    ensures Agree(Run(leases, start, calls, ttl, limit), RunScript(z, start, calls, ttl, limit), Clock(start, calls),
      ttl)
  {
    if |calls| > 0 {
      var init := calls[..|calls| - 1];
      RunAgrees(leases, z, start, init, ttl, limit);
      StepAgrees(Run(leases, start, init, ttl, limit), RunScript(z, start, init, ttl, limit), Clock(start, calls),
        calls[|calls| - 1].call, ttl, limit);
    }
  }

  lemma OneCall(leases: Leases, z: SortedSet, calls: seq<Timed>, ttl: nat, limit: nat)
    requires |calls| == 1 && calls[0].wait == 0
    ensures Run(leases, 0, calls, ttl, limit) == Step(leases, 0, calls[0].call, ttl, limit)
    ensures RunScript(z, 0, calls, ttl, limit) == StepScript(z, 0, calls[0].call, ttl, limit).0
    ensures Clock(0, calls) == 0
  {
    assert calls[..0] == [];
    assert Clock(0, calls[..0]) == 0;
    assert Run(leases, 0, calls[..0], ttl, limit) == leases;
    assert RunScript(z, 0, calls[..0], ttl, limit) == z;
  }

  // The backends really part: acquire a token, and refresh it when its lease has just run
  // out. The map accepts the refresh and holds a live lease again; Redis has evicted it.
  lemma RevivalParts(token: Ref, ttl: nat, limit: nat)
    requires ttl > 0 && limit > 0
    ensures
      var calls := [Timed(0, AcquireCall(token))];
      var leases := Run(map[], 0, calls, ttl, limit);
      var z := RunScript(SortedSet(map[], 0), 0, calls, ttl, limit);
      && Agree(leases, z, ttl, ttl) && Revives(leases, z, ttl, RefreshCall(token))
      && Refresh(leases, token, ttl, ttl) == (map[token := 2 * ttl], true)
      && RefreshScript(z, token, ttl, ttl) == (z, false)
  {
    var calls := [Timed(0, AcquireCall(token))];
    OneCall(map[], SortedSet(map[], 0), calls, ttl, limit);
    var leases, z := Run(map[], 0, calls, ttl, limit), RunScript(SortedSet(map[], 0), 0, calls, ttl, limit);
    assert Purge(map[], 0) == map[] && Read(SortedSet(map[], 0), 0) == map[];
    assert leases == Acquire(map[], token, 0, ttl, limit).0;
    assert z == AcquireScript(SortedSet(map[], 0), token, 0, ttl, limit).0;
    assert leases == map[token := ttl];
    assert z == SortedSet(map[token := ttl], ttl);
    assert leases[token := ttl + ttl] == map[token := 2 * ttl];
  }

  // ---- The limiter object ----

  class SessionLimiter {
    const limit: nat
    const ttl: nat
    var leases: Leases

    constructor (limit: nat, ttl: nat)
      ensures this.limit == limit && this.ttl == ttl && leases == map[]
    {
      this.limit, this.ttl, leases := limit, ttl, map[];
    }

    method AcquireLease(token: Ref, now: Time) returns (admitted: bool)
      requires |leases| <= limit
      modifies this
      ensures (leases, admitted) == Acquire(old(leases), token, now, ttl, limit) && |leases| <= limit
    {
      StepBounded(leases, now, AcquireCall(token), ttl, limit);
      leases := map t | t in leases && leases[t] > now :: leases[t];
      admitted := |leases| < limit;
      if admitted { leases := leases[token := now + ttl]; }
    }

    method RefreshLease(token: Ref, now: Time) returns (kept: bool)
      requires |leases| <= limit
      modifies this
      ensures (leases, kept) == Refresh(old(leases), token, now, ttl) && |leases| <= limit
    {
      StepBounded(leases, now, RefreshCall(token), ttl, limit);
      kept := token in leases;
      if kept { leases := leases[token := now + ttl]; }
    }

    method ReleaseLease(token: Ref)
      requires |leases| <= limit
      modifies this
      ensures leases == Drop(old(leases), token) && |leases| <= limit
    {
      StepBounded(leases, 0, DropCall(token), ttl, limit);
      leases := map t | t in leases && t != token :: leases[t];
    }
  }
}
