/** Model rollout: activation keeps one active and at most one canary configuration per
purpose, and canary routing is stable under a growing percentage. */
module Rollout {
  import opened Prelude

  datatype ConfigStatus = Draft | Active | Canary | Retired

  // A row's id is its index; `report` is the evaluation report of its last activation.
  datatype Config = Config(purpose: Ref, status: ConfigStatus, percent: nat, report: Option<Ref>)

  // Evaluation reports are immutable.
  datatype Report = Report(config: nat, passed: bool)

  predicate Deployed(c: Config, purpose: Ref) {
    c.purpose == purpose && (c.status == Active || c.status == Canary)
  }

  // An active configuration of the purpose other than `id`.
  predicate HasBaseline(cs: seq<Config>, purpose: Ref, id: nat) {
    exists i :: 0 <= i < |cs| && i != id && cs[i].purpose == purpose && cs[i].status == Active
  }

  // What an activation of `id` at `percent` does to another row.
  function Superseded(c: Config, purpose: Ref, percent: nat): Config {
    if Deployed(c, purpose) && (percent == 100 || c.status == Canary) then c.(status := Retired, percent := 0) else c
  }

  // `activate_model_configuration`; the request schema admits percentages 1 to 100.
  function Activate(cs: seq<Config>, reports: map<Ref, Report>, id: nat, report: Ref,
      percent: nat): Result<seq<Config>> {
    if id >= |cs| then Err(ModelConfigurationNotFound)
    else if report !in reports || reports[report].config != id then Err(EvaluationReportInvalid)
    else if !reports[report].passed then Err(EvaluationGateFailed)
    else if percent < 100 && !HasBaseline(cs, cs[id].purpose, id) then Err(CanaryBaselineRequired)
    else Ok(seq(|cs|, i requires 0 <= i < |cs| =>
      if i == id then cs[i].(status := if percent < 100 then Canary else Active, percent := percent,
        report := Some(report))
      else Superseded(cs[i], cs[id].purpose, percent)))
  }

  // An activation needs a passed report of its own configuration and, below 100 percent, an
  // active configuration beside it. It deploys its configuration, retires the canary of the
  // purpose and, at 100 percent, the active one too, and leaves every other row alone.
  lemma ActivateOutcome(cs: seq<Config>, reports: map<Ref, Report>, id: nat, report: Ref, percent: nat)
    requires 1 <= percent <= 100
    ensures
      var out := Activate(cs, reports, id, report, percent);
      if id >= |cs| then out == Err(ModelConfigurationNotFound)
      else if report !in reports || reports[report].config != id then out == Err(EvaluationReportInvalid)
      else if !reports[report].passed then out == Err(EvaluationGateFailed)
      else if percent < 100 && forall i :: 0 <= i < |cs| && i != id ==> !ActiveFor(cs[i], cs[id].purpose)
      then out == Err(CanaryBaselineRequired)
      else
        && out.Ok? && |out.value| == |cs|
        && out.value[id] == cs[id].(status := if percent == 100 then Active else Canary, percent := percent,
                                    report := Some(report))
        && forall i :: 0 <= i < |cs| && i != id ==>
          out.value[i] ==
            if cs[i].purpose == cs[id].purpose && (cs[i].status == Canary || (cs[i].status == Active && percent == 100))
            then cs[i].(status := Retired, percent := 0) else cs[i]
  {
    if id < |cs| && HasBaseline(cs, cs[id].purpose, id) {
      var b :| 0 <= b < |cs| && b != id && cs[b].purpose == cs[id].purpose && cs[b].status == Active;
      assert ActiveFor(cs[b], cs[id].purpose);
    }
  }

  predicate ActiveFor(c: Config, purpose: Ref) {
    c.purpose == purpose && c.status == Active
  }

  // ---- What every activation keeps ----

  ghost predicate RowOk(c: Config, i: nat, reports: map<Ref, Report>) {
    match c.status
    case Draft => true
    case Active => c.percent == 100 && PassedFor(c, i, reports)
    case Canary => 1 <= c.percent <= 99 && PassedFor(c, i, reports)
    case Retired => c.percent == 0
  }

  ghost predicate PassedFor(c: Config, i: nat, reports: map<Ref, Report>) {
    c.report.Some? && c.report.value in reports && reports[c.report.value] == Report(i, true)
  }

  // Not both deployed in the same role of one purpose.
  ghost predicate Apart(c: Config, d: Config) {
    c.purpose == d.purpose && c.status == d.status ==> c.status != Active && c.status != Canary
  }

  ghost predicate RolloutOk(cs: seq<Config>, reports: map<Ref, Report>) {
    && (forall i :: 0 <= i < |cs| ==> RowOk(cs[i], i, reports))
    && (forall i, j :: 0 <= i < j < |cs| ==> Apart(cs[i], cs[j]))
    && (forall i :: 0 <= i < |cs| && cs[i].status == Canary ==> HasBaseline(cs, cs[i].purpose, i))
  }

  lemma CanariesKeepBaseline(cs: seq<Config>, reports: map<Ref, Report>, id: nat, report: Ref, percent: nat, i: nat)
    requires RolloutOk(cs, reports) && Activate(cs, reports, id, report, percent).Ok?
    requires i < |cs| && Activate(cs, reports, id, report, percent).value[i].status == Canary
    ensures var ds := Activate(cs, reports, id, report, percent).value; HasBaseline(ds, ds[i].purpose, i)
  {
    var ds := Activate(cs, reports, id, report, percent).value;
    var b :| 0 <= b < |cs| && b != i && cs[b].purpose == cs[i].purpose && cs[b].status == Active;
    assert ds[b].purpose == ds[i].purpose && ds[b].status == Active;
  }

  lemma ActivateKeeps(cs: seq<Config>, reports: map<Ref, Report>, id: nat, report: Ref, percent: nat)
    requires RolloutOk(cs, reports) && 1 <= percent <= 100 && Activate(cs, reports, id, report, percent).Ok?
    ensures RolloutOk(Activate(cs, reports, id, report, percent).value, reports)
  {
    var ds := Activate(cs, reports, id, report, percent).value;
    forall i | 0 <= i < |ds| && ds[i].status == Canary ensures HasBaseline(ds, ds[i].purpose, i) {
      CanariesKeepBaseline(cs, reports, id, report, percent, i);
    }
    hide HasBaseline;
    forall i | 0 <= i < |ds| ensures RowOk(ds[i], i, reports) {
      assert RowOk(cs[i], i, reports);
    }
    forall i, j | 0 <= i < j < |ds| ensures Apart(ds[i], ds[j]) {
      assert Apart(cs[i], cs[j]);
    }
  }

  datatype Request = Request(id: nat, report: Ref, percent: nat)

  // Refused activations change nothing.
  function Run(cs: seq<Config>, reports: map<Ref, Report>, requests: seq<Request>): seq<Config> {
    if |requests| == 0 then cs
    else
      var before := Run(cs, reports, requests[..|requests| - 1]);
      var r := requests[|requests| - 1];
      var after := Activate(before, reports, r.id, r.report, r.percent);
      if after.Ok? then after.value else before
  }

  // From a store of drafts, every sequence of activations keeps, per purpose, at most one
  // active and one canary configuration, a canary only beside an active one, the
  // percentages of each status, and a passed report of its own on every deployed one.
  lemma {:induction false} RunKeeps(cs: seq<Config>, reports: map<Ref, Report>, requests: seq<Request>)
    requires forall i :: 0 <= i < |cs| ==> cs[i].status == Draft
    requires forall k :: 0 <= k < |requests| ==> 1 <= requests[k].percent <= 100
    ensures RolloutOk(Run(cs, reports, requests), reports)
  {
    if |requests| > 0 {
      var init, r := requests[..|requests| - 1], requests[|requests| - 1];
      RunKeeps(cs, reports, init);
      if Activate(Run(cs, reports, init), reports, r.id, r.report, r.percent).Ok? {
        ActivateKeeps(Run(cs, reports, init), reports, r.id, r.report, r.percent);
      }
    }
  }

  // ---- Canary routing ----

  // First configuration of the purpose with this status. At most one exists.
  function Find(cs: seq<Config>, purpose: Ref, status: ConfigStatus): (r: Option<nat>)
    ensures r.Some? ==> r.value < |cs| && cs[r.value].purpose == purpose && cs[r.value].status == status
    ensures r.None? ==> forall i :: 0 <= i < |cs| ==> !(cs[i].purpose == purpose && cs[i].status == status)
  {
    if |cs| == 0 then None
    else
      var n := |cs| - 1;
      var r := Find(cs[..n], purpose, status);
      assert forall i :: 0 <= i < n ==> cs[..n][i] == cs[i];
      if r.Some? then r else if cs[n].purpose == purpose && cs[n].status == status then Some(n) else None
  }

  // `runtime_model_configuration`: the configuration serving `subject`, or none when the
  // environment's applies. `digest` stands for the hash of purpose, canary and subject.
  function Route(cs: seq<Config>, purpose: Ref, subject: Ref, digest: (Ref, nat, Ref) -> nat): Option<nat> {
    var active, canary := Find(cs, purpose, Active), Find(cs, purpose, Canary);
    if active.None? then None
    else if canary.Some? && digest(purpose, canary.value, subject) % 100 < cs[canary.value].percent then canary
    else active
  }

  // Raising the percentage of the canary, up to the full rollout, keeps every subject it
  // already served, and the others stay where they were or move to it; at 100 it serves
  // every subject.
  lemma RaiseEnlarges(cs: seq<Config>, reports: map<Ref, Report>, id: nat, report: Ref, percent: nat,
                      subject: Ref, digest: (Ref, nat, Ref) -> nat)
    requires RolloutOk(cs, reports) && id < |cs| && cs[id].status == Canary && cs[id].percent <= percent <= 100
    requires Activate(cs, reports, id, report, percent).Ok?
    ensures
      var ds, purpose := Activate(cs, reports, id, report, percent).value, cs[id].purpose;
      && (Route(cs, purpose, subject, digest) == Some(id) ==> Route(ds, purpose, subject, digest) == Some(id))
      && (Route(ds, purpose, subject, digest) == Some(id) || Route(ds, purpose, subject, digest) ==
        Route(cs, purpose, subject, digest))
      && (percent == 100 ==> Route(ds, purpose, subject, digest) == Some(id))
  {
    var ds, purpose := Activate(cs, reports, id, report, percent).value, cs[id].purpose;
    ActivateKeeps(cs, reports, id, report, percent);
    OnlyOne(cs, reports, purpose, Canary, id);
    var b :| 0 <= b < |cs| && b != id && cs[b].purpose == purpose && cs[b].status == Active;
    OnlyOne(cs, reports, purpose, Active, b);
    if percent < 100 {
      assert ds[b] == cs[b];
      OnlyOne(ds, reports, purpose, Canary, id);
      OnlyOne(ds, reports, purpose, Active, b);
    } else {
      OnlyOne(ds, reports, purpose, Active, id);
    }
  }

  // Without an active configuration there is no routing; beside a canary, the subjects whose
  // hash falls below its percentage go to it and all others to the active configuration.
  lemma RouteExact(cs: seq<Config>, reports: map<Ref, Report>, purpose: Ref, a: nat, c: nat, subject: Ref,
                   digest: (Ref, nat, Ref) -> nat)
    requires RolloutOk(cs, reports)
    ensures (forall i :: 0 <= i < |cs| ==> !ActiveFor(cs[i], purpose)) ==> Route(cs, purpose, subject, digest) == None
    ensures a < |cs| && ActiveFor(cs[a], purpose) ==>
      && ((forall i :: 0 <= i < |cs| && cs[i].purpose == purpose ==> cs[i].status != Canary) ==>
        Route(cs, purpose, subject, digest) == Some(a))
      && (c < |cs| && cs[c].purpose == purpose && cs[c].status == Canary ==>
        Route(cs, purpose, subject, digest) == Some(if digest(purpose, c, subject) % 100 < cs[c].percent then c else a))
  {
    var active := Find(cs, purpose, Active);
    if active.Some? { assert ActiveFor(cs[active.value], purpose); }
    hide RolloutOk;
    if a < |cs| && ActiveFor(cs[a], purpose) {
      OnlyOne(cs, reports, purpose, Active, a);
      if c < |cs| && cs[c].purpose == purpose && cs[c].status == Canary {
        OnlyOne(cs, reports, purpose, Canary, c);
      }
    }
  }

  lemma OnlyOne(cs: seq<Config>, reports: map<Ref, Report>, purpose: Ref, status: ConfigStatus, i: nat)
    requires RolloutOk(cs, reports) && i < |cs| && cs[i].purpose == purpose && cs[i].status == status
    requires status == Active || status == Canary
    ensures Find(cs, purpose, status) == Some(i)
  {
    var j := Find(cs, purpose, status).value;
    assert i != j ==> Apart(cs[Min(i, j)], cs[Max(i, j)]);
  }

  // ---- The table activation updates in place ----

  lemma BaselineNext(cs: seq<Config>, purpose: Ref, id: nat, i: nat)
    requires i < |cs|
    ensures HasBaseline(cs[..i + 1], purpose, id) <==>
      HasBaseline(cs[..i], purpose, id) || (i != id && cs[i].purpose == purpose && cs[i].status == Active)
  {
    if HasBaseline(cs[..i], purpose, id) {
      var b :| 0 <= b < i && b != id && cs[..i][b].purpose == purpose && cs[..i][b].status == Active;
      assert cs[..i + 1][b] == cs[..i][b];
    }
    if i != id && cs[i].purpose == purpose && cs[i].status == Active { assert cs[..i + 1][i] == cs[i]; }
  }

  class ConfigTable {
    const reports: map<Ref, Report>
    var rows: seq<Config>

    method ActivateConfiguration(id: nat, report: Ref, percent: nat) returns (error: Option<Error>)
      requires 1 <= percent <= 100
      modifies this
      ensures match Activate(old(rows), reports, id, report, percent)
        case Ok(next) => error == None && rows == next
        case Err(why) => error == Some(why) && rows == old(rows)
    {
      if id >= |rows| { return Some(ModelConfigurationNotFound); }
      if report !in reports || reports[report].config != id { return Some(EvaluationReportInvalid); }
      if !reports[report].passed { return Some(EvaluationGateFailed); }
      ghost var was := rows;
      var purpose := rows[id].purpose;
      if percent < 100 {
        var found := false;
        for i := 0 to |rows|
          invariant rows == was && (found <==> HasBaseline(was[..i], purpose, id))
        {
          BaselineNext(rows, purpose, id, i);
          if i != id && rows[i].purpose == purpose && rows[i].status == Active { found := true; }
        }
        assert rows[..|rows|] == rows;
        if !found { return Some(CanaryBaselineRequired); }
      }
      for i := 0 to |rows|
        invariant |rows| == |was|
        invariant forall k :: 0 <= k < |was| ==>
          rows[k] == if k < i && k != id then Superseded(was[k], purpose, percent) else was[k]
      {
        if i != id && Deployed(rows[i], purpose) && (percent == 100 || rows[i].status == Canary) {
          rows := rows[i := rows[i].(status := Retired, percent := 0)];
        }
      }
      rows := rows[id := rows[id].(status := if percent < 100 then Canary else Active, percent := percent,
        report := Some(report))];
      return None;
    }
  }
}
