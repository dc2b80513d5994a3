/** The run-evidence validator: from rows to a whole run. */
module EvidenceChain {
  import opened Options
  import opened Reals

  const TOLERANCE: real := 128.0 / 4503599627370496.0

  function Scale(left: real, right: real): real {
    Larger(Larger(1.0, Abs(left)), Abs(right))
  }

  /** Agreement to 128 units in the last place of the larger magnitude, or of one. */
  predicate Close(left: real, right: real) {
    Abs(left - right) <= TOLERANCE * Scale(left, right)
  }

  datatype Schema = Cold | V8 | V7 | V6 | V5 | V4 | V3 | V2 | Legacy

  predicate Modern(s: Schema) {
    s.Cold? || s.V8? || s.V7? || s.V6?
  }

  datatype Policy = RequireCompatible | RebuildMethodHistory | RefineChemistry

  datatype RunHistory = RunHistory(version: nat, source: nat, target: nat, policy: Policy)

  datatype Kind = Fresh | Restart

  /** Where the run claims to start; the digest of no manifest is absent. */
  datatype Anchor = Anchor(kind: Kind, previousStep: nat, previousTime: real, digest: Option<nat>,
                           history: Option<RunHistory>)

  /** The manifest a restart run is validated against, as its reader summarises it. */
  datatype Authority = Authority(digest: nat, step: nat, time: real, backwardEulerRecovery: bool, version: nat,
                                 signature: nat)

  datatype Identity = Identity(build: int, binary: int, candidate: int, caseId: int, stl: int, product: int,
                               cpuPlan: int)

  datatype Advective = Advective(plan: int, activity: int, limit: real, dt: real)

  /** One row. `sane` stands for the checks of the remaining fields, which concern this row alone. */
  datatype Record = Record(schema: Schema, identity: Identity, anchor: Anchor, step: int, time: real,
                           previousTime: real, dt: real, firstOrder: bool, startup: bool, retry: bool, recovery: bool,
                           eligible: bool, advective: Advective, coldSetup: int, sane: bool)

  predicate First(r: Record) {
    r.step == r.anchor.previousStep + 1
  }

  predicate HistoryOk(r: Record, h: RunHistory) {
    && r.anchor.kind == Restart && 1 <= h.version <= 6 && h.target >= 1
    && ((h.version == 1 || h.version == 2 || h.version == 6) ==> h.source == 0)
    && ((h.version == 3 || h.version == 4 || h.version == 5) ==> h.source != 0)
    && (h.policy == RefineChemistry ==> h.version == 3 || h.version == 4 || h.version == 5)
    && (h.policy == RebuildMethodHistory || h.version == 1 || h.version == 6 || h.source == h.target)
    && (First(r) ==> r.recovery == (h.version == 1 || h.version == 6 || h.policy == RebuildMethodHistory))
  }

  predicate AnchorOk(r: Record) {
    var a := r.anchor;
    && a.previousTime >= 0.0 && r.step >= 1 && r.step > a.previousStep
    && (match a.kind
        case Fresh =>
          a.previousStep == 0 && a.previousTime == 0.0 && a.digest == None && !r.recovery && r.startup == (r.step == 1)
        case Restart =>
          && a.digest.Some? && a.digest.value != 0 && a.previousStep != 0 && !r.startup && (r.recovery ==> First(r))
          && (First(r) && r.recovery ==> r.firstOrder))
    && (a.history.Some? ==> HistoryOk(r, a.history.value))
    && (First(r) ==> Close(r.previousTime, a.previousTime))
  }

  /** The clock of one row: positive step, consistent with its own previous time. */
  predicate ClockOk(r: Record) {
    r.previousTime >= 0.0 && r.time > r.previousTime && r.dt > 0.0 && Close(r.time - r.previousTime, r.dt)
  }

  predicate Named(r: Record) {
    && r.identity.build > 0 && r.identity.binary > 0 && r.identity.caseId > 0 && r.identity.product > 0
    && r.identity.cpuPlan > 0
  }

  predicate NoTransientSampled(r: Record) {
    !((r.startup || r.retry || r.recovery) && r.eligible)
  }

  /** The checks of a row by itself. */
  predicate RowOk(r: Record) {
    && r.sane && Named(r) && NoTransientSampled(r) && (Modern(r.schema) ==> AnchorOk(r) && ClockOk(r))
  }

  predicate SameAuthority(a: Advective, b: Advective) {
    a.plan == b.plan && a.activity == b.activity && a.limit == b.limit
  }

  /** The first modern row against its anchor and against the restart manifest, if there is one. */
  predicate StartOk(r: Record, authority: Option<Authority>) {
    && First(r) && Close(r.previousTime, r.anchor.previousTime)
    && (match r.anchor.kind
        case Fresh => authority == None
        case Restart =>
          && authority.Some?
          && var m := authority.value;
          && (r.anchor.history.Some? ==>
                r.anchor.history.value.version == m.version && r.anchor.history.value.source == m.signature)
          && r.anchor.digest == Some(m.digest) && r.anchor.previousStep == m.step
          && Close(r.anchor.previousTime, m.time)
          && r.recovery == (m.backwardEulerRecovery
                            || (r.anchor.history.Some? && r.anchor.history.value.policy == RebuildMethodHistory)))
  }

  /** A modern row against the one before it. */
  predicate Follows(prior: Record, r: Record) {
    && r.identity == prior.identity && r.anchor == prior.anchor && r.step == prior.step + 1
    && Close(r.previousTime, prior.time) && (r.schema == Cold ==> r.coldSetup == prior.coldSetup)
    && SameAuthority(r.advective, prior.advective)
  }

  /** A version-5 row against the one before it; the candidate identity did not exist then. */
  predicate FollowsV5(prior: Record, r: Record) {
    && r.identity == prior.identity.(candidate := r.identity.candidate)
    && r.step == prior.step + 1 && SameAuthority(r.advective, prior.advective)
    && r.time - prior.time > 0.0 && Close(r.time - prior.time, r.advective.dt)
  }

  // ----- the validator

  /** What an accepted file is: every row by itself, one schema, and every row against its predecessor. */
  ghost predicate Accepted(records: seq<Record>, authority: Option<Authority>) {
    && |records| > 0 && AcceptedSoFar(records, authority)
    && (authority.Some? ==> Modern(records[0].schema) && records[0].anchor.kind == Restart)
  }

  ghost predicate AcceptedSoFar(records: seq<Record>, authority: Option<Authority>) {
    && (forall i :: 0 <= i < |records| ==> RowOk(records[i]) && records[i].schema == records[0].schema)
    && (forall i :: 0 < i < |records| ==> Linked(records[i - 1], records[i]))
    && (|records| > 0 ==> records[0].step > 0 && (Modern(records[0].schema) ==> StartOk(records[0], authority)))
  }

  predicate Linked(prior: Record, r: Record) {
    && r.step > prior.step
    && (Modern(r.schema) ==> Follows(prior, r)) && (r.schema == V5 ==> FollowsV5(prior, r))
  }

  /** One turn of the reading loop: the row against the carried state. */
  predicate Admits(priorStep: int, runSchema: Option<Schema>, priorModern: Option<Record>, priorV5: Option<Record>,
                   authority: Option<Authority>, r: Record)
  {
    && (runSchema.Some? ==> r.schema == runSchema.value) && RowOk(r) && r.step > priorStep
    && (Modern(r.schema) ==>
          if priorModern.None? then StartOk(r, authority) else Follows(priorModern.value, r))
    && (r.schema == V5 && priorV5.Some? ==> FollowsV5(priorV5.value, r))
  }

  /** The validator as the source runs it, with its carried prior step, schema and records. */
  method ValidateRuntime(records: seq<Record>, authority: Option<Authority>) returns (ok: bool)
    ensures ok <==> Accepted(records, authority)
  {
    var priorStep, runSchema, priorModern, priorV5 := 0, None, None, None;
    var authorityUsed, seen := false, 0;
    while seen < |records|
      invariant 0 <= seen <= |records|
      invariant AcceptedSoFar(records[..seen], authority)
      invariant Carried(records[..seen], priorStep, runSchema, priorModern, priorV5)
      invariant authorityUsed == (seen > 0 && Modern(records[0].schema) && records[0].anchor.kind == Restart)
    {
      var r := records[seen];
      AdmitsExactly(records[..seen], priorStep, runSchema, priorModern, priorV5, authority, r);
      assert records[..seen + 1] == records[..seen] + [r];
      if !Admits(priorStep, runSchema, priorModern, priorV5, authority, r) {
        PrefixAccepted(records, authority, seen + 1);
        return false;
      }
      if Modern(r.schema) && priorModern.None? && r.anchor.kind == Restart {
        authorityUsed := true;
      }
      priorStep, runSchema := r.step, Some(r.schema);
      priorModern := if Modern(r.schema) then Some(r) else None;
      priorV5 := if r.schema == V5 then Some(r) else None;
      seen := seen + 1;
    }
    assert records[..seen] == records;
    ok := seen > 0 && (authority.Some? ==> authorityUsed);
  }

  /** What the loop carries from the rows read so far. */
  ghost predicate Carried(rows: seq<Record>, priorStep: int, runSchema: Option<Schema>, priorModern: Option<Record>,
                          priorV5: Option<Record>)
  {
    if rows == [] then priorStep == 0 && runSchema == None && priorModern == None && priorV5 == None
    else
      var last := rows[|rows| - 1];
      && priorStep == last.step && runSchema == Some(rows[0].schema)
      && priorModern == (if Modern(last.schema) then Some(last) else None)
      && priorV5 == (if last.schema == V5 then Some(last) else None)
  }

  lemma AdmitsExactly(rows: seq<Record>, priorStep: int, runSchema: Option<Schema>, priorModern: Option<Record>,
                      priorV5: Option<Record>, authority: Option<Authority>, r: Record)
    requires AcceptedSoFar(rows, authority) && Carried(rows, priorStep, runSchema, priorModern, priorV5)
    ensures Admits(priorStep, runSchema, priorModern, priorV5, authority, r) <==> AcceptedSoFar(rows + [r], authority)
  {
    var longer := rows + [r];
    if rows == [] {
      assert longer == [r];
    } else {
      var last := rows[|rows| - 1];
      assert longer[|rows| - 1] == last && longer[|rows|] == r && longer[0] == rows[0];
      assert last.schema == rows[0].schema;
      assert Admits(priorStep, runSchema, priorModern, priorV5, authority, r)
        <==> r.schema == rows[0].schema && RowOk(r) && Linked(last, r);
      if r.schema == rows[0].schema && RowOk(r) && Linked(last, r) {
        forall i | 0 < i < |longer|
          ensures Linked(longer[i - 1], longer[i])
        {
          if i < |rows| {
            assert longer[i - 1] == rows[i - 1] && longer[i] == rows[i];
          }
        }
      }
      if AcceptedSoFar(longer, authority) {
        assert Linked(longer[|rows| - 1], longer[|rows|]);
        assert RowOk(longer[|rows|]);
      }
    }
  }

  lemma PrefixAccepted(records: seq<Record>, authority: Option<Authority>, n: nat)
    requires 0 < n <= |records|
    ensures AcceptedSoFar(records, authority) ==> AcceptedSoFar(records[..n], authority)
  {
    if AcceptedSoFar(records, authority) {
      var front := records[..n];
      forall i | 0 < i < n
        ensures Linked(front[i - 1], front[i])
      {
        assert Linked(records[i - 1], records[i]);
      }
    }
  }

  // ----- what acceptance means for the whole run

  /** The steps of an accepted modern file are the successors of its anchor, without a gap, under one identity. */
  lemma {:induction false} OneUnbrokenRun(records: seq<Record>, authority: Option<Authority>, i: nat)
    requires Accepted(records, authority) && Modern(records[0].schema) && i < |records|
    ensures records[i].step == records[0].anchor.previousStep + 1 + i
    ensures records[i].identity == records[0].identity && records[i].anchor == records[0].anchor
    ensures SameAuthority(records[i].advective, records[0].advective)
  {
    if i > 0 {
      OneUnbrokenRun(records, authority, i - 1);
      assert Linked(records[i - 1], records[i]);
    }
  }

  /** Only the first row of a run can be its startup or its recovery step. */
  lemma OnlyFirstTransient(records: seq<Record>, authority: Option<Authority>, i: nat)
    requires Accepted(records, authority) && Modern(records[0].schema) && 0 < i < |records|
    ensures !records[i].startup && !records[i].recovery
  {
    OneUnbrokenRun(records, authority, i);
    assert RowOk(records[i]);
  }

  ghost function ElapsedTo(records: seq<Record>, n: nat): real
    requires n <= |records|
  {
    if n == 0 then 0.0 else ElapsedTo(records, n - 1) + records[n - 1].dt
  }

  /** One, and every time, previous time and step of the file, is at most the bound. */
  ghost predicate Within(records: seq<Record>, bound: real) {
    && bound >= 1.0
    && forall i :: 0 <= i < |records| ==>
         records[i].time <= bound && records[i].dt <= bound && records[i].anchor.previousTime <= bound
  }

  lemma CloseBound(left: real, right: real, bound: real)
    requires Close(left, right) && 1.0 <= bound && Abs(left) <= bound && Abs(right) <= bound
    ensures Abs(left - right) <= TOLERANCE * bound
  {
    assert Scale(left, right) <= bound;
  }

  /** What one row adds to the drift: at most twice the tolerance. */
  lemma RowDrift(before: real, r: Record, bound: real)
    requires ClockOk(r) && Close(r.previousTime, before) && bound >= 1.0
    requires 0.0 <= before <= bound && r.time <= bound && r.dt <= bound
    ensures Abs(r.time - before - r.dt) <= 2.0 * (TOLERANCE * bound)
  {
    CloseBound(r.previousTime, before, bound);
    CloseBound(r.time - r.previousTime, r.dt, bound);
  }

  /** The amount counted n times. */
  ghost function Times(n: nat, amount: real): real {
    if n == 0 then 0.0 else Times(n - 1, amount) + amount
  }

  lemma {:induction false} TimesProduct(n: nat, amount: real)
    ensures Times(n, amount) == (n as real) * amount
  {
    if n > 0 {
      TimesProduct(n - 1, amount);
      assert (n as real) * amount == ((n - 1) as real) * amount + amount;
    }
  }

  /** The committed time a row continues from. */
  function TimeBefore(records: seq<Record>, i: nat): real
    requires i < |records|
  {
    if i == 0 then records[0].anchor.previousTime else records[i - 1].time
  }

  ghost predicate Tracks(records: seq<Record>, unit: real) {
    forall i :: 0 <= i < |records| ==> Abs(records[i].time - TimeBefore(records, i) - records[i].dt) <= unit
  }

  lemma RowsTrack(records: seq<Record>, authority: Option<Authority>, bound: real)
    requires Accepted(records, authority) && Modern(records[0].schema) && Within(records, bound)
    ensures Tracks(records, 2.0 * (TOLERANCE * bound))
  {
    forall i | 0 <= i < |records|
      ensures Abs(records[i].time - TimeBefore(records, i) - records[i].dt) <= 2.0 * (TOLERANCE * bound)
    {
      assert RowOk(records[i]) && RowOk(records[0]);
      if i > 0 {
        assert RowOk(records[i - 1]) && Linked(records[i - 1], records[i]);
      }
      RowDrift(TimeBefore(records, i), records[i], bound);
    }
  }

  lemma {:induction false} DriftAdds(records: seq<Record>, unit: real, n: nat)
    requires Tracks(records, unit) && 0 < n <= |records|
    ensures Abs(records[n - 1].time - records[0].anchor.previousTime - ElapsedTo(records, n)) <= Times(n, unit)
  {
    assert Abs(records[n - 1].time - TimeBefore(records, n - 1) - records[n - 1].dt) <= unit;
    if n == 1 {
      assert ElapsedTo(records, 1) == ElapsedTo(records, 0) + records[0].dt;
    } else {
      DriftAdds(records, unit, n - 1);
    }
  }

  lemma Drift(records: seq<Record>, unit: real)
    requires Tracks(records, unit) && |records| > 0
    ensures Abs(records[|records| - 1].time - records[0].anchor.previousTime - ElapsedTo(records, |records|))
            <= (|records| as real) * unit
  {
    DriftAdds(records, unit, |records|);
    TimesProduct(|records|, unit);
  }

  /** However long the run, the last time differs from the start plus all certified steps by at most two tolerances a
      row. */
  lemma ElapsedTime(records: seq<Record>, authority: Option<Authority>, bound: real, unit: real)
    requires Accepted(records, authority) && Modern(records[0].schema) && Within(records, bound)
    requires unit == 2.0 * (TOLERANCE * bound)
    ensures Abs(records[|records| - 1].time - records[0].anchor.previousTime - ElapsedTo(records, |records|))
            <= (|records| as real) * unit
  {
    assert Tracks(records, unit) by {
      RowsTrack(records, authority, bound);
    }
    Drift(records, unit);
  }

  lemma RestartStart(records: seq<Record>, m: Authority, bound: real)
    requires Accepted(records, Some(m)) && Within(records, bound) && 0.0 <= m.time <= bound
    ensures records[0].anchor.digest == Some(m.digest) && records[0].anchor.previousStep == m.step
    ensures Abs(records[0].anchor.previousTime - m.time) <= TOLERANCE * bound
    ensures m.backwardEulerRecovery ==> records[0].recovery && !records[0].eligible
  {
    assert RowOk(records[0]);
    CloseBound(records[0].anchor.previousTime, m.time, bound);
  }

  lemma AbsChain(a: real, b: real, c: real, e: real, drift: real, offset: real)
    requires Abs(a - b - e) <= drift && Abs(b - c) <= offset
    ensures Abs(a - c - e) <= drift + offset
  {
  }

  /** A restart run continues the manifest it was validated against: same step numbering, same clock up to the
      tolerances, and a recovery step where the manifest asks for one. */
  lemma RestartContinues(records: seq<Record>, m: Authority, bound: real, unit: real)
    requires Accepted(records, Some(m)) && Within(records, bound) && 0.0 <= m.time <= bound
    requires unit == 2.0 * (TOLERANCE * bound)
    ensures records[|records| - 1].step == m.step + |records| && records[0].anchor.digest == Some(m.digest)
    ensures Abs(records[|records| - 1].time - m.time - ElapsedTo(records, |records|))
            <= (|records| as real) * unit + TOLERANCE * bound
    ensures m.backwardEulerRecovery ==> records[0].recovery && !records[0].eligible
  {
    OneUnbrokenRun(records, Some(m), |records| - 1);
    RestartStart(records, m, bound);
    ElapsedTime(records, Some(m), bound, unit);
    AbsChain(records[|records| - 1].time, records[0].anchor.previousTime, m.time, ElapsedTo(records, |records|),
             (|records| as real) * unit, TOLERANCE * bound);
  }

  /** A manifest is accepted with a file only by a restart run; without one only fresh modern runs are. */
  lemma AuthorityExactly(records: seq<Record>, authority: Option<Authority>)
    requires Accepted(records, authority)
    ensures authority.Some? <==> Modern(records[0].schema) && records[0].anchor.kind == Restart
  {
  }

  /** The times of an accepted file can go backwards: the tolerance is absolute for short steps. */
  lemma TimesMayDecrease(first: Record, second: Record)
    requires first.sane && Named(first) && !first.eligible && !first.recovery && first.startup && !first.retry
    requires first.schema == V8 && first.step == 1 && first.previousTime == 0.0
    requires first.anchor == Anchor(Fresh, 0, 0.0, None, None)
    requires first.time == TOLERANCE / 2.0 && first.dt == TOLERANCE / 2.0
    requires second == first.(step := 2, startup := false, time := TOLERANCE / 4.0)
    ensures Accepted([first, second], None) && second.time < first.time
  {
    var records := [first, second];
    assert Close(second.previousTime, first.time);
    assert Close(second.time - second.previousTime, second.dt);
    assert RowOk(first) && RowOk(second);
    assert Linked(records[0], records[1]);
  }

  /** Whatever time a row is linked to, the row ends later: exactly when its own two times are not close. */
  lemma EndsLaterExactly(r: Record)
    requires ClockOk(r)
    ensures (forall t: real :: t >= 0.0 && Close(r.previousTime, t) ==> t < r.time) <==> !Close(r.previousTime, r.time)
  {
    if !Close(r.previousTime, r.time) {
      forall t: real | t >= 0.0 && Close(r.previousTime, t)
        ensures t < r.time
      {
        if t >= r.time {
          CloseBetween(r.previousTime, r.time, t);
        }
      }
    }
  }

  /** Closeness to a later time holds for every time between. */
  lemma CloseBetween(start: real, middle: real, end: real)
    requires 0.0 <= start <= middle <= end && Close(start, end)
    ensures Close(start, middle)
  {
    assert end > 1.0 ==> end - start <= TOLERANCE * end;
  }

  /** So an accepted file's times increase into every row whose own two times are not close. */
  lemma TimesIncrease(records: seq<Record>, authority: Option<Authority>, i: nat)
    requires Accepted(records, authority) && Modern(records[0].schema) && 0 < i < |records|
    requires !Close(records[i].previousTime, records[i].time)
    ensures records[i].time > records[i - 1].time
  {
    assert RowOk(records[i]) && RowOk(records[i - 1]);
    assert Linked(records[i - 1], records[i]);
    EndsLaterExactly(records[i]);
  }

  /** And for every second row of a fresh run whose two times are close, there is an accepted file in which the time
      does not increase into it. */
  lemma TimesNeedNotIncrease(r: Record) returns (first: Record)
    requires RowOk(r) && Modern(r.schema) && r.step == 2 && r.anchor == Anchor(Fresh, 0, 0.0, None, None)
    requires Close(r.previousTime, r.time)
    ensures Accepted([first, r], None) && first.time >= r.time
  {
    first := r.(step := 1, startup := true, retry := false, recovery := false, eligible := false,
                previousTime := 0.0, time := r.time, dt := r.time);
    var records := [first, r];
    assert RowOk(first);
    assert Linked(records[0], records[1]);
  }

  ghost function CertifiedTo(records: seq<Record>, n: nat): real
    requires n <= |records|
  {
    if n <= 1 then 0.0 else CertifiedTo(records, n - 1) + records[n - 1].advective.dt
  }

  lemma {:induction false} V5Drift(records: seq<Record>, bound: real, unit: real, n: nat)
    requires Accepted(records, None) && records[0].schema == V5 && 0 < n <= |records| && V5Within(records, bound)
    requires unit == TOLERANCE * bound
    ensures records[n - 1].step == records[0].step + (n - 1) && records[n - 1].time >= records[0].time
    ensures Abs(records[n - 1].time - records[0].time - CertifiedTo(records, n)) <= Times(n - 1, unit)
  {
    if n > 1 {
      var prior, r := records[n - 2], records[n - 1];
      V5Drift(records, bound, unit, n - 1);
      assert Linked(records[n - 2], records[n - 1]);
      CloseBound(r.time - prior.time, r.advective.dt, bound);
    }
  }

  ghost predicate V5Within(records: seq<Record>, bound: real) {
    && bound >= 1.0
    && forall i :: 0 <= i < |records| ==> 0.0 <= records[i].time <= bound && Abs(records[i].advective.dt) <= bound
  }

  /** Version-5 files: contiguous, increasing, and one tolerance a row. */
  lemma V5Run(records: seq<Record>, bound: real)
    requires Accepted(records, None) && records[0].schema == V5 && V5Within(records, bound)
    ensures var n := |records|;
            && records[n - 1].step == records[0].step + (n - 1) && records[n - 1].time >= records[0].time
            && Abs(records[n - 1].time - records[0].time - CertifiedTo(records, n))
               <= ((n - 1) as real) * (TOLERANCE * bound)
  {
    V5Drift(records, bound, TOLERANCE * bound, |records|);
    TimesProduct(|records| - 1, TOLERANCE * bound);
  }
}
