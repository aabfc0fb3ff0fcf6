/** Rechecks of site monitors, which the panel probes itself (`panel_work` in
    backend/app/alert_recheck.py): a job is claimed, the network runs for up to a minute with no row
    locked, and the result is written back under row locks. Meanwhile the scheduler keeps writing the
    same monitor, people edit or delete it, and another worker may have claimed the job again. The exits
    that act on a job read without a lock are steps that carry what was read. */
module PanelWork {
  import opened Basics

  const TIMEOUT := 180.0
  const LEASE := 75.0

  datatype Kind = Tamper | Status | Ssl | Domain

  datatype JobStatus = Checking | Fixed | Remains | Unavailable

  /** What `identity` hashes; the two lists of warning thresholds are the part used here. */
  datatype Config = Config(rest: string, sslWarn: seq<int>, domainWarn: seq<int>)

  /** Days left and the message beside them. */
  datatype Expiry = Expiry(days: Option<int>, message: string)

  /** A monitor. `status` stands for the fields one run of the check writes. */
  datatype Monitor = Monitor(
    config: Config, status: string, ssl: Expiry, domain: Expiry, expiryAt: Option<real>, tamper: string)

  /** `check_snapshot`: what the kind's own collection writes. */
  datatype Snapshot = OfTamper(state: string) | OfStatus(status: string) | OfExpiry(expiry: Expiry, at: Option<real>)

  function SnapshotOf(m: Monitor, kind: Kind): Snapshot {
    match kind
    case Tamper => OfTamper(m.tamper)
    case Status => OfStatus(m.status)
    case Ssl => OfExpiry(m.ssl, m.expiryAt)
    case Domain => OfExpiry(m.domain, m.expiryAt)
  }

  datatype Job = Job(
    monitor: int, kind: Kind, deadline: real, taken: Option<real>, status: JobStatus, done: Option<real>,
    identity: Config, baseline: Snapshot)

  /** What the network brought: days left, a run of the check, a page that could not be read, one that
      does not settle the question, or one that does. */
  datatype Found =
    | Days(days: int, message: string)
    | Ran(status: string, up: bool)
    | NoPage | Unsettled
    | Page(state: string, clean: bool)

  /** Each kind asks its own question. */
  predicate Fits(kind: Kind, found: Found) {
    match kind
    case Tamper => found.NoPage? || found.Unsettled? || found.Page?
    case Status => found.Ran?
    case Ssl => found.Days?
    case Domain => found.Days?
  }

  // ---------------------------------------------------------------- one write-back

  function Finish(job: Job, status: JobStatus, now: real): Job { job.(status := status, done := Some(now)) }

  function Expire(job: Job, now: real): Job {
    if job.status.Checking? && job.deadline <= now then Finish(job, Unavailable, now) else job
  }

  function Thresholds(config: Config, kind: Kind): seq<int> {
    if kind.Ssl? then config.sslWarn else config.domainWarn
  }

  predicate Under(days: int, limits: seq<int>) { exists i :: 0 <= i < |limits| && days <= limits[i] }

  predicate Above(days: int, limits: seq<int>) { forall i :: 0 <= i < |limits| ==> limits[i] < days }

  function Clipped(message: string): string { if |message| > 256 then message[..256] else message }

  /** The monitor with the result in it. */
  function Written(m: Monitor, kind: Kind, found: Found, now: real): Monitor {
    match found
    case Days(days, message) =>
      var e := Expiry(Some(days), Clipped(message));
      if kind.Ssl? then m.(ssl := e, expiryAt := Some(now)) else m.(domain := e, expiryAt := Some(now))
    case Ran(status, _) => m.(status := status)
    case Page(state, _) => m.(tamper := state)
    case _ => m
  }

  /** The problem is still there. */
  predicate Left(m: Monitor, kind: Kind, found: Found) {
    match found
    case Days(days, _) => Under(days, Thresholds(m.config, kind))
    case Ran(_, up) => !up
    case Page(_, clean) => !clean
    case _ => true
  }

  /** The job may be decided by this result: in time, on the monitor it was created for, and with
      nothing newer in the fields it would write. */
  predicate Decides(m: Option<Monitor>, job: Job, found: Found, now: real) {
    && job.status.Checking? && now < job.deadline
    && m.Some? && m.value.config == job.identity && SnapshotOf(m.value, job.kind) == job.baseline
    && !found.NoPage? && !found.Unsettled?
  }

  function JobAfter(m: Option<Monitor>, job: Job, found: Found, now: real): Job {
    if !job.status.Checking? then job
    else if Decides(m, job, found, now)
    then Finish(job, if Left(m.value, job.kind, found) then Remains else Fixed, now)
    else Finish(job, Unavailable, now)
  }

  // ---------------------------------------------------------------- the panel

  /** A worker between its claim and its write-back, with the configuration it probes once it has read it. */
  datatype Worker = Worker(job: string, config: Option<Config>)

  datatype State = State(monitors: map<int, Monitor>, jobs: map<string, Job>, workers: map<nat, Worker>)

  datatype Action =
    | Create(id: string, monitor: int, kind: Kind, now: real)
    | Claim(worker: nat, id: string, now: real)
    | Begin(worker: nat)
    | WriteBack(worker: nat, found: Found, now: real)
    | Abandon(id: string, row: Job, now: real)
    | Automatic(monitor: int, result: Monitor)
    | Edit(monitor: int, config: Config)
    | Remove(monitor: int)

  function MonitorAt(s: State, id: int): Option<Monitor> { if id in s.monitors then Some(s.monitors[id]) else None }

  predicate Claimable(job: Job, now: real) {
    && job.status.Checking? && job.deadline > now
    && (job.taken.Some? ==> job.taken.value < now - LEASE)
  }

  ghost predicate CanStep(s: State, a: Action) {
    match a
    case Create(id, monitor, _, _) => id !in s.jobs && monitor in s.monitors
    case Claim(worker, _, _) => worker !in s.workers
    case Begin(worker) => worker in s.workers && s.workers[worker].config.None?
    case WriteBack(worker, found, _) =>
      && worker in s.workers && s.workers[worker].config.Some? && s.workers[worker].job in s.jobs
      && Fits(s.jobs[s.workers[worker].job].kind, found)
    case Abandon(id, row, _) => id in s.jobs && row.status.Checking?
    case Automatic(monitor, result) => monitor in s.monitors && result.config == s.monitors[monitor].config
    case Edit(monitor, _) => monitor in s.monitors
    case Remove(_) => true
  }

  function Created(m: Monitor, a: Action): Job
    requires a.Create?
  {
    Job(a.monitor, a.kind, a.now + TIMEOUT, None, Checking, None, m.config, SnapshotOf(m, a.kind))
  }

  /** The conditional update that takes the lease; it is committed on its own. */
  function Claimed(s: State, a: Action): State
    requires a.Claim?
  {
    if a.id !in s.jobs || !Claimable(s.jobs[a.id], a.now) then s
    else
      s.(jobs := s.jobs[a.id := s.jobs[a.id].(taken := Some(a.now))],
         workers := s.workers[a.worker := Worker(a.id, None)])
  }

  /** The monitor is read next; a worker goes on to the network only with the configuration the job was
      created for. */
  function Begun(s: State, worker: nat): State
    requires worker in s.workers
  {
    var id := s.workers[worker].job;
    if id in s.jobs && s.jobs[id].monitor in s.monitors && s.monitors[s.jobs[id].monitor].config == s.jobs[id].identity
    then s.(workers := s.workers[worker := Worker(id, Some(s.jobs[id].identity))])
    else s.(workers := s.workers - {worker})
  }

  function WrittenBack(s: State, id: string, found: Found, now: real): State
    requires id in s.jobs
  {
    var job := s.jobs[id];
    var m := MonitorAt(s, job.monitor);
    s.(jobs := s.jobs[id := JobAfter(m, job, found, now)],
       monitors := if Decides(m, job, found, now)
                   then s.monitors[job.monitor := Written(m.value, job.kind, found, now)] else s.monitors)
  }

  ghost function Step(s: State, a: Action): State
    requires CanStep(s, a)
  {
    match a
    case Create(id, monitor, _, _) => s.(jobs := s.jobs[id := Created(s.monitors[monitor], a)])
    case Claim(_, _, _) => Claimed(s, a)
    case Begin(worker) => Begun(s, worker)
    case WriteBack(worker, found, now) =>
      WrittenBack(s, s.workers[worker].job, found, now).(workers := s.workers - {worker})
    // a changed monitor, a failed probe or the list of rechecks: the end is written over any status
    case Abandon(id, _, now) => s.(jobs := s.jobs[id := Finish(s.jobs[id], Unavailable, now)])
    case Automatic(monitor, result) => s.(monitors := s.monitors[monitor := result])
    case Edit(monitor, config) => s.(monitors := s.monitors[monitor := s.monitors[monitor].(config := config)])
    case Remove(monitor) => s.(monitors := s.monitors - {monitor})
  }

  /** The two tables, changed in place. */
  class Tables {
    var monitors: map<int, Monitor>
    var jobs: map<string, Job>

    ghost function Now(workers: map<nat, Worker>): State reads this { State(monitors, jobs, workers) }

    /** The row-locked end of `panel_work`. */
    method WriteBack(id: string, found: Found, now: real, ghost workers: map<nat, Worker>)
      requires id in jobs && Fits(jobs[id].kind, found)
      modifies this
      ensures Now(workers) == WrittenBack(old(Now(workers)), id, found, now)
    {
      var job := Expire(jobs[id], now);
      if !job.status.Checking? {
        jobs := jobs[id := job];
        return;
      }
      if job.monitor !in monitors || monitors[job.monitor].config != job.identity {
        job := Finish(job, Unavailable, now);
      } else if SnapshotOf(monitors[job.monitor], job.kind) != job.baseline {
        job := Finish(job, Unavailable, now);
      } else {
        var m := monitors[job.monitor];
        match found {
          case Days(days, message) =>
            var e := Expiry(Some(days), Clipped(message));
            m := if job.kind.Ssl? then m.(ssl := e) else m.(domain := e);
            m := m.(expiryAt := Some(now));
            var left := AnyUnder(days, Thresholds(m.config, job.kind));
            job := Finish(job, if left then Remains else Fixed, now);
          case Ran(status, up) =>
            m := m.(status := status);
            job := Finish(job, if !up then Remains else Fixed, now);
          case Page(state, clean) =>
            m := m.(tamper := state);
            job := Finish(job, if !clean then Remains else Fixed, now);
          case _ =>
            job := Finish(job, Unavailable, now);
        }
        monitors := monitors[job.monitor := m];
      }
      jobs := jobs[id := job];
    }
  }

  method AnyUnder(days: int, limits: seq<int>) returns (any: bool)
    ensures any <==> Under(days, limits)
  {
    var i := 0;
    while i < |limits|
      invariant 0 <= i <= |limits| && forall k :: 0 <= k < i ==> days > limits[k]
    {
      if days <= limits[i] { return true; }
      i := i + 1;
    }
    return false;
  }

  // ---------------------------------------------------------------- single steps

  predicate SameTask(a: Job, b: Job) {
    && a.monitor == b.monitor && a.kind == b.kind && a.deadline == b.deadline && a.identity == b.identity
    && a.baseline == b.baseline
  }

  predicate Verdict(status: JobStatus) { status.Fixed? || status.Remains? }

  predicate Abandons(a: Action, id: string) { a.Abandon? && a.id == id }

  /** No step loses a job or changes what it asks, and none but an unlocked exit touches a finished one. */
  lemma StepKeepsJob(s: State, a: Action, id: string)
    requires CanStep(s, a) && id in s.jobs
    ensures var after := Step(s, a);
            && id in after.jobs && SameTask(s.jobs[id], after.jobs[id])
            && (!s.jobs[id].status.Checking? && !Abandons(a, id) ==> after.jobs[id] == s.jobs[id])
            && (Abandons(a, id) ==> after.jobs[id] == Finish(s.jobs[id], Unavailable, a.now))
  {
    hide Decides, Written, Left, SnapshotOf;
  }

  /** A verdict is recorded only by a write-back that decides the job. */
  lemma OnlyWriteBackDecides(s: State, a: Action, id: string)
    requires CanStep(s, a) && id in s.jobs && s.jobs[id].status.Checking? && Verdict(Step(s, a).jobs[id].status)
    ensures a.WriteBack? && s.workers[a.worker].job == id
    ensures Decides(MonitorAt(s, s.jobs[id].monitor), s.jobs[id], a.found, a.now)
  {
    hide Decides, Written, Left, SnapshotOf;
  }

  /** The fields a recheck of this kind may write. */
  predicate OnlyOwnFields(was: Monitor, got: Monitor, kind: Kind) {
    && got.config == was.config
    && (!kind.Tamper? ==> got.tamper == was.tamper)
    && (!kind.Status? ==> got.status == was.status)
    && (!kind.Ssl? ==> got.ssl == was.ssl)
    && (!kind.Domain? ==> got.domain == was.domain)
    && (kind.Tamper? || kind.Status? ==> got.expiryAt == was.expiryAt)
  }

  /** A write-back changes a monitor only when it records a verdict, then only that monitor, only in
      the kind's own fields, and to what was found. `fixed` means what was found is good: up, clean,
      or above every threshold the job was created with. */
  lemma WriteBackIsScoped(s: State, a: Action, monitor: int)
    requires CanStep(s, a) && a.WriteBack?
    ensures var id := s.workers[a.worker].job; var job := s.jobs[id]; var after := Step(s, a);
            && after.monitors.Keys == s.monitors.Keys
            && (monitor in s.monitors && after.monitors[monitor] != s.monitors[monitor] ==>
                  && monitor == job.monitor && job.status.Checking? && Verdict(after.jobs[id].status))
            && (job.status.Checking? && Verdict(after.jobs[id].status) ==>
                  && job.monitor in s.monitors
                  && var was, got := s.monitors[job.monitor], after.monitors[job.monitor];
                     && OnlyOwnFields(was, got, job.kind)
                     && (job.kind.Ssl? || job.kind.Domain? ==>
                           && got.expiryAt == Some(a.now)
                           && (if job.kind.Ssl? then got.ssl else got.domain)
                              == Expiry(Some(a.found.days),
                                        if |a.found.message| > 256 then a.found.message[..256] else a.found.message))
                     && (job.kind.Status? ==> got.status == a.found.status)
                     && (job.kind.Tamper? ==> a.found.Page? && got.tamper == a.found.state)
                     && (after.jobs[id].status.Fixed? <==>
                           match job.kind
                           case Tamper => a.found.clean
                           case Status => a.found.up
                           case Ssl => Above(a.found.days, job.identity.sslWarn)
                           case Domain => Above(a.found.days, job.identity.domainWarn)))
  {
    var job := s.jobs[s.workers[a.worker].job];
    assert Decides(MonitorAt(s, job.monitor), job, a.found, a.now) ==> job.monitor in s.monitors;
  }

  /** What a kind of recheck compares with the state at creation, and writes. */
  lemma SnapshotsCompare(a: Monitor, b: Monitor, kind: Kind)
    ensures SnapshotOf(a, kind) == SnapshotOf(b, kind) <==>
      && (kind.Tamper? ==> a.tamper == b.tamper)
      && (kind.Status? ==> a.status == b.status)
      && (kind.Ssl? ==> a.ssl == b.ssl && a.expiryAt == b.expiryAt)
      && (kind.Domain? ==> a.domain == b.domain && a.expiryAt == b.expiryAt)
  {
  }

  /** Exactly when a write-back to a job being checked gives a verdict; otherwise it ends the job as
      `unavailable` and leaves every monitor as it was. */
  lemma WriteBackExactlyWhen(s: State, a: Action)
    requires CanStep(s, a) && a.WriteBack? && s.jobs[s.workers[a.worker].job].status.Checking?
    ensures var id := s.workers[a.worker].job; var job := s.jobs[id]; var after := Step(s, a);
      && (Verdict(after.jobs[id].status) <==>
            && a.now < job.deadline && job.monitor in s.monitors
            && s.monitors[job.monitor].config == job.identity
            && SnapshotOf(s.monitors[job.monitor], job.kind) == job.baseline
            && a.found != NoPage && a.found != Unsettled)
      && (!Verdict(after.jobs[id].status) ==> after.jobs[id].status.Unavailable? && after.monitors == s.monitors)
      && after.jobs[id].done == Some(a.now) && a.worker !in after.workers
  {
    hide Left, Written, SnapshotOf;
  }

  // ---------------------------------------------------------------- whole runs

  datatype Run = Run(states: seq<State>, acts: seq<Action>)

  ghost predicate IsRun(r: Run) {
    && |r.states| == |r.acts| + 1 && r.states[0].jobs == map[] && r.states[0].workers == map[]
    && (forall i :: 0 <= i < |r.acts| ==>
          CanStep(r.states[i], r.acts[i]) && r.states[i + 1] == Step(r.states[i], r.acts[i]))
    && forall i: nat :: i < |r.acts| && r.acts[i].Abandon? ==> ReadEarlier(r, i)
  }

  ghost predicate ReadAt(r: Run, k: nat, id: string, row: Job) {
    k < |r.states| && id in r.states[k].jobs && r.states[k].jobs[id] == row
  }

  /** The row an unlocked exit carries was read, or seen by the claim, in this or an earlier state. */
  ghost predicate ReadEarlier(r: Run, i: nat)
    requires i < |r.acts| && r.acts[i].Abandon?
  {
    exists k: nat :: k <= i && ReadAt(r, k, r.acts[i].id, r.acts[i].row)
  }

  lemma RunStep(r: Run, i: nat)
    requires IsRun(r) && i < |r.acts|
    ensures |r.states| == |r.acts| + 1 && CanStep(r.states[i], r.acts[i])
    ensures r.states[i + 1] == Step(r.states[i], r.acts[i])
  {
  }

  /** Step `c` created the job, whose identity and baseline are those of the monitor at that moment. */
  ghost predicate BornAt(r: Run, c: nat, id: string, job: Job) {
    && c < |r.acts| && c < |r.states| && r.acts[c].Create? && r.acts[c].id == id
    && r.acts[c].monitor in r.states[c].monitors
    && var m := r.states[c].monitors[r.acts[c].monitor];
    && job.monitor == r.acts[c].monitor && job.kind == r.acts[c].kind && job.deadline == r.acts[c].now + 180.0
    && job.identity == m.config && job.baseline == SnapshotOf(m, job.kind)
  }

  /** Step `k` claimed the job for the worker. */
  ghost predicate ClaimedAt(r: Run, k: nat, worker: nat, id: string) {
    && k < |r.acts| && k < |r.states| && r.acts[k].Claim? && r.acts[k].worker == worker && r.acts[k].id == id
    && id in r.states[k].jobs && Claimable(r.states[k].jobs[id], r.acts[k].now)
  }

  /** Step `b` read the monitor for the worker, and found it configured as at the job's creation. */
  ghost predicate BegunAt(r: Run, b: nat, worker: nat, id: string) {
    && b < |r.acts| && b < |r.states| && r.acts[b] == Begin(worker)
    && id in r.states[b].jobs && r.states[b].jobs[id].monitor in r.states[b].monitors
    && r.states[b].monitors[r.states[b].jobs[id].monitor].config == r.states[b].jobs[id].identity
  }

  /** Every job was created by a step of the run, on the monitor as it then was. */
  lemma {:induction false} JobsAreBorn(r: Run, i: nat, id: string) returns (c: nat)
    requires IsRun(r) && i < |r.states| && id in r.states[i].jobs
    ensures c < i && BornAt(r, c, id, r.states[i].jobs[id])
    decreases i
  {
    hide IsRun, Step, CanStep;
    StartIsEmpty(r);
    RunStep(r, i - 1);
    if id in r.states[i - 1].jobs {
      c := JobsAreBorn(r, i - 1, id);
      StepKeepsJob(r.states[i - 1], r.acts[i - 1], id);
    } else {
      c := i - 1;
      OnlyCreateAdds(r.states[c], r.acts[c], id);
    }
  }

  lemma StartIsEmpty(r: Run)
    requires IsRun(r)
    ensures |r.states| == |r.acts| + 1 && r.states[0].jobs == map[] && r.states[0].workers == map[]
  {
  }

  lemma OnlyCreateAdds(s: State, a: Action, id: string)
    requires CanStep(s, a) && id !in s.jobs && id in Step(s, a).jobs
    ensures a.Create? && a.id == id && Step(s, a).jobs[id] == Created(s.monitors[a.monitor], a)
  {
    hide Decides, Written, Left, SnapshotOf;
  }

  /** Every worker claimed its job earlier; one at the network read the configuration after that. */
  lemma {:induction false} WorkersClaimed(r: Run, i: nat, w: nat) returns (k: nat, b: nat)
    requires IsRun(r) && i < |r.states| && w in r.states[i].workers
    ensures k < i && ClaimedAt(r, k, w, r.states[i].workers[w].job)
    ensures r.states[i].workers[w].config.Some? ==> k < b < i && BegunAt(r, b, w, r.states[i].workers[w].job)
    decreases i
  {
    hide IsRun, Decides, Written, Left, SnapshotOf;
    StartIsEmpty(r);
    RunStep(r, i - 1);
    if w in r.states[i - 1].workers {
      k, b := WorkersClaimed(r, i - 1, w);
      if r.acts[i - 1] == Begin(w) { b := i - 1; }
    } else {
      k, b := i - 1, 0;
    }
  }

  /** One verdict: a job that has left `checking` is never changed again but by an unlocked exit, and
      never returns to `checking`. */
  lemma {:induction false} OneVerdict(r: Run, i: nat, j: nat, id: string)
    requires IsRun(r) && i <= j < |r.states| && id in r.states[i].jobs && !r.states[i].jobs[id].status.Checking?
    ensures id in r.states[j].jobs && !r.states[j].jobs[id].status.Checking?
    ensures (forall k :: i <= k < j ==> !Abandons(r.acts[k], id)) ==> r.states[j].jobs[id] == r.states[i].jobs[id]
    decreases j - i
  {
    hide IsRun, Step, CanStep, Abandons;
    StartIsEmpty(r);
    if i < j {
      RunStep(r, i);
      StepKeepsJob(r.states[i], r.acts[i], id);
      OneVerdict(r, i + 1, j, id);
    }
  }

  /** Exactly when a step takes a verdict back: when it is an unlocked exit. */
  lemma VerdictLostExactlyWhen(s: State, a: Action, id: string)
    requires CanStep(s, a) && id in s.jobs && Verdict(s.jobs[id].status)
    ensures id in Step(s, a).jobs && (Step(s, a).jobs[id].status != s.jobs[id].status <==> Abandons(a, id))
  {
    hide Step, CanStep, Abandons;
    StepKeepsJob(s, a, id);
  }

  /** Such an exit goes back to a read made before the verdict. */
  lemma LostVerdictWasReadBefore(r: Run, v: nat, i: nat, id: string) returns (k: nat)
    requires IsRun(r) && v < i < |r.acts| && Abandons(r.acts[i], id)
    requires id in r.states[v + 1].jobs && Verdict(r.states[v + 1].jobs[id].status)
    ensures k <= v && ReadAt(r, k, id, r.acts[i].row)
  {
    RunStep(r, i);
    assert ReadEarlier(r, i);
    k :| k <= i && ReadAt(r, k, id, r.acts[i].row);
    if k > v { OneVerdict(r, v + 1, k, id); }
  }

  /** Every verdict can be lost: any run that ends with one goes on with an exit that read the row just
      before it. */
  lemma EveryVerdictCanBeLost(r: Run, id: string, now: real) returns (longer: Run)
    requires IsRun(r) && r.acts != [] && id in r.states[|r.acts| - 1].jobs && id in r.states[|r.acts|].jobs
    requires r.states[|r.acts| - 1].jobs[id].status.Checking? && Verdict(r.states[|r.acts|].jobs[id].status)
    ensures IsRun(longer) && |longer.acts| == |r.acts| + 1 && longer.acts[..|r.acts|] == r.acts
    ensures id in longer.states[|longer.acts|].jobs && longer.states[|longer.acts|].jobs[id].status.Unavailable?
  {
    var n := |r.acts|;
    var a := Abandon(id, r.states[n - 1].jobs[id], now);
    assert CanStep(r.states[n], a) && ReadAt(r, n - 1, id, a.row);
    StepKeepsJob(r.states[n], a, id);
    hide Step, CanStep;
    longer := Run(r.states + [Step(r.states[n], a)], r.acts + [a]);
    forall i: nat | i < |longer.acts| && longer.acts[i].Abandon? ensures ReadEarlier(longer, i) {
      if i < n {
        assert ReadEarlier(r, i);
        var x: nat :| x <= i && ReadAt(r, x, r.acts[i].id, r.acts[i].row);
        assert ReadAt(longer, x, longer.acts[i].id, longer.acts[i].row);
      } else {
        assert ReadAt(longer, n - 1, id, a.row);
      }
    }
  }

  /** A verdict is recorded only strictly before the deadline, from a probe by a worker that claimed the
      job after its creation and then read the configuration the job was created for, while that
      configuration still stands and the fields to be written still hold what they held at creation. */
  lemma VerdictIsJustified(r: Run, i: nat, id: string) returns (c: nat, k: nat, b: nat)
    requires IsRun(r) && i < |r.acts| && id in r.states[i].jobs && id in r.states[i + 1].jobs
    requires r.states[i].jobs[id].status.Checking? && Verdict(r.states[i + 1].jobs[id].status)
    ensures c < k < b < i && BornAt(r, c, id, r.states[i].jobs[id])
    ensures r.acts[i].WriteBack? && ClaimedAt(r, k, r.acts[i].worker, id) && BegunAt(r, b, r.acts[i].worker, id)
    ensures r.acts[i].now < r.acts[c].now + 180.0
    ensures var monitor := r.acts[c].monitor;
            && monitor in r.states[c].monitors && monitor in r.states[b].monitors && monitor in r.states[i].monitors
            && r.states[c].monitors[monitor].config == r.states[b].monitors[monitor].config
            && r.states[c].monitors[monitor].config == r.states[i].monitors[monitor].config
            && SnapshotOf(r.states[c].monitors[monitor], r.acts[c].kind)
               == SnapshotOf(r.states[i].monitors[monitor], r.acts[c].kind)
  {
    hide IsRun, Step, CanStep, SnapshotOf, Verdict;
    RunStep(r, i);
    OnlyWriteBackDecides(r.states[i], r.acts[i], id);
    c := JobsAreBorn(r, i, id);
    k, b := ClaimOf(r, i, id);
    var c' := JobsAreBorn(r, k, id);
    OneBirth(r, c, c', id);
    JobKeepsTask(r, b, i, id);
  }

  lemma ClaimOf(r: Run, i: nat, id: string) returns (k: nat, b: nat)
    requires IsRun(r) && i < |r.acts| && r.acts[i].WriteBack? && r.acts[i].worker in r.states[i].workers
    requires r.states[i].workers[r.acts[i].worker].job == id
    ensures k < b < i && ClaimedAt(r, k, r.acts[i].worker, id) && BegunAt(r, b, r.acts[i].worker, id)
  {
    RunStep(r, i);
    k, b := WorkersClaimed(r, i, r.acts[i].worker);
  }

  lemma {:induction false} JobKeepsTask(r: Run, i: nat, j: nat, id: string)
    requires IsRun(r) && i <= j < |r.states| && id in r.states[i].jobs
    ensures id in r.states[j].jobs && SameTask(r.states[i].jobs[id], r.states[j].jobs[id])
    decreases j - i
  {
    hide Step, CanStep;
    if i < j {
      StepKeepsJob(r.states[i], r.acts[i], id);
      JobKeepsTask(r, i + 1, j, id);
    }
  }

  /** An id is created once. */
  lemma OneBirth(r: Run, c: nat, d: nat, id: string)
    requires IsRun(r) && c < |r.acts| && d < |r.acts|
    requires r.acts[c].Create? && r.acts[c].id == id && r.acts[d].Create? && r.acts[d].id == id
    ensures c == d
  {
    RunStep(r, c);
    RunStep(r, d);
    if c < d { JobKeepsTask(r, c + 1, d, id); }
    if d < c { JobKeepsTask(r, d + 1, c, id); }
  }

  /** Claims only move the lease forward. */
  lemma {:induction false} LeaseGrows(r: Run, i: nat, j: nat, id: string)
    requires IsRun(r) && i < j < |r.states| && r.acts[i].Claim? && r.acts[i].id == id
    requires id in r.states[i].jobs && Claimable(r.states[i].jobs[id], r.acts[i].now)
    ensures id in r.states[j].jobs && r.states[j].jobs[id].taken.Some?
    ensures r.states[j].jobs[id].taken.value >= r.acts[i].now
    decreases j
  {
    hide IsRun, Decides, Written, Left, SnapshotOf;
    StartIsEmpty(r);
    RunStep(r, j - 1);
    if i < j - 1 { LeaseGrows(r, i, j - 1, id); }
  }

  /** Two claims of one job are more than 75 s apart, longer than a probe may take. */
  lemma ClaimsAreApart(r: Run, i: nat, j: nat, id: string)
    requires IsRun(r) && i < j < |r.acts| && r.acts[i].Claim? && r.acts[j].Claim? && r.acts[i].id == r.acts[j].id == id
    requires id in r.states[i].jobs && Claimable(r.states[i].jobs[id], r.acts[i].now)
    requires id in r.states[j].jobs && Claimable(r.states[j].jobs[id], r.acts[j].now)
    ensures r.acts[j].now - r.acts[i].now > 75.0
  {
    hide IsRun;
    StartIsEmpty(r);
    LeaseGrows(r, i, j, id);
  }

  /** Exactly when a job can be claimed: in progress, in time, and not leased within 75 s. */
  lemma ClaimableIs(job: Job, now: real)
    ensures Claimable(job, now) <==>
      job.status == Checking && now < job.deadline && (job.taken.None? || now - job.taken.value > 75.0)
  {
  }

  /** However often a job is claimed, at most one of its write-backs changes a monitor. */
  lemma WritesOnce(r: Run, i: nat, j: nat, id: string)
    requires IsRun(r) && i < j < |r.acts| && r.acts[i].WriteBack? && r.acts[j].WriteBack?
    requires r.acts[i].worker in r.states[i].workers && r.states[i].workers[r.acts[i].worker].job == id
    requires r.acts[j].worker in r.states[j].workers && r.states[j].workers[r.acts[j].worker].job == id
    ensures r.states[j + 1].monitors == r.states[j].monitors
  {
    hide Decides, Written, Left, SnapshotOf;
    RunStep(r, i);
    RunStep(r, j);
    assert !r.states[i + 1].jobs[id].status.Checking?;
    OneVerdict(r, i + 1, j, id);
    NoVerdictNoWrite(r.states[j], id, r.acts[j].found, r.acts[j].now);
  }

  lemma NoVerdictNoWrite(s: State, id: string, found: Found, now: real)
    requires id in s.jobs && !s.jobs[id].status.Checking?
    ensures WrittenBack(s, id, found, now) == s
  {
    assert s.jobs[id := s.jobs[id]] == s.jobs;
  }

  /** The two expiry kinds share a date: once one of two open jobs has written it, the other, created
      against another date, can no longer be decided. */
  lemma ExpiryJobsCollide(s: State, a: Action, id: string, other: string, found: Found, now: real)
    requires CanStep(s, a) && a.WriteBack? && s.workers[a.worker].job == id && id != other && other in s.jobs
    requires s.jobs[id].status.Checking? && Verdict(Step(s, a).jobs[id].status)
    requires s.jobs[id].kind.Ssl? || s.jobs[id].kind.Domain?
    requires s.jobs[other].status.Checking? && s.jobs[other].monitor == s.jobs[id].monitor
    requires s.jobs[other].baseline.OfExpiry? && s.jobs[other].baseline.at != Some(a.now)
    ensures var after := Step(s, a); WrittenBack(after, other, found, now).jobs[other].status.Unavailable?
  {
    hide Under, Clipped, Left;
    WriteBackIsScoped(s, a, s.jobs[id].monitor);
  }
}
