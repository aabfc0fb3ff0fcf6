/** The alert recheck protocol of backend/app/alert_recheck.py for server jobs: jobs are created,
    leased to an agent, answered late, twice or never, and expire, while ordinary reports and
    settings edits change the same server record. Each row-locked section is one step; the list of
    rechecks, which reads rows without a lock and commits later, is a step that carries what it read. */
module Recheck {
  import opened Basics
  import opened Json

  const TIMEOUT := 180.0
  const RETRY := 30.0
  const MAX_TASKS := 4

  datatype Status = Checking | Fixed | Remains | Unavailable

  datatype Source =
    | KubeExpiry | Changes | Software | Docker | Kube | Backup | Mem | Disk | Conntrack | Temp

  /** The last report of a server; `extras` is kept apart because it is merged key by key. */
  datatype Report = Report(fields: Dict, extras: Dict)

  /** `settings` stands for the digest of the fields that `identity` hashes. */
  datatype Server = Server(
    settings: string, report: Report, swHost: Json, pkgHash: Json,
    verified: map<string, real>, packages: Option<Json>)

  datatype Job = Job(
    server: int, kind: string, created: real, deadline: real, taken: Option<real>, done: Option<real>,
    status: Status, active: bool, identity: string, source: Source, required: set<string>, wantDb: bool,
    baseline: Option<Dict>, hostBaseline: Option<(Json, Json)>)

  // ---------------------------------------------------------------- one job

  function Finish(job: Job, status: Status, now: real): Job {
    job.(status := status, done := Some(now), active := false)
  }

  function Expire(job: Job, now: real): Job {
    if job.status.Checking? && job.deadline <= now then Finish(job, Unavailable, now) else job
  }

  function FieldsOf(src: Source): set<string> {
    match src
    case KubeExpiry => {"kube_expiry", "flux"}
    case Changes => {"extras"}
    case Software => {"docker", "db_stats"}
    case Docker => {"docker"}
    case Kube => {"kube"}
    case Backup => {"backup", "db_engines", "db_stats", "extras"}
    case Mem => {"mem_used", "mem_total"}
    case Disk => {"disks"}
    case Conntrack => {"conntrack_count", "conntrack_max"}
    case Temp => {"cpu_temp"}
  }

  function ExtraKey(src: Source): string { if src.Changes? then "changes" else "custom-backups" }

  /** The part of a report that one collector owns; missing fields read as null. */
  function Scoped(rep: Report, src: Source): Dict {
    map k | k in FieldsOf(src) ::
      if k == "extras" then Obj(map[ExtraKey(src) := Get(rep.extras, ExtraKey(src))]) else Get(rep.fields, k)
  }

  /** The same part of an agent's answer; None where reading it raises. */
  function ScopedAnswer(snap: Dict, src: Source): Option<Dict> {
    match OrEmpty(Get(snap, "extras"))
    case None => if "extras" in FieldsOf(src) then None else Some(Scoped(Report(snap, map[]), src))
    case Some(extras) => Some(Scoped(Report(snap, extras), src))
  }

  // ---------------------------------------------------------------- validating an answer

  function CertPart(j: Json, show: Json -> string): string {
    if !Truthy(j) then "" else if j.Str? then j.s else show(j)
  }

  /** `show` is Python's `str` of a value that is not a string. */
  function CertKey(cert: Dict, show: Json -> string): string {
    CertPart(Get(cert, "kind"), show) + "|" + CertPart(Get(cert, "where"), show)
  }

  predicate HasCert(certs: seq<Json>, key: string, show: Json -> string) {
    exists i :: 0 <= i < |certs| && certs[i].Obj? && CertKey(certs[i].fields, show) == key
  }

  predicate DockerReadable(j: Json) {
    j.Obj? && (Truthy(Get(j.fields, "present")) ==> Truthy(Get(j.fields, "access")))
  }

  predicate SshRead(extras: Dict) {
    match OrEmpty(Get(extras, "changes"))
    case None => false
    case Some(changes) =>
      match OrEmpty(Get(changes, "ssh"))
      case None => false
      case Some(ssh) =>
        && Truthy(Get(ssh, "ports"))
        && Get(ssh, "pass") in {Str("yes"), Str("no")}
        && Get(ssh, "root") in {Str("yes"), Str("no"), Str("prohibit-password"), Str("without-password"),
                                Str("forced-commands-only")}
  }

  /** Every check `apply_snapshot` makes before it compares blocks; false where Python raises. */
  predicate Admissible(job: Job, snap: Dict, show: Json -> string) {
    && FieldsOf(job.source) <= snap.Keys
    && match job.source
       case KubeExpiry =>
         && snap["kube_expiry"].Arr? && snap["flux"].Arr?
         && (forall i :: 0 <= i < |snap["kube_expiry"].items| ==> snap["kube_expiry"].items[i].Obj?)
         && (forall key :: key in job.required ==> HasCert(snap["kube_expiry"].items, key, show))
       case Docker => DockerReadable(snap["docker"])
       case Software => DockerReadable(snap["docker"])
       case Kube => snap["kube"].Obj? && Truthy(Get(snap["kube"].fields, "access"))
       case Changes => snap["extras"].Obj? && SshRead(snap["extras"].fields)
       case Mem =>
         var total, used := AsNum(snap["mem_total"]), AsNum(snap["mem_used"]);
         total.Some? && total.value > 0.0 && used.Some? && 0.0 <= used.value <= total.value
       case Conntrack =>
         var top, count := AsNum(snap["conntrack_max"]), AsNum(snap["conntrack_count"]);
         top.Some? && top.value > 0.0 && count.Some? && count.value >= 0.0
       case Temp => AsNum(snap["cpu_temp"]).Some?
       case Disk => snap["disks"].Arr? && snap["disks"].items != []
       case Backup => !(job.wantDb && !Truthy(snap["db_stats"]) && Truthy(snap["db_engines"]))
  }

  // ---------------------------------------------------------------- merging an answer

  /** Extras after the merge: only the collector's own key may change. */
  function MergedExtras(was: Dict, snap: Dict, src: Source): Option<Dict> {
    if "extras" !in FieldsOf(src) then Some(was)
    else match Get(snap, "extras")
      case Obj(got) => Some(if ExtraKey(src) in got then was[ExtraKey(src) := got[ExtraKey(src)]] else was)
      case Arr(items) => if items == [] then Some(was) else None
      case Str(s) => if s == "" then Some(was) else None
      case _ => None
  }

  function MergedFields(was: Dict, snap: Dict, src: Source): Dict
    requires FieldsOf(src) <= snap.Keys
  {
    Overwrite(was, snap, FieldsOf(src) - {"extras"})
  }

  function Overwrite(was: Dict, snap: Dict, keys: set<string>): Dict
    requires keys <= snap.Keys
  {
    map k | k in was.Keys + keys :: if k in keys then snap[k] else was[k]
  }

  /** `apply_snapshot`: the merged server record, or None where it raises. `versions` is what the
      package parser makes of the package list. */
  function Merged(sv: Server, job: Job, snap: Dict, versions: Option<Json>, show: Json -> string): Option<Server> {
    if !Admissible(job, snap, show) then None
    else
      var incoming := ScopedAnswer(snap, job.source);
      var current := Scoped(sv.report, job.source);
      var extras := MergedExtras(sv.report.extras, snap, job.source);
      if incoming.None? || extras.None? then None
      else if job.baseline != Some(current) && current != incoming.value then None
      else
        var fields := MergedFields(sv.report.fields, snap, job.source);
        if job.source.Software? then MergedSoftware(sv, job, snap, versions, fields)
        else Some(sv.(report := Report(fields, extras.value)))
  }

  function MergedSoftware(sv: Server, job: Job, snap: Dict, versions: Option<Json>, fields: Dict): Option<Server> {
    var packages, pkgs := Get(snap, "packages"), Get(snap, "pkgs");
    if !(packages.Arr? && packages.items != []) then None
    else if !(pkgs.Obj? && Truthy(Get(pkgs.fields, "h"))) then None
    else if job.wantDb && !Truthy(Get(snap, "db_stats")) then None
    else if versions.None? || job.hostBaseline.None? then None
    else if (sv.swHost, sv.pkgHash) != job.hostBaseline.value
            && (versions.value, Get(pkgs.fields, "h")) != (sv.swHost, sv.pkgHash) then None
    else Some(sv.(swHost := versions.value, report := sv.report.(fields := fields["pkgs" := pkgs])))
  }

  predicate IsHome(kind: string) { |kind| >= 5 && kind[..5] == "home:" }

  /** After a software answer the package row is stored; a list without its manager aborts. */
  function StorePackages(sv: Server, job: Job, snap: Dict): Option<Server> {
    if !job.source.Software? then Some(sv)
    else match Get(snap, "pkgs")
      case Obj(meta) =>
        if "mgr" !in meta then None
        else Some(sv.(packages := Some(Get(snap, "packages")), pkgHash := Get(meta, "h")))
      case _ => None
  }

  /** One answer to one job. `left` is what the kind's own test finds on the merged record: None
      if it gives no result or raises. A result None means the request failed and was rolled back. */
  function Answered(sv: Server, job: Job, ok: bool, snap: Dict, versions: Option<Json>, left: Option<bool>,
                    now: real, show: Json -> string): Option<(Server, Job)> {
    var j := Expire(job, now);
    if !j.status.Checking? then Some((sv, j))
    else if j.taken.None? || sv.settings != j.identity || !ok then Some((sv, Finish(j, Unavailable, now)))
    else
      var merged := Merged(sv, j, snap, versions, show);
      if merged.None? || left.None? then Some((sv, Finish(j, Unavailable, now)))
      else
        var m := if left.value || IsHome(j.kind) then merged.value
                 else merged.value.(verified := merged.value.verified[j.kind := now]);
        var stored := StorePackages(m, j, snap);
        if stored.None? then None
        else Some((stored.value, Finish(j, if left.value then Remains else Fixed, now)))
  }

  // ---------------------------------------------------------------- the lease

  predicate Leased(job: Job, now: real) { job.taken.Some? && now - job.taken.value < RETRY }

  /** Marking a job as handed out; the first time its blocks are captured. */
  function HandOut(sv: Server, job: Job, now: real): Job {
    job.(taken := Some(now),
         baseline := if job.baseline.None? then Some(Scoped(sv.report, job.source)) else job.baseline,
         hostBaseline := if job.source.Software? && job.hostBaseline.None? then Some((sv.swHost, sv.pkgHash))
                         else job.hostBaseline)
  }

  predicate Available(sv: Server, job: Job, now: real) {
    var j := Expire(job, now);
    j.status.Checking? && !Leased(j, now) && sv.settings == j.identity
  }

  /** What a poll does to one row. */
  function Polled(sv: Server, job: Job, now: real): Job {
    var j := Expire(job, now);
    if !j.status.Checking? || Leased(j, now) then j
    else if sv.settings != j.identity then Finish(j, Unavailable, now)
    else HandOut(sv, j, now)
  }

  predicate Enabled(sv: Server) {
    match OrEmpty(Get(sv.report.fields, "caps"))
    case None => false
    case Some(caps) => Truthy(Get(caps, "alert_recheck"))
  }

  /** The rows a poll reaches: it stops behind the fourth hand-out. */
  function Reached(sv: Server, jobs: map<string, Job>, rows: seq<string>, now: real, room: nat): seq<string>
    requires forall i :: 0 <= i < |rows| ==> rows[i] in jobs
  {
    if rows == [] || room == 0 then []
    else
      [rows[0]] + Reached(sv, jobs, rows[1..], now, if Available(sv, jobs[rows[0]], now) then room - 1 else room)
  }

  // ---------------------------------------------------------------- the system

  datatype Sys = Sys(servers: map<int, Server>, jobs: map<string, Job>)

  datatype Action =
    | Create(id: string, server: int, kind: string, source: Source, required: set<string>, wantDb: bool,
             refused: bool, existing: Option<string>, now: real)
    | Poll(server: int, rows: seq<string>, now: real)
    | Answer(server: int, id: string, ok: bool, snap: Dict, versions: Option<Json>, left: Option<bool>, now: real)
    | Settle(id: string, row: Job, settings: string, now: real)
    | AutoReport(server: int, report: Report, swHost: Json, pkgHash: Json)
    | Edit(server: int, settings: string)

  predicate SameIssue(job: Job, server: int, kind: string) { job.server == server && job.kind == kind }

  /** What the database guarantees about the inputs of a step. A poll's query returns distinct rows
      of this server that are being checked, oldest first; rows locked elsewhere are skipped. */
  ghost predicate CanStep(s: Sys, a: Action) {
    match a
    case Create(id, server, kind, _, _, _, _, existing, _) =>
      && id !in s.jobs && server in s.servers
      && (existing.Some? ==> existing.value in s.jobs && s.jobs[existing.value].active
                             && SameIssue(s.jobs[existing.value], server, kind))
      && (existing.None? ==> forall x :: x in s.jobs && s.jobs[x].active ==> !SameIssue(s.jobs[x], server, kind))
    case Poll(server, rows, _) =>
      && server in s.servers
      && (forall i :: 0 <= i < |rows| ==>
            rows[i] in s.jobs && s.jobs[rows[i]].server == server && s.jobs[rows[i]].status.Checking?)
      && (forall i, j :: 0 <= i < j < |rows| ==>
            rows[i] != rows[j] && s.jobs[rows[i]].created <= s.jobs[rows[j]].created)
    case Settle(id, _, _, _) => id in s.jobs
    case _ => a.server in s.servers
  }

  /** The list of rechecks ends a job it read as being checked, if that is late or the settings it read
      differ. It writes only the columns of the end, over whatever the row has become. */
  predicate Settles(a: Action)
    requires a.Settle?
  {
    a.row.status.Checking? && (a.settings != a.row.identity || a.row.deadline <= a.now)
  }

  predicate Overwrites(a: Action, id: string) { a.Settle? && a.id == id && Settles(a) }

  function NewJob(sv: Server, a: Action): Job
    requires a.Create?
  {
    var job := Job(a.server, a.kind, a.now, a.now + TIMEOUT, None, None, Checking, true, sv.settings, a.source,
                   a.required, a.wantDb, None, None);
    if a.refused then Finish(job, Unavailable, a.now) else job
  }

  function Created(s: Sys, a: Action): Sys
    requires a.Create? && a.server in s.servers && (a.existing.Some? ==> a.existing.value in s.jobs)
  {
    if a.existing.None? then s.(jobs := s.jobs[a.id := NewJob(s.servers[a.server], a)])
    else
      var jobs := s.jobs[a.existing.value := Expire(s.jobs[a.existing.value], a.now)];
      if jobs[a.existing.value].status.Checking? then s.(jobs := jobs)
      else s.(jobs := jobs[a.id := NewJob(s.servers[a.server], a)])
  }

  /** The ids handed out by a poll. */
  ghost function Given(s: Sys, a: Action): set<string>
    requires a.Poll? && CanStep(s, a)
  {
    var sv := s.servers[a.server];
    if !Enabled(sv) then {}
    else
      var touched := Reached(sv, s.jobs, a.rows, a.now, MAX_TASKS);
      set id | id in touched && id in s.jobs && Available(sv, s.jobs[id], a.now)
  }

  ghost function PollStep(s: Sys, a: Action): Sys
    requires a.Poll? && CanStep(s, a)
  {
    var sv := s.servers[a.server];
    if !Enabled(sv) then s
    else
      var touched := Reached(sv, s.jobs, a.rows, a.now, MAX_TASKS);
      s.(jobs := map id | id in s.jobs :: if id in touched then Polled(sv, s.jobs[id], a.now) else s.jobs[id])
  }

  function AnswerStep(s: Sys, a: Action, show: Json -> string): Sys
    requires a.Answer? && a.server in s.servers
  {
    if a.id !in s.jobs || s.jobs[a.id].server != a.server then s
    else
      match Answered(s.servers[a.server], s.jobs[a.id], a.ok, a.snap, a.versions, a.left, a.now, show)
      case None => s
      case Some((sv, job)) => Sys(s.servers[a.server := sv], s.jobs[a.id := job])
  }

  ghost function Step(s: Sys, a: Action, show: Json -> string): Sys
    requires CanStep(s, a)
  {
    match a
    case Create(_, _, _, _, _, _, _, _, _) => Created(s, a)
    case Poll(_, _, _) => PollStep(s, a)
    case Answer(_, _, _, _, _, _, _) => AnswerStep(s, a, show)
    case Settle(id, _, _, now) =>
      if Settles(a) then s.(jobs := s.jobs[id := Finish(s.jobs[id], Unavailable, now)]) else s
    case AutoReport(server, report, sw, hash) =>
      s.(servers := s.servers[server := s.servers[server].(report := report, swHost := sw, pkgHash := hash)])
    case Edit(server, settings) => s.(servers := s.servers[server := s.servers[server].(settings := settings)])
  }

  // ---------------------------------------------------------------- what one answer does

  /** Outside the collector's fields (and `pkgs` for software) the report is untouched, and inside
      them it now holds the answer. */
  ghost predicate OnlyCollectorFields(was: Report, got: Report, snap: Dict, src: Source) {
    var mine := FieldsOf(src) - {"extras"};
    && (forall k :: k in mine ==> k in got.fields && k in snap && got.fields[k] == snap[k])
    && (forall k :: k !in mine && !(src.Software? && k == "pkgs") ==> Get(got.fields, k) == Get(was.fields, k)
                                                                      && (k in got.fields <==> k in was.fields))
    && (forall k :: k != ExtraKey(src) || "extras" !in FieldsOf(src) ==>
          Get(got.extras, k) == Get(was.extras, k) && (k in got.extras <==> k in was.extras))
  }

  function HashOf(snap: Dict): Json { match Get(snap, "pkgs") case Obj(meta) => Get(meta, "h") case _ => Null }

  /** The host versions and package hash still are the pair captured as `was`, or already the answer's. */
  predicate HostUnchanged(sv: Server, was: Option<(Json, Json)>, snap: Dict, versions: Option<Json>) {
    var pair := (sv.swHost, sv.pkgHash);
    versions.Some? && (was == Some(pair) || (versions.value, HashOf(snap)) == pair)
  }

  /** Host versions, hash and package row hold the answer. */
  predicate HostWritten(sv: Server, snap: Dict, versions: Option<Json>) {
    versions == Some(sv.swHost) && sv.pkgHash == HashOf(snap) && sv.packages == Some(Get(snap, "packages"))
  }

  /** A problem other than one of the home page that is found fixed is marked as verified, no other. */
  function VerifiedBy(sv: Server, job: Job, now: real): map<string, real> {
    if job.status.Fixed? && !IsHome(job.kind) then sv.verified[job.kind := now] else sv.verified
  }

  /** No lost update, one step: an answer that records a verdict had a block still equal to the
      captured one or already equal to the answer, was complete, and changed nothing but the
      collector's fields. A software answer also had host versions and package hash still as captured
      or already its own, and now holds its own. Any other answer leaves the server record as it was. */
  lemma AnswerIsScoped(sv: Server, job: Job, ok: bool, snap: Dict, versions: Option<Json>, left: Option<bool>,
                       now: real, show: Json -> string)
    requires job.status.Checking?
    requires Answered(sv, job, ok, snap, versions, left, now, show).Some?
    ensures var (sv', job') := Answered(sv, job, ok, snap, versions, left, now, show).value;
      && sv'.settings == sv.settings
      && (job'.status in {Fixed, Remains} ==>
            && ok && now < job.deadline && job.taken.Some? && sv.settings == job.identity
            && Admissible(job, snap, show)
            && (job.baseline == Some(Scoped(sv.report, job.source))
                || ScopedAnswer(snap, job.source) == Some(Scoped(sv.report, job.source)))
            && OnlyCollectorFields(sv.report, sv'.report, snap, job.source)
            && (!job.source.Software? ==> sv'.swHost == sv.swHost && sv'.pkgHash == sv.pkgHash
                                          && sv'.packages == sv.packages)
            && (job.source.Software? ==> HostUnchanged(sv, job.hostBaseline, snap, versions)
                                         && HostWritten(sv', snap, versions))
            && sv'.verified == VerifiedBy(sv, job', now))
      && (job'.status !in {Fixed, Remains} ==> job'.status.Unavailable? && sv' == sv)
  {
    hide Admissible, MergedSoftware, ScopedAnswer, Scoped, OnlyCollectorFields, IsHome;
    var merged := Merged(sv, job, snap, versions, show);
    if merged.Some? { MergedIsScoped(sv, job, snap, versions, show); }
    hide Merged;
  }

  lemma MergedIsScoped(sv: Server, job: Job, snap: Dict, versions: Option<Json>, show: Json -> string)
    requires Merged(sv, job, snap, versions, show).Some?
    ensures var sv' := Merged(sv, job, snap, versions, show).value;
      && Admissible(job, snap, show)
      && (job.baseline == Some(Scoped(sv.report, job.source))
          || ScopedAnswer(snap, job.source) == Some(Scoped(sv.report, job.source)))
      && OnlyCollectorFields(sv.report, sv'.report, snap, job.source)
      && sv' == sv.(report := sv'.report, swHost := sv'.swHost)
      && (!job.source.Software? ==> sv'.swHost == sv.swHost)
      && (job.source.Software? ==> HostUnchanged(sv, job.hostBaseline, snap, versions) && versions == Some(sv'.swHost))
  {
    hide ScopedAnswer, Scoped, FieldsOf, MergedExtras, MergedFields, OnlyCollectorFields, SshRead, HasCert;
    var src, was, sv' := job.source, sv.report, Merged(sv, job, snap, versions, show).value;
    var extras := MergedExtras(was.extras, snap, src);
    if src.Software? { SoftwareExtras(was.extras, snap); }
    assert sv'.report.extras == extras.value;
    assert sv'.report.fields == MergedFields(was.fields, snap, src)
        || (src.Software? && sv'.report.fields == MergedFields(was.fields, snap, src)["pkgs" := Get(snap, "pkgs")]);
    MergeIsScoped(was, sv'.report, snap, src);
  }

  lemma SoftwareExtras(was: Dict, snap: Dict)
    ensures MergedExtras(was, snap, Software) == Some(was)
  {
  }

  lemma MergeIsScoped(was: Report, got: Report, snap: Dict, src: Source)
    requires FieldsOf(src) <= snap.Keys && MergedExtras(was.extras, snap, src) == Some(got.extras)
    requires got.fields == MergedFields(was.fields, snap, src)
          || (src.Software? && got.fields == MergedFields(was.fields, snap, src)["pkgs" := Get(snap, "pkgs")])
    ensures OnlyCollectorFields(was, got, snap, src)
  {
    hide FieldsOf, MergedExtras, MergedFields, ExtraKey;
    FieldsMerge(was.fields, snap, src);
    ExtrasMerge(was.extras, snap, src);
    NoPkgs();
  }

  lemma NoPkgs()
    ensures "pkgs" !in FieldsOf(Software)
  {
  }

  lemma FieldsMerge(was: Dict, snap: Dict, src: Source)
    requires FieldsOf(src) <= snap.Keys
    ensures var got, mine := MergedFields(was, snap, src), FieldsOf(src) - {"extras"};
      && (forall k :: k in mine ==> k in got && got[k] == snap[k])
      && (forall k :: k !in mine ==> Get(got, k) == Get(was, k) && (k in got <==> k in was))
  {
    hide FieldsOf;
  }

  lemma ExtrasMerge(was: Dict, snap: Dict, src: Source)
    requires MergedExtras(was, snap, src).Some?
    ensures var got := MergedExtras(was, snap, src).value;
      forall k :: k != ExtraKey(src) || "extras" !in FieldsOf(src) ==>
        Get(got, k) == Get(was, k) && (k in got <==> k in was)
  {
    hide FieldsOf, ExtraKey;
  }

  // ---------------------------------------------------------------- exactly when an answer decides

  /** Which fields of the report belong to which collector, field by field. */
  predicate Collects(src: Source, k: string) {
    || (k in {"kube_expiry", "flux"} && src.KubeExpiry?)
    || (k == "extras" && (src.Changes? || src.Backup?))
    || (k == "docker" && (src.Software? || src.Docker?))
    || (k == "db_stats" && (src.Software? || src.Backup?))
    || (k == "kube" && src.Kube?)
    || (k in {"backup", "db_engines"} && src.Backup?)
    || (k in {"mem_used", "mem_total"} && src.Mem?)
    || (k == "disks" && src.Disk?)
    || (k in {"conntrack_count", "conntrack_max"} && src.Conntrack?)
    || (k == "cpu_temp" && src.Temp?)
  }

  lemma FieldsAre(src: Source, k: string)
    ensures k in FieldsOf(src) <==> Collects(src, k)
  {
  }

  /** Two reports agree on what a collector owns. */
  ghost predicate SameBlock(src: Source, a: Dict, aExtras: Dict, b: Dict, bExtras: Dict) {
    && (forall k :: Collects(src, k) && k != "extras" ==> Get(a, k) == Get(b, k))
    && (src.Changes? ==> Get(aExtras, "changes") == Get(bExtras, "changes"))
    && (src.Backup? ==> Get(aExtras, "custom-backups") == Get(bExtras, "custom-backups"))
  }

  /** Blocks compare equal exactly if every field of the collector does. */
  lemma BlocksCompare(a: Report, b: Report, src: Source)
    ensures Scoped(a, src) == Scoped(b, src) <==> SameBlock(src, a.fields, a.extras, b.fields, b.extras)
  {
    hide FieldsOf, Collects, ExtraKey, SameBlock;
    forall k ensures k in FieldsOf(src) <==> Collects(src, k) { FieldsAre(src, k); }
    var x, y := Scoped(a, src), Scoped(b, src);
    assert x.Keys == FieldsOf(src) && y.Keys == FieldsOf(src);
    BlockCompares(a, b, src);
    assert x == y <==> forall k :: k in FieldsOf(src) ==> x[k] == y[k];
  }

  /** The same, key by key. */
  lemma BlockCompares(a: Report, b: Report, src: Source)
    ensures SameBlock(src, a.fields, a.extras, b.fields, b.extras) <==>
      forall k :: k in FieldsOf(src) ==> Scoped(a, src)[k] == Scoped(b, src)[k]
  {
    assert Scoped(a, src).Keys == FieldsOf(src) && Scoped(b, src).Keys == FieldsOf(src);
    hide FieldsOf, Collects, Scoped, SameBlock, ExtraKey;
    forall k ensures k in FieldsOf(src) <==> Collects(src, k) { FieldsAre(src, k); }
    forall k | k in FieldsOf(src) ensures Scoped(a, src)[k] == Scoped(b, src)[k] <==> SameField(a, b, src, k) {
      FieldCompares(a, b, src, k);
    }
    SameFields(a, b, src);
  }

  predicate SameField(a: Report, b: Report, src: Source, k: string) {
    if k == "extras" then Get(a.extras, ExtraKey(src)) == Get(b.extras, ExtraKey(src))
    else Get(a.fields, k) == Get(b.fields, k)
  }

  lemma FieldCompares(a: Report, b: Report, src: Source, k: string)
    requires k in FieldsOf(src)
    ensures Scoped(a, src)[k] == Scoped(b, src)[k] <==> SameField(a, b, src, k)
  {
    hide FieldsOf, ExtraKey;
    OneExtra(ExtraKey(src), Get(a.extras, ExtraKey(src)), Get(b.extras, ExtraKey(src)));
  }

  lemma SameFields(a: Report, b: Report, src: Source)
    ensures SameBlock(src, a.fields, a.extras, b.fields, b.extras) <==>
      forall k :: Collects(src, k) ==> SameField(a, b, src, k)
  {
    ExtrasOwners(src);
    hide Collects;
    if forall k :: Collects(src, k) ==> SameField(a, b, src, k) {
      if Collects(src, "extras") { assert SameField(a, b, src, "extras"); }
      forall k | Collects(src, k) && k != "extras" ensures Get(a.fields, k) == Get(b.fields, k) {
        assert SameField(a, b, src, k);
      }
    }
  }

  lemma OneExtra(k: string, a: Json, b: Json)
    ensures Obj(map[k := a]) == Obj(map[k := b]) <==> a == b
  {
    assert map[k := a][k] == a && map[k := b][k] == b;
  }

  lemma ExtrasOwners(src: Source)
    ensures Collects(src, "extras") <==> src.Changes? || src.Backup?
  {
  }

  /** What an answer must contain, collector by collector. */
  ghost predicate Complete(job: Job, snap: Dict, show: Json -> string) {
    && (job.source.KubeExpiry? ==>
          && "kube_expiry" in snap && "flux" in snap && snap["kube_expiry"].Arr? && snap["flux"].Arr?
          && (forall i :: 0 <= i < |snap["kube_expiry"].items| ==> snap["kube_expiry"].items[i].Obj?)
          && forall key :: key in job.required ==>
               exists i :: 0 <= i < |snap["kube_expiry"].items|
                           && CertKey(snap["kube_expiry"].items[i].fields, show) == key)
    && (job.source.Docker? || job.source.Software? ==>
          && "docker" in snap && snap["docker"].Obj?
          && (Truthy(Get(snap["docker"].fields, "present")) ==> Truthy(Get(snap["docker"].fields, "access"))))
    && (job.source.Software? ==> "db_stats" in snap)
    && (job.source.Kube? ==> "kube" in snap && snap["kube"].Obj? && Truthy(Get(snap["kube"].fields, "access")))
    && (job.source.Changes? ==>
          && "extras" in snap && snap["extras"].Obj?
          && var changes := Get(snap["extras"].fields, "changes");
          && changes.Obj? && Get(changes.fields, "ssh").Obj?
          && var ssh := Get(changes.fields, "ssh").fields;
          && Truthy(Get(ssh, "ports")) && Get(ssh, "pass") in {Str("yes"), Str("no")}
          && Get(ssh, "root") in {Str("yes"), Str("no"), Str("prohibit-password"), Str("without-password"),
                                  Str("forced-commands-only")})
    && (job.source.Mem? ==>
          && "mem_used" in snap && "mem_total" in snap
          && AsNum(snap["mem_used"]).Some? && AsNum(snap["mem_total"]).Some?
          && 0.0 <= AsNum(snap["mem_used"]).value <= AsNum(snap["mem_total"]).value
          && 0.0 < AsNum(snap["mem_total"]).value)
    && (job.source.Conntrack? ==>
          && "conntrack_count" in snap && "conntrack_max" in snap
          && AsNum(snap["conntrack_count"]).Some? && AsNum(snap["conntrack_max"]).Some?
          && 0.0 <= AsNum(snap["conntrack_count"]).value && 0.0 < AsNum(snap["conntrack_max"]).value)
    && (job.source.Temp? ==> "cpu_temp" in snap && AsNum(snap["cpu_temp"]).Some?)
    && (job.source.Disk? ==> "disks" in snap && snap["disks"].Arr? && snap["disks"].items != [])
    && (job.source.Backup? ==>
          && "backup" in snap && "db_engines" in snap && "db_stats" in snap && "extras" in snap
          && (job.wantDb && Truthy(snap["db_engines"]) ==> Truthy(snap["db_stats"])))
  }

  /** A certificate is known by its kind and place; what is missing reads as empty. */
  lemma CertKeyIs(kind: string, site: string, rest: Dict, show: Json -> string)
    ensures CertKey(rest["kind" := Str(kind)]["where" := Str(site)], show) == kind + "|" + site
    ensures CertKey(map["where" := Str(site)], show) == "|" + site
    ensures CertKey(map["kind" := Str(kind)], show) == kind + "|"
  {
  }

  lemma SshReadIs(extras: Dict)
    ensures SshRead(extras) <==>
      && var changes := Get(extras, "changes");
      && changes.Obj? && Get(changes.fields, "ssh").Obj?
      && var ssh := Get(changes.fields, "ssh").fields;
      && Truthy(Get(ssh, "ports")) && Get(ssh, "pass") in {Str("yes"), Str("no")}
      && Get(ssh, "root") in {Str("yes"), Str("no"), Str("prohibit-password"), Str("without-password"),
                              Str("forced-commands-only")}
  {
  }

  lemma AdmissibleIs(job: Job, snap: Dict, show: Json -> string)
    ensures Admissible(job, snap, show) <==> Complete(job, snap, show)
  {
    if job.source.Changes? && "extras" in snap && snap["extras"].Obj? { SshReadIs(snap["extras"].fields); }
    hide SshRead, CertKey;
    if job.source.KubeExpiry? && "kube_expiry" in snap && snap["kube_expiry"].Arr? {
      var items := snap["kube_expiry"].items;
      if forall i :: 0 <= i < |items| ==> items[i].Obj? {
        forall key ensures HasCert(items, key, show) <==>
          exists i :: 0 <= i < |items| && CertKey(items[i].fields, show) == key
        {
          if i :| 0 <= i < |items| && CertKey(items[i].fields, show) == key { assert items[i].Obj?; }
        }
      }
    }
  }

  /** Extras that can be merged and compared: an object, or something empty that has no keys. */
  predicate ExtrasReadable(snap: Dict, src: Source) {
    src.Changes? || src.Backup? ==>
      "extras" in snap && (snap["extras"].Obj? || snap["extras"] == Arr([]) || snap["extras"] == Str(""))
  }

  function ExtrasIn(snap: Dict): Dict {
    if "extras" in snap && snap["extras"].Obj? then snap["extras"].fields else map[]
  }

  /** What a software answer must bring besides. */
  predicate PackagesComplete(sv: Server, job: Job, snap: Dict, versions: Option<Json>) {
    && "packages" in snap && snap["packages"].Arr? && snap["packages"].items != []
    && "pkgs" in snap && snap["pkgs"].Obj? && Truthy(Get(snap["pkgs"].fields, "h"))
    && (job.wantDb ==> Truthy(Get(snap, "db_stats")))
    && job.hostBaseline.Some? && HostUnchanged(sv, job.hostBaseline, snap, versions)
  }

  lemma AnswerBlock(snap: Dict, rep: Report, src: Source)
    requires ExtrasReadable(snap, src)
    ensures ScopedAnswer(snap, src).Some?
    ensures ScopedAnswer(snap, src) == Some(Scoped(rep, src)) <==>
      SameBlock(src, snap, ExtrasIn(snap), rep.fields, rep.extras)
  {
    hide Scoped;
    FieldsAre(src, "extras");
    ExtrasOwners(src);
    var extras := if OrEmpty(Get(snap, "extras")).Some? then OrEmpty(Get(snap, "extras")).value else map[];
    BlocksCompare(Report(snap, extras), rep, src);
  }

  /** Exactly when the merge succeeds. */
  lemma MergedExactlyWhen(sv: Server, job: Job, snap: Dict, versions: Option<Json>, show: Json -> string)
    ensures Merged(sv, job, snap, versions, show).Some? <==>
      && Complete(job, snap, show) && ExtrasReadable(snap, job.source)
      && (|| job.baseline == Some(Scoped(sv.report, job.source))
          || SameBlock(job.source, snap, ExtrasIn(snap), sv.report.fields, sv.report.extras))
      && (job.source.Software? ==> PackagesComplete(sv, job, snap, versions))
  {
    AdmissibleIs(job, snap, show);
    FieldsAre(job.source, "extras");
    ExtrasOwners(job.source);
    if ExtrasReadable(snap, job.source) { AnswerBlock(snap, sv.report, job.source); }
    SoftwareIs(sv, job, snap, versions);
    ExtrasMergeWhen(sv.report.extras, snap, job.source);
    hide Admissible, Complete, Scoped, SameBlock, MergedFields, MergedSoftware, PackagesComplete, FieldsOf;
    hide MergedExtras;
    hide ScopedAnswer, ExtrasReadable, Collects;
  }

  lemma ExtrasMergeWhen(was: Dict, snap: Dict, src: Source)
    ensures FieldsOf(src) <= snap.Keys ==>
      (MergedExtras(was, snap, src).Some? && ScopedAnswer(snap, src).Some? <==> ExtrasReadable(snap, src))
  {
    hide Scoped;
    FieldsAre(src, "extras");
    ExtrasOwners(src);
  }

  lemma SoftwareIs(sv: Server, job: Job, snap: Dict, versions: Option<Json>)
    ensures forall fields: Dict ::
      MergedSoftware(sv, job, snap, versions, fields).Some? <==> PackagesComplete(sv, job, snap, versions)
  {
  }

  /** Exactly when an answer to a job being checked gives a verdict, and which one: complete, in time, after
      a hand-out, under the settings of its creation, over a block (and package list) that is still the one
      captured or already the answer's. What the kind's own test finds on the merged record decides. */
  lemma VerdictExactlyWhen(sv: Server, job: Job, ok: bool, snap: Dict, versions: Option<Json>, left: Option<bool>,
                           now: real, show: Json -> string)
    requires job.status.Checking?
    ensures var res := Answered(sv, job, ok, snap, versions, left, now, show);
      && (res.Some? && res.value.1.status in {Fixed, Remains} <==>
            && now < job.deadline && job.taken.Some? && sv.settings == job.identity && ok && left.Some?
            && Complete(job, snap, show) && ExtrasReadable(snap, job.source)
            && (|| job.baseline == Some(Scoped(sv.report, job.source))
                || SameBlock(job.source, snap, ExtrasIn(snap), sv.report.fields, sv.report.extras))
            && (job.source.Software? ==> PackagesComplete(sv, job, snap, versions) && "mgr" in snap["pkgs"].fields))
      && (res.Some? && res.value.1.status.Fixed? ==> left == Some(false))
      && (res.Some? && res.value.1.status.Remains? ==> left == Some(true))
  {
    MergedExactlyWhen(sv, job, snap, versions, show);
    StoresWhen(sv, job, snap);
    hide Merged, Complete, Scoped, SameBlock, ExtrasReadable, ExtrasIn, IsHome, StorePackages;
    if job.source.Software? && PackagesComplete(sv, job, snap, versions) { assert snap["pkgs"].Obj?; }
  }

  lemma StoresWhen(sv: Server, job: Job, snap: Dict)
    ensures forall m: Server :: StorePackages(m, job, snap).Some? <==>
      (job.source.Software? ==> "pkgs" in snap && snap["pkgs"].Obj? && "mgr" in snap["pkgs"].fields)
  {
  }

  // ---------------------------------------------------------------- exactly what a poll gives

  /** A row may be handed out. */
  lemma AvailableIs(sv: Server, job: Job, now: real)
    ensures Available(sv, job, now) <==>
      && job.status.Checking? && now < job.deadline && sv.settings == job.identity
      && (job.taken.None? || now - job.taken.value >= 30.0)
  {
  }

  /** What a poll that reaches a row makes of it. */
  lemma PolledIs(sv: Server, job: Job, now: real)
    ensures var j := Polled(sv, job, now);
      if !job.status.Checking? then j == job
      else if job.deadline <= now then j.status.Unavailable? && j.done == Some(now) && !j.active
      else if job.taken.Some? && now - job.taken.value < 30.0 then j == job
      else if sv.settings != job.identity then j.status.Unavailable? && j.done == Some(now) && !j.active
      else
        && j.status.Checking? && j.taken == Some(now)
        && j.baseline == (if job.baseline.Some? then job.baseline else Some(Scoped(sv.report, job.source)))
        && (job.source.Software? ==>
              j.hostBaseline == if job.hostBaseline.Some? then job.hostBaseline else Some((sv.swHost, sv.pkgHash)))
  {
  }

  /** How many of the first `n` rows may be handed out. */
  function CountAvailable(sv: Server, jobs: map<string, Job>, rows: seq<string>, now: real, n: nat): nat
    requires n <= |rows| && forall i :: 0 <= i < |rows| ==> rows[i] in jobs
  {
    if n == 0 then 0
    else (if Available(sv, jobs[rows[0]], now) then 1 else 0) + CountAvailable(sv, jobs, rows[1..], now, n - 1)
  }

  lemma {:induction false} ReachedIs(sv: Server, jobs: map<string, Job>, rows: seq<string>, now: real, room: nat,
                                     x: nat)
    requires x < |rows| && forall i :: 0 <= i < |rows| ==> rows[i] in jobs
    ensures x < |Reached(sv, jobs, rows, now, room)| <==> CountAvailable(sv, jobs, rows, now, x) < room
  {
    hide Available;
    if room == 0 {
    } else if x > 0 {
      var more := if Available(sv, jobs[rows[0]], now) then room - 1 else room;
      ReachedIs(sv, jobs, rows[1..], now, more, x - 1);
    }
  }

  /** A poll hands out a row exactly if the agent can recheck, the row may be handed out, and fewer than four
      rows before it may. */
  lemma GivenExactlyWhen(s: Sys, a: Action, x: nat)
    requires a.Poll? && CanStep(s, a) && x < |a.rows|
    ensures var sv := s.servers[a.server];
      a.rows[x] in Given(s, a) <==>
        && Enabled(sv) && Available(sv, s.jobs[a.rows[x]], a.now)
        && CountAvailable(sv, s.jobs, a.rows, a.now, x) < 4
  {
    var sv, rows := s.servers[a.server], a.rows;
    var reached := Reached(sv, s.jobs, rows, a.now, MAX_TASKS);
    ReachedAreRows(sv, s.jobs, rows, a.now, MAX_TASKS);
    ReachedIs(sv, s.jobs, rows, a.now, MAX_TASKS, x);
    hide Reached, Enabled, Available, CountAvailable;
    assert rows[x] in reached <==> x < |reached| by {
      if x < |reached| { assert reached[x] == rows[x]; }
      if y :| 0 <= y < |reached| && reached[y] == rows[x] { assert rows[y] == rows[x]; }
    }
  }

  // ---------------------------------------------------------------- what one step does to a job

  predicate SameTask(a: Job, b: Job) {
    && a.server == b.server && a.kind == b.kind && a.created == b.created && a.deadline == b.deadline
    && a.identity == b.identity && a.source == b.source && a.required == b.required && a.wantDb == b.wantDb
  }

  /** Steps never lose a job, touch a finished one only by committing an old read, and change lease and
      captured blocks only by handing the job out. */
  lemma StepKeepsJob(s: Sys, a: Action, show: Json -> string, id: string)
    requires CanStep(s, a) && id in s.jobs
    ensures var s' := Step(s, a, show);
      && id in s'.jobs && SameTask(s.jobs[id], s'.jobs[id])
      && (!s.jobs[id].status.Checking? && !Overwrites(a, id) ==> s'.jobs[id] == s.jobs[id])
      && (Overwrites(a, id) ==> s'.jobs[id] == Finish(s.jobs[id], Unavailable, a.now))
      && (a.Poll? && id in Given(s, a) ==>
            a.server == s.jobs[id].server && !Leased(s.jobs[id], a.now)
            && s'.jobs[id] == HandOut(s.servers[a.server], s.jobs[id], a.now))
      && (!(a.Poll? && id in Given(s, a)) ==>
            && s'.jobs[id].taken == s.jobs[id].taken && s'.jobs[id].baseline == s.jobs[id].baseline
            && s'.jobs[id].hostBaseline == s.jobs[id].hostBaseline)
  {
    match a
    case Poll(_, _, _) => PollKeepsJob(s, a, id);
    case Answer(_, _, _, _, _, _, _) => AnswerKeepsJob(s, a, show, id);
    case _ =>
  }

  lemma PollKeepsJob(s: Sys, a: Action, id: string)
    requires a.Poll? && CanStep(s, a) && id in s.jobs
    ensures var s' := PollStep(s, a);
      && id in s'.jobs && SameTask(s.jobs[id], s'.jobs[id])
      && (!s.jobs[id].status.Checking? ==> s'.jobs[id] == s.jobs[id])
      && (id in Given(s, a) ==>
            a.server == s.jobs[id].server && !Leased(s.jobs[id], a.now)
            && s'.jobs[id] == HandOut(s.servers[a.server], s.jobs[id], a.now))
      && (id !in Given(s, a) ==>
            && s'.jobs[id].taken == s.jobs[id].taken && s'.jobs[id].baseline == s.jobs[id].baseline
            && s'.jobs[id].hostBaseline == s.jobs[id].hostBaseline)
  {
    hide HandOut, Reached;
    if Enabled(s.servers[a.server]) {
      ReachedAreRows(s.servers[a.server], s.jobs, a.rows, a.now, MAX_TASKS);
    }
    hide Enabled;
    HandOutFacts(s.servers[a.server], s.jobs[id], a.now);
  }

  lemma HandOutFacts(sv: Server, job: Job, now: real)
    ensures SameTask(job, HandOut(sv, job, now))
  {
  }

  lemma AnswerKeepsJob(s: Sys, a: Action, show: Json -> string, id: string)
    requires a.Answer? && a.server in s.servers && id in s.jobs
    ensures var s' := AnswerStep(s, a, show);
      && id in s'.jobs && SameTask(s.jobs[id], s'.jobs[id])
      && (!s.jobs[id].status.Checking? ==> s'.jobs[id] == s.jobs[id])
      && s'.jobs[id].taken == s.jobs[id].taken && s'.jobs[id].baseline == s.jobs[id].baseline
      && s'.jobs[id].hostBaseline == s.jobs[id].hostBaseline
  {
    hide Merged, StorePackages, IsHome;
  }

  lemma {:induction false} ReachedAreRows(sv: Server, jobs: map<string, Job>, rows: seq<string>, now: real, room: nat)
    requires forall i :: 0 <= i < |rows| ==> rows[i] in jobs
    ensures Reached(sv, jobs, rows, now, room) <= rows
  {
    if rows != [] && room != 0 {
      var left := if Available(sv, jobs[rows[0]], now) then room - 1 else room;
      hide Available;
      ReachedAreRows(sv, jobs, rows[1..], now, left);
      assert rows == [rows[0]] + rows[1..];
      assert Reached(sv, jobs, rows, now, room) == [rows[0]] + Reached(sv, jobs, rows[1..], now, left);
    }
  }

  /** A poll hands out at most four jobs. */
  lemma AtMostFour(s: Sys, a: Action)
    requires a.Poll? && CanStep(s, a)
    ensures |Given(s, a)| <= 4
  {
    var sv := s.servers[a.server];
    if Enabled(sv) {
      ReachedRoom(sv, s.jobs, a.rows, a.now, MAX_TASKS);
      assert Given(s, a) == GivenOf(sv, s.jobs, Reached(sv, s.jobs, a.rows, a.now, MAX_TASKS), a.now);
    }
  }

  ghost function GivenOf(sv: Server, jobs: map<string, Job>, ids: seq<string>, now: real): set<string> {
    set id | id in ids && id in jobs && Available(sv, jobs[id], now)
  }

  lemma {:induction false} ReachedRoom(sv: Server, jobs: map<string, Job>, rows: seq<string>, now: real, room: nat)
    requires forall i :: 0 <= i < |rows| ==> rows[i] in jobs
    ensures |GivenOf(sv, jobs, Reached(sv, jobs, rows, now, room), now)| <= room
  {
    hide Available;
    if rows != [] && room != 0 {
      var id := rows[0];
      var here := Available(sv, jobs[id], now);
      var rest := Reached(sv, jobs, rows[1..], now, if here then room - 1 else room);
      ReachedRoom(sv, jobs, rows[1..], now, if here then room - 1 else room);
      assert GivenOf(sv, jobs, [id] + rest, now)
          == GivenOf(sv, jobs, rest, now) + (if here then {id} else {});
    } else {
      assert GivenOf(sv, jobs, [], now) == {};
    }
  }

  // ---------------------------------------------------------------- runs

  /** States and the actions between them. */
  datatype Run = Run(states: seq<Sys>, acts: seq<Action>)

  ghost predicate IsRun(r: Run, show: Json -> string) {
    && |r.states| == |r.acts| + 1 && r.states[0].jobs == map[]
    && (forall i :: 0 <= i < |r.acts| ==> CanStep(r.states[i], r.acts[i])
                                          && r.states[i + 1] == Step(r.states[i], r.acts[i], show))
    && forall i: nat :: i < |r.acts| && r.acts[i].Settle? ==> ReadEarlier(r, i)
  }

  ghost predicate ReadAt(r: Run, k: nat, id: string, row: Job) {
    k < |r.states| && id in r.states[k].jobs && r.states[k].jobs[id] == row
  }

  /** The row a commit carries was read in this or an earlier state. */
  ghost predicate ReadEarlier(r: Run, i: nat)
    requires i < |r.acts| && r.acts[i].Settle?
  {
    exists k: nat :: k <= i && ReadAt(r, k, r.acts[i].id, r.acts[i].row)
  }

  lemma RunStep(r: Run, show: Json -> string, i: nat)
    requires IsRun(r, show) && i < |r.acts|
    ensures |r.states| == |r.acts| + 1
    ensures CanStep(r.states[i], r.acts[i]) && r.states[i + 1] == Step(r.states[i], r.acts[i], show)
  {
  }

  ghost predicate HandedOut(r: Run, i: nat, id: string) {
    i < |r.acts| && i < |r.states| && r.acts[i].Poll? && CanStep(r.states[i], r.acts[i])
    && id in Given(r.states[i], r.acts[i])
  }

  /** The first and the last hand-out of a job before step `i`. */
  ghost function FirstOut(r: Run, i: nat, id: string): (k: Option<nat>)
    ensures k.Some? ==> k.value < i && HandedOut(r, k.value, id)
  {
    if i == 0 then None
    else if FirstOut(r, i - 1, id).Some? then FirstOut(r, i - 1, id)
    else if HandedOut(r, i - 1, id) then Some(i - 1) else None
  }

  ghost function LastOut(r: Run, i: nat, id: string): (k: Option<nat>)
    ensures k.Some? ==> k.value < i && HandedOut(r, k.value, id)
  {
    if i == 0 then None
    else if HandedOut(r, i - 1, id) then Some(i - 1) else LastOut(r, i - 1, id)
  }

  lemma {:induction false} OutFacts(r: Run, i: nat, id: string)
    ensures FirstOut(r, i, id).None? <==> LastOut(r, i, id).None?
    ensures FirstOut(r, i, id).None? <==> forall x: nat :: x < i ==> !HandedOut(r, x, id)
    ensures FirstOut(r, i, id).Some? ==> forall x: nat :: x < FirstOut(r, i, id).value ==> !HandedOut(r, x, id)
    ensures LastOut(r, i, id).Some? ==> forall x: nat :: LastOut(r, i, id).value < x < i ==> !HandedOut(r, x, id)
  {
    hide HandedOut;
    if i > 0 { OutFacts(r, i - 1, id); }
  }

  ghost predicate Born(r: Run, c: nat, id: string) {
    && c < |r.acts| && c + 1 < |r.states| && r.acts[c].Create? && r.acts[c].id == id
    && id !in r.states[c].jobs && id in r.states[c + 1].jobs && r.acts[c].server in r.states[c].servers
  }

  /** The job row `job` as step `c` created it. */
  ghost predicate BornAs(r: Run, c: nat, id: string, job: Job) {
    && Born(r, c, id)
    && job.server == r.acts[c].server && job.kind == r.acts[c].kind && job.source == r.acts[c].source
    && job.required == r.acts[c].required && job.deadline == r.acts[c].now + 180.0
    && job.identity == r.states[c].servers[job.server].settings
  }

  /** The row's lease is the last hand-out, its captured blocks are those of the first. */
  ghost predicate LeaseIs(r: Run, i: nat, id: string, job: Job) {
    match LastOut(r, i, id)
    case None => job.taken.None?
    case Some(k) => job.taken == Some(r.acts[k].now)
  }

  ghost predicate BlocksAre(r: Run, i: nat, id: string, job: Job) {
    match FirstOut(r, i, id)
    case None => job.baseline.None? && job.hostBaseline.None?
    case Some(k) =>
      && job.server in r.states[k].servers
      && var sv := r.states[k].servers[job.server];
         && job.baseline == Some(Scoped(sv.report, job.source))
         && (job.source.Software? ==> job.hostBaseline == Some((sv.swHost, sv.pkgHash)))
  }

  /** What a job row says about its own past. */
  ghost predicate Remembers(r: Run, i: nat, id: string)
    requires i < |r.states| && id in r.states[i].jobs
  {
    var job := r.states[i].jobs[id];
    && (exists c: nat :: c < i && BornAs(r, c, id, job))
    && LeaseIs(r, i, id, job) && BlocksAre(r, i, id, job)
  }

  /** In every reachable state each job row remembers exactly its creation, its last hand-out and
      the blocks captured at its first one. */
  lemma {:induction false} JobsRemember(r: Run, show: Json -> string, i: nat, id: string)
    requires IsRun(r, show) && i < |r.states| && id in r.states[i].jobs
    ensures Remembers(r, i, id)
  {
    hide IsRun, Remembers, HandedOut, Step, CanStep;
    RunStart(r, show);
    if i > 0 {
      RunStep(r, show, i - 1);
      if id in r.states[i - 1].jobs {
        JobsRemember(r, show, i - 1, id);
        StillRemembers(r, show, i - 1, id);
      } else {
        NotBefore(r, show, i - 1, id);
        NewRemembers(r, show, i - 1, id);
      }
    }
  }

  lemma RunStart(r: Run, show: Json -> string)
    requires IsRun(r, show)
    ensures |r.states| == |r.acts| + 1 && r.states[0].jobs == map[]
  {
  }

  lemma StillRemembers(r: Run, show: Json -> string, i: nat, id: string)
    requires IsRun(r, show) && i < |r.acts| && i + 1 < |r.states|
    requires id in r.states[i].jobs && Remembers(r, i, id)
    ensures id in r.states[i + 1].jobs && Remembers(r, i + 1, id)
  {
    hide IsRun, Given, Scoped, Born, Leased, Step, HandedOut;
    var s, a := r.states[i], r.acts[i];
    RunStep(r, show, i);
    HandedOutMeans(r, i, id);
    StepKeepsJob(s, a, show, id);
    var job, job' := s.jobs[id], r.states[i + 1].jobs[id];
    var c: nat :| c < i && BornAs(r, c, id, job);
    assert BornAs(r, c, id, job');
    assert LeaseIs(r, i + 1, id, job');
    assert BlocksAre(r, i + 1, id, job');
  }

  lemma HandedOutMeans(r: Run, i: nat, id: string)
    requires i < |r.acts| && i < |r.states| && CanStep(r.states[i], r.acts[i])
    ensures HandedOut(r, i, id) <==> r.acts[i].Poll? && id in Given(r.states[i], r.acts[i])
    ensures HandedOut(r, i, id) ==> r.acts[i].server in r.states[i].servers
  {
  }

  lemma NewRemembers(r: Run, show: Json -> string, i: nat, id: string)
    requires IsRun(r, show) && i < |r.acts| && i + 1 < |r.states|
    requires id !in r.states[i].jobs && id in r.states[i + 1].jobs
    requires forall x: nat :: x <= i ==> !HandedOut(r, x, id)
    ensures Remembers(r, i + 1, id)
  {
    hide IsRun, HandedOut, Scoped;
    RunStep(r, show, i);
    OutFacts(r, i + 1, id);
    assert BornAs(r, i, id, r.states[i + 1].jobs[id]);
    assert FirstOut(r, i + 1, id).None? && LastOut(r, i + 1, id).None?;
  }

  /** A job that does not exist yet was never handed out. */
  lemma {:induction false} NotBefore(r: Run, show: Json -> string, i: nat, id: string)
    requires IsRun(r, show) && i < |r.acts| && id !in r.states[i].jobs
    ensures forall x: nat :: x <= i ==> !HandedOut(r, x, id)
  {
    hide IsRun, Step, CanStep, Given, Overwrites, SameTask, HandedOut;
    RunStep(r, show, i);
    NotGiven(r, i, id);
    if i > 0 {
      RunStep(r, show, i - 1);
      if id in r.states[i - 1].jobs { StepKeepsJob(r.states[i - 1], r.acts[i - 1], show, id); }
      NotBefore(r, show, i - 1, id);
    }
  }

  lemma NotGiven(r: Run, i: nat, id: string)
    requires i < |r.states| && id !in r.states[i].jobs
    ensures !HandedOut(r, i, id)
  {
  }

  // ---------------------------------------------------------------- theorems over runs

  /** One verdict: a job that has left `checking` is never changed again but by committing a read that
      still showed it as being checked, and never returns to `checking`. */
  lemma {:induction false} OneVerdict(r: Run, show: Json -> string, i: nat, j: nat, id: string)
    requires IsRun(r, show) && i <= j < |r.states|
    requires id in r.states[i].jobs && !r.states[i].jobs[id].status.Checking?
    ensures id in r.states[j].jobs && !r.states[j].jobs[id].status.Checking?
    ensures (forall k :: i <= k < j ==> !Overwrites(r.acts[k], id)) ==> r.states[j].jobs[id] == r.states[i].jobs[id]
    decreases j - i
  {
    hide IsRun, Step, CanStep, Overwrites, Given;
    if i < j {
      RunStart(r, show);
      RunStep(r, show, i);
      StepKeepsJob(r.states[i], r.acts[i], show, id);
      OneVerdict(r, show, i + 1, j, id);
    }
  }

  /** Exactly when a step takes a verdict back: when it commits such a read. The job then ends as
      `unavailable`. */
  lemma VerdictLostExactlyWhen(s: Sys, a: Action, show: Json -> string, id: string)
    requires CanStep(s, a) && id in s.jobs && s.jobs[id].status in {Fixed, Remains}
    ensures id in Step(s, a, show).jobs
    ensures Step(s, a, show).jobs[id].status != s.jobs[id].status <==> Overwrites(a, id)
    ensures Overwrites(a, id) ==> Step(s, a, show).jobs[id].status.Unavailable?
  {
    hide Step, CanStep, Overwrites, Given;
    StepKeepsJob(s, a, show, id);
  }

  /** Such a read was made before the verdict. */
  lemma LostVerdictWasReadBefore(r: Run, show: Json -> string, v: nat, i: nat, id: string) returns (k: nat)
    requires IsRun(r, show) && v < i < |r.acts| && Overwrites(r.acts[i], id)
    requires id in r.states[v + 1].jobs && r.states[v + 1].jobs[id].status in {Fixed, Remains}
    ensures k <= v && ReadAt(r, k, id, r.acts[i].row)
  {
    assert ReadEarlier(r, i);
    k :| k <= i && ReadAt(r, k, id, r.acts[i].row);
    if k > v { OneVerdict(r, show, v + 1, k, id); }
  }

  /** Every verdict can be lost: any run that ends with one goes on with the commit of a list that read
      the row just before it and whose clock is past the deadline. */
  lemma EveryVerdictCanBeLost(r: Run, show: Json -> string, id: string, settings: string, now: real)
    returns (longer: Run)
    requires IsRun(r, show) && r.acts != [] && id in r.states[|r.acts| - 1].jobs
    requires r.states[|r.acts| - 1].jobs[id].status.Checking? && now >= r.states[|r.acts| - 1].jobs[id].deadline
    requires id in r.states[|r.acts|].jobs && r.states[|r.acts|].jobs[id].status in {Fixed, Remains}
    ensures IsRun(longer, show) && |longer.acts| == |r.acts| + 1 && longer.acts[..|r.acts|] == r.acts
    ensures |longer.states| == |r.acts| + 2 && longer.states[..|r.acts| + 1] == r.states
    ensures id in longer.states[|longer.acts|].jobs && longer.states[|longer.acts|].jobs[id].status.Unavailable?
  {
    var n := |r.acts|;
    var row := r.states[n - 1].jobs[id];
    var a := Settle(id, row, settings, now);
    assert CanStep(r.states[n], a) && Overwrites(a, id) && ReadAt(r, n - 1, id, row);
    hide Step, CanStep, Overwrites;
    VerdictLostExactlyWhen(r.states[n], a, show, id);
    longer := RunGrows(r, show, a, Step(r.states[n], a, show), n - 1);
  }

  lemma RunGrows(r: Run, show: Json -> string, a: Action, after: Sys, k: nat) returns (longer: Run)
    requires IsRun(r, show) && CanStep(r.states[|r.acts|], a) && after == Step(r.states[|r.acts|], a, show)
    requires a.Settle? ==> k <= |r.acts| && ReadAt(r, k, a.id, a.row)
    ensures longer == Run(r.states + [after], r.acts + [a]) && IsRun(longer, show)
  {
    hide Step, CanStep;
    longer := Run(r.states + [after], r.acts + [a]);
    forall i: nat | i < |longer.acts| && longer.acts[i].Settle? ensures ReadEarlier(longer, i) {
      if i < |r.acts| {
        assert ReadEarlier(r, i);
        var x: nat :| x <= i && ReadAt(r, x, r.acts[i].id, r.acts[i].row);
        assert ReadAt(longer, x, longer.acts[i].id, longer.acts[i].row);
      } else {
        assert ReadAt(longer, k, a.id, a.row);
      }
    }
  }

  // ---------------------------------------------------------------- a run in which a verdict is lost

  function WarmServer(): Server {
    Server("a", Report(map["caps" := Obj(map["alert_recheck" := Bool(true)])], map[]), Null, Null, map[], None)
  }

  function WarmJob(): Job {
    Job(1, "temp", 0.0, TIMEOUT, None, None, Checking, true, "a", Temp, {}, false, None, None)
  }

  function WarmSnap(): Dict { map["cpu_temp" := Num(50.0)] }

  lemma WarmPoll()
    ensures var s, a := Sys(map[1 := WarmServer()], map["j" := WarmJob()]), Poll(1, ["j"], 1.0);
      CanStep(s, a) && PollStep(s, a) == s.(jobs := map["j" := HandOut(WarmServer(), WarmJob(), 1.0)])
  {
    hide Scoped;
    var s, sv := Sys(map[1 := WarmServer()], map["j" := WarmJob()]), WarmServer();
    assert Enabled(sv);
    assert ["j"][1..] == [] && ["j"][0] in s.jobs;
    assert Reached(sv, s.jobs, ["j"][1..], 1.0, 3) == [] by { hide Available; }
    assert Available(sv, WarmJob(), 1.0);
    assert Reached(sv, s.jobs, ["j"], 1.0, 4) == ["j"] by { hide Available; }
  }

  /** A reading of the temperature decides its job. */
  lemma WarmAnswer(job: Job, show: Json -> string)
    requires job == HandOut(WarmServer(), WarmJob(), 1.0)
    ensures var res := Answered(WarmServer(), job, true, WarmSnap(), None, Some(false), 2.0, show);
      res.Some? && res.value.1.status.Fixed?
  {
    hide Scoped, Overwrite, IsHome;
    var sv := WarmServer();
    assert FieldsOf(Temp) <= WarmSnap().Keys && "extras" !in FieldsOf(Temp);
    assert Admissible(job, WarmSnap(), show);
    assert ScopedAnswer(WarmSnap(), Temp).Some?;
    assert MergedExtras(sv.report.extras, WarmSnap(), Temp).Some?;
    hide Admissible, ScopedAnswer, MergedExtras;
    assert Merged(sv, job, WarmSnap(), None, show).Some?;
  }

  function WarmActs(): seq<Action> {
    [Create("j", 1, "temp", Temp, {}, false, false, None, 0.0), Poll(1, ["j"], 1.0),
     Answer(1, "j", true, WarmSnap(), None, Some(false), 2.0)]
  }

  lemma WarmSteps(show: Json -> string)
    ensures var sv, job, acts := WarmServer(), WarmJob(), WarmActs();
      var s0, s1 := Sys(map[1 := sv], map[]), Sys(map[1 := sv], map["j" := job]);
      var s2 := Sys(map[1 := sv], map["j" := HandOut(sv, job, 1.0)]);
      && CanStep(s0, acts[0]) && Step(s0, acts[0], show) == s1
      && CanStep(s1, acts[1]) && Step(s1, acts[1], show) == s2
      && CanStep(s2, acts[2]) && "j" in Step(s2, acts[2], show).jobs && Step(s2, acts[2], show).jobs["j"].status.Fixed?
  {
    hide Answered, Reached, Scoped;
    WarmPoll();
    WarmAnswer(HandOut(WarmServer(), WarmJob(), 1.0), show);
  }

  /** From nothing: a job is created, handed out and found fixed; the list of rechecks then takes the
      verdict back. */
  lemma VerdictIsLost(show: Json -> string) returns (r: Run)
    ensures IsRun(r, show) && |r.acts| == 4 && "j" in r.states[3].jobs && "j" in r.states[4].jobs
    ensures r.states[3].jobs["j"].status.Fixed? && r.states[4].jobs["j"].status.Unavailable?
  {
    var sv, job, acts := WarmServer(), WarmJob(), WarmActs();
    var handed := HandOut(sv, job, 1.0);
    assert handed.status.Checking? && handed.deadline == TIMEOUT;
    hide Step, CanStep, WarmServer, WarmJob, HandOut, WarmSnap;
    WarmSteps(show);
    var s0, s1 := Sys(map[1 := sv], map[]), Sys(map[1 := sv], map["j" := job]);
    var s2 := Sys(map[1 := sv], map["j" := handed]);
    assert IsRun(Run([s0], []), show);
    hide IsRun;
    r := RunGrows(Run([s0], []), show, acts[0], s1, 0);
    r := RunGrows(r, show, acts[1], s2, 0);
    r := RunGrows(r, show, acts[2], Step(s2, acts[2], show), 0);
    r := EveryVerdictCanBeLost(r, show, "j", "a", TIMEOUT);
  }

  /** Everything a recorded verdict rests on. */
  ghost predicate Justified(r: Run, show: Json -> string, i: nat, id: string)
    requires i < |r.acts| && i < |r.states| && id in r.states[i].jobs
  {
    var a, job := r.acts[i], r.states[i].jobs[id];
    && a.Answer? && a.id == id && a.ok && a.server == job.server && a.server in r.states[i].servers
    && (exists c: nat :: c < i && BornAs(r, c, id, job)
          && a.now < r.acts[c].now + 180.0
          && r.states[i].servers[a.server].settings == r.states[c].servers[a.server].settings
          && FieldsOf(r.acts[c].source) <= a.snap.Keys
          && (r.acts[c].source.KubeExpiry? ==>
                (a.snap["kube_expiry"].Arr?
                 && forall key :: key in r.acts[c].required ==> HasCert(a.snap["kube_expiry"].items, key, show))))
    && FirstOut(r, i, id).Some?
    && var k := FirstOut(r, i, id).value;
       && a.server in r.states[k].servers
       && (|| Scoped(r.states[i].servers[a.server].report, job.source)
              == Scoped(r.states[k].servers[a.server].report, job.source)
           || Some(Scoped(r.states[i].servers[a.server].report, job.source)) == ScopedAnswer(a.snap, job.source))
       && (job.source.Software? ==>
             HostUnchanged(r.states[i].servers[a.server],
                           Some((r.states[k].servers[a.server].swHost, r.states[k].servers[a.server].pkgHash)),
                           a.snap, a.versions))
  }

  /** A verdict `fixed` or `remains` is recorded only by an answer, strictly before the deadline,
      after a hand-out of that same job, under the settings it was created with, with every
      required block and certificate present, and never over a block that automatic collection
      has changed since the first hand-out to something else than the answer; for software, neither
      over such a package list. */
  lemma VerdictIsJustified(r: Run, show: Json -> string, i: nat, id: string)
    requires IsRun(r, show) && i < |r.acts| && i + 1 < |r.states|
    requires id in r.states[i].jobs && r.states[i].jobs[id].status.Checking?
    requires id in r.states[i + 1].jobs && r.states[i + 1].jobs[id].status in {Fixed, Remains}
    ensures Justified(r, show, i, id)
  {
    hide IsRun, Answered, Scoped, ScopedAnswer, HasCert, OnlyCollectorFields, Step, CanStep, HandedOut, HostWritten;
    RunStep(r, show, i);
    OutFacts(r, i, id);
    var s, a, job := r.states[i], r.acts[i], r.states[i].jobs[id];
    OnlyAnswersDecide(s, a, show, id);
    JobsRemember(r, show, i, id);
    AnswerIsScoped(s.servers[a.server], job, a.ok, a.snap, a.versions, a.left, a.now, show);
  }

  lemma OnlyAnswersDecide(s: Sys, a: Action, show: Json -> string, id: string)
    requires CanStep(s, a) && id in s.jobs && s.jobs[id].status.Checking?
    requires id in Step(s, a, show).jobs && Step(s, a, show).jobs[id].status in {Fixed, Remains}
    ensures a.Answer? && a.id == id && s.jobs[id].server == a.server
    ensures Answered(s.servers[a.server], s.jobs[id], a.ok, a.snap, a.versions, a.left, a.now, show).Some?
    ensures Step(s, a, show).jobs[id]
         == Answered(s.servers[a.server], s.jobs[id], a.ok, a.snap, a.versions, a.left, a.now, show).value.1
  {
  }

  /** No lost update, over a run: between two states the report of a server changes through an
      answer only if that answer records a verdict, and then only in the collector's fields. */
  lemma NoLostUpdate(r: Run, show: Json -> string, i: nat, server: int)
    requires IsRun(r, show) && i < |r.acts| && r.acts[i].Answer? && server in r.states[i].servers
    requires server in r.states[i + 1].servers && r.states[i + 1].servers[server] != r.states[i].servers[server]
    ensures var a := r.acts[i];
      && a.server == server && a.id in r.states[i].jobs
      && r.states[i].jobs[a.id].status.Checking? && r.states[i + 1].jobs[a.id].status in {Fixed, Remains}
      && Justified(r, show, i, a.id)
      && OnlyCollectorFields(r.states[i].servers[server].report, r.states[i + 1].servers[server].report, a.snap,
                             r.states[i].jobs[a.id].source)
      && r.states[i + 1].servers[server].verified
           == VerifiedBy(r.states[i].servers[server], r.states[i + 1].jobs[a.id], a.now)
      && (r.states[i].jobs[a.id].source.Software? ==> HostWritten(r.states[i + 1].servers[server], a.snap, a.versions))
      && (!r.states[i].jobs[a.id].source.Software? ==>
            && r.states[i + 1].servers[server].swHost == r.states[i].servers[server].swHost
            && r.states[i + 1].servers[server].pkgHash == r.states[i].servers[server].pkgHash
            && r.states[i + 1].servers[server].packages == r.states[i].servers[server].packages)
  {
    var s, a := r.states[i], r.acts[i];
    assert CanStep(s, a) && r.states[i + 1] == Step(s, a, show);
    assert a.id in s.jobs && a.server == server;
    var job := s.jobs[a.id];
    assert job.status.Checking?;
    AnswerIsScoped(s.servers[server], job, a.ok, a.snap, a.versions, a.left, a.now, show);
    VerdictIsJustified(r, show, i, a.id);
  }

  /** The lease: two hand-outs of one job are at least thirty seconds apart. */
  lemma LeaseGap(r: Run, show: Json -> string, i: nat, j: nat, id: string)
    requires IsRun(r, show) && i < j && HandedOut(r, i, id) && HandedOut(r, j, id)
    ensures r.acts[j].now - r.acts[i].now >= 30.0
    decreases j
  {
    hide IsRun, Step, Given;
    RunStep(r, show, j);
    HandedOutMeans(r, j, id);
    GivenExist(r.states[j], r.acts[j], id);
    JobsRemember(r, show, j, id);
    OutFacts(r, j, id);
    StepKeepsJob(r.states[j], r.acts[j], show, id);
    var k := LastOut(r, j, id).value;
    assert r.acts[j].now - r.acts[k].now >= RETRY;
    if i < k { LeaseGap(r, show, i, k, id); }
  }

  lemma GivenExist(s: Sys, a: Action, id: string)
    requires a.Poll? && CanStep(s, a) && id in Given(s, a)
    ensures id in s.jobs
  {
  }

  /** `active_key`: only a job being checked is active, and never two for one issue. */
  predicate OneActive(s: Sys) {
    && (forall x :: x in s.jobs ==> (s.jobs[x].active <==> s.jobs[x].status.Checking?))
    && (forall x, y :: x in s.jobs && y in s.jobs && s.jobs[x].active && s.jobs[y].active ==>
          SameIssue(s.jobs[x], s.jobs[y].server, s.jobs[y].kind) ==> x == y)
  }

  lemma {:induction false} OneActiveJob(r: Run, show: Json -> string, i: nat)
    requires IsRun(r, show) && i < |r.states|
    ensures OneActive(r.states[i])
  {
    hide IsRun, Step, CanStep, OneActive;
    RunStart(r, show);
    if i == 0 {
      NoneActive(r.states[0]);
    } else {
      OneActiveJob(r, show, i - 1);
      RunStep(r, show, i - 1);
      ActiveStep(r.states[i - 1], r.acts[i - 1], show);
    }
  }

  lemma NoneActive(s: Sys)
    requires s.jobs == map[]
    ensures OneActive(s)
  {
  }

  lemma ActiveStep(s: Sys, a: Action, show: Json -> string)
    requires CanStep(s, a) && OneActive(s)
    ensures OneActive(Step(s, a, show))
  {
    hide Step, CanStep;
    var s' := Step(s, a, show);
    forall x | x in s.jobs
      ensures x in s'.jobs && SameTask(s.jobs[x], s'.jobs[x])
      ensures s'.jobs[x].active ==> s.jobs[x].active
      ensures s'.jobs[x].active <==> s'.jobs[x].status.Checking?
    {
      StepKeepsJob(s, a, show, x);
      StepKeepsActive(s, a, show, x);
    }
    forall x | x in s'.jobs && x !in s.jobs
      ensures s'.jobs[x].active <==> s'.jobs[x].status.Checking?
      ensures a.Create? && x == a.id && SameIssue(s'.jobs[x], a.server, a.kind)
      ensures forall y :: y in s.jobs && s'.jobs[y].active ==> !SameIssue(s.jobs[y], a.server, a.kind)
    {
      NewIsAlone(s, a, show, x);
    }
  }

  lemma StepKeepsActive(s: Sys, a: Action, show: Json -> string, x: string)
    requires CanStep(s, a) && x in s.jobs && x in Step(s, a, show).jobs
    requires s.jobs[x].active <==> s.jobs[x].status.Checking?
    ensures Step(s, a, show).jobs[x].active ==> s.jobs[x].active
    ensures Step(s, a, show).jobs[x].active <==> Step(s, a, show).jobs[x].status.Checking?
  {
    hide Merged, StorePackages, IsHome, Enabled, Reached, Scoped;
  }

  lemma NewIsAlone(s: Sys, a: Action, show: Json -> string, x: string)
    requires CanStep(s, a) && OneActive(s) && x !in s.jobs && x in Step(s, a, show).jobs
    ensures var s' := Step(s, a, show);
      && a.Create? && x == a.id && SameIssue(s'.jobs[x], a.server, a.kind)
      && (s'.jobs[x].active <==> s'.jobs[x].status.Checking?)
      && forall y :: y in s.jobs && y in s'.jobs && s'.jobs[y].active ==> !SameIssue(s.jobs[y], a.server, a.kind)
  {
    hide Answered, Reached, Polled, Enabled;
  }

  // ---------------------------------------------------------------- the panel's own procedures

  lemma OverwriteNone(was: Dict, snap: Dict)
    ensures Overwrite(was, snap, {}) == was
  {
  }

  lemma OverwriteNext(was: Dict, snap: Dict, keys: set<string>, k: string)
    requires keys <= snap.Keys && k in snap
    ensures Overwrite(was, snap, keys)[k := snap[k]] == Overwrite(was, snap, keys + {k})
  {
  }

  ghost function PolledUpTo(sv: Server, jobs: map<string, Job>, ids: seq<string>, now: real): map<string, Job> {
    map id | id in jobs :: if id in ids then Polled(sv, jobs[id], now) else jobs[id]
  }

  lemma ReachedNext(sv: Server, jobs: map<string, Job>, rows: seq<string>, now: real, room: nat)
    requires rows != [] && room > 0 && forall i :: 0 <= i < |rows| ==> rows[i] in jobs
    ensures Reached(sv, jobs, rows, now, room)
         == [rows[0]] + Reached(sv, jobs, rows[1..], now, if Available(sv, jobs[rows[0]], now) then room - 1 else room)
  {
  }

  /** Distinct rows of the table. */
  predicate RowsOf(rows: seq<string>, jobs: map<string, Job>) {
    (forall i :: 0 <= i < |rows| ==> rows[i] in jobs) && forall x, y :: 0 <= x < y < |rows| ==> rows[x] != rows[y]
  }

  lemma RowsAre(s: Sys, a: Action)
    requires a.Poll? && CanStep(s, a)
    ensures RowsOf(a.rows, s.jobs)
  {
  }

  lemma ReachedMoves(sv: Server, jobs: map<string, Job>, rows: seq<string>, i: nat, now: real, room: nat)
    requires i < |rows| && room > 0 && forall k :: 0 <= k < |rows| ==> rows[k] in jobs
    ensures rows[..i] + Reached(sv, jobs, rows[i..], now, room)
         == rows[..i + 1]
            + Reached(sv, jobs, rows[i + 1..], now, if Available(sv, jobs[rows[i]], now) then room - 1 else room)
  {
    hide Reached, Available;
    ReachedNext(sv, jobs, rows[i..], now, room);
    assert rows[i..][1..] == rows[i + 1..] && rows[..i + 1] == rows[..i] + [rows[i]];
  }

  lemma NewRow(rows: seq<string>, jobs: map<string, Job>, i: nat)
    requires i < |rows| && RowsOf(rows, jobs)
    ensures rows[i] !in rows[..i] && rows[..i + 1] == rows[..i] + [rows[i]]
  {
  }

  lemma ReachedEnd(sv: Server, jobs: map<string, Job>, rows: seq<string>, now: real, room: nat)
    requires (rows == [] || room == 0) && forall i :: 0 <= i < |rows| ==> rows[i] in jobs
    ensures Reached(sv, jobs, rows, now, room) == []
  {
  }

  lemma GivenNext(sv: Server, jobs: map<string, Job>, ids: seq<string>, id: string, now: real)
    requires id in jobs
    ensures GivenOf(sv, jobs, ids + [id], now)
         == GivenOf(sv, jobs, ids, now) + (if Available(sv, jobs[id], now) then {id} else {})
  {
  }

  function Ids(out: seq<string>): set<string> { set id | id in out }

  /** A poll after `i` rows. */
  ghost predicate PollUpTo(sv: Server, was: map<string, Job>, rows: seq<string>, i: nat, now: real,
                           out: seq<string>, jobs: map<string, Job>)
    requires RowsOf(rows, was) && i <= |rows| && |out| <= MAX_TASKS
  {
    && jobs == PolledUpTo(sv, was, rows[..i], now) && Ids(out) == GivenOf(sv, was, rows[..i], now)
    && Reached(sv, was, rows, now, MAX_TASKS) == rows[..i] + Reached(sv, was, rows[i..], now, MAX_TASKS - |out|)
  }

  lemma PollStarts(sv: Server, jobs: map<string, Job>, rows: seq<string>, now: real)
    requires RowsOf(rows, jobs)
    ensures PollUpTo(sv, jobs, rows, 0, now, [], jobs)
  {
    hide Reached, Polled, Available;
    assert rows[0..] == rows && rows[..0] == [];
  }

  /** One more row. */
  lemma PollOne(sv: Server, was: map<string, Job>, rows: seq<string>, i: nat, now: real,
                out: seq<string>, jobs: map<string, Job>)
    requires RowsOf(rows, was) && i < |rows| && |out| < MAX_TASKS && PollUpTo(sv, was, rows, i, now, out, jobs)
    ensures rows[i] in jobs && jobs[rows[i]] == was[rows[i]]
    ensures PollUpTo(sv, was, rows, i + 1, now, if Available(sv, was[rows[i]], now) then out + [rows[i]] else out,
                     jobs[rows[i] := Polled(sv, was[rows[i]], now)])
  {
    hide PolledUpTo, GivenOf, Reached, Polled, Available, Ids;
    NewRow(rows, was, i);
    ReachedMoves(sv, was, rows, i, now, MAX_TASKS - |out|);
    GivenNext(sv, was, rows[..i], rows[i], now);
    PolledNext(sv, was, rows[..i], rows[i], now);
    IdsGrow(out, rows[i]);
  }

  lemma PollEnds(s: Sys, a: Action, i: nat, out: seq<string>, jobs: map<string, Job>)
    requires a.Poll? && CanStep(s, a) && Enabled(s.servers[a.server]) && RowsOf(a.rows, s.jobs)
    requires i <= |a.rows| && |out| <= MAX_TASKS && (i == |a.rows| || |out| == MAX_TASKS)
    requires PollUpTo(s.servers[a.server], s.jobs, a.rows, i, a.now, out, jobs)
    ensures PollStep(s, a) == s.(jobs := jobs) && Given(s, a) == Ids(out)
  {
    hide Enabled, Reached, Polled, Available;
    ReachedEnd(s.servers[a.server], s.jobs, a.rows[i..], a.now, MAX_TASKS - |out|);
    assert a.rows[..i] + [] == a.rows[..i];
  }

  lemma IdsGrow(out: seq<string>, id: string)
    ensures Ids(out + [id]) == Ids(out) + {id}
  {
  }

  lemma PolledNext(sv: Server, jobs: map<string, Job>, ids: seq<string>, id: string, now: real)
    requires id in jobs && id !in ids
    ensures var was := PolledUpTo(sv, jobs, ids, now);
      id in was && was[id] == jobs[id]
      && PolledUpTo(sv, jobs, ids + [id], now) == was[id := Polled(sv, jobs[id], now)]
  {
    hide Polled;
  }

  /** The two tables, changed in place the way the source changes them. */
  class Panel {
    var servers: map<int, Server>
    var jobs: map<string, Job>

    ghost function State(): Sys reads this { Sys(servers, jobs) }

    /** One row of `take_tasks`: expire, skip if leased, refuse if edited, else hand out. */
    static method TakeRow(sv: Server, row: Job, now: real) returns (job: Job, given: bool)
      ensures job == Polled(sv, row, now) && given == Available(sv, row, now)
    {
      job, given := Expire(row, now), false;
      if !job.status.Checking? || Leased(job, now) { return; }
      if sv.settings != job.identity {
        job := Finish(job, Unavailable, now);
      } else {
        job, given := HandOut(sv, job, now), true;
      }
    }

    /** `take_tasks`: walk the rows, oldest first, until four are handed out. */
    method TakeTasks(server: int, rows: seq<string>, now: real) returns (out: seq<string>)
      requires CanStep(State(), Poll(server, rows, now))
      modifies this
      ensures State() == PollStep(old(State()), Poll(server, rows, now))
      ensures Ids(out) == Given(old(State()), Poll(server, rows, now)) && |out| <= MAX_TASKS
    {
      if !Enabled(servers[server]) { return []; }
      hide PollStep, Given, Ids, Enabled;
      ghost var was := State();
      out, jobs := TakeRows(servers[server], jobs, rows, now, was, Poll(server, rows, now));
    }

    /** Its loop over the rows. */
    static method TakeRows(sv: Server, table: map<string, Job>, rows: seq<string>, now: real,
                           ghost s: Sys, ghost a: Action)
      returns (out: seq<string>, jobs: map<string, Job>)
      requires a.Poll? && a.rows == rows && a.now == now && CanStep(s, a) && s.jobs == table
      requires s.servers[a.server] == sv && Enabled(sv)
      ensures PollStep(s, a) == s.(jobs := jobs) && Given(s, a) == Ids(out) && |out| <= MAX_TASKS
    {
      hide Enabled, Polled, Available, PollStep, Given, Ids, PollUpTo, CanStep, RowsOf;
      out, jobs := [], table;
      RowsAre(s, a);
      PollStarts(sv, table, rows, now);
      var i := 0;
      while i < |rows| && |out| < MAX_TASKS
        invariant 0 <= i <= |rows| && |out| <= MAX_TASKS && PollUpTo(sv, table, rows, i, now, out, jobs)
      {
        var id := rows[i];
        PollOne(sv, table, rows, i, now, out, jobs);
        var job, given := TakeRow(sv, jobs[id], now);
        jobs := jobs[id := job];
        if given { out := out + [id]; }
        i := i + 1;
      }
      PollEnds(s, a, i, out, jobs);
    }

    /** `apply_snapshot` on one record: check, compare blocks, copy the allowed fields one by one. */
    static method ApplySnapshot(sv: Server, job: Job, snap: Dict, versions: Option<Json>, show: Json -> string)
      returns (res: Option<Server>)
      ensures res == Merged(sv, job, snap, versions, show)
    {
      hide Scoped, ScopedAnswer, MergedExtras, MergedFields, MergedSoftware, FieldsOf;
      if !Admissible(job, snap, show) { return None; }
      var current, incoming := Scoped(sv.report, job.source), ScopedAnswer(snap, job.source);
      var extras := MergedExtras(sv.report.extras, snap, job.source);
      if incoming.None? || extras.None? { return None; }
      if job.baseline != Some(current) && current != incoming.value { return None; }
      var fields := CopyFields(sv.report.fields, snap, job.source);
      if job.source.Software? { return MergedSoftware(sv, job, snap, versions, fields); }
      return Some(sv.(report := Report(fields, extras.value)));
    }

    static method CopyFields(was: Dict, snap: Dict, src: Source) returns (fields: Dict)
      requires FieldsOf(src) <= snap.Keys
      ensures fields == MergedFields(was, snap, src)
    {
      hide FieldsOf, Overwrite;
      var todo, done: set<string> := FieldsOf(src) - {"extras"}, {};
      fields := was;
      OverwriteNone(was, snap);
      while todo != {}
        invariant todo !! done && todo + done == FieldsOf(src) - {"extras"}
        invariant fields == Overwrite(was, snap, done)
        decreases todo
      {
        var k :| k in todo;
        OverwriteNext(was, snap, done, k);
        fields, todo, done := fields[k := snap[k]], todo - {k}, done + {k};
      }
    }

    /** `ingest`: write the merged record, take it back if the answer proves nothing. */
    method Ingest(server: int, id: string, ok: bool, snap: Dict, versions: Option<Json>, left: Option<bool>,
                  now: real, show: Json -> string) returns (found: bool)
      requires server in servers
      modifies this
      ensures State() == AnswerStep(old(State()), Answer(server, id, ok, snap, versions, left, now), show)
      ensures found <==> id in old(jobs) && old(jobs)[id].server == server
    {
      hide Merged, IsHome, StorePackages;
      if id !in jobs || jobs[id].server != server { return false; }
      found := true;
      var sv, job := servers[server], Expire(jobs[id], now);
      if job.status.Checking? {
        if job.taken.None? || sv.settings != job.identity || !ok {
          job := Finish(job, Unavailable, now);
        } else {
          var kept, asked := sv, job;
          var merged := ApplySnapshot(sv, job, snap, versions, show);
          if merged.Some? { sv := merged.value; }
          if merged.None? || left.None? {
            sv := kept;
            job := Finish(job, Unavailable, now);
          } else {
            if left.value {
              job := Finish(job, Remains, now);
            } else {
              if !IsHome(job.kind) { sv := sv.(verified := sv.verified[job.kind := now]); }
              job := Finish(job, Fixed, now);
            }
            var stored := StorePackages(sv, asked, snap);
            if stored.None? { return; }
            sv := stored.value;
          }
        }
      }
      servers, jobs := servers[server := sv], jobs[id := job];
    }
  }
}
