/** Careful access to domain registries (`_domain_days_cached` and its neighbours in
    backend/app/checks.py): a cache checked twice around a lock, and a pause between requests. Any
    number of callers run interleaved; between two waiting points each runs alone. */
module RegistryGate {
  import opened Basics

  const TTL_OK := 21600.0
  const TTL_ERR := 900.0
  const TTL_HOT := 1800.0
  const HOT_DAYS := 7
  const GAP := 1.1

  /** A cached answer: days left (None if the registry gave none) and when it arrived. */
  datatype Cached = Cached(days: Option<int>, at: real)

  function Lifetime(days: Option<int>): real {
    if days.None? then TTL_ERR else if days.value <= HOT_DAYS then TTL_HOT else TTL_OK
  }

  /** `_domain_cache_get`: a hit that has not outlived itself. */
  predicate Hit(cache: map<string, Cached>, domain: string, now: real) {
    domain in cache && now - cache[domain].at < Lifetime(cache[domain].days)
  }

  /** The host is the domain or lies below it. */
  predicate Under(host: string, domain: string) {
    host == domain || (|host| > |domain| && host[|host| - |domain| - 1..] == "." + domain)
  }

  function Forgotten(cache: map<string, Cached>, host: string): map<string, Cached> {
    map d | d in cache && !Under(host, d) :: cache[d]
  }

  /** `forget_domain`: drop every entry the host belongs to. */
  method ForgetDomain(cache: map<string, Cached>, host: string) returns (left: map<string, Cached>)
    ensures left == Forgotten(cache, host)
  {
    hide Under;
    left := cache;
    var todo := cache.Keys;
    while todo != {}
      invariant todo <= cache.Keys
      invariant left == map d | d in cache && (d in todo || !Under(host, d)) :: cache[d]
      decreases todo
    {
      var d :| d in todo;
      if Under(host, d) { left := left - {d}; }
      todo := todo - {d};
    }
  }

  /** Exactly when the cache answers: a quarter of an hour for a failure, half an hour for a domain with at
      most seven days left, six hours for any other. */
  lemma HitExactlyWhen(cache: map<string, Cached>, domain: string, now: real)
    ensures Hit(cache, domain, now) <==>
      && domain in cache
      && now - cache[domain].at < (if cache[domain].days.None? then 900.0
                                   else if cache[domain].days.value <= 7 then 1800.0 else 21600.0)
  {
  }

  /** Exactly which entries are forgotten: that of the host itself and those of domains it lies below. */
  lemma ForgottenExactlyWhen(cache: map<string, Cached>, host: string, d: string)
    ensures d in Forgotten(cache, host) <==> d in cache && host != d && !exists sub :: host == sub + "." + d
    ensures d in Forgotten(cache, host) ==> Forgotten(cache, host)[d] == cache[d]
  {
    if sub :| host == sub + "." + d { assert host[|host| - |d| - 1..] == "." + d; }
    if |host| > |d| && host[|host| - |d| - 1..] == "." + d {
      assert host == host[..|host| - |d| - 1] + "." + d;
    }
  }

  // ---------------------------------------------------------------- the callers

  /** Where a caller is: outside, waiting for the lock, holding it before the second look into the
      cache, pausing, or asking the registry. */
  datatype Pc =
    | Out
    | Waiting(domain: string) | Holding(domain: string) | Pausing(domain: string, until: real) | Asking(domain: string)

  predicate Locked(pc: Pc) { pc.Holding? || pc.Pausing? || pc.Asking? }

  /** A request ever started: when it ended (None while it runs), the answer if it ended normally,
      and whether the domain was forgotten after that answer. */
  datatype Request = Request(
    domain: string, start: real, end: Option<real>, answer: Option<Option<int>>, forgotten: bool)

  datatype State = State(
    now: real, cache: map<string, Cached>, lastAt: real, owner: Option<nat>, pcs: map<nat, Pc>, log: seq<Request>)

  datatype Action =
    | Pass(seconds: real)
    | Call(task: nat, domain: string)
    | Acquire(task: nat)
    | Recheck(task: nat)
    | Wake(task: nat)
    | Answer(task: nat, days: Option<int>)
    | Abort(task: nat)
    | Forget(host: string)

  function At(s: State, task: nat): Pc { if task in s.pcs then s.pcs[task] else Out }

  ghost predicate CanStep(s: State, a: Action) {
    match a
    case Pass(seconds) => seconds >= 0.0
    case Call(task, _) => At(s, task).Out?
    case Acquire(task) => At(s, task).Waiting? && s.owner.None?
    case Recheck(task) => At(s, task).Holding?
    case Wake(task) => At(s, task).Pausing? && s.now >= At(s, task).until
    case Answer(task, _) => At(s, task).Asking?
    case Abort(task) => At(s, task).Waiting? || At(s, task).Pausing? || At(s, task).Asking?
    case Forget(_) => true
  }

  function Go(s: State, task: nat, pc: Pc): State { s.(pcs := s.pcs[task := pc]) }

  /** The request begins. */
  function Start(s: State, task: nat, domain: string): State {
    Go(s, task, Asking(domain)).(log := s.log + [Request(domain, s.now, None, None, false)])
  }

  /** The running request, which is the last one started, ends. */
  function Finish(log: seq<Request>, now: real, answer: Option<Option<int>>): seq<Request> {
    if log == [] then log else log[|log| - 1 := log[|log| - 1].(end := Some(now), answer := answer)]
  }

  /** Forgetting concerns answers, not a request still under way. */
  function Mark(r: Request, host: string): Request {
    if r.end.Some? && Under(host, r.domain) then r.(forgotten := true) else r
  }

  function MarkAll(log: seq<Request>, host: string): (r: seq<Request>)
    ensures |r| == |log| && forall i :: 0 <= i < |log| ==> r[i] == Mark(log[i], host)
  {
    seq(|log|, i requires 0 <= i < |log| => Mark(log[i], host))
  }

  ghost function Step(s: State, a: Action): State
    requires CanStep(s, a)
  {
    match a
    case Pass(seconds) => s.(now := s.now + seconds)
    case Call(task, domain) => if Hit(s.cache, domain, s.now) then s else Go(s, task, Waiting(domain))
    case Acquire(task) => Go(s, task, Holding(At(s, task).domain)).(owner := Some(task))
    case Recheck(task) =>
      var domain := At(s, task).domain;
      if Hit(s.cache, domain, s.now) then Go(s, task, Out).(owner := None)
      else
        var wait := GAP - (s.now - s.lastAt);
        if wait > 0.0 then Go(s, task, Pausing(domain, s.now + wait)) else Start(s, task, domain)
    case Wake(task) => Start(s, task, At(s, task).domain)
    case Answer(task, days) =>
      var domain := At(s, task).domain;
      Go(s, task, Out).(owner := None, lastAt := s.now, cache := s.cache[domain := Cached(days, s.now)],
                        log := Finish(s.log, s.now, Some(days)))
    case Abort(task) =>
      var out := Go(s, task, Out);
      if At(s, task).Asking? then out.(owner := None, log := Finish(s.log, s.now, None))
      else if Locked(At(s, task)) then out.(owner := None)
      else out
    case Forget(host) => s.(cache := Forgotten(s.cache, host), log := MarkAll(s.log, host))
  }

  // ---------------------------------------------------------------- the invariant

  predicate Answered(r: Request) { r.end.Some? && r.answer.Some? }

  /** The answer of a request is still in the cache, or was replaced after its lifetime. */
  predicate Covered(cache: map<string, Cached>, r: Request)
    requires Answered(r)
  {
    && r.domain in cache && cache[r.domain].at >= r.end.value
    && (cache[r.domain] == Cached(r.answer.value, r.end.value)
        || cache[r.domain].at >= r.end.value + Lifetime(r.answer.value))
  }

  /** The lock belongs to exactly the caller past it; only it can be asking. */
  ghost predicate OneOwner(s: State) {
    && (forall t :: t in s.pcs && Locked(s.pcs[t]) ==> s.owner == Some(t))
    && (s.owner.Some? ==> Locked(At(s, s.owner.value)))
  }

  /** Requests lie one after another in time, none after `now`, and only the last may be running. */
  ghost predicate OneByOne(log: seq<Request>, now: real) {
    && (forall i :: 0 <= i < |log| ==> log[i].start <= now)
    && (forall i :: 0 <= i < |log| && log[i].end.Some? ==> log[i].start <= log[i].end.value <= now)
    && (forall i, j :: 0 <= i < j < |log| ==> log[i].end.Some? && log[i].end.value <= log[j].start)
  }

  /** A request is running. */
  predicate Busy(log: seq<Request>) { log != [] && log[|log| - 1].end.None? }

  /** What the lock's owner is doing, as far as requests go. */
  function Doing(s: State): Pc { if s.owner.Some? then At(s, s.owner.value) else Out }

  /** Requests never overlap, and one is running exactly when the lock's owner is asking. */
  ghost predicate Serial(s: State) {
    && OneByOne(s.log, s.now)
    && (Doing(s).Asking? <==> Busy(s.log))
    && (Busy(s.log) ==> s.log[|s.log| - 1].domain == Doing(s).domain)
  }

  /** Normally completed requests ended by `lastAt`. */
  ghost predicate Gapped(s: State) {
    && (forall i :: 0 <= i < |s.log| && Answered(s.log[i]) ==> s.log[i].end.value <= s.lastAt)
    && (Doing(s).Pausing? ==> Doing(s).until >= s.lastAt + GAP)
  }

  /** Unforgotten answers are covered by the cache; a caller that goes past the second look has
      waited out every answer of its domain. */
  ghost predicate Fresh(s: State) {
    && (forall d :: d in s.cache ==> s.cache[d].at <= s.now)
    && (forall i :: 0 <= i < |s.log| && Answered(s.log[i]) && !s.log[i].forgotten ==> Covered(s.cache, s.log[i]))
    && (Doing(s).Pausing? || Doing(s).Asking? ==> Outlived(s, Doing(s).domain))
  }

  ghost predicate Outlived(s: State, domain: string) {
    forall i :: 0 <= i < |s.log| && Answered(s.log[i]) && !s.log[i].forgotten && s.log[i].domain == domain ==>
      s.now >= s.log[i].end.value + Lifetime(s.log[i].answer.value)
  }

  /** A request may start now: the gap since every completed one has passed, and so has the lifetime
      of every unforgotten answer of the same domain. */
  ghost predicate MayStart(log: seq<Request>, domain: string, at: real) {
    forall i :: 0 <= i < |log| && Answered(log[i]) ==>
      && at >= log[i].end.value + GAP
      && (log[i].domain == domain && !log[i].forgotten ==> at >= log[i].end.value + Lifetime(log[i].answer.value))
  }

  /** Every request started when it might. */
  ghost predicate Spaced(log: seq<Request>) {
    forall j {:trigger log[j]} :: 0 <= j < |log| ==> MayStart(log[..j], log[j].domain, log[j].start)
  }

  ghost predicate Inv(s: State) { OneOwner(s) && Serial(s) && Gapped(s) && Fresh(s) && Spaced(s.log) }

  /** A miss means that every unforgotten answer of the domain has outlived itself. */
  lemma MissMeansOutlived(s: State, domain: string)
    requires Fresh(s) && !Hit(s.cache, domain, s.now)
    ensures Outlived(s, domain)
  {
    forall i | 0 <= i < |s.log| && Answered(s.log[i]) && !s.log[i].forgotten && s.log[i].domain == domain
      ensures s.now >= s.log[i].end.value + Lifetime(s.log[i].answer.value)
    {
      assert Covered(s.cache, s.log[i]);
    }
  }

  lemma StepKeepsOwner(s: State, a: Action)
    requires CanStep(s, a) && OneOwner(s)
    ensures OneOwner(Step(s, a))
  {
  }

  lemma StartsOneByOne(log: seq<Request>, now: real, domain: string)
    requires OneByOne(log, now) && !Busy(log)
    ensures OneByOne(log + [Request(domain, now, None, None, false)], now)
  {
  }

  lemma FinishesOneByOne(log: seq<Request>, now: real, answer: Option<Option<int>>)
    requires OneByOne(log, now) && Busy(log)
    ensures OneByOne(Finish(log, now, answer), now) && !Busy(Finish(log, now, answer))
  {
  }

  lemma SameTimes(log: seq<Request>, r: seq<Request>, now: real)
    requires OneByOne(log, now) && |r| == |log|
    requires forall i :: 0 <= i < |log| ==> r[i].start == log[i].start && r[i].end == log[i].end
    ensures OneByOne(r, now) && Busy(r) == Busy(log)
  {
    forall i | 0 <= i < |r|
      ensures r[i].start <= now && (r[i].end.Some? ==> r[i].start <= r[i].end.value <= now)
    {
      assert log[i].start <= now && log[i].end == r[i].end;
    }
    forall i, j | 0 <= i < j < |r| ensures r[i].end.Some? && r[i].end.value <= r[j].start {
      assert log[j].start == r[j].start && log[i].end == r[i].end;
    }
    assert r != [] ==> r[|r| - 1].end == log[|r| - 1].end;
  }

  lemma MarksOneByOne(log: seq<Request>, now: real, host: string)
    requires OneByOne(log, now)
    ensures OneByOne(MarkAll(log, host), now) && Busy(MarkAll(log, host)) == Busy(log)
    ensures Busy(log) ==> MarkAll(log, host)[|log| - 1].domain == log[|log| - 1].domain
  {
    var r := MarkAll(log, host);
    SameTimes(log, r, now) by {
      hide Under;
    }
  }

  lemma LaterOneByOne(log: seq<Request>, now: real, later: real)
    requires OneByOne(log, now) && now <= later
    ensures OneByOne(log, later)
  {
  }

  /** Requests never overlap, and only the owner of the lock asks. */
  lemma StepKeepsSerial(s: State, a: Action)
    requires CanStep(s, a) && OneOwner(s) && Serial(s)
    ensures Serial(Step(s, a))
  {
    hide Hit, Under, OneByOne, MarkAll;
    match a {
      case Pass(seconds) => LaterOneByOne(s.log, s.now, s.now + seconds);
      case Recheck(task) => if !Busy(s.log) { StartsOneByOne(s.log, s.now, At(s, task).domain); }
      case Wake(task) => StartsOneByOne(s.log, s.now, At(s, task).domain);
      case Answer(task, days) => FinishesOneByOne(s.log, s.now, Some(days));
      case Abort(task) => if At(s, task).Asking? { FinishesOneByOne(s.log, s.now, None); }
      case Forget(host) => MarksOneByOne(s.log, s.now, host);
      case _ =>
    }
  }

  lemma StepKeepsGapped(s: State, a: Action)
    requires CanStep(s, a) && OneOwner(s) && Serial(s) && Gapped(s)
    ensures Gapped(Step(s, a))
  {
    hide Hit, Under;
  }

  lemma AnswerKeepsFresh(s: State, task: nat, days: Option<int>)
    requires CanStep(s, Answer(task, days)) && Inv(s)
    ensures Fresh(Step(s, Answer(task, days)))
  {
    hide Spaced, Lifetime, Gapped;
    var after := Step(s, Answer(task, days));
    assert s.owner == Some(task) && Outlived(s, At(s, task).domain);
    forall i | 0 <= i < |after.log| && Answered(after.log[i]) && !after.log[i].forgotten
      ensures Covered(after.cache, after.log[i])
    {
      if i < |s.log| - 1 { assert after.log[i] == s.log[i] && Covered(s.cache, s.log[i]); }
    }
  }

  lemma ForgetKeepsFresh(s: State, host: string)
    requires Fresh(s)
    ensures Fresh(Step(s, Forget(host)))
  {
    hide Under, Lifetime;
    var after := Step(s, Forget(host));
    forall i | 0 <= i < |after.log| && Answered(after.log[i]) && !after.log[i].forgotten
      ensures Covered(after.cache, after.log[i])
    {
      assert after.log[i] == Mark(s.log[i], host) && Covered(s.cache, s.log[i]);
    }
    forall d | Outlived(s, d) ensures Outlived(after, d) {
      forall i | 0 <= i < |after.log| && Answered(after.log[i]) && !after.log[i].forgotten && after.log[i].domain == d
        ensures after.now >= after.log[i].end.value + Lifetime(after.log[i].answer.value)
      {
        assert after.log[i] == Mark(s.log[i], host);
      }
    }
  }

  /** The cache keeps covering every unforgotten answer, and a caller past the second look has
      outwaited them. */
  lemma StepKeepsFresh(s: State, a: Action)
    requires CanStep(s, a) && Inv(s)
    ensures Fresh(Step(s, a))
  {
    hide Hit, Spaced, Under, Lifetime, Gapped, OneByOne, MarkAll, Covered;
    match a {
      case Recheck(task) =>
        if !Hit(s.cache, At(s, task).domain, s.now) { MissMeansOutlived(s, At(s, task).domain); }
      case Answer(task, days) => AnswerKeepsFresh(s, task, days);
      case Forget(host) => ForgetKeepsFresh(s, host);
      case _ =>
    }
  }

  lemma StartsSpaced(log: seq<Request>, r: Request)
    requires Spaced(log) && MayStart(log, r.domain, r.start)
    ensures Spaced(log + [r])
  {
    forall j | 0 <= j < |log + [r]| ensures MayStart((log + [r])[..j], (log + [r])[j].domain, (log + [r])[j].start) {
      assert (log + [r])[..j] == log[..j];
      assert j == |log| ==> log[..j] == log;
      assert j < |log| ==> log[j] == (log + [r])[j];
    }
  }

  lemma FinishesSpaced(log: seq<Request>, now: real, answer: Option<Option<int>>)
    requires Spaced(log)
    ensures Spaced(Finish(log, now, answer))
  {
    var r := Finish(log, now, answer);
    forall j | 0 <= j < |r| ensures MayStart(r[..j], r[j].domain, r[j].start) {
      assert r[..j] == log[..j] && MayStart(log[..j], log[j].domain, log[j].start);
    }
  }

  lemma MarksSpaced(log: seq<Request>, host: string)
    requires Spaced(log)
    ensures Spaced(MarkAll(log, host))
  {
    hide Under, Lifetime;
    var r := MarkAll(log, host);
    forall j | 0 <= j < |r| ensures MayStart(r[..j], r[j].domain, r[j].start) {
      assert r[j] == Mark(log[j], host) && MayStart(log[..j], log[j].domain, log[j].start);
      forall i | 0 <= i < j && Answered(r[i])
        ensures r[j].start >= r[i].end.value + GAP
        ensures r[i].domain == r[j].domain && !r[i].forgotten ==>
          r[j].start >= r[i].end.value + Lifetime(r[i].answer.value)
      {
        assert r[i] == Mark(log[i], host) && log[..j][i] == log[i];
      }
    }
  }

  /** Past the second look and the pause, a request may start. */
  lemma OwnerMayStart(s: State, domain: string)
    requires Gapped(s) && s.now >= s.lastAt + GAP && Outlived(s, domain)
    ensures MayStart(s.log, domain, s.now)
  {
  }

  lemma StepKeepsSpaced(s: State, a: Action)
    requires CanStep(s, a) && Inv(s)
    ensures Spaced(Step(s, a).log)
  {
    hide Hit, Spaced, OneByOne, MayStart, Outlived, Covered, Mark;
    match a {
      case Recheck(task) =>
        var domain := At(s, task).domain;
        if !Hit(s.cache, domain, s.now) && s.now >= s.lastAt + GAP {
          MissMeansOutlived(s, domain);
          OwnerMayStart(s, domain);
          StartsSpaced(s.log, Request(domain, s.now, None, None, false));
        }
      case Wake(task) =>
        OwnerMayStart(s, At(s, task).domain);
        StartsSpaced(s.log, Request(At(s, task).domain, s.now, None, None, false));
      case Answer(task, days) => FinishesSpaced(s.log, s.now, Some(days));
      case Abort(task) => FinishesSpaced(s.log, s.now, None);
      case Forget(host) => MarksSpaced(s.log, host);
      case _ =>
    }
  }

  // ---------------------------------------------------------------- whole runs

  ghost predicate Init(s: State) {
    s.now >= 0.0 && s.cache == map[] && s.lastAt == 0.0 && s.owner.None? && s.pcs == map[] && s.log == []
  }

  /** `run[0]` is a fresh process and every state follows from the one before it. */
  ghost predicate IsRun(run: seq<State>, acts: seq<Action>) {
    && |run| == |acts| + 1 && Init(run[0])
    && forall i :: 0 <= i < |acts| ==> CanStep(run[i], acts[i]) && run[i + 1] == Step(run[i], acts[i])
  }

  lemma StartIsFine(s: State)
    requires Init(s)
    ensures Inv(s)
  {
  }

  lemma {:induction false} RunKeepsInv(run: seq<State>, acts: seq<Action>, n: nat)
    requires IsRun(run, acts) && n < |run|
    ensures Inv(run[n])
    decreases n
  {
    hide OneOwner, Serial, Gapped, Fresh, Spaced, CanStep, Step;
    if n == 0 {
      StartIsFine(run[0]);
    } else {
      RunKeepsInv(run, acts, n - 1);
      StepKeepsOwner(run[n - 1], acts[n - 1]);
      StepKeepsSerial(run[n - 1], acts[n - 1]);
      StepKeepsGapped(run[n - 1], acts[n - 1]);
      StepKeepsFresh(run[n - 1], acts[n - 1]);
      StepKeepsSpaced(run[n - 1], acts[n - 1]);
    }
  }

  /** At every moment of every run at most one caller is asking a registry, and no two requests ever
      made overlap. */
  lemma RequestsNeverOverlap(run: seq<State>, acts: seq<Action>, n: nat)
    requires IsRun(run, acts) && n < |run|
    ensures forall t, u :: At(run[n], t).Asking? && At(run[n], u).Asking? ==> t == u
    ensures forall i, j :: 0 <= i < j < |run[n].log| ==>
              run[n].log[i].end.Some? && run[n].log[i].end.value <= run[n].log[j].start
    ensures forall i :: 0 <= i < |run[n].log| && run[n].log[i].end.None? ==> i == |run[n].log| - 1
  {
    hide IsRun;
    RunKeepsInv(run, acts, n);
    var log := run[n].log;
    forall i | 0 <= i < |log| && log[i].end.None? ensures i == |log| - 1 {
      assert log[|log| - 1].start <= run[n].now;
    }
  }

  /** In every run a request starts at least 1.1 s after every normally completed one ended, and a
      second request for a domain not forgotten meanwhile only after the answer's lifetime. */
  lemma RequestsAreSpaced(run: seq<State>, acts: seq<Action>, n: nat, i: nat, j: nat)
    requires IsRun(run, acts) && n < |run| && i < j < |run[n].log| && Answered(run[n].log[i])
    ensures run[n].log[j].start >= run[n].log[i].end.value + 1.1
    ensures run[n].log[i].domain == run[n].log[j].domain && !run[n].log[i].forgotten ==>
              var days := run[n].log[i].answer.value;
              run[n].log[j].start - run[n].log[i].end.value
                >= if days.None? then 900.0 else if days.value <= 7 then 1800.0 else 21600.0
  {
    hide IsRun;
    RunKeepsInv(run, acts, n);
    var log := run[n].log;
    assert MayStart(log[..j], log[j].domain, log[j].start);
    assert log[..j][i] == log[i];
  }

  /** What a caller meets: an answer at once if the cache has one, else the queue; behind the lock again an
      answer if the cache has one by now, else a pause that ends exactly 1.1 s after the last completed
      request, or no pause if that has passed. */
  lemma CallerMeets(s: State, a: Action)
    requires CanStep(s, a)
    ensures a.Call? ==>
      Step(s, a) == if Hit(s.cache, a.domain, s.now) then s else s.(pcs := s.pcs[a.task := Waiting(a.domain)])
    ensures a.Recheck? ==>
      var domain, after := At(s, a.task).domain, Step(s, a);
      if Hit(s.cache, domain, s.now) then At(after, a.task) == Out && after.owner == None && after.log == s.log
      else if s.now - s.lastAt < 1.1 then At(after, a.task) == Pausing(domain, s.lastAt + 1.1) && after.log == s.log
      else At(after, a.task) == Asking(domain) && |after.log| == |s.log| + 1
    ensures a.Wake? ==>
      var domain, after := At(s, a.task).domain, Step(s, a);
      At(after, a.task) == Asking(domain) && |after.log| == |s.log| + 1 && after.log[|s.log|].domain == domain
  {
    hide Hit;
  }

  /** What an answer leaves: it is cached as given, serves until its lifetime is over, and changes no other
      entry; the lock is free and the clock of the gap starts anew. */
  lemma AnswerServes(s: State, task: nat, days: Option<int>, later: real)
    requires CanStep(s, Answer(task, days)) && later >= s.now
    ensures var domain, after := At(s, task).domain, Step(s, Answer(task, days));
      && after.cache == s.cache[domain := Cached(days, s.now)] && after.lastAt == s.now && after.owner == None
      && (Hit(after.cache, domain, later) <==>
            later - s.now < (if days.None? then 900.0 else if days.value <= 7 then 1800.0 else 21600.0))
  {
  }

  /** The log is honest: a step adds at most one request, started at that very moment, and what an
      answered request says changes only by being forgotten. */
  lemma LogIsHonest(s: State, a: Action)
    requires CanStep(s, a) && Inv(s)
    ensures var after := Step(s, a).log;
            && |s.log| <= |after| <= |s.log| + 1
            && (forall i :: 0 <= i < |s.log| ==>
                  after[i].domain == s.log[i].domain && after[i].start == s.log[i].start)
            && (forall i :: 0 <= i < |s.log| && s.log[i].end.Some? ==>
                  && after[i].end == s.log[i].end && after[i].answer == s.log[i].answer
                  && (after[i].forgotten <==> s.log[i].forgotten || (a.Forget? && Under(a.host, s.log[i].domain))))
            && (|after| > |s.log| ==> after[|s.log|].start == s.now && after[|s.log|].end.None?)
  {
    hide Hit, Fresh, Gapped, Spaced, Under;
  }
}
