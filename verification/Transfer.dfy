/** Sustained loss of receiving throughput (backend/app/backup_transfer.py): `observe` keeps a dozen
    fields per workload. They are shown to be exact summaries of the whole history of accepted
    samples. */
module Transfer {
  import opened Basics

  const MIB := 1048576.0
  const BASE_MIN := 8.0 * MIB
  const STALL_RATE := MIB / 8.0
  const BASE_SECONDS := 600.0
  const SLOW_SECONDS := 1800.0
  const STALL_SECONDS := 3600.0
  const MAX_GAP := 180.0

  datatype Problem = NoProblem | Slow | Stalled

  /** The stored sample; `rate` and `since` exist while there is a problem. */
  datatype Sample = Sample(
    work: string, clock: real, base: real, baseAt: real, ready: bool, slowAt: Option<real>, stallAt: Option<real>,
    problem: Problem, since: Option<real>, rate: Option<real>)

  /** An accepted sample of a running workload, or an observed idle moment. */
  datatype Event = Idle | Point(clock: real, rx: real, write: real, work: string, restart: bool)

  function Low(e: Event): (r: real)
    requires e.Point?
    ensures r <= e.rx && r <= e.write && r in {e.rx, e.write}
  {
    if e.rx < e.write then e.rx else e.write
  }

  function High(e: Event): (r: real)
    requires e.Point?
    ensures r >= e.rx && r >= e.write && r in {e.rx, e.write}
  {
    if e.rx < e.write then e.write else e.rx
  }

  predicate IsMirror(work: string) { |work| >= 7 && work[..7] == "mirror:" }

  function Min(a: real, b: real): real { if a < b then a else b }
  function Max(a: real, b: real): real { if a < b then b else a }

  // ---------------------------------------------------------------- one sample

  /** The earlier sample counts only for the same workload. */
  function SameWork(prev: Option<Sample>, work: string): Option<Sample> {
    if prev.Some? && prev.value.work == work then prev else None
  }

  predicate Contiguous(p: Option<Sample>, e: Event)
    requires e.Point?
  {
    p.Some? && 0.0 < e.clock - p.value.clock <= MAX_GAP && !e.restart
  }

  /** Learning the reference: restart on a gap, a weak reference or a sample below half of it. */
  predicate Relearns(p: Option<Sample>, e: Event)
    requires e.Point?
  {
    !Contiguous(p, e) || p.value.base < BASE_MIN || Low(e) < Max(BASE_MIN, p.value.base / 2.0)
  }

  /** base, baseAt and ready after the sample. */
  function Learn(p: Option<Sample>, e: Event): (real, real, bool)
    requires e.Point?
  {
    if p.Some? && p.value.ready then (p.value.base, p.value.baseAt, true)
    else if Relearns(p, e) then (Low(e), e.clock, false)
    else (Min(p.value.base, Low(e)), p.value.baseAt, e.clock - p.value.baseAt >= BASE_SECONDS)
  }

  predicate SlowNow(base: real, ready: bool, e: Event)
    requires e.Point?
  {
    ready && High(e) < base / 4.0
  }

  predicate StalledNow(ready: bool, e: Event)
    requires e.Point?
  {
    (ready || IsMirror(e.work)) && High(e) < STALL_RATE
  }

  predicate Recovered(base: real, ready: bool, e: Event)
    requires e.Point?
  {
    High(e) >= if ready then base / 2.0 else STALL_RATE
  }

  /** How long a run of bad samples has lasted. */
  predicate Lasted(at: Option<real>, clock: real, seconds: real) { at.Some? && clock - at.value >= seconds }

  function NewSample(p: Option<Sample>, e: Event): Sample
    requires e.Point?
  {
    var (base, baseAt, ready) := Learn(p, e);
    var slow, stalled := SlowNow(base, ready, e), StalledNow(ready, e);
    var chain := Contiguous(p, e);
    var slowAt := if !slow then None else if chain && p.value.slowAt.Some? then p.value.slowAt else Some(e.clock);
    var stallAt := if !stalled then None else if chain && p.value.stallAt.Some? then p.value.stallAt else Some(e.clock);
    var was := if p.Some? then p.value.problem else NoProblem;
    var problem := if Lasted(stallAt, e.clock, STALL_SECONDS) then Stalled
                   else if Lasted(slowAt, e.clock, SLOW_SECONDS) && !stalled then Slow
                   else if Recovered(base, ready, e) then NoProblem
                   else was;
    var since := if problem.NoProblem? then None
                 else if p.Some? && p.value.since.Some? then p.value.since
                 else if slowAt.Some? then slowAt else stallAt;
    Sample(e.work, e.clock, base, baseAt, ready, slowAt, stallAt, problem, since,
           if problem.NoProblem? then None else Some(High(e)))
  }

  function Next(prev: Option<Sample>, e: Event): Option<Sample> {
    match e
    case Idle => None
    case Point(_, _, _, work, _) => Some(NewSample(SameWork(prev, work), e))
  }

  /** A report: unusable numbers, or rates with the workload the helper confirms (None if it cannot,
      the empty string if it saw none). */
  datatype Reading = Unusable | Reading(clock: real, rx: real, write: real, work: Option<string>)

  /** `observe`, field by field. A report without usable numbers, from more than three minutes ahead, or
      whose workload cannot be confirmed changes nothing. No workload ends the history. A sample not newer
      than the last one of its workload changes nothing either, unless the agent restarted. Any other
      sample advances the summary. */
  method Observe(prev: Option<Sample>, r: Reading, now: real, restart: bool)
    returns (state: Option<Sample>, complete: bool)
    requires r.Reading? ==> r.clock > 0.0
    ensures r.Unusable? || r.clock > now + 180.0 || r.work.None? ==> state == prev && !complete
    ensures r.Reading? && r.clock <= now + 180.0 && r.work == Some("") ==> state == None && complete
    ensures r.Reading? && r.clock <= now + 180.0 && r.work.Some? && r.work.value != "" ==>
      var work := r.work.value;
      if prev.Some? && prev.value.work == work && r.clock <= prev.value.clock && !restart
      then state == prev && (complete <==> r.clock == prev.value.clock)
      else complete && state == Next(prev, Point(r.clock, r.rx, r.write, work, restart))
  {
    if r.Unusable? || r.clock > now + MAX_GAP { return prev, false; }
    if r.work.None? { return prev, false; }
    var work := r.work.value;
    if work == "" { return None, true; }
    var low, high := Min(r.rx, r.write), Max(r.rx, r.write);
    var p := if prev.Some? && prev.value.work == work then prev else None;
    var gap := r.clock - (if p.Some? then p.value.clock else 0.0);
    if gap <= 0.0 && !restart { return p, gap == 0.0; }
    var chain := p.Some? && 0.0 < gap <= MAX_GAP && !restart;
    ghost var e := Point(r.clock, r.rx, r.write, work, restart);
    var base, baseAt, ready := LearnBase(p, chain, low, r.clock, e);
    var slow := ready && high < base / 4.0;
    var stalled := (ready || IsMirror(work)) && high < STALL_RATE;
    var slowAt, stallAt := None, None;
    if chain { slowAt, stallAt := p.value.slowAt, p.value.stallAt; }
    slowAt := if slow then (if slowAt.Some? then slowAt else Some(r.clock)) else None;
    stallAt := if stalled then (if stallAt.Some? then stallAt else Some(r.clock)) else None;
    var problem, since, rate := NoProblem, None, None;
    if p.Some? { problem, since := p.value.problem, p.value.since; }
    if Lasted(stallAt, r.clock, STALL_SECONDS) {
      problem := Stalled;
    } else if Lasted(slowAt, r.clock, SLOW_SECONDS) && !stalled {
      problem := Slow;
    } else if high >= (if ready then base / 2.0 else STALL_RATE) {
      problem := NoProblem;
    }
    hide Learn, Lasted;
    if problem.NoProblem? {
      since := None;
    } else {
      rate := Some(high);
      if since.None? { since := if slowAt.Some? then slowAt else stallAt; }
    }
    state := Some(Sample(work, r.clock, base, baseAt, ready, slowAt, stallAt, problem, since, rate));
    complete := true;
  }

  method LearnBase(p: Option<Sample>, chain: bool, low: real, clock: real, ghost e: Event)
    returns (base: real, baseAt: real, ready: bool)
    requires e.Point? && low == Low(e) && clock == e.clock && chain == Contiguous(p, e)
    ensures (base, baseAt, ready) == Learn(p, e)
  {
    base, baseAt, ready := 0.0, 0.0, false;
    if p.Some? { base, baseAt, ready := p.value.base, p.value.baseAt, p.value.ready; }
    if !ready {
      if !chain || base < BASE_MIN || low < Max(BASE_MIN, base / 2.0) {
        base, baseAt := low, clock;
      } else {
        base, ready := Min(base, low), clock - baseAt >= BASE_SECONDS;
      }
    }
  }

  // ---------------------------------------------------------------- histories

  /** The summary after the first `n` events. */
  function After(t: seq<Event>, n: nat): Option<Sample>
    requires n <= |t|
  {
    if n == 0 then None else Next(After(t, n - 1), t[n - 1])
  }

  /** Two neighbouring samples of one unbroken chain. */
  predicate Linked(t: seq<Event>, i: nat)
    requires i < |t|
  {
    && i > 0 && t[i].Point? && t[i - 1].Point? && t[i].work == t[i - 1].work && !t[i].restart
    && 0.0 < t[i].clock - t[i - 1].clock <= 180.0
  }

  predicate Chain(t: seq<Event>, first: nat, last: nat)
    requires first <= last < |t|
  {
    forall i :: first <= i <= last ==> t[i].Point? && (i > first ==> Linked(t, i))
  }

  /** The same workload all the way, though possibly with gaps and restarts. */
  predicate OneWork(t: seq<Event>, first: nat, last: nat)
    requires first <= last < |t|
  {
    t[first].Point? && forall i :: first <= i <= last ==> t[i].Point? && t[i].work == t[first].work
  }

  predicate SlowAt(t: seq<Event>, i: nat)
    requires i < |t|
  {
    t[i].Point? && SlowNow(After(t, i + 1).value.base, After(t, i + 1).value.ready, t[i])
  }

  predicate StalledAt(t: seq<Event>, i: nat)
    requires i < |t|
  {
    t[i].Point? && StalledNow(After(t, i + 1).value.ready, t[i])
  }

  /** Where the unbroken chain of slow (stalled) samples that ends at `i` begins. */
  function SlowFrom(t: seq<Event>, i: nat): (k: nat)
    requires i < |t| && SlowAt(t, i)
    ensures k <= i && t[k].Point?
  {
    if Linked(t, i) && SlowAt(t, i - 1) then SlowFrom(t, i - 1) else i
  }

  function StalledFrom(t: seq<Event>, i: nat): (k: nat)
    requires i < |t| && StalledAt(t, i)
    ensures k <= i && t[k].Point?
  {
    if Linked(t, i) && StalledAt(t, i - 1) then StalledFrom(t, i - 1) else i
  }

  lemma {:induction false} SlowFromIsChain(t: seq<Event>, i: nat)
    requires i < |t| && SlowAt(t, i)
    ensures var k := SlowFrom(t, i);
      Chain(t, k, i) && (forall j :: k <= j <= i ==> SlowAt(t, j)) && !(Linked(t, k) && SlowAt(t, k - 1))
  {
    hide After, SlowNow;
    if Linked(t, i) && SlowAt(t, i - 1) { SlowFromIsChain(t, i - 1); }
  }

  lemma {:induction false} StalledFromIsChain(t: seq<Event>, i: nat)
    requires i < |t| && StalledAt(t, i)
    ensures var k := StalledFrom(t, i);
      Chain(t, k, i) && (forall j :: k <= j <= i ==> StalledAt(t, j)) && !(Linked(t, k) && StalledAt(t, k - 1))
  {
    hide After, StalledNow;
    if Linked(t, i) && StalledAt(t, i - 1) { StalledFromIsChain(t, i - 1); }
  }

  // ---------------------------------------------------------------- the summary is exact

  /** Work and clock are those of the last event; chains in the history are contiguity in the fields. */
  lemma LastFields(t: seq<Event>, i: nat)
    requires i < |t| && t[i].Point?
    ensures var p := SameWork(After(t, i), t[i].work);
      && After(t, i + 1) == Some(NewSample(p, t[i])) && After(t, i + 1).value.work == t[i].work
      && After(t, i + 1).value.clock == t[i].clock
      && (Contiguous(p, t[i]) <==> Linked(t, i))
      && (p.Some? <==> i > 0 && t[i - 1].Point? && t[i - 1].work == t[i].work)
  {
  }

  /** `slow_at` and `stall_at` are exactly where the current chains of bad samples began. */
  lemma {:induction false} MarksAreExact(t: seq<Event>, i: nat)
    requires i < |t| && t[i].Point?
    ensures var s := After(t, i + 1).value;
      && (s.slowAt.Some? <==> SlowAt(t, i)) && (SlowAt(t, i) ==> s.slowAt == Some(t[SlowFrom(t, i)].clock))
      && (s.stallAt.Some? <==> StalledAt(t, i)) && (StalledAt(t, i) ==> s.stallAt == Some(t[StalledFrom(t, i)].clock))
  {
    LastFields(t, i);
    if SlowAt(t, i) { SlowFromIsChain(t, i); }
    if StalledAt(t, i) { StalledFromIsChain(t, i); }
    if i > 0 && t[i - 1].Point? { MarksAreExact(t, i - 1); }
    hide After, Learn, Lasted;
  }

  /** The least rate of a stretch of samples. */
  function LeastLow(t: seq<Event>, first: nat, last: nat): real
    requires first <= last < |t| && forall i :: first <= i <= last ==> t[i].Point?
    decreases last - first
  {
    if first == last then Low(t[last]) else Min(LeastLow(t, first, last - 1), Low(t[last]))
  }

  /** A stretch that may teach a reference: an unbroken chain, after its beginning never below 8 MiB/s nor
      below half of the least rate before. */
  ghost predicate Steady(t: seq<Event>, k: nat, i: nat)
    requires k <= i < |t|
  {
    && Chain(t, k, i)
    && forall x :: k < x <= i ==> Low(t[x]) >= 8388608.0 && Low(t[x]) >= LeastLow(t, k, x - 1) / 2.0
  }

  /** The stretch from which the current reference is being learnt. */
  ghost predicate LearntFrom(t: seq<Event>, k: nat, i: nat, base: real, baseAt: real)
    requires i < |t|
  {
    k <= i && Steady(t, k, i) && baseAt == t[k].clock && base == LeastLow(t, k, i)
  }

  ghost predicate ReadyFrom(t: seq<Event>, k: nat, r: nat, i: nat, base: real)
    requires i < |t|
  {
    && k <= r <= i && Steady(t, k, r) && OneWork(t, r, i)
    && t[r].clock - t[k].clock >= 600.0 && base == LeastLow(t, k, r) && base >= 8388608.0
  }

  lemma ReadyExtends(t: seq<Event>, k: nat, r: nat, i: nat, base: real)
    requires i + 1 < |t| && ReadyFrom(t, k, r, i, base) && t[i + 1].Point? && t[i + 1].work == t[i].work
    ensures ReadyFrom(t, k, r, i + 1, base)
  {
  }

  lemma LearnExtends(t: seq<Event>, k: nat, i: nat, base: real, baseAt: real)
    requires i + 1 < |t| && LearntFrom(t, k, i, base, baseAt) && Linked(t, i + 1)
    requires Low(t[i + 1]) >= 8388608.0 && Low(t[i + 1]) >= base / 2.0
    ensures LearntFrom(t, k, i + 1, Min(base, Low(t[i + 1])), baseAt)
  {
    hide Low, Min;
    assert Chain(t, k, i + 1);
    assert LeastLow(t, k, i + 1) == Min(LeastLow(t, k, i), Low(t[i + 1]));
  }

  lemma LearnFields(p: Option<Sample>, e: Event)
    requires e.Point?
    ensures var s := NewSample(p, e); (s.base, s.baseAt, s.ready) == Learn(p, e)
  {
  }

  lemma LearnCases(p: Option<Sample>, e: Event)
    requires e.Point?
    ensures var (base, baseAt, ready) := Learn(p, e);
      if p.Some? && p.value.ready then base == p.value.base && ready
      else if Relearns(p, e) then base == Low(e) && baseAt == e.clock && !ready
      else
        && Contiguous(p, e) && base == Min(p.value.base, Low(e)) && baseAt == p.value.baseAt && base >= 8388608.0
        && (ready <==> e.clock - baseAt >= 600.0) && Low(e) >= 8388608.0 && Low(e) >= p.value.base / 2.0
  {
  }

  /** The reference: while learning it is the least rate of an unbroken chain; once ready it is that
      of a chain of at least ten minutes, at least 8 MiB/s, and the workload has not changed since. */
  lemma {:induction false} ReferenceIsLearnt(t: seq<Event>, i: nat)
    requires i < |t| && t[i].Point?
    ensures var s := After(t, i + 1).value;
      if s.ready then exists k: nat, r: nat :: ReadyFrom(t, k, r, i, s.base)
      else exists k: nat :: LearntFrom(t, k, i, s.base, s.baseAt)
  {
    hide After, NewSample, Linked, Low, LearntFrom, ReadyFrom, Learn, Relearns, Contiguous, Min;
    LastFields(t, i);
    LearnFields(SameWork(After(t, i), t[i].work), t[i]);
    LearnCases(SameWork(After(t, i), t[i].work), t[i]);
    var p, s := SameWork(After(t, i), t[i].work), After(t, i + 1).value;
    if p.Some? { ReferenceIsLearnt(t, i - 1); }
    if p.Some? && p.value.ready {
      var k: nat, r: nat :| ReadyFrom(t, k, r, i - 1, p.value.base);
      ReadyExtends(t, k, r, i - 1, p.value.base);
    } else if Relearns(p, t[i]) {
      LearnStarts(t, i);
    } else {
      var k: nat :| LearntFrom(t, k, i - 1, p.value.base, p.value.baseAt);
      LearnExtends(t, k, i - 1, p.value.base, p.value.baseAt);
      if s.ready { LearnEnds(t, k, i, s.base, s.baseAt); }
    }
  }

  lemma LearnStarts(t: seq<Event>, i: nat)
    requires i < |t| && t[i].Point?
    ensures LearntFrom(t, i, i, Low(t[i]), t[i].clock)
  {
  }

  lemma LearnEnds(t: seq<Event>, k: nat, i: nat, base: real, baseAt: real)
    requires i < |t| && LearntFrom(t, k, i, base, baseAt) && t[i].clock - baseAt >= BASE_SECONDS && base >= BASE_MIN
    ensures ReadyFrom(t, k, i, i, base)
  {
  }

  /** Once ready, the reference is frozen for as long as the workload lasts. */
  lemma {:induction false} ReferenceIsFrozen(t: seq<Event>, i: nat, j: nat)
    requires i <= j < |t| && OneWork(t, i, j) && After(t, i + 1).value.ready
    ensures After(t, j + 1).Some? && After(t, j + 1).value.ready
    ensures After(t, j + 1).value.base == After(t, i + 1).value.base
    decreases j - i
  {
    if i < j {
      ReferenceIsFrozen(t, i, j - 1);
      LastFields(t, j);
    }
  }

  lemma ChainIsOneWork(t: seq<Event>, first: nat, last: nat)
    requires first <= last < |t| && Chain(t, first, last)
    ensures OneWork(t, first, last)
    decreases last - first
  {
    if first < last {
      ChainIsOneWork(t, first, last - 1);
      assert Linked(t, last);
    }
  }

  // ---------------------------------------------------------------- alarms

  /** The workload's problem before event `i`. */
  function Before(t: seq<Event>, i: nat): Problem
    requires i < |t| && t[i].Point?
  {
    var p := SameWork(After(t, i), t[i].work);
    if p.Some? then p.value.problem else NoProblem
  }

  /** `problem` is set to stalled exactly when a chain of stalled samples has lasted an hour, to slow
      exactly when a chain of slow ones has lasted half an hour and the transfer is not stalled, is
      cleared exactly by a recovered sample, and otherwise stays. */
  lemma ProblemIsExact(t: seq<Event>, i: nat)
    requires i < |t| && t[i].Point?
    ensures var s := After(t, i + 1).value;
      s.problem ==
        if StalledAt(t, i) && t[i].clock - t[StalledFrom(t, i)].clock >= 3600.0 then Stalled
        else if SlowAt(t, i) && t[i].clock - t[SlowFrom(t, i)].clock >= 1800.0 && !StalledAt(t, i) then Slow
        else if Recovered(s.base, s.ready, t[i]) then NoProblem
        else Before(t, i)
  {
    LastFields(t, i);
    MarksAreExact(t, i);
    hide After, SlowFrom, StalledFrom, Linked;
  }

  /** Both rates of every sample of the stretch are below `rate`. */
  predicate BothBelow(t: seq<Event>, first: nat, last: nat, rate: real)
    requires first <= last < |t|
  {
    forall j :: first <= j <= last ==> t[j].Point? && t[j].rx < rate && t[j].write < rate
  }

  /** Alarm soundness: a new `slow` means an unbroken chain of samples of one workload ending now,
      at least half an hour long, in which both rates were below a quarter of the reference. */
  lemma SlowIsSound(t: seq<Event>, i: nat)
    requires i < |t| && t[i].Point? && After(t, i + 1).value.problem == Slow && Before(t, i) != Slow
    ensures exists k: nat ::
      && k <= i && Chain(t, k, i) && t[i].clock - t[k].clock >= 1800.0
      && BothBelow(t, k, i, After(t, i + 1).value.base / 4.0)
  {
    ProblemIsExact(t, i);
    var k := SlowFrom(t, i);
    SlowFromIsChain(t, i);
    ChainIsOneWork(t, k, i);
    forall j | k <= j <= i
      ensures t[j].Point? && t[j].rx < After(t, i + 1).value.base / 4.0 && t[j].write < After(t, i + 1).value.base / 4.0
    {
      assert SlowAt(t, j);
      assert OneWork(t, j, i);
      ReferenceIsFrozen(t, j, i);
    }
  }

  /** The same for `stalled`: at least an hour below 128 KiB/s. */
  lemma StalledIsSound(t: seq<Event>, i: nat)
    requires i < |t| && t[i].Point? && After(t, i + 1).value.problem == Stalled && Before(t, i) != Stalled
    ensures exists k: nat ::
      && k <= i && Chain(t, k, i) && t[i].clock - t[k].clock >= 3600.0
      && BothBelow(t, k, i, 131072.0)
  {
    hide After, StalledFrom, SlowFrom, SlowAt, Recovered, Linked;
    ProblemIsExact(t, i);
    StalledFromIsChain(t, i);
    forall j | StalledFrom(t, i) <= j <= i ensures t[j].Point? && t[j].rx < STALL_RATE && t[j].write < STALL_RATE {
      assert StalledAt(t, j);
    }
  }

  // ---------------------------------------------------------------- on the raw rates

  /** What the words for a sample mean in rates: slow is both below a quarter of a ready reference, stalled
      both below 128 KiB/s with a reference or for a mirror, recovered one of them at half the reference. */
  lemma SampleIs(t: seq<Event>, i: nat)
    requires i < |t| && t[i].Point?
    ensures After(t, i + 1).Some?
    ensures var s, e := After(t, i + 1).value, t[i];
      && (SlowAt(t, i) <==> s.ready && e.rx < s.base / 4.0 && e.write < s.base / 4.0)
      && (StalledAt(t, i) <==>
            (s.ready || (|e.work| >= 7 && e.work[..7] == "mirror:")) && e.rx < 131072.0 && e.write < 131072.0)
      && (Recovered(s.base, s.ready, e) <==>
            var enough := if s.ready then s.base / 2.0 else 131072.0; e.rx >= enough || e.write >= enough)
  {
    LastFields(t, i);
    hide After, NewSample;
  }

  /** A sample clears a set problem exactly if one of its rates is at least half of the ready reference, or
      128 KiB/s without one. */
  lemma RecoveryIsExact(t: seq<Event>, i: nat)
    requires i < |t| && t[i].Point? && Before(t, i) != NoProblem
    ensures After(t, i + 1).Some?
    ensures var s, e := After(t, i + 1).value, t[i];
      var enough := if s.ready then s.base / 2.0 else 131072.0;
      s.problem == NoProblem <==> e.rx >= enough || e.write >= enough
  {
    SampleIs(t, i);
    ProblemIsLatched(t, i);
    LastFields(t, i);
    hide After, NewSample, Recovered;
  }

  lemma {:induction false} ChainForward(t: seq<Event>, k: nat, i: nat)
    requires k <= i < |t| && Chain(t, k, i)
    ensures t[k].clock <= t[i].clock
    decreases i
  {
    if k < i {
      ChainForward(t, k, i - 1);
      assert Linked(t, i);
    }
  }

  /** A stretch of slow samples that covers a chain began at its first one or earlier. */
  lemma {:induction false} SlowReaches(t: seq<Event>, k: nat, i: nat)
    requires k <= i < |t| && Chain(t, k, i) && forall x :: k <= x <= i ==> SlowAt(t, x)
    ensures SlowFrom(t, i) <= k && t[SlowFrom(t, i)].clock <= t[k].clock
    decreases i
  {
    hide After, SlowAt;
    SlowFromIsChain(t, i);
    if k < i {
      assert Linked(t, i);
      SlowReaches(t, k, i - 1);
    } else {
      ChainForward(t, SlowFrom(t, i), i);
    }
  }

  lemma {:induction false} StalledReaches(t: seq<Event>, k: nat, i: nat)
    requires k <= i < |t| && Chain(t, k, i) && forall x :: k <= x <= i ==> StalledAt(t, x)
    ensures StalledFrom(t, i) <= k && t[StalledFrom(t, i)].clock <= t[k].clock
    decreases i
  {
    hide After, StalledAt;
    StalledFromIsChain(t, i);
    if k < i {
      assert Linked(t, i);
      StalledReaches(t, k, i - 1);
    } else {
      ChainForward(t, StalledFrom(t, i), i);
    }
  }

  lemma PartChain(t: seq<Event>, k: nat, x: nat, i: nat)
    requires k <= x <= i < |t| && Chain(t, k, i)
    ensures Chain(t, k, x) && Chain(t, x, i)
  {
  }

  /** Below a quarter of a reference that was ready at the beginning every sample of a chain is slow. */
  lemma RawSlow(t: seq<Event>, k: nat, i: nat)
    requires k <= i < |t| && Chain(t, k, i) && After(t, k + 1).Some? && After(t, k + 1).value.ready
    requires BothBelow(t, k, i, After(t, k + 1).value.base / 4.0)
    ensures forall x :: k <= x <= i ==> SlowAt(t, x)
    ensures After(t, i + 1).Some? && After(t, i + 1).value.ready
    ensures After(t, i + 1).value.base == After(t, k + 1).value.base
  {
    hide After, SlowAt, StalledAt, Recovered;
    forall x | k <= x <= i ensures SlowAt(t, x) {
      PartChain(t, k, x, i);
      ChainIsOneWork(t, k, x);
      ReferenceIsFrozen(t, k, x);
      SampleIs(t, x);
    }
    ChainIsOneWork(t, k, i);
    ReferenceIsFrozen(t, k, i);
  }

  /** Alarm completeness: half an hour in an unbroken chain with both rates below a quarter of a ready
      reference is `slow`, if the newest sample still has a rate of 128 KiB/s. */
  lemma SlowIsComplete(t: seq<Event>, k: nat, i: nat)
    requires k <= i < |t| && Chain(t, k, i) && After(t, k + 1).Some? && After(t, k + 1).value.ready
    requires BothBelow(t, k, i, After(t, k + 1).value.base / 4.0) && t[i].clock - t[k].clock >= 1800.0
    requires t[i].rx >= 131072.0 || t[i].write >= 131072.0
    ensures After(t, i + 1).Some? && After(t, i + 1).value.problem == Slow
  {
    hide After, SlowAt, StalledAt, Recovered;
    RawSlow(t, k, i);
    SlowReaches(t, k, i);
    SampleIs(t, i);
    ProblemIsExact(t, i);
  }

  /** An hour in an unbroken chain with both rates below 128 KiB/s is `stalled`, with a ready reference or
      for a mirror without one. */
  lemma StalledIsComplete(t: seq<Event>, k: nat, i: nat)
    requires k <= i < |t| && Chain(t, k, i) && After(t, k + 1).Some? && BothBelow(t, k, i, 131072.0)
    requires After(t, k + 1).value.ready || (|t[k].work| >= 7 && t[k].work[..7] == "mirror:")
    requires t[i].clock - t[k].clock >= 3600.0
    ensures After(t, i + 1).Some? && After(t, i + 1).value.problem == Stalled
  {
    hide After, SlowAt, StalledAt, Recovered;
    forall x | k <= x <= i ensures StalledAt(t, x) {
      PartChain(t, k, x, i);
      ChainIsOneWork(t, k, x);
      if After(t, k + 1).value.ready { ReferenceIsFrozen(t, k, x); }
      SampleIs(t, x);
    }
    StalledReaches(t, k, i);
    SampleIs(t, i);
    ProblemIsExact(t, i);
  }

  /** The sample at which an alarm is raised. */
  predicate Raises(t: seq<Event>, x: nat)
    requires x < |t|
  {
    || (StalledAt(t, x) && t[x].clock - t[StalledFrom(t, x)].clock >= 3600.0)
    || (SlowAt(t, x) && !StalledAt(t, x) && t[x].clock - t[SlowFrom(t, x)].clock >= 1800.0)
  }

  ghost predicate SomeRaises(t: seq<Event>, k: nat, i: nat)
    requires k <= i < |t|
  {
    exists x :: k <= x <= i && Raises(t, x)
  }

  lemma RaisesGrows(t: seq<Event>, k: nat, i: nat)
    requires k <= i < |t|
    ensures SomeRaises(t, k, i) <==> Raises(t, i) || (k < i && SomeRaises(t, k, i - 1))
  {
    hide Raises;
    if x :| k <= x <= i && Raises(t, x) { assert x == i || k <= x <= i - 1; }
  }

  /** Along a slow chain there is a problem at its end exactly if there was one before it or one of its
      samples raised it. A slow sample that is also stalled does not raise `slow`. */
  lemma {:induction false} SlowAlarmExactlyWhen(t: seq<Event>, k: nat, i: nat)
    requires k <= i < |t| && Chain(t, k, i) && forall x :: k <= x <= i ==> SlowAt(t, x)
    ensures After(t, i + 1).Some?
    ensures After(t, i + 1).value.problem != NoProblem <==> Before(t, k) != NoProblem || SomeRaises(t, k, i)
    decreases i
  {
    RaisedNow(t, i);
    RaisesGrows(t, k, i);
    BeforeIs(t, i);
    hide After, SlowAt, Raises, SomeRaises, Before;
    if k < i {
      assert Linked(t, i);
      PartChain(t, k, i - 1, i);
      SlowAlarmExactlyWhen(t, k, i - 1);
    }
  }

  lemma RaisedNow(t: seq<Event>, i: nat)
    requires i < |t| && SlowAt(t, i)
    ensures After(t, i + 1).Some?
    ensures After(t, i + 1).value.problem != NoProblem <==> Raises(t, i) || Before(t, i) != NoProblem
  {
    NotRecovered(t, i);
    ProblemIsExact(t, i);
    hide After, SlowAt, StalledAt, Recovered, SlowFrom, StalledFrom;
  }

  lemma BeforeIs(t: seq<Event>, i: nat)
    requires i < |t| && t[i].Point?
    ensures Linked(t, i) ==> After(t, i).Some? && Before(t, i) == After(t, i).value.problem
  {
    LastFields(t, i);
    if Linked(t, i) { LastFields(t, i - 1); }
  }

  /** A slow sample has not recovered: the reference is positive. */
  lemma NotRecovered(t: seq<Event>, i: nat)
    requires i < |t| && SlowAt(t, i)
    ensures After(t, i + 1).Some? && !Recovered(After(t, i + 1).value.base, After(t, i + 1).value.ready, t[i])
  {
    SampleIs(t, i);
    ReferenceIsLearnt(t, i);
    hide After;
    var s := After(t, i + 1).value;
    var k: nat, r: nat :| ReadyFrom(t, k, r, i, s.base);
    assert s.base > 0.0;
  }

  /** A new problem begins where the chain of slow samples began, or else that of stalled ones, and its
      rate is the better of the two. */
  lemma BeginningIs(t: seq<Event>, i: nat)
    requires i < |t| && t[i].Point? && Before(t, i) == NoProblem
    ensures After(t, i + 1).Some?
    ensures var s := After(t, i + 1).value;
      s.problem != NoProblem ==>
        && s.since == (if SlowAt(t, i) then Some(t[SlowFrom(t, i)].clock)
                       else if StalledAt(t, i) then Some(t[StalledFrom(t, i)].clock) else None)
        && s.rate == Some(if t[i].rx < t[i].write then t[i].write else t[i].rx)
  {
    hide After, SlowFrom, StalledFrom, Linked, SlowAt, StalledAt, NewSample, Recovered, Contiguous;
    LastFields(t, i);
    MarksAreExact(t, i);
    var p := SameWork(After(t, i), t[i].work);
    if p.Some? { ProblemIsLatched(t, i - 1); }
    NewBeginning(p, t[i]);
  }

  lemma NewBeginning(p: Option<Sample>, e: Event)
    requires e.Point? && (p.Some? ==> p.value.problem == NoProblem && p.value.since.None?)
    ensures var s := NewSample(p, e);
      s.problem != NoProblem ==> s.since == (if s.slowAt.Some? then s.slowAt else s.stallAt) && s.rate == Some(High(e))
  {
    hide Learn, Lasted;
  }

  /** Learning is well under way at a sample: a strong reference, begun by the time `since`, not yet due. */
  predicate Learning(s: Sample, e: Event, since: real)
    requires e.Point?
  {
    s.base >= 8388608.0 && s.base <= Low(e) && s.baseAt <= since
  }

  lemma LearnFirst(p: Option<Sample>, e: Event)
    requires e.Point? && e.rx >= 8388608.0 && e.write >= 8388608.0
    requires p.Some? && Contiguous(p, e) ==> p.value.ready || p.value.baseAt <= e.clock
    ensures var s := NewSample(p, e); s.ready || Learning(s, e, e.clock)
  {
    LearnFields(p, e);
    hide NewSample;
  }

  lemma LearnNext(p: Option<Sample>, was: Event, e: Event, since: real)
    requires e.Point? && was.Point? && e.rx >= 8388608.0 && e.write >= 8388608.0 && Low(e) >= Low(was) / 2.0
    requires Contiguous(p, e) && (p.value.ready || Learning(p.value, was, since))
    ensures var s := NewSample(p, e);
      s.ready || (Learning(s, e, since) && e.clock - s.baseAt < 600.0)
  {
    LearnFields(p, e);
    hide NewSample;
  }

  /** An unbroken chain whose lower rate is always at least 8 MiB/s and never halved at once. */
  predicate Strong(t: seq<Event>, k: nat, i: nat)
    requires k <= i < |t|
  {
    && Chain(t, k, i)
    && (forall x :: k <= x <= i ==> t[x].rx >= 8388608.0 && t[x].write >= 8388608.0)
    && (forall x :: k < x <= i ==> Low(t[x]) >= Low(t[x - 1]) / 2.0)
  }

  lemma StrongEnds(t: seq<Event>, k: nat, i: nat)
    requires k <= i < |t| && Strong(t, k, i)
    ensures t[k].Point? && t[i].Point? && t[i].rx >= 8388608.0 && t[i].write >= 8388608.0
    ensures k < i ==> Strong(t, k, i - 1) && Linked(t, i) && t[i - 1].Point? && Low(t[i]) >= Low(t[i - 1]) / 2.0
  {
    hide Linked, Low;
  }

  lemma {:induction false} LearningGoesOn(t: seq<Event>, k: nat, i: nat)
    requires k <= i < |t| && Strong(t, k, i)
    ensures t[k].Point? && t[i].Point? && After(t, i + 1).Some?
    ensures var s := After(t, i + 1).value;
      s.ready || (Learning(s, t[i], t[k].clock) && (i > k ==> t[i].clock - s.baseAt < 600.0))
    decreases i
  {
    hide Strong, After, NewSample, Learning, Contiguous, Low, Linked;
    StrongEnds(t, k, i);
    LastFields(t, i);
    var p := SameWork(After(t, i), t[i].work);
    if k < i {
      LearningGoesOn(t, k, i - 1);
      LinkedIs(t, i);
      LearnNext(p, t[i - 1], t[i], t[k].clock);
    } else {
      if Linked(t, i) { EarlierStart(t, i); }
      LearnFirst(p, t[i]);
    }
  }

  lemma LinkedIs(t: seq<Event>, i: nat)
    requires i < |t| && t[i].Point? && Linked(t, i)
    ensures i > 0 && t[i - 1].Point? && After(t, i).Some? && SameWork(After(t, i), t[i].work) == After(t, i)
  {
    LastFields(t, i - 1);
  }

  /** Learning began before now. */
  lemma EarlierStart(t: seq<Event>, i: nat)
    requires i < |t| && t[i].Point? && Linked(t, i)
    ensures After(t, i).Some? && (!After(t, i).value.ready ==> After(t, i).value.baseAt <= t[i].clock)
  {
    ReferenceIsLearnt(t, i - 1);
    LastFields(t, i - 1);
    hide After;
    var s := After(t, i).value;
    if !s.ready {
      var k: nat :| LearntFrom(t, k, i - 1, s.base, s.baseAt);
      ChainForward(t, k, i - 1);
    }
  }

  /** The reference is reached: ten minutes in an unbroken chain, with the lower rate always at least
      8 MiB/s and never less than half of the one before, are enough. */
  lemma ReferenceIsReached(t: seq<Event>, k: nat, i: nat)
    requires k < i < |t| && Strong(t, k, i) && t[i].clock - t[k].clock >= 600.0
    ensures After(t, i + 1).Some? && After(t, i + 1).value.ready
  {
    LearningGoesOn(t, k, i);
    hide After;
  }

  /** A sample every three minutes: five at 16 MiB/s, then twelve at 64 KiB/s. */
  function StallTrace(): (t: seq<Event>)
    ensures |t| == 17 && forall x :: 0 <= x < 17 ==>
      var rate := if x < 5 then 16777216.0 else 65536.0;
      t[x] == Point(180.0 * x as real, rate, rate, "repo", false)
  {
    seq(17, x requires 0 <= x < 17 =>
      var rate := if x < 5 then 16777216.0 else 65536.0;
      Point(180.0 * x as real, rate, rate, "repo", false))
  }

  lemma StallTraceFacts()
    ensures var t := StallTrace();
      Chain(t, 0, 16) && Chain(t, 5, 16) && Chain(t, 4, 16) && Strong(t, 0, 4) && t[16].clock - t[5].clock == 1980.0
  {
    var t := StallTrace();
    hide StallTrace;
    forall x | 1 <= x <= 16 ensures Linked(t, x) {
      assert t[x].clock - t[x - 1].clock == 180.0 * (x as real - (x - 1) as real);
    }
  }

  /** Half an hour below a quarter of the reference is not always an alarm: if the samples are below
      128 KiB/s too, nothing is raised before the hour is over. */
  lemma StallHidesSlow()
    ensures var t := StallTrace();
      && Chain(t, 5, 16) && t[16].clock - t[5].clock >= 1800.0 && After(t, 5).Some? && After(t, 5).value.ready
      && BothBelow(t, 5, 16, After(t, 5).value.base / 4.0)
      && After(t, 17).Some? && After(t, 17).value.problem == NoProblem
  {
    var t := StallTrace();
    hide StallTrace, After, SlowAt, StalledAt, Recovered, Before, Strong, Chain, Raises;
    StallTraceFacts();
    ReferenceIsReached(t, 0, 4);
    StallReference(t);
    forall x: nat | 4 <= x <= 16
      ensures After(t, x + 1).Some? && After(t, x + 1).value.ready
           && After(t, x + 1).value.base == After(t, 5).value.base
      ensures x > 4 ==> SlowAt(t, x) && StalledAt(t, x)
      ensures x == 4 ==> !SlowAt(t, x) && !StalledAt(t, x)
    {
      PartChain(t, 4, x, 16);
      ChainIsOneWork(t, 4, x);
      ReferenceIsFrozen(t, 4, x);
      SampleIs(t, x);
    }
    NothingBefore(t);
    forall x: nat | 5 <= x <= 16 ensures !Raises(t, x) { NoneRaises(t, x); }
    SlowAlarmExactlyWhen(t, 5, 16);
  }

  lemma StallReference(t: seq<Event>)
    requires t == StallTrace() && After(t, 5).Some? && After(t, 5).value.ready
    ensures 8388608.0 <= After(t, 5).value.base <= 16777216.0
  {
    hide StallTrace, After;
    ReferenceIsLearnt(t, 4);
    var k: nat, r: nat :| ReadyFrom(t, k, r, 4, After(t, 5).value.base);
    assert LeastLow(t, k, r) <= Low(t[r]);
  }

  /** At 16 MiB/s there is no problem yet. */
  lemma NothingBefore(t: seq<Event>)
    requires t == StallTrace() && After(t, 5).Some? && After(t, 5).value.ready && After(t, 5).value.base <= 16777216.0
    requires !SlowAt(t, 4) && !StalledAt(t, 4) && Chain(t, 4, 16)
    ensures Before(t, 5) == NoProblem
  {
    hide StallTrace, After, SlowAt, StalledAt;
    assert Linked(t, 5);
    BeforeIs(t, 5);
    SampleIs(t, 4);
    ProblemIsExact(t, 4);
  }

  lemma NoneRaises(t: seq<Event>, x: nat)
    requires t == StallTrace() && 5 <= x <= 16 && StalledAt(t, x) && !StalledAt(t, 4)
    ensures !Raises(t, x)
  {
    hide StallTrace, After, StalledAt, SlowAt;
    StalledFromIsChain(t, x);
    assert StalledFrom(t, x) > 4;
  }

  /** The latch: a problem ends only with the workload or a recovered sample, keeps its beginning,
      and its details can always be shown. */
  lemma {:induction false} ProblemIsLatched(t: seq<Event>, i: nat)
    requires i < |t| && t[i].Point?
    ensures var s, p := After(t, i + 1).value, SameWork(After(t, i), t[i].work);
      && (!s.problem.NoProblem? ==> s.since.Some? && s.rate.Some?)
      && (s.problem.NoProblem? ==> s.since.None?)
      && (p.Some? && !p.value.problem.NoProblem? ==>
            && (s.problem.NoProblem? <==> Recovered(s.base, s.ready, t[i]))
            && (!s.problem.NoProblem? ==> s.since == p.value.since))
  {
    LastFields(t, i);
    var p, s := SameWork(After(t, i), t[i].work), After(t, i + 1).value;
    if p.Some? { ProblemIsLatched(t, i - 1); }
    if s.ready {
      ReferenceIsLearnt(t, i);
      var k: nat, r: nat :| ReadyFrom(t, k, r, i, s.base);
    }
    hide After, Linked;
  }
}
