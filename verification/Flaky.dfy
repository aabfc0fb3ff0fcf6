/** A site that answers every other time (backend/app/flaky.py): counting short failures among the
    last checks, and why the short history the caller reads is enough. */
module Flaky {

  const WINDOW := 20
  const FAILS := 4
  const RUNS := 3
  const CLEAR := 1

  /** Statuses, oldest first; only "down" is a failure. */
  predicate Down(s: seq<string>, i: int) { 0 <= i < |s| && s[i] == "down" }

  // ---------------------------------------------------------------- what is to be counted

  /** The maximal run of failures around position `p`. */
  function RunStart(s: seq<string>, p: nat): nat { if Down(s, p - 1) then RunStart(s, p - 1) else p }

  function RunEnd(s: seq<string>, p: nat): nat
    decreases |s| - p
  {
    if Down(s, p + 1) then RunEnd(s, p + 1) else p + 1
  }

  /** A failure in a run shorter than `l`. */
  predicate Short(s: seq<string>, l: nat, p: nat) { Down(s, p) && RunEnd(s, p) - RunStart(s, p) < l }

  /** The last failure of such a run. */
  predicate ShortLast(s: seq<string>, l: nat, p: nat) { Short(s, l, p) && !Down(s, p + 1) }

  /** How many short failures, and how many ends of short runs, lie at positions a..b. */
  function Fails(s: seq<string>, l: nat, a: nat, b: nat): nat {
    if b <= a then 0 else Fails(s, l, a, b - 1) + (if Short(s, l, b - 1) then 1 else 0)
  }

  function Ends(s: seq<string>, l: nat, a: nat, b: nat): nat {
    if b <= a then 0 else Ends(s, l, a, b - 1) + (if ShortLast(s, l, b - 1) then 1 else 0)
  }

  function AtLeastOne(n: int): nat { if n < 1 then 1 else n }

  function WindowStart(s: seq<string>): nat { if |s| < WINDOW then 0 else |s| - WINDOW }

  lemma {:induction false} Additive(s: seq<string>, l: nat, a: nat, b: nat, c: nat)
    requires a <= b <= c
    ensures Fails(s, l, a, c) == Fails(s, l, a, b) + Fails(s, l, b, c)
    ensures Ends(s, l, a, c) == Ends(s, l, a, b) + Ends(s, l, b, c)
  {
    hide Short, ShortLast;
    if b < c { Additive(s, l, a, b, c - 1); }
  }

  lemma {:induction false} NothingThere(s: seq<string>, l: nat, a: nat, b: nat)
    requires forall p :: a <= p < b ==> !Short(s, l, p)
    ensures Fails(s, l, a, b) == 0 && Ends(s, l, a, b) == 0
  {
    if a < b { NothingThere(s, l, a, b - 1); }
  }

  // ---------------------------------------------------------------- runs

  /** A maximal run of failures at a..b. */
  predicate IsRun(s: seq<string>, a: nat, b: nat) {
    a < b <= |s| && (forall p :: a <= p < b ==> Down(s, p)) && !Down(s, a - 1) && !Down(s, b)
  }

  lemma {:induction false} StartOfRun(s: seq<string>, a: nat, p: nat)
    requires a <= p < |s| && (forall x :: a <= x <= p ==> Down(s, x)) && !Down(s, a - 1)
    ensures RunStart(s, p) == a
  {
    if a < p { StartOfRun(s, a, p - 1); }
  }

  lemma {:induction false} EndOfRun(s: seq<string>, p: nat, b: nat)
    requires p < b <= |s| && (forall x :: p <= x < b ==> Down(s, x)) && !Down(s, b)
    ensures RunEnd(s, p) == b
    decreases b - p
  {
    if p + 1 < b { EndOfRun(s, p + 1, b); }
  }

  lemma RunIsShort(s: seq<string>, l: nat, a: nat, b: nat, p: nat)
    requires IsRun(s, a, b) && a <= p < b
    ensures Short(s, l, p) <==> b - a < l
    ensures ShortLast(s, l, p) <==> b - a < l && p == b - 1
  {
    StartOfRun(s, a, p);
    EndOfRun(s, p, b);
  }

  lemma {:induction false} RunCounts(s: seq<string>, l: nat, a: nat, b: nat, x: nat, y: nat)
    requires IsRun(s, a, b) && a <= x <= y <= b && b - a < l
    ensures Fails(s, l, x, y) == y - x && Ends(s, l, x, y) == (if x < y && y == b then 1 else 0)
  {
    if x < y {
      RunCounts(s, l, a, b, x, y - 1);
      RunIsShort(s, l, a, b, y - 1);
    }
  }

  /** A run of failures: the position behind its end, and its length. */
  datatype Run = Run(end: nat, length: nat)

  function Start(r: Run): int { r.end - r.length }

  predicate ValidRun(s: seq<string>, r: Run, n: int) {
    r.length <= r.end <= n && IsRun(s, r.end - r.length, r.end)
  }

  /** The runs found so far are all the runs that end at or before `n`, in order. */
  ghost predicate RunList(s: seq<string>, runs: seq<Run>, n: int)
    decreases |runs|
  {
    if runs == [] then Quiet(s, 0, n)
    else
      var r := runs[|runs| - 1];
      ValidRun(s, r, n) && Quiet(s, r.end, n) && RunList(s, runs[..|runs| - 1], Start(r))
  }

  lemma {:induction false} RunListAt(s: seq<string>, runs: seq<Run>, n: nat, k: nat)
    requires RunList(s, runs, n) && k < |runs|
    ensures ValidRun(s, runs[k], n)
    ensures EndBefore(runs, k) <= Start(runs[k]) && Quiet(s, EndBefore(runs, k), Start(runs[k]))
    decreases |runs|
  {
    hide IsRun, Quiet;
    var r, init := runs[|runs| - 1], runs[..|runs| - 1];
    if k < |runs| - 1 {
      RunListAt(s, init, Start(r), k);
      assert EndBefore(init, k) == EndBefore(runs, k);
    }
  }

  function EndBefore(runs: seq<Run>, k: nat): nat
    requires k <= |runs|
  {
    if k == 0 then 0 else runs[k - 1].end
  }

  predicate Quiet(s: seq<string>, a: int, b: int) { forall p :: a <= p < b ==> !Down(s, p) }

  // ---------------------------------------------------------------- the source's two loops

  /** The last `n` of the first `i` checks failed, and the check before them did not. */
  predicate Pending(s: seq<string>, i: nat, n: nat) {
    n <= i && (forall p :: i - n <= p < i ==> Down(s, p)) && (n > 0 ==> !Down(s, i - n - 1))
  }

  /** Collect (position behind the end, length) of every run. */
  method FindRuns(s: seq<string>) returns (runs: seq<Run>)
    ensures RunList(s, runs, |s|)
  {
    hide RunList, Pending, IsRun, Down, Quiet;
    runs := [];
    var n: nat := 0;
    NoRuns(s);
    for i := 0 to |s|
      invariant n <= i && Pending(s, i, n) && RunList(s, runs, i - n)
    {
      DownIs(s, i);
      if s[i] == "down" {
        if n == 0 { NotDownBefore(s, runs, i); }
        PendingGrows(s, i, n);
        n := n + 1;
      } else if n > 0 {
        PendingEnds(s, i, n);
        AddRun(s, runs, i - n, i);
        runs := runs + [Run(i, n)];
        n := 0;
        QuietStep(s, runs, i);
      } else {
        QuietStep(s, runs, i);
      }
      NonePending(s, i + 1);
    }
    DownIs(s, |s|);
    if n > 0 {
      PendingEnds(s, |s|, n);
      AddRun(s, runs, |s| - n, |s|);
      runs := runs + [Run(|s|, n)];
    }
  }

  lemma NoRuns(s: seq<string>)
    ensures RunList(s, [], 0) && Pending(s, 0, 0)
  {
  }

  lemma DownIs(s: seq<string>, i: nat)
    ensures Down(s, i) <==> i < |s| && s[i] == "down"
  {
  }

  lemma NonePending(s: seq<string>, i: nat)
    ensures Pending(s, i, 0)
  {
  }

  lemma PendingGrows(s: seq<string>, i: nat, n: nat)
    requires i < |s| && Pending(s, i, n) && Down(s, i) && (n == 0 ==> !Down(s, i - 1))
    ensures Pending(s, i + 1, n + 1)
  {
  }

  lemma PendingEnds(s: seq<string>, i: nat, n: nat)
    requires n > 0 && i <= |s| && Pending(s, i, n) && !Down(s, i)
    ensures IsRun(s, i - n, i)
  {
  }

  lemma NotDownBefore(s: seq<string>, runs: seq<Run>, i: nat)
    requires RunList(s, runs, i) && i < |s| && Down(s, i)
    ensures !Down(s, i - 1)
  {
    assert runs != [] ==> runs[|runs| - 1].end != i;
  }

  lemma QuietStep(s: seq<string>, runs: seq<Run>, i: nat)
    requires RunList(s, runs, i) && i < |s| && !Down(s, i)
    ensures RunList(s, runs, i + 1)
  {
    hide IsRun;
  }

  lemma AddRun(s: seq<string>, runs: seq<Run>, a: nat, b: nat)
    requires RunList(s, runs, a) && IsRun(s, a, b)
    ensures RunList(s, runs + [Run(b, b - a)], b)
  {
    assert (runs + [Run(b, b - a)])[..|runs|] == runs;
  }

  /** `short_failures`: the failures in the last twenty checks that belong to short runs, and the
      number of such runs that reach into them. */
  method ShortFailures(s: seq<string>, longRun: int) returns (fails: nat, count: nat)
    ensures fails == Fails(s, AtLeastOne(longRun), WindowStart(s), |s|)
    ensures count == Ends(s, AtLeastOne(longRun), WindowStart(s), |s|)
  {
    var l, lo := AtLeastOne(longRun), WindowStart(s);
    var runs := FindRuns(s);
    hide Fails, Ends, Quiet, IsRun, RunList;
    fails, count := 0, 0;
    CountNone(s, l, lo);
    for k := 0 to |runs|
      invariant fails == Fails(s, l, lo, EndBefore(runs, k)) && count == Ends(s, l, lo, EndBefore(runs, k))
    {
      var Run(end, length) := runs[k];
      RunListAt(s, runs, |s|, k);
      var start := end - length;
      OneRun(s, l, lo, EndBefore(runs, k), start, end);
      if length >= l { continue; }
      var inside := end - (if start < lo then lo else start);
      if inside > 0 {
        fails := fails + inside;
        count := count + 1;
      }
    }
    LastQuiet(s, runs);
    QuietTail(s, l, lo, EndBefore(runs, |runs|), |s|);
  }

  lemma LastQuiet(s: seq<string>, runs: seq<Run>)
    requires RunList(s, runs, |s|)
    ensures EndBefore(runs, |runs|) <= |s| && Quiet(s, EndBefore(runs, |runs|), |s|)
  {
  }

  lemma CountNone(s: seq<string>, l: nat, lo: nat)
    ensures Fails(s, l, lo, 0) == 0 && Ends(s, l, lo, 0) == 0
  {
  }

  /** What one more run adds to both counts. */
  lemma OneRun(s: seq<string>, l: nat, lo: nat, from: nat, a: nat, b: nat)
    requires from <= a && Quiet(s, from, a) && IsRun(s, a, b)
    ensures var inside := b - (if a < lo then lo else a);
      && Fails(s, l, lo, b) == Fails(s, l, lo, from) + (if b - a < l && inside > 0 then inside else 0)
      && Ends(s, l, lo, b) == Ends(s, l, lo, from) + (if b - a < l && inside > 0 then 1 else 0)
  {
    QuietTail(s, l, lo, from, a);
    hide Short, ShortLast;
    var x := if a < lo then lo else a;
    if x < b {
      if a < lo {
        assert Fails(s, l, lo, a) == 0 && Ends(s, l, lo, a) == 0;
        assert Fails(s, l, lo, x) == 0 && Ends(s, l, lo, x) == 0;
      }
      Additive(s, l, lo, x, b);
      if b - a < l {
        RunCounts(s, l, a, b, x, b);
      } else {
        forall p | x <= p < b ensures !Short(s, l, p) { RunIsShort(s, l, a, b, p); }
        NothingThere(s, l, x, b);
      }
    }
  }

  lemma QuietTail(s: seq<string>, l: nat, lo: nat, from: nat, n: nat)
    requires from <= n && Quiet(s, from, n)
    ensures Fails(s, l, lo, n) == Fails(s, l, lo, from) && Ends(s, l, lo, n) == Ends(s, l, lo, from)
  {
    if lo <= from {
      Additive(s, l, lo, from, n);
      NothingThere(s, l, from, n);
    } else if lo <= n {
      NothingThere(s, l, lo, n);
    }
  }

  // ---------------------------------------------------------------- the flag

  /** `in_outage`: the last `long_run` checks all failed. */
  predicate InOutage(s: seq<string>, longRun: int) {
    var l := AtLeastOne(longRun);
    l <= |s| && forall p :: |s| - l <= p < |s| ==> Down(s, p)
  }

  function IsFlaky(s: seq<string>, longRun: int, was: bool): bool {
    if InOutage(s, longRun) then was
    else
      var l, lo := AtLeastOne(longRun), WindowStart(s);
      Judged(was, Fails(s, l, lo, |s|), Ends(s, l, lo, |s|))
  }

  /** The two thresholds: several failures in several runs raise the flag, one failure may remain. */
  predicate Judged(was: bool, fails: int, runs: int) { if !was then fails >= FAILS && runs >= RUNS else fails > CLEAR }

  method CheckFlaky(s: seq<string>, longRun: int, was: bool) returns (flaky: bool)
    ensures flaky == IsFlaky(s, longRun, was)
  {
    if InOutage(s, longRun) { return was; }
    var fails, count := ShortFailures(s, longRun);
    return if !was then fails >= FAILS && count >= RUNS else fails > CLEAR;
  }

  /** The flag in numbers: unchanged during an outage; raised by four short failures in three runs among the
      last twenty checks; kept while there are two. */
  lemma FlagExactlyWhen(s: seq<string>, longRun: int, was: bool)
    ensures var l: nat := if longRun < 1 then 1 else longRun;
      var lo: nat := if |s| < 20 then 0 else |s| - 20;
      IsFlaky(s, longRun, was) <==>
        if |s| >= l && (forall p :: |s| - l <= p < |s| ==> s[p] == "down") then was
        else if was then Fails(s, l, lo, |s|) >= 2
        else Fails(s, l, lo, |s|) >= 4 && Ends(s, l, lo, |s|) >= 3
  {
    hide Fails, Ends;
    var l: nat := if longRun < 1 then 1 else longRun;
    assert |s| >= l ==> forall p :: |s| - l <= p < |s| ==> (Down(s, p) <==> s[p] == "down");
  }

  /** Twenty checks without a failure always clear the flag. */
  lemma CleanWindowClears(s: seq<string>, longRun: int, was: bool)
    requires s != [] && Quiet(s, WindowStart(s), |s|)
    ensures !IsFlaky(s, longRun, was)
  {
    assert !Down(s, |s| - 1);
    NothingThere(s, AtLeastOne(longRun), WindowStart(s), |s|);
  }

  /** An ongoing outage never changes the flag. */
  lemma OutageKeepsFlag(s: seq<string>, longRun: int, was: bool)
    requires InOutage(s, longRun)
    ensures IsFlaky(s, longRun, was) == was
  {
  }

  // ---------------------------------------------------------------- a short history is enough

  function Latest(h: seq<string>, k: nat): seq<string> { if |h| <= k then h else h[|h| - k..] }

  lemma {:induction false} SuffixEnd(h: seq<string>, off: nat, p: nat)
    requires off <= |h|
    ensures RunEnd(h[off..], p) + off == RunEnd(h, p + off)
    decreases |h| - p
  {
    assert Down(h[off..], p + 1) <==> Down(h, p + off + 1);
    if Down(h, p + off + 1) { SuffixEnd(h, off, p + 1); }
  }

  lemma {:induction false} SuffixStart(h: seq<string>, off: nat, p: nat)
    requires off <= |h|
    ensures var a := RunStart(h, p + off); RunStart(h[off..], p) == if a < off then 0 else a - off
  {
    if p > 0 {
      assert Down(h[off..], p - 1) <==> Down(h, p + off - 1);
      if Down(h, p + off - 1) { SuffixStart(h, off, p - 1); }
    } else {
      StartAtMost(h, off);
    }
  }

  lemma {:induction false} StartAtMost(h: seq<string>, p: nat)
    ensures RunStart(h, p) <= p
  {
    if Down(h, p - 1) { StartAtMost(h, p - 1); }
  }

  /** A failure far enough from the cut is short before the cut exactly if it is short after it. */
  lemma SuffixShort(h: seq<string>, off: nat, l: nat, p: nat)
    requires off <= |h| && p + 1 >= l
    ensures Short(h[off..], l, p) <==> Short(h, l, p + off)
    ensures ShortLast(h[off..], l, p) <==> ShortLast(h, l, p + off)
  {
    SuffixEnd(h, off, p);
    SuffixStart(h, off, p);
    EndBeyond(h, p + off);
    assert Down(h[off..], p) <==> Down(h, p + off);
    assert Down(h[off..], p + 1) <==> Down(h, p + off + 1);
    hide RunStart, RunEnd;
  }

  lemma {:induction false} EndBeyond(h: seq<string>, p: nat)
    ensures RunEnd(h, p) >= p + 1
    decreases |h| - p
  {
    if Down(h, p + 1) { EndBeyond(h, p + 1); }
  }

  lemma {:induction false} SuffixCounts(h: seq<string>, off: nat, l: nat, a: nat, b: nat)
    requires off <= |h| && a + 1 >= l
    ensures Fails(h[off..], l, a, b) == Fails(h, l, a + off, b + off)
    ensures Ends(h[off..], l, a, b) == Ends(h, l, a + off, b + off)
  {
    hide Short, ShortLast;
    if a < b {
      SuffixCounts(h, off, l, a, b - 1);
      SuffixShort(h, off, l, b - 1);
    }
  }

  /** The caller reads only the last checks. Window plus `long_run` minus one of them already give
      the same counts, the same outage test and the same flag as the whole history. */
  lemma ShortHistorySuffices(h: seq<string>, longRun: int, k: nat, was: bool)
    requires k >= WINDOW + AtLeastOne(longRun) - 1
    ensures var s, l := Latest(h, k), AtLeastOne(longRun);
      && Fails(s, l, WindowStart(s), |s|) == Fails(h, l, WindowStart(h), |h|)
      && Ends(s, l, WindowStart(s), |s|) == Ends(h, l, WindowStart(h), |h|)
      && (InOutage(s, longRun) <==> InOutage(h, longRun))
      && IsFlaky(s, longRun, was) == IsFlaky(h, longRun, was)
  {
    if |h| > k {
      var off, l := |h| - k, AtLeastOne(longRun);
      var s := h[off..];
      SuffixCounts(h, off, l, k - WINDOW, k);
      assert forall p :: 0 <= p < |s| ==> (Down(s, p) <==> Down(h, p + off));
      assert forall p :: off <= p < |h| ==> (Down(h, p) <==> Down(s, p - off));
    }
  }

  /** One check less is not enough: a run cut at its beginning looks short. */
  lemma ShorterHistoryMisleads(h: seq<string>)
    requires |h| == WINDOW + 1 && h[0] == h[1] == "down" && forall p :: 2 <= p < |h| ==> h[p] != "down"
    ensures Fails(Latest(h, WINDOW), 2, 0, WINDOW) == 1 && Fails(h, 2, WindowStart(h), |h|) == 0
  {
    var s := Latest(h, WINDOW);
    assert IsRun(h, 0, 2);
    assert IsRun(s, 0, 1);
    OneRun(h, 2, 1, 0, 0, 2);
    QuietTail(h, 2, 1, 2, |h|);
    OneRun(s, 2, 0, 0, 0, 1);
    QuietTail(s, 2, 0, 1, WINDOW);
  }

  // ---------------------------------------------------------------- a whole life, with closed episodes

  /** A monitor: the statuses of all its checks, how many of the oldest are not read because an episode
      was closed after them (none while no episode is closed), and the flag. */
  datatype Site = Site(samples: seq<string>, cut: nat, flag: bool)

  /** What happens to a monitor: a check is stored; the episode is closed, or opened or forgotten; the
      flag is cleared together with an episode; the flag is judged, which a manual check skips. The
      threshold may be edited between two judgements. */
  datatype Event = Stored(status: string) | Closed | Reopened | Cleared | Judge(longRun: int)

  /** The history since the last closed episode. The check just made is always part of it. */
  function Since(site: Site): seq<string> {
    var n := |site.samples|;
    if n == 0 then [] else site.samples[if site.cut < n then site.cut else n - 1..]
  }

  /** What the query returns, with the check just made: at most the window, the threshold and one more. */
  function Read(site: Site, longRun: int): seq<string> { Latest(Since(site), WINDOW + AtLeastOne(longRun) + 1) }

  /** One event; `short` says whether the flag is judged from what is read or from all since the cut. */
  function Happen(site: Site, e: Event, short: bool): Site {
    match e
    case Stored(status) => site.(samples := site.samples + [status])
    case Closed => site.(cut := |site.samples|)
    case Reopened => site.(cut := 0)
    case Cleared => site.(flag := false)
    case Judge(longRun) =>
      site.(flag := IsFlaky(if short then Read(site, longRun) else Since(site), longRun, site.flag))
  }

  function Life(t: seq<Event>, n: nat, short: bool): Site
    requires n <= |t|
  {
    if n == 0 then Site([], 0, false) else Happen(Life(t, n - 1, short), t[n - 1], short)
  }

  /** Over a whole life, whatever episodes are closed and reopened and however the threshold is edited, the
      flag from what the caller reads is the flag from the full history since the last cut. */
  lemma {:induction false} FlagsAgree(t: seq<Event>, n: nat)
    requires n <= |t|
    ensures Life(t, n, true) == Life(t, n, false)
  {
    if n > 0 {
      FlagsAgree(t, n - 1);
      hide IsFlaky, Since, Read;
      match t[n - 1]
      case Judge(longRun) => JudgesAgree(Life(t, n - 1, false), longRun);
      case _ =>
    }
  }

  /** What a monitor remembers, event by event: the cut lies where the last episode was closed and is gone
      once one is reopened or forgotten; without either everything is read. */
  lemma {:induction false} CutIs(t: seq<Event>, j: nat, n: nat)
    requires j <= n <= |t|
    requires j == 0 || t[j - 1].Closed? || t[j - 1].Reopened?
    requires forall x :: j <= x < n ==> !t[x].Closed? && !t[x].Reopened?
    ensures Life(t, n, true).cut == if j > 0 && t[j - 1].Closed? then |Life(t, j, true).samples| else 0
  {
    hide IsFlaky, Read, Since;
    if n > j { CutIs(t, j, n - 1); }
  }

  /** The flag is off until it is judged, each judgement starts from the last one, and only a judgement or a
      cleared episode changes it. */
  lemma {:induction false} FlagIs(t: seq<Event>, j: nat, n: nat)
    requires j <= n <= |t|
    requires forall x :: j <= x < n ==> !t[x].Cleared? && !t[x].Judge?
    ensures Life(t, n, true).flag <==> match (if j == 0 then Cleared else t[j - 1])
      case Cleared => false
      case Judge(l) => IsFlaky(Since(Life(t, j - 1, true)), l, Life(t, j - 1, true).flag)
      case _ => Life(t, j, true).flag
  {
    hide IsFlaky, Read, Since;
    if n > j {
      FlagIs(t, j, n - 1);
    } else if j > 0 && t[j - 1].Judge? {
      JudgesAgree(Life(t, j - 1, true), t[j - 1].longRun);
    }
  }

  lemma JudgesAgree(site: Site, longRun: int)
    ensures IsFlaky(Read(site, longRun), longRun, site.flag) == IsFlaky(Since(site), longRun, site.flag)
  {
    hide IsFlaky, Since, Latest;
    ShortHistorySuffices(Since(site), longRun, WINDOW + AtLeastOne(longRun) + 1, site.flag);
  }

  // ---------------------------------------------------------------- what a cut changes

  /** The cut goes through a run that is long as a whole and short behind the cut. */
  predicate CutShortens(h: seq<string>, l: nat, c: nat) {
    Down(h, c - 1) && Down(h, c) && RunEnd(h, c) - RunStart(h, c) >= l && RunEnd(h, c) - c < l
  }

  lemma {:induction false} RunBefore(h: seq<string>, p: nat)
    requires p < |h| && Down(h, p)
    ensures RunStart(h, p) <= p && !Down(h, RunStart(h, p) - 1) && forall x :: RunStart(h, p) <= x <= p ==> Down(h, x)
  {
    if Down(h, p - 1) { RunBefore(h, p - 1); }
  }

  lemma {:induction false} RunAfter(h: seq<string>, p: nat)
    requires p < |h| && Down(h, p)
    ensures p < RunEnd(h, p) <= |h| && !Down(h, RunEnd(h, p)) && forall x :: p <= x < RunEnd(h, p) ==> Down(h, x)
    decreases |h| - p
  {
    if Down(h, p + 1) { RunAfter(h, p + 1); }
  }

  lemma RunAround(h: seq<string>, p: nat)
    requires p < |h| && Down(h, p)
    ensures IsRun(h, RunStart(h, p), RunEnd(h, p)) && RunStart(h, p) <= p < RunEnd(h, p)
  {
    hide RunStart, RunEnd;
    RunBefore(h, p);
    RunAfter(h, p);
  }

  /** A run behind the cut is a run of the rest; a run across it loses its beginning. */
  lemma SuffixRun(h: seq<string>, c: nat, a: nat, b: nat)
    requires IsRun(h, a, b) && c < b
    ensures IsRun(h[c..], if a < c then 0 else a - c, b - c)
  {
    assert forall x :: 0 <= x < |h| - c ==> h[c..][x] == h[x + c];
    assert forall x :: 0 <= x < |h| - c ==> (Down(h[c..], x) <==> Down(h, x + c));
  }

  /** Behind the cut a failure counts as short if it did before, or if the cut has shortened its run. */
  lemma CutShort(h: seq<string>, l: nat, c: nat, p: nat)
    requires c <= p < |h|
    ensures Short(h[c..], l, p - c) <==> Short(h, l, p) || (CutShortens(h, l, c) && p < RunEnd(h, c))
    ensures ShortLast(h[c..], l, p - c) <==> ShortLast(h, l, p) || (CutShortens(h, l, c) && p == RunEnd(h, c) - 1)
    ensures CutShortens(h, l, c) && p < RunEnd(h, c) ==> !Short(h, l, p) && !ShortLast(h, l, p)
  {
    hide RunStart, RunEnd;
    assert h[c..][p - c] == h[p];
    if Down(h, c) { RunAround(h, c); }
    if Down(h, p) {
      RunAround(h, p);
      var a, b := RunStart(h, p), RunEnd(h, p);
      SuffixRun(h, c, a, b);
      RunIsShort(h, l, a, b, p);
      RunIsShort(h[c..], l, if a < c then 0 else a - c, b - c, p - c);
      if a <= c { OneRunThere(h, a, b, c); }
      if Down(h, c) && p < RunEnd(h, c) { OneRunThere(h, RunStart(h, c), RunEnd(h, c), p); }
    } else if Down(h, c) {
      assert p >= RunEnd(h, c);
    }
  }

  lemma OneRunThere(h: seq<string>, a: nat, b: nat, p: nat)
    requires IsRun(h, a, b) && a <= p < b
    ensures RunStart(h, p) == a && RunEnd(h, p) == b
  {
    StartOfRun(h, a, p);
    EndOfRun(h, p, b);
  }

  /** The failures that the cut adds at positions x..y by shortening a run. */
  function Gained(h: seq<string>, l: nat, c: nat, x: nat, y: nat): nat {
    if !CutShortens(h, l, c) then 0
    else
      var b := RunEnd(h, c);
      var top := if y < b then y else b;
      if x < top then top - x else 0
  }

  function GainedRuns(h: seq<string>, l: nat, c: nat, x: nat, y: nat): nat {
    if CutShortens(h, l, c) && x < RunEnd(h, c) <= y then 1 else 0
  }

  lemma {:induction false} CutCounts(h: seq<string>, l: nat, c: nat, x: nat, y: nat)
    requires c <= x <= y <= |h|
    ensures Fails(h[c..], l, x - c, y - c) == Fails(h, l, x, y) + Gained(h, l, c, x, y)
    ensures Ends(h[c..], l, x - c, y - c) == Ends(h, l, x, y) + GainedRuns(h, l, c, x, y)
    decreases y
  {
    hide Short, ShortLast, RunEnd, CutShortens;
    if x < y {
      CutCounts(h, l, c, x, y - 1);
      CutShort(h, l, c, y - 1);
    }
  }

  function Max(a: nat, b: nat): nat { if a < b then b else a }

  /** What the flag becomes behind a cut, from counts over the whole history: the failures before the cut
      are dropped, those of a shortened run are gained, and an outage shows only if all of it lies behind
      the cut. */
  lemma CutFlagIs(h: seq<string>, c: nat, longRun: int, was: bool)
    requires c < |h|
    ensures var l, lo, n := AtLeastOne(longRun), WindowStart(h), |h|;
      IsFlaky(h[c..], longRun, was) ==
        if InOutage(h, longRun) && l <= n - c then was
        else Judged(was, Fails(h, l, lo, n) - Fails(h, l, lo, Max(c, lo)) + Gained(h, l, c, Max(c, lo), n),
                         Ends(h, l, lo, n) - Ends(h, l, lo, Max(c, lo)) + GainedRuns(h, l, c, Max(c, lo), n))
  {
    hide Fails, Ends, Gained, GainedRuns, InOutage;
    var l, lo, n, s := AtLeastOne(longRun), WindowStart(h), |h|, h[c..];
    assert WindowStart(s) == Max(c, lo) - c;
    CutCounts(h, l, c, Max(c, lo), n);
    Additive(h, l, lo, Max(c, lo), n);
    CutOutage(h, c, longRun);
  }

  lemma CutOutage(h: seq<string>, c: nat, longRun: int)
    requires c < |h|
    ensures InOutage(h[c..], longRun) <==> InOutage(h, longRun) && AtLeastOne(longRun) <= |h| - c
  {
    var s := h[c..];
    assert forall x :: 0 <= x < |s| ==> (Down(s, x) <==> Down(h, x + c));
    assert forall x :: c <= x < |h| ==> (Down(h, x) <==> Down(s, x - c));
  }

  /** The cut takes the judgement across a threshold, or hides that the outage began before it. */
  predicate CutMatters(h: seq<string>, c: nat, longRun: int, was: bool)
    requires c < |h|
  {
    var l, lo, n := AtLeastOne(longRun), WindowStart(h), |h|;
    var m := Max(c, lo);
    var fails, runs := Fails(h, l, lo, n), Ends(h, l, lo, n);
    var less, fewer := Fails(h, l, lo, m) - Gained(h, l, c, m, n), Ends(h, l, lo, m) - GainedRuns(h, l, c, m, n);
    if InOutage(h, longRun) then l > n - c && Judged(was, fails - less, runs - fewer) != was
    else if was then (fails > CLEAR) != (fails > CLEAR + less)
    else (fails >= FAILS && runs >= RUNS) != (fails >= FAILS + less && runs >= RUNS + fewer)
  }

  /** Exactly when a cut changes the flag. */
  lemma CutChangesFlagExactlyWhen(h: seq<string>, c: nat, longRun: int, was: bool)
    requires c < |h|
    ensures IsFlaky(h[c..], longRun, was) != IsFlaky(h, longRun, was) <==> CutMatters(h, c, longRun, was)
  {
    hide Fails, Ends, Gained, GainedRuns, InOutage;
    CutFlagIs(h, c, longRun, was);
  }

  /** In particular nothing changes if no failure of the window lies before the cut. */
  lemma QuietCutChangesNothing(h: seq<string>, c: nat, longRun: int, was: bool)
    requires c < |h| && Quiet(h, WindowStart(h), c) && !Down(h, c - 1)
    ensures IsFlaky(h[c..], longRun, was) == IsFlaky(h, longRun, was)
  {
    var l, lo := AtLeastOne(longRun), WindowStart(h);
    CutFlagIs(h, c, longRun, was);
    NothingThere(h, l, lo, Max(c, lo));
  }

  /** A cut does change the flag: four failures in three runs raise it; with the episode closed before
      the last check the same flag is cleared. */
  lemma CutClearsFlag()
    ensures var h := ["down", "down", "up", "down", "up", "down", "up"];
      IsFlaky(h, 3, false) && IsFlaky(h, 3, true) && !IsFlaky(h[6..], 3, true) && CutMatters(h, 6, 3, true)
  {
    var h := ["down", "down", "up", "down", "up", "down", "up"];
    assert IsRun(h, 0, 2) && IsRun(h, 3, 4) && IsRun(h, 5, 6);
    hide Fails, Ends, IsRun;
    CountNone(h, 3, 0);
    OneRun(h, 3, 0, 0, 0, 2);
    OneRun(h, 3, 0, 2, 3, 4);
    OneRun(h, 3, 0, 4, 5, 6);
    QuietTail(h, 3, 0, 6, 7);
    assert h[6..] == ["up"];
    CleanWindowClears(h[6..], 3, true);
    CutChangesFlagExactlyWhen(h, 6, 3, true);
  }
}
