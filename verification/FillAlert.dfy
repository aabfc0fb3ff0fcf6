/** Disk-fill alerts with hold, hysteresis and fast fill (backend/app/fill_alert.py), together with
    the caller that stores what `step` returns. */
module FillAlert {
  import opened Basics

  const HOLD_S := 1800.0
  const HYST := 3.0
  const CALM_S := 1800.0
  const CRIT := 3
  const FAST_WINDOW_S := 600.0
  const FAST_MIN_SPAN_S := 480.0
  const FAST_MIN_POINTS := 6
  const FAST_ETA_S := 1800.0

  // ---------------------------------------------------------------- fast fill

  datatype Point = Point(at: real, value: real)
  datatype Fast = Fast(rate: real, eta: real)

  function Gap(a: real, b: real): (d: real)
    ensures d >= 0.0 && (d == a - b || d == b - a)
  {
    if a < b then b - a else a - b
  }

  /** The points inside the window, with the current value last. */
  function Window(points: seq<Point>, value: real, now: real): seq<Point> {
    Recent(points, now, |points|) + [Point(now, value)]
  }

  function Recent(points: seq<Point>, now: real, n: nat): seq<Point>
    requires n <= |points|
  {
    if n == 0 then []
    else
      var p := points[n - 1];
      Recent(points, now, n - 1) + (if now - FAST_WINDOW_S <= p.at < now - 1.0 then [p] else [])
  }

  lemma {:induction false} RecentFacts(points: seq<Point>, now: real, n: nat)
    requires n <= |points|
    ensures forall p :: p in Recent(points, now, n) ==> p in points && now - FAST_WINDOW_S <= p.at < now - 1.0
  {
    if n > 0 { RecentFacts(points, now, n - 1); }
  }

  /** Python's `min(pts, key=...)`: the first point nearest to `x`. */
  function Nearest(pts: seq<Point>, x: real): (k: nat)
    requires pts != []
    ensures k < |pts|
    ensures forall i :: 0 <= i < |pts| ==> Gap(pts[k].at, x) <= Gap(pts[i].at, x)
    ensures forall i :: 0 <= i < k ==> Gap(pts[k].at, x) < Gap(pts[i].at, x)
  {
    if |pts| == 1 then 0
    else
      var init := pts[..|pts| - 1];
      var k := Nearest(init, x);
      assert forall i :: 0 <= i < |init| ==> init[i] == pts[i];
      if Gap(pts[|pts| - 1].at, x) < Gap(pts[k].at, x) then |pts| - 1 else k
  }

  function Rate(a: Point, b: Point): real
    requires a.at < b.at
  {
    (b.value - a.value) / (b.at - a.at)
  }

  function Least3(a: real, b: real, c: real): real {
    if a <= b && a <= c then a else if b <= c then b else c
  }

  /** The window's ends and the points nearest to its thirds. */
  function Marks(pts: seq<Point>): (m: seq<Point>)
    requires pts != []
    ensures |m| == 4 && m[0] == pts[0] && m[3] == pts[|pts| - 1] && m[1] in pts && m[2] in pts
  {
    var t0, t3 := pts[0].at, pts[|pts| - 1].at;
    var step := (t3 - t0) / 3.0;
    [pts[0], pts[Nearest(pts, t0 + step)], pts[Nearest(pts, t0 + 2.0 * step)], pts[|pts| - 1]]
  }

  /** Each third must grow; the slowest one tells when the disk is full. */
  function Judge(m: seq<Point>, value: real): Option<Fast>
    requires |m| == 4
  {
    if m[1].at <= m[0].at || m[2].at <= m[1].at || m[3].at <= m[2].at then None
    else
      var rate := Least3(Rate(m[0], m[1]), Rate(m[1], m[2]), Rate(m[2], m[3]));
      if rate <= 0.0 then None
      else
        var eta := (100.0 - value) / rate;
        if eta > FAST_ETA_S then None else Some(Fast(rate, eta))
  }

  predicate Enough(pts: seq<Point>) {
    |pts| >= FAST_MIN_POINTS && pts[|pts| - 1].at - pts[0].at >= FAST_MIN_SPAN_S
  }

  /** Even growth over the window that would fill the disk within half an hour. */
  function FastFill(points: seq<Point>, value: real, now: real): Option<Fast> {
    var pts := Window(points, value, now);
    if Enough(pts) then Judge(Marks(pts), value) else None
  }

  /** A fast fill is even: four marks of the window rise strictly, each third at least at the reported
      rate and one exactly at it, and at that rate the disk is full within half an hour. */
  lemma FastFillIsEven(points: seq<Point>, value: real, now: real)
    requires FastFill(points, value, now).Some?
    ensures var f, pts := FastFill(points, value, now).value, Window(points, value, now);
      && f.rate > 0.0 && f.eta <= 1800.0 && value + f.rate * f.eta == 100.0
      && exists b, c :: && b in pts && c in pts && Rises(pts[0], b, f.rate) && Rises(b, c, f.rate)
                        && Rises(c, Point(now, value), f.rate)
                        && (Grows(pts[0], b, f.rate) || Grows(b, c, f.rate) || Grows(c, Point(now, value), f.rate))
  {
    hide Judge, Rises, Rate, Least3, Nearest, Grows;
    var m := Marks(Window(points, value, now));
    JudgeFacts(m, value);
  }

  lemma JudgeFacts(m: seq<Point>, value: real)
    requires |m| == 4 && Judge(m, value).Some?
    ensures var f := Judge(m, value).value;
      && f.rate > 0.0 && f.eta <= 1800.0 && value + f.rate * f.eta == 100.0
      && Rises(m[0], m[1], f.rate) && Rises(m[1], m[2], f.rate) && Rises(m[2], m[3], f.rate)
      && (Grows(m[0], m[1], f.rate) || Grows(m[1], m[2], f.rate) || Grows(m[2], m[3], f.rate))
  {
    hide Rises, Rate, Grows;
    var f := Judge(m, value).value;
    Steepness(m[0], m[1], f.rate); Steepness(m[1], m[2], f.rate); Steepness(m[2], m[3], f.rate);
    Etas(value, f.rate, f.eta);
  }

  predicate Grows(a: Point, b: Point, rate: real) { b.value - a.value == rate * (b.at - a.at) }

  predicate Rises(a: Point, b: Point, rate: real) { a.at < b.at && b.value - a.value >= rate * (b.at - a.at) }

  lemma Steepness(a: Point, b: Point, rate: real)
    requires a.at < b.at && rate <= Rate(a, b)
    ensures Rises(a, b, rate) && (rate == Rate(a, b) ==> Grows(a, b, rate))
  {
    var dt, dv := b.at - a.at, b.value - a.value;
    assert dv == (dv / dt) * dt;
    Scale(rate, dv / dt, dt);
  }

  lemma Scale(a: real, b: real, t: real)
    requires a <= b && t > 0.0
    ensures a * t <= b * t
  {
  }

  lemma Etas(value: real, rate: real, eta: real)
    requires rate > 0.0 && eta == (100.0 - value) / rate
    ensures value + rate * eta == 100.0
  {
  }

  /** The window: the points of the last ten minutes, but not of the last second, and the current one. */
  lemma {:induction false} RecentIs(points: seq<Point>, now: real, n: nat, p: Point)
    requires n <= |points|
    ensures p in Recent(points, now, n) <==> p in points[..n] && now - 600.0 <= p.at < now - 1.0
  {
    if n > 0 {
      RecentIs(points, now, n - 1, p);
      assert points[..n] == points[..n - 1] + [points[n - 1]];
    }
  }

  /** The first of the points nearest to the time `x`. */
  ghost predicate IsNearest(pts: seq<Point>, p: Point, x: real) {
    exists i :: && 0 <= i < |pts| && pts[i] == p
                && (forall j :: 0 <= j < |pts| ==> Gap(p.at, x) <= Gap(pts[j].at, x))
                && (forall j :: 0 <= j < i ==> Gap(p.at, x) < Gap(pts[j].at, x))
  }

  /** From `p` to `q` the disk grows, and fast enough to be full within half an hour of `value`. */
  predicate Climbs(p: Point, q: Point, value: real) {
    p.at < q.at && p.value < q.value && (100.0 - value) * (q.at - p.at) <= 1800.0 * (q.value - p.value)
  }

  lemma PairIs(p: Point, q: Point, x: real)
    requires p.at < q.at
    ensures Rate(p, q) > 0.0 <==> p.value < q.value
    ensures x <= 1800.0 * Rate(p, q) <==> x * (q.at - p.at) <= 1800.0 * (q.value - p.value)
  {
    var dt, dv := q.at - p.at, q.value - p.value;
    assert Rate(p, q) * dt == dv;
    assert 1800.0 * Rate(p, q) * dt == 1800.0 * dv;
    if x <= 1800.0 * Rate(p, q) { Scale(x, 1800.0 * Rate(p, q), dt); }
    if x > 1800.0 * Rate(p, q) { assert (x - 1800.0 * Rate(p, q)) * dt > 0.0; }
    if Rate(p, q) > 0.0 { assert Rate(p, q) * dt > 0.0; }
    if Rate(p, q) <= 0.0 { assert (0.0 - Rate(p, q)) * dt >= 0.0; }
  }

  lemma EtaIs(value: real, rate: real)
    requires rate > 0.0
    ensures (100.0 - value) / rate <= 1800.0 <==> 100.0 - value <= 1800.0 * rate
  {
    var eta := (100.0 - value) / rate;
    assert eta * rate == 100.0 - value;
    if eta <= 1800.0 { assert (1800.0 - eta) * rate >= 0.0; } else { assert (eta - 1800.0) * rate > 0.0; }
  }

  lemma LeastIs(a: real, b: real, c: real, x: real)
    ensures Least3(a, b, c) > 0.0 <==> a > 0.0 && b > 0.0 && c > 0.0
    ensures x <= 1800.0 * Least3(a, b, c) <==> x <= 1800.0 * a && x <= 1800.0 * b && x <= 1800.0 * c
  {
  }

  lemma JudgeRates(m: seq<Point>, value: real)
    requires |m| == 4 && m[0].at < m[1].at < m[2].at < m[3].at
    ensures var a, b, c, x := Rate(m[0], m[1]), Rate(m[1], m[2]), Rate(m[2], m[3]), 100.0 - value;
      Judge(m, value).Some? <==>
        a > 0.0 && b > 0.0 && c > 0.0 && x <= 1800.0 * a && x <= 1800.0 * b && x <= 1800.0 * c
  {
    hide Rate, Least3;
    var rate := Least3(Rate(m[0], m[1]), Rate(m[1], m[2]), Rate(m[2], m[3]));
    LeastIs(Rate(m[0], m[1]), Rate(m[1], m[2]), Rate(m[2], m[3]), 100.0 - value);
    if rate > 0.0 { EtaIs(value, rate); }
  }

  lemma ClimbsIs(p: Point, q: Point, value: real)
    ensures Climbs(p, q, value) ==> p.at < q.at
    ensures p.at < q.at ==> (Climbs(p, q, value) <==> Rate(p, q) > 0.0 && 100.0 - value <= 1800.0 * Rate(p, q))
  {
    if p.at < q.at { PairIs(p, q, 100.0 - value); }
    hide Rate;
  }

  lemma NoOrderNoRate(m: seq<Point>, value: real)
    requires |m| == 4 && !(m[0].at < m[1].at < m[2].at < m[3].at)
    ensures Judge(m, value).None?
  {
    hide Rate;
  }

  lemma JudgeIs(m: seq<Point>, value: real)
    requires |m| == 4
    ensures Judge(m, value).Some? <==>
      Climbs(m[0], m[1], value) && Climbs(m[1], m[2], value) && Climbs(m[2], m[3], value)
  {
    hide Judge, Rate, Climbs;
    ClimbsIs(m[0], m[1], value); ClimbsIs(m[1], m[2], value); ClimbsIs(m[2], m[3], value);
    if m[0].at < m[1].at < m[2].at < m[3].at { JudgeRates(m, value); } else { NoOrderNoRate(m, value); }
  }

  lemma NearestIs(pts: seq<Point>, p: Point, x: real)
    requires pts != []
    ensures IsNearest(pts, p, x) <==> p == pts[Nearest(pts, x)]
  {
    hide Gap;
    var n := Nearest(pts, x);
    if IsNearest(pts, p, x) {
      var i :| && 0 <= i < |pts| && pts[i] == p
               && (forall j :: 0 <= j < |pts| ==> Gap(p.at, x) <= Gap(pts[j].at, x))
               && (forall j :: 0 <= j < i ==> Gap(p.at, x) < Gap(pts[j].at, x));
      assert Gap(pts[n].at, x) <= Gap(pts[i].at, x) && Gap(p.at, x) <= Gap(pts[n].at, x);
    }
  }

  /** Exactly when the disk fills fast: at least six points over at least eight minutes, and between the
      ends of the window and the points nearest to its thirds every stretch climbs fast enough. */
  lemma FastFillExactlyWhen(points: seq<Point>, value: real, now: real)
    ensures FastFill(points, value, now).Some? <==>
      var pts := Window(points, value, now);
      var begin := pts[0].at;
      var step := (now - begin) / 3.0;
      && |pts| >= 6 && now - begin >= 480.0
      && exists b, c :: && IsNearest(pts, b, begin + step) && IsNearest(pts, c, begin + 2.0 * step)
                        && Climbs(pts[0], b, value) && Climbs(b, c, value) && Climbs(c, Point(now, value), value)
  {
    hide Climbs, IsNearest, Judge, Recent, Nearest, Gap;
    var pts := Window(points, value, now);
    var begin, step := pts[0].at, (now - pts[0].at) / 3.0;
    var m := Marks(pts);
    JudgeIs(m, value);
    var x, y := begin + step, begin + 2.0 * step;
    forall p ensures IsNearest(pts, p, x) <==> p == m[1] { NearestIs(pts, p, x); }
    forall p ensures IsNearest(pts, p, y) <==> p == m[2] { NearestIs(pts, p, y); }
  }

  /** One jump is not a fast fill: if nothing grew before the current value, there is none. */
  lemma JumpIsNotFast(points: seq<Point>, value: real, now: real, flat: real)
    requires forall p :: p in points && now - 600.0 <= p.at < now - 1.0 ==> p.value == flat
    ensures FastFill(points, value, now).None?
  {
    hide Nearest;
    var pts := Window(points, value, now);
    RecentFacts(points, now, |points|);
    assert forall p :: p in pts ==> p.at <= now && (p.at < now ==> p.value == flat);
    assert |pts| > 1 ==> pts[0] in Recent(points, now, |points|);
    if Enough(pts) { FlatIsNone(Marks(pts), value, now, flat); }
  }

  lemma FlatIsNone(m: seq<Point>, value: real, now: real, flat: real)
    requires |m| == 4 && m[0].value == flat
    requires m[1].at <= now && m[2].at <= now && (m[1].at < now ==> m[1].value == flat)
    ensures Judge(m, value).None?
  {
    if m[0].at < m[1].at < now { ZeroRate(m[0], m[1]); }
  }

  lemma ZeroRate(a: Point, b: Point)
    requires a.at < b.at && a.value == b.value
    ensures Rate(a, b) == 0.0
  {
  }

  /** The source's procedure: collect the window, then the rates of its thirds. */
  method FindFastFill(points: seq<Point>, value: real, now: real) returns (fast: Option<Fast>)
    ensures fast == FastFill(points, value, now)
  {
    hide Marks, Judge;
    var pts := CollectWindow(points, value, now);
    if |pts| < FAST_MIN_POINTS || pts[|pts| - 1].at - pts[0].at < FAST_MIN_SPAN_S { return None; }
    fast := JudgeMarks(Marks(pts), value);
  }

  method CollectWindow(points: seq<Point>, value: real, now: real) returns (pts: seq<Point>)
    ensures pts == Window(points, value, now)
  {
    pts := [];
    for i := 0 to |points|
      invariant pts == Recent(points, now, i)
    {
      var p := points[i];
      if now - FAST_WINDOW_S <= p.at < now - 1.0 { pts := pts + [p]; }
    }
    pts := pts + [Point(now, value)];
  }

  method JudgeMarks(marks: seq<Point>, value: real) returns (fast: Option<Fast>)
    requires |marks| == 4
    ensures fast == Judge(marks, value)
  {
    hide Rate;
    var rates: seq<real> := [];
    for i := 0 to 3
      invariant |rates| == i
      invariant forall k :: 0 <= k < i ==> marks[k].at < marks[k + 1].at && rates[k] == Rate(marks[k], marks[k + 1])
    {
      if marks[i + 1].at <= marks[i].at { return None; }
      rates := rates + [Rate(marks[i], marks[i + 1])];
    }
    var rate := Least3(rates[0], rates[1], rates[2]);
    if rate <= 0.0 { return None; }
    var eta := (100.0 - value) / rate;
    if eta > FAST_ETA_S { return None; }
    return Some(Fast(rate, eta));
  }

  // ---------------------------------------------------------------- one tick

  /** What is remembered between ticks: the announced level, since when the value has been over the
      threshold, since when it has been below the release line. */
  datatype Store = Store(level: nat, since: Option<real>, cool: Option<real>)

  /** `raw` is the level by the thresholds right now, `low` the lowest enabled threshold. */
  datatype Tick = Tick(value: real, raw: nat, low: Option<real>, now: real, fast: bool)

  datatype Out = Out(level: nat, since: Option<real>, cool: Option<real>)

  function Or(x: Option<real>, now: real): real { if x.Some? then x.value else now }

  /** Below the release line. */
  predicate Below(k: Tick) { k.low.Some? && k.value < k.low.value - HYST }

  /** Over the lowest threshold; the caller derives `raw` from the same thresholds. */
  predicate Over(k: Tick) { k.low.Some? && k.value >= k.low.value }

  function Stepped(st: Store, k: Tick): Out {
    if st.level > 0 && k.low.Some? then
      if !Below(k) then Out(if st.level < k.raw then k.raw else st.level, Some(Or(st.since, k.now)), None)
      else
        var started := Or(st.cool, k.now);
        if k.now - started < CALM_S then Out(st.level, st.since, Some(started)) else Out(0, None, Some(started))
    else if k.raw > 0 then
      var begun := Or(st.since, k.now);
      Out(if k.raw >= CRIT || k.fast || k.now - begun >= HOLD_S then k.raw else 0, Some(begun), None)
    else Out(0, None, None)
  }

  /** `step`, branch by branch. */
  method Step(st: Store, value: real, raw: nat, low: Option<real>, now: real, points: seq<Point>)
    returns (level: nat, since: Option<real>, cool: Option<real>, fast: Option<Fast>)
    ensures fast == if raw > 0 then FastFill(points, value, now) else None
    ensures Out(level, since, cool) == Stepped(st, Tick(value, raw, low, now, fast.Some?))
  {
    since, cool, fast, level := None, None, None, 0;
    if raw > 0 { fast := FindFastFill(points, value, now); }
    hide FastFill;
    if st.level > 0 && low.Some? {
      if value >= low.value - HYST {
        level := if st.level < raw then raw else st.level;
        since := if st.since.Some? then st.since else Some(now);
      } else {
        var started := if st.cool.Some? then st.cool.value else now;
        cool := Some(started);
        if now - started < CALM_S { level, since := st.level, st.since; }
      }
    } else if raw > 0 {
      since := if st.since.Some? then st.since else Some(now);
      if raw >= CRIT || fast.Some? || now - since.value >= HOLD_S { level := raw; }
    }
  }

  // ---------------------------------------------------------------- runs

  /** A tick after which the caller did or did not announce the returned level, or a new observation
      epoch, which forgets the release count. */
  datatype Event = Ticked(k: Tick, announced: bool) | Epoch

  predicate Faithful(e: Event) { e.Ticked? ==> (e.k.raw > 0 <==> Over(e.k)) }

  function Next(st: Store, e: Event): Store {
    match e
    case Epoch => st.(cool := None)
    case Ticked(k, announced) =>
      var out := Stepped(st, k);
      Store(if announced then out.level else st.level, out.since, out.cool)
  }

  function After(t: seq<Event>, n: nat): Store
    requires n <= |t|
  {
    if n == 0 then Store(0, None, None) else Next(After(t, n - 1), t[n - 1])
  }

  /** What `step` returned at event `i`. */
  function Returned(t: seq<Event>, i: nat): nat
    requires i < |t| && t[i].Ticked?
  {
    Stepped(After(t, i), t[i].k).level
  }

  /** Where the current stretch of ticks over the threshold began, while nothing was announced. */
  function OverFrom(t: seq<Event>, n: nat): (r: Option<nat>)
    requires n <= |t|
    ensures r.Some? ==> r.value < n && t[r.value].Ticked?
  {
    if n == 0 then None
    else match t[n - 1]
      case Epoch => OverFrom(t, n - 1)
      case Ticked(k, _) =>
        if After(t, n - 1).level > 0 || k.raw == 0 then None
        else if OverFrom(t, n - 1).Some? then OverFrom(t, n - 1) else Some(n - 1)
  }

  /** Where the current stretch of ticks below the release line began, while something was announced. */
  function BelowFrom(t: seq<Event>, n: nat): (r: Option<nat>)
    requires n <= |t|
    ensures r.Some? ==> r.value < n && t[r.value].Ticked?
  {
    if n == 0 then None
    else match t[n - 1]
      case Epoch => None
      case Ticked(k, _) =>
        if After(t, n - 1).level == 0 || !Below(k) then None
        else if BelowFrom(t, n - 1).Some? then BelowFrom(t, n - 1) else Some(n - 1)
  }

  /** Every tick of the stretch satisfies what the stretch is about. */
  lemma {:induction false} StretchFacts(t: seq<Event>, n: nat)
    requires n <= |t|
    ensures OverFrom(t, n).Some? ==>
      forall j :: OverFrom(t, n).value <= j < n ==> (t[j].Ticked? ==> t[j].k.raw > 0 && After(t, j).level == 0)
    ensures BelowFrom(t, n).Some? ==>
      forall j :: BelowFrom(t, n).value <= j < n ==> t[j].Ticked? && Below(t[j].k) && After(t, j).level > 0
  {
    hide After, Below;
    if n > 0 { StretchFacts(t, n - 1); }
  }

  /** The stored times are exactly the beginnings of the current stretches. */
  lemma {:induction false} StoreIsExact(t: seq<Event>, n: nat)
    requires n <= |t| && forall i :: 0 <= i < |t| ==> Faithful(t[i])
    ensures var st := After(t, n);
      && (st.level == 0 ==>
            st.since == match OverFrom(t, n) case None => None case Some(j) => Some(t[j].k.now))
      && (st.level > 0 ==>
            st.cool == match BelowFrom(t, n) case None => None case Some(j) => Some(t[j].k.now))
  {
    if n > 0 {
      StoreIsExact(t, n - 1);
      assert Faithful(t[n - 1]);
    }
  }

  /** Hold: with nothing announced, an alert is returned exactly when the level is critical, the disk
      fills fast, or the current stretch over the threshold began at least half an hour ago. */
  lemma FirstAlert(t: seq<Event>, i: nat)
    requires i < |t| && t[i].Ticked? && After(t, i).level == 0 && forall x :: 0 <= x < |t| ==> Faithful(t[x])
    ensures OverFrom(t, i + 1).Some? <==> t[i].k.raw > 0
    ensures Returned(t, i) ==
      if t[i].k.raw > 0 && (t[i].k.raw >= 3 || t[i].k.fast
                            || t[i].k.now - t[OverFrom(t, i + 1).value].k.now >= 1800.0)
      then t[i].k.raw else 0
  {
    StoreIsExact(t, i);
  }

  /** Every tick from `j` to `i` was over the threshold with nothing announced, for half an hour at least. */
  ghost predicate HeldFrom(t: seq<Event>, j: nat, i: nat)
    requires i < |t| && t[i].Ticked?
  {
    && j <= i && t[j].Ticked? && t[i].k.now - t[j].k.now >= 1800.0
    && forall x :: j <= x <= i && t[x].Ticked? ==>
         t[x].k.low.Some? && t[x].k.value >= t[x].k.low.value && After(t, x).level == 0
  }

  lemma StretchIsHeld(t: seq<Event>, i: nat)
    requires i < |t| && t[i].Ticked? && (forall x :: 0 <= x < |t| ==> Faithful(t[x])) && OverFrom(t, i + 1).Some?
    requires t[i].k.now - t[OverFrom(t, i + 1).value].k.now >= HOLD_S
    ensures HeldFrom(t, OverFrom(t, i + 1).value, i)
  {
    hide After, OverFrom, BelowFrom;
    StretchFacts(t, i + 1);
    var j := OverFrom(t, i + 1).value;
    forall x | j <= x <= i && t[x].Ticked? ensures Over(t[x].k) && After(t, x).level == 0 {
      assert Faithful(t[x]);
    }
  }

  /** A first alert below critical and without fast fill: every tick for at least half an hour was
      over the threshold, and nothing was announced meanwhile. */
  lemma HoldIsSound(t: seq<Event>, i: nat)
    requires i < |t| && t[i].Ticked? && After(t, i).level == 0 && forall x :: 0 <= x < |t| ==> Faithful(t[x])
    requires Returned(t, i) > 0 && t[i].k.raw < CRIT && !t[i].k.fast
    ensures exists j: nat :: HeldFrom(t, j, i)
  {
    hide After, OverFrom, HeldFrom, Returned, Faithful;
    FirstAlert(t, i);
    StretchIsHeld(t, i);
  }

  /** Release: with something announced and a threshold enabled, the returned level is the larger of the
      announced one and that of the thresholds while the value is above the release line, which is three
      points below the lowest threshold; below it, the announced one until the current stretch has lasted
      half an hour, and then zero. */
  lemma ReleaseIsExact(t: seq<Event>, i: nat)
    requires i < |t| && t[i].Ticked? && After(t, i).level > 0 && t[i].k.low.Some?
    requires forall x :: 0 <= x < |t| ==> Faithful(t[x])
    ensures BelowFrom(t, i + 1).Some? <==> t[i].k.value < t[i].k.low.value - 3.0
    ensures Returned(t, i) ==
      if t[i].k.value >= t[i].k.low.value - 3.0 then
        if After(t, i).level < t[i].k.raw then t[i].k.raw else After(t, i).level
      else if t[i].k.now - t[BelowFrom(t, i + 1).value].k.now >= 1800.0 then 0
      else After(t, i).level
  {
    StoreIsExact(t, i);
    assert Faithful(t[i]);
  }

  /** Every tick from `j` to `i` was below the release line, in one epoch, for half an hour at least. */
  ghost predicate CalmFrom(t: seq<Event>, j: nat, i: nat)
    requires i < |t| && t[i].Ticked?
  {
    && j <= i && t[j].Ticked? && t[i].k.now - t[j].k.now >= 1800.0
    && forall x :: j <= x <= i ==> t[x].Ticked? && t[x].k.low.Some? && t[x].k.value < t[x].k.low.value - 3.0
  }

  lemma StretchIsCalm(t: seq<Event>, i: nat)
    requires i < |t| && t[i].Ticked? && BelowFrom(t, i + 1).Some?
    requires t[i].k.now - t[BelowFrom(t, i + 1).value].k.now >= CALM_S
    ensures CalmFrom(t, BelowFrom(t, i + 1).value, i)
  {
    hide After, OverFrom, BelowFrom;
    StretchFacts(t, i + 1);
  }

  /** A return to zero: every tick for at least half an hour was below the release line, in one
      observation epoch. */
  lemma ReleaseIsSound(t: seq<Event>, i: nat)
    requires i < |t| && t[i].Ticked? && After(t, i).level > 0 && t[i].k.low.Some? && Returned(t, i) == 0
    requires forall x :: 0 <= x < |t| ==> Faithful(t[x])
    ensures exists j: nat :: CalmFrom(t, j, i)
  {
    hide After, BelowFrom, CalmFrom, Returned, Faithful;
    ReleaseIsExact(t, i);
    StretchIsCalm(t, i);
  }

  /** The clock does not run backwards. */
  ghost predicate Forward(t: seq<Event>) {
    forall x, y :: 0 <= x <= y < |t| && t[x].Ticked? && t[y].Ticked? ==> t[x].k.now <= t[y].k.now
  }

  /** The stretch that covers a row of such ticks began at its first one or earlier. */
  lemma {:induction false} OverReaches(t: seq<Event>, j: nat, i: nat)
    requires j <= i < |t| && t[j].Ticked? && t[i].Ticked?
    requires forall x :: j <= x <= i && t[x].Ticked? ==> t[x].k.raw > 0 && After(t, x).level == 0
    ensures OverFrom(t, i + 1).Some? && OverFrom(t, i + 1).value <= j
  {
    hide After;
    LastTick(t, j, i + 1);
  }

  lemma {:induction false} LastTick(t: seq<Event>, j: nat, n: nat)
    requires j < n <= |t| && t[j].Ticked?
    requires forall x :: j <= x < n && t[x].Ticked? ==> t[x].k.raw > 0 && After(t, x).level == 0
    ensures OverFrom(t, n).Some? && OverFrom(t, n).value <= j
  {
    hide After;
    if n > j + 1 { LastTick(t, j, n - 1); }
  }

  lemma {:induction false} BelowReaches(t: seq<Event>, j: nat, i: nat)
    requires j <= i < |t|
    requires forall x :: j <= x <= i ==> t[x].Ticked? && Below(t[x].k) && After(t, x).level > 0
    ensures BelowFrom(t, i + 1).Some? && BelowFrom(t, i + 1).value <= j
  {
    hide After, Below;
    if i > j { BelowReaches(t, j, i - 1); }
  }

  /** The alert does come: half an hour over the threshold with nothing announced is enough. */
  lemma HoldIsComplete(t: seq<Event>, j: nat, i: nat)
    requires j <= i < |t| && t[j].Ticked? && t[i].Ticked? && Forward(t) && t[i].k.now - t[j].k.now >= 1800.0
    requires forall x :: 0 <= x < |t| ==> Faithful(t[x])
    requires forall x :: j <= x <= i && t[x].Ticked? ==>
      t[x].k.low.Some? && t[x].k.value >= t[x].k.low.value && After(t, x).level == 0
    ensures Returned(t, i) == t[i].k.raw > 0
  {
    forall x | j <= x <= i && t[x].Ticked? ensures t[x].k.raw > 0 && After(t, x).level == 0 { assert Faithful(t[x]); }
    hide After, OverFrom, Returned, Faithful;
    OverReaches(t, j, i);
    FirstAlert(t, i);
  }

  /** And it does end: half an hour below the release line in one epoch is enough. */
  lemma ReleaseIsComplete(t: seq<Event>, j: nat, i: nat)
    requires j <= i < |t| && Forward(t) && (forall x :: 0 <= x < |t| ==> Faithful(t[x]))
    requires forall x :: j <= x <= i ==>
      t[x].Ticked? && t[x].k.low.Some? && t[x].k.value < t[x].k.low.value - 3.0 && After(t, x).level > 0
    requires t[i].k.now - t[j].k.now >= 1800.0
    ensures Returned(t, i) == 0
  {
    forall x | j <= x <= i ensures Below(t[x].k) { }
    hide After, BelowFrom, Returned, Faithful;
    BelowReaches(t, j, i);
    ReleaseIsExact(t, i);
  }

  /** The announced level is never invented: it is the level of the thresholds at some tick since it was
      last zero. */
  lemma {:induction false} LevelWasSeen(t: seq<Event>, n: nat) returns (j: nat)
    requires n <= |t| && After(t, n).level > 0 && forall x :: 0 <= x < |t| ==> Faithful(t[x])
    ensures j < n && t[j].Ticked? && t[j].announced && t[j].k.raw == After(t, n).level
    ensures forall x :: j < x <= n ==> After(t, x).level > 0
  {
    if After(t, n - 1).level == After(t, n).level {
      j := LevelWasSeen(t, n - 1);
    } else {
      j := n - 1;
      assert Faithful(t[j]);
    }
  }

  /** The remembered level is what the last announced tick returned; unannounced levels leave no trace. */
  lemma {:induction false} LevelIsAnnounced(t: seq<Event>, j: nat, n: nat)
    requires j < n <= |t| && t[j].Ticked? && t[j].announced
    requires forall x :: j < x < n && t[x].Ticked? ==> !t[x].announced
    ensures After(t, n).level == Returned(t, j)
  {
    if n > j + 1 { LevelIsAnnounced(t, j, n - 1); }
  }

  /** With every threshold switched off nothing is alerted. */
  lemma ThresholdsOff(t: seq<Event>, i: nat)
    requires i < |t| && t[i].Ticked? && t[i].k.low.None? && Faithful(t[i])
    ensures Returned(t, i) == 0
  {
  }
}
