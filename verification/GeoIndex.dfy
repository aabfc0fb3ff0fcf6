/** Looking an address up (backend/app/geoip.py): the table is loaded on first use into flat
    arrays, IPv6 starts are split into two 64-bit halves, and answers are cached. */
module GeoIndex {
  import opened GeoBuild

  const HALF: nat := 0x1_0000_0000_0000_0000

  // ---------------------------------------------------------------- searching

  predicate Ordered(a: seq<nat>) { forall i, j :: 0 <= i < j < |a| ==> a[i] <= a[j] }

  /** The last position at or below `x`; -1 if there is none. */
  ghost predicate IsLast(a: seq<nat>, x: nat, r: int) {
    -1 <= r < |a| && (r >= 0 ==> a[r] <= x) && forall j :: r < j < |a| ==> a[j] > x
  }

  /** `bisect_right`: everything in front is at most `x`, everything behind is greater. */
  method BisectRight(a: seq<nat>, x: nat) returns (i: nat)
    requires Ordered(a)
    ensures i <= |a| && (forall j :: 0 <= j < i ==> a[j] <= x) && (forall j :: i <= j < |a| ==> a[j] > x)
  {
    i := 0;
    var hi := |a|;
    while i < hi
      invariant 0 <= i <= hi <= |a|
      invariant forall j :: 0 <= j < i ==> a[j] <= x
      invariant forall j :: hi <= j < |a| ==> a[j] > x
    {
      var mid := (i + hi) / 2;
      if x < a[mid] { hi := mid; } else { i := mid + 1; }
    }
  }

  /** The starts a split table stands for. */
  ghost predicate Split(starts: seq<nat>, hi: seq<nat>, lo: seq<nat>) {
    && |hi| == |lo| == |starts|
    && forall i :: 0 <= i < |starts| ==> lo[i] < HALF && starts[i] == hi[i] * HALF + lo[i]
  }

  /** Bisect the high halves, then walk back over low halves: the same position as one search over
      the whole starts. */
  method SearchSplit(hi: seq<nat>, lo: seq<nat>, n: nat, ghost starts: seq<nat>) returns (i: int)
    requires Split(starts, hi, lo) && Ordered(starts)
    ensures IsLast(starts, n, i)
  {
    var h, l := n / HALF, n % HALF;
    SplitOrdered(starts, hi, lo);
    var p := BisectRight(hi, h);
    i := p - 1;
    forall j | p <= j < |starts| ensures starts[j] > n { HalfLess(h, l, hi[j], lo[j]); }
    while i >= 0 && hi[i] == h && lo[i] > l
      invariant -1 <= i < |starts| && i < p
      invariant forall j :: i < j < |starts| ==> starts[j] > n
    {
      i := i - 1;
    }
    if i >= 0 {
      assert hi[i] <= h;
      if hi[i] < h { HalfLess(hi[i], lo[i], h, l); }
    }
  }

  /** A smaller high half decides. */
  lemma HalfLess(h: nat, l: nat, h': nat, l': nat)
    requires h < h' && l < HALF
    ensures h * HALF + l < h' * HALF + l'
  {
  }

  lemma HalfOrder(h: nat, l: nat, h': nat, l': nat)
    requires h * HALF + l <= h' * HALF + l' && l' < HALF
    ensures h <= h'
  {
  }

  lemma SplitOrdered(starts: seq<nat>, hi: seq<nat>, lo: seq<nat>)
    requires Split(starts, hi, lo) && Ordered(starts)
    ensures Ordered(hi)
  {
    forall i, j | 0 <= i < j < |hi| ensures hi[i] <= hi[j] {
      assert starts[i] <= starts[j];
      HalfOrder(hi[i], lo[i], hi[j], lo[j]);
    }
  }

  // ---------------------------------------------------------------- the file and the arrays

  /** A line of the table file; one that does not split or parse ends the load. */
  datatype Line = Comment | V4(start: nat, cc: string) | V6(start: nat, cc: string) | Broken

  datatype Arrays = Arrays(v4: seq<nat>, v4cc: string, v6hi: seq<nat>, v6lo: seq<nat>, v6cc: string)

  const NO_ARRAYS := Arrays([], "", [], [], "")

  /** The text can be encoded as ASCII. */
  predicate Ascii(s: string): (b: bool)
    ensures b <==> forall i :: 0 <= i < |s| ==> s[i] <= '\U{7F}'
  {
    forall i :: 0 <= i < |s| ==> s[i] as int < 128
  }

  /** The arrays after a line: its start first, then its code. */
  function WithLine(a: Arrays, line: Line): Arrays {
    match line
    case V4(start, cc) => a.(v4 := a.v4 + [start], v4cc := a.v4cc + if Ascii(cc) then cc else "")
    case V6(start, cc) =>
      a.(v6hi := a.v6hi + [start / HALF], v6lo := a.v6lo + [start % HALF],
         v6cc := a.v6cc + if Ascii(cc) then cc else "")
    case _ => a
  }

  /** The load ends at this line. A code that cannot be encoded ends it with the start already stored. */
  predicate Stops(line: Line) { line.Broken? || ((line.V4? || line.V6?) && !Ascii(line.cc)) }

  function LoadFrom(a: Arrays, lines: seq<Line>): Arrays
    decreases |lines|
  {
    if lines == [] then a
    else if Stops(lines[0]) then WithLine(a, lines[0])
    else LoadFrom(WithLine(a, lines[0]), lines[1..])
  }

  function Loaded(lines: seq<Line>): Arrays { LoadFrom(NO_ARRAYS, lines) }

  /** Python's `codes[2i : 2i + 2]`: shorter or empty where the codes end. */
  function Slice(codes: string, i: nat): string {
    if |codes| <= 2 * i then "" else codes[2 * i..if |codes| < 2 * i + 2 then |codes| else 2 * i + 2]
  }

  /** The tables that a search of the arrays sees, whatever file they came from. */
  function FourTable(a: Arrays): (es: seq<Entry>)
    ensures |es| == |a.v4| && forall i :: 0 <= i < |es| ==> es[i] == Entry(a.v4[i], Slice(a.v4cc, i))
  {
    seq(|a.v4|, i requires 0 <= i < |a.v4| => Entry(a.v4[i], Slice(a.v4cc, i)))
  }

  function SixTable(a: Arrays): (es: seq<Entry>)
    requires |a.v6hi| == |a.v6lo|
    ensures |es| == |a.v6hi|
    ensures forall i :: 0 <= i < |es| ==> es[i] == Entry(a.v6hi[i] * HALF + a.v6lo[i], Slice(a.v6cc, i))
  {
    seq(|a.v6hi|, i requires 0 <= i < |a.v6hi| => Entry(a.v6hi[i] * HALF + a.v6lo[i], Slice(a.v6cc, i)))
  }

  /** Both halves of each IPv6 start are there. */
  predicate Paired(a: Arrays) { |a.v6hi| == |a.v6lo| && forall i :: 0 <= i < |a.v6lo| ==> a.v6lo[i] < HALF }

  lemma {:induction false} LoadIsPaired(a: Arrays, lines: seq<Line>)
    requires Paired(a)
    ensures Paired(LoadFrom(a, lines))
    decreases |lines|
  {
    if lines != [] && !Stops(lines[0]) { LoadIsPaired(WithLine(a, lines[0]), lines[1..]); }
  }

  /** The loop of `_load`: line by line, up to the first that fails. */
  method ReadLines(lines: seq<Line>) returns (a: Arrays)
    ensures a == Loaded(lines)
  {
    a := NO_ARRAYS;
    assert lines[0..] == lines;
    for i := 0 to |lines|
      invariant LoadFrom(a, lines[i..]) == Loaded(lines)
    {
      assert lines[i..][0] == lines[i] && lines[i..][1..] == lines[i + 1..];
      match lines[i] {
        case Comment =>
        case Broken => return;
        case V4(start, cc) =>
          a := a.(v4 := a.v4 + [start]);
          if !Ascii(cc) {
            assert a.v4cc + "" == a.v4cc;
            return;
          }
          a := a.(v4cc := a.v4cc + cc);
        case V6(start, cc) =>
          a := a.(v6hi := a.v6hi + [start / HALF], v6lo := a.v6lo + [start % HALF]);
          if !Ascii(cc) {
            assert a.v6cc + "" == a.v6cc;
            return;
          }
          a := a.(v6cc := a.v6cc + cc);
      }
    }
  }

  function Starts(es: seq<Entry>): (r: seq<nat>)
    ensures |r| == |es| && forall i :: 0 <= i < |es| ==> r[i] == es[i].start
  {
    seq(|es|, i requires 0 <= i < |es| => es[i].start)
  }

  /** The starts in the file are in order; nothing is asked of the codes. */
  ghost predicate InOrder(lines: seq<Line>) {
    var a := Loaded(lines);
    Paired(a) && Ordered(Starts(FourTable(a))) && Ordered(Starts(SixTable(a)))
  }

  /** What the text of an address turns out to be; `Special` is private, loopback, link-local or reserved. */
  datatype Address = NotAnAddress | Special | Four(n: nat) | Six(n: nat)

  /** The answer without any cache: the entry at or below the address. */
  ghost function Plain(lines: seq<Line>, parse: string -> Address, ip: string): string
    requires Paired(Loaded(lines))
  {
    if ip == "" then ""
    else match parse(ip)
      case Four(n) => Country(FourTable(Loaded(lines)), n)
      case Six(n) => Country(SixTable(Loaded(lines)), n)
      case _ => ""
  }

  lemma {:induction false} IndexIsLast(es: seq<Entry>, n: nat, r: int)
    requires Ordered(Starts(es)) && IsLast(Starts(es), n, r)
    ensures Index(es, n) == r
  {
    if es != [] {
      var init := es[..|es| - 1];
      assert Starts(es)[|es| - 1] == es[|es| - 1].start;
      if es[|es| - 1].start > n {
        assert Starts(init) == Starts(es)[..|es| - 1];
        IndexIsLast(init, n, r);
      } else {
        assert r == |es| - 1;
      }
    }
  }

  // ---------------------------------------------------------------- reading the arrays

  /** `_cc_at` */
  function CodeAt(codes: string, i: nat): string {
    if Slice(codes, i) == UNKNOWN then "" else Slice(codes, i)
  }

  method SearchFour(a: Arrays, n: nat) returns (country: string)
    requires Ordered(Starts(FourTable(a)))
    ensures country == Country(FourTable(a), n)
  {
    assert Starts(FourTable(a)) == a.v4;
    var p := BisectRight(a.v4, n);
    var i: int := p as int - 1;
    IndexIsLast(FourTable(a), n, i);
    country := "";
    if i >= 0 { country := CodeAt(a.v4cc, i); }
  }

  method SearchSix(a: Arrays, n: nat) returns (country: string)
    requires Paired(a) && Ordered(Starts(SixTable(a)))
    ensures country == Country(SixTable(a), n)
  {
    var i := SearchSplit(a.v6hi, a.v6lo, n, Starts(SixTable(a)));
    IndexIsLast(SixTable(a), n, i);
    country := "";
    if i >= 0 { country := CodeAt(a.v6cc, i); }
  }

  // ---------------------------------------------------------------- the module state

  /** The module's globals: the arrays, filled on first use, and the cache of answers. */
  class GeoDatabase {
    const lines: seq<Line>
    const parse: string -> Address
    var loaded: bool
    var arrays: Arrays
    var cache: map<string, string>

    ghost predicate Valid()
      reads this
    {
      && InOrder(lines) && (loaded ==> arrays == Loaded(lines))
      && forall ip :: ip in cache ==> cache[ip] == Plain(lines, parse, ip)
    }

    constructor (lines: seq<Line>, parse: string -> Address)
      requires InOrder(lines)
      ensures Valid() && this.lines == lines && this.parse == parse
    {
      this.lines, this.parse := lines, parse;
      loaded, arrays, cache := false, NO_ARRAYS, map[];
    }

    /** `_load`: only once. */
    method Load()
      requires Valid()
      modifies this`loaded, this`arrays
      ensures Valid() && loaded
    {
      if loaded { return; }
      loaded := true;
      arrays := ReadLines(lines);
    }

    /** `country_of`: in any order of calls the answer is the one without a cache. */
    method CountryOf(ip: string) returns (country: string)
      requires Valid()
      modifies this
      ensures Valid() && country == Plain(lines, parse, ip)
    {
      hide Loaded, FourTable, SixTable, Country, Starts, Ordered, Paired;
      if ip == "" { return ""; }
      if ip in cache { return cache[ip]; }
      var address := parse(ip);
      if address.NotAnAddress? { return ""; }
      if address.Special? {
        cache := cache[ip := ""];
        return "";
      }
      Load();
      match address {
        case Four(n) => country := SearchFour(arrays, n);
        case Six(n) => country := SearchSix(arrays, n);
      }
      cache := cache[ip := country];
    }
  }

  // ---------------------------------------------------------------- from ranges to answers

  /** The file the builder writes: first the IPv4 table, then the IPv6 table. */
  function Written(four: seq<Entry>, six: seq<Entry>): seq<Line> {
    seq(|four| + |six|, i requires 0 <= i < |four| + |six| =>
      if i < |four| then V4(four[i].start, four[i].cc) else V6(six[i - |four|].start, six[i - |four|].cc))
  }

  /** The arrays hold exactly these tables, with codes of two letters. */
  ghost predicate Holds(a: Arrays, four: seq<Entry>, six: seq<Entry>) {
    && Paired(a) && FourTable(a) == four && SixTable(a) == six
    && |a.v4cc| == 2 * |four| && |a.v6cc| == 2 * |six|
  }

  predicate TwoLetters(cc: string) { |cc| == 2 && Ascii(cc) }

  lemma SliceGrows(codes: string, cc: string, n: nat)
    requires |codes| == 2 * n && |cc| == 2
    ensures forall i: nat :: i < n ==> Slice(codes + cc, i) == Slice(codes, i)
    ensures Slice(codes + cc, n) == cc
  {
    forall i: nat | i < n ensures Slice(codes + cc, i) == Slice(codes, i) {
      assert (codes + cc)[2 * i..2 * i + 2] == codes[2 * i..2 * i + 2];
    }
  }

  lemma FourGrows(a: Arrays, four: seq<Entry>, six: seq<Entry>, e: Entry)
    requires Holds(a, four, six) && TwoLetters(e.cc)
    ensures Holds(WithLine(a, V4(e.start, e.cc)), four + [e], six)
  {
    hide Slice;
    SliceGrows(a.v4cc, e.cc, |four|);
    var after := WithLine(a, V4(e.start, e.cc));
    assert FourTable(after) == four + [e];
    assert SixTable(after) == six;
  }

  lemma SixGrows(a: Arrays, four: seq<Entry>, six: seq<Entry>, e: Entry)
    requires Holds(a, four, six) && TwoLetters(e.cc)
    ensures Holds(WithLine(a, V6(e.start, e.cc)), four, six + [e])
  {
    hide Slice;
    SliceGrows(a.v6cc, e.cc, |six|);
    var after := WithLine(a, V6(e.start, e.cc));
    assert after.v6hi[|six|] * HALF + after.v6lo[|six|] == e.start;
    assert SixTable(after) == six + [e];
    assert FourTable(after) == four;
  }

  lemma {:induction false} LoadWritten(a: Arrays, done4: seq<Entry>, done6: seq<Entry>, four: seq<Entry>,
                                       six: seq<Entry>)
    requires Holds(a, done4, done6) && TwoLetterEntries(four) && TwoLetterEntries(six)
    ensures Holds(LoadFrom(a, Written(four, six)), done4 + four, done6 + six)
    decreases |four| + |six|
  {
    hide Holds;
    var w := Written(four, six);
    if four != [] {
      assert w[0] == V4(four[0].start, four[0].cc) && w[1..] == Written(four[1..], six);
      FourGrows(a, done4, done6, four[0]);
      LoadWritten(WithLine(a, w[0]), done4 + [four[0]], done6, four[1..], six);
      assert done4 + [four[0]] + four[1..] == done4 + four;
    } else if six != [] {
      assert w[0] == V6(six[0].start, six[0].cc) && w[1..] == Written([], six[1..]);
      SixGrows(a, done4, done6, six[0]);
      LoadWritten(WithLine(a, w[0]), done4, done6 + [six[0]], [], six[1..]);
      assert done6 + [six[0]] + six[1..] == done6 + six && done4 + [] == done4;
    } else {
      assert w == [] && done4 + [] == done4 && done6 + [] == done6;
    }
  }

  /** Round trip: tables with codes of two letters, written to a file, are what a search of the loaded
      arrays sees. */
  lemma WrittenReadsBack(four: seq<Entry>, six: seq<Entry>)
    requires TwoLetterEntries(four) && TwoLetterEntries(six)
    ensures var a := Loaded(Written(four, six)); Paired(a) && FourTable(a) == four && SixTable(a) == six
  {
    assert Holds(NO_ARRAYS, [], []);
    LoadWritten(NO_ARRAYS, [], [], four, six);
    assert [] + four == four && [] + six == six;
  }

  /** A code that cannot be encoded leaves a start without a code: addresses from it on have no country. */
  lemma OddCodeAnswersNothing(four: seq<Entry>, start: nat, cc: string, rest: seq<Line>, n: nat)
    requires TwoLetterEntries(four) && !Ascii(cc) && start <= n
    ensures var lines := Written(four, []) + [V4(start, cc)] + rest;
      FourTable(Loaded(lines)) == four + [Entry(start, "")] && Country(FourTable(Loaded(lines)), n) == ""
  {
    var tail := [V4(start, cc)] + rest;
    assert Written(four, []) + [V4(start, cc)] + rest == Written(four, []) + tail;
    assert Holds(NO_ARRAYS, [], []);
    var a := LoadPrefix(NO_ARRAYS, [], four, tail);
    assert [] + four == four;
    assert tail[0] == V4(start, cc);
    var after := WithLine(a, tail[0]);
    assert after.v4cc == a.v4cc + "" == a.v4cc;
    assert FourTable(after) == four + [Entry(start, "")];
    CodeAppend(four, Entry(start, ""), n);
  }

  lemma {:induction false} LoadPrefix(a: Arrays, done: seq<Entry>, four: seq<Entry>, tail: seq<Line>)
    returns (b: Arrays)
    requires Holds(a, done, []) && TwoLetterEntries(four)
    ensures Holds(b, done + four, []) && LoadFrom(a, Written(four, []) + tail) == LoadFrom(b, tail)
    decreases |four|
  {
    hide Holds;
    var w := Written(four, []) + tail;
    if four == [] {
      assert w == tail && done + [] == done;
      b := a;
    } else {
      assert w[0] == V4(four[0].start, four[0].cc) && w[1..] == Written(four[1..], []) + tail;
      FourGrows(a, done, [], four[0]);
      b := LoadPrefix(WithLine(a, w[0]), done + [four[0]], four[1..], tail);
      assert done + [four[0]] + four[1..] == done + four;
    }
  }

  predicate TwoLetterRows(rows: seq<Range>) { forall i :: 0 <= i < |rows| ==> TwoLetters(rows[i].cc) }
  predicate TwoLetterEntries(es: seq<Entry>) { forall i :: 0 <= i < |es| ==> TwoLetters(es[i].cc) }

  lemma {:induction false} GlueLetters(rows: seq<Range>)
    requires TwoLetterRows(rows)
    ensures TwoLetterRows(Glue(rows))
  {
    if rows != [] { GlueLetters(rows[..|rows| - 1]); }
  }

  lemma {:induction false} FillLetters(rows: seq<Range>)
    requires TwoLetterRows(rows)
    ensures TwoLetterEntries(Fill(rows))
  {
    if rows != [] { FillLetters(rows[..|rows| - 1]); }
  }

  lemma {:induction false} DedupLetters(es: seq<Entry>)
    requires TwoLetterEntries(es)
    ensures TwoLetterEntries(Dedup(es))
  {
    if es != [] { DedupLetters(es[..|es| - 1]); }
  }

  /** What the builder produces is a table the lookup may search, whether the ranges overlap or not. */
  lemma BuiltTableIsGood(rows: seq<Range>, space: nat)
    requires ValidRanges(rows) && TwoLetterRows(rows)
    ensures Ordered(Starts(Solid(Merged(rows), space))) && TwoLetterEntries(Solid(Merged(rows), space))
  {
    hide Glue, Fill, Dedup, SortRows, TwoLetters;
    var m := Merged(rows);
    var es := Fill(m) + Tail(m, space);
    MergedKeeps(rows);
    WholeShape(m, space);
    DedupRises(es);
    SortRowsSorts(rows);
    var sorted := SortRows(rows);
    forall i | 0 <= i < |sorted| ensures TwoLetters(sorted[i].cc) {
      assert sorted[i] in multiset(sorted);
      assert sorted[i] in rows;
    }
    GlueLetters(sorted);
    FillLetters(m);
    TailLetters();
    DedupLetters(es);
  }

  lemma TailLetters()
    ensures TwoLetters(UNKNOWN)
  {
  }

  /** In the specification: for every IPv4 and IPv6 address the uncached answer is that of a scan. */
  lemma LookupIsScan(rows4: seq<Range>, rows6: seq<Range>, parse: string -> Address, ip: string)
    requires ValidRanges(rows4) && Consistent(rows4) && TwoLetterRows(rows4)
    requires ValidRanges(rows6) && Consistent(rows6) && TwoLetterRows(rows6)
    ensures var lines := Written(Solid(Merged(rows4), SPACE4), Solid(Merged(rows6), SPACE6));
      InOrder(lines) && ScanOf(rows4, rows6, parse, ip, Plain(lines, parse, ip))
  {
    hide Solid, Merged, Country, Loaded, Ordered, Starts, TwoLetterEntries, TwoLetterRows, Consistent, Names, ScanSays;
    var four, six := Solid(Merged(rows4), SPACE4), Solid(Merged(rows6), SPACE6);
    BuiltTableIsGood(rows4, SPACE4);
    BuiltTableIsGood(rows6, SPACE6);
    WrittenReadsBack(four, six);
    match parse(ip)
    case Four(n) => if n < SPACE4 { ScanOne(rows4, SPACE4, n); }
    case Six(n) => if n < SPACE6 { ScanOne(rows6, SPACE6, n); }
    case _ =>
  }

  lemma ScanOne(rows: seq<Range>, space: nat, n: nat)
    requires ValidRanges(rows) && Consistent(rows) && n < space
    ensures ScanSays(rows, n, Country(Solid(Merged(rows), space), n))
  {
    hide Solid, Merged, Country;
    CountryIsRight(rows, space, n);
  }

  const SPACE4: nat := 0x1_0000_0000
  const SPACE6: nat := HALF * HALF

  /** The answer to an address is that of a linear scan of the ranges of its family. */
  ghost predicate ScanOf(rows4: seq<Range>, rows6: seq<Range>, parse: string -> Address, ip: string, answer: string) {
    if ip == "" then answer == ""
    else match parse(ip)
      case Four(n) => n < SPACE4 ==> ScanSays(rows4, n, answer)
      case Six(n) => n < SPACE6 ==> ScanSays(rows6, n, answer)
      case _ => answer == ""
  }

  /** End to end: merge and solidify the ranges, write the file, load it, and look up any sequence of
      addresses through the arrays and the cache; every answer is that of a scan of the ranges. */
  method BuildAndLookUp(rows4: seq<Range>, rows6: seq<Range>, parse: string -> Address, ips: seq<string>)
    returns (answers: seq<string>)
    requires ValidRanges(rows4) && Consistent(rows4) && TwoLetterRows(rows4)
    requires ValidRanges(rows6) && Consistent(rows6) && TwoLetterRows(rows6)
    ensures |answers| == |ips| && forall i :: 0 <= i < |ips| ==> ScanOf(rows4, rows6, parse, ips[i], answers[i])
  {
    hide Solid, Merged, Loaded, InOrder, ScanOf, Plain, Consistent, TwoLetterRows, ValidRanges, Written;
    var merged4 := Merge(rows4);
    var merged6 := Merge(rows6);
    var four := Solidify(merged4, SPACE4);
    var six := Solidify(merged6, SPACE6);
    var lines := Written(four, six);
    LookupIsScan(rows4, rows6, parse, "");
    var db := new GeoDatabase(lines, parse);
    answers := [];
    for i := 0 to |ips|
      invariant db.Valid() && db.lines == lines && db.parse == parse && fresh(db)
      invariant |answers| == i && forall j :: 0 <= j < i ==> ScanOf(rows4, rows6, parse, ips[j], answers[j])
    {
      var country := db.CountryOf(ips[i]);
      LookupIsScan(rows4, rows6, parse, ips[i]);
      answers := answers + [country];
    }
  }

  /** A linear scan of the ranges agrees with the answer. */
  ghost predicate ScanSays(rows: seq<Range>, n: nat, answer: string) {
    && (forall i :: 0 <= i < |rows| && In(rows[i], n) ==> answer == if rows[i].cc == UNKNOWN then "" else rows[i].cc)
    && ((forall i :: 0 <= i < |rows| ==> !In(rows[i], n)) ==> answer == "")
  }
}
