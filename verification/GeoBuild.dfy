/** Building the offline country table (`merge` and `solidify` in ops/build-geoip.py): ranges are
    sorted, glued, made gap-free and stored by their start only. */
module GeoBuild {

  datatype Range = Range(start: nat, end: nat, cc: string)
  datatype Entry = Entry(start: nat, cc: string)

  const UNKNOWN := "ZZ"

  // ---------------------------------------------------------------- sorting rows

  /** Python's order on strings. */
  predicate LeqText(a: string, b: string) {
    a == "" || (b != "" && (a[0] < b[0] || (a[0] == b[0] && LeqText(a[1..], b[1..]))))
  }

  /** Python's order on (start, end, country) tuples. */
  predicate Leq(a: Range, b: Range) {
    a.start < b.start || (a.start == b.start && (a.end < b.end || (a.end == b.end && LeqText(a.cc, b.cc))))
  }

  predicate SortedRows(rows: seq<Range>) { forall i, j :: 0 <= i < j < |rows| ==> Leq(rows[i], rows[j]) }

  lemma {:induction false} LeqTextTotal(a: string, b: string)
    ensures LeqText(a, b) || LeqText(b, a)
  {
    if a != "" && b != "" && a[0] == b[0] { LeqTextTotal(a[1..], b[1..]); }
  }

  lemma {:induction false} LeqTextTransitive(a: string, b: string, c: string)
    requires LeqText(a, b) && LeqText(b, c)
    ensures LeqText(a, c)
  {
    if a != "" && a[0] == b[0] && b[0] == c[0] { LeqTextTransitive(a[1..], b[1..], c[1..]); }
  }

  lemma LeqTransitive(a: Range, b: Range, c: Range)
    requires Leq(a, b) && Leq(b, c)
    ensures Leq(a, c)
  {
    if a.start == c.start && a.end == c.end && b.start == a.start && b.end == a.end {
      LeqTextTransitive(a.cc, b.cc, c.cc);
    }
  }

  function Insert(r: Range, rows: seq<Range>): seq<Range> {
    if rows == [] || Leq(rows[|rows| - 1], r) then rows + [r]
    else Insert(r, rows[..|rows| - 1]) + [rows[|rows| - 1]]
  }

  function SortRows(rows: seq<Range>): seq<Range> {
    if rows == [] then [] else Insert(rows[|rows| - 1], SortRows(rows[..|rows| - 1]))
  }

  lemma {:induction false} InsertSorts(r: Range, rows: seq<Range>)
    requires SortedRows(rows)
    ensures SortedRows(Insert(r, rows)) && multiset(Insert(r, rows)) == multiset(rows) + multiset{r}
  {
    if rows == [] {
    } else {
      var init, last := rows[..|rows| - 1], rows[|rows| - 1];
      assert rows == init + [last];
      LeqTextTotal(last.cc, r.cc);
      if Leq(last, r) {
        forall i | 0 <= i < |rows| ensures Leq(rows[i], r) {
          if i < |rows| - 1 { LeqTransitive(rows[i], last, r); }
        }
      } else {
        InsertSorts(r, init);
        var out := Insert(r, init);
        forall i | 0 <= i < |out| ensures Leq(out[i], last) {
          assert out[i] in multiset(out);
          if out[i] != r { assert out[i] in init; }
        }
      }
    }
  }

  /** The sort is a permutation in order. */
  lemma {:induction false} SortRowsSorts(rows: seq<Range>)
    ensures SortedRows(SortRows(rows)) && multiset(SortRows(rows)) == multiset(rows)
  {
    if rows != [] {
      var init, last := rows[..|rows| - 1], rows[|rows| - 1];
      assert rows == init + [last];
      SortRowsSorts(init);
      InsertSorts(last, SortRows(init));
    }
  }

  // ---------------------------------------------------------------- merge

  /** One turn of the loop in `merge`: grow the last range or start a new one. */
  function Absorb(out: seq<Range>, r: Range): seq<Range> {
    if out != [] && out[|out| - 1].cc == r.cc && r.start <= out[|out| - 1].end + 1 then
      if r.end > out[|out| - 1].end then out[..|out| - 1] + [Range(out[|out| - 1].start, r.end, r.cc)] else out
    else out + [r]
  }

  function Glue(rows: seq<Range>): seq<Range> {
    if rows == [] then [] else Absorb(Glue(rows[..|rows| - 1]), rows[|rows| - 1])
  }

  function Merged(rows: seq<Range>): seq<Range> { Glue(SortRows(rows)) }

  method Merge(rows: seq<Range>) returns (out: seq<Range>)
    ensures out == Merged(rows)
  {
    var sorted := SortRows(rows);
    out := [];
    for i := 0 to |sorted|
      invariant out == Glue(sorted[..i])
    {
      assert sorted[..i + 1][..i] == sorted[..i];
      var r := sorted[i];
      if out != [] && out[|out| - 1].cc == r.cc && r.start <= out[|out| - 1].end + 1 {
        if r.end > out[|out| - 1].end {
          out := out[..|out| - 1] + [Range(out[|out| - 1].start, r.end, r.cc)];
        }
      } else {
        out := out + [r];
      }
    }
    assert sorted[..|sorted|] == sorted;
  }

  // ---------------------------------------------------------------- solidify

  /** The next free address behind the last range. */
  function Pos(rows: seq<Range>): nat { if rows == [] then 0 else rows[|rows| - 1].end + 1 }

  /** Starts of the ranges, with an unknown entry in front of every gap. */
  function Fill(rows: seq<Range>): seq<Entry> {
    if rows == [] then []
    else
      var init, r := rows[..|rows| - 1], rows[|rows| - 1];
      Fill(init) + (if r.start > Pos(init) then [Entry(Pos(init), UNKNOWN)] else []) + [Entry(r.start, r.cc)]
  }

  function Tail(rows: seq<Range>, space: nat): seq<Entry> {
    if Pos(rows) < space then [Entry(Pos(rows), UNKNOWN)] else []
  }

  /** Neighbours of one country collapse into the first. */
  function Dedup(es: seq<Entry>): seq<Entry> {
    if es == [] then []
    else
      var d, e := Dedup(es[..|es| - 1]), es[|es| - 1];
      if d != [] && d[|d| - 1].cc == e.cc then d else d + [e]
  }

  function Solid(rows: seq<Range>, space: nat): seq<Entry> { Dedup(Fill(rows) + Tail(rows, space)) }

  method Solidify(rows: seq<Range>, space: nat) returns (table: seq<Entry>)
    ensures table == Solid(rows, space)
  {
    var out: seq<Entry>, pos: nat := [], 0;
    for i := 0 to |rows|
      invariant out == Fill(rows[..i]) && pos == Pos(rows[..i])
    {
      assert rows[..i + 1][..i] == rows[..i];
      if rows[i].start > pos { out := out + [Entry(pos, UNKNOWN)]; }
      out := out + [Entry(rows[i].start, rows[i].cc)];
      pos := rows[i].end + 1;
    }
    assert rows[..|rows|] == rows;
    if pos < space { out := out + [Entry(pos, UNKNOWN)]; }
    assert out == Fill(rows) + Tail(rows, space);
    table := Collapse(out);
  }

  method Collapse(out: seq<Entry>) returns (table: seq<Entry>)
    ensures table == Dedup(out)
  {
    table := [];
    for i := 0 to |out|
      invariant table == Dedup(out[..i])
    {
      assert out[..i + 1][..i] == out[..i];
      if table != [] && table[|table| - 1].cc == out[i].cc { continue; }
      table := table + [out[i]];
    }
    assert out[..|out|] == out;
  }

  // ---------------------------------------------------------------- meaning

  predicate In(r: Range, n: nat) { r.start <= n <= r.end }

  /** Some range of country `cc` contains the address. */
  predicate Covers(rows: seq<Range>, n: nat, cc: string) {
    exists i :: 0 <= i < |rows| && In(rows[i], n) && rows[i].cc == cc
  }

  predicate ValidRanges(rows: seq<Range>) { forall i :: 0 <= i < |rows| ==> rows[i].start <= rows[i].end }

  /** Overlapping ranges carry the same country. */
  ghost predicate Consistent(rows: seq<Range>) {
    forall i, j, n: nat :: 0 <= i < |rows| && 0 <= j < |rows| && In(rows[i], n) && In(rows[j], n) ==>
      rows[i].cc == rows[j].cc
  }

  predicate Apart(rows: seq<Range>) { forall i, j :: 0 <= i < j < |rows| ==> rows[i].end < rows[j].start }

  predicate Increasing(es: seq<Entry>) { forall i, j :: 0 <= i < j < |es| ==> es[i].start < es[j].start }

  /** The last entry at or below the address: -1 if there is none. */
  function Index(es: seq<Entry>, n: nat): (r: int)
    ensures -1 <= r < |es|
  {
    if es == [] then -1 else if es[|es| - 1].start <= n then |es| - 1 else Index(es[..|es| - 1], n)
  }

  function Code(es: seq<Entry>, n: nat): string { if Index(es, n) < 0 then "" else es[Index(es, n)].cc }

  /** What the table answers; an unknown country reads as empty. */
  function Country(es: seq<Entry>, n: nat): string { if Code(es, n) == UNKNOWN then "" else Code(es, n) }

  lemma CodeAppend(es: seq<Entry>, e: Entry, n: nat)
    ensures Code(es + [e], n) == if e.start <= n then e.cc else Code(es, n)
  {
    assert (es + [e])[..|es|] == es;
  }

  // ---------------------------------------------------------------- merging keeps the meaning

  lemma CoversAppend(rows: seq<Range>, r: Range, n: nat, cc: string)
    ensures Covers(rows + [r], n, cc) <==> Covers(rows, n, cc) || (In(r, n) && r.cc == cc)
  {
    assert forall i :: 0 <= i < |rows| ==> (rows + [r])[i] == rows[i];
    assert (rows + [r])[|rows|] == r;
  }

  predicate ByStart(rows: seq<Range>) { forall i, j :: 0 <= i < j < |rows| ==> rows[i].start <= rows[j].start }

  /** Glued ranges keep the order and cover exactly what the rows cover, country by country. */
  ghost predicate Glued(rows: seq<Range>, out: seq<Range>) {
    && ValidRanges(out) && ByStart(out)
    && (forall n, cc :: Covers(out, n, cc) <==> Covers(rows, n, cc))
    && (out != [] ==> rows != [] && out[|out| - 1].start <= rows[|rows| - 1].start)
  }

  lemma AbsorbKeeps(rows: seq<Range>, out: seq<Range>, r: Range)
    requires Glued(rows, out) && SortedRows(rows + [r]) && r.start <= r.end
    ensures Glued(rows + [r], Absorb(out, r))
  {
    hide Covers;
    var all := rows + [r];
    assert all[|rows|] == r && forall i :: 0 <= i < |rows| ==> all[i] == rows[i];
    if out != [] && out[|out| - 1].cc == r.cc && r.start <= out[|out| - 1].end + 1 {
      GrowKeeps(rows, out, r);
    } else {
      assert out != [] ==> out[|out| - 1].start <= r.start;
      forall n, cc ensures Covers(out + [r], n, cc) <==> Covers(rows + [r], n, cc) {
        CoversAppend(rows, r, n, cc); CoversAppend(out, r, n, cc);
      }
    }
  }

  lemma GrowKeeps(rows: seq<Range>, out: seq<Range>, r: Range)
    requires Glued(rows, out) && out != [] && rows[|rows| - 1].start <= r.start <= r.end
    requires out[|out| - 1].cc == r.cc && r.start <= out[|out| - 1].end + 1
    ensures Glued(rows + [r], Absorb(out, r))
  {
    var init, last := out[..|out| - 1], out[|out| - 1];
    var grown := if r.end > last.end then Range(last.start, r.end, r.cc) else last;
    assert out == init + [last] && Absorb(out, r) == init + [grown];
    forall n, cc ensures Covers(init + [grown], n, cc) <==> Covers(rows + [r], n, cc) {
      CoversAppend(rows, r, n, cc); CoversAppend(init, last, n, cc); CoversAppend(init, grown, n, cc);
    }
  }

  lemma {:induction false} GlueKeeps(rows: seq<Range>)
    requires SortedRows(rows) && ValidRanges(rows)
    ensures Glued(rows, Glue(rows))
  {
    if rows == [] {
    } else {
      var init, r := rows[..|rows| - 1], rows[|rows| - 1];
      assert rows == init + [r];
      GlueKeeps(init);
      AbsorbKeeps(init, Glue(init), r);
    }
  }

  /** Of consistent rows the next one that is not glued on lies behind everything so far. */
  lemma NextIsBehind(rows: seq<Range>, out: seq<Range>, r: Range)
    requires Glued(rows, out) && out != [] && SortedRows(rows + [r]) && Consistent(rows + [r]) && r.start <= r.end
    requires !(out[|out| - 1].cc == r.cc && r.start <= out[|out| - 1].end + 1)
    ensures out[|out| - 1].end < r.start
  {
    var last, all := out[|out| - 1], rows + [r];
    if last.cc != r.cc {
      assert In(last, last.end);
      assert Covers(out, last.end, last.cc);
      assert Covers(rows, last.end, last.cc);
      var i :| 0 <= i < |rows| && In(rows[i], last.end) && rows[i].cc == last.cc;
      assert all[i] == rows[i] && all[|rows|] == r && Leq(all[i], all[|rows|]);
      assert In(rows[i], r.start) ==> In(r, r.start);
    }
  }

  lemma ApartGrows(out: seq<Range>, r: Range)
    requires Apart(out) && (out != [] ==> out[|out| - 1].start <= out[|out| - 1].end)
    requires || out == [] || out[|out| - 1].end < r.start
             || (out[|out| - 1].cc == r.cc && r.start <= out[|out| - 1].end + 1)
    ensures Apart(Absorb(out, r))
  {
    var next := Absorb(out, r);
    forall i, j | 0 <= i < j < |next| ensures next[i].end < next[j].start {
      if j < |out| { assert out[i].end < out[j].start; }
      else if i < |out| - 1 { assert out[i].end < out[|out| - 1].start; }
    }
  }

  lemma PrefixKeeps(rows: seq<Range>, n: nat)
    requires n <= |rows| && SortedRows(rows) && ValidRanges(rows) && Consistent(rows)
    ensures SortedRows(rows[..n]) && ValidRanges(rows[..n]) && Consistent(rows[..n])
  {
  }

  lemma {:induction false} GlueParts(rows: seq<Range>)
    requires SortedRows(rows) && ValidRanges(rows) && Consistent(rows)
    ensures Apart(Glue(rows))
  {
    if rows != [] {
      hide SortedRows, Consistent, Covers, Apart, Absorb;
      var init, r := rows[..|rows| - 1], rows[|rows| - 1];
      assert rows == init + [r];
      PrefixKeeps(rows, |rows| - 1);
      GlueParts(init);
      GlueKeeps(init);
      var out := Glue(init);
      if out != [] && !(out[|out| - 1].cc == r.cc && r.start <= out[|out| - 1].end + 1) { NextIsBehind(init, out, r); }
      ApartGrows(out, r);
    }
  }

  // ---------------------------------------------------------------- what the filled list answers

  /** The last range that starts at or below the address: -1 if there is none. */
  function Last(rows: seq<Range>, n: nat): (i: int)
    ensures -1 <= i < |rows| && (i >= 0 ==> rows[i].start <= n)
  {
    if rows == [] then -1
    else if rows[|rows| - 1].start <= n then |rows| - 1 else Last(rows[..|rows| - 1], n)
  }

  lemma {:induction false} LastIs(rows: seq<Range>, n: nat, j: nat)
    requires ByStart(rows) && j < |rows|
    ensures rows[j].start <= n <==> j <= Last(rows, n)
  {
    var init := rows[..|rows| - 1];
    if rows[|rows| - 1].start > n && j < |init| { LastIs(init, n, j); }
  }

  lemma FillUnfold(init: seq<Range>, r: Range)
    ensures Pos(init + [r]) == r.end + 1
    ensures Fill(init + [r])
         == Fill(init) + (if r.start > Pos(init) then [Entry(Pos(init), UNKNOWN)] else []) + [Entry(r.start, r.cc)]
  {
    assert (init + [r])[..|init|] == init;
  }

  lemma CodeUnfold(init: seq<Range>, r: Range, n: nat)
    ensures Code(Fill(init + [r]), n) ==
      if r.start <= n then r.cc else if Pos(init) <= n then UNKNOWN else Code(Fill(init), n)
  {
    hide Code, Fill, Pos;
    FillUnfold(init, r);
    var es, gap := Fill(init), Entry(Pos(init), UNKNOWN);
    CodeAppend(es, gap, n);
    if r.start > Pos(init) {
      CodeAppend(es + [gap], Entry(r.start, r.cc), n);
    } else {
      assert es + [] == es;
      CodeAppend(es, Entry(r.start, r.cc), n);
    }
  }

  lemma LastUnfold(init: seq<Range>, r: Range, n: nat)
    ensures Last(init + [r], n) == if r.start <= n then |init| else Last(init, n)
    ensures init != [] && Pos(init) <= n && ValidRanges(init) ==> Last(init, n) == |init| - 1
  {
    assert (init + [r])[..|init|] == init;
  }

  /** Below its end the list answers with the last range begun, if that one reaches so far. */
  lemma {:induction false} FillAnswers(rows: seq<Range>, n: nat)
    requires ValidRanges(rows) && n < Pos(rows)
    ensures var i := Last(rows, n);
      Code(Fill(rows), n) == if i >= 0 && n <= rows[i].end then rows[i].cc else UNKNOWN
  {
    hide Code, Fill, Last;
    var init, r := rows[..|rows| - 1], rows[|rows| - 1];
    assert rows == init + [r];
    CodeUnfold(init, r, n);
    LastUnfold(init, r, n);
    if r.start > n && n < Pos(init) { FillAnswers(init, n); }
    if init == [] { assert Last(init, n) == -1; }
  }

  lemma WholeAnswers(rows: seq<Range>, space: nat, n: nat)
    requires ValidRanges(rows) && ByStart(rows) && n < space
    ensures var i := Last(rows, n);
      Code(Fill(rows) + Tail(rows, space), n) == if i >= 0 && n <= rows[i].end then rows[i].cc else UNKNOWN
  {
    hide Code, Fill;
    if Pos(rows) < space { CodeAppend(Fill(rows), Entry(Pos(rows), UNKNOWN), n); }
    else { assert Fill(rows) + [] == Fill(rows); }
    if n < Pos(rows) { FillAnswers(rows, n); }
  }

  predicate Rising(es: seq<Entry>) { forall i, j :: 0 <= i < j < |es| ==> es[i].start <= es[j].start }

  /** Entries filled from the ranges: the starts rise, strictly if the ranges are apart, from 0 to the
      start of the last range. */
  ghost predicate FilledFrom(rows: seq<Range>, es: seq<Entry>) {
    && Shaped(es, Apart(rows)) && (es == [] <==> rows == [])
    && (rows != [] ==> es[|es| - 1].start == rows[|rows| - 1].start)
  }

  lemma {:induction false} FillShape(rows: seq<Range>)
    requires ValidRanges(rows) && ByStart(rows)
    ensures FilledFrom(rows, Fill(rows))
  {
    if rows != [] {
      hide Fill, FilledFrom, Apart, ByStart, ValidRanges, Pos;
      var init, r := rows[..|rows| - 1], rows[|rows| - 1];
      assert rows == init + [r];
      BehindInit(init, r);
      FillShape(init);
      FillUnfold(init, r);
      FillOne(Fill(init), init, r);
    }
  }

  lemma BehindInit(init: seq<Range>, r: Range)
    requires ByStart(init + [r]) && ValidRanges(init + [r])
    ensures ByStart(init) && ValidRanges(init) && (Apart(init + [r]) ==> Apart(init))
    ensures init != [] ==> init[|init| - 1].start <= r.start && (Apart(init + [r]) ==> init[|init| - 1].end < r.start)
  {
    var all := init + [r];
    assert all[|init|] == r && forall i :: 0 <= i < |init| ==> all[i] == init[i];
    forall i, j | 0 <= i < j < |init| ensures init[i].start <= init[j].start { assert all[i].start <= all[j].start; }
    if Apart(all) {
      forall i, j | 0 <= i < j < |init| ensures init[i].end < init[j].start { assert all[i].end < all[j].start; }
    }
  }

  lemma FillOne(es: seq<Entry>, init: seq<Range>, r: Range)
    requires FilledFrom(init, es) && ByStart(init + [r]) && ValidRanges(init + [r])
    ensures var gap := if r.start > Pos(init) then [Entry(Pos(init), UNKNOWN)] else [];
      FilledFrom(init + [r], es + gap + [Entry(r.start, r.cc)])
  {
    hide Shaped, Apart, ByStart;
    BehindInit(init, r);
    var was, strict := Apart(init), Apart(init + [r]);
    if r.start > Pos(init) {
      ShapeGrows(es, Entry(Pos(init), UNKNOWN), was, strict);
      ShapeGrows(es + [Entry(Pos(init), UNKNOWN)], Entry(r.start, r.cc), strict, strict);
    } else {
      assert es + [] == es;
      ShapeGrows(es, Entry(r.start, r.cc), was, strict);
    }
  }

  ghost predicate Shaped(es: seq<Entry>, strict: bool) {
    Rising(es) && (strict ==> Increasing(es)) && (es != [] ==> es[0].start == 0)
  }

  lemma ShapeGrows(es: seq<Entry>, e: Entry, was: bool, strict: bool)
    requires Shaped(es, was) && (strict ==> was)
    requires if es == [] then e.start == 0
             else es[|es| - 1].start <= e.start && (strict ==> es[|es| - 1].start < e.start)
    ensures Shaped(es + [e], strict)
  {
  }

  lemma {:induction false} DedupShape(es: seq<Entry>)
    requires Increasing(es)
    ensures Increasing(Dedup(es))
    ensures es != [] ==> Dedup(es) != [] && Dedup(es)[0] == es[0]
                         && Dedup(es)[|Dedup(es)| - 1].start <= es[|es| - 1].start
    ensures forall i :: 0 <= i < |Dedup(es)| - 1 ==> Dedup(es)[i].cc != Dedup(es)[i + 1].cc
  {
    if es != [] {
      var init, e := es[..|es| - 1], es[|es| - 1];
      DedupShape(init);
      var d := Dedup(init);
      if init != [] {
        assert init[|init| - 1].start < e.start by { assert es[|es| - 2] == init[|init| - 1]; }
      }
      assert Dedup(es) == if d != [] && d[|d| - 1].cc == e.cc then d else d + [e];
    }
  }

  lemma {:induction false} DedupKeeps(es: seq<Entry>, n: nat)
    requires Rising(es)
    ensures Code(Dedup(es), n) == Code(es, n)
    ensures es != [] ==> Dedup(es) != [] && Dedup(es)[|Dedup(es)| - 1].start <= es[|es| - 1].start
  {
    if es != [] {
      hide Code, Dedup, Rising;
      var init, e := es[..|es| - 1], es[|es| - 1];
      assert es == init + [e];
      RisingSplit(init, e);
      DedupKeeps(init, n);
      DedupUnfold(init, e);
      CodeAppend(init, e, n);
      CodeAppend(Dedup(init), e, n);
      if init == [] {
        DedupNone();
      } else if e.start <= n {
        LastBelow(Dedup(init), n);
      }
    }
  }

  lemma {:induction false} DedupRises(es: seq<Entry>)
    requires Rising(es)
    ensures Rising(Dedup(es))
  {
    if es == [] {
      DedupNone();
    } else {
      hide Dedup, Rising;
      var init, e := es[..|es| - 1], es[|es| - 1];
      assert es == init + [e];
      RisingSplit(init, e);
      DedupRises(init);
      DedupUnfold(init, e);
      DedupKeeps(init, 0);
      if init == [] { DedupNone(); }
      RisingAppend(Dedup(init), e);
    }
  }

  lemma RisingSplit(init: seq<Entry>, e: Entry)
    requires Rising(init + [e])
    ensures Rising(init) && (init != [] ==> init[|init| - 1].start <= e.start)
  {
    var all := init + [e];
    forall i, j | 0 <= i < j < |init| ensures init[i].start <= init[j].start { assert all[i].start <= all[j].start; }
    assert init != [] ==> all[|init| - 1].start <= all[|init|].start;
  }

  lemma RisingAppend(es: seq<Entry>, e: Entry)
    requires Rising(es)
    ensures es == [] || es[|es| - 1].start <= e.start ==> Rising(es + [e])
  {
  }

  lemma DedupNone()
    ensures Dedup([]) == []
  {
  }

  lemma DedupUnfold(init: seq<Entry>, e: Entry)
    ensures var d := Dedup(init);
      Dedup(init + [e]) == if d != [] && d[|d| - 1].cc == e.cc then d else d + [e]
  {
    assert (init + [e])[..|init|] == init;
  }

  lemma LastBelow(es: seq<Entry>, n: nat)
    requires es != [] && es[|es| - 1].start <= n
    ensures Code(es, n) == es[|es| - 1].cc
  {
  }

  // ---------------------------------------------------------------- the theorems

  /** The answer for any list: the last range begun, if it reaches the address, else unknown. */
  lemma SolidAnswers(rows: seq<Range>, space: nat, n: nat)
    requires ValidRanges(rows) && ByStart(rows) && n < space
    ensures var i := Last(rows, n);
      Code(Solid(rows, space), n) == if i >= 0 && n <= rows[i].end then rows[i].cc else UNKNOWN
  {
    hide Code, Fill, Dedup, Last;
    WholeAnswers(rows, space, n);
    WholeShape(rows, space);
    DedupKeeps(Fill(rows) + Tail(rows, space), n);
  }

  lemma WholeShape(rows: seq<Range>, space: nat)
    requires ValidRanges(rows) && ByStart(rows)
    ensures var es := Fill(rows) + Tail(rows, space); Shaped(es, Apart(rows)) && (space > 0 ==> es != [])
  {
    hide Fill, Shaped;
    FillShape(rows);
    if Pos(rows) < space { ShapeGrows(Fill(rows), Entry(Pos(rows), UNKNOWN), Apart(rows), Apart(rows)); }
    else { assert Fill(rows) + [] == Fill(rows); }
  }

  /** The code is right: that of a range containing the address, or unknown if there is none. */
  ghost predicate Right(rows: seq<Range>, n: nat, code: string) {
    Covers(rows, n, code) || (code == UNKNOWN && forall cc :: !Covers(rows, n, cc))
  }

  /** Where the free addresses behind range `i` end. */
  function GapEnd(rows: seq<Range>, i: nat, space: nat): nat
    requires i < |rows|
  {
    if i + 1 < |rows| && rows[i + 1].start < space then rows[i + 1].start else space
  }

  /** Range `j` reaches into the gap that follows the later range `i`. */
  predicate SticksOut(rows: seq<Range>, space: nat, j: nat, i: nat) {
    j < i < |rows| && rows[j].end > rows[i].end && rows[i].end + 1 < GapEnd(rows, i, space)
  }

  /** A range of unknown country, also before `i`, reaches as far into that gap as `j`. */
  predicate Shadows(rows: seq<Range>, space: nat, j: nat, i: nat, k: nat)
    requires SticksOut(rows, space, j, i)
  {
    k < i && rows[k].cc == UNKNOWN && (rows[k].end >= rows[j].end || rows[k].end + 1 >= GapEnd(rows, i, space))
  }

  /** No range reaches into a gap behind a later one, unless a range of unknown country reaches as far. */
  ghost predicate NoneSticksOut(rows: seq<Range>, space: nat) {
    forall i: nat, j: nat :: SticksOut(rows, space, j, i) ==> exists k: nat :: Shadows(rows, space, j, i, k)
  }

  lemma CoversLast(rows: seq<Range>, n: nat, cc: string) returns (j: nat)
    requires ByStart(rows) && Covers(rows, n, cc)
    ensures j < |rows| && In(rows[j], n) && rows[j].cc == cc && j <= Last(rows, n)
  {
    j :| j < |rows| && In(rows[j], n) && rows[j].cc == cc;
    LastIs(rows, n, j);
  }

  lemma RightThere(rows: seq<Range>, space: nat, n: nat)
    requires ValidRanges(rows) && ByStart(rows) && n < space && NoneSticksOut(rows, space)
    ensures Right(rows, n, Code(Solid(rows, space), n))
  {
    hide Code, Solid, Last;
    SolidAnswers(rows, space, n);
    var i := Last(rows, n);
    if i >= 0 && n <= rows[i].end {
      assert In(rows[i], n);
    } else if cc :| Covers(rows, n, cc) {
      var j := CoversLast(rows, n, cc);
      if i + 1 < |rows| { LastIs(rows, n, i + 1); }
      assert SticksOut(rows, space, j, i);
      var k: nat :| Shadows(rows, space, j, i, k);
      assert In(rows[k], n);
    }
  }

  lemma WrongThere(rows: seq<Range>, space: nat, j: nat, i: nat) returns (n: nat)
    requires ValidRanges(rows) && ByStart(rows) && SticksOut(rows, space, j, i)
    ensures n < space
    ensures Right(rows, n, Code(Solid(rows, space), n)) ==> exists k: nat :: Shadows(rows, space, j, i, k)
  {
    hide Code, Solid, Last;
    n := if rows[j].end < GapEnd(rows, i, space) then rows[j].end else GapEnd(rows, i, space) - 1;
    SolidAnswers(rows, space, n);
    LastIs(rows, n, i);
    if i + 1 < |rows| { LastIs(rows, n, i + 1); }
    assert Last(rows, n) == i;
    assert In(rows[j], n);
    assert Covers(rows, n, rows[j].cc);
    if Right(rows, n, UNKNOWN) {
      var k := CoversLast(rows, n, UNKNOWN);
      assert Shadows(rows, space, j, i, k);
    }
  }

  /** Exactly when the table is right for every address: for any list of ranges, overlapping or not,
      it is if and only if no merged range reaches into a gap behind a later one. */
  lemma RightExactlyWhen(rows: seq<Range>, space: nat)
    requires ValidRanges(rows)
    ensures (forall n: nat :: n < space ==> Right(rows, n, Code(Solid(Merged(rows), space), n)))
       <==> NoneSticksOut(Merged(rows), space)
  {
    hide Code, Solid, Covers, Glue, SortRows, NoneSticksOut;
    var m := Merged(rows);
    MergedKeeps(rows);
    forall n: nat, code ensures Right(rows, n, code) <==> Right(m, n, code) { SameRight(rows, m, n, code); }
    if NoneSticksOut(m, space) {
      forall n: nat | n < space ensures Right(rows, n, Code(Solid(m, space), n)) { RightThere(m, space, n); }
    }
    if forall n: nat :: n < space ==> Right(rows, n, Code(Solid(m, space), n)) {
      NoneIfRight(m, space);
    }
  }

  lemma NoneIfRight(m: seq<Range>, space: nat)
    requires ValidRanges(m) && ByStart(m)
    requires forall n: nat :: n < space ==> Right(m, n, Code(Solid(m, space), n))
    ensures NoneSticksOut(m, space)
  {
    hide Code, Solid, Right;
    forall i: nat, j: nat | SticksOut(m, space, j, i)
      ensures exists k: nat :: Shadows(m, space, j, i, k)
    {
      var n := WrongThere(m, space, j, i);
    }
  }

  lemma SameRight(rows: seq<Range>, m: seq<Range>, n: nat, code: string)
    requires forall cc :: Covers(m, n, cc) <==> Covers(rows, n, cc)
    ensures Right(rows, n, code) <==> Right(m, n, code)
  {
    hide Covers;
  }

  /** Sorting and merging lose no address of any country and add none. */
  lemma MergedKeeps(rows: seq<Range>)
    requires ValidRanges(rows)
    ensures var m := Merged(rows);
      ValidRanges(m) && ByStart(m) && forall n, cc :: Covers(m, n, cc) <==> Covers(rows, n, cc)
    ensures Consistent(rows) ==> Apart(Merged(rows))
  {
    hide Glue, SortRows, Covers, Consistent;
    SortKeeps(rows);
    GlueKeeps(SortRows(rows));
    if Consistent(rows) { GlueParts(SortRows(rows)); }
  }

  /** If overlapping ranges agree, the table starts at 0 with strictly increasing starts and no two
      equal neighbours, and for every address it answers as a scan of the original ranges would. */
  lemma TableIsRight(rows: seq<Range>, space: nat, n: nat)
    requires ValidRanges(rows) && Consistent(rows) && n < space
    ensures var table := Solid(Merged(rows), space);
      && table != [] && table[0].start == 0 && Increasing(table)
      && (forall i :: 0 <= i < |table| - 1 ==> table[i].cc != table[i + 1].cc)
      && Names(rows, n, Code(table, n))
  {
    hide Code, Glue, SortRows, Dedup, Fill, Solid;
    var m := Merged(rows);
    MergedKeeps(rows);
    ApartIsFine(m, space);
    RightThere(m, space, n);
    SameRight(rows, m, n, Code(Solid(m, space), n));
    RightNames(rows, n, Code(Solid(m, space), n));
    WholeShape(m, space);
    DedupShape(Fill(m) + Tail(m, space));
    SolidIs(m, space);
  }

  /** `code` is the country of the address, or unknown if no range has it. */
  ghost predicate Names(rows: seq<Range>, n: nat, code: string) {
    && (forall cc :: Covers(rows, n, cc) ==> code == cc)
    && ((forall cc :: !Covers(rows, n, cc)) ==> code == UNKNOWN)
  }

  lemma RightNames(rows: seq<Range>, n: nat, code: string)
    requires Consistent(rows) && Right(rows, n, code)
    ensures Names(rows, n, code)
  {
  }

  lemma ApartIsFine(rows: seq<Range>, space: nat)
    requires ValidRanges(rows) && Apart(rows)
    ensures NoneSticksOut(rows, space)
  {
  }

  lemma SolidIs(rows: seq<Range>, space: nat)
    ensures Solid(rows, space) == Dedup(Fill(rows) + Tail(rows, space))
  {
  }

  /** Sorting changes neither validity nor consistency nor what is covered. */
  lemma SortKeeps(rows: seq<Range>)
    requires ValidRanges(rows)
    ensures var s := SortRows(rows);
      && SortedRows(s) && ValidRanges(s) && (Consistent(rows) ==> Consistent(s))
      && forall n, cc :: Covers(s, n, cc) <==> Covers(rows, n, cc)
  {
    hide SortRows;
    SortRowsSorts(rows);
    var s := SortRows(rows);
    SameElements(s, rows);
    SameElements(rows, s);
  }

  lemma SameElements(a: seq<Range>, b: seq<Range>)
    requires multiset(a) == multiset(b)
    ensures ValidRanges(b) ==> ValidRanges(a)
    ensures Consistent(b) ==> Consistent(a)
    ensures forall n, cc :: Covers(a, n, cc) ==> Covers(b, n, cc)
  {
    forall i | 0 <= i < |a| ensures exists j :: 0 <= j < |b| && b[j] == a[i] {
      assert a[i] in multiset(a);
      assert a[i] in b;
    }
  }

  /** In the words of a caller: the country of a range that contains the address, or nothing. */
  lemma CountryIsRight(rows: seq<Range>, space: nat, n: nat)
    requires ValidRanges(rows) && Consistent(rows) && n < space
    ensures var answer := Country(Solid(Merged(rows), space), n);
      && (forall i :: 0 <= i < |rows| && In(rows[i], n) ==> answer == if rows[i].cc == UNKNOWN then "" else rows[i].cc)
      && ((forall i :: 0 <= i < |rows| ==> !In(rows[i], n)) ==> answer == "")
  {
    hide Code, Solid, Merged;
    TableIsRight(rows, space, n);
    var code := Code(Solid(Merged(rows), space), n);
    forall i | 0 <= i < |rows| && In(rows[i], n) ensures code == rows[i].cc {
      assert Covers(rows, n, rows[i].cc);
    }
  }

  /** A range that sticks out is lost: an enclosing range of another country behind the enclosed one. */
  lemma OverlapLosesCountry()
    ensures var rows := [Range(0, 10, "DE"), Range(5, 7, "FR")];
      ValidRanges(rows) && In(rows[0], 9) && !In(rows[1], 9) && Country(Solid(Merged(rows), 100), 9) == ""
  {
    hide Code, Dedup, Fill, Glue, SortRows;
    var a, b := Range(0, 10, "DE"), Range(5, 7, "FR");
    var x, y, z := Entry(0, "DE"), Entry(5, "FR"), Entry(8, UNKNOWN);
    TwoMerged(a, b);
    TwoFilled(a, b);
    assert [x, y] + [z] == [x, y, z];
    DedupThree(x, y, z);
    CodeAppend([x, y], z, 9);
  }

  /** Two ranges in order whose countries differ are neither moved nor glued. */
  lemma TwoMerged(a: Range, b: Range)
    requires Leq(a, b) && a.cc != b.cc
    ensures Merged([a, b]) == [a, b]
  {
    hide Leq;
    assert [a, b][..1] == [a] && [a][..0] == [];
    assert SortRows([]) == [] && Glue([]) == [];
    assert SortRows([a]) == [a];
    assert SortRows([a, b]) == [a, b];
    assert Glue([a]) == [a];
  }

  lemma TwoFilled(a: Range, b: Range)
    requires a.start == 0 && b.start <= a.end + 1
    ensures Fill([a, b]) == [Entry(0, a.cc), Entry(b.start, b.cc)] && Pos([a, b]) == b.end + 1
  {
    assert [a, b][..1] == [a] && [a][..0] == [];
    assert Fill([]) == [] && Fill([a]) == [Entry(0, a.cc)];
  }

  lemma DedupThree(x: Entry, y: Entry, z: Entry)
    requires x.cc != y.cc && y.cc != z.cc
    ensures Dedup([x, y, z]) == [x, y, z]
  {
    assert [x, y, z][..2] == [x, y] && [x, y][..1] == [x] && [x][..0] == [];
    assert Dedup([x]) == [x];
    assert Dedup([x, y]) == [x, y];
  }
}
