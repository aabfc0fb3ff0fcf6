/** The history of database dumps (`_dumps_of` and `dump_update` in backend/app/db_health.py): which
    dump is running, and when and how long the last ones ran. */
module DumpHistory {
  import opened Basics

  const DUMP_SAME := 300
  const DUMP_RUNS := 7
  const DUMP_FORGET := 30 * 86400

  datatype Run = Run(start: int, length: int)

  /** The running dump, if any, and the past ones, oldest first. */
  datatype Entry = Entry(run: Option<Run>, runs: seq<Run>)

  datatype History = History(ts: int, db: map<string, Entry>)

  /** A transaction a helper names: its age, database and client; `dump` says that the client is a
      dump program. */
  datatype Xact = Xact(age: int, database: string, app: string, dump: bool)

  /** One database instance: "<engine>:<container>" and its longest transactions of three kinds. */
  datatype Item = Item(name: string, xacts: seq<Xact>)

  /** A report block: its time (0 if it has none) and its items, or None if it is stale or malformed. */
  datatype Block = Block(ts: int, items: Option<seq<Item>>)

  function Abs(x: int): int { if x < 0 then -x else x }
  function Max(a: int, b: int): int { if a < b then b else a }

  predicate Same(a: Run, b: Run) { Abs(a.start - b.start) <= DUMP_SAME }

  // ---------------------------------------------------------------- what a block shows

  function KeyOf(item: Item, x: Xact): string { item.name + "|" + x.database + "|" + x.app }

  /** The dumps among the first `n` transactions of an instance; of two with one key the older counts. */
  function DumpsOf(item: Item, ts: int, n: nat): map<string, Run>
    requires n <= |item.xacts|
  {
    if n == 0 then map[]
    else
      var m, x := DumpsOf(item, ts, n - 1), item.xacts[n - 1];
      var key := KeyOf(item, x);
      if x.age <= 0 || !x.dump || (key in m && x.age <= m[key].length) then m else m[key := Run(ts - x.age, x.age)]
  }

  /** All dumps of the first `n` instances; a later instance of the same name takes precedence. */
  function Seen(items: seq<Item>, ts: int, n: nat): map<string, Run>
    requires n <= |items|
  {
    if n == 0 then map[]
    else Seen(items, ts, n - 1) + DumpsOf(items[n - 1], ts, |items[n - 1].xacts|)
  }

  /** A transaction of a dump under the key. */
  predicate Dumping(item: Item, x: nat, key: string)
    requires x < |item.xacts|
  {
    item.xacts[x].dump && item.xacts[x].age > 0 && KeyOf(item, item.xacts[x]) == key
  }

  /** The key names instance, database and client. */
  lemma KeyIs(item: Item, x: Xact)
    ensures KeyOf(item, x) == item.name + "|" + x.database + "|" + x.app
  {
  }

  /** Only dumps count, and of several transactions of one key the oldest tells beginning and duration. */
  lemma {:induction false} DumpsAre(item: Item, ts: int, n: nat, key: string)
    requires n <= |item.xacts|
    ensures key in DumpsOf(item, ts, n) <==> exists x: nat :: x < n && Dumping(item, x, key)
    ensures key in DumpsOf(item, ts, n) ==>
      exists x: nat :: && x < n && Dumping(item, x, key)
                       && DumpsOf(item, ts, n)[key] == Run(ts - item.xacts[x].age, item.xacts[x].age)
                       && forall y: nat :: y < n && Dumping(item, y, key) ==> item.xacts[y].age <= item.xacts[x].age
  {
    hide KeyOf;
    if n > 0 {
      DumpsAre(item, ts, n - 1, key);
      var m, x := DumpsOf(item, ts, n - 1), item.xacts[n - 1];
      if Dumping(item, n - 1, key) && (key !in m || x.age > m[key].length) {
        assert DumpsOf(item, ts, n)[key] == Run(ts - x.age, x.age);
      } else {
        assert key in DumpsOf(item, ts, n) <==> key in m;
        assert key in m ==> DumpsOf(item, ts, n)[key] == m[key];
      }
    }
  }

  /** A block shows a dump if one of its instances does; of two instances of one name the later counts. */
  lemma {:induction false} SeenIs(items: seq<Item>, ts: int, n: nat, key: string)
    requires n <= |items|
    ensures key in Seen(items, ts, n) <==> exists x: nat :: x < n && key in DumpsOf(items[x], ts, |items[x].xacts|)
    ensures key in Seen(items, ts, n) ==>
      exists x: nat :: && x < n && key in DumpsOf(items[x], ts, |items[x].xacts|)
                       && Seen(items, ts, n)[key] == DumpsOf(items[x], ts, |items[x].xacts|)[key]
                       && forall y: nat :: x < y < n ==> key !in DumpsOf(items[y], ts, |items[y].xacts|)
  {
    hide DumpsOf;
    if n > 0 { SeenIs(items, ts, n - 1, key); }
  }

  // ---------------------------------------------------------------- one entry

  function Trim(runs: seq<Run>): (r: seq<Run>)
    ensures |r| <= DUMP_RUNS
  {
    if |runs| <= DUMP_RUNS then runs else runs[|runs| - DUMP_RUNS..]
  }

  function Closed(e: Entry): seq<Run> { if e.run.Some? then e.runs + [e.run.value] else e.runs }

  /** An entry after a block that shows `cur` for it, or nothing. */
  function Updated(e: Entry, cur: Option<Run>): Entry {
    if e.run.Some? && cur.Some? && Same(e.run.value, cur.value) then
      Entry(Some(Run(e.run.value.start, Max(e.run.value.length, cur.value.length))), e.runs)
    else
      var runs := Closed(e);
      if cur.None? then Entry(None, Trim(runs))
      else if runs != [] && Same(runs[|runs| - 1], cur.value) then
        var last := runs[|runs| - 1];
        Entry(Some(Run(last.start, Max(last.length, cur.value.length))), Trim(runs[..|runs| - 1]))
      else Entry(cur, Trim(runs))
  }

  predicate Remembered(e: Entry, ts: int) {
    e.run.Some? || (e.runs != [] && ts - e.runs[|e.runs| - 1].start < DUMP_FORGET)
  }

  // ---------------------------------------------------------------- the whole history

  function Old(st: Option<History>, key: string): Entry {
    if st.Some? && key in st.value.db then st.value.db[key] else Entry(None, [])
  }

  function Look(seen: map<string, Run>, key: string): Option<Run> { if key in seen then Some(seen[key]) else None }

  function Db(st: Option<History>): map<string, Entry> { if st.Some? then st.value.db else map[] }

  predicate Counts(st: Option<History>, b: Block) {
    b.items.Some? && b.ts != 0 && !(st.Some? && st.value.ts == b.ts)
  }

  function NewEntry(st: Option<History>, seen: map<string, Run>, key: string): Entry {
    Updated(Old(st, key), Look(seen, key))
  }

  function Step(st: Option<History>, b: Block): Option<History> {
    if !Counts(st, b) then st
    else
      var seen := Seen(b.items.value, b.ts, |b.items.value|);
      Some(History(b.ts, EntriesFor(st, seen, b.ts, Db(st).Keys + seen.Keys)))
  }

  function EntriesFor(st: Option<History>, seen: map<string, Run>, ts: int, keys: set<string>): map<string, Entry> {
    map key | key in keys && Remembered(NewEntry(st, seen, key), ts) :: NewEntry(st, seen, key)
  }

  // ---------------------------------------------------------------- the source's loops

  method FindDumps(item: Item, ts: int) returns (out: map<string, Run>)
    ensures out == DumpsOf(item, ts, |item.xacts|)
  {
    out := map[];
    for i := 0 to |item.xacts|
      invariant out == DumpsOf(item, ts, i)
    {
      var x := item.xacts[i];
      if x.age <= 0 || !x.dump { continue; }
      var key := KeyOf(item, x);
      if key !in out || x.age > out[key].length { out := out[key := Run(ts - x.age, x.age)]; }
    }
  }

  /** `dump_update`: collect what the block shows, update every entry, drop the forgotten ones. */
  method DumpUpdate(st: Option<History>, b: Block) returns (next: Option<History>)
    ensures next == Step(st, b)
  {
    if b.items.None? || b.ts == 0 || (st.Some? && st.value.ts == b.ts) { return st; }
    var items := b.items.value;
    var seen: map<string, Run> := map[];
    for i := 0 to |items|
      invariant seen == Seen(items, b.ts, i)
    {
      var mine := FindDumps(items[i], b.ts);
      seen := seen + mine;
    }
    var db := UpdateAll(st, seen, b.ts);
    next := Some(History(b.ts, db));
  }

  method UpdateAll(st: Option<History>, seen: map<string, Run>, ts: int) returns (db: map<string, Entry>)
    ensures db == EntriesFor(st, seen, ts, Db(st).Keys + seen.Keys)
  {
    hide NewEntry, Remembered, Updated, Db, Old, Look;
    db := map[];
    var keys := Db(st).Keys + seen.Keys;
    var todo, done: set<string> := keys, {};
    while todo != {}
      invariant todo !! done && todo + done == keys
      invariant db == EntriesFor(st, seen, ts, done)
      decreases todo
    {
      hide EntriesFor;
      var key :| key in todo;
      var e := UpdateOne(Old(st, key), Look(seen, key));
      OneMore(st, seen, ts, done, key);
      if Remembered(e, ts) { db := db[key := e]; }
      todo, done := todo - {key}, done + {key};
    }
    assert done == keys;
  }

  lemma OneMore(st: Option<History>, seen: map<string, Run>, ts: int, done: set<string>, key: string)
    requires key !in done
    ensures var e, db := Updated(Old(st, key), Look(seen, key)), EntriesFor(st, seen, ts, done);
      EntriesFor(st, seen, ts, done + {key}) == if Remembered(e, ts) then db[key := e] else db
  {
    hide Updated, Remembered;
  }

  method UpdateOne(e: Entry, cur: Option<Run>) returns (out: Entry)
    ensures out == Updated(e, cur)
  {
    var run, runs := e.run, e.runs;
    if run.Some? && cur.Some? && Same(run.value, cur.value) {
      return Entry(Some(Run(run.value.start, Max(run.value.length, cur.value.length))), runs);
    }
    if run.Some? { runs := runs + [run.value]; }
    run := None;
    if cur.Some? {
      if runs != [] && Same(runs[|runs| - 1], cur.value) {
        var last := runs[|runs| - 1];
        runs := runs[..|runs| - 1];
        run := Some(Run(last.start, Max(last.length, cur.value.length)));
      } else {
        run := cur;
      }
    }
    out := Entry(run, Trim(runs));
  }

  // ---------------------------------------------------------------- the invariant

  /** Neighbouring starts, the running dump included, are more than five minutes apart. */
  predicate Spaced(runs: seq<Run>) { forall i :: 0 <= i < |runs| - 1 ==> !Same(runs[i], runs[i + 1]) }

  predicate GoodEntry(e: Entry) { Spaced(Closed(e)) && |e.runs| <= DUMP_RUNS }

  lemma TrimKeepsSpaced(runs: seq<Run>)
    requires Spaced(runs)
    ensures Spaced(Trim(runs)) && (runs != [] ==> Trim(runs) != [] && Trim(runs)[|Trim(runs)| - 1] == runs[|runs| - 1])
  {
    var t, off := Trim(runs), |runs| - |Trim(runs)|;
    hide Same;
    forall i | 0 <= i < |t| - 1 ensures !Same(t[i], t[i + 1]) {
      assert t[i] == runs[i + off] && t[i + 1] == runs[i + off + 1];
    }
  }

  lemma SpacedAppend(runs: seq<Run>, r: Run)
    requires Spaced(runs) && (runs != [] ==> !Same(runs[|runs| - 1], r))
    ensures Spaced(runs + [r])
  {
  }

  lemma UpdatedIsGood(e: Entry, cur: Option<Run>)
    requires GoodEntry(e)
    ensures GoodEntry(Updated(e, cur))
  {
    var runs := Closed(e);
    if e.run.Some? && cur.Some? && Same(e.run.value, cur.value) {
      assert runs[..|e.runs|] == e.runs;
      assert e.runs != [] ==> !Same(runs[|e.runs| - 1], runs[|e.runs|]);
      assert Spaced(e.runs) by { assert forall i :: 0 <= i < |e.runs| ==> e.runs[i] == runs[i]; }
      SpacedAppend(e.runs, Updated(e, cur).run.value);
    } else if cur.None? {
      TrimKeepsSpaced(runs);
    } else if runs != [] && Same(runs[|runs| - 1], cur.value) {
      var init := runs[..|runs| - 1];
      assert init != [] ==> !Same(runs[|runs| - 2], runs[|runs| - 1]);
      TrimKeepsSpaced(init);
      SpacedAppend(Trim(init), Updated(e, cur).run.value);
    } else {
      TrimKeepsSpaced(runs);
      SpacedAppend(Trim(runs), cur.value);
    }
  }

  predicate Good(st: Option<History>) { st.Some? ==> forall key :: key in st.value.db ==> GoodEntry(st.value.db[key]) }

  lemma StepIsGood(st: Option<History>, b: Block)
    requires Good(st)
    ensures Good(Step(st, b))
  {
    hide GoodEntry;
    if Counts(st, b) {
      var seen := Seen(b.items.value, b.ts, |b.items.value|);
      forall key | key in Step(st, b).value.db ensures GoodEntry(Step(st, b).value.db[key]) {
        EmptyIsGood();
        assert GoodEntry(Old(st, key));
        UpdatedIsGood(Old(st, key), Look(seen, key));
      }
    }
  }

  lemma EmptyIsGood()
    ensures GoodEntry(Entry(None, []))
  {
  }

  function After(bs: seq<Block>, n: nat): Option<History>
    requires n <= |bs|
  {
    if n == 0 then None else Step(After(bs, n - 1), bs[n - 1])
  }

  /** After any sequence of reports neighbouring starts, that of the running dump included, are more than
      300 s apart, and at most seven past runs are kept. */
  lemma HistoryIsSpaced(bs: seq<Block>, n: nat, key: string)
    requires n <= |bs| && After(bs, n).Some? && key in After(bs, n).value.db
    ensures var e := After(bs, n).value.db[key];
      var all := if e.run.Some? then e.runs + [e.run.value] else e.runs;
      && |e.runs| <= 7
      && forall i :: 0 <= i < |all| - 1 ==>
        all[i + 1].start - all[i].start > 300 || all[i].start - all[i + 1].start > 300
  {
    HistoryIsGood(bs, n);
    hide After;
    var e := After(bs, n).value.db[key];
    assert GoodEntry(e);
    forall i | 0 <= i < |Closed(e)| - 1
      ensures Closed(e)[i + 1].start - Closed(e)[i].start > 300 || Closed(e)[i].start - Closed(e)[i + 1].start > 300
    {
      assert !Same(Closed(e)[i], Closed(e)[i + 1]);
    }
  }

  lemma {:induction false} HistoryIsGood(bs: seq<Block>, n: nat)
    requires n <= |bs|
    ensures Good(After(bs, n))
  {
    if n > 0 {
      HistoryIsGood(bs, n - 1);
      StepIsGood(After(bs, n - 1), bs[n - 1]);
    }
  }

  // ---------------------------------------------------------------- runs are not lost

  /** A running dump stays the running one with a duration that never shrinks, or becomes the last
      past run exactly as it was, or is forgotten after thirty days. */
  lemma RunIsKept(st: Option<History>, b: Block, key: string)
    requires st.Some? && key in st.value.db && st.value.db[key].run.Some? && Counts(st, b)
    ensures var r, next := st.value.db[key].run.value, Step(st, b).value.db;
      || (key in next && next[key].run.Some? && next[key].run.value.start == r.start
          && next[key].run.value.length >= r.length)
      || (key in next && next[key].runs != [] && next[key].runs[|next[key].runs| - 1] == r)
      || (key !in next && b.ts - r.start >= 2592000)
  {
    var seen := Seen(b.items.value, b.ts, |b.items.value|);
    var e := st.value.db[key];
    var u := Updated(e, Look(seen, key));
    hide Seen, Db;
    assert Closed(e)[|Closed(e)| - 1] == e.run.value;
    assert u.run.None? ==> u.runs[|u.runs| - 1] == e.run.value;
  }

  /** A dump shown by a new, usable report is the running one afterwards: its own run, or one begun within
      five minutes of it that is at least as long. Everything not shown is closed. */
  lemma ShownIsRunning(st: Option<History>, b: Block, key: string)
    requires b.items.Some? && b.ts != 0 && (st.None? || st.value.ts != b.ts)
    ensures var cur, next := Look(Seen(b.items.value, b.ts, |b.items.value|), key), Step(st, b);
      && next.Some? && next.value.ts == b.ts
      && (cur.Some? ==>
            && key in next.value.db && next.value.db[key].run.Some?
            && var r := next.value.db[key].run.value;
               -300 <= r.start - cur.value.start <= 300 && r.length >= cur.value.length)
      && (cur.None? && key in next.value.db ==> next.value.db[key].run.None? && st.Some? && key in st.value.db)
  {
    hide Seen;
  }

  /** A dump that hides for one report and returns with the same start resumes its old run, exactly
      if that run began less than thirty days before the report that missed it; else it starts anew. */
  lemma ReturningRunResumes(st: Option<History>, b1: Block, b2: Block, key: string, cur: Run)
    requires st.Some? && key in st.value.db && st.value.db[key].run.Some? && GoodEntry(st.value.db[key])
    requires Counts(st, b1) && Counts(Step(st, b1), b2)
    requires Look(Seen(b1.items.value, b1.ts, |b1.items.value|), key).None?
    requires Look(Seen(b2.items.value, b2.ts, |b2.items.value|), key) == Some(cur)
    requires -300 <= st.value.db[key].run.value.start - cur.start <= 300
    ensures var r, next := st.value.db[key].run.value, Step(Step(st, b1), b2).value.db;
      && key in next
      && next[key].run ==
           if b1.ts - r.start < 2592000 then Some(Run(r.start, Max(r.length, cur.length))) else Some(cur)
  {
    hide Seen;
    var e := st.value.db[key];
    var r, mid := e.run.value, Step(st, b1);
    var gap := Updated(e, None);
    TrimKeepsSpaced(Closed(e));
    assert gap.run.None? && gap.runs[|gap.runs| - 1] == r;
    assert key in mid.value.db <==> b1.ts - r.start < DUMP_FORGET;
    assert Old(mid, key) == if b1.ts - r.start < DUMP_FORGET then gap else Entry(None, []);
  }

  /** That condition is met at its edge by this history: a dump begun at 0 and missing from the report of
      the thirtieth day returns as a new run begun at 100. */
  lemma LateReturnStartsAnew()
    ensures var e := Entry(Some(Run(0, 50)), []);
      var st := Some(History(50, map["pg:|db|pg_dump" := e]));
      var b1 := Block(DUMP_FORGET, Some([]));
      var b2 := Block(DUMP_FORGET + 60, Some([Item("pg:", [Xact(DUMP_FORGET - 40, "db", "pg_dump", true)])]));
      var next := Step(Step(st, b1), b2).value.db;
      && Same(Run(0, 50), Run(100, DUMP_FORGET - 40))
      && "pg:|db|pg_dump" in next && next["pg:|db|pg_dump"].run == Some(Run(100, DUMP_FORGET - 40))
  {
    var key, e := "pg:|db|pg_dump", Entry(Some(Run(0, 50)), []);
    var st := Some(History(50, map[key := e]));
    var item := Item("pg:", [Xact(DUMP_FORGET - 40, "db", "pg_dump", true)]);
    var b1, b2 := Block(DUMP_FORGET, Some([])), Block(DUMP_FORGET + 60, Some([item]));
    assert KeyOf(item, item.xacts[0]) == key;
    assert DumpsOf(item, b2.ts, 0) == map[];
    assert DumpsOf(item, b2.ts, 1) == map[key := Run(100, DUMP_FORGET - 40)];
    assert Seen([item], b2.ts, 0) == map[];
    assert Seen([item], b2.ts, 1) == map[key := Run(100, DUMP_FORGET - 40)];
    assert Seen([], b1.ts, 0) == map[];
    ReturningRunResumes(st, b1, b2, key, Run(100, DUMP_FORGET - 40));
  }

  // ---------------------------------------------------------------- durations over any sequence of reports

  /** The dump a report shows under a key. */
  function Shown(b: Block, key: string): Option<Run>
    requires b.items.Some?
  {
    Look(Seen(b.items.value, b.ts, |b.items.value|), key)
  }

  function Resumed(r: Run, cur: Run): Run { Run(r.start, Max(r.length, cur.length)) }

  /** What a report does to the list of all runs ever, of which `kept` are still stored. */
  function Recorded(rec: seq<Run>, kept: seq<Run>, cur: Option<Run>): seq<Run> {
    if cur.None? then rec
    else if kept != [] && rec != [] && Same(kept[|kept| - 1], cur.value)
    then rec[..|rec| - 1] + [Resumed(rec[|rec| - 1], cur.value)]
    else rec + [cur.value]
  }

  /** The stored runs of a key, the running one last. */
  function Stored(bs: seq<Block>, n: nat, key: string): seq<Run>
    requires n <= |bs|
  {
    Closed(Old(After(bs, n), key))
  }

  /** All runs of a key ever recorded: nothing is trimmed and nothing forgotten. */
  function Record(bs: seq<Block>, n: nat, key: string): seq<Run>
    requires n <= |bs|
  {
    if n == 0 then []
    else if !Counts(After(bs, n - 1), bs[n - 1]) then Record(bs, n - 1, key)
    else Recorded(Record(bs, n - 1, key), Stored(bs, n - 1, key), Shown(bs[n - 1], key))
  }

  predicate Suffix(kept: seq<Run>, rec: seq<Run>) { |kept| <= |rec| && rec[|rec| - |kept|..] == kept }

  lemma SuffixTrim(kept: seq<Run>, rec: seq<Run>)
    requires Suffix(kept, rec)
    ensures Suffix(Trim(kept), rec)
  {
  }

  lemma SuffixAppend(kept: seq<Run>, rec: seq<Run>, r: Run)
    requires Suffix(kept, rec)
    ensures Suffix(kept + [r], rec + [r])
  {
  }

  lemma SuffixInit(kept: seq<Run>, rec: seq<Run>)
    requires Suffix(kept, rec) && kept != []
    ensures rec != [] && rec[|rec| - 1] == kept[|kept| - 1] && Suffix(kept[..|kept| - 1], rec[..|rec| - 1])
  {
  }

  /** An update follows the record, and drops only the oldest runs and only beyond seven. */
  lemma UpdateFollowsRecord(rec: seq<Run>, e: Entry, cur: Option<Run>)
    requires Suffix(Closed(e), rec)
    ensures Suffix(Closed(Updated(e, cur)), Recorded(rec, Closed(e), cur))
    ensures |Closed(Updated(e, cur))| >= if |Closed(e)| < 7 then |Closed(e)| else 7
  {
    hide Updated, Same, Closed, Suffix, Trim;
    var kept := Closed(e);
    if cur.None? {
      NoneCloses(e);
      TrimLength(kept);
      SuffixTrim(kept, rec);
    } else if kept != [] && Same(kept[|kept| - 1], cur.value) {
      LastResumes(e, cur.value);
      SuffixInit(kept, rec);
      var init, last := kept[..|kept| - 1], Resumed(kept[|kept| - 1], cur.value);
      TrimLength(init);
      SuffixTrim(init, rec[..|rec| - 1]);
      SuffixAppend(init, rec[..|rec| - 1], last);
      SuffixAppend(Trim(init), rec[..|rec| - 1], last);
    } else {
      FreshStarts(e, cur.value);
      TrimLength(kept);
      SuffixTrim(kept, rec);
      SuffixAppend(Trim(kept), rec, cur.value);
    }
  }

  lemma TrimLength(runs: seq<Run>)
    ensures |Trim(runs)| == if |runs| < 7 then |runs| else 7
  {
  }

  lemma NoneCloses(e: Entry)
    ensures Closed(Updated(e, None)) == Trim(Closed(e))
  {
  }

  lemma LastResumes(e: Entry, cur: Run)
    requires Closed(e) != [] && Same(Closed(e)[|Closed(e)| - 1], cur)
    ensures var kept := Closed(e); var init := kept[..|kept| - 1];
      || Closed(Updated(e, Some(cur))) == init + [Resumed(kept[|kept| - 1], cur)]
      || Closed(Updated(e, Some(cur))) == Trim(init) + [Resumed(kept[|kept| - 1], cur)]
  {
    hide Same;
    if e.run.Some? { assert Closed(e)[..|Closed(e)| - 1] == e.runs; }
  }

  lemma FreshStarts(e: Entry, cur: Run)
    requires Closed(e) == [] || !Same(Closed(e)[|Closed(e)| - 1], cur)
    ensures Closed(Updated(e, Some(cur))) == Trim(Closed(e)) + [cur]
  {
    hide Same;
  }

  /** What is stored under a key is always the end of its record. */
  lemma {:induction false} HistoryIsRecord(bs: seq<Block>, n: nat, key: string)
    requires n <= |bs|
    ensures Suffix(Stored(bs, n, key), Record(bs, n, key))
  {
    hide Suffix, Stored, Record, After, Closed, Old, Step, Counts, Recorded, Shown;
    if n == 0 {
      EmptyRecord(bs, key);
    } else {
      HistoryIsRecord(bs, n - 1, key);
      RecordUnfolds(bs, n, key);
      var st, b := After(bs, n - 1), bs[n - 1];
      if Counts(st, b) { StepFollowsRecord(st, b, key, Record(bs, n - 1, key)); }
    }
  }

  lemma EmptyRecord(bs: seq<Block>, key: string)
    ensures Suffix(Stored(bs, 0, key), Record(bs, 0, key))
  {
  }

  lemma RecordUnfolds(bs: seq<Block>, n: nat, key: string)
    requires 0 < n <= |bs|
    ensures var st, b := After(bs, n - 1), bs[n - 1];
      && Stored(bs, n - 1, key) == Closed(Old(st, key))
      && if Counts(st, b) then
           && Stored(bs, n, key) == Closed(Old(Step(st, b), key))
           && Record(bs, n, key) == Recorded(Record(bs, n - 1, key), Closed(Old(st, key)), Shown(b, key))
         else Stored(bs, n, key) == Stored(bs, n - 1, key) && Record(bs, n, key) == Record(bs, n - 1, key)
  {
    hide Closed, Old, Recorded, Shown, EntriesFor;
  }

  lemma StepFollowsRecord(st: Option<History>, b: Block, key: string, rec: seq<Run>)
    requires Counts(st, b) && Suffix(Closed(Old(st, key)), rec)
    ensures Suffix(Closed(Old(Step(st, b), key)), Recorded(rec, Closed(Old(st, key)), Shown(b, key)))
  {
    hide Updated, Recorded, Seen, Remembered, Old, Step;
    UpdateFollowsRecord(rec, Old(st, key), Shown(b, key));
    StoredAfter(st, b, key);
  }

  /** An entry after a report that counts: updated, or forgotten. */
  lemma StoredAfter(st: Option<History>, b: Block, key: string)
    requires Counts(st, b)
    ensures var e := Updated(Old(st, key), Shown(b, key));
      Old(Step(st, b), key) == if Remembered(e, b.ts) then e else Entry(None, [])
  {
    hide Seen;
    if !(key in Db(st)) && Shown(b, key).None? { assert Updated(Entry(None, []), None) == Entry(None, []); }
  }

  lemma {:induction false} RecordGrows(bs: seq<Block>, i: nat, j: nat, key: string)
    requires i <= j <= |bs|
    ensures |Record(bs, i, key)| <= |Record(bs, j, key)|
    ensures forall x :: 0 <= x < |Record(bs, i, key)| ==>
      && Record(bs, j, key)[x].start == Record(bs, i, key)[x].start
      && Record(bs, j, key)[x].length >= Record(bs, i, key)[x].length
    decreases j
  {
    if i < j {
      RecordGrows(bs, i, j - 1, key);
      hide Same, Seen, Stored, Counts;
    }
  }

  /** A run's duration never shrinks: over any sequence of reports, a run stored at one time and still
      stored at a later one, as a past run, the running one or a resumed one, has the same start and a
      duration at least as long. */
  lemma DurationsNeverShrink(bs: seq<Block>, i: nat, j: nat, key: string, x: nat)
    requires i <= j <= |bs| && x < |Record(bs, i, key)|
    requires |Record(bs, i, key)| - |Stored(bs, i, key)| <= x && |Record(bs, j, key)| - |Stored(bs, j, key)| <= x
    ensures |Record(bs, i, key)| <= |Record(bs, j, key)|
    ensures Suffix(Stored(bs, i, key), Record(bs, i, key)) && Suffix(Stored(bs, j, key), Record(bs, j, key))
    ensures var was := Stored(bs, i, key)[x - (|Record(bs, i, key)| - |Stored(bs, i, key)|)];
      var now := Stored(bs, j, key)[x - (|Record(bs, j, key)| - |Stored(bs, j, key)|)];
      now.start == was.start && now.length >= was.length
  {
    hide Record, Stored;
    RecordGrows(bs, i, j, key);
    HistoryIsRecord(bs, i, key);
    HistoryIsRecord(bs, j, key);
    var ri, rj, si, sj := Record(bs, i, key), Record(bs, j, key), Stored(bs, i, key), Stored(bs, j, key);
    assert si[x - (|ri| - |si|)] == ri[x] && sj[x - (|rj| - |sj|)] == rj[x];
  }

  /** The same block again changes nothing. */
  lemma RepeatChangesNothing(st: Option<History>, b: Block)
    ensures Step(Step(st, b), b) == Step(st, b)
  {
  }
}
