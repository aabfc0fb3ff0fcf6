/** Muting one drive with what it has now (backend/app/drive_mute.py): the first tick anchors a
    baseline, later ticks compare with it, and the mute ends by itself when the drive gets worse. */
module DriveMute {
  import opened Basics

  /** Counters whose growth means "worse"; `crit` is the set of NVMe warning bits. */
  datatype Disk = Disk(
    serial: string, dev: string, counters: map<string, int>, spare: Option<real>, crit: set<nat>)

  datatype Raid = Raid(dev: string, members: seq<string>)

  datatype Block = Block(disks: seq<Disk>, raids: seq<Raid>, missing: seq<string>)

  /** A problem with its key, "<kind>:<serial>" for a drive; empty if it has none. */
  datatype Problem = Problem(level: nat, key: string, text: string)

  datatype Base = Base(
    dev: string, counters: map<string, int>, spare: Option<real>, crit: set<nat>, keys: set<string>,
    arrays: map<string, nat>)

  const COUNTERS := ["media", "realloc", "pending", "uncorr", "crc", "ioerr"]
  const SIGNS := {"dead", "smart", "crit", "hot", "spare", "media", "missing"}

  // ---------------------------------------------------------------- keys and devices

  /** The part in front of the first colon, and the part behind it (empty without a colon). */
  function Kind(key: string): string { if key == "" || key[0] == ':' then "" else [key[0]] + Kind(key[1..]) }

  function SerialOf(key: string): string {
    if key == "" then "" else if key[0] == ':' then key[1..] else SerialOf(key[1..])
  }

  predicate IsRaid(key: string) {
    (|key| >= 5 && key[..5] == "raid:") || (|key| >= 6 && key[..6] == "raidf:")
  }

  predicate Digit(c: char): (b: bool)
    ensures b <==> c in {'0', '1', '2', '3', '4', '5', '6', '7', '8', '9'}
  {
    '0' <= c <= '9'
  }

  function WithoutDigits(s: string): string {
    if s != "" && Digit(s[|s| - 1]) then WithoutDigits(s[..|s| - 1]) else s
  }

  predicate NoDigits(s: string) { forall i :: 0 <= i < |s| ==> !Digit(s[i]) }

  /** A partition's drive: nvme0n1p2 -> nvme0n1, sda2 -> sda. */
  function DiskOf(part: string): string {
    var head := WithoutDigits(part);
    if |head| == |part| then part
    else if |head| >= 2 && head[|head| - 1] == 'p' && Digit(head[|head| - 2]) then head[..|head| - 1]
    else if head != "" && NoDigits(head) then head
    else part
  }

  function CountMembers(members: seq<string>, dev: string): nat {
    if members == [] then 0 else (if DiskOf(members[0]) == dev then 1 else 0) + CountMembers(members[1..], dev)
  }

  /** The arrays a drive takes part in, with the number of its partitions in service. */
  function Arrays(raids: seq<Raid>, dev: string): map<string, nat> {
    if raids == [] then map[]
    else
      var r := raids[|raids| - 1];
      var rest, n := Arrays(raids[..|raids| - 1], dev), CountMembers(r.members, dev);
      if n > 0 then rest[r.dev := n] else rest
  }

  function FindDisk(disks: seq<Disk>, ser: string): Option<Disk> {
    if disks == [] then None else if disks[0].serial == ser then Some(disks[0]) else FindDisk(disks[1..], ser)
  }

  /** The keys of one drive among the problems. */
  function KeysOf(probs: seq<Problem>, ser: string): set<string> {
    set i | 0 <= i < |probs| && ':' in probs[i].key && SerialOf(probs[i].key) == ser :: probs[i].key
  }

  /** What is not reported counts as zero. */
  function Count(counters: map<string, int>, name: string): (n: int)
    ensures n != 0 ==> name in counters
    ensures name in counters ==> n == counters[name]
  {
    if name in counters then counters[name] else 0
  }

  function Members(arrays: map<string, nat>, md: string): (n: nat)
    ensures n > 0 <==> md in arrays && arrays[md] > 0
    ensures md in arrays ==> n == arrays[md]
  {
    if md in arrays then arrays[md] else 0
  }

  // ---------------------------------------------------------------- what belongs to a drive

  predicate AllDigits(s: string) { forall i :: 0 <= i < |s| ==> Digit(s[i]) }

  lemma {:induction false} WithoutDigitsIs(s: string, n: string)
    requires AllDigits(n) && (s != "" ==> !Digit(s[|s| - 1]))
    ensures WithoutDigits(s + n) == s
  {
    if n == "" {
      assert s + n == s;
    } else {
      assert (s + n)[|s + n| - 1] == n[|n| - 1] && (s + n)[..|s + n| - 1] == s + n[..|n| - 1];
      WithoutDigitsIs(s, n[..|n| - 1]);
    }
  }

  lemma {:induction false} WithoutDigitsShape(s: string)
    ensures var h := WithoutDigits(s);
      |h| <= |s| && h == s[..|h|] && AllDigits(s[|h|..]) && (h != "" ==> !Digit(h[|h| - 1]))
  {
    if s != "" && Digit(s[|s| - 1]) {
      WithoutDigitsShape(s[..|s| - 1]);
      var h := WithoutDigits(s);
      assert forall i :: |h| <= i < |s| - 1 ==> s[i] == s[..|s| - 1][|h|..][i - |h|];
    }
  }

  /** The partitions of a drive: its name and a number if the name has no digits, its name, a `p` and a
      number if the name ends in one. */
  predicate IsPartition(part: string, disk: string, n: string) {
    && n != "" && AllDigits(n) && disk != ""
    && ((Digit(disk[|disk| - 1]) && part == disk + "p" + n) || (NoDigits(disk) && part == disk + n))
  }

  lemma PartitionsOf(part: string, disk: string, n: string)
    requires IsPartition(part, disk, n)
    ensures DiskOf(part) == disk
  {
    if part == disk + "p" + n && Digit(disk[|disk| - 1]) {
      WithoutDigitsIs(disk + "p", n);
      assert (disk + "p")[..|disk|] == disk;
    } else {
      WithoutDigitsIs(disk, n);
    }
  }

  /** Anything else names itself. */
  lemma OtherwiseItself(part: string)
    ensures DiskOf(part) == part || exists n :: IsPartition(part, DiskOf(part), n)
  {
    WithoutDigitsShape(part);
    var head := WithoutDigits(part);
    var n := part[|head|..];
    assert part == head + n;
    if DiskOf(part) != part {
      if |head| >= 2 && head[|head| - 1] == 'p' && Digit(head[|head| - 2]) {
        assert head == head[..|head| - 1] + "p";
      }
      assert IsPartition(part, DiskOf(part), n);
    }
  }

  /** One for each member that is a partition of the drive. */
  lemma {:induction false} CountAdds(a: seq<string>, b: seq<string>, dev: string)
    ensures CountMembers(a + b, dev) == CountMembers(a, dev) + CountMembers(b, dev)
    ensures |a| == 1 ==> CountMembers(a, dev) == if DiskOf(a[0]) == dev then 1 else 0
  {
    hide DiskOf;
    if a == [] {
      assert a + b == b;
    } else {
      assert (a + b)[0] == a[0] && (a + b)[1..] == a[1..] + b;
      CountAdds(a[1..], b, dev);
    }
  }

  /** A drive takes part in exactly the arrays with a partition of it in service; of two entries of one
      array the later counts. */
  lemma {:induction false} ArraysAre(raids: seq<Raid>, dev: string, md: string)
    ensures md in Arrays(raids, dev) <==>
      exists i :: 0 <= i < |raids| && raids[i].dev == md && CountMembers(raids[i].members, dev) > 0
    ensures md in Arrays(raids, dev) ==>
      exists i :: && 0 <= i < |raids| && raids[i].dev == md && CountMembers(raids[i].members, dev) > 0
                  && Arrays(raids, dev)[md] == CountMembers(raids[i].members, dev)
                  && forall j :: i < j < |raids| && raids[j].dev == md ==> CountMembers(raids[j].members, dev) == 0
  {
    hide CountMembers;
    if raids != [] {
      var init := raids[..|raids| - 1];
      ArraysAre(init, dev, md);
      assert forall i :: 0 <= i < |init| ==> init[i] == raids[i];
    }
  }

  lemma {:induction false} KeySplits(kind: string, ser: string)
    requires ':' !in kind
    ensures Kind(kind + ":" + ser) == kind && SerialOf(kind + ":" + ser) == ser
  {
    var key := kind + ":" + ser;
    if kind == "" {
      assert key[0] == ':' && key[1..] == ser;
    } else {
      assert key[0] == kind[0] && key[1..] == kind[1..] + ":" + ser;
      assert kind == [kind[0]] + kind[1..];
      KeySplits(kind[1..], ser);
    }
  }

  lemma {:induction false} KeyJoins(key: string)
    requires ':' in key
    ensures ':' !in Kind(key) && key == Kind(key) + ":" + SerialOf(key)
  {
    if key[0] == ':' {
      assert key == "" + ":" + key[1..];
    } else {
      assert key == [key[0]] + key[1..];
      KeyJoins(key[1..]);
    }
  }

  /** The keys of a drive among the problems: a kind, a colon, its serial number. */
  lemma KeysAre(probs: seq<Problem>, ser: string, key: string)
    ensures key in KeysOf(probs, ser) <==>
      && (exists i :: 0 <= i < |probs| && probs[i].key == key)
      && exists kind :: ':' !in kind && key == kind + ":" + ser
  {
    if ':' in key { KeyJoins(key); }
    if kind :| ':' !in kind && key == kind + ":" + ser {
      KeySplits(kind, ser);
      assert key[|kind|] == ':';
    }
  }

  // ---------------------------------------------------------------- anchoring and comparing

  function Anchor(block: Block, ser: string, probs: seq<Problem>): Option<Base> {
    match FindDisk(block.disks, ser)
    case None => None
    case Some(d) =>
      Some(Base(d.dev, map name | name in COUNTERS :: Count(d.counters, name), d.spare, d.crit, KeysOf(probs, ser),
                Arrays(block.raids, d.dev)))
  }

  datatype Reason = NewSign(kind: string) | Grew(counter: string) | SpareDown | NewBits | LostArray(md: string)

  /** A sign that was not there; the first media errors after known growth do not count. */
  predicate SignIsNew(base: Base, ser: string, key: string) {
    key !in base.keys && Kind(key) in SIGNS && !(Kind(key) == "media" && "grow:" + ser in base.keys)
  }

  ghost predicate HasNewSign(base: Base, ser: string, probs: seq<Problem>, kind: string) {
    exists key :: key in KeysOf(probs, ser) && SignIsNew(base, ser, key) && Kind(key) == kind
  }

  predicate SpareFell(base: Base, d: Disk) { d.spare.Some? && base.spare.Some? && d.spare.value < base.spare.value }

  /** When a reason to lift the mute holds. */
  ghost predicate Holds(base: Base, block: Block, ser: string, probs: seq<Problem>, r: Reason) {
    var disk := FindDisk(block.disks, ser);
    match r
    case NewSign(kind) => HasNewSign(base, ser, probs, kind)
    case Grew(c) => disk.Some? && c in COUNTERS && Count(disk.value.counters, c) > Count(base.counters, c)
    case SpareDown => disk.Some? && SpareFell(base, disk.value)
    case NewBits =>
      && disk.Some? && disk.value.crit - base.crit != {}
      && !HasNewSign(base, ser, probs, "crit") && !HasNewSign(base, ser, probs, "hot")
    case LostArray(md) =>
      disk.Some? && md in base.arrays && Members(Arrays(block.raids, disk.value.dev), md) < base.arrays[md]
  }

  ghost predicate IsWorse(base: Base, block: Block, ser: string, probs: seq<Problem>) {
    exists r :: Holds(base, block, ser, probs, r)
  }

  /** `worse`: every reason that holds, one by one. */
  method Worse(base: Base, block: Block, ser: string, probs: seq<Problem>) returns (out: seq<Reason>)
    ensures forall r :: r in out <==> Holds(base, block, ser, probs, r)
  {
    out := NewSigns(base, ser, probs);
    var disk := FindDisk(block.disks, ser);
    if disk.None? { return; }
    var d := disk.value;
    for i := 0 to |COUNTERS|
      invariant forall r :: r in out <==>
        (r.NewSign? && Holds(base, block, ser, probs, r))
        || (r.Grew? && r.counter in COUNTERS[..i] && Count(d.counters, r.counter) > Count(base.counters, r.counter))
    {
      var c := COUNTERS[i];
      assert COUNTERS[..i + 1] == COUNTERS[..i] + [c];
      if Count(d.counters, c) > Count(base.counters, c) { out := out + [Grew(c)]; }
    }
    assert COUNTERS[..|COUNTERS|] == COUNTERS;
    if SpareFell(base, d) { out := out + [SpareDown]; }
    if d.crit - base.crit != {} && NewSign("crit") !in out && NewSign("hot") !in out { out := out + [NewBits]; }
    var arrays, todo := Arrays(block.raids, d.dev), base.arrays.Keys;
    while todo != {}
      invariant todo <= base.arrays.Keys
      invariant forall r :: r in out <==>
        if r.LostArray? then Holds(base, block, ser, probs, r) && r.md !in todo else Holds(base, block, ser, probs, r)
      decreases todo
    {
      var md :| md in todo;
      if Members(arrays, md) < base.arrays[md] { out := out + [LostArray(md)]; }
      todo := todo - {md};
    }
  }

  method NewSigns(base: Base, ser: string, probs: seq<Problem>) returns (out: seq<Reason>)
    ensures forall r :: r in out <==> r.NewSign? && HasNewSign(base, ser, probs, r.kind)
  {
    out := [];
    var todo := KeysOf(probs, ser);
    ghost var done: set<string> := {};
    while todo != {}
      invariant todo + done == KeysOf(probs, ser)
      invariant forall r :: r in out <==>
        r.NewSign? && exists key :: key in done && SignIsNew(base, ser, key) && Kind(key) == r.kind
      decreases todo
    {
      var key :| key in todo;
      if SignIsNew(base, ser, key) { out := out + [NewSign(Kind(key))]; }
      todo, done := todo - {key}, done + {key};
    }
  }

  /** A baseline taken now is never worse than now. */
  lemma FreshIsNotWorse(block: Block, ser: string, probs: seq<Problem>)
    requires Anchor(block, ser, probs).Some?
    ensures !IsWorse(Anchor(block, ser, probs).value, block, ser, probs)
  {
    var base := Anchor(block, ser, probs).value;
    forall r ensures !Holds(base, block, ser, probs, r) {
    }
  }

  /** What "not worse" means for a drive that is present. */
  ghost predicate NoWorse(base: Base, block: Block, ser: string) {
    match FindDisk(block.disks, ser)
    case None => true
    case Some(d) =>
      && (forall c :: c in COUNTERS ==> Count(d.counters, c) <= Count(base.counters, c))
      && !SpareFell(base, d)
      && d.crit <= base.crit
      && (forall md :: md in base.arrays ==> Members(Arrays(block.raids, d.dev), md) >= base.arrays[md])
  }

  lemma NotWorseMeans(base: Base, block: Block, ser: string, probs: seq<Problem>)
    requires !IsWorse(base, block, ser, probs)
    ensures NoWorse(base, block, ser)
    ensures forall key :: key in KeysOf(probs, ser) ==> !SignIsNew(base, ser, key)
  {
    forall key | key in KeysOf(probs, ser) ensures !SignIsNew(base, ser, key) {
      assert !Holds(base, block, ser, probs, NewSign(Kind(key)));
    }
    if FindDisk(block.disks, ser).Some? {
      var d := FindDisk(block.disks, ser).value;
      forall c | c in COUNTERS ensures Count(d.counters, c) <= Count(base.counters, c) {
        assert !Holds(base, block, ser, probs, Grew(c));
      }
      assert !Holds(base, block, ser, probs, SpareDown);
      assert !Holds(base, block, ser, probs, NewSign("crit")) && !Holds(base, block, ser, probs, NewSign("hot"));
      assert !Holds(base, block, ser, probs, NewBits);
      assert d.crit == (d.crit - base.crit) + (d.crit * base.crit);
      forall md | md in base.arrays ensures Members(Arrays(block.raids, d.dev), md) >= base.arrays[md] {
        assert !Holds(base, block, ser, probs, LostArray(md));
      }
    }
  }

  /** A problem of one of the grave kinds that the drive did not have. */
  ghost predicate GraveSign(base: Base, ser: string, probs: seq<Problem>, key: string) {
    && key in KeysOf(probs, ser) && key !in base.keys
    && Kind(key) in {"dead", "smart", "crit", "hot", "spare", "media", "missing"}
    && !(Kind(key) == "media" && "grow:" + ser in base.keys)
  }

  /** The drive's own numbers are worse: a counter is up, the spare is down, a warning bit is new, or a
      partition has left an array. */
  ghost predicate NumbersWorse(base: Base, block: Block, d: Disk) {
    || (exists c :: c in {"media", "realloc", "pending", "uncorr", "crc", "ioerr"}
                    && Count(d.counters, c) > Count(base.counters, c))
    || (d.spare.Some? && base.spare.Some? && d.spare.value < base.spare.value)
    || (exists bit :: bit in d.crit && bit !in base.crit)
    || (exists md :: md in base.arrays && Members(Arrays(block.raids, d.dev), md) < base.arrays[md])
  }

  /** Exactly when a drive is worse than its baseline. */
  lemma WorseExactlyWhen(base: Base, block: Block, ser: string, probs: seq<Problem>)
    ensures IsWorse(base, block, ser, probs) <==>
      || (exists key :: GraveSign(base, ser, probs, key))
      || (FindDisk(block.disks, ser).Some? && NumbersWorse(base, block, FindDisk(block.disks, ser).value))
  {
    hide NumbersWorse, GraveSign, Holds, FindDisk;
    if IsWorse(base, block, ser, probs) {
      var r :| Holds(base, block, ser, probs, r);
      ReasonIs(base, block, ser, probs, r);
    }
    if key :| GraveSign(base, ser, probs, key) { GraveIsWorse(base, block, ser, probs, key); }
    if FindDisk(block.disks, ser).Some? && NumbersWorse(base, block, FindDisk(block.disks, ser).value) {
      NumbersAreReasons(base, block, ser, probs);
    }
  }

  lemma ReasonIs(base: Base, block: Block, ser: string, probs: seq<Problem>, r: Reason)
    requires Holds(base, block, ser, probs, r)
    ensures || (exists key :: GraveSign(base, ser, probs, key))
            || (FindDisk(block.disks, ser).Some? && NumbersWorse(base, block, FindDisk(block.disks, ser).value))
  {
    hide KeysOf, Kind, FindDisk, Arrays, Count;
    match r
    case NewSign(kind) =>
      var key :| key in KeysOf(probs, ser) && SignIsNew(base, ser, key) && Kind(key) == kind;
      assert GraveSign(base, ser, probs, key);
    case Grew(c) => assert c in {"media", "realloc", "pending", "uncorr", "crc", "ioerr"};
    case SpareDown =>
    case NewBits => var bit :| bit in FindDisk(block.disks, ser).value.crit - base.crit;
    case LostArray(md) =>
  }

  lemma GraveIsWorse(base: Base, block: Block, ser: string, probs: seq<Problem>, key: string)
    requires GraveSign(base, ser, probs, key)
    ensures IsWorse(base, block, ser, probs)
  {
    hide KeysOf, Kind, FindDisk, Arrays;
    assert Holds(base, block, ser, probs, NewSign(Kind(key)));
  }

  lemma NumbersAreReasons(base: Base, block: Block, ser: string, probs: seq<Problem>)
    requires FindDisk(block.disks, ser).Some? && NumbersWorse(base, block, FindDisk(block.disks, ser).value)
    ensures IsWorse(base, block, ser, probs)
  {
    hide KeysOf, Kind, FindDisk, Arrays, Count;
    var d := FindDisk(block.disks, ser).value;
    if c :| c in {"media", "realloc", "pending", "uncorr", "crc", "ioerr"}
            && Count(d.counters, c) > Count(base.counters, c) {
      assert c in COUNTERS;
      assert Holds(base, block, ser, probs, Grew(c));
    } else if SpareFell(base, d) {
      assert Holds(base, block, ser, probs, SpareDown);
    } else if bit :| bit in d.crit && bit !in base.crit {
      assert bit in d.crit - base.crit;
      assert || Holds(base, block, ser, probs, NewBits) || Holds(base, block, ser, probs, NewSign("crit"))
             || Holds(base, block, ser, probs, NewSign("hot"));
    } else {
      var md :| md in base.arrays && Members(Arrays(block.raids, d.dev), md) < base.arrays[md];
      assert Holds(base, block, ser, probs, LostArray(md));
    }
  }

  /** The drive with a serial number: the first one listed. */
  lemma {:induction false} DiskFound(disks: seq<Disk>, ser: string)
    ensures FindDisk(disks, ser).None? <==> forall i :: 0 <= i < |disks| ==> disks[i].serial != ser
    ensures FindDisk(disks, ser).Some? ==>
      exists i :: && 0 <= i < |disks| && disks[i] == FindDisk(disks, ser).value && disks[i].serial == ser
                  && forall j :: 0 <= j < i ==> disks[j].serial != ser
  {
    if disks != [] && disks[0].serial != ser {
      DiskFound(disks[1..], ser);
      assert forall i :: 0 < i < |disks| ==> disks[i] == disks[1..][i - 1];
      if FindDisk(disks, ser).Some? {
        var i :| && 0 <= i < |disks[1..]| && disks[1..][i] == FindDisk(disks, ser).value && disks[1..][i].serial == ser
                 && forall j :: 0 <= j < i ==> disks[1..][j].serial != ser;
        assert disks[i + 1] == disks[1..][i];
      }
    }
  }

  /** A baseline holds what the drive has now. */
  lemma AnchorIs(block: Block, ser: string, probs: seq<Problem>)
    ensures var disk := FindDisk(block.disks, ser);
      && (Anchor(block, ser, probs).Some? <==> disk.Some?)
      && (disk.Some? ==>
            var base := Anchor(block, ser, probs).value;
            && (forall c :: c in {"media", "realloc", "pending", "uncorr", "crc", "ioerr"} ==>
                  Count(base.counters, c) == Count(disk.value.counters, c))
            && base.spare == disk.value.spare && base.crit == disk.value.crit && base.dev == disk.value.dev
            && base.keys == KeysOf(probs, ser) && base.arrays == Arrays(block.raids, disk.value.dev))
  {
    hide FindDisk, KeysOf, Arrays;
  }

  // ---------------------------------------------------------------- splitting the problems

  /** The serials of the muted drives, from keys "drive:<serial>". */
  function Serials(mutes: seq<string>): set<string> {
    set i | 0 <= i < |mutes| && |mutes[i]| > 6 && mutes[i][..6] == "drive:" :: mutes[i][6..]
  }

  /** Neither present nor listed as missing: replaced. */
  predicate Replaced(block: Block, ser: string) { FindDisk(block.disks, ser).None? && ser !in block.missing }

  datatype Fate = Gone | Waiting | GotWorse | Hidden(base: Base)

  /** What happens to one muted drive on one tick. */
  ghost function FateOf(state: map<string, Base>, block: Block, probs: seq<Problem>, ser: string): Fate {
    var base := if ser in state then Some(state[ser]) else Anchor(block, ser, probs);
    if Replaced(block, ser) then Gone
    else if base.None? then Waiting
    else if IsWorse(base.value, block, ser, probs) then GotWorse
    else Hidden(base.value)
  }

  /** What becomes of a muted drive: gone if it is neither present nor listed as missing; waiting while it
      is missing and was never seen; else worse or hidden, by its first baseline. */
  lemma FateIs(state: map<string, Base>, block: Block, probs: seq<Problem>, ser: string)
    ensures var fate, present := FateOf(state, block, probs, ser), FindDisk(block.disks, ser).Some?;
      && (fate.Gone? <==> !present && ser !in block.missing)
      && (fate.Waiting? <==> !present && ser in block.missing && ser !in state)
      && (present || (ser in block.missing && ser in state) ==>
            var base := if ser in state then state[ser] else Anchor(block, ser, probs).value;
            if IsWorse(base, block, ser, probs) then fate == GotWorse else fate == Hidden(base))
  {
    hide IsWorse, FindDisk;
    AnchorIs(block, ser, probs);
  }

  /** Which mutes are about drives. */
  lemma SerialsAre(mutes: seq<string>, ser: string)
    ensures ser in Serials(mutes) <==> ser != "" && exists i :: 0 <= i < |mutes| && mutes[i] == "drive:" + ser
  {
    forall i | 0 <= i < |mutes| && mutes[i] == "drive:" + ser
      ensures mutes[i][..6] == "drive:" && mutes[i][6..] == ser
    { }
    forall i | 0 <= i < |mutes| && |mutes[i]| > 6 && mutes[i][..6] == "drive:"
      ensures mutes[i] == "drive:" + mutes[i][6..]
    { }
  }

  datatype Split = Split(
    kept: seq<Problem>, hidden: map<string, seq<Problem>>, worse: map<string, seq<Reason>>, gone: set<string>,
    state: map<string, Base>)

  /** The mute that hides a problem, if any; array problems are never hidden. */
  predicate Hides(hidden: set<string>, p: Problem, ser: string) {
    ser in hidden && ':' in p.key && SerialOf(p.key) == ser && !IsRaid(p.key)
  }

  predicate Kept(hidden: set<string>, p: Problem) {
    !(':' in p.key && SerialOf(p.key) in hidden && !IsRaid(p.key))
  }

  function KeptOf(hidden: set<string>, probs: seq<Problem>): seq<Problem> {
    if probs == [] then []
    else KeptOf(hidden, probs[..|probs| - 1]) + (if Kept(hidden, probs[|probs| - 1]) then [probs[|probs| - 1]] else [])
  }

  function HiddenOf(hidden: set<string>, probs: seq<Problem>, ser: string): seq<Problem> {
    if probs == [] then []
    else
      HiddenOf(hidden, probs[..|probs| - 1], ser)
      + (if Hides(hidden, probs[|probs| - 1], ser) then [probs[|probs| - 1]] else [])
  }

  /** The drives hidden on one tick, with their baselines. */
  ghost function NextState(muted: set<string>, state: map<string, Base>, block: Block, probs: seq<Problem>)
    : map<string, Base>
  {
    map ser | ser in muted && FateOf(state, block, probs, ser).Hidden? :: FateOf(state, block, probs, ser).base
  }

  /** `split`: first decide each muted drive, then sort the problems. */
  method DoSplit(mutes: seq<string>, state: map<string, Base>, block: Block, probs: seq<Problem>) returns (out: Split)
    ensures out.state == NextState(Serials(mutes), state, block, probs) && out.hidden.Keys == out.state.Keys
    ensures forall ser :: ser in out.gone <==> ser in Serials(mutes) && FateOf(state, block, probs, ser).Gone?
    ensures forall ser :: ser in out.worse <==> ser in Serials(mutes) && FateOf(state, block, probs, ser).GotWorse?
    ensures out.kept == KeptOf(out.state.Keys, probs)
    ensures forall ser :: ser in out.hidden ==> out.hidden[ser] == HiddenOf(out.state.Keys, probs, ser)
  {
    var gone, worse, next := DecideDrives(Serials(mutes), state, block, probs);
    var kept, hidden := SortProblems(next.Keys, probs);
    out := Split(kept, hidden, worse, gone, next);
  }

  /** One turn of the first loop. */
  method DecideDrive(state: map<string, Base>, block: Block, probs: seq<Problem>, ser: string)
    returns (fate: Fate, why: seq<Reason>)
    ensures fate == FateOf(state, block, probs, ser)
    ensures fate.GotWorse? ==> why != []
  {
    hide Holds, IsWorse, Anchor, Replaced;
    why := [];
    var base := if ser in state then Some(state[ser]) else Anchor(block, ser, probs);
    if Replaced(block, ser) { return Gone, why; }
    if base.None? { return Waiting, why; }
    why := Worse(base.value, block, ser, probs);
    WorseIff(base.value, block, ser, probs, why);
    fate := if why != [] then GotWorse else Hidden(base.value);
  }

  method DecideDrives(muted: set<string>, state: map<string, Base>, block: Block, probs: seq<Problem>)
    returns (gone: set<string>, worse: map<string, seq<Reason>>, next: map<string, Base>)
    ensures next == NextState(muted, state, block, probs)
    ensures forall ser :: ser in gone <==> ser in muted && FateOf(state, block, probs, ser).Gone?
    ensures forall ser :: ser in worse <==> ser in muted && FateOf(state, block, probs, ser).GotWorse?
  {
    hide FateOf;
    gone, worse, next := {}, map[], map[];
    var todo, done: set<string> := muted, {};
    while todo != {}
      invariant todo !! done && todo + done == muted
      invariant next == NextState(done, state, block, probs)
      invariant forall ser :: ser in gone <==> ser in done && FateOf(state, block, probs, ser).Gone?
      invariant forall ser :: ser in worse <==> ser in done && FateOf(state, block, probs, ser).GotWorse?
      decreases todo
    {
      hide NextState;
      var ser :| ser in todo;
      NextStateGrows(done, state, block, probs, ser);
      todo, done := todo - {ser}, done + {ser};
      var fate, why := DecideDrive(state, block, probs, ser);
      match fate {
        case Gone => gone := gone + {ser};
        case Waiting =>
        case GotWorse => worse := worse[ser := why];
        case Hidden(base) => next := next[ser := base];
      }
    }
    assert done == muted;
  }

  lemma NextStateGrows(done: set<string>, state: map<string, Base>, block: Block, probs: seq<Problem>, ser: string)
    requires ser !in done
    ensures var fate, was := FateOf(state, block, probs, ser), NextState(done, state, block, probs);
      NextState(done + {ser}, state, block, probs) == if fate.Hidden? then was[ser := fate.base] else was
  {
    hide FateOf;
  }

  lemma WorseIff(base: Base, block: Block, ser: string, probs: seq<Problem>, why: seq<Reason>)
    requires forall r :: r in why <==> Holds(base, block, ser, probs, r)
    ensures why != [] <==> IsWorse(base, block, ser, probs)
  {
    if why != [] { assert why[0] in why; }
  }

  /** Where one more problem goes. */
  lemma SortOne(hidden: set<string>, probs: seq<Problem>, i: nat)
    requires i < |probs|
    ensures var p, init := probs[i], probs[..i];
      var ser := if ':' in p.key then SerialOf(p.key) else "";
      if ':' in p.key && ser in hidden && !IsRaid(p.key) then
        && KeptOf(hidden, probs[..i + 1]) == KeptOf(hidden, init)
        && HiddenOf(hidden, probs[..i + 1], ser) == HiddenOf(hidden, init, ser) + [p]
        && forall x :: x != ser ==> HiddenOf(hidden, probs[..i + 1], x) == HiddenOf(hidden, init, x)
      else
        && KeptOf(hidden, probs[..i + 1]) == KeptOf(hidden, init) + [p]
        && forall x :: HiddenOf(hidden, probs[..i + 1], x) == HiddenOf(hidden, init, x)
  {
    assert probs[..i + 1][..i] == probs[..i];
  }

  method SortProblems(hidden: set<string>, probs: seq<Problem>)
    returns (kept: seq<Problem>, byDrive: map<string, seq<Problem>>)
    ensures kept == KeptOf(hidden, probs) && byDrive.Keys == hidden
    ensures forall ser :: ser in hidden ==> byDrive[ser] == HiddenOf(hidden, probs, ser)
  {
    kept, byDrive := [], map ser | ser in hidden :: [];
    for i := 0 to |probs|
      invariant kept == KeptOf(hidden, probs[..i]) && byDrive.Keys == hidden
      invariant forall ser :: ser in hidden ==> byDrive[ser] == HiddenOf(hidden, probs[..i], ser)
    {
      hide KeptOf, HiddenOf, SerialOf, IsRaid;
      var p := probs[i];
      SortOne(hidden, probs, i);
      var ser := if ':' in p.key then SerialOf(p.key) else "";
      if ':' in p.key && ser in byDrive && !IsRaid(p.key) {
        byDrive := byDrive[ser := byDrive[ser] + [p]];
      } else {
        kept := kept + [p];
      }
    }
    assert probs[..|probs|] == probs;
  }

  /** Conservation: every problem goes to exactly one place, in order, and array problems are kept. */
  lemma ProblemsAreConserved(hidden: set<string>, probs: seq<Problem>, i: nat)
    requires i < |probs|
    ensures Kept(hidden, probs[i]) <==> forall ser :: !Hides(hidden, probs[i], ser)
    ensures forall a, b :: Hides(hidden, probs[i], a) && Hides(hidden, probs[i], b) ==> a == b
    ensures IsRaid(probs[i].key) ==> Kept(hidden, probs[i])
  {
    if !Kept(hidden, probs[i]) { assert Hides(hidden, probs[i], SerialOf(probs[i].key)); }
  }

  /** Hidden exactly under the serial number behind the first colon of its key, unless the part in front
      is that of an array problem; a key without a colon is never hidden. */
  lemma HidesExactlyWhen(hidden: set<string>, p: Problem, ser: string)
    ensures Hides(hidden, p, ser) <==>
      ser in hidden && exists kind :: p.key == kind + ":" + ser && ':' !in kind && kind != "raid" && kind != "raidf"
  {
    forall k ensures ':' in k + ":" + ser { assert (k + ":" + ser)[|k|] == ':'; }
    if ':' in p.key {
      KeyJoins(p.key);
      var kind := Kind(p.key);
      RaidIs(kind, SerialOf(p.key));
      forall k | p.key == k + ":" + ser && ':' !in k ensures k == kind && SerialOf(p.key) == ser {
        KeySplits(k, ser);
      }
    }
  }

  lemma RaidIs(kind: string, ser: string)
    requires ':' !in kind
    ensures IsRaid(kind + ":" + ser) <==> kind == "raid" || kind == "raidf"
  {
    var key := kind + ":" + ser;
    assert key[|kind|] == ':' && key[..|kind|] == kind && forall i :: 0 <= i < |kind| ==> key[i] == kind[i];
    if |key| >= 5 && key[..5] == "raid:" { assert key[4] == key[..5][4] && |kind| == 4; }
    if |key| >= 6 && key[..6] == "raidf:" { assert key[5] == key[..6][5] && |kind| == 5; }
  }

  /** What is not kept, in order. */
  function Withheld(hidden: set<string>, probs: seq<Problem>): seq<Problem> {
    if probs == [] then []
    else
      Withheld(hidden, probs[..|probs| - 1])
      + (if Kept(hidden, probs[|probs| - 1]) then [] else [probs[|probs| - 1]])
  }

  /** Nothing is lost and nothing is doubled: kept and withheld together are the problems, and the
      list of each hidden drive is exactly its part of the withheld ones. */
  lemma NothingIsLost(hidden: set<string>, probs: seq<Problem>, ser: string)
    ensures multiset(KeptOf(hidden, probs)) + multiset(Withheld(hidden, probs)) == multiset(probs)
    ensures HiddenOf(hidden, Withheld(hidden, probs), ser) == HiddenOf(hidden, probs, ser)
    ensures forall p :: p in Withheld(hidden, probs) ==> Hides(hidden, p, SerialOf(p.key))
  {
    hide KeptOf, Withheld, HiddenOf, Hides;
    KeptAndWithheld(hidden, probs);
    HiddenOfWithheld(hidden, probs, ser);
    WithheldAreHidden(hidden, probs);
  }

  lemma {:induction false} KeptAndWithheld(hidden: set<string>, probs: seq<Problem>)
    ensures multiset(KeptOf(hidden, probs)) + multiset(Withheld(hidden, probs)) == multiset(probs)
  {
    hide Kept;
    if probs != [] {
      var init, p := probs[..|probs| - 1], probs[|probs| - 1];
      assert probs == init + [p];
      KeptAndWithheld(hidden, init);
    }
  }

  lemma {:induction false} HiddenOfWithheld(hidden: set<string>, probs: seq<Problem>, ser: string)
    ensures HiddenOf(hidden, Withheld(hidden, probs), ser) == HiddenOf(hidden, probs, ser)
  {
    if probs != [] {
      var init, p := probs[..|probs| - 1], probs[|probs| - 1];
      HiddenOfWithheld(hidden, init, ser);
      assert Hides(hidden, p, ser) ==> !Kept(hidden, p);
      hide Kept, Hides;
      var w := Withheld(hidden, init);
      HiddenSnoc(hidden, w, p, ser);
      assert Withheld(hidden, probs) == if Kept(hidden, p) then w else w + [p];
    }
  }

  lemma HiddenSnoc(hidden: set<string>, w: seq<Problem>, p: Problem, ser: string)
    ensures HiddenOf(hidden, w + [p], ser) == HiddenOf(hidden, w, ser) + (if Hides(hidden, p, ser) then [p] else [])
  {
    assert (w + [p])[..|w|] == w;
  }

  lemma {:induction false} WithheldAreHidden(hidden: set<string>, probs: seq<Problem>)
    ensures forall p :: p in Withheld(hidden, probs) ==> Hides(hidden, p, SerialOf(p.key))
  {
    if probs != [] { WithheldAreHidden(hidden, probs[..|probs| - 1]); }
  }

  // ---------------------------------------------------------------- runs

  /** One tick of the collector, which stores the state that `split` returns. */
  datatype Tick = Tick(mutes: seq<string>, block: Block, probs: seq<Problem>)

  ghost function After(t: seq<Tick>, n: nat): map<string, Base>
    requires n <= |t|
  {
    if n == 0 then map[] else NextState(Serials(t[n - 1].mutes), After(t, n - 1), t[n - 1].block, t[n - 1].probs)
  }

  /** The mute began at tick `k` and has hidden the drive on every tick since. */
  ghost predicate MutedSince(t: seq<Tick>, k: nat, i: nat, ser: string)
    requires k <= i < |t|
  {
    && ser !in After(t, k) && forall j :: k <= j <= i ==> ser in After(t, j + 1) && ser in Serials(t[j].mutes)
  }

  /** No drift: a hidden drive is compared with what it had when it was first muted. While hidden it
      was muted on every tick since then, and if present now no counter is higher than then, no
      warning bit is new, no array membership is lost and no new sign has appeared. */
  lemma {:induction false} NoDrift(t: seq<Tick>, i: nat, ser: string) returns (k: nat)
    requires i < |t| && ser in After(t, i + 1)
    ensures k <= i && MutedSince(t, k, i, ser)
    ensures Anchor(t[k].block, ser, t[k].probs) == Some(After(t, i + 1)[ser])
    ensures NoWorse(After(t, i + 1)[ser], t[i].block, ser)
    ensures forall key :: key in KeysOf(t[i].probs, ser) ==> !SignIsNew(After(t, i + 1)[ser], ser, key)
  {
    hide Anchor, IsWorse, NoWorse, KeysOf, SignIsNew, Replaced, NextState;
    var now := t[i];
    HiddenMeans(Serials(now.mutes), After(t, i), now.block, now.probs, ser);
    NotWorseMeans(After(t, i + 1)[ser], now.block, ser, now.probs);
    if ser in After(t, i) {
      k := NoDrift(t, i - 1, ser);
    } else {
      k := i;
    }
  }

  lemma HiddenMeans(muted: set<string>, state: map<string, Base>, block: Block, probs: seq<Problem>, ser: string)
    requires ser in NextState(muted, state, block, probs)
    ensures var base := NextState(muted, state, block, probs)[ser];
      && ser in muted && !IsWorse(base, block, ser, probs)
      && Some(base) == if ser in state then Some(state[ser]) else Anchor(block, ser, probs)
  {
    hide IsWorse, Anchor;
  }

  /** The same in the drive's own numbers: then and now. */
  lemma CountersDoNotDrift(t: seq<Tick>, i: nat, ser: string) returns (k: nat)
    requires i < |t| && ser in After(t, i + 1) && FindDisk(t[i].block.disks, ser).Some?
    ensures k <= i && MutedSince(t, k, i, ser) && FindDisk(t[k].block.disks, ser).Some?
    ensures var first, now := FindDisk(t[k].block.disks, ser).value, FindDisk(t[i].block.disks, ser).value;
      && (forall c :: c in COUNTERS ==> Count(now.counters, c) <= Count(first.counters, c))
      && now.crit <= first.crit
      && forall md :: md in Arrays(t[k].block.raids, first.dev) ==>
           Members(Arrays(t[i].block.raids, now.dev), md) >= Arrays(t[k].block.raids, first.dev)[md]
  {
    k := NoDrift(t, i, ser);
  }
}
