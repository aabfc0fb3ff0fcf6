/** Merging one failure seen on several servers into one alert (`merge_storm` in
    backend/app/alerts.py). */
module Storm {
  import opened Basics

  const STORM_MIN := 3

  /** What the buttons under an alert refer to: "srv:<ids>", "chk:<ids>", something else, nothing. */
  datatype Ref = NoRef | Srv(ids: seq<int>) | Chk(ids: seq<int>) | OtherRef

  /** An alert. `routed` tells an addressed alert from a bare string; `named` says that the target's
      name occurs in the text, `norm` is the text without name, link address and age, `alarm` that
      it starts with the sign of the highest level. */
  datatype Msg = Msg(
    routed: bool, kind: string, section: string, group: string, target: string, recovery: bool, ref: Ref,
    named: bool, norm: string, alarm: bool, parts: seq<Msg>)

  datatype Key = Key(kind: string, section: string, group: string, recovery: bool, norm: string)

  predicate ServerSection(s: string) { s in {"servers", "docker", "kuber", "services", "backups"} }

  function StormKey(m: Msg): Option<Key> {
    if !m.routed || m.target == "" || m.kind == "access_change" then None
    else if !m.ref.NoRef? && !m.ref.Srv? then None
    else if m.ref.NoRef? && !(m.recovery && ServerSection(m.section)) then None
    else if !m.named then None
    else Some(Key(m.kind, m.section, m.group, m.recovery, m.norm))
  }

  // ---------------------------------------------------------------- the specification

  predicate Ascending(s: seq<nat>) { forall i, j :: 0 <= i < j < |s| ==> s[i] < s[j] }

  predicate Below(s: seq<nat>, n: nat) { forall i :: 0 <= i < |s| ==> s[i] < n }

  /** The messages among the first `n` that have key `k`, in order. */
  function Group(msgs: seq<Msg>, k: Key, n: nat): (g: seq<nat>)
    requires n <= |msgs|
    ensures Below(g, n)
  {
    if n == 0 then []
    else Group(msgs, k, n - 1) + (if StormKey(msgs[n - 1]) == Some(k) then [n - 1] else [])
  }

  lemma {:induction false} GroupFacts(msgs: seq<Msg>, k: Key, n: nat)
    requires n <= |msgs|
    ensures Ascending(Group(msgs, k, n))
    ensures forall i: nat :: i in Group(msgs, k, n) <==> i < n && StormKey(msgs[i]) == Some(k)
  {
    if n > 0 { GroupFacts(msgs, k, n - 1); }
  }

  /** The distinct targets among the messages at `idx`. */
  function Targets(msgs: seq<Msg>, idx: seq<nat>): set<string>
    requires Below(idx, |msgs|)
  {
    set j | 0 <= j < |idx| :: msgs[idx[j]].target
  }

  predicate Big(msgs: seq<Msg>, k: Key) { |Targets(msgs, Group(msgs, k, |msgs|))| >= STORM_MIN }

  predicate Stormy(msgs: seq<Msg>, i: nat)
    requires i < |msgs|
  {
    StormKey(msgs[i]).Some? && Big(msgs, StormKey(msgs[i]).value)
  }

  /** The messages that go out together with message `i`. */
  function Origin(msgs: seq<Msg>, i: nat): (o: seq<nat>)
    requires i < |msgs|
    ensures i in o && Ascending(o) && Below(o, |msgs|)
  {
    if Stormy(msgs, i) then
      GroupFacts(msgs, StormKey(msgs[i]).value, |msgs|);
      Group(msgs, StormKey(msgs[i]).value, |msgs|)
    else [i]
  }

  /** A merged alert stands where its first message stood. */
  predicate IsHead(msgs: seq<Msg>, i: nat)
    requires i < |msgs|
  {
    Origin(msgs, i)[0] == i
  }

  function Heads(msgs: seq<Msg>, n: nat): (h: seq<nat>)
    requires n <= |msgs|
    ensures Below(h, n)
  {
    if n == 0 then [] else Heads(msgs, n - 1) + (if IsHead(msgs, n - 1) then [n - 1] else [])
  }

  lemma {:induction false} HeadsFacts(msgs: seq<Msg>, n: nat)
    requires n <= |msgs|
    ensures Ascending(Heads(msgs, n))
    ensures forall i: nat :: i in Heads(msgs, n) <==> i < n && IsHead(msgs, i)
  {
    hide IsHead;
    if n > 0 { HeadsFacts(msgs, n - 1); }
  }

  function OriginsAt(msgs: seq<Msg>, heads: seq<nat>): seq<seq<nat>>
    requires Below(heads, |msgs|)
  {
    seq(|heads|, j requires 0 <= j < |heads| => Origin(msgs, heads[j]))
  }

  /** Which original messages each outgoing one stands for. */
  function Origins(msgs: seq<Msg>): seq<seq<nat>> { OriginsAt(msgs, Heads(msgs, |msgs|)) }

  /** The alert made of several: addressed like the first, carrying all of them. */
  function StormMsg(parts: seq<Msg>): Msg
    requires parts != []
  {
    var m := parts[0];
    var ids := Ids(parts);
    Msg(true, m.kind, m.section, m.group, JoinTargets(parts), m.recovery, if ids == [] then NoRef else Srv(ids),
        m.named, m.norm, m.alarm, parts)
  }

  /** The distinct ids behind the parts, in order of appearance. */
  function Ids(parts: seq<Msg>): seq<int> {
    if parts == [] then []
    else
      var last := parts[|parts| - 1];
      AddNew(Ids(parts[..|parts| - 1]), if last.ref.Srv? || last.ref.Chk? then last.ref.ids else [])
  }

  function AddNew(have: seq<int>, more: seq<int>): seq<int>
    decreases |more|
  {
    if more == [] then have
    else AddNew(if more[0] in have then have else have + [more[0]], more[1..])
  }

  /** The distinct targets, comma-separated, in order of appearance. */
  function JoinTargets(parts: seq<Msg>): string
    requires parts != []
  {
    if |parts| == 1 then parts[0].target
    else
      var init, t := parts[..|parts| - 1], parts[|parts| - 1].target;
      if exists i :: 0 <= i < |init| && init[i].target == t then JoinTargets(init) else JoinTargets(init) + ", " + t
  }

  function PartsOf(msgs: seq<Msg>, idx: seq<nat>): (r: seq<Msg>)
    requires Below(idx, |msgs|)
    ensures |r| == |idx|
  {
    seq(|idx|, j requires 0 <= j < |idx| => msgs[idx[j]])
  }

  function Outgoing(msgs: seq<Msg>, i: nat): Msg
    requires i < |msgs|
  {
    if Stormy(msgs, i) then StormMsg(PartsOf(msgs, Origin(msgs, i))) else msgs[i]
  }

  function OutgoingAt(msgs: seq<Msg>, heads: seq<nat>): seq<Msg>
    requires Below(heads, |msgs|)
  {
    seq(|heads|, j requires 0 <= j < |heads| => Outgoing(msgs, heads[j]))
  }

  function MergedList(msgs: seq<Msg>): seq<Msg> { OutgoingAt(msgs, Heads(msgs, |msgs|)) }

  // ---------------------------------------------------------------- the partition theorem

  predicate Covered(o: seq<seq<nat>>, x: nat) { exists j :: 0 <= j < |o| && x in o[j] }

  /** What the lists of original indices promise: non-empty, ordered, disjoint, covering. */
  ghost predicate Partition(n: nat, o: seq<seq<nat>>) {
    && (forall j :: 0 <= j < |o| ==> o[j] != [] && Ascending(o[j]) && Below(o[j], n))
    && (forall i, j, x: nat :: 0 <= i < |o| && 0 <= j < |o| && x in o[i] && x in o[j] ==> i == j)
    && (forall x: nat :: x < n ==> Covered(o, x))
    && (forall i, j :: 0 <= i < j < |o| ==> o[i][0] < o[j][0])
  }

  /** A single storm: all messages of one key, on at least three distinct targets. */
  ghost predicate OneStorm(msgs: seq<Msg>, idx: seq<nat>) {
    exists k :: idx == Group(msgs, k, |msgs|) && Big(msgs, k)
  }

  /** Messages that go out together agree on who goes with them. */
  lemma OriginShared(msgs: seq<Msg>, i: nat, x: nat)
    requires i < |msgs| && x in Origin(msgs, i) && x < |msgs|
    ensures Origin(msgs, x) == Origin(msgs, i)
  {
    if Stormy(msgs, i) { GroupFacts(msgs, StormKey(msgs[i]).value, |msgs|); }
  }

  lemma HeadOf(msgs: seq<Msg>, x: nat) returns (h: nat)
    requires x < |msgs|
    ensures h < |msgs| && IsHead(msgs, h) && Origin(msgs, h) == Origin(msgs, x)
  {
    h := Origin(msgs, x)[0];
    OriginShared(msgs, x, h);
  }

  lemma StormsPartition(msgs: seq<Msg>)
    ensures |Origins(msgs)| == |MergedList(msgs)|
    ensures Partition(|msgs|, Origins(msgs))
    ensures forall j :: 0 <= j < |Origins(msgs)| && |Origins(msgs)[j]| > 1 ==> OneStorm(msgs, Origins(msgs)[j])
  {
    hide Origin, Outgoing;
    HeadsFacts(msgs, |msgs|);
    var heads, o := Heads(msgs, |msgs|), Origins(msgs);
    forall j | 0 <= j < |o| ensures o[j] == Origin(msgs, heads[j]) && o[j][0] == heads[j] {
      assert heads[j] in heads;
    }
    forall i, j, x: nat | 0 <= i < |o| && 0 <= j < |o| && x in o[i] && x in o[j]
      ensures i == j
    {
      OriginShared(msgs, heads[i], x);
      OriginShared(msgs, heads[j], x);
    }
    forall x: nat | x < |msgs|
      ensures Covered(o, x)
    {
      var h := HeadOf(msgs, x);
      assert h in heads;
      var j :| 0 <= j < |heads| && heads[j] == h;
      assert x in o[j];
    }
    forall j | 0 <= j < |o| && |o[j]| > 1
      ensures OneStorm(msgs, o[j])
    {
      LongIsStorm(msgs, heads[j]);
    }
  }

  lemma LongIsStorm(msgs: seq<Msg>, i: nat)
    requires i < |msgs| && |Origin(msgs, i)| > 1
    ensures OneStorm(msgs, Origin(msgs, i))
  {
  }

  /** Every failure seen on three targets or more does go out as one message. */
  lemma StormsAreMerged(msgs: seq<Msg>, k: Key)
    requires Big(msgs, k)
    ensures Group(msgs, k, |msgs|) in Origins(msgs)
  {
    var g := Group(msgs, k, |msgs|);
    GroupFacts(msgs, k, |msgs|);
    HeadsFacts(msgs, |msgs|);
    assert Targets(msgs, []) == {};
    var x := g[0];
    assert x in g;
    assert Origin(msgs, x) == g;
    assert x in Heads(msgs, |msgs|);
    var j :| 0 <= j < |Heads(msgs, |msgs|)| && Heads(msgs, |msgs|)[j] == x;
    assert Origins(msgs)[j] == g;
  }

  /** A merged alert is addressed like every message behind it. */
  lemma MergedAddress(msgs: seq<Msg>, j: nat, x: nat)
    requires j < |Origins(msgs)| && x in Origins(msgs)[j]
    ensures x < |msgs| && |MergedList(msgs)| == |Origins(msgs)|
    ensures var m := MergedList(msgs)[j];
      m.section == msgs[x].section && m.group == msgs[x].group && m.kind == msgs[x].kind
      && m.recovery == msgs[x].recovery
  {
    var h := Heads(msgs, |msgs|)[j];
    HeadsFacts(msgs, |msgs|);
    assert h in Heads(msgs, |msgs|);
    assert MergedList(msgs)[j] == Outgoing(msgs, h) && Origins(msgs)[j] == Origin(msgs, h);
    var y :| 0 <= y < |Origin(msgs, h)| && Origin(msgs, h)[y] == x;
    if Stormy(msgs, h) {
      GroupFacts(msgs, StormKey(msgs[h]).value, |msgs|);
      assert PartsOf(msgs, Origin(msgs, h))[0] == msgs[h];
    }
  }

  // ---------------------------------------------------------------- which messages go out together

  /** An alert about one named server that may be merged. */
  predicate Mergeable(m: Msg) {
    && m.routed && m.named && m.target != "" && m.kind != "access_change"
    && (|| m.ref.Srv?
        || (m.ref.NoRef? && m.recovery && m.section in {"servers", "docker", "kuber", "services", "backups"}))
  }

  /** The same failure on two servers. */
  predicate Alike(a: Msg, b: Msg) {
    a.kind == b.kind && a.section == b.section && a.group == b.group && a.recovery == b.recovery && a.norm == b.norm
  }

  /** The servers that show the failure of message `x`. */
  function SeenOn(msgs: seq<Msg>, x: nat): set<string>
    requires x < |msgs|
  {
    set z | 0 <= z < |msgs| && Mergeable(msgs[z]) && Alike(msgs[x], msgs[z]) :: msgs[z].target
  }

  lemma KeysAre(a: Msg, b: Msg)
    ensures StormKey(a).Some? <==> Mergeable(a)
    ensures Mergeable(a) && Mergeable(b) ==> (StormKey(a) == StormKey(b) <==> Alike(a, b))
  {
  }

  lemma StormyIs(msgs: seq<Msg>, x: nat)
    requires x < |msgs|
    ensures Stormy(msgs, x) <==> Mergeable(msgs[x]) && |SeenOn(msgs, x)| >= 3
  {
    hide StormKey, Mergeable, Alike, Group;
    KeysAre(msgs[x], msgs[x]);
    if Mergeable(msgs[x]) {
      var k := StormKey(msgs[x]).value;
      GroupFacts(msgs, k, |msgs|);
      var g := Group(msgs, k, |msgs|);
      forall z: nat | z < |msgs| ensures z in g <==> Mergeable(msgs[z]) && Alike(msgs[x], msgs[z]) {
        KeysAre(msgs[z], msgs[x]);
        KeysAre(msgs[x], msgs[z]);
      }
      assert Targets(msgs, g) == SeenOn(msgs, x);
    }
  }

  /** Two messages go out together exactly if both may be merged, they say the same of two servers, and at
      least three servers show that failure. */
  lemma TogetherExactlyWhen(msgs: seq<Msg>, x: nat, y: nat)
    requires x < |msgs| && y < |msgs| && x != y
    ensures (exists j :: 0 <= j < |Origins(msgs)| && x in Origins(msgs)[j] && y in Origins(msgs)[j]) <==>
      Mergeable(msgs[x]) && Mergeable(msgs[y]) && Alike(msgs[x], msgs[y]) && |SeenOn(msgs, x)| >= 3
  {
    hide StormKey, Mergeable, Alike, SeenOn, Origins, Stormy;
    StormyIs(msgs, x);
    KeysAre(msgs[x], msgs[y]);
    KeysAre(msgs[y], msgs[x]);
    TogetherIsOrigin(msgs, x, y);
    OriginHolds(msgs, x, y);
  }

  lemma TogetherIsOrigin(msgs: seq<Msg>, x: nat, y: nat)
    requires x < |msgs|
    ensures (exists j :: 0 <= j < |Origins(msgs)| && x in Origins(msgs)[j] && y in Origins(msgs)[j])
       <==> y in Origin(msgs, x)
  {
    hide Origin;
    HeadsFacts(msgs, |msgs|);
    var heads, o := Heads(msgs, |msgs|), Origins(msgs);
    if j :| 0 <= j < |o| && x in o[j] && y in o[j] {
      assert heads[j] in heads;
      OriginShared(msgs, heads[j], x);
    }
    if y in Origin(msgs, x) {
      var h := HeadOf(msgs, x);
      assert h in heads;
      var j :| 0 <= j < |heads| && heads[j] == h;
      assert x in o[j] && y in o[j];
    }
  }

  lemma OriginHolds(msgs: seq<Msg>, x: nat, y: nat)
    requires x < |msgs| && y < |msgs| && x != y
    ensures y in Origin(msgs, x) <==> Stormy(msgs, x) && StormKey(msgs[y]) == StormKey(msgs[x])
  {
    hide StormKey;
    if Stormy(msgs, x) { GroupFacts(msgs, StormKey(msgs[x]).value, |msgs|); }
  }

  lemma {:induction false} AddNewFacts(have: seq<int>, more: seq<int>)
    requires NoneTwice(have)
    ensures NoneTwice(AddNew(have, more)) && forall id :: id in AddNew(have, more) <==> id in have || id in more
    decreases |more|
  {
    if more != [] {
      assert more == [more[0]] + more[1..];
      AddNewFacts(if more[0] in have then have else have + [more[0]], more[1..]);
    }
  }

  predicate NoneTwice<T(==)>(s: seq<T>) { forall i, j :: 0 <= i < j < |s| ==> s[i] != s[j] }

  /** The object an alert is about, as its buttons have it. */
  predicate Refers(m: Msg, id: int) { (m.ref.Srv? || m.ref.Chk?) && id in m.ref.ids }

  predicate AnyRefers(parts: seq<Msg>, id: int) { exists i :: 0 <= i < |parts| && Refers(parts[i], id) }

  lemma {:induction false} IdsAre(parts: seq<Msg>)
    ensures NoneTwice(Ids(parts))
    ensures forall id :: id in Ids(parts) <==> AnyRefers(parts, id)
  {
    if parts != [] {
      var init, last := parts[..|parts| - 1], parts[|parts| - 1];
      IdsAre(init);
      AddNewFacts(Ids(init), if last.ref.Srv? || last.ref.Chk? then last.ref.ids else []);
      forall id ensures id in Ids(parts) <==> AnyRefers(parts, id) {
        if i :| 0 <= i < |init| && Refers(init[i], id) { assert Refers(parts[i], id); }
        if i :| 0 <= i < |parts| && Refers(parts[i], id) { assert i < |init| ==> Refers(init[i], id); }
      }
    }
  }

  /** What goes out for a list of origins: the message itself, or one alert that carries all of them in
      order and refers, once each, to exactly the servers they refer to. */
  lemma MergedCarries(msgs: seq<Msg>, j: nat)
    requires j < |Origins(msgs)|
    ensures |MergedList(msgs)| == |Origins(msgs)| && Below(Origins(msgs)[j], |msgs|) && Origins(msgs)[j] != []
    ensures var m, o := MergedList(msgs)[j], Origins(msgs)[j];
      && (|o| == 1 ==> m == msgs[o[0]])
      && (|o| > 1 ==>
            && m.routed && |m.parts| == |o| && (forall x :: 0 <= x < |o| ==> m.parts[x] == msgs[o[x]])
            && (m.ref.NoRef? || m.ref.Srv?) && (m.ref.Srv? ==> NoneTwice(m.ref.ids) && m.ref.ids != [])
            && forall id :: Refers(m, id) <==> AnyRefers(m.parts, id))
  {
    hide StormKey, Targets, Group, Ids, JoinTargets;
    var h := Heads(msgs, |msgs|)[j];
    HeadsFacts(msgs, |msgs|);
    assert h in Heads(msgs, |msgs|);
    var o := Origin(msgs, h);
    var parts := PartsOf(msgs, o);
    IdsAre(parts);
    if Stormy(msgs, h) { BigIsLong(msgs, StormKey(msgs[h]).value); }
  }

  /** Texts joined by commas. */
  function Join(names: seq<string>): string
    requires names != []
  {
    if |names| == 1 then names[0] else Join(names[..|names| - 1]) + ", " + names[|names| - 1]
  }

  /** The target of a merged alert: the distinct targets of its parts, the first one first. */
  lemma {:induction false} TargetsAreJoined(parts: seq<Msg>) returns (names: seq<string>)
    requires parts != []
    ensures names != [] && JoinTargets(parts) == Join(names) && NoneTwice(names) && names[0] == parts[0].target
    ensures forall t :: t in names <==> exists i :: 0 <= i < |parts| && parts[i].target == t
  {
    if |parts| == 1 {
      names := [parts[0].target];
    } else {
      var init, t := parts[..|parts| - 1], parts[|parts| - 1].target;
      var before := TargetsAreJoined(init);
      names := if t in before then before else before + [t];
      if t !in before { assert (before + [t])[..|before|] == before; }
      forall u ensures u in names <==> exists i :: 0 <= i < |parts| && parts[i].target == u {
        if i :| 0 <= i < |init| && init[i].target == u { assert parts[i].target == u; }
        if i :| 0 <= i < |parts| && parts[i].target == u { assert i < |init| ==> init[i].target == u; }
      }
    }
  }

  /** Several targets take several messages. */
  lemma BigIsLong(msgs: seq<Msg>, k: Key)
    requires Big(msgs, k)
    ensures |Group(msgs, k, |msgs|)| > 1
  {
    FewTargets(msgs, Group(msgs, k, |msgs|));
  }

  lemma FewTargets(msgs: seq<Msg>, idx: seq<nat>)
    requires Below(idx, |msgs|)
    ensures |idx| <= 1 ==> |Targets(msgs, idx)| <= 1
  {
    assert |idx| == 0 ==> Targets(msgs, idx) == {};
    assert |idx| == 1 ==> Targets(msgs, idx) == {msgs[idx[0]].target};
  }

  // ---------------------------------------------------------------- the source's procedure

  ghost predicate Grouped(groups: map<Key, seq<nat>>, msgs: seq<Msg>, n: nat)
    requires n <= |msgs|
  {
    forall k :: (k in groups <==> Group(msgs, k, n) != []) && (k in groups ==> groups[k] == Group(msgs, k, n))
  }

  /** Collect the groups in a dictionary. */
  method CollectGroups(msgs: seq<Msg>) returns (groups: map<Key, seq<nat>>)
    ensures Grouped(groups, msgs, |msgs|)
  {
    groups := map[];
    NoGroups(msgs);
    hide Grouped, Group, StormKey;
    for i := 0 to |msgs|
      invariant Grouped(groups, msgs, i)
    {
      ghost var was := groups;
      var k := StormKey(msgs[i]);
      if k.Some? {
        groups := groups[k.value := (if k.value in groups then groups[k.value] else []) + [i]];
      }
      GroupsGrow(was, groups, msgs, i);
    }
  }

  lemma NoGroups(msgs: seq<Msg>)
    ensures Grouped(map[], msgs, 0)
  {
  }

  lemma GroupsGrow(was: map<Key, seq<nat>>, groups: map<Key, seq<nat>>, msgs: seq<Msg>, i: nat)
    requires i < |msgs| && Grouped(was, msgs, i)
    requires match StormKey(msgs[i])
      case None => groups == was
      case Some(k) => groups == was[k := (if k in was then was[k] else []) + [i]]
    ensures Grouped(groups, msgs, i + 1)
  {
    hide StormKey;
    forall k
      ensures (k in groups <==> Group(msgs, k, i + 1) != []) && (k in groups ==> groups[k] == Group(msgs, k, i + 1))
    {
      assert Group(msgs, k, i + 1) == Group(msgs, k, i) + (if StormKey(msgs[i]) == Some(k) then [i] else []);
    }
  }

  /** Group by key, pick the large groups, let the first stand for its followers. */
  method MergeStorm(msgs: seq<Msg>) returns (merged: seq<Msg>, origins: seq<seq<nat>>)
    ensures origins == Origins(msgs) && merged == MergedList(msgs)
  {
    hide StormMsg, StormKey, Targets, PartsOf, Grouped, Group;
    var groups := CollectGroups(msgs);
    merged, origins := [], [];
    for i := 0 to |msgs|
      invariant origins == OriginsAt(msgs, Heads(msgs, i))
      invariant merged == OutgoingAt(msgs, Heads(msgs, i))
    {
      hide Heads, OriginsAt, OutgoingAt;
      var k := StormKey(msgs[i]);
      if k.Some? { MemberFacts(groups, msgs, i, k.value); }
      NextHead(msgs, i);
      if k.Some? && |Targets(msgs, groups[k.value])| >= STORM_MIN {
        var idx := groups[k.value];
        if idx[0] == i {
          origins := origins + [idx];
          merged := merged + [StormMsg(PartsOf(msgs, idx))];
        }
      } else {
        origins := origins + [[i]];
        merged := merged + [msgs[i]];
      }
    }
  }

  lemma MemberFacts(groups: map<Key, seq<nat>>, msgs: seq<Msg>, i: nat, k: Key)
    requires i < |msgs| && Grouped(groups, msgs, |msgs|) && StormKey(msgs[i]) == Some(k)
    ensures k in groups && groups[k] == Group(msgs, k, |msgs|) && groups[k] != []
    ensures Stormy(msgs, i) <==> |Targets(msgs, groups[k])| >= STORM_MIN
  {
    GroupFacts(msgs, k, |msgs|);
    assert i in Group(msgs, k, |msgs|);
  }

  lemma NextHead(msgs: seq<Msg>, i: nat)
    requires i < |msgs|
    ensures var h, h' := Heads(msgs, i), Heads(msgs, i + 1);
      if Origin(msgs, i)[0] == i then
        OriginsAt(msgs, h') == OriginsAt(msgs, h) + [Origin(msgs, i)]
        && OutgoingAt(msgs, h') == OutgoingAt(msgs, h) + [Outgoing(msgs, i)]
      else h' == h
  {
    hide Origin, Outgoing;
  }
}
