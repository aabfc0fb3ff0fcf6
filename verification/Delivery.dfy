/** Delivering one batch of alerts (`dispatch` and its helpers in backend/app/alerts.py): the main
    chat and the webhook, the chats by group, the fallback to the main chat, and the bookkeeping of
    what must be tried again. Every send may be accepted, rejected for good, or fail for now. */
module Delivery {
  import opened Basics
  import opened Storm

  // ---------------------------------------------------------------- addressing

  datatype Route = Route(chat: string, servers: set<string>, sites: set<string>)

  datatype Config = Config(
    token: bool, chat: string, webhook: bool, routes: seq<Route>, mainRest: bool, mainBy: map<string, bool>,
    paused: bool, buttons: bool, passed: set<(string, string)>)

  function MainChat(cfg: Config): string { if cfg.token then cfg.chat else "" }

  /** Some common channel is configured. */
  predicate Configured(cfg: Config) { MainChat(cfg) != "" || cfg.webhook }

  predicate TakesGroup(r: Route, m: Msg) { m.group in (if ServerSection(m.section) then r.servers else r.sites) }

  /** The chats whose list names the group of the alert's object. */
  function Hits(routes: seq<Route>, m: Msg): seq<string> {
    if routes == [] || m.section == "" || m.group == "" then []
    else (if TakesGroup(routes[0], m) then [routes[0].chat] else []) + Hits(routes[1..], m)
  }

  predicate Critical(m: Msg) { !m.recovery && (m.kind == "offline" || m.alarm) }

  function Pairs(m: Msg): set<(string, string)> {
    if m.parts == [] then {(m.kind, m.target)}
    else set i | 0 <= i < |m.parts| :: (m.parts[i].kind, m.parts[i].target)
  }

  predicate MainCopy(cfg: Config, m: Msg) {
    if m.recovery && Pairs(m) * cfg.passed != {} then true
    else if cfg.paused then Critical(m) && !(cfg.buttons && cfg.token)
    else
      var key := (if ServerSection(m.section) then "srv:" else "site:") + m.group;
      if key in cfg.mainBy then cfg.mainBy[key] else !cfg.mainRest
  }

  function AddChats(have: seq<string>, more: seq<string>): seq<string>
    decreases |more|
  {
    if more == [] then have
    else AddChats(if more[0] in have then have else have + [more[0]], more[1..])
  }

  /** Where an alert goes in Telegram, without repetitions, the main chat first. */
  function ChatsFor(cfg: Config, m: Msg): seq<string> {
    if !cfg.token then []
    else
      var hits := Hits(cfg.routes, m);
      AddChats(if cfg.chat != "" && (hits == [] || MainCopy(cfg, m)) then [cfg.chat] else [], hits)
  }

  predicate OnMain(cfg: Config, m: Msg) { MainChat(cfg) != "" && MainChat(cfg) in ChatsFor(cfg, m) }

  lemma {:induction false} AddChatsFacts(have: seq<string>, more: seq<string>)
    ensures forall c :: c in AddChats(have, more) <==> c in have || c in more
    decreases |more|
  {
    if more != [] {
      AddChatsFacts(if more[0] in have then have else have + [more[0]], more[1..]);
      assert more == [more[0]] + more[1..];
    }
  }

  /** The route's list for the alert's section names the alert's group. */
  ghost predicate Names(r: Route, section: string, group: string) {
    section != "" && group != ""
    && (section in {"servers", "docker", "kuber", "services", "backups"} ==> group in r.servers)
    && (section !in {"servers", "docker", "kuber", "services", "backups"} ==> group in r.sites)
  }

  lemma {:induction false} HitsAre(routes: seq<Route>, m: Msg, c: string)
    ensures c in Hits(routes, m) <==>
      exists i :: 0 <= i < |routes| && routes[i].chat == c && Names(routes[i], m.section, m.group)
  {
    if routes != [] {
      HitsAre(routes[1..], m, c);
      if c in Hits(routes[1..], m) {
        var i :| 0 <= i < |routes[1..]| && routes[1..][i].chat == c && Names(routes[1..][i], m.section, m.group);
        assert routes[i + 1] == routes[1..][i];
      }
      if i :| 0 < i < |routes| && routes[i].chat == c && Names(routes[i], m.section, m.group) {
        assert routes[1..][i - 1] == routes[i];
      }
    }
  }

  /** The main chat also gets what a chat by group gets: the end of something it was told during a pause;
      else during a pause only what is critical and cannot be confirmed by a button; else by the choice for
      the group, else by the common choice. */
  lemma CopyIs(cfg: Config, m: Msg)
    ensures MainCopy(cfg, m) <==>
      var passed := m.recovery
        && if m.parts == [] then (m.kind, m.target) in cfg.passed
           else exists i :: 0 <= i < |m.parts| && (m.parts[i].kind, m.parts[i].target) in cfg.passed;
      var key := (if m.section in {"servers", "docker", "kuber", "services", "backups"} then "srv:" else "site:")
                 + m.group;
      || passed
      || (!passed && cfg.paused && !m.recovery && (m.kind == "offline" || m.alarm) && !(cfg.buttons && cfg.token))
      || (!passed && !cfg.paused && key in cfg.mainBy && cfg.mainBy[key])
      || (!passed && !cfg.paused && key !in cfg.mainBy && !cfg.mainRest)
  {
    if m.parts != [] {
      forall i | 0 <= i < |m.parts| ensures (m.parts[i].kind, m.parts[i].target) in Pairs(m) { }
    }
    assert m.recovery ==> (Pairs(m) * cfg.passed != {} <==> exists x :: x in Pairs(m) && x in cfg.passed) by {
      if x :| x in Pairs(m) && x in cfg.passed { assert x in Pairs(m) * cfg.passed; }
    }
  }

  /** Where an alert goes, from the configuration alone: to each chat whose list names its group, and to
      the main chat if no list does, if the copy rule says so, or if the main chat is such a chat. */
  lemma ChatsAre(cfg: Config, m: Msg, c: string)
    ensures c in ChatsFor(cfg, m) <==>
      && cfg.token
      && (|| (exists i :: 0 <= i < |cfg.routes| && cfg.routes[i].chat == c && Names(cfg.routes[i], m.section, m.group))
          || (&& c == cfg.chat && c != ""
              && ((forall i :: 0 <= i < |cfg.routes| ==> !Names(cfg.routes[i], m.section, m.group))
                  || MainCopy(cfg, m))))
  {
    hide MainCopy, Names, Hits, AddChats;
    var hits := Hits(cfg.routes, m);
    AddChatsFacts(if cfg.chat != "" && (hits == [] || MainCopy(cfg, m)) then [cfg.chat] else [], hits);
    HitsAre(cfg.routes, m, c);
    if hits != [] {
      HitsAre(cfg.routes, m, hits[0]);
    } else {
      forall i | 0 <= i < |cfg.routes| ensures !Names(cfg.routes[i], m.section, m.group) {
        HitsAre(cfg.routes, m, cfg.routes[i].chat);
      }
    }
  }

  /** An alert that the main chat does not get has a chat of its own, and it is not the main one. */
  lemma NotOnMainHasChat(cfg: Config, m: Msg) returns (chat: string)
    requires MainChat(cfg) != "" && !OnMain(cfg, m)
    ensures chat in ChatsFor(cfg, m) && chat != MainChat(cfg)
  {
    var hits := Hits(cfg.routes, m);
    AddChatsFacts(if cfg.chat != "" && (hits == [] || MainCopy(cfg, m)) then [cfg.chat] else [], hits);
    assert hits == [] ==> MainChat(cfg) in ChatsFor(cfg, m);
    chat := hits[0];
  }

  // ---------------------------------------------------------------- what happened to each message

  datatype Result = Accepted | Rejected | Failed(uncertain: bool)
  datatype Channel = Telegram(chat: string) | Webhook
  datatype Stage = Common | ByGroup | Fallback

  /** What one send carries: the digest of a batch, or one message. */
  datatype Piece = Digest | Single(msg: nat)

  /** The network: the outcome of every send a batch could make. It is arbitrary. */
  type World = (Stage, Channel, Piece) -> Result

  /** A webhook that does not take a text has failed for now, nothing more is known. */
  function Seen(world: World, stage: Stage, channel: Channel, piece: Piece): Result {
    var r := world(stage, channel, piece);
    if channel.Webhook? && !r.Accepted? then Failed(false) else r
  }

  /** One attempt that carried a message, alone or in a digest. */
  datatype Try = Try(stage: Stage, channel: Channel, piece: Piece, result: Result)

  predicate Acc(s: set<Try>, stage: Stage) { exists t :: t in s && t.stage == stage && t.result.Accepted? }
  predicate Soft(s: set<Try>, stage: Stage) { exists t :: t in s && t.stage == stage && t.result.Failed? }
  predicate Doubt(s: set<Try>, stage: Stage) { exists t :: t in s && t.stage == stage && t.result == Failed(true) }
  predicate Sent(s: set<Try>, stage: Stage, channel: Channel) {
    exists t :: t in s && t.stage == stage && t.channel == channel
  }

  predicate Distinct<T(==)>(s: seq<T>) { forall i, j :: 0 <= i < j < |s| ==> s[i] != s[j] }

  /** Many messages go as a digest; a threshold of zero switches digests off. */
  predicate Many(threshold: nat, n: nat) { threshold > 0 && n >= threshold }

  function PieceFor(digest: bool, i: nat): Piece { if digest then Digest else Single(i) }

  // ---------------------------------------------------------------- the ledger of attempts

  /** For each message the attempts that carried it. */
  type Ledger = seq<set<Try>>

  function TryOf(world: World, stage: Stage, channel: Channel, idx: seq<nat>, threshold: nat, i: nat): Try {
    var piece := PieceFor(Many(threshold, |idx|), i);
    Try(stage, channel, piece, Seen(world, stage, channel, piece))
  }

  /** The ledger after the messages `idx` were offered to one channel. */
  ghost function Note(world: World, l: Ledger, stage: Stage, channel: Channel, idx: seq<nat>, threshold: nat)
    : (l': Ledger)
    ensures |l'| == |l|
    ensures forall i: nat :: i < |l| ==>
      l'[i] == if i in idx then l[i] + {TryOf(world, stage, channel, idx, threshold, i)} else l[i]
  {
    seq(|l|, i requires 0 <= i < |l| =>
      if i in idx then l[i] + {TryOf(world, stage, channel, idx, threshold, i)} else l[i])
  }

  /** The messages a channel was offered at one stage. */
  ghost function Carried(l: Ledger, stage: Stage, channel: Channel): set<nat> {
    set i: nat | i < |l| && Sent(l[i], stage, channel)
  }

  /** Every attempt says what the network answered, and was a digest exactly if the channel was
      offered many messages at that stage. */
  ghost predicate Faithful(world: World, threshold: nat, l: Ledger) {
    forall i: nat, t :: i < |l| && t in l[i] ==>
      && t.result == Seen(world, t.stage, t.channel, t.piece)
      && t.piece == PieceFor(Many(threshold, |Carried(l, t.stage, t.channel)|), i)
  }

  function Elements(idx: seq<nat>): set<nat> { set i | i in idx }

  lemma ElementsGrow(init: seq<nat>, last: nat)
    requires last !in init
    ensures |Elements(init + [last])| == |Elements(init)| + 1
  {
    assert Elements(init + [last]) == Elements(init) + {last};
  }

  lemma {:induction false} DistinctSize(idx: seq<nat>)
    requires Distinct(idx)
    ensures |Elements(idx)| == |idx|
  {
    if idx == [] {
      assert Elements(idx) == {};
    } else {
      var init, last := idx[..|idx| - 1], idx[|idx| - 1];
      assert idx == init + [last];
      DistinctSize(init);
      ElementsGrow(init, last);
    }
  }

  lemma AddSent(s: set<Try>, t: Try)
    ensures forall g, c :: Sent(s + {t}, g, c) <==> Sent(s, g, c) || (t.stage == g && t.channel == c)
  {
    assert forall g, c :: Sent(s, g, c) ==> Sent(s + {t}, g, c);
    assert t in s + {t};
  }

  lemma NoteSent(world: World, l: Ledger, stage: Stage, channel: Channel, idx: seq<nat>, threshold: nat)
    ensures var l' := Note(world, l, stage, channel, idx, threshold);
      forall i: nat, g, c :: i < |l| ==>
        (Sent(l'[i], g, c) <==> Sent(l[i], g, c) || (g == stage && c == channel && i in idx))
  {
    hide Sent;
    forall i: nat | i < |l| && i in idx { AddSent(l[i], TryOf(world, stage, channel, idx, threshold, i)); }
  }

  /** Noting one pass over a channel not used before at that stage keeps the ledger faithful. */
  lemma NoteKeeps(world: World, l: Ledger, stage: Stage, channel: Channel, idx: seq<nat>, threshold: nat)
    requires Faithful(world, threshold, l) && Distinct(idx) && Below(idx, |l|)
    requires forall i: nat :: i < |l| ==> !Sent(l[i], stage, channel)
    ensures Faithful(world, threshold, Note(world, l, stage, channel, idx, threshold))
  {
    var l' := Note(world, l, stage, channel, idx, threshold);
    NoteSent(world, l, stage, channel, idx, threshold);
    DistinctSize(idx);
    assert Carried(l', stage, channel) == Elements(idx);
    forall i: nat, t: Try | i < |l'| && t in l'[i]
      ensures t.result == Seen(world, t.stage, t.channel, t.piece)
      ensures t.piece == PieceFor(Many(threshold, |Carried(l', t.stage, t.channel)|), i)
    {
      if t in l[i] {
        assert Sent(l[i], t.stage, t.channel);
        assert Carried(l', t.stage, t.channel) == Carried(l, t.stage, t.channel) by {
          hide Sent, Note;
        }
      }
    }
  }

  // ---------------------------------------------------------------- sending

  /** What both channels answer to one text. */
  datatype Answer = Answer(tg: Result, hook: bool)

  function AnswerOf(world: World, stage: Stage, chat: string, piece: Piece): Answer {
    Answer(Seen(world, stage, Telegram(chat), piece), Seen(world, stage, Webhook, piece).Accepted?)
  }

  predicate GotBy(tg: bool, hook: bool, a: Answer) { (tg && a.tg.Accepted?) || (hook && a.hook) }
  predicate AgainBy(tg: bool, hook: bool, a: Answer) {
    !GotBy(tg, hook, a) && ((tg && a.tg.Failed?) || (hook && !a.hook))
  }
  predicate DoubtBy(tg: bool, a: Answer) { tg && a.tg == Failed(true) }

  /** `send_alert`: the number of errors, how many of them are final, and whether the text may have
      arrived although the call failed. */
  method SendAlert(world: World, stage: Stage, chat: string, piece: Piece, tg: bool, hook: bool)
    returns (errors: nat, rejected: nat, uncertain: bool)
    ensures var ans := AnswerOf(world, stage, chat, piece);
      && errors == (if tg && !ans.tg.Accepted? then 1 else 0) + (if hook && !ans.hook then 1 else 0)
      && rejected == (if tg && ans.tg.Rejected? then 1 else 0)
      && uncertain == DoubtBy(tg, ans)
  {
    errors, rejected, uncertain := 0, 0, false;
    if tg {
      match world(stage, Telegram(chat), piece) {
        case Accepted =>
        case Rejected => errors, rejected := errors + 1, rejected + 1;
        case Failed(u) => errors, uncertain := errors + 1, u;
      }
    }
    if hook && !world(stage, Webhook, piece).Accepted? { errors := errors + 1; }
  }

  function Channels(tg: bool, hook: bool): nat { (if tg then 1 else 0) + (if hook then 1 else 0) }

  /** `_outcome`: delivered somewhere, and whether a retry could help. */
  function Outcome(errors: nat, rejected: nat, channels: nat): (bool, bool) {
    var got := errors < channels;
    (got, !got && errors > rejected)
  }

  /** One pass over the common channels: what is sent where, and whether as a digest. */
  datatype Pass = Pass(stage: Stage, chat: string, tg: bool, hook: bool, digest: bool, texts: seq<nat>)

  /** The answer to text `i` of the pass. */
  function AnswerTo(world: World, p: Pass, i: nat): Answer {
    AnswerOf(world, p.stage, p.chat, PieceFor(p.digest, if i < |p.texts| then p.texts[i] else i))
  }

  /** The three result sets say what the answers to the texts `idx` say. */
  ghost predicate Booked(world: World, p: Pass, idx: seq<nat>, got: set<nat>, again: set<nat>, doubt: set<nat>) {
    forall i: nat :: (i in got <==> i in idx && GotBy(p.tg, p.hook, AnswerTo(world, p, i)))
                     && (i in again <==> i in idx && AgainBy(p.tg, p.hook, AnswerTo(world, p, i)))
                     && (i in doubt <==> i in idx && DoubtBy(p.tg, AnswerTo(world, p, i)))
  }

  /** One more text booked. */
  lemma BookOne(world: World, p: Pass, done: seq<nat>, i: nat, got: set<nat>, again: set<nat>, doubt: set<nat>)
    requires Booked(world, p, done, got, again, doubt)
    ensures var a := AnswerTo(world, p, i);
      Booked(world, p, done + [i], if GotBy(p.tg, p.hook, a) then got + {i} else got,
             if AgainBy(p.tg, p.hook, a) then again + {i} else again,
             if DoubtBy(p.tg, a) then doubt + {i} else doubt)
  {
    hide AnswerTo, GotBy, AgainBy, DoubtBy;
  }

  /** `_send_common`: one digest if there are many messages, else one by one. */
  method SendCommon(world: World, stage: Stage, chat: string, tg: bool, hook: bool, idx: seq<nat>, texts: seq<nat>,
                    threshold: nat)
    returns (got: set<nat>, again: set<nat>, doubt: set<nat>)
    requires Below(idx, |texts|)
    ensures Booked(world, Pass(stage, chat, tg, hook, Many(threshold, |idx|), texts), idx, got, again, doubt)
  {
    got, again, doubt := {}, {}, {};
    ghost var p := Pass(stage, chat, tg, hook, Many(threshold, |idx|), texts);
    var channels := Channels(tg, hook);
    if idx == [] || channels == 0 { return; }
    if threshold > 0 && |idx| >= threshold {
      var errors, rejected, uncertain := SendAlert(world, stage, chat, Digest, tg, hook);
      var all := set i | i in idx;
      var (g, r) := Outcome(errors, rejected, channels);
      if g { got := all; }
      if r { again := all; }
      if uncertain { doubt := all; }
      return;
    }
    for k := 0 to |idx|
      invariant Booked(world, p, idx[..k], got, again, doubt)
    {
      hide Booked, AnswerOf;
      var i := idx[k];
      assert idx[..k + 1] == idx[..k] + [i];
      var errors, rejected, uncertain := SendAlert(world, stage, chat, Single(texts[i]), tg, hook);
      var (g, r) := Outcome(errors, rejected, channels);
      BookOne(world, p, idx[..k], i, got, again, doubt);
      if g { got := got + {i}; }
      if r { again := again + {i}; }
      if uncertain { doubt := doubt + {i}; }
    }
    assert idx[..|idx|] == idx;
  }

  /** The answer of a chat by group to message `i` of a batch. */
  function ChatResult(world: World, chat: string, items: seq<nat>, threshold: nat, i: nat): Result {
    TryOf(world, ByGroup, Telegram(chat), items, threshold, i).result
  }

  /** `_send_batch_via`: one chat by group, as a digest or one by one; any refusal is a failure. */
  method SendBatch(world: World, chat: string, items: seq<nat>, threshold: nat)
    returns (failed: seq<nat>, doubt: set<nat>)
    requires Distinct(items)
    ensures Distinct(failed)
    ensures forall i: nat :: i in failed <==> i in items && !ChatResult(world, chat, items, threshold, i).Accepted?
    ensures forall i: nat :: i in doubt <==> i in items && ChatResult(world, chat, items, threshold, i) == Failed(true)
  {
    failed, doubt := [], {};
    if threshold > 0 && |items| >= threshold {
      var errors, _, uncertain := SendAlert(world, ByGroup, chat, Digest, true, false);
      if errors > 0 { failed := items; }
      if uncertain { doubt := set i | i in items; }
      return;
    }
    for k := 0 to |items|
      invariant Distinct(failed)
      invariant forall i: nat :: i in failed <==>
        i in items[..k] && !ChatResult(world, chat, items, threshold, i).Accepted?
      invariant forall i: nat :: i in doubt <==>
        i in items[..k] && ChatResult(world, chat, items, threshold, i) == Failed(true)
    {
      var i := items[k];
      assert i !in items[..k] && items[..k + 1] == items[..k] + [i];
      var errors, _, uncertain := SendAlert(world, ByGroup, chat, Single(i), true, false);
      if errors > 0 { failed := failed + [i]; }
      if uncertain { doubt := doubt + {i}; }
    }
    assert items[..|items|] == items;
  }

  // ---------------------------------------------------------------- chats by group

  /** An alert of this kind is not repeated after an uncertain send, if the caller tracks it. */
  predicate Skips(tracked: bool, m: Msg) { tracked && m.kind == "oom" }

  /** A failed attempt in a chat by group that calls for the fallback. */
  predicate Missed(s: set<Try>, skip: bool) {
    exists t :: t in s && t.stage == ByGroup && !t.result.Accepted? && !(skip && t.result == Failed(true))
  }

  lemma AddTry(s: set<Try>, t: Try)
    ensures forall g :: Acc(s + {t}, g) <==> Acc(s, g) || (t.stage == g && t.result.Accepted?)
    ensures forall g :: Soft(s + {t}, g) <==> Soft(s, g) || (t.stage == g && t.result.Failed?)
    ensures forall g :: Doubt(s + {t}, g) <==> Doubt(s, g) || (t.stage == g && t.result == Failed(true))
    ensures forall skip :: Missed(s + {t}, skip) <==>
      Missed(s, skip) || (t.stage == ByGroup && !t.result.Accepted? && !(skip && t.result == Failed(true)))
  {
    assert forall g :: Acc(s, g) ==> Acc(s + {t}, g);
    assert t in s + {t};
  }

  ghost predicate Untouched(s: set<Try>) { forall t :: t in s ==> t.stage == Common }

  lemma NothingYet(s: set<Try>)
    requires Untouched(s)
    ensures forall g :: g != Common ==> !Acc(s, g) && !Soft(s, g) && !Doubt(s, g)
    ensures forall skip :: !Missed(s, skip)
    ensures forall g, c :: g != Common ==> !Sent(s, g, c)
  {
  }

  /** Which chats (other than the main one) get which messages. */
  ghost predicate Planned(cfg: Config, msgs: seq<Msg>, plan: map<string, seq<nat>>) {
    && (forall c :: c in plan ==> Distinct(plan[c]) && Below(plan[c], |msgs|))
    && (forall c, i: nat :: i < |msgs| ==>
          (c in plan && i in plan[c] <==> c != cfg.chat && c in ChatsFor(cfg, msgs[i])))
  }

  lemma {:induction false} AddChatsDistinct(have: seq<string>, more: seq<string>)
    requires Distinct(have)
    ensures Distinct(AddChats(have, more))
    decreases |more|
  {
    if more != [] {
      if more[0] in have {
        AddChatsDistinct(have, more[1..]);
      } else {
        AddChatsDistinct(have + [more[0]], more[1..]);
      }
    }
  }

  lemma ChatsDistinct(cfg: Config, m: Msg)
    ensures Distinct(ChatsFor(cfg, m))
  {
    var hits := Hits(cfg.routes, m);
    AddChatsDistinct(if cfg.chat != "" && (hits == [] || MainCopy(cfg, m)) then [cfg.chat] else [], hits);
  }

  /** The plan with message `i` added for the chats `mine`, except the main one. */
  ghost predicate Extends(was: map<string, seq<nat>>, plan: map<string, seq<nat>>, main: string,
                          mine: seq<string>, i: nat) {
    forall c ::
      var here := c != main && c in mine;
      && (c in plan <==> c in was || here)
      && (c in plan ==> plan[c] == (if c in was then was[c] else []) + (if here then [i] else []))
  }

  predicate Lists(chats: seq<string>, plan: map<string, seq<nat>>) {
    Distinct(chats) && (forall c :: c in chats ==> c in plan) && (forall c :: c in plan ==> c in chats)
  }

  method ExtendPlan(chats: seq<string>, plan: map<string, seq<nat>>, main: string, mine: seq<string>, i: nat)
    returns (chats': seq<string>, plan': map<string, seq<nat>>)
    requires Distinct(mine) && Lists(chats, plan)
    ensures Extends(plan, plan', main, mine, i) && Lists(chats', plan')
  {
    chats', plan' := chats, plan;
    for k := 0 to |mine|
      invariant Extends(plan, plan', main, mine[..k], i) && Lists(chats', plan')
    {
      hide Extends, Lists;
      var c := mine[k];
      assert mine[..k + 1] == mine[..k] + [c] && c !in mine[..k];
      ExtendOne(plan, plan', chats', main, mine[..k], c, i);
      if c != main {
        if c !in plan' { chats' := chats' + [c]; }
        plan' := plan'[c := (if c in plan' then plan'[c] else []) + [i]];
      }
    }
    assert mine[..|mine|] == mine;
  }

  lemma ExtendOne(was: map<string, seq<nat>>, plan: map<string, seq<nat>>, chats: seq<string>, main: string,
                  done: seq<string>, c: string, i: nat)
    requires Extends(was, plan, main, done, i) && Lists(chats, plan) && c !in done
    ensures c == main ==> Extends(was, plan, main, done + [c], i)
    ensures c != main ==>
      var plan' := plan[c := (if c in plan then plan[c] else []) + [i]];
      Extends(was, plan', main, done + [c], i) && Lists(if c in plan then chats else chats + [c], plan')
  {
    assert forall x :: x in done + [c] <==> x in done || x == c;
  }

  /** The first loop of `_send_routes`: a dictionary from chat to messages, in order of appearance. */
  method PlanRoutes(cfg: Config, msgs: seq<Msg>) returns (chats: seq<string>, plan: map<string, seq<nat>>)
    ensures Planned(cfg, msgs, plan) && Lists(chats, plan)
  {
    hide ChatsFor, Extends;
    chats, plan := [], map[];
    for i := 0 to |msgs|
      invariant Planned(cfg, msgs[..i], plan) && Lists(chats, plan)
    {
      hide Planned, Lists;
      ChatsDistinct(cfg, msgs[i]);
      ghost var was := plan;
      chats, plan := ExtendPlan(chats, plan, cfg.chat, ChatsFor(cfg, msgs[i]), i);
      PlanGrows(cfg, msgs, i, was, plan);
    }
    assert msgs[..|msgs|] == msgs;
  }

  /** One chat's list after message `i`. */
  lemma ListGrows(was: seq<nat>, here: bool, i: nat)
    requires Distinct(was) && Below(was, i)
    ensures var now := was + if here then [i] else [];
      Distinct(now) && Below(now, i + 1) && forall x: nat :: x in now <==> x in was || (here && x == i)
  {
  }

  lemma PlanGrows(cfg: Config, msgs: seq<Msg>, i: nat, was: map<string, seq<nat>>, plan: map<string, seq<nat>>)
    requires i < |msgs| && Planned(cfg, msgs[..i], was)
    requires Extends(was, plan, cfg.chat, ChatsFor(cfg, msgs[i]), i)
    ensures Planned(cfg, msgs[..i + 1], plan)
  {
    hide ChatsFor, Distinct, Below;
    forall c
      ensures c in plan ==> Distinct(plan[c]) && Below(plan[c], i + 1)
      ensures forall x: nat :: x < i + 1 ==>
        (c in plan && x in plan[c] <==> c != cfg.chat && c in ChatsFor(cfg, msgs[..i + 1][x]))
    {
      PlanGrowsAt(cfg, msgs, i, was, plan, c);
    }
  }

  lemma PlanGrowsAt(cfg: Config, msgs: seq<Msg>, i: nat, was: map<string, seq<nat>>,
                    plan: map<string, seq<nat>>, c: string)
    requires i < |msgs| && Planned(cfg, msgs[..i], was)
    requires Extends(was, plan, cfg.chat, ChatsFor(cfg, msgs[i]), i)
    ensures c in plan ==> Distinct(plan[c]) && Below(plan[c], i + 1)
    ensures forall x: nat :: x < i + 1 ==>
      (c in plan && x in plan[c] <==> c != cfg.chat && c in ChatsFor(cfg, msgs[..i + 1][x]))
  {
    hide ChatsFor;
    var here, had := c != cfg.chat && c in ChatsFor(cfg, msgs[i]), if c in was then was[c] else [];
    assert c in plan ==> plan[c] == had + if here then [i] else [];
    ListGrows(had, here, i);
    hide Distinct, Below;
    forall x: nat | x < i + 1
      ensures c in plan && x in plan[c] <==> c != cfg.chat && c in ChatsFor(cfg, msgs[..i + 1][x])
    {
      if x < i {
        assert msgs[..i][x] == msgs[..i + 1][x];
        assert c in was && x in was[c] <==> c != cfg.chat && c in ChatsFor(cfg, msgs[..i][x]);
      } else {
        NotListed(had, i);
      }
    }
  }

  lemma NotListed(was: seq<nat>, i: nat)
    requires Below(was, i)
    ensures i !in was
  {
  }

  /** Only the main chat can step in, and only for what it was not sent anyway. */
  predicate Eligible(cfg: Config, m: Msg) { MainChat(cfg) != "" && !OnMain(cfg, m) }

  /** One message after some chats by group were served. */
  ghost predicate ChatStory(cfg: Config, m: Msg, tracked: bool, was: set<Try>, now: set<Try>,
                            got: bool, back: bool, doubt: bool) {
    && was <= now && (forall t :: t in now && t !in was ==> t.stage == ByGroup)
    && (got <==> Acc(now, ByGroup)) && (doubt <==> Doubt(now, ByGroup))
    && (back <==> Eligible(cfg, m) && Missed(now, Skips(tracked, m)))
  }

  /** The messages a chat did not take, queued for the main chat; each at most once. */
  method QueueFallback(cfg: Config, msgs: seq<Msg>, tracked: bool, back: seq<nat>, failed: seq<nat>, doubt: set<nat>)
    returns (back': seq<nat>)
    requires Distinct(back) && Below(back, |msgs|) && Below(failed, |msgs|)
    ensures Distinct(back') && Below(back', |msgs|)
    ensures forall i: nat :: i in back' <==>
      i in back || (i in failed && Eligible(cfg, msgs[i]) && !(Skips(tracked, msgs[i]) && i in doubt))
  {
    hide Eligible, Skips;
    back' := back;
    for k := 0 to |failed|
      invariant Distinct(back') && Below(back', |msgs|)
      invariant forall i: nat :: i in back' <==>
        i in back || (i in failed[..k] && Eligible(cfg, msgs[i]) && !(Skips(tracked, msgs[i]) && i in doubt))
    {
      var i := failed[k];
      assert failed[..k + 1] == failed[..k] + [i];
      if !(Skips(tracked, msgs[i]) && i in doubt) && Eligible(cfg, msgs[i]) && i !in back' {
        back' := back' + [i];
      }
    }
    assert failed[..|failed|] == failed;
  }

  lemma ChatStep(cfg: Config, m: Msg, tracked: bool, was: set<Try>, now: set<Try>, t: Try,
                 got: bool, back: bool, doubt: bool)
    requires t.stage == ByGroup && ChatStory(cfg, m, tracked, was, now, got, back, doubt)
    ensures ChatStory(cfg, m, tracked, was, now + {t}, got || t.result.Accepted?,
                      back || (!t.result.Accepted? && Eligible(cfg, m)
                               && !(Skips(tracked, m) && t.result == Failed(true))),
                      doubt || t.result == Failed(true))
  {
    hide Eligible, Acc, Doubt, Missed, Skips;
    AddTry(now, t);
  }

  /** After the chats `done` exactly the planned attempts were made. */
  ghost predicate Served(l: Ledger, done: seq<string>, plan: map<string, seq<nat>>) {
    forall i: nat, ch :: i < |l| ==>
      (Sent(l[i], ByGroup, ch) <==> ch.Telegram? && ch.chat in done && ch.chat in plan && i in plan[ch.chat])
  }

  ghost predicate NoFallback(l: Ledger) { forall i: nat, ch :: i < |l| ==> !Sent(l[i], Fallback, ch) }

  lemma ServeOne(world: World, l: Ledger, done: seq<string>, plan: map<string, seq<nat>>, chat: string, threshold: nat)
    requires Served(l, done, plan) && NoFallback(l) && chat in plan && chat !in done
    requires Faithful(world, threshold, l) && Distinct(plan[chat]) && Below(plan[chat], |l|)
    ensures var l' := Note(world, l, ByGroup, Telegram(chat), plan[chat], threshold);
      Served(l', done + [chat], plan) && NoFallback(l') && Faithful(world, threshold, l')
  {
    hide Faithful, Sent;
    NoteSent(world, l, ByGroup, Telegram(chat), plan[chat], threshold);
    NoteKeeps(world, l, ByGroup, Telegram(chat), plan[chat], threshold);
  }

  lemma ServeNone(l: Ledger, plan: map<string, seq<nat>>)
    requires forall i: nat :: i < |l| ==> Untouched(l[i])
    ensures Served(l, [], plan) && NoFallback(l)
  {
    forall i: nat | i < |l| ensures forall g, c :: g != Common ==> !Sent(l[i], g, c) { NothingYet(l[i]); }
  }

  /** The second loop of `_send_routes`: one batch per chat. */
  method SendChats(world: World, cfg: Config, msgs: seq<Msg>, chats: seq<string>, plan: map<string, seq<nat>>,
                   threshold: nat, tracked: bool, ghost l: Ledger)
    returns (got: set<nat>, back: seq<nat>, doubt: set<nat>, ghost l': Ledger)
    requires Planned(cfg, msgs, plan) && Lists(chats, plan)
    requires |l| == |msgs| && (forall i: nat :: i < |l| ==> Untouched(l[i])) && Faithful(world, threshold, l)
    ensures |l'| == |msgs| && Distinct(back) && Below(back, |msgs|)
    ensures forall i: nat :: i in got || i in doubt ==> i < |msgs|
    ensures forall i: nat :: i < |msgs| ==>
      ChatStory(cfg, msgs[i], tracked, l[i], l'[i], i in got, i in back, i in doubt)
    ensures Served(l', chats, plan) && NoFallback(l') && Faithful(world, threshold, l')
  {
    hide Eligible, Acc, Doubt, Missed, Sent, Skips, ChatsFor, Faithful, Served, NoFallback;
    got, back, doubt, l' := {}, [], {}, l;
    ServeNone(l, plan);
    forall i: nat | i < |l|
      ensures ChatStory(cfg, msgs[i], tracked, l[i], l'[i], i in got, i in back, i in doubt)
    {
      NothingYet(l[i]);
    }
    for k := 0 to |chats|
      invariant |l'| == |msgs| && Distinct(back) && Below(back, |msgs|)
      invariant forall i: nat :: i in got || i in doubt ==> i < |msgs|
      invariant forall i: nat :: i < |msgs| ==>
        ChatStory(cfg, msgs[i], tracked, l[i], l'[i], i in got, i in back, i in doubt)
      invariant Served(l', chats[..k], plan) && NoFallback(l') && Faithful(world, threshold, l')
    {
      var chat := chats[k];
      assert chat in chats && chat !in chats[..k] && chats[..k + 1] == chats[..k] + [chat];
      ServeOne(world, l', chats[..k], plan, chat, threshold);
      var items := plan[chat];
      var failed, unsure := SendBatch(world, chat, items, threshold);
      ghost var got0, back0, doubt0, l0 := got, back, doubt, l';
      forall j | 0 <= j < |failed| ensures failed[j] < |msgs| { assert failed[j] in failed; }
      back := QueueFallback(cfg, msgs, tracked, back, failed, unsure);
      got := got + (set i | i in items && i !in failed);
      doubt := doubt + unsure;
      l' := Note(world, l', ByGroup, Telegram(chat), items, threshold);
      hide ChatStory;
      forall i: nat | i < |msgs|
        ensures ChatStory(cfg, msgs[i], tracked, l[i], l'[i], i in got, i in back, i in doubt)
      {
        assert ChatStory(cfg, msgs[i], tracked, l[i], l0[i], i in got0, i in back0, i in doubt0);
        if i in items {
          var t := TryOf(world, ByGroup, Telegram(chat), items, threshold, i);
          ChatStep(cfg, msgs[i], tracked, l[i], l0[i], t, i in got0, i in back0, i in doubt0);
        }
      }
    }
    assert chats[..|chats|] == chats;
  }

  // ---------------------------------------------------------------- the fallback

  /** One message after the whole of `_send_routes`. */
  ghost predicate RouteStory(cfg: Config, m: Msg, tracked: bool, was: set<Try>, now: set<Try>,
                             again: bool, got: bool, doubt: bool) {
    var skip := Skips(tracked, m);
    && was <= now && (forall t :: t in now && t !in was ==> t.stage != Common)
    && RoutesSent(cfg, m, tracked, now)
    && (got <==> Acc(now, ByGroup) || Acc(now, Fallback))
    && (doubt <==> tracked && (Doubt(now, ByGroup) || Doubt(now, Fallback)))
    && (again <==> !Acc(now, Fallback) && Soft(now, Fallback) && !(skip && Doubt(now, Fallback)))
  }

  /** A message is offered to exactly its chats by group, and to the main chat as a fallback exactly if
      that one has not had it and some chat missed it. */
  ghost predicate RoutesSent(cfg: Config, m: Msg, tracked: bool, now: set<Try>) {
    && (forall ch :: Sent(now, ByGroup, ch) <==> ch.Telegram? && ch.chat != cfg.chat && ch.chat in ChatsFor(cfg, m))
    && (forall ch :: Sent(now, Fallback, ch) <==>
          ch == Telegram(cfg.chat) && Eligible(cfg, m) && Missed(now, Skips(tracked, m)))
  }

  function Range(n: nat): (r: seq<nat>)
    ensures |r| == n
  {
    if n == 0 then [] else Range(n - 1) + [n - 1]
  }

  lemma {:induction false} RangeFacts(n: nat)
    ensures forall k :: 0 <= k < n ==> Range(n)[k] == k
    ensures Distinct(Range(n))
    ensures forall i: nat :: i in Range(n) <==> i < n
  {
    if n > 0 { RangeFacts(n - 1); }
    assert forall k :: 0 <= k < n ==> Range(n)[k] == k;
  }

  /** Local indices of the fallback list, read as indices of the batch. */
  function Through(back: seq<nat>, s: set<nat>): set<nat> {
    set j | 0 <= j < |back| && j in s :: back[j]
  }

  lemma ThroughFacts(back: seq<nat>, s: set<nat>)
    requires Distinct(back)
    ensures forall j: nat :: j < |back| ==> (back[j] in Through(back, s) <==> j in s)
    ensures forall i: nat :: i in Through(back, s) ==> i in back
  {
  }

  /** Only the chats by group were served. */
  ghost predicate ChatsSent(cfg: Config, m: Msg, now: set<Try>) {
    forall g, ch :: g != Common ==>
      (Sent(now, g, ch) <==> g == ByGroup && ch.Telegram? && ch.chat != cfg.chat && ch.chat in ChatsFor(cfg, m))
  }

  lemma FallbackStory(cfg: Config, m: Msg, tracked: bool, was: set<Try>, mid: set<Try>, got: bool, doubt: bool, t: Try)
    requires t.stage == Fallback && t.channel == Telegram(cfg.chat)
    requires Untouched(was) && ChatStory(cfg, m, tracked, was, mid, got, true, doubt) && ChatsSent(cfg, m, mid)
    ensures RouteStory(cfg, m, tracked, was, mid + {t},
                       t.result.Failed? && !(Skips(tracked, m) && t.result == Failed(true)),
                       got || t.result.Accepted?, tracked && (doubt || t.result == Failed(true)))
  {
    NoFallbackYet(was, mid);
    AddTry(mid, t);
    AddSent(mid, t);
    hide Acc, Soft, Doubt, Missed, Sent, Eligible, Skips, ChatsFor;
  }

  lemma NoFallbackYet(was: set<Try>, mid: set<Try>)
    requires Untouched(was) && forall t :: t in mid && t !in was ==> t.stage == ByGroup
    ensures !Acc(mid, Fallback) && !Soft(mid, Fallback) && !Doubt(mid, Fallback)
    ensures forall t :: t in mid ==> t.stage != Fallback
  {
  }

  lemma NoFallbackStory(cfg: Config, m: Msg, tracked: bool, was: set<Try>, mid: set<Try>, got: bool, doubt: bool)
    requires Untouched(was) && ChatStory(cfg, m, tracked, was, mid, got, false, doubt) && ChatsSent(cfg, m, mid)
    ensures RouteStory(cfg, m, tracked, was, mid, false, got, tracked && doubt)
  {
    NoFallbackYet(was, mid);
    hide Acc, Soft, Doubt, Missed, Sent, Eligible, Skips, ChatsFor;
  }

  /** `_send_routes`: serve the chats, then offer what they did not take to the main chat. */
  method SendRoutes(world: World, cfg: Config, msgs: seq<Msg>, threshold: nat, tracked: bool, ghost l: Ledger)
    returns (again: set<nat>, got: set<nat>, doubt: set<nat>, ghost l': Ledger)
    requires cfg.token && |l| == |msgs| && Faithful(world, threshold, l)
    requires forall i: nat :: i < |l| ==> Untouched(l[i])
    ensures |l'| == |msgs| && Faithful(world, threshold, l')
    ensures forall i: nat :: i in again || i in got || i in doubt ==> i < |msgs|
    ensures forall i: nat :: i < |msgs| ==>
      RouteStory(cfg, msgs[i], tracked, l[i], l'[i], i in again, i in got, i in doubt)
  {
    hide ChatStory, RouteStory, ChatsFor, Sent, Through, Range, Faithful, Served, NoFallback;
    var chats, plan := PlanRoutes(cfg, msgs);
    var back, unsure;
    ghost var mid;
    got, back, unsure, mid := SendChats(world, cfg, msgs, chats, plan, threshold, tracked, l);
    ghost var got0 := got;
    AllServed(cfg, msgs, chats, plan, mid);
    RangeFacts(|back|);
    BackMeansMain(cfg, msgs, tracked, l, mid, got, back, unsure);
    FallbackIsNew(world, mid, cfg.chat, back, threshold);
    hide Planned, Lists;
    var fgot, fagain, fdoubt :=
      SendCommon(world, Fallback, cfg.chat, cfg.chat != "", false, Range(|back|), back, threshold);
    FallbackResults(world, cfg.chat, back, threshold, fgot, fagain, fdoubt);
    hide Booked, TryOf, Distinct;
    if tracked {
      fagain := set j | j in fagain && !(j in fdoubt && j < |back| && msgs[back[j]].kind == "oom");
    }
    ThroughFacts(back, fagain); ThroughFacts(back, fgot); ThroughFacts(back, fdoubt);
    again := Through(back, fagain);
    got := got + Through(back, fgot);
    doubt := if tracked then unsure + Through(back, fdoubt) else {};
    l' := Note(world, mid, Fallback, Telegram(cfg.chat), back, threshold);
    forall i: nat | i < |msgs|
      ensures RouteStory(cfg, msgs[i], tracked, l[i], l'[i], i in again, i in got, i in doubt)
    {
      assert ChatStory(cfg, msgs[i], tracked, l[i], mid[i], i in got0, i in back, i in unsure);
      if i in back {
        var j: nat :| j < |back| && back[j] == i;
        FallbackStory(cfg, msgs[i], tracked, l[i], mid[i], i in got0, i in unsure,
                      TryOf(world, Fallback, Telegram(cfg.chat), back, threshold, i));
      } else {
        NoFallbackStory(cfg, msgs[i], tracked, l[i], mid[i], i in got0, i in unsure);
      }
    }
  }

  /** The results of the fallback, read as results of its messages. */
  lemma FallbackResults(world: World, chat: string, back: seq<nat>, threshold: nat, got: set<nat>, again: set<nat>,
                        doubt: set<nat>)
    requires back != [] ==> chat != ""
    requires Booked(world, Pass(Fallback, chat, chat != "", false, Many(threshold, |Range(|back|)|), back),
                    Range(|back|), got, again, doubt)
    ensures forall j: nat :: j < |back| ==>
      var r := TryOf(world, Fallback, Telegram(chat), back, threshold, back[j]).result;
      (j in got <==> r.Accepted?) && (j in again <==> r.Failed?) && (j in doubt <==> r == Failed(true))
  {
    hide Range, Seen;
    RangeFacts(|back|);
  }

  lemma FallbackIsNew(world: World, mid: Ledger, chat: string, back: seq<nat>, threshold: nat)
    requires NoFallback(mid) && Faithful(world, threshold, mid) && Distinct(back) && Below(back, |mid|)
    ensures Faithful(world, threshold, Note(world, mid, Fallback, Telegram(chat), back, threshold))
  {
    hide Sent, Faithful;
    NoteKeeps(world, mid, Fallback, Telegram(chat), back, threshold);
  }

  lemma AllServed(cfg: Config, msgs: seq<Msg>, chats: seq<string>, plan: map<string, seq<nat>>, mid: Ledger)
    requires |mid| == |msgs| && Planned(cfg, msgs, plan) && Lists(chats, plan)
    requires Served(mid, chats, plan) && NoFallback(mid)
    ensures forall i: nat :: i < |msgs| ==> ChatsSent(cfg, msgs[i], mid[i])
  {
    hide ChatsFor, Sent;
    forall i: nat, g, ch | i < |msgs| && g != Common
      ensures Sent(mid[i], g, ch) <==>
        g == ByGroup && ch.Telegram? && ch.chat != cfg.chat && ch.chat in ChatsFor(cfg, msgs[i])
    {
      if ch.Telegram? {
        assert ch.chat in plan && i in plan[ch.chat] <==> ch.chat != cfg.chat && ch.chat in ChatsFor(cfg, msgs[i]);
      }
    }
  }

  lemma BackMeansMain(cfg: Config, msgs: seq<Msg>, tracked: bool, l: Ledger, mid: Ledger,
                      got: set<nat>, back: seq<nat>, doubt: set<nat>)
    requires |l| == |mid| == |msgs| && Below(back, |msgs|)
    requires forall i: nat :: i < |msgs| ==>
      ChatStory(cfg, msgs[i], tracked, l[i], mid[i], i in got, i in back, i in doubt)
    ensures back != [] ==> cfg.chat != ""
  {
    if back != [] {
      var i := back[0];
      assert i in back && ChatStory(cfg, msgs[i], tracked, l[i], mid[i], i in got, i in back, i in doubt);
    }
  }

  // ---------------------------------------------------------------- the whole batch

  /** One message after the common channels were served: the main chat got it exactly if it is one of
      the alert's chats, the webhook always. */
  ghost predicate CommonStory(cfg: Config, m: Msg, now: set<Try>, got: bool, again: bool, doubt: bool) {
    && Untouched(now) && CommonSent(cfg, m, now)
    && (forall t :: t in now && t.result.Rejected? ==> t.channel == Telegram(MainChat(cfg)))
    && (got <==> Acc(now, Common)) && (again <==> !Acc(now, Common) && Soft(now, Common))
    && (doubt <==> Doubt(now, Common))
  }

  ghost predicate CommonSent(cfg: Config, m: Msg, now: set<Try>) {
    forall ch :: Sent(now, Common, ch) <==>
      (ch == Telegram(MainChat(cfg)) && OnMain(cfg, m)) || (ch == Webhook && cfg.webhook)
  }

  /** What the attempts on the common channels show of one message. */
  lemma PassFacts(cfg: Config, m: Msg, now: set<Try>, x: Try, y: Try)
    requires x.stage == Common && x.channel == Telegram(MainChat(cfg))
    requires y.stage == Common && y.channel == Webhook && y.result in {Accepted, Failed(false)}
    requires now == (if OnMain(cfg, m) then {x} else {}) + (if cfg.webhook then {y} else {})
    ensures var got := (OnMain(cfg, m) && x.result.Accepted?) || (cfg.webhook && y.result.Accepted?);
      CommonStory(cfg, m, now, got,
                  !got && ((OnMain(cfg, m) && x.result.Failed?) || (cfg.webhook && !y.result.Accepted?)),
                  OnMain(cfg, m) && x.result == Failed(true))
  {
    hide OnMain;
    assert OnMain(cfg, m) ==> x in now;
    assert cfg.webhook ==> y in now;
    assert forall t :: t in now ==> (OnMain(cfg, m) && t == x) || (cfg.webhook && t == y);
  }

  function OnMainIdx(cfg: Config, msgs: seq<Msg>, n: nat): (r: seq<nat>)
    requires n <= |msgs|
    ensures Below(r, n)
  {
    if n == 0 then [] else OnMainIdx(cfg, msgs, n - 1) + (if OnMain(cfg, msgs[n - 1]) then [n - 1] else [])
  }

  lemma {:induction false} OnMainIdxFacts(cfg: Config, msgs: seq<Msg>, n: nat)
    requires n <= |msgs|
    ensures Distinct(OnMainIdx(cfg, msgs, n))
    ensures forall i: nat :: i in OnMainIdx(cfg, msgs, n) <==> i < n && OnMain(cfg, msgs[i])
  {
    hide OnMain;
    if n > 0 { OnMainIdxFacts(cfg, msgs, n - 1); }
  }

  /** The attempts on the common channels: the main chat with its share, the webhook with everything. */
  ghost function MainLedger(world: World, cfg: Config, n: nat, share: seq<nat>, threshold: nat): (l: Ledger)
    ensures |l| == n
  {
    var empty := seq(n, _ => {});
    var one := Note(world, empty, Common, Telegram(MainChat(cfg)), share, threshold);
    if cfg.webhook then Note(world, one, Common, Webhook, Range(n), threshold) else one
  }

  lemma MainLedgerFacts(world: World, cfg: Config, n: nat, share: seq<nat>, threshold: nat)
    requires Distinct(share) && Below(share, n)
    ensures var l := MainLedger(world, cfg, n, share, threshold);
      && Faithful(world, threshold, l)
      && forall i: nat :: i < n ==>
           l[i] == (if i in share then {TryOf(world, Common, Telegram(MainChat(cfg)), share, threshold, i)} else {})
                   + (if cfg.webhook then {TryOf(world, Common, Webhook, Range(n), threshold, i)} else {})
  {
    hide Range, Faithful, Sent, TryOf;
    RangeFacts(n);
    var empty := seq(n, _ => {});
    EmptyIsFaithful(world, threshold, n);
    NoteKeeps(world, empty, Common, Telegram(MainChat(cfg)), share, threshold);
    NoteSent(world, empty, Common, Telegram(MainChat(cfg)), share, threshold);
    if cfg.webhook {
      var one := Note(world, empty, Common, Telegram(MainChat(cfg)), share, threshold);
      NoteKeeps(world, one, Common, Webhook, Range(n), threshold);
    }
  }

  lemma EmptyIsFaithful(world: World, threshold: nat, n: nat)
    ensures var l: Ledger := seq(n, _ => {});
      Faithful(world, threshold, l) && forall i: nat, g, c :: i < n ==> !Sent(l[i], g, c)
  {
  }

  /** The common channels: together if the main chat gets everything, else the main chat only its
      share and the webhook everything. */
  method SendMain(world: World, cfg: Config, msgs: seq<Msg>, threshold: nat)
    returns (got: set<nat>, again: set<nat>, doubt: set<nat>, ghost l: Ledger)
    ensures |l| == |msgs| && Faithful(world, threshold, l)
    ensures forall i: nat :: i in got || i in again || i in doubt ==> i < |msgs|
    ensures forall i: nat :: i < |msgs| ==> CommonStory(cfg, msgs[i], l[i], i in got, i in again, i in doubt)
  {
    hide OnMain, Range, OnMainIdx, CommonStory, Faithful, MainLedger;
    var main := MainChat(cfg);
    var everything := Range(|msgs|);
    RangeFacts(|msgs|);
    ghost var share := [];
    if main == "" || forall i :: 0 <= i < |msgs| ==> OnMain(cfg, msgs[i]) {
      got, again, doubt := SendCommon(world, Common, main, main != "", cfg.webhook, everything, everything, threshold);
      if main != "" { share := everything; }
    } else {
      var idx := OnMainIdx(cfg, msgs, |msgs|);
      OnMainIdxFacts(cfg, msgs, |msgs|);
      share := idx;
      got, again, doubt := SendCommon(world, Common, main, true, false, idx, everything, threshold);
      if cfg.webhook {
        var got2, again2, _ := SendCommon(world, Common, main, false, true, everything, everything, threshold);
        got, again := got + got2, again + again2;
      }
    }
    again := again - got;
    l := MainLedger(world, cfg, |msgs|, share, threshold);
    MainLedgerFacts(world, cfg, |msgs|, share, threshold);
    forall i: nat | i < |msgs|
      ensures CommonStory(cfg, msgs[i], l[i], i in got, i in again, i in doubt)
    {
      OnMainMeans(cfg, msgs[i]);
      assert i in share <==> OnMain(cfg, msgs[i]);
      PassFacts(cfg, msgs[i], l[i], TryOf(world, Common, Telegram(main), share, threshold, i),
                TryOf(world, Common, Webhook, Range(|msgs|), threshold, i));
    }
  }

  lemma OnMainMeans(cfg: Config, m: Msg)
    ensures OnMain(cfg, m) ==> MainChat(cfg) != ""
  {
  }

  ghost predicate AnyAcc(l: set<Try>) { exists t :: t in l && t.result.Accepted? }
  ghost predicate AnySoft(l: set<Try>) { exists t :: t in l && t.result.Failed? }
  ghost predicate AnyDoubt(l: set<Try>) { exists t :: t in l && t.result == Failed(true) }
  ghost predicate MainRefused(cfg: Config, l: set<Try>) {
    exists t :: t in l && t.result.Rejected? && t.channel == Telegram(MainChat(cfg))
  }

  /** Exactly when a message must be tried again, read off its attempts. */
  ghost predicate Retry(cfg: Config, m: Msg, tracked: bool, l: set<Try>) {
    var skip := Skips(tracked, m);
    || (&& !Acc(l, Common) && Soft(l, Common)
        && (OnMain(cfg, m) || (!Acc(l, ByGroup) && !Acc(l, Fallback)))
        && !(skip && AnyDoubt(l)))
    || (!Acc(l, Fallback) && Soft(l, Fallback) && !(skip && Doubt(l, Fallback)))
  }

  /** Delivery accounting for one message: not retried means accepted somewhere, refused for good by
      the main chat, or an uncertain send that is deliberately not repeated; retried means that
      something failed only for now. */
  ghost predicate Accounted(cfg: Config, m: Msg, tracked: bool, l: set<Try>, again: bool) {
    && (!again ==> AnyAcc(l) || MainRefused(cfg, l) || (Skips(tracked, m) && AnyDoubt(l)))
    && (again ==> AnySoft(l))
  }

  lemma StageFacts(l: set<Try>)
    ensures AnyAcc(l) <==> Acc(l, Common) || Acc(l, ByGroup) || Acc(l, Fallback)
    ensures AnySoft(l) <==> Soft(l, Common) || Soft(l, ByGroup) || Soft(l, Fallback)
    ensures AnyDoubt(l) <==> Doubt(l, Common) || Doubt(l, ByGroup) || Doubt(l, Fallback)
  {
    assert forall t: Try :: t.stage == Common || t.stage == ByGroup || t.stage == Fallback;
  }

  /** Routing adds nothing to the common stage. */
  lemma CommonKept(was: set<Try>, now: set<Try>)
    requires was <= now && forall t :: t in now && t !in was ==> t.stage != Common
    ensures Acc(now, Common) <==> Acc(was, Common)
    ensures Soft(now, Common) <==> Soft(was, Common)
    ensures Doubt(now, Common) <==> Doubt(was, Common)
  {
  }

  /** With a common channel configured every message is accounted for. */
  lemma Accounting(cfg: Config, m: Msg, tracked: bool, common: set<Try>, l: set<Try>,
                   g: bool, a: bool, d: bool, ra: bool, rg: bool, rd: bool)
    requires Configured(cfg) && CommonStory(cfg, m, common, g, a, d)
    requires if cfg.token then RouteStory(cfg, m, tracked, common, l, ra, rg, rd) else l == common
    ensures Accounted(cfg, m, tracked, l, Retry(cfg, m, tracked, l))
  {
    StageFacts(l);
    if cfg.token { CommonKept(common, l); } else { NothingYet(common); }
    if !Retry(cfg, m, tracked, l) && !AnyAcc(l) {
      if OnMain(cfg, m) || cfg.webhook {
        assert Sent(common, Common, Telegram(MainChat(cfg))) || Sent(common, Common, Webhook);
        var t :| t in common;
        assert t in l;
        assert t.result.Failed? ==> Soft(l, Common);
      } else {
        var c := NotOnMainHasChat(cfg, m);
        RouteLosses(cfg, m, tracked, common, l, ra, rg, rd, c);
      }
    }
  }

  /** A message only the group chats were to carry and nobody took: an uncertain send, or the main
      chat refused or failed to take it over. */
  lemma RouteLosses(cfg: Config, m: Msg, tracked: bool, common: set<Try>, l: set<Try>,
                    ra: bool, rg: bool, rd: bool, c: string)
    requires cfg.token && Eligible(cfg, m) && RouteStory(cfg, m, tracked, common, l, ra, rg, rd)
    requires c in ChatsFor(cfg, m) && c != cfg.chat && !AnyAcc(l)
    ensures (Skips(tracked, m) && AnyDoubt(l)) || MainRefused(cfg, l) || Soft(l, Fallback)
  {
    hide ChatsFor, Eligible;
    assert Sent(l, ByGroup, Telegram(c));
    var t :| t in l && t.stage == ByGroup && t.channel == Telegram(c);
    if !(Skips(tracked, m) && t.result == Failed(true)) {
      assert Missed(l, Skips(tracked, m));
      assert Sent(l, Fallback, Telegram(cfg.chat));
      var f :| f in l && f.stage == Fallback && f.channel == Telegram(cfg.chat);
    }
  }

  // ---------------------------------------------------------------- dispatch

  /** The servers behind the out-of-memory alerts of a message. */
  function OomIds(m: Msg): set<int> {
    if m.parts == [] then PartIds(m) else set i, id | 0 <= i < |m.parts| && id in PartIds(m.parts[i]) :: id
  }

  function PartIds(m: Msg): set<int> {
    if m.kind == "oom" && m.ref.Srv? then set id | id in m.ref.ids else {}
  }

  lemma RetryIs(cfg: Config, m: Msg, tracked: bool, common: set<Try>, l: set<Try>,
                g: bool, a: bool, d: bool, ra: bool, rg: bool, rd: bool)
    requires CommonStory(cfg, m, common, g, a, d) && RouteStory(cfg, m, tracked, common, l, ra, rg, rd)
    ensures Retry(cfg, m, tracked, l) <==>
      (a && !(rg && !OnMain(cfg, m)) && !(Skips(tracked, m) && (d || rd))) || ra
    ensures AnyAcc(l) <==> g || rg
    ensures tracked ==> (AnyDoubt(l) <==> d || rd)
  {
    StageFacts(l);
    CommonKept(common, l);
    hide OnMain, Acc, Soft, Doubt, AnyAcc, AnyDoubt, Sent, Missed, Eligible, ChatsFor;
  }

  lemma RetryWithoutRoutes(cfg: Config, m: Msg, tracked: bool, l: set<Try>, g: bool, a: bool, d: bool)
    requires CommonStory(cfg, m, l, g, a, d)
    ensures Retry(cfg, m, tracked, l) <==> a && !(Skips(tracked, m) && d)
    ensures (AnyAcc(l) <==> g) && (AnyDoubt(l) <==> d)
  {
    StageFacts(l);
    NothingYet(l);
    hide OnMain, Acc, Soft, Doubt, AnyAcc, AnyDoubt;
  }

  /** The attempts a batch makes, message by message. */
  ghost predicate Attempted(cfg: Config, msgs: seq<Msg>, tracked: bool, l: Ledger) {
    && |l| == |msgs|
    && forall i: nat :: i < |msgs| ==> CommonSent(cfg, msgs[i], l[i]) && RoutesSent(cfg, msgs[i], tracked, l[i])
  }

  /** What a finished batch promises about the merged messages `msgs`: the ledger holds exactly the
      attempts due, with the network's answers, and the results follow from it. */
  ghost predicate Settled(world: World, cfg: Config, msgs: seq<Msg>, threshold: nat, tracked: bool, l: Ledger,
                          again: set<nat>, oom: set<int>) {
    && Attempted(cfg, msgs, tracked, l) && Faithful(world, threshold, l)
    && (forall i: nat :: i in again ==> i < |msgs|)
    && (forall i: nat :: i < |msgs| ==> (i in again <==> Retry(cfg, msgs[i], tracked, l[i])))
    && (Configured(cfg) ==> forall i: nat :: i < |msgs| ==> Accounted(cfg, msgs[i], tracked, l[i], i in again))
    && (!tracked ==> oom == {})
    && (tracked ==> forall id :: id in oom <==> exists i: nat :: i < |msgs| && OomDone(msgs[i], l[i], id))
  }

  ghost predicate OomDone(m: Msg, l: set<Try>, id: int) { (AnyAcc(l) || AnyDoubt(l)) && id in OomIds(m) }

  /** What a settled batch means for message `i`, without the words used above. First its attempts. */
  lemma AttemptsMean(world: World, cfg: Config, msgs: seq<Msg>, threshold: nat, tracked: bool, l: Ledger,
                     again: set<nat>, oom: set<int>, i: nat, ch: Channel)
    requires Settled(world, cfg, msgs, threshold, tracked, l, again, oom) && i < |msgs|
    ensures |l| == |msgs|
    ensures (exists t :: t in l[i] && t.stage == Common && t.channel == ch) <==>
      || (ch == Webhook && cfg.webhook)
      || (cfg.token && cfg.chat != "" && ch == Telegram(cfg.chat) && cfg.chat in ChatsFor(cfg, msgs[i]))
    ensures (exists t :: t in l[i] && t.stage == ByGroup && t.channel == ch) <==>
      ch.Telegram? && ch.chat != cfg.chat && ch.chat in ChatsFor(cfg, msgs[i])
    ensures (exists t :: t in l[i] && t.stage == Fallback && t.channel == ch) <==>
      && ch == Telegram(cfg.chat) && cfg.token && cfg.chat != "" && cfg.chat !in ChatsFor(cfg, msgs[i])
      && exists t :: t in l[i] && t.stage == ByGroup && t.result != Accepted
                     && !(tracked && msgs[i].kind == "oom" && t.result == Failed(true))
  {
    hide ChatsFor, Faithful, Retry, Accounted;
    assert CommonSent(cfg, msgs[i], l[i]) && RoutesSent(cfg, msgs[i], tracked, l[i]);
    assert Sent(l[i], Common, ch) <==> exists t :: t in l[i] && t.stage == Common && t.channel == ch;
    assert Sent(l[i], ByGroup, ch) <==> exists t :: t in l[i] && t.stage == ByGroup && t.channel == ch;
    assert Sent(l[i], Fallback, ch) <==> exists t :: t in l[i] && t.stage == Fallback && t.channel == ch;
  }

  /** Then what each attempt was: the network's answer, to a digest exactly if the channel was offered as
      many messages as the threshold asks for. */
  lemma AnswersMean(world: World, cfg: Config, msgs: seq<Msg>, threshold: nat, tracked: bool, l: Ledger,
                    again: set<nat>, oom: set<int>, i: nat, t: Try)
    requires Settled(world, cfg, msgs, threshold, tracked, l, again, oom) && i < |msgs| && t in l[i]
    ensures t.piece == Digest || t.piece == Single(i)
    ensures var offered :=
        set j: nat | j < |l| && (exists u :: u in l[j] && u.stage == t.stage && u.channel == t.channel);
      t.piece == Digest <==> threshold > 0 && |offered| >= threshold
    ensures t.channel.Telegram? ==> t.result == world(t.stage, t.channel, t.piece)
    ensures t.channel == Webhook ==>
      t.result == if world(t.stage, Webhook, t.piece) == Accepted then Accepted else Failed(false)
  {
    hide ChatsFor, CommonSent, RoutesSent, Retry, Accounted;
    assert Carried(l, t.stage, t.channel)
        == set j: nat | j < |l| && (exists u :: u in l[j] && u.stage == t.stage && u.channel == t.channel);
  }

  /** Then whether it is tried again: if the common channels failed for now and nobody took it (a chat by
      group counts only for what the main chat does not get), or if the fallback failed for now; never
      after an uncertain send of a tracked out-of-memory alert. */
  lemma RetriesMean(world: World, cfg: Config, msgs: seq<Msg>, threshold: nat, tracked: bool, l: Ledger,
                    again: set<nat>, oom: set<int>, i: nat)
    requires Settled(world, cfg, msgs, threshold, tracked, l, again, oom) && i < |msgs|
    ensures |l| == |msgs|
    ensures i in again <==>
      var oomSkip := tracked && msgs[i].kind == "oom";
      || (&& (forall t :: t in l[i] && t.stage == Common ==> t.result != Accepted)
          && (exists t :: t in l[i] && t.stage == Common && t.result.Failed?)
          && (|| (cfg.token && cfg.chat != "" && cfg.chat in ChatsFor(cfg, msgs[i]))
              || (forall t :: t in l[i] ==> t.result != Accepted))
          && !(oomSkip && exists t :: t in l[i] && t.result == Failed(true)))
      || (&& (forall t :: t in l[i] && t.stage == Fallback ==> t.result != Accepted)
          && (exists t :: t in l[i] && t.stage == Fallback && t.result.Failed?)
          && !(oomSkip && exists t :: t in l[i] && t.stage == Fallback && t.result == Failed(true)))
    ensures (cfg.webhook || (cfg.token && cfg.chat != "")) && i !in again ==>
      || (exists t :: t in l[i] && t.result == Accepted)
      || (cfg.token && cfg.chat != ""
          && exists t :: t in l[i] && t.result == Rejected && t.channel == Telegram(cfg.chat))
      || (tracked && msgs[i].kind == "oom" && exists t :: t in l[i] && t.result == Failed(true))
  {
    hide ChatsFor, Faithful, CommonSent, RoutesSent;
    StageFacts(l[i]);
    if MainChat(cfg) == "" { NoMainNoSend(world, cfg, msgs, threshold, tracked, l, again, oom, i); }
  }

  lemma NoMainNoSend(world: World, cfg: Config, msgs: seq<Msg>, threshold: nat, tracked: bool, l: Ledger,
                     again: set<nat>, oom: set<int>, i: nat)
    requires Settled(world, cfg, msgs, threshold, tracked, l, again, oom) && i < |msgs| && MainChat(cfg) == ""
    ensures |l| == |msgs| && forall t :: t in l[i] ==> t.channel != Telegram("")
  {
    AttemptsMean(world, cfg, msgs, threshold, tracked, l, again, oom, i, Telegram(""));
    ChatsAre(cfg, msgs[i], "");
    hide Settled, ChatsFor, Names, MainCopy;
    forall t | t in l[i] ensures t.channel != Telegram("") {
      assert t.stage == Common || t.stage == ByGroup || t.stage == Fallback;
    }
  }

  /** The servers behind the out-of-memory alerts of a message, alone or merged. */
  lemma OomIdsAre(m: Msg, id: int)
    ensures id in OomIds(m) <==>
      if m.parts == [] then m.kind == "oom" && m.ref.Srv? && id in m.ref.ids
      else exists i :: 0 <= i < |m.parts| && m.parts[i].kind == "oom" && m.parts[i].ref.Srv? && id in m.parts[i].ref.ids
  {
    if m.parts != [] {
      assert id in OomIds(m) <==> exists i :: 0 <= i < |m.parts| && id in PartIds(m.parts[i]);
    }
  }

  /** The servers reported back: those behind an alert that some channel accepted or may have taken. */
  lemma OomMeans(world: World, cfg: Config, msgs: seq<Msg>, threshold: nat, tracked: bool, l: Ledger,
                 again: set<nat>, oom: set<int>, id: int)
    requires Settled(world, cfg, msgs, threshold, tracked, l, again, oom)
    ensures |l| == |msgs|
    ensures id in oom <==>
      && tracked
      && exists i: nat, t :: i < |msgs| && id in OomIds(msgs[i]) && t in l[i] && t.result in {Accepted, Failed(true)}
  {
    hide Faithful, Retry, Accounted, OomIds, CommonSent, RoutesSent;
    if tracked && exists i: nat, t :: i < |msgs| && id in OomIds(msgs[i]) && t in l[i]
                                      && t.result in {Accepted, Failed(true)} {
      var i: nat, t :| i < |msgs| && id in OomIds(msgs[i]) && t in l[i] && t.result in {Accepted, Failed(true)};
      assert OomDone(msgs[i], l[i], id);
    }
  }

  /** `dispatch` after the merge: common channels, routes, and who must be tried again. */
  method Deliver(world: World, cfg: Config, msgs: seq<Msg>, threshold: nat, tracked: bool)
    returns (again: set<nat>, oom: set<int>, ghost l: Ledger)
    ensures Settled(world, cfg, msgs, threshold, tracked, l, again, oom)
    ensures forall k :: Attempted(cfg, msgs, tracked, k) && Faithful(world, threshold, k) ==>
      Settled(world, cfg, msgs, threshold, tracked, k, again, oom)
  {
    hide CommonStory, RouteStory, OnMain, ChatsFor, Retry, Accounted, AnyAcc, AnyDoubt, Configured, OomIds, Skips,
         Faithful, CommonSent, RoutesSent;
    var got, doubt;
    ghost var common;
    got, again, doubt, common := SendMain(world, cfg, msgs, threshold);
    ghost var g0, a0, d0 := got, again, doubt;
    l, oom := common, {};
    var routeAgain: set<nat>, routeGot: set<nat>, routeDoubt: set<nat> := {}, {}, {};
    if cfg.token {
      UntouchedAll(cfg, msgs, common, g0, a0, d0);
      routeAgain, routeGot, routeDoubt, l := SendRoutes(world, cfg, msgs, threshold, tracked, common);
      got := got + routeGot;
      again := set i | i in again && !(i in routeGot && i < |msgs| && !OnMain(cfg, msgs[i]));
      doubt := doubt + routeDoubt;
    }
    if tracked {
      oom := CollectOom(msgs, got + doubt);
      again := set i | i in again && !(i in doubt && i < |msgs| && Skips(tracked, msgs[i]));
    }
    again := again + routeAgain;
    forall i: nat | i < |msgs|
      ensures i in again <==> Retry(cfg, msgs[i], tracked, l[i])
      ensures Configured(cfg) ==> Accounted(cfg, msgs[i], tracked, l[i], i in again)
      ensures tracked ==> (i in got + doubt <==> AnyAcc(l[i]) || AnyDoubt(l[i]))
      ensures CommonSent(cfg, msgs[i], l[i]) && RoutesSent(cfg, msgs[i], tracked, l[i])
    {
      var m, x, y, z := msgs[i], i in routeAgain, i in routeGot, i in routeDoubt;
      assert CommonStory(cfg, m, common[i], i in g0, i in a0, i in d0);
      SkipsMeans(tracked, m);
      AttemptsAre(cfg, m, tracked, common[i], l[i], i in g0, i in a0, i in d0, x, y, z);
      if cfg.token {
        RetryIs(cfg, m, tracked, common[i], l[i], i in g0, i in a0, i in d0, x, y, z);
      } else {
        RetryWithoutRoutes(cfg, m, tracked, l[i], i in g0, i in a0, i in d0);
      }
      if Configured(cfg) {
        Accounting(cfg, m, tracked, common[i], l[i], i in g0, i in a0, i in d0, x, y, z);
      }
    }
    assert Settled(world, cfg, msgs, threshold, tracked, l, again, oom);
    forall k | Attempted(cfg, msgs, tracked, k) && Faithful(world, threshold, k)
      ensures Settled(world, cfg, msgs, threshold, tracked, k, again, oom)
    {
      LedgerIsDetermined(world, cfg, msgs, threshold, tracked, l, k);
    }
  }

  /** Both stages together: the attempts made are exactly those due. */
  lemma AttemptsAre(cfg: Config, m: Msg, tracked: bool, common: set<Try>, l: set<Try>,
                    g: bool, a: bool, d: bool, ra: bool, rg: bool, rd: bool)
    requires CommonStory(cfg, m, common, g, a, d)
    requires if cfg.token then RouteStory(cfg, m, tracked, common, l, ra, rg, rd) else l == common
    ensures CommonSent(cfg, m, l) && RoutesSent(cfg, m, tracked, l)
  {
    hide OnMain, Missed;
    if cfg.token {
      assert forall ch :: Sent(l, Common, ch) <==> Sent(common, Common, ch);
    } else {
      NothingYet(common);
    }
  }

  /** Two faithful ledgers with the same sends at one stage have the same attempts at it. */
  lemma SameSends(world: World, threshold: nat, l: Ledger, k: Ledger, g: Stage)
    requires |l| == |k| && Faithful(world, threshold, l) && Faithful(world, threshold, k)
    requires forall i: nat, ch :: i < |l| ==> (Sent(l[i], g, ch) <==> Sent(k[i], g, ch))
    ensures forall i: nat, t :: i < |l| && t in l[i] && t.stage == g ==> t in k[i]
  {
    forall i: nat, t: Try | i < |l| && t in l[i] && t.stage == g ensures t in k[i] {
      assert Sent(l[i], g, t.channel);
      var u :| u in k[i] && u.stage == g && u.channel == t.channel;
      assert Carried(l, g, t.channel) == Carried(k, g, t.channel);
    }
  }

  lemma SameMisses(a: set<Try>, b: set<Try>, skip: bool)
    requires forall t :: t in a && t.stage == ByGroup ==> t in b
    ensures Missed(a, skip) ==> Missed(b, skip)
  {
  }

  lemma SameDue(cfg: Config, msgs: seq<Msg>, tracked: bool, l: Ledger, k: Ledger, g: Stage)
    requires Attempted(cfg, msgs, tracked, l) && Attempted(cfg, msgs, tracked, k)
    requires g == Fallback ==> forall i: nat, skip :: i < |l| ==> (Missed(l[i], skip) <==> Missed(k[i], skip))
    ensures forall i: nat, ch :: i < |l| ==> (Sent(l[i], g, ch) <==> Sent(k[i], g, ch))
  {
    hide Sent, Missed, Eligible, OnMain, ChatsFor, MainChat;
    forall i: nat, ch | i < |l| ensures Sent(l[i], g, ch) <==> Sent(k[i], g, ch) {
      assert CommonSent(cfg, msgs[i], l[i]) && CommonSent(cfg, msgs[i], k[i]);
      assert RoutesSent(cfg, msgs[i], tracked, l[i]) && RoutesSent(cfg, msgs[i], tracked, k[i]);
    }
  }

  /** The attempts are determined by the configuration, the messages and the network: there is only
      one ledger with exactly the attempts due and the network's answers. */
  lemma LedgerIsDetermined(world: World, cfg: Config, msgs: seq<Msg>, threshold: nat, tracked: bool, l: Ledger,
                           k: Ledger)
    requires Attempted(cfg, msgs, tracked, l) && Faithful(world, threshold, l)
    requires Attempted(cfg, msgs, tracked, k) && Faithful(world, threshold, k)
    ensures l == k
  {
    hide Attempted, Faithful, Sent, Missed;
    assert |l| == |k| by { SameLength(cfg, msgs, tracked, l); SameLength(cfg, msgs, tracked, k); }
    SameDue(cfg, msgs, tracked, l, k, Common);
    SameSends(world, threshold, l, k, Common); SameSends(world, threshold, k, l, Common);
    SameDue(cfg, msgs, tracked, l, k, ByGroup);
    SameSends(world, threshold, l, k, ByGroup); SameSends(world, threshold, k, l, ByGroup);
    forall i: nat, skip | i < |l| ensures Missed(l[i], skip) <==> Missed(k[i], skip) {
      SameMisses(l[i], k[i], skip); SameMisses(k[i], l[i], skip);
    }
    SameDue(cfg, msgs, tracked, l, k, Fallback);
    SameSends(world, threshold, l, k, Fallback); SameSends(world, threshold, k, l, Fallback);
    forall i: nat | i < |l| ensures l[i] == k[i] {
      forall t: Try ensures t in l[i] <==> t in k[i] {
        assert t.stage == Common || t.stage == ByGroup || t.stage == Fallback;
      }
    }
  }

  lemma SameLength(cfg: Config, msgs: seq<Msg>, tracked: bool, l: Ledger)
    requires Attempted(cfg, msgs, tracked, l)
    ensures |l| == |msgs|
  {
  }

  lemma SkipsMeans(tracked: bool, m: Msg)
    ensures Skips(tracked, m) ==> tracked
  {
  }

  lemma UntouchedAll(cfg: Config, msgs: seq<Msg>, l: Ledger, g: set<nat>, a: set<nat>, d: set<nat>)
    requires |l| == |msgs|
    requires forall i: nat :: i < |msgs| ==> CommonStory(cfg, msgs[i], l[i], i in g, i in a, i in d)
    ensures forall i: nat :: i < |l| ==> Untouched(l[i])
  {
    hide OnMain;
    forall i: nat | i < |l| ensures Untouched(l[i]) {
      assert CommonStory(cfg, msgs[i], l[i], i in g, i in a, i in d);
    }
  }

  method CollectOom(msgs: seq<Msg>, done: set<nat>) returns (oom: set<int>)
    ensures forall id :: id in oom <==> exists i: nat :: i < |msgs| && i in done && id in OomIds(msgs[i])
  {
    hide OomIds;
    oom := {};
    for k := 0 to |msgs|
      invariant forall id :: id in oom <==> exists i: nat :: i < k && i in done && id in OomIds(msgs[i])
    {
      if k in done { oom := oom + OomIds(msgs[k]); }
    }
  }

  /** `dispatch`: nothing to send is done; channels off sends nothing; else merge, deliver, and
      report the original messages that need no retry. */
  method Dispatch(world: World, cfg: Config, canSend: bool, batch: seq<Msg>, threshold: nat, tracked: bool)
    returns (done: bool, finished: set<nat>, oom: set<int>, ghost again: set<nat>, ghost l: Ledger)
    ensures batch == [] ==> done && finished == {} && oom == {}
    ensures batch != [] && !canSend ==> !done && finished == {} && oom == {}
    ensures batch != [] && canSend ==>
      && Settled(world, cfg, MergedList(batch), threshold, tracked, l, again, oom)
      && (done <==> again == {})
      && forall x: nat :: x in finished <==> x < |batch| && !Behind(Origins(batch), again, x)
  {
    done, finished, oom, again, l := true, {}, {}, {}, [];
    if batch == [] { return; }
    if !canSend { done := false; return; }
    var msgs, origins := MergeStorm(batch);
    StormsPartition(batch);
    var retry;
    retry, oom, l := Deliver(world, cfg, msgs, threshold, tracked);
    again := retry;
    hide Settled, Origins, MergedList, Partition;
    finished := CollectFinished(origins, retry);
    FinishedIsRest(|batch|, origins, retry, finished);
    done := retry == {};
  }

  /** The originals of the messages that need no retry. */
  method CollectFinished(origins: seq<seq<nat>>, again: set<nat>) returns (finished: set<nat>)
    ensures forall x: nat :: x in finished <==> exists k: nat :: k < |origins| && k !in again && x in origins[k]
  {
    finished := {};
    for j := 0 to |origins|
      invariant forall x: nat :: x in finished <==> exists k: nat :: k < j && k !in again && x in origins[k]
    {
      if j !in again { finished := finished + (set x | x in origins[j]); }
    }
  }

  /** An original message that stands behind a message to be retried. */
  ghost predicate Behind(origins: seq<seq<nat>>, again: set<nat>, x: nat) {
    exists j: nat :: j < |origins| && j in again && x in origins[j]
  }

  lemma FinishedIsRest(n: nat, origins: seq<seq<nat>>, again: set<nat>, finished: set<nat>)
    requires Partition(n, origins)
    requires forall x: nat :: x in finished <==> exists k: nat :: k < |origins| && k !in again && x in origins[k]
    ensures forall x: nat :: x in finished <==> x < n && !Behind(origins, again, x)
  {
    forall x: nat ensures x in finished <==> x < n && !Behind(origins, again, x) {
      if x < n { assert Covered(origins, x); }
    }
  }
}
