/** The agent's side of a recheck (`runAlertRecheck` and `collectAndSend` in agent/recheck.go): any
    number of goroutines share a map of running ids, a channel with two places and a mutex that also
    guards the ordinary report. Each access to one of the three is one step; deferred calls run last
    in, first out. */
module AgentSlots {
  import opened Basics

  const SLOTS: nat := 2

  /** `^[0-9a-f]{32}$` */
  predicate ValidId(id: string) {
    |id| == 32 && forall i :: 0 <= i < 32 ==> '0' <= id[i] <= '9' || 'a' <= id[i] <= 'f'
  }

  /** Where a goroutine stands. A recheck claims its id, takes a place or is refused, collects, waits
      for the mutex, publishes, and then undoes the three in reverse order; an ordinary report only
      waits for the mutex and holds it. */
  datatype Pc =
    | Out
    | Claimed(id: string) | Refused(id: string) | Collecting(id: string) | Collected(id: string)
    | Publishing(id: string) | Published(id: string) | Freed(id: string)
    | ReportWaiting | Reporting

  predicate Claims(pc: Pc) { !pc.Out? && !pc.ReportWaiting? && !pc.Reporting? }

  predicate HoldsSlot(pc: Pc) { pc.Collecting? || pc.Collected? || pc.Publishing? || pc.Published? }

  predicate HoldsMutex(pc: Pc) { pc.Publishing? || pc.Reporting? }

  datatype State = State(running: set<string>, slots: nat, mutex: Option<nat>, pcs: map<nat, Pc>)

  function At(s: State, task: nat): Pc { if task in s.pcs then s.pcs[task] else Out }

  datatype Action =
    | Start(task: nat, id: string)
    | TrySlot(task: nat)
    | Collect(task: nat)
    | Lock(task: nat)
    | Unlock(task: nat)
    | FreeSlot(task: nat)
    | Delete(task: nat)
    | StartReport(task: nat)

  /** A step is possible. Locking waits for the mutex, and receiving from the channel for a token in it. */
  predicate CanStep(s: State, a: Action) {
    match a
    case Start(task, _) => At(s, task).Out?
    case TrySlot(task) => At(s, task).Claimed?
    case Collect(task) => At(s, task).Collecting?
    case Lock(task) => (At(s, task).Collected? || At(s, task).ReportWaiting?) && s.mutex.None?
    case Unlock(task) => HoldsMutex(At(s, task))
    case FreeSlot(task) => At(s, task).Published? && s.slots > 0
    case Delete(task) => At(s, task).Freed? || At(s, task).Refused?
    case StartReport(task) => At(s, task).Out?
  }

  function Go(s: State, task: nat, pc: Pc): State { s.(pcs := s.pcs[task := pc]) }

  function Step(s: State, a: Action): State
    requires CanStep(s, a)
  {
    match a
    case Start(task, id) =>
      if !ValidId(id) || id in s.running then s
      else Go(s, task, Claimed(id)).(running := s.running + {id})
    case TrySlot(task) =>
      if s.slots < SLOTS then Go(s, task, Collecting(At(s, task).id)).(slots := s.slots + 1)
      else Go(s, task, Refused(At(s, task).id))
    case Collect(task) => Go(s, task, Collected(At(s, task).id))
    case Lock(task) =>
      Go(s, task, if At(s, task).Collected? then Publishing(At(s, task).id) else Reporting).(mutex := Some(task))
    case Unlock(task) =>
      Go(s, task, if At(s, task).Publishing? then Published(At(s, task).id) else Out).(mutex := None)
    case FreeSlot(task) => Go(s, task, Freed(At(s, task).id)).(slots := s.slots - 1)
    case Delete(task) => Go(s, task, Out).(running := s.running - {At(s, task).id})
    case StartReport(task) => Go(s, task, ReportWaiting)
  }

  // ---------------------------------------------------------------- the invariant

  predicate Owns(s: State, g: nat, id: string) { Claims(At(s, g)) && At(s, g).id == id }

  /** The running ids are those of the goroutines past their claim, each claimed once. */
  ghost predicate Claimants(s: State) {
    && (forall g, id :: Owns(s, g, id) ==> id in s.running)
    && (forall g, h, id :: Owns(s, g, id) && Owns(s, h, id) ==> g == h)
    && (forall id :: id in s.running ==> exists g :: Owns(s, g, id))
  }

  ghost function Holders(pcs: map<nat, Pc>): set<nat> { set g | g in pcs && HoldsSlot(pcs[g]) }

  /** The channel holds one token per goroutine that took a place. */
  ghost predicate Counted(s: State) { s.slots == |Holders(s.pcs)| <= SLOTS }

  /** The mutex belongs to exactly the goroutine inside it. */
  ghost predicate OneInside(s: State) {
    && (forall g :: g in s.pcs && HoldsMutex(s.pcs[g]) ==> s.mutex == Some(g))
    && (s.mutex.Some? ==> HoldsMutex(At(s, s.mutex.value)))
  }

  ghost predicate Inv(s: State) { Claimants(s) && Counted(s) && OneInside(s) }

  /** A step changes the owner of an id only by claiming an id nobody owns, or by leaving. */
  lemma StepMovesOwner(s: State, a: Action, g: nat, id: string)
    requires CanStep(s, a)
    ensures Owns(Step(s, a), g, id) <==>
              (Owns(s, g, id) && !(a == Delete(g)))
              || (a == Start(g, id) && ValidId(id) && id !in s.running)
    ensures id in Step(s, a).running <==>
              (id in s.running && !(a.Delete? && Owns(s, a.task, id)))
              || (a.Start? && a.id == id && ValidId(id))
  {
    hide ValidId;
  }

  lemma StepKeepsClaimants(s: State, a: Action)
    requires CanStep(s, a) && Claimants(s)
    ensures Claimants(Step(s, a))
  {
    hide ValidId, Owns, CanStep, Step;
    var after := Step(s, a);
    forall g, id ensures Owns(after, g, id) ==> id in after.running { StepMovesOwner(s, a, g, id); }
    forall g, h, id | Owns(after, g, id) && Owns(after, h, id) ensures g == h {
      StepMovesOwner(s, a, g, id);
      StepMovesOwner(s, a, h, id);
    }
    forall id | id in after.running ensures exists g :: Owns(after, g, id) {
      StepMovesOwner(s, a, a.task, id);
      if id in s.running {
        var g :| Owns(s, g, id);
        StepMovesOwner(s, a, g, id);
      }
    }
  }

  /** One goroutine's move changes the holders by at most itself. */
  lemma MoveCounts(pcs: map<nat, Pc>, task: nat, pc: Pc)
    ensures var was := task in pcs && HoldsSlot(pcs[task]);
            |Holders(pcs[task := pc])| ==
              |Holders(pcs)| + (if HoldsSlot(pc) then 1 else 0) - (if was then 1 else 0)
  {
    hide HoldsSlot;
    var before, after := Holders(pcs), Holders(pcs[task := pc]);
    assert forall g :: g != task ==> (g in before <==> g in after);
    assert before - {task} == after - {task};
    assert |before - {task}| == |before| - if task in before then 1 else 0;
    assert |after - {task}| == |after| - if task in after then 1 else 0;
  }

  lemma StepKeepsCounted(s: State, a: Action)
    requires CanStep(s, a) && Counted(s)
    ensures Counted(Step(s, a))
  {
    hide ValidId, Holders;
    MoveCounts(s.pcs, a.task, At(Step(s, a), a.task));
  }

  lemma StepKeepsOneInside(s: State, a: Action)
    requires CanStep(s, a) && OneInside(s)
    ensures OneInside(Step(s, a))
  {
    hide ValidId;
  }

  // ---------------------------------------------------------------- whole runs

  function Fresh(): State { State({}, 0, None, map[]) }

  /** `path` follows `acts` from its first state. */
  ghost predicate IsPath(path: seq<State>, acts: seq<Action>) {
    && |path| == |acts| + 1
    && forall i :: 0 <= i < |acts| ==> CanStep(path[i], acts[i]) && path[i + 1] == Step(path[i], acts[i])
  }

  /** Any interleaving of any number of goroutines from an agent just started. */
  ghost predicate IsRun(run: seq<State>, acts: seq<Action>) { IsPath(run, acts) && run[0] == Fresh() }

  lemma {:induction false} PathKeepsInv(path: seq<State>, acts: seq<Action>, n: nat)
    requires IsPath(path, acts) && n < |path| && Inv(path[0])
    ensures Inv(path[n])
    decreases n
  {
    hide CanStep, Step, Claimants, Counted, OneInside;
    if n > 0 {
      PathKeepsInv(path, acts, n - 1);
      StepKeepsClaimants(path[n - 1], acts[n - 1]);
      StepKeepsCounted(path[n - 1], acts[n - 1]);
      StepKeepsOneInside(path[n - 1], acts[n - 1]);
    }
  }

  lemma RunKeepsInv(run: seq<State>, acts: seq<Action>, n: nat)
    requires IsRun(run, acts) && n < |run|
    ensures Inv(run[n])
  {
    PathKeepsInv(run, acts, n);
  }

  ghost function Collectors(pcs: map<nat, Pc>): set<nat> { set g | g in pcs && pcs[g].Collecting? }

  /** In every interleaving at most two goroutines collect, no two are at work on one id, the running
      set is exactly the ids at work, and the channel counts the places taken. */
  lemma AtMostTwoCollect(run: seq<State>, acts: seq<Action>, n: nat)
    requires IsRun(run, acts) && n < |run|
    ensures var s := run[n];
            && |Collectors(s.pcs)| <= 2
            && (forall g, h, id :: Owns(s, g, id) && Owns(s, h, id) ==> g == h)
            && (forall id :: id in s.running <==> exists g :: Owns(s, g, id))
            && s.slots == |Holders(s.pcs)| <= 2
  {
    hide IsRun;
    RunKeepsInv(run, acts, n);
    var s := run[n];
    SubsetSize(Collectors(s.pcs), Holders(s.pcs));
  }

  /** Exactly when a start claims its id: 32 hexadecimal digits that no goroutine is at work on. */
  lemma StartExactlyWhen(run: seq<State>, acts: seq<Action>, n: nat, g: nat, id: string)
    requires IsRun(run, acts) && n < |run| && At(run[n], g).Out?
    ensures CanStep(run[n], Start(g, id))
    ensures var after := Step(run[n], Start(g, id));
      if |id| == 32 && (forall i :: 0 <= i < 32 ==> '0' <= id[i] <= '9' || 'a' <= id[i] <= 'f')
         && (forall h :: !Owns(run[n], h, id))
      then At(after, g) == Claimed(id) && after.running == run[n].running + {id}
      else after == run[n]
  {
    hide IsRun;
    RunKeepsInv(run, acts, n);
  }

  /** Exactly when a place is refused: when two goroutines have one. */
  lemma RefusedExactlyWhen(run: seq<State>, acts: seq<Action>, n: nat, g: nat)
    requires IsRun(run, acts) && n < |run| && At(run[n], g).Claimed?
    ensures CanStep(run[n], TrySlot(g))
    ensures var after, id := Step(run[n], TrySlot(g)), At(run[n], g).id;
      At(after, g) == if |Holders(run[n].pcs)| == 2 then Refused(id) else Collecting(id)
  {
    hide IsRun;
    RunKeepsInv(run, acts, n);
  }

  lemma {:induction false} SubsetSize(a: set<nat>, b: set<nat>)
    requires a <= b
    ensures |a| <= |b|
    decreases a
  {
    if a != {} {
      var x :| x in a;
      SubsetSize(a - {x}, b - {x});
    }
  }

  /** Publishing an answer never overlaps another publication or an ordinary report. */
  lemma PublishesAlone(run: seq<State>, acts: seq<Action>, n: nat, g: nat, h: nat)
    requires IsRun(run, acts) && n < |run|
    requires HoldsMutex(At(run[n], g)) && HoldsMutex(At(run[n], h))
    ensures g == h
  {
    hide IsRun;
    RunKeepsInv(run, acts, n);
  }

  // ---------------------------------------------------------------- a refused start

  /** The state without one goroutine and the id it claims. */
  function Erased(s: State, g: nat): State {
    State(if Claims(At(s, g)) then s.running - {At(s, g).id} else s.running, s.slots, s.mutex, s.pcs - {g})
  }

  /** The goroutine is outside, waiting for a place or refused one. */
  predicate Placeless(pc: Pc) { pc.Out? || pc.Claimed? || pc.Refused? }

  /** What it does as a recheck that gets no place: it starts, finds the channel full, leaves. */
  predicate Unlucky(s: State, a: Action) {
    a.Start? || (a.TrySlot? && s.slots >= SLOTS) || (a.Delete? && At(s, a.task).Refused?)
  }

  /** The unlucky goroutine's own steps change nothing that others see. */
  lemma OwnStepIsInvisible(s: State, a: Action)
    requires CanStep(s, a) && Claimants(s) && Unlucky(s, a)
    ensures Erased(Step(s, a), a.task) == Erased(s, a.task)
    ensures Placeless(At(Step(s, a), a.task))
  {
    hide ValidId;
    assert Step(s, a).pcs - {a.task} == s.pcs - {a.task};
    if a.Start? && a.id !in s.running { assert s.running + {a.id} - {a.id} == s.running; }
  }

  /** A step of anyone else is possible without it too. */
  lemma OtherCanStep(s: State, a: Action, g: nat)
    requires CanStep(s, a) && a.task != g
    requires a.Start? && Claims(At(s, g)) ==> a.id != At(s, g).id
    ensures At(Erased(s, g), a.task) == At(s, a.task)
    ensures CanStep(Erased(s, g), a)
    ensures At(Step(s, a), g) == At(s, g)
    ensures Step(Erased(s, g), a).pcs == Erased(Step(s, a), g).pcs
  {
    hide ValidId, Claims;
    var t := Erased(s, g);
    assert At(t, a.task) == At(s, a.task);
    var pc := At(Step(s, a), a.task);
    assert s.pcs[a.task := pc] - {g} == (s.pcs - {g})[a.task := pc];
  }

  /** It leads to the same, unless it starts the very id claimed meanwhile. */
  lemma OtherStepIsBlind(s: State, a: Action, g: nat)
    requires CanStep(s, a) && Claimants(s) && a.task != g && Placeless(At(s, g))
    requires a.Start? && Claims(At(s, g)) ==> a.id != At(s, g).id
    ensures CanStep(Erased(s, g), a)
    ensures Step(Erased(s, g), a) == Erased(Step(s, a), g)
    ensures At(Step(s, a), g) == At(s, g)
  {
    hide ValidId;
    OtherCanStep(s, a, g);
    assert Step(Erased(s, g), a).running == Erased(Step(s, a), g).running by {
      if a.Delete? && Claims(At(s, g)) {
        assert Owns(s, g, At(s, g).id) && Owns(s, a.task, At(s, a.task).id);
      }
    }
  }

  /** That exception is real: a goroutine started on the claimed id is turned away, and without the
      other one it would have claimed the id itself. */
  lemma RivalIsTurnedAway(s: State, a: Action, g: nat)
    requires CanStep(s, a) && Claimants(s) && a.task != g && Placeless(At(s, g))
    requires a.Start? && Owns(s, g, a.id) && ValidId(a.id)
    ensures Step(s, a) == s && CanStep(Erased(s, g), a)
    ensures Owns(Step(Erased(s, g), a), a.task, a.id) && Step(Erased(s, g), a) != Erased(Step(s, a), g)
  {
    hide ValidId;
    assert Owns(s, g, a.id);
    assert At(Erased(s, g), a.task).Out?;
  }

  /** The actions of a run segment other than those of one goroutine. */
  function Others(acts: seq<Action>, n: nat, g: nat): seq<Action>
    requires n <= |acts|
  {
    if n == 0 then []
    else if acts[n - 1].task == g then Others(acts, n - 1, g)
    else Others(acts, n - 1, g) + [acts[n - 1]]
  }

  /** Nobody else starts the id the goroutine is holding. */
  ghost predicate NoRival(path: seq<State>, acts: seq<Action>, g: nat)
    requires IsPath(path, acts)
  {
    forall i :: 0 <= i < |acts| && acts[i].task != g && acts[i].Start? && Claims(At(path[i], g)) ==>
      acts[i].id != At(path[i], g).id
  }

  /** However the others are interleaved with a goroutine that starts, is refused a place and leaves,
      they could have made the same steps without it, to the same running set, channel and mutex. */
  lemma {:induction false} RefusedStartIsInvisible(path: seq<State>, acts: seq<Action>, g: nat, n: nat)
    returns (without: seq<State>)
    requires IsPath(path, acts) && n <= |acts| && Inv(path[0]) && NoRival(path, acts, g)
    requires forall i :: 0 <= i < n && acts[i].task == g ==> Unlucky(path[i], acts[i])
    requires At(path[0], g).Out?
    ensures IsPath(without, Others(acts, n, g))
    ensures without[0] == Erased(path[0], g) && without[|without| - 1] == Erased(path[n], g)
    ensures Placeless(At(path[n], g))
    ensures without[0].running == path[0].running
    ensures At(path[n], g).Out? ==> without[|without| - 1].running == path[n].running
    decreases n
  {
    hide CanStep, Step, Claimants, Counted, OneInside, Unlucky;
    if n == 0 {
      without := [Erased(path[0], g)];
    } else {
      without := RefusedStartIsInvisible(path, acts, g, n - 1);
      PathKeepsInv(path, acts, n - 1);
      var a := acts[n - 1];
      if a.task == g {
        OwnStepIsInvisible(path[n - 1], a);
      } else {
        OtherStepIsBlind(path[n - 1], a, g);
        without := without + [Erased(path[n], g)];
      }
    }
  }

  // ---------------------------------------------------------------- nobody gets stuck

  /** Steps a goroutine has still to make. */
  function Ahead(pc: Pc): nat {
    match pc
    case Out => 0
    case Claimed(_) => 7
    case Refused(_) => 1
    case Collecting(_) => 5
    case Collected(_) => 4
    case Publishing(_) => 3
    case Published(_) => 2
    case Freed(_) => 1
    case ReportWaiting => 2
    case Reporting => 1
  }

  predicate Begins(a: Action) { a.Start? || a.StartReport? }

  /** A goroutine under way comes nearer its end with each of its steps, and nobody else's step moves it. */
  lemma StepsLeadOut(s: State, a: Action, g: nat)
    requires CanStep(s, a)
    ensures a.task != g ==> At(Step(s, a), g) == At(s, g)
    ensures !Begins(a) && a.task == g ==> Ahead(At(Step(s, a), g)) < Ahead(At(s, g))
  {
  }

  /** In every reachable state with a goroutine under way some goroutine can go on: places are given
      back without waiting, and whoever waits for the mutex waits for one that can leave it. */
  lemma NeverStuck(run: seq<State>, acts: seq<Action>, n: nat, g: nat)
    requires IsRun(run, acts) && n < |run| && !At(run[n], g).Out?
    ensures exists a: Action :: !Begins(a) && CanStep(run[n], a)
  {
    hide IsRun, Claimants;
    RunKeepsInv(run, acts, n);
    var s := run[n];
    var a := if s.mutex.Some? then Unlock(s.mutex.value) else match At(s, g)
      case Claimed(_) => TrySlot(g)
      case Refused(_) => Delete(g)
      case Collecting(_) => Collect(g)
      case Published(_) => FreeSlot(g)
      case Freed(_) => Delete(g)
      case _ => Lock(g);
    assert At(s, g).Published? ==> g in Holders(s.pcs);
    assert !Begins(a) && CanStep(s, a);
  }

  /** When every goroutine has left, the running set and the channel are empty and the mutex is free. */
  lemma NothingLeaks(run: seq<State>, acts: seq<Action>, n: nat)
    requires IsRun(run, acts) && n < |run| && forall g :: At(run[n], g).Out?
    ensures run[n].running == {} && run[n].slots == 0 && run[n].mutex.None?
  {
    hide IsRun;
    RunKeepsInv(run, acts, n);
    var s := run[n];
    forall g | g in s.pcs ensures s.pcs[g].Out? { assert At(s, g).Out?; }
    assert Holders(s.pcs) == {};
  }
}
