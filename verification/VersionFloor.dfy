/** Account versions that survive deletion (backend/app/auth_generations.py) and the restore of old
    backups (`import_data` in backend/app/backup.py). A token carries the version it was issued at
    and is good only while the account still has it. Creating an account and adding one to a version
    read first and write later, so both are split: a write carries the value some earlier read saw. */
module VersionFloor {
  import opened Basics

  /** `serial` tells accounts of one name apart; no operation reads it. */
  datatype User = User(name: string, version: nat, serial: nat)

  /** An account row as somebody read it: a token made from it, or the object a request still holds. */
  datatype Token = Token(id: int, name: string, version: nat, serial: nat)

  /** A floor as somebody read it before creating an account. */
  datatype FloorRead = FloorRead(name: string, version: nat)

  /** Accounts by id, stored floors by name, the other settings, everything read so far. */
  datatype State = State(
    users: map<int, User>, floors: map<string, nat>, settings: map<string, string>, issued: set<Token>,
    looked: set<FloorRead>, serials: nat)

  /** A settings row of a backup file: a floor (None if its value is not a natural number) or another
      setting. */
  datatype Row = Floor(name: string, value: Option<nat>) | Setting(key: string, text: string)

  datatype Action =
    | ReadFloor(name: string)
    | Create(id: int, read: FloorRead)
    | Login(id: int)
    | Bump(seen: Token)
    | ChangePassword(id: int, name: string, version: nat)
    | Delete(id: int, name: string)
    | Restore(rows: Option<seq<Row>>)

  // ---------------------------------------------------------------- single operations

  /** `initial_version`: a new account starts at the stored floor. */
  function Initial(floors: map<string, nat>, name: string): nat { if name in floors then floors[name] else 0 }

  /** `merge_revocation`: insert, or raise to the larger value. */
  function Raise(floors: map<string, nat>, name: string, version: nat): map<string, nat> {
    if name in floors && !(floors[name] < version) then floors else floors[name := version]
  }

  predicate HasName(s: State, name: string) { exists id :: id in s.users && s.users[id].name == name }

  /** The floor rows of a file merged one by one; None if one of them is unreadable. */
  function MergeFloors(floors: map<string, nat>, rows: seq<Row>): Option<map<string, nat>>
    decreases |rows|
  {
    if rows == [] then Some(floors)
    else match rows[0]
      case Setting(_, _) => MergeFloors(floors, rows[1..])
      case Floor(name, value) => if value.None? then None else MergeFloors(Raise(floors, name, value.value), rows[1..])
  }

  function InsertSettings(settings: map<string, string>, rows: seq<Row>): map<string, string>
    decreases |rows|
  {
    if rows == [] then settings
    else InsertSettings(if rows[0].Setting? then settings[rows[0].key := rows[0].text] else settings, rows[1..])
  }

  /** A restored setting has the value of the last row of its key; a key without a row is as before, which
      after a restore means gone. */
  lemma {:induction false} SettingsAre(settings: map<string, string>, rows: seq<Row>, key: string)
    ensures var after := InsertSettings(settings, rows);
      if exists i :: 0 <= i < |rows| && rows[i].Setting? && rows[i].key == key then
        exists i :: && 0 <= i < |rows| && rows[i].Setting? && rows[i].key == key
                    && key in after && after[key] == rows[i].text
                    && forall j :: i < j < |rows| ==> !(rows[j].Setting? && rows[j].key == key)
      else (key in after <==> key in settings) && (key in after ==> after[key] == settings[key])
    decreases |rows|
  {
    if rows != [] {
      var next, rest := if rows[0].Setting? then settings[rows[0].key := rows[0].text] else settings, rows[1..];
      SettingsAre(next, rest, key);
      if i :| 0 <= i < |rest| && rest[i].Setting? && rest[i].key == key {
        var k :| && 0 <= k < |rest| && rest[k].Setting? && rest[k].key == key
                 && key in InsertSettings(next, rest) && InsertSettings(next, rest)[key] == rest[k].text
                 && forall j :: k < j < |rest| ==> !(rest[j].Setting? && rest[j].key == key);
        assert rows[k + 1] == rest[k];
        assert forall j :: k + 1 < j < |rows| ==> rows[j] == rest[j - 1];
      } else {
        assert forall j :: 0 < j < |rows| ==> rows[j] == rest[j - 1];
      }
    }
  }

  // ---------------------------------------------------------------- the system

  /** Writes carry values read earlier in the run. */
  ghost predicate CanStep(s: State, a: Action) {
    match a
    case Create(_, read) => read in s.looked
    case Login(id) => id in s.users
    case Bump(seen) => seen in s.issued
    case _ => true
  }

  function SetVersion(s: State, id: int, version: nat): State
    requires id in s.users
  {
    s.(users := s.users[id := s.users[id].(version := version)])
  }

  /** The insert goes through: id and name are free. */
  ghost predicate Inserts(s: State, id: int, name: string) { id !in s.users && !HasName(s, name) }

  function RowOf(s: State, id: int): Token
    requires id in s.users
  {
    Token(id, s.users[id].name, s.users[id].version, s.users[id].serial)
  }

  ghost function Step(s: State, a: Action): State
    requires CanStep(s, a)
  {
    match a
    case ReadFloor(name) => s.(looked := s.looked + {FloorRead(name, Initial(s.floors, name))})
    case Create(id, read) =>
      // a clash with a unique key rolls the insert back
      if Inserts(s, id, read.name)
      then s.(users := s.users[id := User(read.name, read.version, s.serials)], serials := s.serials + 1)
      else s
    case Login(id) => s.(issued := s.issued + {RowOf(s, id)})
    case Bump(seen) =>
      // the row is found by its id alone and gets the value read earlier plus one
      if seen.id in s.users then SetVersion(s, seen.id, seen.version + 1) else s
    case ChangePassword(id, name, version) =>
      if id in s.users && s.users[id].name == name && s.users[id].version == version
      then SetVersion(s, id, version + 1) else s
    case Delete(id, name) =>
      // a stale handle whose id now belongs to another name deletes nothing
      if id in s.users && s.users[id].name == name then
        s.(users := s.users - {id}, floors := Raise(s.floors, name, s.users[id].version + 1))
      else s
    case Restore(rows) =>
      // users are not part of a backup; a file without a settings table leaves the floors alone
      if rows.None? || MergeFloors(s.floors, rows.value).None? then s
      else s.(floors := MergeFloors(s.floors, rows.value).value, settings := InsertSettings(map[], rows.value))
  }

  // ---------------------------------------------------------------- floors never fall

  predicate AtLeast(a: map<string, nat>, b: map<string, nat>) { forall n :: n in a ==> n in b && a[n] <= b[n] }

  lemma {:induction false} MergeRaises(floors: map<string, nat>, rows: seq<Row>)
    requires MergeFloors(floors, rows).Some?
    ensures AtLeast(floors, MergeFloors(floors, rows).value)
    decreases |rows|
  {
    if rows != [] {
      if rows[0].Setting? {
        MergeRaises(floors, rows[1..]);
      } else {
        MergeRaises(Raise(floors, rows[0].name, rows[0].value.value), rows[1..]);
      }
    }
  }

  /** A restore can only raise a floor, and it raises every floor to at least what the file says. */
  lemma {:induction false} MergeReaches(floors: map<string, nat>, rows: seq<Row>, i: nat)
    requires MergeFloors(floors, rows).Some? && i < |rows| && rows[i].Floor?
    ensures rows[i].value.Some? && rows[i].name in MergeFloors(floors, rows).value
    ensures MergeFloors(floors, rows).value[rows[i].name] >= rows[i].value.value
    decreases |rows|
  {
    var next := if rows[0].Setting? then floors else Raise(floors, rows[0].name, rows[0].value.value);
    if i == 0 { MergeRaises(next, rows[1..]); } else { MergeReaches(next, rows[1..], i - 1); }
  }

  lemma StepRaisesFloors(s: State, a: Action)
    requires CanStep(s, a)
    ensures AtLeast(s.floors, Step(s, a).floors)
  {
    if a.Restore? && a.rows.Some? && MergeFloors(s.floors, a.rows.value).Some? { MergeRaises(s.floors, a.rows.value); }
  }

  // ---------------------------------------------------------------- what holds in every run

  /** Names and serials are unique, serials are fresh, and no floor read is above the floor now. */
  ghost predicate Sound(s: State) {
    && (forall i :: i in s.users ==> s.users[i].serial < s.serials)
    && (forall i, j :: i in s.users && j in s.users && i != j ==>
          s.users[i].serial != s.users[j].serial && s.users[i].name != s.users[j].name)
    && (forall t :: t in s.issued ==> t.serial < s.serials)
    && (forall r :: r in s.looked ==> r.version <= Initial(s.floors, r.name))
  }

  lemma StepKeepsSound(s: State, a: Action)
    requires CanStep(s, a) && Sound(s)
    ensures Sound(Step(s, a))
  {
    hide MergeFloors, InsertSettings;
    StepRaisesFloors(s, a);
    var after := Step(s, a);
    if a.Create? && Inserts(s, a.id, a.read.name) {
      forall i | i in s.users ensures s.users[i].name != a.read.name { }
    }
    assert forall r :: r in s.looked ==> Initial(s.floors, r.name) <= Initial(after.floors, r.name);
  }

  /** The larger of a name's stored floor and its live version is at least `v`. */
  ghost predicate Reaches(s: State, name: string, v: nat) { v <= Initial(s.floors, name) || LiveReaches(s, name, v) }

  ghost predicate LiveReaches(s: State, name: string, v: nat) {
    exists id :: id in s.users && s.users[id].name == name && v <= s.users[id].version
  }

  /** A write of an outdated value: below the version of the row it hits, where the stored floor does not
      hold the level up. */
  ghost predicate Lowers(s: State, a: Action, name: string) {
    && a.Bump? && a.seen.id in s.users && s.users[a.seen.id].name == name
    && a.seen.version + 1 < s.users[a.seen.id].version && Initial(s.floors, name) < s.users[a.seen.id].version
  }

  /** Exactly when a step lowers the level of a name. */
  lemma LevelFallsExactlyWhen(s: State, a: Action, name: string)
    requires CanStep(s, a) && Sound(s)
    ensures Lowers(s, a, name) <==> exists v :: Reaches(s, name, v) && !Reaches(Step(s, a), name, v)
  {
    hide Sound, MergeFloors, InsertSettings;
    if Lowers(s, a, name) {
      var v := s.users[a.seen.id].version;
      assert Reaches(s, name, v);
      FallsTo(s, a, name, v);
    } else {
      forall v | Reaches(s, name, v) ensures Reaches(Step(s, a), name, v) { StepKeepsLevel(s, a, name, v); }
    }
  }

  lemma FallsTo(s: State, a: Action, name: string, v: nat)
    requires CanStep(s, a) && Sound(s) && Lowers(s, a, name) && v == s.users[a.seen.id].version
    ensures !Reaches(Step(s, a), name, v)
  {
    var after := Step(s, a);
    forall id | id in after.users && after.users[id].name == name ensures after.users[id].version < v {
      assert id == a.seen.id;
    }
  }

  lemma StepKeepsLevel(s: State, a: Action, name: string, v: nat)
    requires CanStep(s, a) && !Lowers(s, a, name) && Reaches(s, name, v)
    ensures Reaches(Step(s, a), name, v)
  {
    hide MergeFloors, InsertSettings;
    StepRaisesFloors(s, a);
    var after := Step(s, a);
    assert Initial(s.floors, name) <= Initial(after.floors, name);
    if LiveReaches(s, name, v) {
      var id :| id in s.users && s.users[id].name == name && v <= s.users[id].version;
      if id in after.users { assert after.users[id].name == name; }
    }
  }

  // ---------------------------------------------------------------- old tokens stay dead

  /** No write of this step is outdated: a version is not lowered, and an account is created at the
      floor its name has now. */
  ghost predicate Orderly(s: State, a: Action) {
    match a
    case Bump(seen) => seen.id in s.users ==> s.users[seen.id].version <= seen.version + 1
    case Create(id, read) => Inserts(s, id, read.name) ==> read.version == Initial(s.floors, read.name)
    case _ => true
  }

  /** The account a token was issued to still exists. */
  ghost predicate Alive(s: State, t: Token) { exists i :: i in s.users && s.users[i].serial == t.serial }

  /** Every token is explained by its account or buried under the floor and every later account. */
  ghost predicate Explained(s: State, t: Token) {
    if Alive(s, t) then
      forall i :: i in s.users && s.users[i].serial == t.serial ==>
        s.users[i].name == t.name && t.version <= s.users[i].version
    else Buried(s, t)
  }

  ghost predicate Buried(s: State, t: Token) {
    && t.version < Initial(s.floors, t.name)
    && forall i :: i in s.users && s.users[i].name == t.name ==> t.version < s.users[i].version
  }

  ghost predicate Inv(s: State) { Sound(s) && forall t :: t in s.issued ==> Explained(s, t) }

  lemma StepKeepsInv(s: State, a: Action)
    requires CanStep(s, a) && Inv(s) && Orderly(s, a)
    ensures Inv(Step(s, a))
  {
    hide Sound, Explained;
    StepKeepsSound(s, a);
    forall t | t in Step(s, a).issued ensures Explained(Step(s, a), t) {
      if t in s.issued { TokenStep(s, a, t); } else { NewToken(s, a, t); }
    }
  }

  lemma NewToken(s: State, a: Action, t: Token)
    requires CanStep(s, a) && Sound(s) && t in Step(s, a).issued && t !in s.issued
    ensures Explained(Step(s, a), t)
  {
    assert a.Login? && t == RowOf(s, a.id);
    assert s.users[a.id].serial == t.serial;
  }

  lemma TokenStep(s: State, a: Action, t: Token)
    requires CanStep(s, a) && Sound(s) && Orderly(s, a) && t in s.issued && Explained(s, t)
    ensures Explained(Step(s, a), t)
  {
    hide MergeFloors, InsertSettings;
    StepRaisesFloors(s, a);
    var after := Step(s, a);
    assert Initial(s.floors, t.name) <= Initial(after.floors, t.name);
    if Alive(s, t) {
      var i :| i in s.users && s.users[i].serial == t.serial;
      if i in after.users { assert after.users[i].serial == t.serial; }
      else { Retired(s, a, t, i); }
    } else {
      StaysBuried(s, a, t);
    }
  }

  /** Deleting the account of a token buries it. */
  lemma Retired(s: State, a: Action, t: Token, i: int)
    requires CanStep(s, a) && Sound(s) && Explained(s, t)
    requires i in s.users && s.users[i].serial == t.serial && i !in Step(s, a).users
    ensures !Alive(Step(s, a), t) && Buried(Step(s, a), t)
  {
    assert a.Delete? && a.id == i && Alive(s, t);
  }

  lemma StaysBuried(s: State, a: Action, t: Token)
    requires CanStep(s, a) && Sound(s) && Orderly(s, a) && t in s.issued && !Alive(s, t) && Buried(s, t)
    ensures !Alive(Step(s, a), t) && Buried(Step(s, a), t)
  {
    hide MergeFloors, InsertSettings;
    StepRaisesFloors(s, a);
    var after := Step(s, a);
    assert Initial(s.floors, t.name) <= Initial(after.floors, t.name);
    forall i | i in after.users ensures after.users[i].serial != t.serial {
      if i in s.users { assert after.users[i].serial == s.users[i].serial; }
    }
    forall i | i in after.users && after.users[i].name == t.name ensures t.version < after.users[i].version {
      if i in s.users { assert s.users[i].name == t.name; }
    }
  }

  // ---------------------------------------------------------------- runs

  /** A run from a panel without accounts. */
  ghost predicate IsRun(states: seq<State>, acts: seq<Action>) {
    && |states| == |acts| + 1 && states[0].users == map[] && states[0].issued == {} && states[0].looked == {}
    && forall i :: 0 <= i < |acts| ==> CanStep(states[i], acts[i]) && states[i + 1] == Step(states[i], acts[i])
  }

  /** The first `n` steps make no outdated write. */
  ghost predicate OrderlyUpTo(states: seq<State>, acts: seq<Action>, n: nat) {
    n <= |acts| && n <= |states| && forall i :: 0 <= i < n ==> Orderly(states[i], acts[i])
  }

  lemma {:induction false} SoundHolds(states: seq<State>, acts: seq<Action>, i: nat)
    requires IsRun(states, acts) && i < |states|
    ensures Sound(states[i])
  {
    hide CanStep, Step;
    if i > 0 {
      SoundHolds(states, acts, i - 1);
      StepKeepsSound(states[i - 1], acts[i - 1]);
    }
  }

  /** Over every run of reading, creating, bumping with outdated values, deleting with a stale handle,
      recreating and restoring any file, the larger of floor and live version of a name never falls but
      by the steps `Lowers` names, and by each of these it does. */
  lemma {:induction false} LevelNeverFalls(states: seq<State>, acts: seq<Action>, i: nat, j: nat, name: string)
    requires IsRun(states, acts) && i <= j < |states|
    ensures (forall k :: i <= k < j ==> !Lowers(states[k], acts[k], name)) ==>
              forall v :: Reaches(states[i], name, v) ==> Reaches(states[j], name, v)
    ensures forall k :: i <= k < j && Lowers(states[k], acts[k], name) ==>
              exists v :: Reaches(states[k], name, v) && !Reaches(states[k + 1], name, v)
    decreases j - i
  {
    hide CanStep, Step, Reaches, Lowers;
    if i < j {
      LevelNeverFalls(states, acts, i + 1, j, name);
      SoundHolds(states, acts, i);
      LevelFallsExactlyWhen(states[i], acts[i], name);
      assert states[i + 1] == Step(states[i], acts[i]);
      forall k | i <= k < j && Lowers(states[k], acts[k], name)
        ensures exists v :: Reaches(states[k], name, v) && !Reaches(states[k + 1], name, v)
      {
        if k > i { assert i + 1 <= k < j; }
      }
    }
  }

  lemma {:induction false} InvHolds(states: seq<State>, acts: seq<Action>, i: nat)
    requires IsRun(states, acts) && i < |states| && OrderlyUpTo(states, acts, i)
    ensures Inv(states[i])
  {
    hide CanStep, Step, Orderly;
    if i == 0 {
      SoundHolds(states, acts, 0);
    } else {
      InvHolds(states, acts, i - 1);
      StepKeepsInv(states[i - 1], acts[i - 1]);
    }
  }

  /** A token issued to an account that was deleted never matches a later account of that name, as long
      as no write was outdated. */
  lemma OldTokensStayDead(states: seq<State>, acts: seq<Action>, i: nat, t: Token, id: int)
    requires IsRun(states, acts) && i < |states| && OrderlyUpTo(states, acts, i) && t in states[i].issued
    requires id in states[i].users && states[i].users[id].name == t.name && states[i].users[id].serial != t.serial
    ensures t.version != states[i].users[id].version
  {
    InvHolds(states, acts, i);
    assert Explained(states[i], t);
  }

  /** The check of a token against the account of its name. */
  ghost predicate Matches(s: State, t: Token) {
    exists id :: id in s.users && s.users[id].name == t.name && s.users[id].version == t.version
  }

  /** Revoked: behind the live account of its name, or behind the floor if there is none. */
  ghost predicate Revoked(s: State, t: Token) {
    && (forall id :: id in s.users && s.users[id].name == t.name ==> t.version < s.users[id].version)
    && (!HasName(s, t.name) ==> t.version < Initial(s.floors, t.name))
  }

  lemma DeadIsRevoked(s: State, t: Token)
    requires Inv(s) && t in s.issued && !Matches(s, t)
    ensures Revoked(s, t)
  {
    assert Explained(s, t);
  }

  lemma KeepsName(s: State, a: Action, name: string)
    requires CanStep(s, a) && HasName(s, name) && !(a.Delete? && a.name == name)
    ensures HasName(Step(s, a), name)
  {
    hide MergeFloors, InsertSettings, Raise;
    var id :| id in s.users && s.users[id].name == name;
    assert id in Step(s, a).users && Step(s, a).users[id].name == name;
  }

  lemma StepKeepsRevoked(s: State, a: Action, t: Token)
    requires CanStep(s, a) && Sound(s) && Orderly(s, a) && Revoked(s, t)
    ensures Revoked(Step(s, a), t)
  {
    hide MergeFloors, InsertSettings;
    StepRaisesFloors(s, a);
    var after := Step(s, a);
    assert Initial(s.floors, t.name) <= Initial(after.floors, t.name);
    forall id | id in after.users && after.users[id].name == t.name ensures t.version < after.users[id].version {
      if id in s.users { assert s.users[id].name == t.name; }
    }
    if HasName(s, t.name) && !(a.Delete? && a.name == t.name) { KeepsName(s, a, t.name); }
  }

  /** Once a token no longer matches it never matches again, as long as no write is outdated. */
  lemma {:induction false} RevokedStaysRevoked(states: seq<State>, acts: seq<Action>, i: nat, j: nat, t: Token)
    requires IsRun(states, acts) && i <= j < |states| && OrderlyUpTo(states, acts, j)
    requires t in states[i].issued && !Matches(states[i], t)
    ensures !Matches(states[j], t)
  {
    hide CanStep, Step, Orderly, Revoked, Matches;
    InvHolds(states, acts, i);
    DeadIsRevoked(states[i], t);
    RevokedLater(states, acts, i, j, t);
    RevokedDoesNotMatch(states[j], t);
  }

  lemma {:induction false} RevokedLater(states: seq<State>, acts: seq<Action>, i: nat, j: nat, t: Token)
    requires IsRun(states, acts) && i <= j < |states| && OrderlyUpTo(states, acts, j) && Revoked(states[i], t)
    ensures Revoked(states[j], t)
    decreases j - i
  {
    hide CanStep, Step, Orderly, Revoked;
    if i < j {
      SoundHolds(states, acts, i);
      StepKeepsRevoked(states[i], acts[i], t);
      RevokedLater(states, acts, i + 1, j, t);
    }
  }

  lemma RevokedDoesNotMatch(s: State, t: Token)
    requires Revoked(s, t)
    ensures !Matches(s, t)
  {
  }

  // ---------------------------------------------------------------- outdated writes

  /** A changed password ends every token of that version; with another version seen nothing happens. */
  lemma PasswordRevokes(s: State, a: Action, t: Token)
    requires CanStep(s, a) && Sound(s) && a.ChangePassword? && t.name == a.name
    ensures if a.id in s.users && s.users[a.id].name == a.name && s.users[a.id].version == a.version
            then Matches(Step(s, a), t) <==> t.version == a.version + 1
            else Step(s, a) == s
  {
    var after := Step(s, a);
    if a.id in s.users && s.users[a.id].name == a.name && s.users[a.id].version == a.version {
      assert a.id in after.users && after.users[a.id].name == t.name;
      forall id | id in after.users && after.users[id].name == t.name ensures id == a.id { }
    }
  }

  /** A new account starts at the floor that was read, and a login hands out the row as it is. */
  lemma CreatedAndIssued(s: State, a: Action)
    requires CanStep(s, a)
    ensures a.Create? && a.id !in s.users && (forall i :: i in s.users ==> s.users[i].name != a.read.name) ==>
      var after := Step(s, a);
      a.id in after.users && after.users[a.id].name == a.read.name && after.users[a.id].version == a.read.version
    ensures a.Login? ==>
      exists t :: t in Step(s, a).issued
        && t.id == a.id && t.name == s.users[a.id].name && t.version == s.users[a.id].version
    ensures a.ReadFloor? ==>
      FloorRead(a.name, if a.name in s.floors then s.floors[a.name] else 0) in Step(s, a).looked
  {
    if a.Login? { assert RowOf(s, a.id) in Step(s, a).issued; }
  }

  /** What an outdated bump does to the tokens of the row it hits: after it exactly those issued at the
      value written are good. A row's own current token survives exactly if the value written is its
      version, that is if two requests read the same version and both wrote. */
  lemma BumpMatchesExactly(s: State, a: Action, t: Token)
    requires CanStep(s, a) && Sound(s) && a.Bump? && a.seen.id in s.users && t.name == s.users[a.seen.id].name
    ensures Matches(Step(s, a), t) <==> t.version == a.seen.version + 1
    ensures Matches(Step(s, a), RowOf(s, a.seen.id)) <==> s.users[a.seen.id].version == a.seen.version + 1
  {
    var after := Step(s, a);
    assert a.seen.id in after.users && after.users[a.seen.id].name == t.name;
    forall id | id in after.users && after.users[id].name == t.name ensures id == a.seen.id { }
  }

  /** Exactly when creating an account revives a token: when the floor read is the token's version. After
      orderly steps that takes a rise of the floor between the read and the insert. */
  lemma CreateRevivesExactlyWhen(states: seq<State>, acts: seq<Action>, i: nat, t: Token)
    requires IsRun(states, acts) && i < |acts| && OrderlyUpTo(states, acts, i) && t in states[i].issued
    requires acts[i].Create? && acts[i].read.name == t.name && Inserts(states[i], acts[i].id, t.name)
    ensures !Matches(states[i], t)
    ensures Matches(states[i + 1], t) <==> t.version == acts[i].read.version
    ensures Matches(states[i + 1], t) ==> acts[i].read.version < Initial(states[i].floors, t.name)
  {
    InvHolds(states, acts, i);
    var s, a, after := states[i], acts[i], states[i + 1];
    assert CanStep(s, a) && after == Step(s, a);
    assert Explained(s, t);
    assert after.users[a.id].name == t.name;
    forall id | id in after.users && after.users[id].name == t.name ensures id == a.id { }
  }

  /** A run, orderly up to its last step, that creates an account of the name at `seen` while the floor
      is `floor`, and thereby makes a token good again that was issued before a deletion. */
  ghost predicate Revives(states: seq<State>, acts: seq<Action>, name: string, seen: nat, floor: nat, t: Token) {
    && IsRun(states, acts) && acts != [] && OrderlyUpTo(states, acts, |acts| - 1)
    && var last := |acts| - 1;
       && acts[last].Create? && acts[last].read == FloorRead(name, seen)
       && Inserts(states[last], acts[last].id, name) && Initial(states[last].floors, name) == floor
       && t in states[last].issued && t.name == name && Matches(states[last + 1], t)
  }

  /** A token can be revived by a create that saw `seen` while the floor is `floor` if and only if the
      floor has risen since the read. */
  lemma RevivalExactlyWhen(name: string, seen: nat, floor: nat)
    ensures (exists states, acts, t :: Revives(states, acts, name, seen, floor, t)) <==> seen < floor
  {
    hide IsRun, Step, CanStep, Orderly, Matches, Inserts, Initial;
    if states, acts, t :| Revives(states, acts, name, seen, floor, t) {
      CreateRevivesExactlyWhen(states, acts, |acts| - 1, t);
    }
    if seen < floor {
      var states, acts, t := RaceRevives(name, seen, floor);
    }
  }

  /** One account at most, after one floor read. */
  function Scene(users: map<int, User>, floors: map<string, nat>, issued: set<Token>, r: FloorRead, serials: nat)
    : State
  {
    State(users, floors, map[], issued, {r}, serials)
  }

  function One(name: string, version: nat, serial: nat): map<int, User> { map[1 := User(name, version, serial)] }

  /** Two requests read the floor; one creates, logs in and is deleted, the floor rises, the other
      creates. */
  function RaceActs(name: string, seen: nat, floor: nat): (acts: seq<Action>)
    ensures |acts| == 6
  {
    var r := FloorRead(name, seen);
    [ReadFloor(name), Create(1, r), Login(1), Delete(1, name), Restore(Some([Floor(name, Some(floor))])), Create(1, r)]
  }

  function RaceStates(name: string, seen: nat, floor: nat): (states: seq<State>)
    ensures |states| == 7
  {
    var r, t := FloorRead(name, seen), Token(1, name, seen, 0);
    [State(map[], map[name := seen], map[], {}, {}, 0),
     Scene(map[], map[name := seen], {}, r, 0),
     Scene(One(name, seen, 0), map[name := seen], {}, r, 1),
     Scene(One(name, seen, 0), map[name := seen], {t}, r, 1),
     Scene(map[], map[name := seen + 1], {t}, r, 1),
     Scene(map[], map[name := floor], {t}, r, 1),
     Scene(One(name, seen, 1), map[name := floor], {t}, r, 2)]
  }

  /** Inserting the account with id 1 into a panel without accounts. */
  lemma InsertStep(floors: map<string, nat>, issued: set<Token>, r: FloorRead, serials: nat)
    ensures var s := Scene(map[], floors, issued, r, serials);
      && CanStep(s, Create(1, r)) && Inserts(s, 1, r.name)
      && (Orderly(s, Create(1, r)) <==> r.version == Initial(floors, r.name))
      && Step(s, Create(1, r)) == Scene(One(r.name, r.version, serials), floors, issued, r, serials + 1)
  {
  }

  lemma RestoreStep(name: string, was: nat, floor: nat, issued: set<Token>, r: FloorRead)
    requires was <= floor
    ensures var a := Restore(Some([Floor(name, Some(floor))]));
      Step(Scene(map[], map[name := was], issued, r, 1), a) == Scene(map[], map[name := floor], issued, r, 1)
  {
    OneRow(map[name := was], name, floor);
    assert map[name := was][name := floor] == map[name := floor];
  }

  lemma DeleteStep(name: string, seen: nat, issued: set<Token>, r: FloorRead)
    ensures Step(Scene(One(name, seen, 0), map[name := seen], issued, r, 1), Delete(1, name))
         == Scene(map[], map[name := seen + 1], issued, r, 1)
  {
    assert One(name, seen, 0) - {1} == map[];
    assert Raise(map[name := seen], name, seen + 1) == map[name := seen + 1];
  }

  lemma RaceStep(name: string, seen: nat, floor: nat, i: nat)
    requires seen < floor && i < 6
    ensures var s, a := RaceStates(name, seen, floor)[i], RaceActs(name, seen, floor)[i];
      CanStep(s, a) && RaceStates(name, seen, floor)[i + 1] == Step(s, a) && (i < 5 ==> Orderly(s, a))
  {
    var r, t := FloorRead(name, seen), Token(1, name, seen, 0);
    hide MergeFloors, InsertSettings;
    if i == 1 { InsertStep(map[name := seen], {}, r, 0); }
    if i == 3 { DeleteStep(name, seen, {t}, r); }
    if i == 4 { RestoreStep(name, seen + 1, floor, {t}, r); }
    if i == 5 { InsertStep(map[name := floor], {t}, r, 1); }
  }

  /** That race makes the deleted account's token good for the new one, id included. */
  lemma RaceRevives(name: string, seen: nat, floor: nat) returns (states: seq<State>, acts: seq<Action>, t: Token)
    requires seen < floor
    ensures Revives(states, acts, name, seen, floor, t)
    ensures |states| == 7 && t == Token(1, name, seen, 0) && states[6].users == One(name, seen, 1)
  {
    states, acts, t := RaceStates(name, seen, floor), RaceActs(name, seen, floor), Token(1, name, seen, 0);
    assert Matches(states[6], t) by { assert states[6].users[1].name == name; }
    InsertStep(map[name := floor], {t}, FloorRead(name, seen), 1);
    assert IsRun(states, acts) && OrderlyUpTo(states, acts, 5) by {
      hide Step, CanStep, Orderly, Matches, Inserts;
      forall i: nat | i < 6
        ensures CanStep(states[i], acts[i]) && states[i + 1] == Step(states[i], acts[i])
        ensures i < 5 ==> Orderly(states[i], acts[i])
      {
        RaceStep(name, seen, floor, i);
      }
    }
  }

  lemma OneRow(floors: map<string, nat>, name: string, floor: nat)
    requires name in floors && floors[name] <= floor
    ensures MergeFloors(floors, [Floor(name, Some(floor))]) == Some(floors[name := floor])
    ensures InsertSettings(map[], [Floor(name, Some(floor))]) == map[]
  {
    var rows := [Floor(name, Some(floor))];
    assert rows[1..] == [];
    assert Raise(floors, name, floor) == floors[name := floor];
  }

  /** Three requests, one of them slow: two logouts move the version from 0 to 2, the third, which read
      0, writes 1. */
  function StaleActs(name: string): (acts: seq<Action>)
    ensures |acts| == 7
  {
    var t0, t := Token(1, name, 0, 0), Token(1, name, 1, 0);
    [ReadFloor(name), Create(1, FloorRead(name, 0)), Login(1), Bump(t0), Login(1), Bump(t), Bump(t0)]
  }

  function StaleStates(name: string): (states: seq<State>)
    ensures |states| == 8
  {
    var r, t0, t := FloorRead(name, 0), Token(1, name, 0, 0), Token(1, name, 1, 0);
    [State(map[], map[], map[], {}, {}, 0), Scene(map[], map[], {}, r, 0), Live(name, 0, {}, r), Live(name, 0, {t0}, r),
     Live(name, 1, {t0}, r), Live(name, 1, {t0, t}, r), Live(name, 2, {t0, t}, r), Live(name, 1, {t0, t}, r)]
  }

  lemma StaleStep(name: string, i: nat)
    requires i < 7
    ensures var s, a := StaleStates(name)[i], StaleActs(name)[i];
      CanStep(s, a) && StaleStates(name)[i + 1] == Step(s, a) && (i < 6 ==> Orderly(s, a))
  {
    var r, t0, t := FloorRead(name, 0), Token(1, name, 0, 0), Token(1, name, 1, 0);
    hide MergeFloors, InsertSettings;
    if i == 0 { assert {} + {r} == {r}; }
    if i == 1 { InsertStep(map[], {}, r, 0); }
    if i == 2 { LoginStep(name, 0, {}, r); }
    if i == 3 { BumpStep(name, 0, t0, {t0}, r); }
    if i == 4 {
      LoginStep(name, 1, {t0}, r);
      assert {t0} + {t} == {t0, t};
    }
    if i == 5 { BumpStep(name, 1, t, {t0, t}, r); }
    if i == 6 { BumpStep(name, 2, t0, {t0, t}, r); }
  }

  /** The level falls by the last of these steps, and a token issued at 1 is good again. */
  lemma StaleBumpRevives(name: string) returns (states: seq<State>, acts: seq<Action>, t: Token)
    ensures IsRun(states, acts) && |acts| == 7 && OrderlyUpTo(states, acts, 6)
    ensures Lowers(states[6], acts[6], name)
    ensures t in states[6].issued && t.name == name && !Matches(states[6], t) && Matches(states[7], t)
  {
    states, acts, t := StaleStates(name), StaleActs(name), Token(1, name, 1, 0);
    assert Matches(states[7], t) by { assert states[7].users[1].name == name; }
    NoMatch(states[6], t);
    assert IsRun(states, acts) && OrderlyUpTo(states, acts, 6) by {
      hide Step, CanStep, Orderly, Matches, Lowers;
      forall i: nat | i < 7
        ensures CanStep(states[i], acts[i]) && states[i + 1] == Step(states[i], acts[i])
        ensures i < 6 ==> Orderly(states[i], acts[i])
      {
        StaleStep(name, i);
      }
    }
  }

  /** One account, without a stored floor. */
  function Live(name: string, version: nat, issued: set<Token>, r: FloorRead): State {
    Scene(One(name, version, 0), map[], issued, r, 1)
  }

  lemma NoMatch(s: State, t: Token)
    requires forall id :: id in s.users ==> s.users[id].version != t.version
    ensures !Matches(s, t)
  {
  }

  lemma LoginStep(name: string, version: nat, issued: set<Token>, r: FloorRead)
    ensures var s := Live(name, version, issued, r);
      CanStep(s, Login(1)) && Orderly(s, Login(1))
      && Step(s, Login(1)) == Live(name, version, issued + {Token(1, name, version, 0)}, r)
  {
  }

  lemma BumpStep(name: string, version: nat, seen: Token, issued: set<Token>, r: FloorRead)
    requires seen.id == 1 && seen in issued
    ensures var s := Live(name, version, issued, r);
      CanStep(s, Bump(seen)) && (Orderly(s, Bump(seen)) <==> version <= seen.version + 1)
      && Step(s, Bump(seen)) == Live(name, seen.version + 1, issued, r)
  {
    assert One(name, version, 0)[1 := User(name, seen.version + 1, 0)] == One(name, seen.version + 1, 0);
  }

  // ---------------------------------------------------------------- the database, changed in place

  class Database {
    var users: map<int, User>
    var floors: map<string, nat>
    var settings: map<string, string>

    /** `merge_revocation`: one conditional insert-or-update. */
    method MergeRevocation(name: string, version: nat)
      modifies this`floors
      ensures floors == Raise(old(floors), name, version)
    {
      if name !in floors {
        floors := floors[name := version];
      } else if floors[name] < version {
        floors := floors[name := version];
      }
    }

    /** `retire` and the delete behind it: bump the row that still has this id and name, keep the
        new version as the floor, remove the row. */
    method Retire(id: int, name: string) returns (done: bool)
      modifies this`users, this`floors
      ensures done <==> id in old(users) && old(users)[id].name == name
      ensures done ==> users == old(users) - {id} && floors == Raise(old(floors), name, old(users)[id].version + 1)
      ensures !done ==> users == old(users) && floors == old(floors)
    {
      if id !in users || users[id].name != name { return false; }
      users := users[id := users[id].(version := users[id].version + 1)];
      MergeRevocation(name, users[id].version);
      users := users - {id};
      done := true;
    }

    /** The settings part of `import_data`: ordinary rows are replaced, floors are only merged; an
        unreadable floor rolls everything back. */
    method ImportSettings(rows: seq<Row>) returns (ok: bool)
      modifies this`floors, this`settings
      ensures ok <==> MergeFloors(old(floors), rows).Some?
      ensures ok ==> floors == MergeFloors(old(floors), rows).value && settings == InsertSettings(map[], rows)
      ensures !ok ==> floors == old(floors) && settings == old(settings)
    {
      var keptFloors, keptSettings := floors, settings;
      settings := map[];
      assert rows[0..] == rows;
      for i := 0 to |rows|
        invariant MergeFloors(floors, rows[i..]) == MergeFloors(old(floors), rows)
        invariant InsertSettings(settings, rows[i..]) == InsertSettings(map[], rows)
      {
        assert rows[i..][1..] == rows[i + 1..];
        match rows[i] {
          case Setting(key, text) => settings := settings[key := text];
          case Floor(name, value) =>
            if value.None? {
              floors, settings := keptFloors, keptSettings;
              return false;
            }
            MergeRevocation(name, value.value);
        }
      }
      ok := true;
    }
  }
}
