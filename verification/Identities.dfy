/** Users, groups and memberships under several administrators: each call checks, then runs
    transactions, and other administrators' transactions may run in between
    (`src/ski/identity_persistence.py`, `src/ski/identities.py`). */
module Identities {
  import opened Basics
  import opened IssuerPolicy

  datatype User = User(username: string, verifier: string, totpSecret: string, enabled: bool)

  datatype Membership = Membership(username: string, group: string)

  datatype Tables = Tables(users: seq<User>, groups: seq<string>, memberships: seq<Membership>)

  const EMPTY := Tables([], [], [])

  predicate HasUser(t: Tables, username: string) {
    exists i :: 0 <= i < |t.users| && t.users[i].username == username
  }

  predicate HasGroup(t: Tables, group: string) { group in t.groups }

  predicate GroupOccupied(t: Tables, group: string) {
    exists i :: 0 <= i < |t.memberships| && t.memberships[i].group == group
  }

  // ---- transactions ----

  datatype Change = Password(verifier: string) | TotpSecret(secret: string) | Enabled(flag: bool)

  /** A stored password verifier and TOTP secret that reading does not reject. */
  predicate Usable(user: User) { user.verifier != "" && user.totpSecret != "" }

  predicate Replaces(change: Change) {
    match change
    case Password(verifier) => verifier != ""
    case TotpSecret(secret) => secret != ""
    case Enabled(_) => true
  }

  /** One committed transaction of some administrator, on validated values. */
  datatype Transaction =
    | InsertUser(user: User)
    | UpdateUser(username: string, change: Change)
    | CreateGroup(group: string)
    | RemoveGroup(group: string)
    | AddMembership(membership: Membership)
    | RemoveMembership(membership: Membership)

  predicate Canonical(tx: Transaction) {
    match tx
    case InsertUser(user) => CanonicalUsername(user.username) && Usable(user)
    case UpdateUser(username, change) => CanonicalUsername(username) && Replaces(change)
    case CreateGroup(group) => CanonicalGroup(group)
    case RemoveGroup(group) => CanonicalGroup(group)
    case AddMembership(m) => CanonicalUsername(m.username) && CanonicalGroup(m.group)
    case RemoveMembership(m) => CanonicalUsername(m.username) && CanonicalGroup(m.group)
  }

  function Changed(user: User, change: Change): User {
    match change
    case Password(verifier) => user.(verifier := verifier)
    case TotpSecret(secret) => user.(totpSecret := secret)
    case Enabled(flag) => user.(enabled := flag)
  }

  function ChangeUsers(users: seq<User>, username: string, change: Change): seq<User> {
    seq(|users|, i requires 0 <= i < |users| =>
      if users[i].username == username then Changed(users[i], change) else users[i])
  }

  function Without<T(==)>(s: seq<T>, x: T): seq<T> {
    if s == [] then [] else (if s[0] == x then [] else [s[0]]) + Without(s[1..], x)
  }

  /** Memberships left when a group's row is deleted and the deletion cascades. */
  function Cascade(memberships: seq<Membership>, group: string): seq<Membership> {
    if memberships == [] then []
    else (if memberships[0].group == group then [] else [memberships[0]]) + Cascade(memberships[1..], group)
  }

  /** What a transaction reports: it changed a row, it found nothing to do, or a uniqueness
      or reference constraint stopped it. */
  datatype Report = Done | Declined | Violated

  function Run(t: Tables, tx: Transaction): (Tables, Report) {
    match tx
    case InsertUser(user) =>
      if HasUser(t, user.username) then (t, Violated) else (t.(users := t.users + [user]), Done)
    case UpdateUser(username, change) =>
      if !HasUser(t, username) then (t, Declined)
      else (t.(users := ChangeUsers(t.users, username, change)), Done)
    case CreateGroup(group) =>
      if HasGroup(t, group) then (t, Violated) else (t.(groups := t.groups + [group]), Done)
    case RemoveGroup(group) =>
      if GroupOccupied(t, group) || !HasGroup(t, group) then (t, Declined)
      else (t.(groups := Without(t.groups, group), memberships := Cascade(t.memberships, group)), Done)
    case AddMembership(m) =>
      if !HasGroup(t, m.group) || !HasUser(t, m.username) then (t, Declined)
      else if m in t.memberships then (t, Violated)
      else (t.(memberships := t.memberships + [m]), Done)
    case RemoveMembership(m) =>
      if !HasGroup(t, m.group) || !HasUser(t, m.username) || m !in t.memberships then (t, Declined)
      else (t.(memberships := Without(t.memberships, m)), Done)
  }

  // ---- what every interleaving keeps ----

  ghost predicate Sound(t: Tables) {
    && (forall i :: 0 <= i < |t.users| ==> CanonicalUsername(t.users[i].username) && Usable(t.users[i]))
    && (forall i, j :: 0 <= i < j < |t.users| ==> t.users[i].username != t.users[j].username)
    && (forall g :: g in t.groups ==> CanonicalGroup(g))
    && Distinct(t.groups)
    && (forall m :: m in t.memberships ==> HasUser(t, m.username) && HasGroup(t, m.group))
    && Distinct(t.memberships)
  }

  lemma {:induction false} WithoutMeans<T>(s: seq<T>, x: T)
    ensures forall y :: y in Without(s, x) <==> y in s && y != x
    ensures Distinct(s) ==> Distinct(Without(s, x))
    ensures |Without(s, x)| <= |s|
  {
    if s != [] {
      WithoutMeans(s[1..], x);
      assert s == [s[0]] + s[1..];
      if Distinct(s) {
        assert s[0] !in s[1..];
        assert Distinct(s[1..]) by {
          forall i, j | 0 <= i < j < |s[1..]| ensures s[1..][i] != s[1..][j] {
            assert s[i + 1] != s[j + 1];
          }
        }
        assert s[0] !in Without(s[1..], x);
      }
    }
  }

  /** Deleting a group that nobody is in cascades to no membership at all. */
  lemma {:induction false} CascadeSparesOthers(memberships: seq<Membership>, group: string)
    requires forall i :: 0 <= i < |memberships| ==> memberships[i].group != group
    ensures Cascade(memberships, group) == memberships
  {
    if memberships != [] {
      CascadeSparesOthers(memberships[1..], group);
      assert memberships == [memberships[0]] + memberships[1..];
    }
  }

  /** Changing a user changes one value of that user and nothing else; a user who does not exist
      is not added. */
  lemma UpdateMeans(t: Tables, username: string, change: Change)
    ensures var (after, report) := Run(t, UpdateUser(username, change));
            && (report == Done <==> HasUser(t, username)) && (report == Declined <==> !HasUser(t, username))
            && after.groups == t.groups && after.memberships == t.memberships && |after.users| == |t.users|
            && forall i :: 0 <= i < |t.users| ==>
                 var u := t.users[i];
                 after.users[i] ==
                 if u.username != username then u
                 else match change
                   case Password(verifier) => User(username, verifier, u.totpSecret, u.enabled)
                   case TotpSecret(secret) => User(username, u.verifier, secret, u.enabled)
                   case Enabled(flag) => User(username, u.verifier, u.totpSecret, flag)
  {
  }

  /** A group row disappears only while the group is empty, so the cascade removes nothing. */
  lemma RemovalCascadesNothing(t: Tables, group: string)
    ensures Run(t, RemoveGroup(group)).0.memberships == t.memberships
    ensures Run(t, RemoveGroup(group)).1 == Done <==> HasGroup(t, group) && !GroupOccupied(t, group)
  {
    if !GroupOccupied(t, group) { CascadeSparesOthers(t.memberships, group); }
  }

  lemma UsersKept(t: Tables, after: Tables)
    requires |t.users| <= |after.users|
    requires forall i :: 0 <= i < |t.users| ==> after.users[i].username == t.users[i].username
    ensures forall username :: HasUser(t, username) ==> HasUser(after, username)
  {
    forall username | HasUser(t, username) ensures HasUser(after, username) {
      var i :| 0 <= i < |t.users| && t.users[i].username == username;
      assert after.users[i].username == username;
    }
  }

  lemma UserChangesSound(t: Tables, tx: Transaction)
    requires Sound(t) && Canonical(tx) && (tx.InsertUser? || tx.UpdateUser?)
    ensures Sound(Run(t, tx).0)
  {
    hide CanonicalUsername, CanonicalGroup;
    UsersKept(t, Run(t, tx).0);
  }

  lemma GroupChangesSound(t: Tables, tx: Transaction)
    requires Sound(t) && Canonical(tx) && (tx.CreateGroup? || tx.RemoveGroup?)
    ensures Sound(Run(t, tx).0)
  {
    hide CanonicalUsername, CanonicalGroup, Cascade;
    var after := Run(t, tx).0;
    assert forall username :: HasUser(t, username) <==> HasUser(after, username);
    if tx.RemoveGroup? {
      RemovalCascadesNothing(t, tx.group);
      WithoutMeans(t.groups, tx.group);
      if Run(t, tx).1.Done? {
        forall m | m in t.memberships ensures m.group != tx.group {
          var i :| 0 <= i < |t.memberships| && t.memberships[i] == m;
        }
      }
    }
  }

  lemma MembershipChangesSound(t: Tables, tx: Transaction)
    requires Sound(t) && Canonical(tx) && (tx.AddMembership? || tx.RemoveMembership?)
    ensures Sound(Run(t, tx).0)
  {
    hide CanonicalUsername, CanonicalGroup;
    var after := Run(t, tx).0;
    assert forall username :: HasUser(t, username) <==> HasUser(after, username);
    WithoutMeans(t.memberships, tx.membership);
  }

  lemma RunSound(t: Tables, tx: Transaction)
    requires Sound(t) && Canonical(tx)
    ensures Sound(Run(t, tx).0)
  {
    hide Sound, Run, Canonical;
    match tx
    case InsertUser(_) => UserChangesSound(t, tx);
    case UpdateUser(_, _) => UserChangesSound(t, tx);
    case CreateGroup(_) => GroupChangesSound(t, tx);
    case RemoveGroup(_) => GroupChangesSound(t, tx);
    case AddMembership(_) => MembershipChangesSound(t, tx);
    case RemoveMembership(_) => MembershipChangesSound(t, tx);
  }

  function RunAll(t: Tables, txs: seq<Transaction>): Tables
    decreases |txs|
  {
    if txs == [] then t else RunAll(Run(t, txs[0]).0, txs[1..])
  }

  /** Any sequence of transactions, of any number of administrators, keeps the tables sound. */
  lemma {:induction false} RunAllSound(t: Tables, txs: seq<Transaction>)
    requires Sound(t) && AllCanonical(txs)
    ensures Sound(RunAll(t, txs))
    decreases |txs|
  {
    hide Sound, Canonical, Run;
    if txs != [] {
      RunSound(t, txs[0]);
      RunAllSound(Run(t, txs[0]).0, txs[1..]);
    }
  }

  ghost predicate AllCanonical(txs: seq<Transaction>) { forall i :: 0 <= i < |txs| ==> Canonical(txs[i]) }

  // ---- interleaving ----

  /** What other administrators run between this one's steps: the transactions at each turn. */
  type Schedule = nat -> seq<Transaction>

  ghost predicate CanonicalSchedule(others: Schedule) { forall turn: nat :: AllCanonical(others(turn)) }

  /** The tables after the others' turns from `from` up to `until`. */
  function Later(t: Tables, others: Schedule, from: nat, until: nat): Tables
    requires from <= until
    decreases until - from
  {
    if from == until then t else RunAll(Later(t, others, from, until - 1), others(until - 1))
  }

  lemma {:induction false} LaterSound(t: Tables, others: Schedule, from: nat, until: nat)
    requires Sound(t) && CanonicalSchedule(others) && from <= until
    ensures Sound(Later(t, others, from, until))
    decreases until - from
  {
    hide Sound, AllCanonical;
    if from < until {
      LaterSound(t, others, from, until - 1);
      RunAllSound(Later(t, others, from, until - 1), others(until - 1));
    }
  }

  /** When the others do nothing, nothing changes. */
  lemma {:induction false} LaterAlone(t: Tables, others: Schedule, from: nat, until: nat)
    requires from <= until && forall turn: nat :: others(turn) == []
    ensures Later(t, others, from, until) == t
    decreases until - from
  {
    if from < until { LaterAlone(t, others, from, until - 1); }
  }

  /** A membership disappears only by a transaction that removes exactly it. */
  lemma MembershipLostOnlyByRemoval(t: Tables, tx: Transaction, m: Membership)
    requires m in t.memberships && m !in Run(t, tx).0.memberships
    ensures tx == RemoveMembership(m)
  {
    match tx
    case RemoveGroup(group) => RemovalCascadesNothing(t, group);
    case RemoveMembership(other) => WithoutMeans(t.memberships, other);
    case _ =>
  }

  // ---- the repository and the store ----

  datatype IdentityError =
    | ValidationFailed
    | NotFound
    | NotEmpty
    | AlreadyThere
    | Disabled
    | DataMalformed

  datatype UserRecord = UserRecord(user: User, groups: seq<string>)

  datatype Snapshot = Snapshot(username: string, groups: seq<string>)

  function GroupNamesOf(memberships: seq<Membership>, username: string): seq<string> {
    if memberships == [] then []
    else (if memberships[0].username == username then [memberships[0].group] else [])
         + GroupNamesOf(memberships[1..], username)
  }

  /** The group rows of one user, in name order. */
  function UserGroupRows(t: Tables, username: string): seq<string> {
    Sorted(GroupNamesOf(t.memberships, username))
  }

  lemma {:induction false} GroupNamesMean(memberships: seq<Membership>, username: string)
    ensures forall g :: g in GroupNamesOf(memberships, username) <==> Membership(username, g) in memberships
    ensures Distinct(memberships) ==> Distinct(GroupNamesOf(memberships, username))
  {
    if memberships != [] {
      GroupNamesMean(memberships[1..], username);
      assert memberships == [memberships[0]] + memberships[1..];
      if Distinct(memberships) {
        assert memberships[0] !in memberships[1..];
        assert Distinct(memberships[1..]) by {
          forall i, j | 0 <= i < j < |memberships[1..]| ensures memberships[1..][i] != memberships[1..][j] {
            assert memberships[i + 1] != memberships[j + 1];
          }
        }
        if memberships[0].username == username {
          assert memberships[0] == Membership(username, memberships[0].group);
        }
      }
    }
  }

  ghost predicate StrictlyAscending(s: seq<string>) { Ascending(s) && Distinct(s) }

  /** A user's group rows name exactly the user's groups, each once, in ascending order, and
      are groups that can be certified. */
  lemma UserGroupRowsMean(t: Tables, username: string)
    requires Sound(t) && CanonicalUsername(username)
    ensures StrictlyAscending(UserGroupRows(t, username))
    ensures forall g :: g in UserGroupRows(t, username) <==> Membership(username, g) in t.memberships
    ensures BuildPrincipals(username, UserGroupRows(t, username)).Ok?
  {
    var names, rows := GroupNamesOf(t.memberships, username), UserGroupRows(t, username);
    GroupNamesMean(t.memberships, username);
    SortedCorrect(names);
    SortedElements(names);
    SortedDistinct(names);
    forall g ensures g in rows <==> Membership(username, g) in t.memberships {
      assert g in rows <==> g in Elements(rows);
      assert g in names <==> g in Elements(names);
    }
    forall i | 0 <= i < |rows| ensures CanonicalGroup(rows[i]) {
      assert Membership(username, rows[i]) in t.memberships;
    }
    BuildAccepts(username, rows);
  }

  /** Groups named by a sound user's rows exist, as long as nothing changes. */
  lemma RowsExist(t: Tables, username: string)
    requires Sound(t) && CanonicalUsername(username)
    ensures forall g :: g in UserGroupRows(t, username) ==> HasGroup(t, g)
  {
    hide CanonicalUsername;
    UserGroupRowsMean(t, username);
  }

  lemma StoredUsable(t: Tables, k: nat)
    requires Sound(t) && k < |t.users|
    ensures Usable(t.users[k])
  {
  }

  lemma LaterStart(t: Tables, others: Schedule, from: nat)
    ensures Later(t, others, from, from) == t
  {
  }

  lemma LaterNext(t: Tables, others: Schedule, from: nat, until: nat)
    requires from <= until
    ensures Later(t, others, from, until + 1) == RunAll(Later(t, others, from, until), others(until))
  {
  }

  lemma Turns(t: Tables, others: Schedule, from: nat)
    ensures Later(t, others, from, from) == t
    ensures Later(t, others, from, from + 1) == RunAll(t, others(from))
    ensures Later(t, others, from, from + 2) == RunAll(RunAll(t, others(from)), others(from + 1))
    ensures Later(t, others, from, from + 3) ==
            RunAll(RunAll(RunAll(t, others(from)), others(from + 1)), others(from + 2))
  {
    hide RunAll;
    LaterNext(t, others, from, from + 1);
    LaterNext(t, others, from, from + 2);
  }

  lemma RowsCanonical(t: Tables, username: string, i: nat)
    requires Sound(t) && CanonicalUsername(username) && i < |UserGroupRows(t, username)|
    ensures var rows := UserGroupRows(t, username); CanonicalGroup(rows[i]) && rows[i] !in rows[..i]
  {
    hide CanonicalUsername, CanonicalGroup, BuildPrincipals, Sorted;
    UserGroupRowsMean(t, username);
    assert Membership(username, UserGroupRows(t, username)[i]) in t.memberships;
  }

  /** Each group read for a user two turns after `from` still exists when it is checked. */
  ghost predicate GroupsStayFrom(t: Tables, others: Schedule, from: nat, username: string) {
    var rows := UserGroupRows(Later(t, others, from, from + 2), username);
    forall i :: 0 <= i < |rows| ==> HasGroup(Later(t, others, from, from + 3 + i), rows[i])
  }

  class IdentityStore {
    const others: Schedule

    var tables: Tables

    /** How many turns the others have had. */
    var turn: nat

    ghost predicate Valid()
      reads this
    {
      Sound(tables) && CanonicalSchedule(others)
    }

    /** The tables `turns` turns from now, if this administrator changes nothing. */
    ghost function In(turns: nat): Tables
      reads this
    {
      Later(tables, others, turn, turn + turns)
    }

    /** Each group read for a user, two turns from now, still exists when it is checked. */
    ghost predicate GroupsStay(username: string)
      reads this
    {
      GroupsStayFrom(tables, others, turn, username)
    }

    constructor (tables: Tables, others: Schedule)
      requires Sound(tables) && CanonicalSchedule(others)
      ensures Valid() && this.tables == tables && this.others == others && turn == 0
    {
      this.tables, this.others, turn := tables, others, 0;
    }

    /** The others take their turn. */
    method Others()
      requires Valid()
      modifies this
      ensures Valid() && turn == old(turn) + 1 && tables == RunAll(old(tables), others(old(turn)))
    {
      RunAllSound(tables, others(turn));
      tables, turn := RunAll(tables, others(turn)), turn + 1;
    }

    /** One transaction of this administrator. */
    method Transact(tx: Transaction) returns (report: Report)
      requires Valid() && Canonical(tx)
      modifies this`tables
      ensures Valid() && (tables, report) == Run(old(tables), tx)
    {
      RunSound(tables, tx);
      var result := Run(tables, tx);
      tables, report := result.0, result.1;
    }

    /** Reads a user one turn from now, the user's groups at the next, and checks that each
        group still exists at a turn of its own. The data is called malformed exactly when a
        group that was read is gone at its check. */
    method GetUser(username: string) returns (r: Result<UserRecord, IdentityError>)
      requires Valid()
      modifies this
      ensures Valid() && old(turn) <= turn && tables == Later(old(tables), others, old(turn), turn)
      ensures CanonicalUsername(username) ==> old(turn) < turn
      ensures r == Err(ValidationFailed) <==> !CanonicalUsername(username)
      ensures r == Err(NotFound) <==> CanonicalUsername(username) && !HasUser(old(In(1)), username)
      ensures CanonicalUsername(username) && HasUser(old(In(1)), username) ==>
                && (r.Ok? <==> old(GroupsStay(username)))
                && (r == Err(DataMalformed) <==> !old(GroupsStay(username)))
                && (r.Ok? ==> r.value.user in old(In(1)).users && r.value.user.username == username
                              && r.value.groups == UserGroupRows(old(In(2)), username))
    {
      hide Sound, BuildPrincipals, Sorted, GroupNamesOf, CanonicalUsername, CanonicalGroup, StrictlyAscending;
      hide Later, RunAll;
      ghost var t, from := tables, turn;
      assert In(0) == t by { LaterStart(t, others, from); }
      if !CanonicalUsername(username) { return Err(ValidationFailed); }
      Others();
      LaterNext(t, others, from, from);
      if !HasUser(tables, username) { return Err(NotFound); }
      var k :| 0 <= k < |tables.users| && tables.users[k].username == username;
      var user := tables.users[k];
      StoredUsable(tables, k);
      if user.verifier == "" || user.totpSecret == "" { return Err(DataMalformed); }
      Others();
      LaterNext(t, others, from, from + 1);
      var rows := UserGroupRows(tables, username);
      UserGroupRowsMean(tables, username);
      var groups: seq<string> := [];
      for i := 0 to |rows|
        invariant Valid() && turn == from + 2 + i && tables == Later(t, others, from, turn)
        invariant groups == rows[..i]
        invariant forall j :: 0 <= j < i ==> HasGroup(Later(t, others, from, from + (3 + j)), rows[j])
      {
        RowsCanonical(Later(t, others, from, from + 2), username, i);
        if !CanonicalGroup(rows[i]) { return Err(DataMalformed); }
        LaterNext(t, others, from, turn);
        Others();
        if !HasGroup(tables, rows[i]) { return Err(DataMalformed); }
        if rows[i] in groups { return Err(DataMalformed); }
        groups := groups + [rows[i]];
      }
      assert groups == rows;
      r := Ok(UserRecord(user, groups));
    }

    /** An enabled user's name and groups. */
    method GetGroupSnapshot(username: string) returns (r: Result<Snapshot, IdentityError>)
      requires Valid()
      modifies this
      ensures Valid() && old(turn) <= turn && tables == Later(old(tables), others, old(turn), turn)
      ensures r.Ok? <==>
                && CanonicalUsername(username) && old(GroupsStay(username))
                && exists user :: user in old(In(1)).users && user.username == username && user.enabled
      ensures r == Err(Disabled) <==>
                && CanonicalUsername(username) && old(GroupsStay(username))
                && exists user :: user in old(In(1)).users && user.username == username && !user.enabled
      ensures r.Ok? ==> r.value == Snapshot(username, UserGroupRows(old(In(2)), username))
      ensures r.Ok? ==> StrictlyAscending(r.value.groups) && BuildPrincipals(username, r.value.groups).Ok?
                        && forall g :: g in r.value.groups <==> Membership(username, g) in old(In(2)).memberships
    {
      hide BuildPrincipals, CanonicalUsername, StrictlyAscending, Later, RunAll, UserGroupRows, GroupsStay;
      ghost var seen, at := In(1), In(2);
      LaterSound(tables, others, turn, turn + 1);
      LaterSound(tables, others, turn, turn + 2);
      var read := GetUser(username);
      if read.Err? { return Err(read.error); }
      UserGroupRowsMean(at, username);
      OneRecord(seen, read.value.user);
      if !read.value.user.enabled { return Err(Disabled); }
      r := Ok(Snapshot(read.value.user.username, read.value.groups));
    }

    /** Adds an enabled user one turn from now, and reads it back. `verifier` is what hashing the
        password yields. */
    method CreateUser(username: string, password: string, verifier: string, totpSecret: string)
      returns (r: Result<UserRecord, IdentityError>)
      requires Valid() && verifier != ""
      modifies this
      ensures Valid()
      ensures var valid := CanonicalUsername(username) && password != "" && totpSecret != "";
              var free := !HasUser(old(In(1)), username);
              var inserted := old(In(1)).(users := old(In(1)).users + [User(username, verifier, totpSecret, true)]);
              var from := old(turn) + 1;
              && (r == Err(ValidationFailed) <==> !valid)
              && (r == Err(AlreadyThere) <==> valid && !free)
              && (r.Ok? <==> valid && free && GroupsStayFrom(inserted, others, from, username))
              && (r == Err(DataMalformed) <==> valid && free && !GroupsStayFrom(inserted, others, from, username))
              && (valid && free ==>
                    from <= turn && tables == Later(inserted, others, from, turn) && HasUser(tables, username))
              && (r.Ok? ==>
                    && r.value.user in Later(inserted, others, from, from + 1).users
                    && r.value.user.username == username
                    && r.value.groups == UserGroupRows(Later(inserted, others, from, from + 2), username))
      ensures r == Err(ValidationFailed) ==> tables == old(tables)
      ensures r == Err(AlreadyThere) ==> tables == old(In(1))
    {
      hide Sound, CanonicalUsername, RunAll, Later, UserGroupRows;
      Turns(tables, others, turn);
      if !CanonicalUsername(username) || password == "" || totpSecret == "" { return Err(ValidationFailed); }
      Others();
      var report := Transact(InsertUser(User(username, verifier, totpSecret, true)));
      if report.Violated? { return Err(AlreadyThere); }
      assert HasUser(tables, username) by { assert tables.users[|tables.users| - 1].username == username; }
      ghost var inserted, from := tables, turn;
      UserStays(inserted, others, from, from + 1, username);
      r := GetUser(username);
      UserStays(inserted, others, from, turn, username);
    }

    /** Replaces a user's verifier or secret, or enables or disables the user: looks for the user
        one turn from now, changes the user at the next, and reads the user back. Nobody removes
        users, so one that was found is changed. */
    method ChangeUser(username: string, change: Change) returns (r: Result<UserRecord, IdentityError>)
      requires Valid()
      modifies this
      ensures Valid()
      ensures var valid := CanonicalUsername(username) && change != Password("") && change != TotpSecret("");
              var found := HasUser(old(In(1)), username);
              var (changed, report) := Run(old(In(2)), UpdateUser(username, change));
              var from := old(turn) + 2;
              && (r == Err(ValidationFailed) <==> !valid)
              && (r == Err(NotFound) <==> valid && !found)
              && (r.Ok? <==> valid && found && GroupsStayFrom(changed, others, from, username))
              && (r == Err(DataMalformed) <==> valid && found && !GroupsStayFrom(changed, others, from, username))
              && (valid && found ==> report == Done && from <= turn && tables == Later(changed, others, from, turn))
              && (r.Ok? ==>
                    && r.value.user in Later(changed, others, from, from + 1).users
                    && r.value.user.username == username
                    && r.value.groups == UserGroupRows(Later(changed, others, from, from + 2), username))
      ensures r == Err(ValidationFailed) ==> tables == old(tables)
      ensures r == Err(NotFound) ==> tables == old(In(1))
    {
      hide Sound, CanonicalUsername, RunAll, Later, UserGroupRows, ChangeUsers, Run;
      ghost var t, first := tables, turn;
      Turns(t, others, first);
      if !CanonicalUsername(username) || !Replaces(change) { return Err(ValidationFailed); }
      Others();
      if !HasUser(tables, username) { return Err(NotFound); }
      UserStays(tables, others, turn, turn + 1, username);
      Turns(tables, others, turn);
      Others();
      UpdateMeans(tables, username, change);
      UsersKept(tables, Run(tables, UpdateUser(username, change)).0);
      var report := Transact(UpdateUser(username, change));
      UserStays(tables, others, turn, turn + 1, username);
      r := GetUser(username);
    }

    method CreateGroup(group: string) returns (r: Result<(), IdentityError>)
      requires Valid()
      modifies this
      ensures Valid()
      ensures r.Ok? <==> CanonicalGroup(group) && !HasGroup(old(In(1)), group)
      ensures r.Err? ==> r.error == if CanonicalGroup(group) then AlreadyThere else ValidationFailed
      ensures r.Ok? ==> tables == old(In(1)).(groups := old(In(1)).groups + [group])
      ensures r.Err? ==> tables == if CanonicalGroup(group) then old(In(1)) else old(tables)
    {
      hide Sound, CanonicalGroup, RunAll, Later;
      Turns(tables, others, turn);
      if !CanonicalGroup(group) { return Err(ValidationFailed); }
      Others();
      var report := Transact(Transaction.CreateGroup(group));
      r := if report.Violated? then Err(AlreadyThere) else Ok(());
    }

    /** Removes a group if it exists at one turn, is empty at the next, and both at the last. */
    method RemoveGroup(group: string) returns (r: Result<(), IdentityError>)
      requires Valid()
      modifies this
      ensures Valid()
      ensures var exists1, empty2 := HasGroup(old(In(1)), group), !GroupOccupied(old(In(2)), group);
              var removable := HasGroup(old(In(3)), group) && !GroupOccupied(old(In(3)), group);
              && (r.Ok? <==> CanonicalGroup(group) && exists1 && empty2 && removable)
              && (r == Err(ValidationFailed) <==> !CanonicalGroup(group))
              && (r == Err(NotEmpty) <==> CanonicalGroup(group) && exists1 && !empty2)
              && (r == Err(NotFound) <==> CanonicalGroup(group) && (!exists1 || (empty2 && !removable)))
      ensures r.Ok? ==> tables == old(In(3)).(groups := Without(old(In(3)).groups, group)) && !HasGroup(tables, group)
      ensures turn == old(turn) + (if !CanonicalGroup(group) then 0
                                   else if !HasGroup(old(In(1)), group) then 1
                                   else if GroupOccupied(old(In(2)), group) then 2 else 3)
      ensures r.Err? ==> tables == Later(old(tables), others, old(turn), turn)
    {
      hide Sound, CanonicalGroup, RunAll, Later;
      Turns(tables, others, turn);
      if !CanonicalGroup(group) { return Err(ValidationFailed); }
      Others();
      if !HasGroup(tables, group) { return Err(NotFound); }
      Others();
      if GroupOccupied(tables, group) { return Err(NotEmpty); }
      Others();
      RemovalCascadesNothing(tables, group);
      WithoutMeans(tables.groups, group);
      var report := Transact(Transaction.RemoveGroup(group));
      r := if report.Done? then Ok(()) else Err(NotFound);
    }

    /** Adds or removes one membership if the group exists at one turn, the user at the next,
        and both at the last. */
    method ChangeMembership(group: string, username: string, add: bool) returns (r: Result<(), IdentityError>)
      requires Valid()
      modifies this
      ensures Valid()
      ensures var m := Membership(username, group);
              var canonical := CanonicalGroup(group) && CanonicalUsername(username);
              var found := HasGroup(old(In(1)), group) && HasUser(old(In(2)), username)
                           && HasGroup(old(In(3)), group) && HasUser(old(In(3)), username);
              var present := m in old(In(3)).memberships;
              && (r.Ok? <==> canonical && found && present == !add)
              && (r == Err(ValidationFailed) <==> !canonical)
              && (r == Err(AlreadyThere) <==> canonical && found && add && present)
              && (r == Err(NotFound) <==> canonical && (!found || (!add && !present)))
              && (r.Ok? ==> tables == old(In(3)).(memberships :=
                                        if add then old(In(3)).memberships + [m]
                                        else Without(old(In(3)).memberships, m)))
      ensures turn == old(turn) + (if !CanonicalGroup(group) || !CanonicalUsername(username) then 0
                                   else if !HasGroup(old(In(1)), group) then 1
                                   else if !HasUser(old(In(2)), username) then 2 else 3)
      ensures r.Err? ==> tables == Later(old(tables), others, old(turn), turn)
    {
      hide Sound, CanonicalGroup, CanonicalUsername, RunAll, Later;
      Turns(tables, others, turn);
      if !CanonicalGroup(group) || !CanonicalUsername(username) { return Err(ValidationFailed); }
      Others();
      if !HasGroup(tables, group) { return Err(NotFound); }
      Others();
      if !HasUser(tables, username) { return Err(NotFound); }
      Others();
      var m := Membership(username, group);
      var report := Transact(if add then AddMembership(m) else RemoveMembership(m));
      match report
      case Done => r := Ok(());
      case Declined => r := Err(NotFound);
      case Violated => r := Err(AlreadyThere);
    }
  }

  /** A sound table holds one row for a username. */
  lemma OneRecord(t: Tables, user: User)
    requires Sound(t) && user in t.users
    ensures forall other :: other in t.users && other.username == user.username ==> other == user
  {
    forall other | other in t.users && other.username == user.username ensures other == user {
      var i :| 0 <= i < |t.users| && t.users[i] == user;
      var j :| 0 <= j < |t.users| && t.users[j] == other;
    }
  }

  lemma {:induction false} RunAllKeepsUser(t: Tables, txs: seq<Transaction>, username: string)
    requires HasUser(t, username)
    ensures HasUser(RunAll(t, txs), username)
    decreases |txs|
  {
    hide Cascade, Without;
    if txs != [] {
      var next := Run(t, txs[0]).0;
      var i :| 0 <= i < |t.users| && t.users[i].username == username;
      assert next.users[i].username == username;
      RunAllKeepsUser(next, txs[1..], username);
    }
  }

  /** No transaction removes a user. */
  lemma {:induction false} UserStays(t: Tables, others: Schedule, from: nat, until: nat, username: string)
    requires HasUser(t, username) && from <= until
    ensures HasUser(Later(t, others, from, until), username)
    decreases until - from
  {
    if from < until {
      UserStays(t, others, from, until - 1, username);
      RunAllKeepsUser(Later(t, others, from, until - 1), others(until - 1), username);
    }
  }

  // ---- what interleaving can do ----

  /** Read with nobody else at work, a user's data is never malformed. */
  method ReadAlone(t: Tables, username: string) returns (r: Result<UserRecord, IdentityError>)
    requires Sound(t) && CanonicalUsername(username)
    ensures r.Ok? <==> HasUser(t, username)
    ensures r.Err? ==> r == Err(NotFound)
    ensures r.Ok? ==> r.value.user in t.users && r.value.user.username == username
                      && r.value.groups == UserGroupRows(t, username)
  {
    hide Sound, CanonicalUsername, RunAll, UserGroupRows;
    var nobody: Schedule := turn => [];
    var store := new IdentityStore(t, nobody);
    forall turns: nat ensures Later(t, nobody, 0, turns) == t { LaterAlone(t, nobody, 0, turns); }
    RowsExist(t, username);
    r := store.GetUser(username);
  }

  function Removals(memberships: seq<Membership>, group: string): seq<Transaction> {
    if memberships == [] then []
    else (if memberships[0].group == group then [RemoveMembership(memberships[0])] else [])
         + Removals(memberships[1..], group)
  }

  /** Taking everybody out of a group, and then removing it. */
  function Dissolution(t: Tables, group: string): seq<Transaction> {
    Removals(t.memberships, group) + [RemoveGroup(group)]
  }

  lemma {:induction false} RemovalsEmpty(t: Tables, memberships: seq<Membership>, group: string)
    requires Sound(t)
    requires forall m :: m in t.memberships && m.group == group ==> m in memberships
    requires forall m :: m in memberships ==> m in t.memberships || m.group != group
    requires Distinct(memberships)
    ensures AllCanonical(Removals(memberships, group)) && Sound(RunAll(t, Removals(memberships, group)))
    ensures RunAll(t, Removals(memberships, group)).groups == t.groups
    ensures !GroupOccupied(RunAll(t, Removals(memberships, group)), group)
    decreases |memberships|
  {
    hide CanonicalUsername, CanonicalGroup;
    if memberships != [] {
      var first, rest := memberships[0], memberships[1..];
      assert memberships == [first] + rest;
      var tx := RemoveMembership(first);
      if first.group == group {
        assert Canonical(tx) by { MembersCanonical(t, first); }
        var next := Run(t, tx).0;
        RunSound(t, tx);
        WithoutMeans(t.memberships, first);
        RemovalsEmpty(next, rest, group);
        assert Removals(memberships, group)[1..] == Removals(rest, group);
      } else {
        RemovalsEmpty(t, rest, group);
        assert Removals(memberships, group) == Removals(rest, group);
      }
    }
  }

  lemma MembersCanonical(t: Tables, m: Membership)
    requires Sound(t) && m in t.memberships
    ensures CanonicalUsername(m.username) && CanonicalGroup(m.group)
  {
    var i :| 0 <= i < |t.users| && t.users[i].username == m.username;
  }

  lemma Dissolved(t: Tables, group: string)
    requires Sound(t) && HasGroup(t, group)
    ensures AllCanonical(Dissolution(t, group)) && !HasGroup(RunAll(t, Dissolution(t, group)), group)
  {
    hide CanonicalUsername, Run;
    RemovalsEmpty(t, t.memberships, group);
    RunAllJoined(t, Removals(t.memberships, group), [RemoveGroup(group)]);
    var emptied := RunAll(t, Removals(t.memberships, group));
    assert RunAll(emptied, [RemoveGroup(group)]) == Run(emptied, RemoveGroup(group)).0 by {
      assert [RemoveGroup(group)][1..] == [];
    }
    GroupGone(emptied, group);
  }

  lemma GroupGone(t: Tables, group: string)
    requires HasGroup(t, group) && !GroupOccupied(t, group)
    ensures !HasGroup(Run(t, RemoveGroup(group)).0, group)
  {
    WithoutMeans(t.groups, group);
  }

  lemma {:induction false} RunAllJoined(t: Tables, txs: seq<Transaction>, more: seq<Transaction>)
    ensures RunAll(t, txs + more) == RunAll(RunAll(t, txs), more)
    decreases |txs|
  {
    hide Run;
    if txs == [] {
      assert txs + more == more;
    } else {
      assert (txs + more)[1..] == txs[1..] + more;
      RunAllJoined(Run(t, txs[0]).0, txs[1..], more);
    }
  }

  /** Whoever has a group can have sound data reported as malformed: somebody dissolves the
      group between its reading and its check. */
  method ReadCanReportMalformed(t: Tables, m: Membership) returns (r: Result<UserRecord, IdentityError>, after: Tables)
    requires Sound(t) && m in t.memberships
    ensures r == Err(DataMalformed) && Sound(after)
  {
    hide Sound, CanonicalUsername, RunAll, UserGroupRows, Dissolution;
    MembersCanonical(t, m);
    Dissolved(t, m.group) by { MembersExist(t, m); }
    var dissolution := Dissolution(t, m.group);
    var others: Schedule := turn => if turn == 2 then dissolution else [];
    assert CanonicalSchedule(others);
    var store := new IdentityStore(t, others);
    MembersExist(t, m);
    assert Later(t, others, 0, 2) == Later(t, others, 0, 1) == t by { Idle(t, others); }
    assert m.group in UserGroupRows(t, m.username) by { UserGroupRowsMean(t, m.username); }
    ghost var i :| 0 <= i < |UserGroupRows(t, m.username)| && UserGroupRows(t, m.username)[i] == m.group;
    AfterTurn(t, others, dissolution, 3 + i);
    r := store.GetUser(m.username);
    after := store.tables;
  }

  lemma MembersExist(t: Tables, m: Membership)
    requires Sound(t) && m in t.memberships
    ensures HasUser(t, m.username) && HasGroup(t, m.group)
  {
  }

  lemma Idle(t: Tables, others: Schedule)
    requires others(0) == others(1) == []
    ensures Later(t, others, 0, 1) == t && Later(t, others, 0, 2) == t
  {
  }

  lemma {:induction false} AfterTurn(t: Tables, others: Schedule, txs: seq<Transaction>, until: nat)
    requires forall turn: nat :: others(turn) == if turn == 2 then txs else []
    requires until >= 3
    ensures Later(t, others, 0, until) == RunAll(t, txs)
    decreases until
  {
    if until == 3 {
      Idle(t, others);
    } else {
      AfterTurn(t, others, txs, until - 1);
    }
  }

  /** Whatever the empty group and the user, removing the group can answer that it does not
      exist although it does, and then has a member: somebody joins before the last step. */
  method RemovalCanReportMissing(t: Tables, m: Membership) returns (r: Result<(), IdentityError>, after: Tables)
    requires Sound(t) && HasGroup(t, m.group) && !GroupOccupied(t, m.group) && HasUser(t, m.username)
    ensures r == Err(NotFound) && HasGroup(after, m.group) && GroupOccupied(after, m.group)
  {
    hide CanonicalUsername, CanonicalGroup;
    ghost var i :| 0 <= i < |t.users| && t.users[i].username == m.username;
    var tx := AddMembership(m);
    var others: Schedule := turn => if turn == 2 then [tx] else [];
    assert Canonical(tx);
    assert CanonicalSchedule(others);
    var store := new IdentityStore(t, others);
    Idle(t, others);
    AfterTurn(t, others, [tx], 3);
    assert RunAll(t, [tx]) == Run(t, tx).0 by { assert [tx][1..] == []; }
    ghost var joined := Run(t, tx).0;
    assert m !in t.memberships;
    assert joined.memberships[|t.memberships|] == m;
    r := store.RemoveGroup(m.group);
    after := store.tables;
  }
}
