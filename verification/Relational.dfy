/** The users table and the methods over it, statement by statement. Any statement may fail,
    before or after it took effect; the caller then gets a DbFailure. */
module Relational {
  import opened Common
  import opened AuthSpec
  import opened UserSpec

  const NO_AUTH := BasicAuth("", "", "", "", None, None, 0)

  predicate Broke(err: Option<Err>) {
    err.Some? && err.value.DbFailure?
  }

  predicate AddBroke(added: Added) {
    added.Refused? && added.err.DbFailure?
  }

  /** Every row but that of uid is as it was, and no counter has passed max + 1. */
  ghost predicate Contained(t: Table, t': Table, uid: Uid, max: uint8) {
    && t'.Keys == t.Keys
    && (forall id :: id in t && id != uid ==> t'[id] == t[id])
    && (uid in t && max < 255 && t[uid].failureCount <= max + 1 ==> t'[uid].failureCount <= max + 1)
  }

  /** The WHERE clause of the SELECT. */
  predicate Selects(u: Uid, row: Row, id: Option<Uid>, name: Option<string>) {
    (id.Some? ==> u == id.value) && (name.Some? ==> row.name == name.value)
  }

  class Conn {
    var users: Table
    const maxfailure: uint8
    ghost var faulted: bool    // some statement has failed

    constructor (users: Table, maxfailure: uint8)
      ensures this.users == users && this.maxfailure == maxfailure && !faulted
    {
      this.users := users;
      this.maxfailure := maxfailure;
      faulted := false;
    }

    /** The row with this id and this name; a parameter that is None matches every row. */
    method GetAuthByAttrs(id: Option<Uid>, name: Option<string>) returns (auth: BasicAuth, err: Option<Err>)
      modifies this`faulted
      ensures faulted == (old(faulted) || Broke(err))
      ensures err.None? ==>
                && auth.uuid in users && auth == AuthOf(auth.uuid, users[auth.uuid])
                && (id.Some? ==> auth.uuid == id.value) && (name.Some? ==> auth.name == name.value)
      ensures err.None? || Broke(err) || err == Some(NoRows)
      ensures err == Some(NoRows) ==>
                forall u :: u in users ==> (id.Some? && u != id.value) || (name.Some? && users[u].name != name.value)
    {
      var f: Fault := *;
      if f.Lost? {
        faulted := true;
        return NO_AUTH, Some(DbFailure(f.msg));
      }
      if u :| u in users && Selects(u, users[u], id, name) { return AuthOf(u, users[u]), None; }
      return NO_AUTH, Some(NoRows);
    }

    method UpdateBasicAuth(login: BasicAuth) returns (err: Option<Err>)
      modifies this`users, this`faulted
      ensures faulted == (old(faulted) || Broke(err))
      ensures users == old(users) || users == Update(old(users), login)
      ensures forall u :: u in old(users) && u != login.uuid ==> u in users && users[u] == old(users)[u]
      ensures err.None? ==>
                && login.uuid in users && AuthOf(login.uuid, users[login.uuid]) == login.(name := users[login.uuid].name)
                && users[login.uuid].name == old(users)[login.uuid].name
                && users[login.uuid].email == old(users)[login.uuid].email
                && users[login.uuid].cell == old(users)[login.uuid].cell
      ensures !Broke(err) ==>
                && users == Update(old(users), login)
                && err == if login.uuid in old(users) then None else Some(UserNotUpdated)
    {
      var rows := if login.uuid in users then 1 else 0;
      var f: Fault := *;
      if f.Lost? {
        if f.applied { users := Update(users, login); }
        faulted := true;
        return Some(DbFailure(f.msg));
      }
      users := Update(users, login);
      if rows != 1 { return Some(UserNotUpdated); }
      return None;
    }

    method SoftLogin(uid: Uid, pass: Password) returns (result: BasicAuth, err: Option<Err>)
      modifies this`faulted
      ensures faulted == (old(faulted) || Broke(err))
      ensures Broke(err) ||
              if uid in users then result == AuthOf(uid, users[uid]) && err == Check(users[uid], pass, maxfailure)
              else err == Some(NoRows)
    {
      result, err := GetAuthByAttrs(Some(uid), None);
      if err.Some? { return; }
      if result.failureCount > maxfailure {
        err := Some(MaxFailedLogin);
      } else if Hash(pass, result.salt) != result.pass {
        err := Some(BadUserOrPass);
      }
    }

    method Login(uid: Uid, pass: Password, now: int) returns (result: BasicAuth, err: Option<Err>)
      modifies this`users, this`faulted
      ensures faulted == (old(faulted) || Broke(err)) && Contained(old(users), users, uid, maxfailure)
      ensures !Broke(err) ==> (users, err) == AuthSpec.Login(old(users), uid, pass, now, maxfailure)
      ensures Broke(err) ==> users == old(users) || users == AuthSpec.Login(old(users), uid, pass, now, maxfailure).0
      // what comes back is the row as it was read, with the new login time
      ensures err.None? ==> result == AuthOf(uid, old(users)[uid]).(loginSuccess := Some(now))
    {
      result, err := SoftLogin(uid, pass);
      if err == Some(BadUserOrPass) {
        err := UpdateBasicAuth(result.(loginFailure := Some(now), failureCount := Increment(result.failureCount)));
        if err.None? { err := Some(BadUserOrPass); }
      } else if err.None? {
        err := UpdateBasicAuth(result.(loginSuccess := Some(now), failureCount := 0));
        if err.None? { result := result.(loginSuccess := Some(now)); }
      } else if uid in users {
        assert users[uid := users[uid]] == users;
      }
    }

    method ChangePassword(uid: Uid, old_: Password, new_: Password, now: int) returns (err: Option<Err>)
      modifies this`users, this`faulted
      ensures faulted == (old(faulted) || Broke(err)) && Contained(old(users), users, uid, maxfailure)
      ensures !Broke(err) ==> (users, err) == AuthSpec.ChangePassword(old(users), uid, old_, new_, now, maxfailure)
      // a change that breaks off stops before the login, after it, or at the end
      ensures Broke(err) ==>
                || users == old(users)
                || users == AuthSpec.Login(old(users), uid, old_, now, maxfailure).0
                || users == AuthSpec.ChangePassword(old(users), uid, old_, new_, now, maxfailure).0
    {
      var auth;
      auth, err := Login(uid, old_, now);
      if err.Some? { return; }
      err := Validate(auth, new_);
      if err.Some? { return; }
      err := UpdateBasicAuth(auth.(salt := SALT, pass := Hash(new_, SALT), loginSuccess := Some(now), failureCount := 0));
    }

    method ResetPassword(uid: Uid, seed: Password, now: int) returns (err: Option<Err>)
      modifies this`users, this`faulted
      ensures faulted == (old(faulted) || Broke(err)) && Contained(old(users), users, uid, maxfailure)
      ensures !Broke(err) ==> (users, err) == AuthSpec.ResetPassword(old(users), uid, seed, now)
      ensures Broke(err) ==> users == old(users) || users == AuthSpec.ResetPassword(old(users), uid, seed, now).0
    {
      var auth;
      auth, err := GetAuthByAttrs(Some(uid), None);
      if err.Some? { return; }
      err := UpdateBasicAuth(auth.(salt := SALT, pass := Hash(seed, SALT), loginSuccess := Some(now), failureCount := 0));
    }

    /** AddUser, drawing its ids from the front of ids; StillTrying says they ran out before it
        came to an end. */
    method AddUser(u: NewUser, ids: seq<Uid>, now: int) returns (id: Uid, added: Added, ghost inserts: nat)
      modifies this`users, this`faulted
      decreases |ids|
      ensures faulted == (old(faulted) || AddBroke(added))
      ensures !AddBroke(added) ==> AddOutcome(old(users), u, ids, now, users, id, added, inserts)
      // whatever fails, all that can have happened is that the user was added
      ensures users == old(users) ||
              (id !in old(users) && !NameTaken(old(users), u.name) && users == old(users)[id := NewRow(u, now)])
    {
      inserts := 0;
      if !Deliverable(u) { return "", Refused(Undeliverable), 0; }
      if ids == [] { return "", StillTrying, 0; }
      id := ids[0];
      var next := Insert(users, id, u, now);
      var f: Fault := *;
      if f.Lost? {
        if f.applied { users := next.0; }
        faulted := true;
        return id, Refused(DbFailure(f.msg)), 1;
      }
      users := next.0;
      inserts := 1;
      match next.1 {
        case Inserted =>
          assert FirstFree(old(users), ids, 0);
          added := Done;
        case Duplicate(msg) =>
          PrimaryTest(id);
          PrimaryTest(u.name);
          if Contains(msg, PRIMARY_KEY) {
            id, added, inserts := AddUser(u, ids[1..], now);
            inserts := inserts + 1;
            if !AddBroke(added) { RetryOutcome(old(users), u, ids, now, users, id, added, inserts); }
          } else if Contains(msg, NAME_KEY) {
            assert FirstFree(old(users), ids, 0);
            added := Refused(UserExists);
          } else {
            added := Refused(DbFailure(msg));
          }
      }
    }
  }

  /** One clash, then the outcome of the rest of the ids. */
  lemma RetryOutcome(t: Table, u: NewUser, ids: seq<Uid>, now: int, t': Table, id: Uid, added: Added, inserts: nat)
    requires Deliverable(u) && ids != [] && inserts > 0
    requires ids[0] in t || (NameTaken(t, u.name) && Contains(u.name, PRIMARY_KEY))
    requires AddOutcome(t, u, ids[1..], now, t', id, added, inserts - 1)
    ensures AddOutcome(t, u, ids, now, t', id, added, inserts)
  {
    var rest := ids[1..];
    if ids[0] in t {
      forall j: nat | FirstFree(t, ids, j) ensures j > 0 && FirstFree(t, rest, j - 1) {
        assert forall i :: 0 <= i < j - 1 ==> rest[i] == ids[i + 1];
      }
      forall j: nat | FirstFree(t, rest, j) ensures FirstFree(t, ids, j + 1) {
        assert forall i :: 0 < i < j + 1 ==> ids[i] == rest[i - 1];
      }
      forall i: nat, j: nat | FirstFree(t, ids, i) && FirstFree(t, ids, j) ensures i == j {
        FirstFreeIsUnique(t, ids, i, j);
      }
    }
  }
}
