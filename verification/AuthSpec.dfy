/** Passwords, the failure counter and the lockout, as functions of the users table. */
module AuthSpec {
  import opened Common

  type uint8 = n: int | 0 <= n < 256

  datatype Err =
    | NoRows
    | DbFailure(msg: string)
    | MaxFailedLogin
    | BadUserOrPass
    | PasswordsMatch
    | UserNotUpdated
    | UserExists
    | Undeliverable

  /** A row of the users table. */
  datatype Row = Row(
    name: string, email: Option<string>, cell: Option<string>,
    pass: Password, salt: string,
    loginSuccess: Option<int>, loginFailure: Option<int>, failureCount: uint8)

  type Table = map<Uid, Row>

  /** shared.BasicAuth: a copy of a row's authentication columns. */
  datatype BasicAuth = BasicAuth(
    uuid: Uid, name: string, pass: Password, salt: string,
    loginSuccess: Option<int>, loginFailure: Option<int>, failureCount: uint8)

  function AuthOf(uid: Uid, row: Row): BasicAuth {
    BasicAuth(uid, row.name, row.pass, row.salt, row.loginSuccess, row.loginFailure, row.failureCount)
  }

  /** updateBasicAuth writes the authentication columns of an existing row and no others. */
  function Update(t: Table, a: BasicAuth): Table {
    if a.uuid in t then
      t[a.uuid := t[a.uuid].(pass := a.pass, salt := a.salt, loginSuccess := a.loginSuccess,
                             loginFailure := a.loginFailure, failureCount := a.failureCount)]
    else t
  }

  /** The password, then the salt. */
  function Hash(pass: Password, salt: string): Password {
    pass + salt
  }

  const SALT := "salt"

  /** Under one salt, different passwords have different hashes. */
  lemma HashIsInjective(p: Password, q: Password, salt: string)
    ensures Hash(p, salt) == Hash(q, salt) <==> p == q
  {
    if Hash(p, salt) == Hash(q, salt) {
      assert |p| == |q|;
      assert (p + salt)[..|p|] == p && (q + salt)[..|q|] == q;
    }
  }

  function Increment(count: uint8): uint8 {
    (count + 1) % 256
  }

  /** SoftLogin's decision about one row. */
  function Check(row: Row, p: Password, max: uint8): Option<Err> {
    if row.failureCount > max then Some(MaxFailedLogin)
    else if Hash(p, row.salt) != row.pass then Some(BadUserOrPass)
    else None
  }

  /** The row after a Login. */
  function LoginRow(row: Row, p: Password, now: int, max: uint8): Row {
    match Check(row, p, max)
    case None => row.(loginSuccess := Some(now), failureCount := 0)
    case Some(e) =>
      if e.BadUserOrPass? then row.(loginFailure := Some(now), failureCount := Increment(row.failureCount))
      else row
  }

  function Login(t: Table, uid: Uid, p: Password, now: int, max: uint8): (Table, Option<Err>) {
    if uid !in t then (t, Some(NoRows))
    else (t[uid := LoginRow(t[uid], p, now, max)], Check(t[uid], p, max))
  }

  predicate Acceptable(p: Password) {
    |p| >= 8
  }

  /** validate: the rules a new password must meet, against the row it replaces. */
  function Validate(old_: BasicAuth, new_: Password): Option<Err> {
    if !Acceptable(new_) then Some(BadUserOrPass)
    else if new_ == old_.name then Some(PasswordsMatch)
    else if Hash(new_, old_.salt) == old_.pass then Some(PasswordsMatch)
    else None
  }

  /** What the rules amount to, told by the passwords themselves and not their hashes: a new one
      is refused as bad if and only if it is shorter than eight, and as a match if and only if it
      is long enough and is the name or the current password. */
  lemma ValidateRules(old_: BasicAuth, current: Password, new_: Password)
    requires old_.pass == Hash(current, old_.salt)
    ensures Validate(old_, new_) == Some(BadUserOrPass) <==> |new_| < 8
    ensures Validate(old_, new_) == Some(PasswordsMatch) <==> |new_| >= 8 && (new_ == old_.name || new_ == current)
    ensures Validate(old_, new_) == None <==> |new_| >= 8 && new_ != old_.name && new_ != current
  {
    HashIsInjective(current, new_, old_.salt);
  }

  function WithPassword(row: Row, p: Password, now: int): Row {
    row.(salt := SALT, pass := Hash(p, SALT), loginSuccess := Some(now), failureCount := 0)
  }

  function ChangePassword(t: Table, uid: Uid, old_: Password, new_: Password, now: int, max: uint8): (Table, Option<Err>) {
    var (t1, err) := Login(t, uid, old_, now, max);
    if err.Some? then (t1, err)
    else if Validate(AuthOf(uid, t1[uid]), new_).Some? then (t1, Validate(AuthOf(uid, t1[uid]), new_))
    else (t1[uid := WithPassword(t1[uid], new_, now)], None)
  }

  function ResetPassword(t: Table, uid: Uid, seed: Password, now: int): (Table, Option<Err>) {
    if uid !in t then (t, Some(NoRows))
    else (t[uid := WithPassword(t[uid], seed, now)], None)
  }

  // A password change is a real change.

  /** ChangePassword goes through exactly for the current password of an unlocked user and a new
      one that is long enough, is not the name and is not the current one. */
  lemma ChangeAccepts(t: Table, uid: Uid, old_: Password, new_: Password, now: int, max: uint8)
    ensures ChangePassword(t, uid, old_, new_, now, max).1.None? <==>
              && uid in t && t[uid].failureCount <= max && Hash(old_, t[uid].salt) == t[uid].pass
              && |new_| >= 8 && new_ != t[uid].name && new_ != old_
  {
    if uid in t { HashIsInjective(old_, new_, t[uid].salt); }
  }

  /** After it, the new password and no other logs in, the counter is back to zero, and no other
      row has changed. */
  lemma ChangeIsReal(t: Table, uid: Uid, old_: Password, new_: Password, now: int, max: uint8, p: Password, later: int)
    requires ChangePassword(t, uid, old_, new_, now, max).1.None?
    ensures var t' := ChangePassword(t, uid, old_, new_, now, max).0;
            && uid in t' && t'[uid].failureCount == 0
            && (Login(t', uid, p, later, max).1 == if p == new_ then None else Some(BadUserOrPass))
            && t' == t[uid := t'[uid]] && new_ != old_
  {
    ChangeAccepts(t, uid, old_, new_, now, max);
    HashIsInjective(p, new_, SALT);
  }

  /** A refused change leaves the password alone: whatever logged in before still does, once
      the failure counter allows it. */
  lemma RefusedChangeKeepsPassword(t: Table, uid: Uid, old_: Password, new_: Password, now: int, max: uint8)
    requires ChangePassword(t, uid, old_, new_, now, max).1.Some? && uid in t
    ensures var t' := ChangePassword(t, uid, old_, new_, now, max).0;
            && uid in t' && t'[uid].pass == t[uid].pass && t'[uid].salt == t[uid].salt
            && t' == t[uid := t'[uid]]
  {
  }

  /** This password and no other logs in, and the counter is zero. */
  ghost predicate OnlyPassword(t: Table, uid: Uid, p: Password, max: uint8) {
    && uid in t && t[uid].failureCount == 0
    && forall q, now :: Login(t, uid, q, now, max).1 == if q == p then None else Some(BadUserOrPass)
  }

  /** Once the login inside it is accepted, a change leaves the new password if it goes through
      and the old one if it does not. */
  lemma ChangeLeaves(t: Table, uid: Uid, old_: Password, new_: Password, now: int, max: uint8)
    requires uid in t && Check(t[uid], old_, max).None?
    ensures var (t', err) := ChangePassword(t, uid, old_, new_, now, max);
            OnlyPassword(t', uid, if err.None? then new_ else old_, max)
  {
    var (t', err) := ChangePassword(t, uid, old_, new_, now, max);
    forall q, later
      ensures Login(t', uid, q, later, max).1 == if q == (if err.None? then new_ else old_) then None else Some(BadUserOrPass)
    {
      HashIsInjective(q, if err.None? then new_ else old_, t'[uid].salt);
    }
  }

  /** A reset works from any state, locked or not: the seed and nothing else logs in. */
  lemma ResetIsReal(t: Table, uid: Uid, seed: Password, now: int, max: uint8, p: Password, later: int)
    requires uid in t
    ensures var (t', err) := ResetPassword(t, uid, seed, now);
            && err.None? && uid in t' && t'[uid].failureCount == 0
            && (Login(t', uid, p, later, max).1 == if p == seed then None else Some(BadUserOrPass))
            && t' == t[uid := t'[uid]]
  {
    HashIsInjective(p, seed, SALT);
  }

  // The answers, told by the row and the passwords.

  /** Login: no row, nothing changes; locked, nothing changes; a wrong password adds one failure;
      the right one is recorded and clears the counter. */
  lemma LoginAnswers(t: Table, uid: Uid, p: Password, now: int, max: uint8)
    ensures var (t', err) := Login(t, uid, p, now, max);
            if uid !in t then t' == t && err == Some(NoRows)
            else
              var row := t[uid];
              if row.failureCount > max then t' == t && err == Some(MaxFailedLogin)
              else if p + row.salt != row.pass then
                t' == t[uid := row.(loginFailure := Some(now), failureCount := (row.failureCount + 1) % 256)]
                && err == Some(BadUserOrPass)
              else t' == t[uid := row.(loginSuccess := Some(now), failureCount := 0)] && err == None
  {
    if uid in t { assert t[uid := t[uid]] == t; }
  }

  /** ChangePassword, once its login is accepted: a short password, the name and the current one
      are refused with the login recorded; any other is stored under the fixed salt. */
  lemma ChangeAnswers(t: Table, uid: Uid, old_: Password, new_: Password, now: int, max: uint8)
    ensures var (t', err) := ChangePassword(t, uid, old_, new_, now, max);
            var (t1, refused) := Login(t, uid, old_, now, max);
            if refused.Some? then t' == t1 && err == refused
            else
              && uid in t
              && if |new_| < 8 then t' == t1 && err == Some(BadUserOrPass)
                 else if new_ == t[uid].name || new_ == old_ then t' == t1 && err == Some(PasswordsMatch)
                 else
                   t' == t[uid := t[uid].(pass := new_ + SALT, salt := SALT, loginSuccess := Some(now), failureCount := 0)]
                   && err == None
  {
    var (t1, refused) := Login(t, uid, old_, now, max);
    if refused.None? { ValidateRules(AuthOf(uid, t1[uid]), old_, new_); }
  }

  lemma ResetAnswers(t: Table, uid: Uid, seed: Password, now: int)
    ensures ResetPassword(t, uid, seed, now) ==
            if uid !in t then (t, Some(NoRows))
            else (t[uid := t[uid].(pass := seed + SALT, salt := SALT, loginSuccess := Some(now), failureCount := 0)], None)
  {
  }

  // The lockout over whole runs.

  datatype AuthEvent =
    | TryLogin(uid: Uid, pass: Password, now: int)
    | TryChange(uid: Uid, pass: Password, new_: Password, now: int)
    | Reset(uid: Uid, seed: Password, now: int)

  function After(t: Table, e: AuthEvent, max: uint8): Table {
    match e
    case TryLogin(uid, p, now) => Login(t, uid, p, now, max).0
    case TryChange(uid, p, new_, now) => ChangePassword(t, uid, p, new_, now, max).0
    case Reset(uid, seed, now) => ResetPassword(t, uid, seed, now).0
  }

  function AfterAll(t: Table, events: seq<AuthEvent>, max: uint8): Table {
    if events == [] then t
    else After(AfterAll(t, events[..|events| - 1], max), events[|events| - 1], max)
  }

  /** Is this attempt on uid turned away, for a wrong password or because the user is locked? */
  predicate Rejects(t: Table, e: AuthEvent, uid: Uid, max: uint8) {
    e.uid == uid && uid in t && !e.Reset? && Check(t[uid], e.pass, max).Some?
  }

  /** The attempts on uid turned away since the last one accepted, or the last reset. */
  function RejectedInARow(t: Table, events: seq<AuthEvent>, uid: Uid, max: uint8): nat {
    if events == [] then 0
    else
      var n := |events| - 1;
      var e := events[n];
      if e.uid != uid then RejectedInARow(t, events[..n], uid, max)
      else if Rejects(AfterAll(t, events[..n], max), e, uid, max) then RejectedInARow(t, events[..n], uid, max) + 1
      else 0
  }

  function Min(a: int, b: int): int {
    if a <= b then a else b
  }

  lemma EventMovesCounter(t: Table, e: AuthEvent, uid: Uid, max: uint8)
    requires uid in t
    ensures var t' := After(t, e, max);
            && uid in t'
            && t'[uid].failureCount ==
               if e.uid != uid then t[uid].failureCount
               else if !Rejects(t, e, uid, max) then 0
               else if t[uid].failureCount > max then t[uid].failureCount
               else Increment(t[uid].failureCount)
  {
  }

  lemma OneMoreRejection(max: uint8, k: nat)
    ensures if max < 255 then
              && (Min(max + 1, k) > max <==> k > max)
              && Min(max + 1, k + 1) == (if k > max then Min(max + 1, k) else Min(max + 1, k) + 1)
            else (k % 256 + 1) % 256 == (k + 1) % 256
  {
  }

  /** The stored counter is the number of rejections in a row, stopped one above the limit. With
      a limit of 255 there is no room above it: the byte wraps and nobody is ever locked. */
  lemma {:induction false} CounterTracksRejections(t: Table, events: seq<AuthEvent>, uid: Uid, max: uint8)
    requires uid in t && t[uid].failureCount == 0
    ensures var t', k := AfterAll(t, events, max), RejectedInARow(t, events, uid, max);
            && uid in t'
            && t'[uid].failureCount == if max < 255 then Min(max + 1, k) else k % 256
    decreases |events|
  {
    if events != [] {
      var n := |events| - 1;
      CounterTracksRejections(t, events[..n], uid, max);
      var before := AfterAll(t, events[..n], max);
      EventMovesCounter(before, events[n], uid, max);
      OneMoreRejection(max, RejectedInARow(t, events[..n], uid, max));
      assert AfterAll(t, events, max) == After(before, events[n], max);
    }
  }

  /** When uid last got in: an accepted login, on its own or inside a change, or a reset. */
  function LastAccepted(t: Table, events: seq<AuthEvent>, uid: Uid, max: uint8): Option<int> {
    if events == [] then if uid in t then t[uid].loginSuccess else None
    else
      var n := |events| - 1;
      var e := events[n];
      if e.uid == uid && !Rejects(AfterAll(t, events[..n], max), e, uid, max) then Some(e.now)
      else LastAccepted(t, events[..n], uid, max)
  }

  /** When uid was last tried with a wrong password; an attempt on a locked user is not noted. */
  function LastWrongPassword(t: Table, events: seq<AuthEvent>, uid: Uid, max: uint8): Option<int> {
    if events == [] then if uid in t then t[uid].loginFailure else None
    else
      var n := |events| - 1;
      var e, before := events[n], AfterAll(t, events[..n], max);
      if Rejects(before, e, uid, max) && before[uid].failureCount <= max then Some(e.now)
      else LastWrongPassword(t, events[..n], uid, max)
  }

  /** The two timestamps of a row tell exactly that. */
  lemma {:induction false} TimestampsTrackAttempts(t: Table, events: seq<AuthEvent>, uid: Uid, max: uint8)
    requires uid in t
    ensures var t' := AfterAll(t, events, max);
            && uid in t'
            && t'[uid].loginSuccess == LastAccepted(t, events, uid, max)
            && t'[uid].loginFailure == LastWrongPassword(t, events, uid, max)
    decreases |events|
  {
    if events != [] {
      var n := |events| - 1;
      TimestampsTrackAttempts(t, events[..n], uid, max);
      EventMovesTimestamps(AfterAll(t, events[..n], max), events[n], uid, max);
    }
  }

  lemma EventMovesTimestamps(t: Table, e: AuthEvent, uid: Uid, max: uint8)
    requires uid in t
    ensures var t' := After(t, e, max);
            && uid in t'
            && t'[uid].loginSuccess == (if e.uid == uid && !Rejects(t, e, uid, max) then Some(e.now) else t[uid].loginSuccess)
            && t'[uid].loginFailure == (if Rejects(t, e, uid, max) && t[uid].failureCount <= max then Some(e.now)
                                        else t[uid].loginFailure)
  {
  }

  /** The password last set for uid: by a change that was accepted, or by a reset. */
  function LastSet(t: Table, events: seq<AuthEvent>, uid: Uid, max: uint8): Option<Password> {
    if events == [] then None
    else
      var n := |events| - 1;
      var e := events[n];
      if e.uid != uid || e.TryLogin? then LastSet(t, events[..n], uid, max)
      else if e.Reset? then Some(e.seed)
      else if ChangePassword(AfterAll(t, events[..n], max), uid, e.pass, e.new_, e.now, max).1.None? then Some(e.new_)
      else LastSet(t, events[..n], uid, max)
  }

  /** It is the stored one, under the fixed salt; before the first, password and salt are as they
      were. No event ever adds or removes a user or touches a name, an address or a number. */
  lemma {:induction false} PasswordTracksChanges(t: Table, events: seq<AuthEvent>, uid: Uid, max: uint8)
    requires uid in t
    ensures var t', p := AfterAll(t, events, max), LastSet(t, events, uid, max);
            && t'.Keys == t.Keys
            && t'[uid].name == t[uid].name && t'[uid].email == t[uid].email && t'[uid].cell == t[uid].cell
            && t'[uid].salt == (if p.Some? then SALT else t[uid].salt)
            && t'[uid].pass == (if p.Some? then Hash(p.value, SALT) else t[uid].pass)
    decreases |events|
  {
    if events != [] {
      var n := |events| - 1;
      PasswordTracksChanges(t, events[..n], uid, max);
      EventMovesPassword(AfterAll(t, events[..n], max), events[n], uid, max);
    }
  }

  lemma EventMovesPassword(t: Table, e: AuthEvent, uid: Uid, max: uint8)
    requires uid in t
    ensures var t' := After(t, e, max);
            var p := if e.uid != uid || e.TryLogin? then None
                     else if e.Reset? then Some(e.seed)
                     else if ChangePassword(t, uid, e.pass, e.new_, e.now, max).1.None? then Some(e.new_)
                     else None;
            && t'.Keys == t.Keys
            && t'[uid].name == t[uid].name && t'[uid].email == t[uid].email && t'[uid].cell == t[uid].cell
            && t'[uid].salt == (if p.Some? then SALT else t[uid].salt)
            && t'[uid].pass == (if p.Some? then Hash(p.value, SALT) else t[uid].pass)
  {
  }

  /** So a user is locked exactly after more than max rejections in a row, if max leaves room. */
  lemma LockedAfterTooMany(t: Table, events: seq<AuthEvent>, uid: Uid, max: uint8, p: Password, now: int)
    requires uid in t && t[uid].failureCount == 0
    ensures Login(AfterAll(t, events, max), uid, p, now, max).1 == Some(MaxFailedLogin) <==>
              max < 255 && RejectedInARow(t, events, uid, max) > max
  {
    CounterTracksRejections(t, events, uid, max);
  }

  /** While locked, no attempt changes the table, and only a reset of that user unlocks. */
  lemma OnlyResetUnlocks(t: Table, e: AuthEvent, uid: Uid, max: uint8)
    requires uid in t && t[uid].failureCount > max
    ensures e.uid == uid && !e.Reset? ==> After(t, e, max) == t
    ensures uid in After(t, e, max) &&
            (After(t, e, max)[uid].failureCount <= max <==> e.Reset? && e.uid == uid)
  {
    if e.uid == uid && !e.Reset? { assert t[uid := t[uid]] == t; }
  }
}
