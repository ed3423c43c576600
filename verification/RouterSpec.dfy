/** PostLogin and PatchLogin as functions of the users table and the sessions together. */
module RouterSpec {
  import opened Common
  import opened RedisStore
  import opened Handlers
  import opened SessionSpec
  import A = AuthSpec

  datatype State = State(users: A.Table, sessions: Sessions)

  datatype Limits = Limits(cfg: Config, maxfailure: A.uint8)

  function PostLogin(l: Limits, s: State, uid: Uid, pass: Password, rmt: string, id: string, now: int): (State, int) {
    var (users, err) := A.Login(s.users, uid, pass, now, l.maxfailure);
    if err.Some? then (State(users, s.sessions), BAD_REQUEST)
    else
      var (sessions, reply) := Answer(l.cfg, s.sessions, LoginReq(uid, rmt, id));
      (State(users, sessions), if reply.code == OK then MOVED_PERMANENTLY else reply.code)
  }

  /** authnPad with a pad: the password to change from is the seed of a fresh reset. */
  function UsePad(l: Limits, s: State, uid: Uid, old_: Password, pad: string, seed: Password, now: int)
    : (State, Password, int)
  {
    var (sessions, reply) := Answer(l.cfg, s.sessions, CompleteOtpReq(pad));
    if reply.code != OK then (State(s.users, sessions), old_, reply.code)
    else if reply.value != uid then (State(s.users, sessions), old_, BAD_REQUEST)
    else
      var (users, err) := A.ResetPassword(s.users, uid, seed, now);
      if err.Some? then (State(users, sessions), old_, INTERNAL_SERVER_ERROR)
      else (State(users, sessions), seed, OK)
  }

  function AuthnPad(l: Limits, s: State, uid: Uid, old_: Password, pad: Option<string>, seed: Password, now: int)
    : (State, Password, int)
  {
    if pad.None? then (s, old_, OK) else UsePad(l, s, uid, old_, pad.value, seed, now)
  }

  /** The change, and a session on top of it. */
  function Renew(l: Limits, s: State, uid: Uid, current: Password, new_: Password, rmt: string, id: string, now: int)
    : (State, int)
  {
    var (users, err) := A.ChangePassword(s.users, uid, current, new_, now, l.maxfailure);
    if err.Some? then (State(users, s.sessions), INTERNAL_SERVER_ERROR)
    else
      var (sessions, reply) := Answer(l.cfg, s.sessions, LoginReq(uid, rmt, id));
      (State(users, sessions), if reply.code == OK then NO_CONTENT else reply.code)
  }

  function PatchLogin(l: Limits, s: State, uid: Uid, old_: Password, new_: Password, pad: Option<string>,
                      seed: Password, rmt: string, id: string, now: int): (State, int)
  {
    if uid == "" then (s, BAD_REQUEST)
    else
      var (s1, current, code) := AuthnPad(l, s, uid, old_, pad, seed, now);
      if code != OK then (s1, code) else Renew(l, s1, uid, current, new_, rmt, id, now)
  }

  /** PostLogin issues a cookie exactly for an unlocked user with the right password and fewer
      than maxLogins live tokens and pads. If it does, the new token joins the user's live keys;
      if not, no session has changed. */
  lemma PostLoginIsExact(l: Limits, s: State, uid: Uid, pass: Password, rmt: string, id: string, now: int)
    requires id !in s.sessions.used && Token(id) !in s.sessions.live
    ensures var (s', code) := PostLogin(l, s, uid, pass, rmt, id, now);
            && (code == MOVED_PERMANENTLY <==>
                  && uid in s.users && s.users[uid].failureCount <= l.maxfailure
                  && A.Hash(pass, s.users[uid].salt) == s.users[uid].pass
                  && |LiveOf(s.sessions, uid)| < l.cfg.maxLogins)
            && (if code == MOVED_PERMANENTLY && l.cfg.ttl > 0
                then LiveOf(s'.sessions, uid) == LiveOf(s.sessions, uid) + {Token(id)}
                else s'.sessions.live == s.sessions.live)
  {
  }

  /** What PostLogin answers and leaves, case by case: no row or a locked user, 400 and nothing has
      changed; a wrong password, 400 and one more failure; the right one, recorded, and 301 or,
      for want of room, 429. */
  lemma PostLoginLeaves(l: Limits, s: State, uid: Uid, pass: Password, rmt: string, id: string, now: int)
    ensures var (s', code) := PostLogin(l, s, uid, pass, rmt, id, now);
            if uid !in s.users || s.users[uid].failureCount > l.maxfailure then s' == s && code == BAD_REQUEST
            else
              var row := s.users[uid];
              if pass + row.salt != row.pass then
                var failed := row.(loginFailure := Some(now), failureCount := (row.failureCount + 1) % 256);
                s' == State(s.users[uid := failed], s.sessions) && code == BAD_REQUEST
              else
                && s'.users == s.users[uid := row.(loginSuccess := Some(now), failureCount := 0)]
                && if |LiveOf(s.sessions, uid)| < l.cfg.maxLogins then code == MOVED_PERMANENTLY
                   else s'.sessions.live == s.sessions.live && code == TOO_MANY_REQUESTS
  {
    A.LoginAnswers(s.users, uid, pass, now, l.maxfailure);
  }

  datatype Attempt = Attempt(pass: Password, rmt: string, id: string, now: int)

  /** One PostLogin after the other, all for the same user. */
  function PostAll(l: Limits, s: State, uid: Uid, attempts: seq<Attempt>): State {
    if attempts == [] then s
    else
      var n := |attempts| - 1;
      var a := attempts[n];
      PostLogin(l, PostAll(l, s, uid, attempts[..n]), uid, a.pass, a.rmt, a.id, a.now).0
  }

  predicate AllWrong(row: A.Row, attempts: seq<Attempt>) {
    forall i :: 0 <= i < |attempts| ==> A.Hash(attempts[i].pass, row.salt) != row.pass
  }

  lemma {:induction false} WrongPasswordsCount(l: Limits, s: State, uid: Uid, attempts: seq<Attempt>)
    requires uid in s.users && s.users[uid].failureCount == 0 && l.maxfailure < 255
    requires AllWrong(s.users[uid], attempts)
    ensures var s' := PostAll(l, s, uid, attempts);
            && s'.sessions == s.sessions && uid in s'.users
            && s'.users[uid].pass == s.users[uid].pass && s'.users[uid].salt == s.users[uid].salt
            && s'.users[uid].failureCount == A.Min(l.maxfailure + 1, |attempts|)
    decreases |attempts|
  {
    if attempts != [] {
      var n := |attempts| - 1;
      var a := attempts[n];
      WrongPasswordsCount(l, s, uid, attempts[..n]);
      PostLoginLeaves(l, PostAll(l, s, uid, attempts[..n]), uid, a.pass, a.rmt, a.id, a.now);
    }
  }

  /** The lockout as a client meets it: after a row of wrong passwords the right one is accepted if
      and only if there have been no more than maxfailure of them. */
  lemma WrongPasswordsLock(l: Limits, s: State, uid: Uid, attempts: seq<Attempt>, right: Attempt)
    requires uid in s.users && s.users[uid].failureCount == 0 && l.maxfailure < 255
    requires AllWrong(s.users[uid], attempts)
    requires A.Hash(right.pass, s.users[uid].salt) == s.users[uid].pass
    ensures var s1 := PostAll(l, s, uid, attempts);
            var (s2, code) := PostLogin(l, s1, uid, right.pass, right.rmt, right.id, right.now);
            if |attempts| > l.maxfailure then s2 == s1 && code == BAD_REQUEST
            else code == if |LiveOf(s.sessions, uid)| < l.cfg.maxLogins then MOVED_PERMANENTLY else TOO_MANY_REQUESTS
  {
    WrongPasswordsCount(l, s, uid, attempts);
    PostLoginLeaves(l, PostAll(l, s, uid, attempts), uid, right.pass, right.rmt, right.id, right.now);
  }

  /** Without a pad PatchLogin goes through exactly for the current password of an unlocked user,
      an acceptable new one, and room for one more login; the user's other sessions stay. */
  lemma PlainChangeIsExact(l: Limits, s: State, uid: Uid, old_: Password, new_: Password,
                           seed: Password, rmt: string, id: string, now: int)
    requires id !in s.sessions.used
    ensures var (s', code) := PatchLogin(l, s, uid, old_, new_, None, seed, rmt, id, now);
            && (code == NO_CONTENT <==>
                  && uid != "" && uid in s.users && s.users[uid].failureCount <= l.maxfailure
                  && A.Hash(old_, s.users[uid].salt) == s.users[uid].pass
                  && |new_| >= 8 && new_ != s.users[uid].name && new_ != old_
                  && |LiveOf(s.sessions, uid)| < l.cfg.maxLogins)
            && (code == NO_CONTENT ==>
                  LiveOf(s'.sessions, uid) ==
                    if l.cfg.ttl > 0 then LiveOf(s.sessions, uid) + {Token(id)} else LiveOf(s.sessions, uid) - {Token(id)})
  {
    A.ChangeAccepts(s.users, uid, old_, new_, now, l.maxfailure);
  }

  /** The pad is alive and was issued to this user. */
  predicate PadServes(s: State, uid: Uid, pad: string) {
    Pad(pad) in s.sessions.live && s.sessions.live[Pad(pad)].owner == uid && uid != ""
  }

  lemma SweepThenLogin(cfg: Config, s: Sessions, uid: Uid, rmt: string, id: string)
    requires cfg.maxLogins >= 1 && id !in s.used
    ensures var swept := Without(s, LiveOf(s, uid));
            var (after, reply) := Answer(cfg, swept, LoginReq(uid, rmt, id));
            && reply == Reply(OK, id)
            && LiveOf(after, uid) == (if cfg.ttl > 0 then {Token(id)} else {})
  {
  }

  /** A reset through a pad, end to end. From any failure count, locked or not, it goes through
      exactly for a live pad of this user, an existing row, room for one login, and a new
      password that is long enough and is neither the name nor the generated seed. */
  lemma PadResetGoesThrough(l: Limits, s: State, uid: Uid, old_: Password, new_: Password, pad: string,
                            seed: Password, rmt: string, id: string, now: int)
    requires id !in s.sessions.used
    ensures PatchLogin(l, s, uid, old_, new_, Some(pad), seed, rmt, id, now).1 == NO_CONTENT <==>
              && PadServes(s, uid, pad) && uid in s.users && l.cfg.maxLogins >= 1
              && |new_| >= 8 && new_ != s.users[uid].name && new_ != seed
  {
    if PadServes(s, uid, pad) && uid in s.users {
      var t := A.ResetPassword(s.users, uid, seed, now).0;
      A.ResetIsReal(s.users, uid, seed, now, l.maxfailure, seed, now);
      A.ChangeAccepts(t, uid, seed, new_, now, l.maxfailure);
      if l.cfg.maxLogins >= 1 { SweepThenLogin(l.cfg, s.sessions, uid, rmt, id); }
    }
  }

  /** And afterwards: the new password and no other logs in, the counter is zero, the new session
      is the only live key of the user, so every earlier token and the pad are dead, and nobody
      else's row or sessions have changed. */
  lemma PadResetLeaves(l: Limits, s: State, uid: Uid, old_: Password, new_: Password, pad: string,
                       seed: Password, rmt: string, id: string, now: int, p: Password, later: int)
    requires id !in s.sessions.used
    requires PatchLogin(l, s, uid, old_, new_, Some(pad), seed, rmt, id, now).1 == NO_CONTENT
    ensures var s' := PatchLogin(l, s, uid, old_, new_, Some(pad), seed, rmt, id, now).0;
            && uid in s'.users && s'.users[uid].failureCount == 0
            && A.Login(s'.users, uid, p, later, l.maxfailure).1 == (if p == new_ then None else Some(A.BadUserOrPass))
            && LiveOf(s'.sessions, uid) == (if l.cfg.ttl > 0 then {Token(id)} else {})
            && Pad(pad) !in s'.sessions.live
            && s.users.Keys == s'.users.Keys
            && (forall u :: u in s.users && u != uid ==> s'.users[u] == s.users[u])
            && (forall k :: k != Token(id) && (k !in s.sessions.live || s.sessions.live[k].owner != uid) ==>
                  (k in s'.sessions.live <==> k in s.sessions.live)
                  && (k in s.sessions.live ==> s'.sessions.live[k] == s.sessions.live[k]))
  {
    PadResetGoesThrough(l, s, uid, old_, new_, pad, seed, rmt, id, now);
    var t := A.ResetPassword(s.users, uid, seed, now).0;
    A.ChangeIsReal(t, uid, seed, new_, now, l.maxfailure, p, later);
    SweepThenLogin(l.cfg, s.sessions, uid, rmt, id);
  }

  // PatchLogin is not all or nothing. What a refusal leaves behind, with a pad and without.

  /** With a pad nothing changes if and only if there is no user id, or the pad is dead, or it has
      no owner: every other request clears its owner's sessions, whatever it answers. */
  lemma PadAttemptIsFelt(l: Limits, s: State, uid: Uid, old_: Password, new_: Password, pad: string,
                         seed: Password, rmt: string, id: string, now: int)
    ensures PatchLogin(l, s, uid, old_, new_, Some(pad), seed, rmt, id, now).0 == s <==>
              uid == "" || Pad(pad) !in s.sessions.live || s.sessions.live[Pad(pad)].owner == ""
  {
    if uid != "" && Pad(pad) in s.sessions.live && s.sessions.live[Pad(pad)].owner != "" {
      assert Pad(pad) !in PatchLogin(l, s, uid, old_, new_, Some(pad), seed, rmt, id, now).0.sessions.live;
    }
  }

  /** And then the answer is: without a user id 400, to a dead pad 500, to one without an owner 400. */
  lemma DeadPadIsRefused(l: Limits, s: State, uid: Uid, old_: Password, new_: Password, pad: string,
                         seed: Password, rmt: string, id: string, now: int)
    requires uid == "" || Pad(pad) !in s.sessions.live || s.sessions.live[Pad(pad)].owner == ""
    ensures PatchLogin(l, s, uid, old_, new_, Some(pad), seed, rmt, id, now) ==
            (s, if uid != "" && Pad(pad) !in s.sessions.live then INTERNAL_SERVER_ERROR else BAD_REQUEST)
    ensures PatchLogin(l, s, "", old_, new_, None, seed, rmt, id, now) == (s, BAD_REQUEST)
  {
  }

  predicate BadPassword(row: A.Row, current: Password, new_: Password) {
    |new_| < 8 || new_ == row.name || new_ == current
  }

  /** A live pad of a named user clears that user's sessions and pads, whoever the request is for.
      Then: for another user 400; without a row 500; for a bad new password 500, and the seed,
      which nobody has been told, is the password; without room for a login 429, and the new
      password holds; and with none of these 204. */
  lemma PadRefusalsLeave(l: Limits, s: State, uid: Uid, old_: Password, new_: Password, pad: string,
                         seed: Password, rmt: string, id: string, now: int)
    requires uid != "" && Pad(pad) in s.sessions.live && s.sessions.live[Pad(pad)].owner != ""
    ensures var (s', code) := PatchLogin(l, s, uid, old_, new_, Some(pad), seed, rmt, id, now);
            var owner := s.sessions.live[Pad(pad)].owner;
            var swept := Without(s.sessions, LiveOf(s.sessions, owner));
            if owner != uid then s' == State(s.users, swept) && code == BAD_REQUEST
            else if uid !in s.users then s' == State(s.users, swept) && code == INTERNAL_SERVER_ERROR
            else if BadPassword(s.users[uid], seed, new_) then
              s'.sessions == swept && A.OnlyPassword(s'.users, uid, seed, l.maxfailure) && code == INTERNAL_SERVER_ERROR
            else
              && A.OnlyPassword(s'.users, uid, new_, l.maxfailure)
              && if l.cfg.maxLogins < 1 then s'.sessions.live == swept.live && code == TOO_MANY_REQUESTS
                 else code == NO_CONTENT
  {
    var owner := s.sessions.live[Pad(pad)].owner;
    if owner == uid && uid in s.users {
      var t := A.ResetPassword(s.users, uid, seed, now).0;
      A.ChangeAccepts(t, uid, seed, new_, now, l.maxfailure);
      A.ChangeLeaves(t, uid, seed, new_, now, l.maxfailure);
      assert LiveOf(Without(s.sessions, LiveOf(s.sessions, uid)), uid) == {};
    }
  }

  /** Without a pad no session is lost. A missing or locked user changes nothing; a wrong password
      changes the row, by one more failure; a bad new password only records the login; and a
      refusal for want of room comes after the password has changed. */
  lemma PlainRefusalsLeave(l: Limits, s: State, uid: Uid, old_: Password, new_: Password,
                           seed: Password, rmt: string, id: string, now: int)
    requires uid != ""
    ensures var (s', code) := PatchLogin(l, s, uid, old_, new_, None, seed, rmt, id, now);
            && (code != NO_CONTENT ==> s'.sessions.live == s.sessions.live)
            && if uid !in s.users || s.users[uid].failureCount > l.maxfailure then
                 s' == s && code == INTERNAL_SERVER_ERROR
               else
                 var row := s.users[uid];
                 if A.Hash(old_, row.salt) != row.pass then
                   var failed := row.(loginFailure := Some(now), failureCount := A.Increment(row.failureCount));
                   s' == State(s.users[uid := failed], s.sessions) && s' != s && code == INTERNAL_SERVER_ERROR
                 else if BadPassword(row, old_, new_) then
                   var entered := row.(loginSuccess := Some(now), failureCount := 0);
                   s' == State(s.users[uid := entered], s.sessions) && code == INTERNAL_SERVER_ERROR
                 else
                   && A.OnlyPassword(s'.users, uid, new_, l.maxfailure) && s' != s
                   && code == if |LiveOf(s.sessions, uid)| < l.cfg.maxLogins then NO_CONTENT else TOO_MANY_REQUESTS
  {
    A.ChangeAccepts(s.users, uid, old_, new_, now, l.maxfailure);
    if uid in s.users {
      assert s.users[uid := s.users[uid]] == s.users;
      A.HashIsInjective(old_, new_, s.users[uid].salt);
      if A.ChangePassword(s.users, uid, old_, new_, now, l.maxfailure).1.None? {
        A.ChangeLeaves(s.users, uid, old_, new_, now, l.maxfailure);
      }
    }
  }

  /** So without a pad nothing at all changes if and only if there is no such user, or the user is
      locked, or a refused new password finds the login already recorded as of now. */
  lemma PlainAttemptIsFelt(l: Limits, s: State, uid: Uid, old_: Password, new_: Password,
                           seed: Password, rmt: string, id: string, now: int)
    ensures PatchLogin(l, s, uid, old_, new_, None, seed, rmt, id, now).0 == s <==>
              || uid == "" || uid !in s.users || s.users[uid].failureCount > l.maxfailure
              || (&& A.Hash(old_, s.users[uid].salt) == s.users[uid].pass
                  && BadPassword(s.users[uid], old_, new_)
                  && s.users[uid].failureCount == 0 && s.users[uid].loginSuccess == Some(now))
  {
    if uid != "" {
      PlainRefusalsLeave(l, s, uid, old_, new_, seed, rmt, id, now);
      if uid in s.users { assert s.users[uid := s.users[uid]] == s.users; }
    }
  }

  /** In particular, when the pad and the row are good but the new password is
      not, the answer is 500, and still all the user's sessions and pads are gone and the seed,
      which nobody has been told, is the password. */
  lemma RejectedPasswordStillResets(l: Limits, s: State, uid: Uid, old_: Password, new_: Password, pad: string,
                                    seed: Password, rmt: string, id: string, now: int, p: Password, later: int)
    requires PadServes(s, uid, pad) && uid in s.users
    requires |new_| < 8 || new_ == s.users[uid].name || new_ == seed
    ensures var (s', code) := PatchLogin(l, s, uid, old_, new_, Some(pad), seed, rmt, id, now);
            && code == INTERNAL_SERVER_ERROR
            && s'.sessions == Without(s.sessions, LiveOf(s.sessions, uid))
            && uid in s'.users
            && A.Login(s'.users, uid, p, later, l.maxfailure).1 == (if p == seed then None else Some(A.BadUserOrPass))
  {
    var t := A.ResetPassword(s.users, uid, seed, now).0;
    A.ResetIsReal(s.users, uid, seed, now, l.maxfailure, seed, now);
    A.ChangeAccepts(t, uid, seed, new_, now, l.maxfailure);
    A.RefusedChangeKeepsPassword(t, uid, seed, new_, now, l.maxfailure);
    A.HashIsInjective(p, seed, A.SALT);
  }
}
