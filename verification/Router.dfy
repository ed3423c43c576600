/** The login handlers over both stores, reduced to inputs, a status code and a cookie. While
    neither store has failed they are the functions of RouterSpec. */
module Router {
  import opened Common
  import opened RedisStore
  import opened Handlers
  import opened SessionSpec
  import opened SessionAbstraction
  import opened RouterSpec
  import AuthSpec
  import Relational
  import Validator

  class UserService {
    const auther: Relational.Conn
    const validator: Validator.Core

    constructor (auther: Relational.Conn, validator: Validator.Core)
      ensures this.auther == auther && this.validator == validator
    {
      this.auther := auther;
      this.validator := validator;
    }

    /** The session store is in order. */
    ghost predicate Ready()
      reads this, auther, validator, validator.redis
    {
      validator.Quiet()
    }

    ghost predicate Healthy()
      reads this, auther, validator, validator.redis
    {
      !auther.faulted && !validator.redis.faulted
    }

    ghost function View(): State
      reads this, auther, validator, validator.redis
    {
      State(auther.users, validator.View())
    }

    ghost function Limits(): Limits
      reads this, auther, validator
    {
      RouterSpec.Limits(validator.cfg, auther.maxfailure)
    }

    /** The cookie of the session just opened, which expires with it. */
    function SessionCookie(id: string): Cookie
      reads validator, validator.redis
    {
      Cookie(id, Some(validator.redis.db.now + validator.cfg.ttl), validator.cfg.ttl)
    }

    /** uid has the session id, and the password and the counter of a completed change. */
    ghost predicate Renewed(uid: Uid, new_: Password, id: string)
      reads this, auther, validator, validator.redis
    {
      && Stands(validator.redis.db, Token(id), uid, validator.redis.db.now + validator.cfg.ttl)
      && uid in auther.users && auther.users[uid].failureCount == 0
      && auther.users[uid].salt == AuthSpec.SALT && auther.users[uid].pass == AuthSpec.Hash(new_, AuthSpec.SALT)
    }

    /** What PostLogin does with a readable request. */
    method Enter(uid: Uid, pass: Password, rmt: string, id: string, now: int) returns (cookie: Option<Cookie>, code: int)
      requires Ready() && id !in validator.used
      modifies auther, validator, validator.redis
      ensures Ready()
      ensures old(!Healthy()) ==> !Healthy()
      ensures Healthy() ==>
                (View(), code) == RouterSpec.PostLogin(Limits(), old(View()), uid, pass, rmt, id, now)
      ensures Relational.Contained(old(auther.users), auther.users, uid, auther.maxfailure)
      ensures cookie == if code == MOVED_PERMANENTLY then Some(SessionCookie(id)) else None
      // whatever fails, nobody gets in without the password, and a failure is told
      ensures code == MOVED_PERMANENTLY ==>
                && uid in old(auther.users) && AuthSpec.Check(old(auther.users)[uid], pass, auther.maxfailure).None?
                && Stands(validator.redis.db, Token(id), uid, validator.redis.db.now + validator.cfg.ttl)
      ensures auther.faulted && !old(auther.faulted) ==> code == BAD_REQUEST
      ensures validator.redis.faulted && !old(validator.redis.faulted) ==> code == INTERNAL_SERVER_ERROR
    {
      var auth, err := auther.Login(uid, pass, now);
      if err.Some? { return None, BAD_REQUEST; }
      var session, status := validator.Login(auth.uuid, rmt, id);
      if status != OK { return None, status; }
      return Some(session), MOVED_PERMANENTLY;
    }

    /** body is None when it cannot be read or parsed. */
    method PostLogin(body: Option<(Uid, Password)>, rmt: string, id: string, now: int)
      returns (cookie: Option<Cookie>, code: int)
      requires Ready() && id !in validator.used
      modifies auther, validator, validator.redis
      ensures Ready()
      ensures old(!Healthy()) ==> !Healthy()
      ensures body.None? ==> code == BAD_REQUEST && View() == old(View())
      ensures body.Some? && Healthy() ==>
                (View(), code) == RouterSpec.PostLogin(Limits(), old(View()), body.value.0, body.value.1, rmt, id, now)
      ensures body.Some? ==> Relational.Contained(old(auther.users), auther.users, body.value.0, auther.maxfailure)
      ensures cookie == if code == MOVED_PERMANENTLY then Some(SessionCookie(id)) else None
      ensures code == MOVED_PERMANENTLY ==>
                && body.Some? && body.value.0 in old(auther.users)
                && AuthSpec.Check(old(auther.users)[body.value.0], body.value.1, auther.maxfailure).None?
                && Stands(validator.redis.db, Token(id), body.value.0, validator.redis.db.now + validator.cfg.ttl)
      ensures auther.faulted && !old(auther.faulted) ==> code == BAD_REQUEST
      ensures validator.redis.faulted && !old(validator.redis.faulted) ==> code == INTERNAL_SERVER_ERROR
    {
      if body.None? { return None, BAD_REQUEST; }
      cookie, code := Enter(body.value.0, body.value.1, rmt, id, now);
    }

    /** pad is the authn-pad cookie, if there is one; cleared says that the answer expires it. */
    method AuthnPad(uid: Uid, old_: Password, pad: Option<string>, seed: Password, now: int)
      returns (pwd: Password, code: int, cleared: bool)
      requires Ready()
      modifies auther, validator, validator.redis
      ensures Ready() && validator.used == old(validator.used) && cleared == pad.Some?
      ensures code in {OK, BAD_REQUEST, INTERNAL_SERVER_ERROR}
      ensures old(!Healthy()) ==> !Healthy()
      ensures !Healthy() && old(Healthy()) ==> code == INTERNAL_SERVER_ERROR
      ensures code == OK ==>
                if pad.None? then pwd == old_ && auther.users == old(auther.users)
                else pwd == seed && uid != "" && OwnerOf(old(validator.redis.db), Pad(pad.value)) == Some(uid)
      ensures Healthy() ==>
                (View(), pwd, code) == RouterSpec.AuthnPad(Limits(), old(View()), uid, old_, pad, seed, now)
      ensures Relational.Contained(old(auther.users), auther.users, uid, auther.maxfailure)
    {
      cleared := pad.Some?;
      if pad.None? { return old_, OK, cleared; }
      var otpId, status := validator.CompleteOTP(pad.value);
      if status != OK { return old_, status, cleared; }
      if otpId != uid { return old_, BAD_REQUEST, cleared; }
      var err := auther.ResetPassword(uid, seed, now);
      if err.Some? { return old_, INTERNAL_SERVER_ERROR, cleared; }
      return seed, OK, cleared;
    }

    /** What PatchLogin does once the password to change from is settled. */
    method Renew(uid: Uid, current: Password, new_: Password, rmt: string, id: string, now: int)
      returns (cookie: Option<Cookie>, code: int)
      requires Ready() && id !in validator.used
      modifies auther, validator, validator.redis
      ensures Ready()
      ensures old(!Healthy()) ==> !Healthy()
      ensures Healthy() ==>
                (View(), code) == RouterSpec.Renew(Limits(), old(View()), uid, current, new_, rmt, id, now)
      ensures Relational.Contained(old(auther.users), auther.users, uid, auther.maxfailure)
      ensures cookie == if code == NO_CONTENT then Some(SessionCookie(id)) else None
      ensures code == NO_CONTENT ==>
                && Renewed(uid, new_, id) && uid in old(auther.users)
                && AuthSpec.Check(old(auther.users)[uid], current, auther.maxfailure).None?
      ensures !Healthy() && old(Healthy()) ==> code == INTERNAL_SERVER_ERROR
    {
      var err := auther.ChangePassword(uid, current, new_, now);
      if err.Some? { return None, INTERNAL_SERVER_ERROR; }
      var session, granted := validator.Login(uid, rmt, id);
      if granted != OK { return None, granted; }
      return Some(session), NO_CONTENT;
    }

    /** cleared says that the answer, whatever its code, expires the authn-pad cookie. */
    method PatchLogin(uid: Uid, body: Option<(Password, Password)>, pad: Option<string>,
                      seed: Password, rmt: string, id: string, now: int)
      returns (cookie: Option<Cookie>, code: int, cleared: bool)
      requires Ready() && id !in validator.used
      modifies auther, validator, validator.redis
      ensures Ready()
      ensures old(!Healthy()) ==> !Healthy()
      ensures body.None? ==> code == BAD_REQUEST && View() == old(View())
      ensures body.Some? && Healthy() ==>
                (View(), code) == RouterSpec.PatchLogin(Limits(), old(View()), uid, body.value.0, body.value.1,
                                                        pad, seed, rmt, id, now)
      ensures Relational.Contained(old(auther.users), auther.users, uid, auther.maxfailure)
      ensures cleared <==> pad.Some? && uid != "" && body.Some?
      ensures cookie == if code == NO_CONTENT then Some(SessionCookie(id)) else None
      // whatever fails, nobody changes a password without the old one or a pad, and a failure is told
      ensures code == NO_CONTENT ==>
                && body.Some? && Renewed(uid, body.value.1, id)
                && if pad.Some? then OwnerOf(old(validator.redis.db), Pad(pad.value)) == Some(uid)
                   else
                     && uid in old(auther.users)
                     && AuthSpec.Check(old(auther.users)[uid], body.value.0, auther.maxfailure).None?
      ensures !Healthy() && old(Healthy()) ==> code == INTERNAL_SERVER_ERROR
    {
      if uid == "" || body.None? { return None, BAD_REQUEST, false; }
      var (old_, new_) := body.value;
      var current, status;
      current, status, cleared := AuthnPad(uid, old_, pad, seed, now);
      if status != OK { return None, status, cleared; }
      cookie, code := Renew(uid, current, new_, rmt, id, now);
    }
  }
}
