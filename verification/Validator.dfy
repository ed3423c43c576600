/** The session manager's methods, command for command. Every command goes through Call, which
    only sends what the automaton of Handlers sends next, so each method ends At its reply, and
    its effect and answer are those of a SoloRun whatever fails; and while nothing has failed
    they are exactly what SessionSpec says. */
module Validator {
  import opened Common
  import opened RedisStore
  import opened Handlers
  import opened SessionSpec
  import opened SessionAbstraction
  import opened SoloRun
  import Redis

  class Core {
    const redis: Redis.Client
    const cfg: Config
    ghost var used: set<string>     // the uuids drawn so far
    ghost var steps: seq<Moment>    // the commands of the request being handled

    /** While nothing has failed the store is in order between requests. */
    ghost predicate Quiet()
      reads this, redis
    {
      !redis.faulted ==> Tidy(redis.db, used)
    }

    ghost function View(): Sessions
      reads this, redis
    {
      Abs(redis.db, used)
    }

    /** drawn holds the uuids of the keys that an earlier service left in the store; that service
        may have had other limits. */
    constructor (redis: Redis.Client, maxLogins: int, authnTimeout: int, ghost drawn: set<string>)
      requires !redis.faulted ==> Tidy(redis.db, drawn)
      ensures Quiet() && this.redis == redis && cfg == Config(maxLogins, authnTimeout * 60)
      ensures used == drawn && View() == Abs(redis.db, drawn)
      ensures redis.db.hashes == map[] && drawn == {} ==> View() == Fresh(redis.db.now)
    {
      this.redis := redis;
      cfg := Config(maxLogins, authnTimeout * 60);
      used := drawn;
      steps := [];
    }

    function LoginCookie(value: string): Cookie
      reads redis
    {
      Cookie(value, Some(redis.db.now + cfg.ttl), cfg.ttl)
    }

    /** The request being handled has come this far. */
    ghost predicate At(before: Store, req: Request, pc: Pc)
      reads this, redis
    {
      && |steps| > 0 && Path(cfg, req, steps)
      && steps[0] == Moment(before, Begin(req)) && steps[|steps| - 1] == Moment(redis.db, pc)
    }

    ghost method Open(req: Request)
      modifies this`steps
      ensures At(redis.db, req, Begin(req))
    {
      steps := [Moment(redis.db, Begin(req))];
    }

    /** Sends one command, which must be the one the request is due to send. */
    method Call(ghost before: Store, ghost req: Request, ghost pc: Pc, cmd: Command)
      returns (res: Result, ghost pc': Pc)
      requires At(before, req, pc) && PcFits(req, pc) && !pc.Replied? && cmd == Next(cfg, req, pc)
      modifies redis, this`steps
      ensures redis.db.now == old(redis.db.now)
      ensures ResultFits(cmd, res) && pc' == Resume(cfg, req, pc, res) && At(before, req, pc')
      ensures if res.Failed? then redis.faulted && (redis.db == old(redis.db) || redis.db == Effect(old(redis.db), cmd))
              else redis.faulted == old(redis.faulted) && redis.db == Effect(old(redis.db), cmd)
      ensures !res.Failed? ==>
                if cmd.SMembers? then IsListing(res.keys, Members(old(redis.db), cmd.uid))
                else res == Outcome(old(redis.db), cmd, [])
    {
      ghost var fault, order;
      ghost var a := Moment(redis.db, pc);
      res, fault, order := redis.Do(cmd);
      pc' := Resume(cfg, req, pc, res);
      assert StepsBy(cfg, req, a, fault, order, Moment(redis.db, pc'));
      PathGrows(cfg, req, steps, Moment(redis.db, pc'));
      steps := steps + [Moment(redis.db, pc')];
    }

    method Elapse(seconds: nat)
      requires Quiet()
      modifies redis
      ensures Quiet() && redis.faulted == old(redis.faulted) && redis.db == Later(old(redis.db), seconds)
      ensures !redis.faulted ==> View() == Wait(old(View()), seconds)
    {
      if !redis.faulted { WaitingIsExact(redis.db, used, seconds); }
      redis.Elapse(seconds);
    }

    /** The probing loop of checkCount. */
    method Probe(ghost before: Store, ghost req: Request, tokens: seq<Key>)
      returns (ok: bool, expired: seq<Key>)
      requires Grants(req) && At(before, req, AfterScan(req, tokens, 0, []))
      modifies redis, this`steps
      ensures redis.db.now == old(redis.db.now)
      ensures if ok then redis.db == old(redis.db) && redis.faulted == old(redis.faulted) else redis.faulted
      ensures At(before, req, if ok then AfterScan(req, tokens, |tokens|, expired) else Refused(INTERNAL_SERVER_ERROR))
      ensures ok ==> Elements(expired) == set k | k in tokens && !Live(redis.db, k)
    {
      expired := [];
      var i := 0;
      while i < |tokens|
        invariant 0 <= i <= |tokens| && redis.db.now == old(redis.db.now)
        invariant At(before, req, AfterScan(req, tokens, i, expired))
        invariant redis.db == old(redis.db) && redis.faulted == old(redis.faulted)
        invariant Elements(expired) == set k | k in tokens[..i] && !Live(redis.db, k)
      {
        var found, _ := Call(before, req, Scanning(tokens, i, expired), Exists(tokens[i]));
        if found.Failed? { return false, expired; }
        ScanOneMore(redis.db, tokens, i, expired);
        if found.n == 0 {
          expired := expired + [tokens[i]];
        }
        i := i + 1;
      }
      assert tokens[..i] == tokens;
      ok := true;
    }

    /** checkCount once the index looks full: evict what has expired and count again. */
    method Recount(ghost before: Store, ghost req: Request, uid: Uid, tokens: seq<Key>) returns (code: int)
      requires Grants(req) && req.uid == uid && At(before, req, AfterScan(req, tokens, 0, []))
      requires IsListing(tokens, Members(redis.db, uid)) && |tokens| >= cfg.maxLogins
      modifies redis, this`steps
      ensures redis.db.now == old(redis.db.now)
      ensures code in {OK, TOO_MANY_REQUESTS, INTERNAL_SERVER_ERROR}
      ensures At(before, req, if code == OK then Storing else Refused(code))
      ensures if code == INTERNAL_SERVER_ERROR then redis.faulted
              else
                && redis.faulted == old(redis.faulted)
                && code == (if |LiveMembers(old(redis.db), uid)| < cfg.maxLogins then OK else TOO_MANY_REQUESTS)
                && (redis.db == old(redis.db) || redis.db == Evicted(old(redis.db), uid))
                && Clean(redis.db, uid)
    {
      var ok, expired := Probe(before, req, tokens);
      if !ok { return INTERNAL_SERVER_ERROR; }
      StaleAreTheDead(redis.db, uid, tokens, expired);
      if expired == [] { return TOO_MANY_REQUESTS; }
      EvictionLeavesTheLiving(redis.db, uid, expired);
      var removed, _ := Call(before, req, Evicting(|tokens|, expired), SRem(uid, expired));
      if removed.Failed? { return INTERNAL_SERVER_ERROR; }
      if |tokens| - removed.n < cfg.maxLogins { return OK; }
      return TOO_MANY_REQUESTS;
    }

    /** The index is an exact counter, kept lazily: the answer depends on the live members
        alone, and only dead ones ever leave. They are left in while there is room, and all of
        them are out once the index has looked full. */
    method CheckCount(ghost before: Store, ghost req: Request, uid: Uid) returns (code: int)
      requires Grants(req) && req.uid == uid && At(before, req, Counting)
      modifies redis, this`steps
      ensures redis.db.now == old(redis.db.now)
      ensures code in {OK, TOO_MANY_REQUESTS, INTERNAL_SERVER_ERROR}
      ensures At(before, req, if code == OK then Storing else Refused(code))
      ensures if code == INTERNAL_SERVER_ERROR then redis.faulted
              else
                && redis.faulted == old(redis.faulted)
                && code == (if |LiveMembers(old(redis.db), uid)| < cfg.maxLogins then OK else TOO_MANY_REQUESTS)
                && (redis.db == old(redis.db) || redis.db == Evicted(old(redis.db), uid))
                && (if |Members(old(redis.db), uid)| < cfg.maxLogins then redis.db == old(redis.db)
                    else Clean(redis.db, uid))
    {
      var listing, _ := Call(before, req, Counting, SMembers(uid));
      if listing.Failed? { return INTERNAL_SERVER_ERROR; }
      var tokens := listing.keys;
      ListingSize(tokens, Members(redis.db, uid));
      if |tokens| < cfg.maxLogins {
        SubsetSize(LiveMembers(redis.db, uid), Members(redis.db, uid));
        return OK;
      }
      code := Recount(before, req, uid, tokens);
    }

    /** The HSET and EXPIRE that create a token or a pad. */
    method Create(ghost before: Store, ghost req: Request, key: Key, values: map<Field, string>, ttl: int)
      returns (exp: Result)
      requires Grants(req) && At(before, req, Storing)
      requires key == GrantKey(req) && values == GrantFields(req) && ttl == GrantTtl(cfg, req)
      modifies redis, this`steps
      ensures redis.db.now == old(redis.db.now)
      ensures exp.Failed? || exp.Flag?
      ensures At(before, req, if exp.Failed? then Replied(Reply(INTERNAL_SERVER_ERROR, if req.OtpReq? then exp.msg else ""))
                              else if req.LoginReq? && !exp.yes then Refused(INTERNAL_SERVER_ERROR)
                              else Indexing)
      ensures if exp.Failed? then redis.faulted
              else
                && redis.faulted == old(redis.faulted)
                && redis.db == Effect(Effect(old(redis.db), HSet(key, values)), Expire(key, ttl))
                && (exp.yes <==> Live(Effect(old(redis.db), HSet(key, values)), key))
    {
      var put, _ := Call(before, req, Storing, HSet(key, values));
      if put.Failed? { return put; }
      ghost var pc;
      exp, pc := Call(before, req, Expiring, Expire(key, ttl));
    }

    /** Nothing has failed, the store was in order, and checkCount has just found room. */
    ghost predicate Admits(before: Store, drawn: set<string>, req: Request)
      requires Grants(req)
      reads this, redis
    {
      !redis.faulted ==>
        && Tidy(before, drawn) && req.id !in drawn && CountedFrom(before, redis.db, req.uid)
        && |LiveMembers(before, req.uid)| < cfg.maxLogins
    }

    /** What Login does once checkCount has let it pass. */
    method IssueToken(ghost before: Store, ghost drawn: set<string>, ghost req: Request,
                      uid: Uid, rmt: string, id: string, ttl: int)
      returns (code: int)
      requires req == LoginReq(uid, rmt, id) && ttl == cfg.ttl
      requires At(before, req, Storing) && Admits(before, drawn, req)
      modifies redis, this`steps
      ensures redis.db.now == old(redis.db.now)
      ensures code in {OK, INTERNAL_SERVER_ERROR}
      ensures At(before, req, Replied(Reply(code, if code == OK then id else "")))
      ensures old(redis.faulted) ==> redis.faulted
      ensures redis.faulted ==> old(redis.faulted) || code == INTERNAL_SERVER_ERROR
      ensures code == OK ==> Stands(redis.db, Token(id), uid, redis.db.now + ttl)
      ensures !redis.faulted ==>
                && code == OK && Tidy(redis.db, drawn + {id}) && Holds(redis.db, Token(id), map[UserId := uid, Remote := rmt])
                && (Abs(redis.db, drawn + {id}), Reply(OK, id)) == Answer(cfg, Abs(before, drawn), req)
    {
      var token := Token(id);
      if !redis.faulted { CountedIsExact(cfg, before, redis.db, drawn, req); }
      CreatedStands(cfg, redis.db, req);
      var exp := Create(before, req, token, map[UserId := uid, Remote := rmt], ttl);
      if exp.Failed? { return INTERNAL_SERVER_ERROR; }
      if !exp.yes { return INTERNAL_SERVER_ERROR; }
      var added, _ := Call(before, req, Indexing, SAdd(uid, token));
      if added.Failed? { return INTERNAL_SERVER_ERROR; }
      return OK;
    }

    method Login(uid: Uid, rmt: string, id: string) returns (cookie: Cookie, code: int)
      requires Quiet() && id !in used
      modifies redis, this`steps, this`used
      ensures Quiet() && used == old(used) + {id}
      ensures At(old(redis.db), LoginReq(uid, rmt, id), Replied(Reply(code, cookie.value)))
      ensures code in {OK, TOO_MANY_REQUESTS, INTERNAL_SERVER_ERROR}
      // the cookie carries the new token and expires with it; any other one clears what the browser has
      ensures cookie == if code == OK then Cookie(id, Some(redis.db.now + cfg.ttl), cfg.ttl) else Cookie("", None, -1)
      ensures code == OK ==> Stands(redis.db, Token(id), uid, redis.db.now + cfg.ttl)
      ensures code == OK && !redis.faulted ==> Holds(redis.db, Token(id), map[UserId := uid, Remote := rmt])
      ensures old(redis.faulted) ==> redis.faulted
      ensures redis.faulted ==> old(redis.faulted) || code == INTERNAL_SERVER_ERROR
      ensures !redis.faulted ==>
                (View(), Reply(code, cookie.value)) == Answer(cfg, old(View()), LoginReq(uid, rmt, id))
    {
      ghost var req, before, drawn := LoginReq(uid, rmt, id), redis.db, used;
      cookie := LoginCookie(id);
      used := used + {id};
      Open(req);
      code := CheckCount(before, req, uid);
      if code != OK {
        if !redis.faulted { CountedOutIsExact(cfg, before, redis.db, drawn, req); }
        return LOGOUT_COOKIE, code;
      }
      code := IssueToken(before, drawn, req, uid, rmt, id, cookie.maxAge);
      if code != OK { return LOGOUT_COOKIE, code; }
    }

    /** What OTP does once checkCount has let it pass. */
    method IssuePad(ghost before: Store, ghost drawn: set<string>, ghost req: Request,
                    uid: Uid, rmt: string, three02: string, id: string)
      returns (pad: string, code: int)
      requires req == OtpReq(uid, rmt, three02, id)
      requires At(before, req, Storing) && Admits(before, drawn, req)
      modifies redis, this`steps
      ensures redis.db.now == old(redis.db.now)
      ensures code in {OK, INTERNAL_SERVER_ERROR} && (code == OK ==> pad == id)
      ensures At(before, req, Replied(Reply(code, pad)))
      ensures old(redis.faulted) ==> redis.faulted
      ensures redis.faulted ==> old(redis.faulted) || code == INTERNAL_SERVER_ERROR
      ensures code == OK ==> Stands(redis.db, Pad(id), uid, redis.db.now + 15 * 60)
      ensures !redis.faulted ==>
                && code == OK && Tidy(redis.db, drawn + {id})
                && Holds(redis.db, Pad(id), map[UserId := uid, Remote := rmt, Redirect := three02])
                && (Abs(redis.db, drawn + {id}), Reply(OK, id)) == Answer(cfg, Abs(before, drawn), req)
    {
      var key := Pad(id);
      if !redis.faulted { CountedIsExact(cfg, before, redis.db, drawn, req); }
      CreatedStands(cfg, redis.db, req);
      var exp := Create(before, req, key, map[UserId := uid, Remote := rmt, Redirect := three02], PAD_TTL);
      if exp.Failed? { return exp.msg, INTERNAL_SERVER_ERROR; }
      var added, _ := Call(before, req, Indexing, SAdd(uid, key));
      if added.Failed? { return added.msg, INTERNAL_SERVER_ERROR; }
      if added.n != 1 { return NO_ROW_UPDATED, INTERNAL_SERVER_ERROR; }
      return id, OK;
    }

    method OTP(uid: Uid, rmt: string, three02: string, id: string) returns (pad: string, code: int)
      requires Quiet() && id !in used
      modifies redis, this`steps, this`used
      ensures Quiet() && used == old(used) + {id}
      ensures At(old(redis.db), OtpReq(uid, rmt, three02, id), Replied(Reply(code, pad)))
      ensures code in {OK, TOO_MANY_REQUESTS, INTERNAL_SERVER_ERROR}
      ensures (code == OK ==> pad == id) && (code == TOO_MANY_REQUESTS ==> pad == "")
      ensures code == OK ==> Stands(redis.db, Pad(id), uid, redis.db.now + 15 * 60)
      ensures code == OK && !redis.faulted ==>
                Holds(redis.db, Pad(id), map[UserId := uid, Remote := rmt, Redirect := three02])
      ensures old(redis.faulted) ==> redis.faulted
      ensures redis.faulted ==> old(redis.faulted) || code == INTERNAL_SERVER_ERROR
      ensures !redis.faulted ==>
                (View(), Reply(code, pad)) == Answer(cfg, old(View()), OtpReq(uid, rmt, three02, id))
    {
      ghost var req, before, drawn := OtpReq(uid, rmt, three02, id), redis.db, used;
      used := used + {id};
      Open(req);
      code := CheckCount(before, req, uid);
      if code != OK {
        if !redis.faulted { CountedOutIsExact(cfg, before, redis.db, drawn, req); }
        return "", code;
      }
      pad, code := IssuePad(before, drawn, req, uid, rmt, three02, id);
    }

    /** The body of Valid, which Logout runs too. */
    method Touch(ghost before: Store, ghost req: Request, token: string) returns (cookie: Cookie, code: int)
      requires (req == ValidReq(token) || req == LogoutReq(token)) && At(before, req, Probing)
      modifies redis, this`steps
      ensures redis.db.now == old(redis.db.now)
      ensures code in {NO_CONTENT, TEMPORARY_REDIRECT, INTERNAL_SERVER_ERROR}
      ensures At(before, req, if code != NO_CONTENT then Refused(code)
                              else if req.ValidReq? then Replied(Reply(code, token)) else Owning)
      ensures cookie == if code == NO_CONTENT then Cookie(token, Some(redis.db.now + cfg.ttl), cfg.ttl) else Cookie("", None, -1)
      ensures if code == INTERNAL_SERVER_ERROR then redis.faulted
              else
                && redis.faulted == old(redis.faulted)
                && (code == NO_CONTENT <==> Live(old(redis.db), Token(token)))
                && redis.db == Effect(old(redis.db), Expire(Token(token), cfg.ttl))
    {
      cookie := LoginCookie(token);
      var key := Token(token);
      var count, _ := Call(before, req, Probing, Exists(key));
      if count.Failed? { return LOGOUT_COOKIE, INTERNAL_SERVER_ERROR; }
      if count.n == 0 { return LOGOUT_COOKIE, TEMPORARY_REDIRECT; }
      var found, _ := Call(before, req, Touching, Expire(key, cookie.maxAge));
      if found.Failed? { return LOGOUT_COOKIE, INTERNAL_SERVER_ERROR; }
      if !found.yes { return LOGOUT_COOKIE, TEMPORARY_REDIRECT; }
      code := NO_CONTENT;
    }

    method Valid(token: string) returns (cookie: Cookie, code: int)
      requires Quiet()
      modifies redis, this`steps
      ensures Quiet()
      ensures At(old(redis.db), ValidReq(token), Replied(Reply(code, cookie.value)))
      // the cookie expires when the token now does
      ensures cookie == if code == NO_CONTENT then Cookie(token, Some(redis.db.now + cfg.ttl), cfg.ttl) else Cookie("", None, -1)
      ensures code == NO_CONTENT ==> Live(old(redis.db), Token(token))
      ensures code == NO_CONTENT && !redis.faulted && cfg.ttl > 0 ==>
                LivesUntil(View(), Token(token), redis.db.now + cfg.ttl)
      ensures old(redis.faulted) ==> redis.faulted
      ensures redis.faulted ==> old(redis.faulted) || code == INTERNAL_SERVER_ERROR
      ensures !redis.faulted ==> (View(), Reply(code, cookie.value)) == Answer(cfg, old(View()), ValidReq(token))
    {
      ghost var before := redis.db;
      Open(ValidReq(token));
      cookie, code := Touch(before, ValidReq(token), token);
      if !redis.faulted {
        TouchedIsTidy(cfg, before, used, Token(token));
        TouchIsExact(cfg, before, used, token);
      }
    }

    /** What Logout does once the token has proved valid. */
    method Drop(ghost before: Store, ghost req: Request, token: string) returns (code: int)
      requires req == LogoutReq(token) && At(before, req, Owning)
      modifies redis, this`steps
      ensures code in {NO_CONTENT, FORBIDDEN, INTERNAL_SERVER_ERROR} && At(before, req, Refused(code))
      ensures if code == INTERNAL_SERVER_ERROR then redis.faulted
              else
                && redis.faulted == old(redis.faulted)
                && match OwnerOf(old(redis.db), Token(token))
                   case None => code == FORBIDDEN && redis.db == old(redis.db)
                   case Some(uid) => code == NO_CONTENT && redis.db == LoggedOut(old(redis.db), Token(token), uid)
    {
      var key := Token(token);
      var uid, _ := Call(before, req, Owning, HGet(key, UserId));
      if uid.Failed? { return INTERNAL_SERVER_ERROR; }
      if uid.text.None? { return FORBIDDEN; }
      var dropped, _ := Call(before, req, Dropping(uid.text.value), HDel(key, {UserId, Remote}));
      if dropped.Failed? { return INTERNAL_SERVER_ERROR; }
      var unlisted, _ := Call(before, req, Unlisting(uid.text.value), SRem(uid.text.value, [key]));
      if unlisted.Failed? { return INTERNAL_SERVER_ERROR; }
      return NO_CONTENT;
    }

    /** A refused Logout has no cookie to set; the one that goes through clears it, and the token
        has left the index as well. */
    method Logout(token: string) returns (cookie: Option<Cookie>, code: int)
      requires Quiet()
      modifies redis, this`steps
      ensures Quiet()
      ensures At(old(redis.db), LogoutReq(token), Replied(Reply(code, "")))
      ensures cookie == if code == NO_CONTENT then Some(Cookie("", None, -1)) else None
      ensures code == NO_CONTENT ==> Live(old(redis.db), Token(token))
      ensures code == NO_CONTENT && !redis.faulted ==> Unlisted(old(redis.db), redis.db, Token(token))
      ensures old(redis.faulted) ==> redis.faulted
      ensures redis.faulted ==> old(redis.faulted) || code == INTERNAL_SERVER_ERROR
      ensures !redis.faulted ==> (View(), Reply(code, "")) == Answer(cfg, old(View()), LogoutReq(token))
    {
      ghost var req, before := LogoutReq(token), redis.db;
      if !redis.faulted { LogoutFlow(cfg, before, used, token); }
      Open(req);
      var _, valid := Touch(before, req, token);
      if valid != NO_CONTENT { return None, valid; }
      code := Drop(before, req, token);
      if code != NO_CONTENT { return None, code; }
      cookie := Some(LOGOUT_COOKIE);
    }

    method LoginOTP(pad: string) returns (location: string, code: int)
      requires Quiet()
      modifies redis, this`steps
      ensures Quiet() && redis.db == old(redis.db)
      ensures code == FOUND ==>
                var fields := FieldsOf(redis.db, Pad(pad));
                UserId in fields && fields[UserId] != "" && Redirect in fields && location == fields[Redirect] != ""
      ensures At(old(redis.db), LoginOtpReq(pad), Replied(Reply(code, location)))
      ensures old(redis.faulted) ==> redis.faulted
      ensures redis.faulted ==> old(redis.faulted) || code == INTERNAL_SERVER_ERROR
      ensures !redis.faulted ==> (View(), Reply(code, location)) == Answer(cfg, old(View()), LoginOtpReq(pad))
    {
      ghost var req, before := LoginOtpReq(pad), redis.db;
      Open(req);
      location := "/";
      var result, _ := Call(before, req, Fetching, HGetAll(Pad(pad)));
      if !redis.faulted { FetchIsExact(before, used, pad); }
      if result.Failed? { return location, INTERNAL_SERVER_ERROR; }
      if UserId !in result.fields { return location, INTERNAL_SERVER_ERROR; }
      if result.fields[UserId] == "" { return location, BAD_REQUEST; }
      if Redirect !in result.fields { return location, INTERNAL_SERVER_ERROR; }
      if result.fields[Redirect] == "" { return location, BAD_REQUEST; }
      return result.fields[Redirect], FOUND;
    }

    /** Deletes the listed hashes one by one; a store error ends it early. */
    method ClearTokens(ghost before: Store, ghost req: Request, ghost uid: Uid, tokens: seq<Key>)
      returns (els: seq<Key>, ok: bool)
      requires req.CompleteOtpReq? && tokens != [] && At(before, req, Clearing(uid, tokens, 0))
      modifies redis, this`steps
      ensures At(before, req, if ok then Sweeping(uid, tokens) else Refused(INTERNAL_SERVER_ERROR))
      ensures if ok then
                redis.faulted == old(redis.faulted) && els == tokens
                && redis.db == Wiped(old(redis.db), Elements(tokens))
              else redis.faulted
    {
      els := [];
      var i := 0;
      assert redis.db.hashes - {} == redis.db.hashes;
      while i < |tokens|
        invariant 0 <= i <= |tokens| && els == tokens[..i] && redis.faulted == old(redis.faulted)
        invariant At(before, req, if i < |tokens| then Clearing(uid, tokens, i) else Sweeping(uid, tokens))
        invariant redis.db == Wiped(old(redis.db), Elements(tokens[..i]))
      {
        WipeOneMore(old(redis.db), Elements(tokens[..i]), tokens[i]);
        assert tokens[..i + 1] == tokens[..i] + [tokens[i]];
        assert Elements(tokens[..i + 1]) == Elements(tokens[..i]) + {tokens[i]};
        var cleared, _ := Call(before, req, Clearing(uid, tokens, i), HDel(tokens[i], {UserId, Remote, Redirect}));
        if cleared.Failed? { return els, false; }
        els := els + [tokens[i]];
        i := i + 1;
      }
      assert tokens[..i] == tokens;
      ok := true;
    }

    method ClearLogins(ghost before: Store, ghost req: Request, uid: Uid) returns (code: int)
      requires req.CompleteOtpReq? && At(before, req, Enumerating(uid))
      modifies redis, this`steps
      ensures code in {GONE, INTERNAL_SERVER_ERROR}
      ensures At(before, req, if code == GONE then Replied(Reply(OK, uid)) else Refused(code))
      ensures if code == GONE then
                && redis.faulted == old(redis.faulted)
                && (redis.db == SweptClean(old(redis.db), uid)
                    || (redis.db == old(redis.db) && Members(redis.db, uid) == {}))
              else redis.faulted
    {
      ghost var db := redis.db;
      var listing, _ := Call(before, req, Enumerating(uid), SMembers(uid));
      if listing.Failed? { return INTERNAL_SERVER_ERROR; }
      var tokens := listing.keys;
      if tokens == [] { return GONE; }
      var els, ok := ClearTokens(before, req, uid, tokens);
      if !ok { return INTERNAL_SERVER_ERROR; }
      SweepByCommands(db, uid, tokens);
      var removed, _ := Call(before, req, Sweeping(uid, tokens), SRem(uid, els));
      if removed.Failed? { return INTERNAL_SERVER_ERROR; }
      return GONE;
    }

    method CompleteOTP(pad: string) returns (uid: Uid, code: int)
      requires Quiet()
      modifies redis, this`steps
      ensures Quiet()
      ensures code in {OK, BAD_REQUEST, INTERNAL_SERVER_ERROR}
      ensures At(old(redis.db), CompleteOtpReq(pad), Replied(Reply(code, uid)))
      ensures old(redis.faulted) ==> redis.faulted
      ensures redis.faulted ==> old(redis.faulted) || code == INTERNAL_SERVER_ERROR
      ensures !redis.faulted ==> (View(), Reply(code, uid)) == Answer(cfg, old(View()), CompleteOtpReq(pad))
      ensures code == OK ==> OwnerOf(old(redis.db), Pad(pad)) == Some(uid) && uid != ""
      ensures !redis.faulted ==> if code == OK then Untouched(old(redis.db), redis.db, uid) else redis.db == old(redis.db)
      ensures !redis.faulted && code == OK ==>
                Members(redis.db, uid) == {} && forall k :: k in Members(old(redis.db), uid) ==> !Live(redis.db, k)
    {
      ghost var req, before := CompleteOtpReq(pad), redis.db;
      Open(req);
      var result, _ := Call(before, req, Fetching, HGetAll(Pad(pad)));
      if result.Failed? { return "", INTERNAL_SERVER_ERROR; }
      if !redis.faulted { FetchIsExact(before, used, pad); }
      if UserId !in result.fields { return "", INTERNAL_SERVER_ERROR; }
      if result.fields[UserId] == "" { return "", BAD_REQUEST; }
      code := ClearLogins(before, req, result.fields[UserId]);
      if code != GONE { return "", code; }
      if !redis.faulted {
        SweepIsExact(before, redis.db, used, result.fields[UserId]);
        SweepSparesOthers(before, used, result.fields[UserId]);
      }
      return result.fields[UserId], OK;
    }

    /** Any request, dispatched. */
    method Serve(req: Request) returns (reply: Reply)
      requires Quiet() && NewId(Ask(req)) !! used
      modifies redis, this`steps, this`used
      ensures Quiet() && used == old(used) + NewId(Ask(req))
      ensures Handles(cfg, old(redis.db), req, redis.db, reply)
      ensures old(redis.faulted) ==> redis.faulted
      ensures redis.faulted ==> old(redis.faulted) || reply.code == INTERNAL_SERVER_ERROR
      ensures !redis.faulted ==> (View(), reply) == Answer(cfg, old(View()), req)
    {
      match req
      case LoginReq(uid, remote, id) =>
        var cookie, code := Login(uid, remote, id);
        reply := Reply(code, cookie.value);
      case OtpReq(uid, remote, redirect, id) =>
        var pad, code := OTP(uid, remote, redirect, id);
        reply := Reply(code, pad);
      case ValidReq(token) =>
        var cookie, code := Valid(token);
        reply := Reply(code, cookie.value);
      case LogoutReq(token) =>
        var _, code := Logout(token);
        reply := Reply(code, "");
      case LoginOtpReq(pad) =>
        var location, code := LoginOTP(pad);
        reply := Reply(code, location);
      case CompleteOtpReq(pad) =>
        var uid, code := CompleteOTP(pad);
        reply := Reply(code, uid);
    }

    method React(e: Event) returns (note: seq<Entry>)
      requires Quiet() && NewId(e) !! used
      modifies redis, this`steps, this`used
      ensures Quiet() && used == old(used) + NewId(e)
      ensures old(redis.faulted) ==> redis.faulted
      ensures !redis.faulted ==> View() == After(cfg, old(View()), e) && note == Note(cfg, old(View()), e)
    {
      note := [];
      match e {
        case Elapse(seconds) =>
          Elapse(seconds);
        case Ask(req) =>
          var at := redis.db.now;
          var reply := Serve(req);
          note := [Entry(at, req, reply)];
      }
    }

    /** Whole runs. As long as no command fails, any sequence of requests and waits leaves the
        sessions, and gives the answers, of the index-free specification. */
    method Replay(events: seq<Event>) returns (journal: seq<Entry>)
      requires Quiet() && AllNew(used, events)
      modifies redis, this`steps, this`used
      ensures Quiet()
      ensures !redis.faulted ==>
                View() == AfterAll(cfg, old(View()), events) && journal == Journal(cfg, old(View()), events)
    {
      ghost var start := View();
      journal := [];
      var i := 0;
      while i < |events|
        invariant 0 <= i <= |events|
        invariant Quiet() && used == Drawn(start.used, events[..i])
        invariant !redis.faulted ==>
                    && View() == AfterAll(cfg, start, events[..i])
                    && journal == Journal(cfg, start, events[..i])
      {
        OneMoreEvent(cfg, start, events, i);
        var note := React(events[i]);
        journal := journal + note;
        i := i + 1;
      }
      assert events[..i] == events;
    }
  }
}
