/** Each operation of the session manager as an automaton: the Redis command it issues next
    (Next) and where the result takes it (Resume). One Redis command is one atomic step, so
    between two of them any other request may run. */
module Handlers {
  import opened Common
  import opened RedisStore

  /** ttl is AuthnTimeout in seconds; neither number is restricted. */
  datatype Config = Config(maxLogins: int, ttl: int)

  const PAD_TTL := 15 * 60

  const NO_ROW_UPDATED := "no row was updated"

  /** id is the fresh uuid the operation draws before it does anything else. */
  datatype Request =
    | LoginReq(uid: Uid, remote: string, id: string)
    | OtpReq(uid: Uid, remote: string, redirect: string, id: string)
    | ValidReq(token: string)
    | LogoutReq(token: string)
    | LoginOtpReq(pad: string)
    | CompleteOtpReq(pad: string)

  /** value is the cookie's token, the new pad, the redirect location or the user id. */
  datatype Reply = Reply(code: int, value: string)

  /** Login and OTP create a key and pass through checkCount. */
  predicate Grants(req: Request) {
    req.LoginReq? || req.OtpReq?
  }

  function GrantKey(req: Request): Key
    requires Grants(req)
  {
    if req.LoginReq? then Token(req.id) else Pad(req.id)
  }

  function GrantFields(req: Request): map<Field, string>
    requires Grants(req)
  {
    match req
    case LoginReq(uid, remote, _) => map[UserId := uid, Remote := remote]
    case OtpReq(uid, remote, redirect, _) => map[UserId := uid, Remote := remote, Redirect := redirect]
  }

  function GrantTtl(cfg: Config, req: Request): int
    requires Grants(req)
  {
    if req.LoginReq? then cfg.ttl else PAD_TTL
  }

  /** The control points, each named for the work the next command does. */
  datatype Pc =
    | Counting                                                           // checkCount: SMEMBERS
    | Scanning(listing: seq<Key>, next: nat, expired: seq<Key>)          // checkCount: EXISTS
    | Evicting(total: nat, expired: seq<Key>)                            // checkCount: SREM
    | Storing                                                            // Login, OTP: HSET
    | Expiring                                                           // Login, OTP: EXPIRE
    | Indexing                                                           // Login, OTP: SADD
    | Probing                                                            // Valid: EXISTS
    | Touching                                                           // Valid: EXPIRE
    | Owning                                                             // Logout: HGET
    | Dropping(uid: Uid)                                                 // Logout: HDEL
    | Unlisting(uid: Uid)                                                // Logout: SREM
    | Fetching                                                           // LoginOTP, CompleteOTP: HGETALL
    | Enumerating(uid: Uid)                                              // clearLogins: SMEMBERS
    | Clearing(uid: Uid, listing: seq<Key>, next: nat)                   // clearTokens: HDEL
    | Sweeping(uid: Uid, listing: seq<Key>)                              // clearLogins: SREM
    | Replied(reply: Reply)

  predicate PcFits(req: Request, pc: Pc) {
    match pc
    case Counting => Grants(req)
    case Scanning(listing, next, _) => Grants(req) && next < |listing|
    case Evicting(_, expired) => Grants(req) && expired != []
    case Storing => Grants(req)
    case Expiring => Grants(req)
    case Indexing => Grants(req)
    case Probing => req.ValidReq? || req.LogoutReq?
    case Touching => req.ValidReq? || req.LogoutReq?
    case Owning => req.LogoutReq?
    case Dropping(_) => req.LogoutReq?
    case Unlisting(_) => req.LogoutReq?
    case Fetching => req.LoginOtpReq? || req.CompleteOtpReq?
    case Enumerating(_) => req.CompleteOtpReq?
    case Clearing(_, listing, next) => req.CompleteOtpReq? && next < |listing|
    case Sweeping(_, listing) => req.CompleteOtpReq? && listing != []
    case Replied(_) => true
  }

  function Begin(req: Request): (pc: Pc)
    ensures PcFits(req, pc) && !pc.Replied?
  {
    match req
    case LoginReq(_, _, _) => Counting
    case OtpReq(_, _, _, _) => Counting
    case ValidReq(_) => Probing
    case LogoutReq(_) => Probing
    case LoginOtpReq(_) => Fetching
    case CompleteOtpReq(_) => Fetching
  }

  function Next(cfg: Config, req: Request, pc: Pc): Command
    requires PcFits(req, pc) && !pc.Replied?
  {
    match pc
    case Counting => SMembers(req.uid)
    case Scanning(listing, next, _) => Exists(listing[next])
    case Evicting(_, expired) => SRem(req.uid, expired)
    case Storing => HSet(GrantKey(req), GrantFields(req))
    case Expiring => Expire(GrantKey(req), GrantTtl(cfg, req))
    case Indexing => SAdd(req.uid, GrantKey(req))
    case Probing => Exists(Token(req.token))
    case Touching => Expire(Token(req.token), cfg.ttl)
    case Owning => HGet(Token(req.token), UserId)
    case Dropping(_) => HDel(Token(req.token), {UserId, Remote})
    case Unlisting(uid) => SRem(uid, [Token(req.token)])
    case Fetching => HGetAll(Pad(req.pad))
    case Enumerating(uid) => SMembers(uid)
    case Clearing(_, listing, next) => HDel(listing[next], {UserId, Remote, Redirect})
    case Sweeping(uid, listing) => SRem(uid, listing)
  }

  /** The reply to a failed command: OTP hands back the error text of the three commands that
      create the pad, LoginOTP falls back to "/", everything else returns an empty value. */
  function FailureReply(req: Request, pc: Pc, msg: string): Reply {
    Reply(INTERNAL_SERVER_ERROR,
          if req.OtpReq? && (pc.Storing? || pc.Expiring? || pc.Indexing?) then msg
          else if req.LoginOtpReq? then "/"
          else "")
  }

  function Refused(code: int): Pc {
    Replied(Reply(code, ""))
  }

  function Resume(cfg: Config, req: Request, pc: Pc, res: Result): (pc': Pc)
    requires PcFits(req, pc) && !pc.Replied?
    requires ResultFits(Next(cfg, req, pc), res)
    ensures PcFits(req, pc')
  {
    if res.Failed? then Replied(FailureReply(req, pc, res.msg))
    else
      match pc
      case Counting =>
        if |res.keys| < cfg.maxLogins then Storing else AfterScan(req, res.keys, 0, [])
      case Scanning(listing, next, expired) =>
        AfterScan(req, listing, next + 1, if res.n == 0 then expired + [listing[next]] else expired)
      case Evicting(total, _) =>
        if total - res.n < cfg.maxLogins then Storing else Refused(TOO_MANY_REQUESTS)
      case Storing => Expiring
      case Expiring =>
        if req.LoginReq? && !res.yes then Refused(INTERNAL_SERVER_ERROR) else Indexing
      case Indexing =>
        if req.OtpReq? && res.n != 1 then Replied(Reply(INTERNAL_SERVER_ERROR, NO_ROW_UPDATED))
        else Replied(Reply(OK, req.id))
      case Probing => if res.n == 0 then Refused(TEMPORARY_REDIRECT) else Touching
      case Touching =>
        if !res.yes then Refused(TEMPORARY_REDIRECT)
        else if req.ValidReq? then Replied(Reply(NO_CONTENT, req.token))
        else Owning
      case Owning => if res.text.None? then Refused(FORBIDDEN) else Dropping(res.text.value)
      case Dropping(uid) => Unlisting(uid)
      case Unlisting(_) => Refused(NO_CONTENT)
      case Fetching =>
        if req.LoginOtpReq? then Replied(RedirectReply(res.fields)) else AfterFetch(res.fields)
      case Enumerating(uid) =>
        if res.keys == [] then Replied(Reply(OK, uid)) else Clearing(uid, res.keys, 0)
      case Clearing(uid, listing, next) =>
        if next + 1 < |listing| then Clearing(uid, listing, next + 1) else Sweeping(uid, listing)
      case Sweeping(uid, _) => Replied(Reply(OK, uid))
  }

  /** checkCount between two probes, and after the last one. */
  function AfterScan(req: Request, listing: seq<Key>, next: nat, expired: seq<Key>): (pc: Pc)
    requires Grants(req)
    ensures PcFits(req, pc)
  {
    if next < |listing| then Scanning(listing, next, expired)
    else if expired == [] then Refused(TOO_MANY_REQUESTS)
    else Evicting(|listing|, expired)
  }

  function RedirectReply(fields: map<Field, string>): Reply {
    if UserId !in fields then Reply(INTERNAL_SERVER_ERROR, "/")
    else if fields[UserId] == "" then Reply(BAD_REQUEST, "/")
    else if Redirect !in fields then Reply(INTERNAL_SERVER_ERROR, "/")
    else if fields[Redirect] == "" then Reply(BAD_REQUEST, "/")
    else Reply(FOUND, fields[Redirect])
  }

  function AfterFetch(fields: map<Field, string>): Pc {
    if UserId !in fields then Refused(INTERNAL_SERVER_ERROR)
    else if fields[UserId] == "" then Refused(BAD_REQUEST)
    else Enumerating(fields[UserId])
  }
}
