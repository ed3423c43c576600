/** What whole runs of the session manager guarantee, read off the journal of requests and
    answers alone. */
module SessionRuns {
  import opened Common
  import opened RedisStore
  import opened Handlers
  import opened SessionSpec

  /** The user a token or pad was issued to. */
  function IssuedTo(journal: seq<Entry>, k: Key): Option<Uid> {
    if journal == [] then None
    else
      var n := |journal| - 1;
      var e := journal[n];
      if Grants(e.req) && GrantKey(e.req) == k && e.reply.code == OK then Some(e.req.uid)
      else IssuedTo(journal[..n], k)
  }

  /** When the token was last touched, that is issued or found valid; None if it was never
      issued, or was logged out or swept since. */
  function LastTouch(journal: seq<Entry>, token: string): Option<int> {
    if journal == [] then None
    else
      var n := |journal| - 1;
      var e := journal[n];
      if e.req.LoginReq? && e.req.id == token && e.reply.code == OK then Some(e.at)
      else if e.req == ValidReq(token) && e.reply.code == NO_CONTENT then Some(e.at)
      else if e.req == LogoutReq(token) && e.reply.code == NO_CONTENT then None
      else if e.req.CompleteOtpReq? && e.reply.code == OK && Some(e.reply.value) == IssuedTo(journal[..n], Token(token))
      then None
      else LastTouch(journal[..n], token)
  }

  ghost predicate TokenTracksJournal(cfg: Config, s: Sessions, journal: seq<Entry>, token: string) {
    var touch := LastTouch(journal, token);
    && (Token(token) in s.live <==> touch.Some? && s.now < touch.value + cfg.ttl)
    && (Token(token) in s.live ==>
          && s.live[Token(token)].deadline == touch.value + cfg.ttl
          && IssuedTo(journal, Token(token)) == Some(s.live[Token(token)].owner))
    && (touch.Some? ==> touch.value <= s.now)
    && (token !in s.used ==> touch.None? && Token(token) !in s.live)
  }

  lemma GrantTracks(cfg: Config, s: Sessions, j: seq<Entry>, req: Request, token: string)
    requires TokenTracksJournal(cfg, s, j, token) && Grants(req) && req.id !in s.used
    ensures var (s', reply) := Answer(cfg, s, req);
            TokenTracksJournal(cfg, s', j + [Entry(s.now, req, reply)], token)
  {
  }

  lemma TokenRequestTracks(cfg: Config, s: Sessions, j: seq<Entry>, req: Request, token: string)
    requires TokenTracksJournal(cfg, s, j, token) && (req.ValidReq? || req.LogoutReq?)
    ensures var (s', reply) := Answer(cfg, s, req);
            TokenTracksJournal(cfg, s', j + [Entry(s.now, req, reply)], token)
  {
  }

  lemma PadRequestTracks(cfg: Config, s: Sessions, j: seq<Entry>, req: Request, token: string)
    requires TokenTracksJournal(cfg, s, j, token) && (req.LoginOtpReq? || req.CompleteOtpReq?)
    ensures var (s', reply) := Answer(cfg, s, req);
            TokenTracksJournal(cfg, s', j + [Entry(s.now, req, reply)], token)
  {
  }

  /** Tracking survives any run, from any state whose past is written in j. */
  lemma {:induction false} TokensTrackJournal(cfg: Config, s: Sessions, j: seq<Entry>, events: seq<Event>, token: string)
    requires TokenTracksJournal(cfg, s, j, token) && AllNew(s.used, events)
    ensures TokenTracksJournal(cfg, AfterAll(cfg, s, events), j + Journal(cfg, s, events), token)
    decreases |events|
  {
    if events == [] {
      assert j + [] == j;
    } else {
      var n := |events| - 1;
      TokensTrackJournal(cfg, s, j, events[..n], token);
      AfterAllDraws(cfg, s, events[..n]);
      var v, past := AfterAll(cfg, s, events[..n]), j + Journal(cfg, s, events[..n]);
      match events[n]
      case Elapse(_) =>
        assert j + Journal(cfg, s, events) == past;
      case Ask(req) =>
        assert j + Journal(cfg, s, events) == past + [Entry(v.now, req, Answer(cfg, v, req).1)];
        if Grants(req) { GrantTracks(cfg, v, past, req, token); }
        else if req.ValidReq? || req.LogoutReq? { TokenRequestTracks(cfg, v, past, req, token); }
        else { PadRequestTracks(cfg, v, past, req, token); }
    }
  }

  /** Sliding expiry. After any run from an empty store, Valid(token) answers 204 exactly when
      the journal shows the token issued, not logged out and not swept since, and touched less
      than AuthnTimeout minutes ago; and then the stored deadline is the last touch plus the
      cookie's MaxAge. */
  lemma SlidingExpiry(cfg: Config, now: int, events: seq<Event>, token: string)
    requires AllNew({}, events)
    ensures var s := AfterAll(cfg, Fresh(now), events);
            var touch := LastTouch(Journal(cfg, Fresh(now), events), token);
            && (Answer(cfg, s, ValidReq(token)).1.code == NO_CONTENT <==>
                  touch.Some? && s.now < touch.value + cfg.ttl)
            && (Token(token) in s.live ==> s.live[Token(token)].deadline == touch.value + cfg.ttl)
  {
    TokensTrackJournal(cfg, Fresh(now), [], events, token);
    assert [] + Journal(cfg, Fresh(now), events) == Journal(cfg, Fresh(now), events);
  }

  /** In such a run Logout answers 204 exactly for a token that is valid, 307 for any other, and
      never 403. */
  lemma LogoutNeverForbids(cfg: Config, now: int, events: seq<Event>, token: string)
    requires AllNew({}, events)
    ensures var s := AfterAll(cfg, Fresh(now), events);
            Answer(cfg, s, LogoutReq(token)).1.code ==
              if Answer(cfg, s, ValidReq(token)).1.code == NO_CONTENT then NO_CONTENT else TEMPORARY_REDIRECT
  {
    SlidingExpiry(cfg, now, events, token);
    TokensTrackJournal(cfg, Fresh(now), [], events, token);
    assert [] + Journal(cfg, Fresh(now), events) == Journal(cfg, Fresh(now), events);
  }

  /** A token that Login has just issued, in whatever state, is valid from then on exactly for as
      long as the journal from that moment says so. */
  lemma IssuedTokenStaysValid(cfg: Config, s: Sessions, login: Request, events: seq<Event>)
    requires login.LoginReq? && login.id !in s.used && Answer(cfg, s, login).1.code == OK
    requires AllNew(s.used + {login.id}, events)
    ensures var (s1, reply) := Answer(cfg, s, login);
            var s2 := AfterAll(cfg, s1, events);
            var touch := LastTouch([Entry(s.now, login, reply)] + Journal(cfg, s1, events), login.id);
            Answer(cfg, s2, ValidReq(login.id)).1.code == NO_CONTENT <==> touch.Some? && s2.now < touch.value + cfg.ttl
  {
    var (s1, reply) := Answer(cfg, s, login);
    var e := Entry(s.now, login, reply);
    assert [e][..0] == [];
    assert LastTouch([e], login.id) == Some(s.now) && IssuedTo([e], Token(login.id)) == Some(login.uid);
    TokensTrackJournal(cfg, s1, [e], events, login.id);
  }

  /** Some CompleteOTP in the journal answered 200 for uid. */
  predicate Swept(journal: seq<Entry>, uid: Uid) {
    exists e :: e in journal && Sweeps(e, uid)
  }

  predicate Sweeps(e: Entry, uid: Uid) {
    e.req.CompleteOtpReq? && e.reply == Reply(OK, uid)
  }

  lemma SweptSnoc(j: seq<Entry>, e: Entry, uid: Uid)
    ensures Swept(j + [e], uid) <==> Swept(j, uid) || Sweeps(e, uid)
  {
  }

  lemma PadStep(cfg: Config, s: Sessions, req: Request, pad: string)
    requires pad in s.used && (Grants(req) ==> req.id !in s.used)
    ensures var (s', reply) := Answer(cfg, s, req);
            && pad in s'.used && s'.now == s.now
            && (Pad(pad) in s'.live ==> Pad(pad) in s.live && s'.live[Pad(pad)] == s.live[Pad(pad)])
            && (Pad(pad) in s.live ==>
                  (Pad(pad) in s'.live <==> !Sweeps(Entry(s.now, req, reply), s.live[Pad(pad)].owner)))
  {
  }

  lemma {:induction false} PadsTrackJournal(cfg: Config, s: Sessions, events: seq<Event>, pad: string)
    requires Pad(pad) in s.live && pad in s.used && s.now < s.live[Pad(pad)].deadline
    requires AllNew(s.used, events)
    ensures var s', x := AfterAll(cfg, s, events), s.live[Pad(pad)];
            && pad in s'.used
            && (Pad(pad) in s'.live <==> !Swept(Journal(cfg, s, events), x.owner) && s'.now < x.deadline)
            && (Pad(pad) in s'.live ==> s'.live[Pad(pad)] == x)
    decreases |events|
  {
    if events != [] {
      var n := |events| - 1;
      PadsTrackJournal(cfg, s, events[..n], pad);
      AfterAllDraws(cfg, s, events[..n]);
      var v, j := AfterAll(cfg, s, events[..n]), Journal(cfg, s, events[..n]);
      match events[n]
      case Elapse(_) =>
        assert Journal(cfg, s, events) == j;
      case Ask(req) =>
        PadStep(cfg, v, req, pad);
        SweptSnoc(j, Entry(v.now, req, Answer(cfg, v, req).1), s.live[Pad(pad)].owner);
    }
  }

  /** Has the pad that OTP issued in s run out, or been swept? */
  predicate PadOver(s: Sessions, req: Request, now: int, journal: seq<Entry>)
    requires req.OtpReq?
  {
    now - s.now >= 15 * 60 || Swept(journal, req.uid)
  }

  /** OTP then LoginOTP. A pad answered with 200 redirects to exactly the stored location for as
      long as fifteen minutes have not passed and no CompleteOTP has succeeded for that user, and
      no longer, whatever else is asked; one for no user, or to no location, is refused with 400. */
  lemma OtpRoundTrip(cfg: Config, s: Sessions, req: Request, events: seq<Event>)
    requires req.OtpReq? && req.id !in s.used && Answer(cfg, s, req).1.code == OK
    requires AllNew(s.used + {req.id}, events)
    ensures Answer(cfg, s, req).1.value == req.id
    ensures var s1 := Answer(cfg, s, req).0;
            var s2 := AfterAll(cfg, s1, events);
            var (s3, reply) := Answer(cfg, s2, LoginOtpReq(req.id));
            && s3 == s2
            && reply == if PadOver(s, req, s2.now, Journal(cfg, s1, events)) then Reply(INTERNAL_SERVER_ERROR, "/")
                        else if req.uid == "" || req.redirect == "" then Reply(BAD_REQUEST, "/")
                        else Reply(FOUND, req.redirect)
  {
    PadsTrackJournal(cfg, Answer(cfg, s, req).0, events, req.id);
  }

  /** OTP then CompleteOTP. For exactly as long the pad completes: the answer names the user it was
      issued to, all that user's keys are gone, and everybody else's are as they were. */
  lemma CompletionRoundTrip(cfg: Config, s: Sessions, req: Request, events: seq<Event>)
    requires req.OtpReq? && req.id !in s.used && Answer(cfg, s, req).1.code == OK
    requires AllNew(s.used + {req.id}, events)
    ensures var s1 := Answer(cfg, s, req).0;
            var s2 := AfterAll(cfg, s1, events);
            var (s3, reply) := Answer(cfg, s2, CompleteOtpReq(req.id));
            if PadOver(s, req, s2.now, Journal(cfg, s1, events)) then s3 == s2 && reply == Reply(INTERNAL_SERVER_ERROR, "")
            else if req.uid == "" then s3 == s2 && reply == Reply(BAD_REQUEST, "")
            else
              && reply == Reply(OK, req.uid) && s3.now == s2.now && s3.used == s2.used
              && forall k :: && (k in s3.live <==> k in s2.live && s2.live[k].owner != req.uid)
                             && (k in s3.live ==> s3.live[k] == s2.live[k])
  {
    PadsTrackJournal(cfg, Answer(cfg, s, req).0, events, req.id);
  }

  // What one request changes.

  /** A Login or OTP is answered 200 if and only if fewer than maxLogins keys of the user live, else
      429; the new key is the user's, a token for AuthnTimeout, a pad for fifteen minutes with its
      location, and no other key has changed. */
  lemma GrantsAreExact(cfg: Config, s: Sessions, req: Request, k: Key)
    requires Grants(req)
    ensures var (s', reply) := Answer(cfg, s, req);
            && reply == (if |LiveOf(s, req.uid)| < cfg.maxLogins then Reply(OK, req.id) else Reply(TOO_MANY_REQUESTS, ""))
            && (k != GrantKey(req) || reply.code != OK ==>
                  (k in s'.live <==> k in s.live) && (k in s.live ==> s'.live[k] == s.live[k]))
            && (k == GrantKey(req) && reply.code == OK ==>
                  match req
                  case LoginReq(uid, _, id) =>
                    && k == Token(id) && (k in s'.live <==> cfg.ttl > 0)
                    && (k in s'.live ==> s'.live[k] == Session(uid, None, s.now + cfg.ttl))
                  case OtpReq(uid, _, redirect, id) =>
                    k == Pad(id) && k in s'.live && s'.live[k] == Session(uid, Some(redirect), s.now + 15 * 60)
                  case _ => true)
  {
  }

  /** Valid and Logout change their own token alone: Valid renews a live one for AuthnTimeout from
      now, Logout removes it, and neither does anything about a dead one. */
  lemma TokenRequestsAreExact(cfg: Config, s: Sessions, req: Request, k: Key)
    requires req.ValidReq? || req.LogoutReq?
    ensures var (s', reply) := Answer(cfg, s, req);
            && s'.now == s.now && s'.used == s.used
            && (k != Token(req.token) ==>
                  (k in s'.live <==> k in s.live) && (k in s.live ==> s'.live[k] == s.live[k]))
            && (Token(req.token) !in s.live ==> s' == s && reply == Reply(TEMPORARY_REDIRECT, ""))
            && (Token(req.token) in s.live && req.LogoutReq? ==> Token(req.token) !in s'.live)
            && (Token(req.token) in s.live && req.ValidReq? ==>
                  && reply == Reply(NO_CONTENT, req.token) && (Token(req.token) in s'.live <==> cfg.ttl > 0)
                  && (cfg.ttl > 0 ==> s'.live[Token(req.token)] ==
                                        Session(s.live[Token(req.token)].owner, s.live[Token(req.token)].redirect, s.now + cfg.ttl)))
  {
  }

  // The limit.

  lemma GrantAddsAtMostOne(cfg: Config, s: Sessions, req: Request, uid: Uid)
    requires Grants(req)
    ensures LiveOf(Answer(cfg, s, req).0, uid) <=
            LiveOf(s, uid) + if |LiveOf(s, uid)| < cfg.maxLogins then {GrantKey(req)} else {}
  {
  }

  lemma OthersAddNothing(cfg: Config, s: Sessions, req: Request, uid: Uid)
    requires !Grants(req)
    ensures LiveOf(Answer(cfg, s, req).0, uid) <= LiveOf(s, uid)
  {
    match req
    case ValidReq(_) =>
    case LogoutReq(_) =>
    case _ =>
  }

  lemma AnswerKeepsLimit(cfg: Config, s: Sessions, req: Request, uid: Uid)
    requires LiveOf(s, uid) == {} || |LiveOf(s, uid)| <= cfg.maxLogins
    ensures var live := LiveOf(Answer(cfg, s, req).0, uid); live == {} || |live| <= cfg.maxLogins
  {
    var live, live' := LiveOf(s, uid), LiveOf(Answer(cfg, s, req).0, uid);
    if Grants(req) {
      GrantAddsAtMostOne(cfg, s, req, uid);
      SubsetSize(live', live + if |live| < cfg.maxLogins then {GrantKey(req)} else {});
    } else {
      OthersAddNothing(cfg, s, req, uid);
      SubsetSize(live', live);
    }
  }

  /** One request at a time, no user ever has more than maxLogins live tokens and pads. */
  lemma {:induction false} LimitIsKept(cfg: Config, now: int, events: seq<Event>, uid: Uid)
    ensures var live := LiveOf(AfterAll(cfg, Fresh(now), events), uid); live == {} || |live| <= cfg.maxLogins
    decreases |events|
  {
    if events == [] {
      assert LiveOf(Fresh(now), uid) == {};
    } else {
      var n := |events| - 1;
      LimitIsKept(cfg, now, events[..n], uid);
      var s := AfterAll(cfg, Fresh(now), events[..n]);
      match events[n]
      case Ask(req) => AnswerKeepsLimit(cfg, s, req, uid);
      case Elapse(seconds) => SubsetSize(LiveOf(Wait(s, seconds), uid), LiveOf(s, uid));
    }
  }
}
