/** The session manager as its users see it: live sessions and pads with an owner and a
    deadline, and no index. Requests are answered one at a time and nothing fails. */
module SessionSpec {
  import opened Common
  import opened RedisStore
  import opened Handlers

  datatype Session = Session(owner: Uid, redirect: Option<string>, deadline: int)

  datatype Sessions = Sessions(now: int, live: map<Key, Session>, used: set<string>)

  function LiveOf(s: Sessions, uid: Uid): set<Key> {
    set k | k in s.live && s.live[k].owner == uid
  }

  /** Time passes: whatever reaches its deadline is gone. */
  function Wait(s: Sessions, seconds: nat): Sessions {
    s.(now := s.now + seconds,
       live := map k | k in s.live && s.now + seconds < s.live[k].deadline :: s.live[k])
  }

  function Without(s: Sessions, keys: set<Key>): Sessions {
    s.(live := s.live - keys)
  }

  /** A key with no time to live is gone at once. */
  function WithKey(s: Sessions, k: Key, x: Session): Sessions {
    if s.now < x.deadline then s.(live := s.live[k := x]) else s.(live := s.live - {k})
  }

  function Grant(cfg: Config, s: Sessions, req: Request): (Sessions, Reply)
    requires Grants(req)
  {
    var s1 := s.(used := s.used + {req.id});
    if |LiveOf(s, req.uid)| < cfg.maxLogins then
      (WithKey(s1, GrantKey(req),
               Session(req.uid, if req.OtpReq? then Some(req.redirect) else None, s.now + GrantTtl(cfg, req))),
       Reply(OK, req.id))
    else (s1, Reply(TOO_MANY_REQUESTS, ""))
  }

  /** One request, answered in full. */
  function Answer(cfg: Config, s: Sessions, req: Request): (Sessions, Reply) {
    match req
    case LoginReq(_, _, _) => Grant(cfg, s, req)
    case OtpReq(_, _, _, _) => Grant(cfg, s, req)
    case ValidReq(token) =>
      var k := Token(token);
      if k in s.live then (WithKey(s, k, s.live[k].(deadline := s.now + cfg.ttl)), Reply(NO_CONTENT, token))
      else (s, Reply(TEMPORARY_REDIRECT, ""))
    case LogoutReq(token) =>
      var k := Token(token);
      // Logout touches the token first; with no time to live the touch removes it and Logout finds no owner
      if k in s.live then (Without(s, {k}), Reply(if cfg.ttl > 0 then NO_CONTENT else FORBIDDEN, ""))
      else (s, Reply(TEMPORARY_REDIRECT, ""))
    case LoginOtpReq(pad) =>
      var k := Pad(pad);
      (s, if k !in s.live then Reply(INTERNAL_SERVER_ERROR, "/")
          else if s.live[k].owner == "" || s.live[k].redirect == Some("") then Reply(BAD_REQUEST, "/")
          else if s.live[k].redirect.None? then Reply(INTERNAL_SERVER_ERROR, "/")
          else Reply(FOUND, s.live[k].redirect.value))
    case CompleteOtpReq(pad) =>
      var k := Pad(pad);
      if k !in s.live then (s, Reply(INTERNAL_SERVER_ERROR, ""))
      else if s.live[k].owner == "" then (s, Reply(BAD_REQUEST, ""))
      else (Without(s, LiveOf(s, s.live[k].owner)), Reply(OK, s.live[k].owner))
  }

  // Whole runs.

  datatype Event = Ask(req: Request) | Elapse(seconds: nat)

  function After(cfg: Config, s: Sessions, e: Event): Sessions {
    match e
    case Ask(req) => Answer(cfg, s, req).0
    case Elapse(seconds) => Wait(s, seconds)
  }

  function AfterAll(cfg: Config, s: Sessions, events: seq<Event>): Sessions {
    if events == [] then s
    else After(cfg, AfterAll(cfg, s, events[..|events| - 1]), events[|events| - 1])
  }

  /** The uuid a request draws. */
  function NewId(e: Event): set<string> {
    if e.Ask? && Grants(e.req) then {e.req.id} else {}
  }

  function Drawn(used: set<string>, events: seq<Event>): set<string> {
    if events == [] then used
    else Drawn(used, events[..|events| - 1]) + NewId(events[|events| - 1])
  }

  /** Every uuid is drawn once. */
  predicate AllNew(used: set<string>, events: seq<Event>) {
    events == [] ||
    var n := |events| - 1;
    && AllNew(used, events[..n])
    && NewId(events[n]) !! Drawn(used, events[..n])
  }

  lemma {:induction false} AllNewPrefix(used: set<string>, events: seq<Event>, n: nat)
    requires AllNew(used, events) && n <= |events|
    ensures AllNew(used, events[..n])
    decreases |events|
  {
    if n < |events| {
      var m := |events| - 1;
      AllNewPrefix(used, events[..m], n);
      assert events[..m][..n] == events[..n];
    } else {
      assert events[..n] == events;
    }
  }

  lemma AnswerDraws(cfg: Config, s: Sessions, req: Request)
    ensures Answer(cfg, s, req).0.used == s.used + if Grants(req) then {req.id} else {}
    ensures Answer(cfg, s, req).0.now == s.now
  {
  }

  lemma {:induction false} AfterAllDraws(cfg: Config, s: Sessions, events: seq<Event>)
    ensures AfterAll(cfg, s, events).used == Drawn(s.used, events)
    decreases |events|
  {
    if events != [] {
      var n := |events| - 1;
      AfterAllDraws(cfg, s, events[..n]);
      if events[n].Ask? { AnswerDraws(cfg, AfterAll(cfg, s, events[..n]), events[n].req); }
    }
  }

  /** What an observer writes down: when each request was made and how it was answered. */
  datatype Entry = Entry(at: int, req: Request, reply: Reply)

  function Note(cfg: Config, s: Sessions, e: Event): seq<Entry> {
    if e.Ask? then [Entry(s.now, e.req, Answer(cfg, s, e.req).1)] else []
  }

  function Journal(cfg: Config, s: Sessions, events: seq<Event>): seq<Entry> {
    if events == [] then []
    else
      var n := |events| - 1;
      Journal(cfg, s, events[..n]) + Note(cfg, AfterAll(cfg, s, events[..n]), events[n])
  }

  lemma OneMoreEvent(cfg: Config, s: Sessions, events: seq<Event>, i: nat)
    requires i < |events| && AllNew(s.used, events)
    ensures var now := AfterAll(cfg, s, events[..i]);
            && AfterAll(cfg, s, events[..i + 1]) == After(cfg, now, events[i])
            && Journal(cfg, s, events[..i + 1]) == Journal(cfg, s, events[..i]) + Note(cfg, now, events[i])
    ensures var drawn := Drawn(s.used, events[..i]);
            && Drawn(s.used, events[..i + 1]) == drawn + NewId(events[i])
            && NewId(events[i]) !! drawn
  {
    var done := events[..i + 1];
    assert done[..i] == events[..i] && done[i] == events[i];
    AllNewPrefix(s.used, events, i + 1);
  }

  function Fresh(now: int): Sessions {
    Sessions(now, map[], {})
  }
}
