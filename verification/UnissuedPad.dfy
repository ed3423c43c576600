/** Why PadsWorkOnce speaks of pads that were issued or are in an index: a pad whose SADD failed is alive but in no index, so
    a CompleteOTP on it answers 200 and leaves it alive. Its OTP answered 500 with an error text,
    so nobody was told the pad. */
module UnissuedPad {
  import opened Common
  import opened RedisStore
  import opened Handlers
  import opened Interleaving
  import opened Concurrency

  /** The pad is alive with these fields and uid's index is empty. */
  ghost predicate Stray(w: World, uid: Uid, redirect: string, id: string) {
    && Live(w.store, Pad(id)) && Members(w.store, uid) == {}
    && w.store.hashes[Pad(id)].fields == map[UserId := uid, Remote := "", Redirect := redirect]
  }

  /** One request has come to pc, no index has a member, and the pad's hash is as given. */
  ghost predicate Making(cfg: Config, w: World, req: Request, pc: Pc, hash: Option<Hash>) {
    && Reachable(cfg, w) && req.OtpReq?
    && |w.procs| == 1 && w.procs[0].req == req && w.procs[0].pc == pc
    && w.store.now == 0 && w.store.logins == map[]
    && w.store.hashes == if hash.Some? then map[GrantKey(req) := hash.value] else map[]
  }

  lemma Arrive(cfg: Config, req: Request) returns (w: World)
    requires req.OtpReq?
    ensures Making(cfg, w, req, Counting, None)
  {
    assert Runs(cfg, Init(0), []) && Run(cfg, Init(0), []) == Init(0);
    w := StartStep(Init(0), req);
    StepReachable(cfg, Init(0), Start(req));
  }

  lemma PassCount(cfg: Config, w: World, req: Request) returns (w': World)
    requires cfg.maxLogins >= 1 && Making(cfg, w, req, Counting, None)
    ensures Making(cfg, w', req, Storing, None)
  {
    w' := AdvanceStep(cfg, w, 0, Fine, []);
    StepReachable(cfg, w, Advance(0, Fine, []));
  }

  lemma StoreHash(cfg: Config, w: World, req: Request) returns (w': World)
    requires Making(cfg, w, req, Storing, None)
    ensures Making(cfg, w', req, Expiring, Some(Hash(GrantFields(req), None)))
  {
    w' := AdvanceStep(cfg, w, 0, Fine, []);
    StepReachable(cfg, w, Advance(0, Fine, []));
  }

  lemma SetDeadline(cfg: Config, w: World, req: Request) returns (w': World)
    requires req.OtpReq? && Making(cfg, w, req, Expiring, Some(Hash(GrantFields(req), None)))
    ensures Making(cfg, w', req, Indexing, Some(Hash(GrantFields(req), Some(PAD_TTL))))
  {
    w' := AdvanceStep(cfg, w, 0, Fine, []);
    StepReachable(cfg, w, Advance(0, Fine, []));
  }

  lemma FailToIndex(cfg: Config, w: World, req: Request) returns (w': World)
    requires req.OtpReq? && Making(cfg, w, req, Indexing, Some(Hash(GrantFields(req), Some(PAD_TTL))))
    ensures Making(cfg, w', req, Refused(INTERNAL_SERVER_ERROR), Some(Hash(GrantFields(req), Some(PAD_TTL))))
  {
    w' := AdvanceStep(cfg, w, 0, Lost(false, ""), []);
    StepReachable(cfg, w, Advance(0, Lost(false, ""), []));
  }

  lemma StrayPadExists(cfg: Config, uid: Uid, redirect: string, id: string) returns (w: World)
    requires cfg.maxLogins >= 1
    ensures Reachable(cfg, w) && Stray(w, uid, redirect, id)
    ensures |w.procs| == 1 && w.procs[0].pc == Refused(INTERNAL_SERVER_ERROR)
  {
    var req := OtpReq(uid, "", redirect, id);
    w := Arrive(cfg, req);
    w := PassCount(cfg, w, req);
    w := StoreHash(cfg, w, req);
    w := SetDeadline(cfg, w, req);
    w := FailToIndex(cfg, w, req);
  }

  /** CompleteOTP finds the pad, then an empty index, and is satisfied. */
  lemma CompleteStray(cfg: Config, w: World, uid: Uid, redirect: string, id: string) returns (w': World)
    requires Reachable(cfg, w) && Stray(w, uid, redirect, id) && |w.procs| == 1 && uid != ""
    ensures Reachable(cfg, w') && Stray(w', uid, redirect, id)
    ensures |w'.procs| == 2 && w'.procs[1].req == CompleteOtpReq(id) && w'.procs[1].pc == Replied(Reply(OK, uid))
  {
    var w1 := StartStep(w, CompleteOtpReq(id));
    StepReachable(cfg, w, Start(CompleteOtpReq(id)));
    var w2 := FetchStray(cfg, w1, uid, redirect, id);
    w' := AdvanceStep(cfg, w2, 1, Fine, []);
    StepReachable(cfg, w2, Advance(1, Fine, []));
  }

  lemma FetchStray(cfg: Config, w: World, uid: Uid, redirect: string, id: string) returns (w': World)
    requires Reachable(cfg, w) && Stray(w, uid, redirect, id) && uid != ""
    requires |w.procs| == 2 && w.procs[1].req == CompleteOtpReq(id) && w.procs[1].pc == Fetching
    ensures Reachable(cfg, w') && Stray(w', uid, redirect, id)
    ensures |w'.procs| == 2 && w'.procs[1].req == CompleteOtpReq(id) && w'.procs[1].pc == Enumerating(uid)
  {
    w' := AdvanceStep(cfg, w, 1, Fine, []);
    StepReachable(cfg, w, Advance(1, Fine, []));
  }

  lemma RedirectStray(cfg: Config, w: World, uid: Uid, redirect: string, id: string)
    requires Stray(w, uid, redirect, id) && |w.procs| == 2 && uid != "" && redirect != ""
    ensures exists acts ::
              && Runs(cfg, StartStep(w, LoginOtpReq(id)), acts)
              && var w' := Run(cfg, StartStep(w, LoginOtpReq(id)), acts);
              && |w'.procs| == 3 && w'.procs[2].pc == Replied(Reply(FOUND, redirect))
  {
    var w1, a := StartStep(w, LoginOtpReq(id)), Advance(2, Fine, []);
    RunSnoc(cfg, w1, [], a);
    assert Run(cfg, w1, [] + [a]).procs[2].pc == Replied(Reply(FOUND, redirect));
  }

  /** For every named user, every redirect and every id there is a run in which CompleteOTP on
      the pad answers 200 for that user and a LoginOTP started afterwards still redirects. */
  lemma StrayPadSurvivesCompletion(cfg: Config, uid: Uid, redirect: string, id: string)
    requires cfg.maxLogins >= 1 && uid != "" && redirect != ""
    ensures exists w: World, acts ::
              && Reachable(cfg, w) && |w.procs| == 2
              && w.procs[1].req == CompleteOtpReq(id) && w.procs[1].pc == Replied(Reply(OK, uid))
              && Runs(cfg, StartStep(w, LoginOtpReq(id)), acts)
              && var w' := Run(cfg, StartStep(w, LoginOtpReq(id)), acts);
              && |w'.procs| == 3 && w'.procs[2].pc == Replied(Reply(FOUND, redirect))
  {
    var stray := StrayPadExists(cfg, uid, redirect, id);
    var w := CompleteStray(cfg, stray, uid, redirect, id);
    RedirectStray(cfg, w, uid, redirect, id);
  }
}
