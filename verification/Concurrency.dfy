/** The guarantees that hold of every interleaving and every pattern of store errors. */
module Concurrency {
  import opened Common
  import opened RedisStore
  import opened Handlers
  import opened Interleaving
  import opened WorldInvariant

  ghost predicate Reachable(cfg: Config, w: World) {
    exists now, acts :: Runs(cfg, Init(now), acts) && Run(cfg, Init(now), acts) == w
  }

  lemma ReachableInv(cfg: Config, w: World)
    requires Reachable(cfg, w)
    ensures Inv(w, cfg)
  {
    var now, acts :| Runs(cfg, Init(now), acts) && Run(cfg, Init(now), acts) == w;
    RunKeepsInv(cfg, Init(now), acts);
  }

  lemma StepReachable(cfg: Config, w: World, a: Action)
    requires Reachable(cfg, w) && Enabled(cfg, w, a)
    ensures Reachable(cfg, Step(cfg, w, a))
  {
    var now, past :| Runs(cfg, Init(now), past) && Run(cfg, Init(now), past) == w;
    RunSnoc(cfg, Init(now), past, a);
  }

  lemma {:induction false} ReachableOn(cfg: Config, w: World, acts: seq<Action>)
    requires Reachable(cfg, w) && Runs(cfg, w, acts)
    ensures Reachable(cfg, Run(cfg, w, acts))
    decreases |acts|
  {
    if acts != [] {
      var n := |acts| - 1;
      ReachableOn(cfg, w, acts[..n]);
      StepReachable(cfg, Run(cfg, w, acts[..n]), acts[n]);
    }
  }

  // What a continuation cannot undo.

  /** Requests keep what they were asked and what they saw at the start; answers are final. */
  lemma {:induction false} ProcsPersist(cfg: Config, w: World, acts: seq<Action>, p: nat)
    requires Runs(cfg, w, acts) && p < |w.procs|
    ensures var w' := Run(cfg, w, acts);
            && |w.procs| <= |w'.procs|
            && w'.procs[p].req == w.procs[p].req
            && w'.procs[p].before == w.procs[p].before
            && w'.procs[p].gone == w.procs[p].gone
            && (w.procs[p].pc.Replied? ==> w'.procs[p].pc == w.procs[p].pc)
    decreases |acts|
  {
    if acts != [] { ProcsPersist(cfg, w, acts[..|acts| - 1], p); }
  }

  lemma StepHistory(cfg: Config, w: World, a: Action)
    requires Inv(w, cfg) && Enabled(cfg, w, a) && IdsOk(Step(cfg, w, a))
    ensures exists own :: Follows(w, Step(cfg, w, a), own)
  {
    match a
    case Advance(p, fault, order) => AdvanceFollows(cfg, w, p, fault, order);
    case Start(req) => StartFollows(cfg, w, req);
    case Tick(seconds) => TickFollows(cfg, w, seconds);
  }

  /** Keys keep their owner, stay issued, and never rise from the dead. */
  lemma {:induction false} HistoryPersists(cfg: Config, w: World, acts: seq<Action>, k: Key)
    requires Inv(w, cfg) && Runs(cfg, w, acts)
    ensures var w' := Run(cfg, w, acts);
            && (k in w.owner ==> k in w'.owner && w'.owner[k] == w.owner[k])
            && (k in w.issued ==> k in w'.issued)
            && (Dead(w, k) ==> Dead(w', k))
    decreases |acts|
  {
    if acts != [] {
      var n := |acts| - 1;
      var v := Run(cfg, w, acts[..n]);
      HistoryPersists(cfg, w, acts[..n], k);
      RunKeepsInv(cfg, w, acts[..n]);
      StepKeepsInv(cfg, v, acts[n]);
      StepHistory(cfg, v, acts[n]);
      var own :| Follows(v, Step(cfg, v, acts[n]), own);
    }
  }

  // Coverage: the index is complete for what was handed out.

  /** A token or pad answered with 200 was drawn for the requester, and for as long as it
      lives it is in that user's index and in nobody else's, and its hash tells the requester,
      where the request came from and, of a pad, where it leads. */
  lemma IssuedLiveKeysAreIndexed(cfg: Config, w: World, p: nat)
    requires Reachable(cfg, w) && p < |w.procs|
    requires Grants(w.procs[p].req) && w.procs[p].pc.Replied? && w.procs[p].pc.reply.code == OK
    requires Live(w.store, GrantKey(w.procs[p].req))
    ensures forall u :: GrantKey(w.procs[p].req) in Members(w.store, u) <==> u == w.procs[p].req.uid
    ensures OwnerOf(w.store, GrantKey(w.procs[p].req)) == Some(w.procs[p].req.uid)
    ensures match w.procs[p].req
            case LoginReq(uid, remote, id) =>
              FieldsOf(w.store, Token(id)) == map[UserId := uid, Remote := remote] && w.procs[p].pc.reply.value == id
            case OtpReq(uid, remote, redirect, id) =>
              FieldsOf(w.store, Pad(id)) == map[UserId := uid, Remote := remote, Redirect := redirect]
              && w.procs[p].pc.reply.value == id
            case _ => true
  {
    ReachableInv(cfg, w);
    assert ProcOk(w, cfg, w.procs[p]);
  }

  /** A live token has exactly the fields userid and remote, a pad redirect as well, and userid is
      the user it was drawn for. So the HDEL Logout sends kills a token, and the one clearTokens
      sends kills any key: neither can leave a stump of the hash behind. */
  lemma LiveHashesAreWhole(cfg: Config, w: World, k: Key)
    requires Reachable(cfg, w) && Live(w.store, k)
    ensures FieldsOf(w.store, k).Keys == if k.Token? then {UserId, Remote} else {UserId, Remote, Redirect}
    ensures k in w.owner && OwnerOf(w.store, k) == Some(w.owner[k])
    ensures k.Token? ==> !Live(Effect(w.store, HDel(k, {UserId, Remote})), k)
    ensures !Live(Effect(w.store, HDel(k, {UserId, Remote, Redirect})), k)
  {
    ReachableInv(cfg, w);
    HDelKills(w.store, k, {UserId, Remote, Redirect});
    if k.Token? { HDelKills(w.store, k, {UserId, Remote}); }
  }

  /** OTP's "no row was updated" branch is dead code: its SADD, when it works, always adds. */
  lemma PadIsNewToItsIndex(cfg: Config, w: World, p: nat, order: seq<Key>)
    requires Reachable(cfg, w) && Running(w, p) && w.procs[p].pc.Indexing?
    ensures AdvancePc(cfg, w, p, Fine, order) == Replied(Reply(OK, w.procs[p].req.id))
  {
    ReachableInv(cfg, w);
    assert ProcOk(w, cfg, w.procs[p]);
  }

  /** A failing command ends its request with 500. The answer carries nothing, but for two
      operations: LoginOTP still names a location, the root, and OTP gives the error's text for a
      pad if checkCount had let it pass. */
  lemma FaultsAreAnswered(cfg: Config, w: World, p: nat, applied: bool, msg: string, order: seq<Key>)
    requires Running(w, p)
    ensures var x := w.procs[p];
            AdvancePc(cfg, w, p, Lost(applied, msg), order) ==
            Replied(Reply(INTERNAL_SERVER_ERROR,
                          match x.req
                          case LoginOtpReq(_) => "/"
                          case OtpReq(_, _, _, _) =>
                            if Pending(cfg, w, p).SMembers? || Pending(cfg, w, p).Exists? || Pending(cfg, w, p).SRem? then "" else msg
                          case _ => ""))
  {
  }

  // CompleteOTP: one-time pads and the complete sweep.

  /** req starts in w, acts follow, and in w' it has been answered. */
  ghost predicate Answers(cfg: Config, w: World, req: Request, acts: seq<Action>, w': World) {
    && Enabled(cfg, w, Start(req)) && Runs(cfg, StartStep(w, req), acts)
    && w' == Run(cfg, StartStep(w, req), acts)
    && |w.procs| < |w'.procs| && w'.procs[|w.procs|].pc.Replied?
  }

  function ReplyIn(w: World, w': World): Reply
    requires |w.procs| < |w'.procs| && w'.procs[|w.procs|].pc.Replied?
  {
    w'.procs[|w.procs|].pc.reply
  }

  /** A CompleteOTP on the pad, started in w, has answered 200 by w'. */
  ghost predicate Completes(cfg: Config, w: World, pad: string, acts: seq<Action>, w': World) {
    Answers(cfg, w, CompleteOtpReq(pad), acts, w') && ReplyIn(w, w').code == OK
  }

  lemma OnRecordMeans(cfg: Config, w: World, k: Key)
    requires Inv(w, cfg)
    ensures k in OnRecord(w) <==> k in w.issued || Indexed(w, k)
  {
  }

  /** An answered request has kept what it saw at the start, and so have the keys. */
  lemma AnswerRemembers(cfg: Config, w: World, req: Request, acts: seq<Action>, w': World, k: Key)
    requires Inv(w, cfg) && Answers(cfg, w, req, acts, w') && !Grants(req)
    ensures Inv(w', cfg)
    ensures w'.procs[|w.procs|].req == req && w'.procs[|w.procs|].before == OnRecord(w)
    ensures k in w.owner ==> k in w'.owner && w'.owner[k] == w.owner[k]
  {
    StartKeepsInv(cfg, w, req);
    RunKeepsInv(cfg, StartStep(w, req), acts);
    ProcsPersist(cfg, StartStep(w, req), acts, |w.procs|);
    HistoryPersists(cfg, StartStep(w, req), acts, k);
  }

  /** What the request knows once it has answered. */
  lemma CompletionKnows(cfg: Config, w: World, pad: string, acts: seq<Action>, w': World, k: Key)
    requires Reachable(cfg, w) && Completes(cfg, w, pad, acts, w')
    requires k in w.issued || Indexed(w, k)
    ensures Inv(w', cfg) && k in w.owner
    ensures w.owner[k] == ReplyIn(w, w').value ==> Dead(w', k)
    ensures k == Pad(pad) ==> w.owner[k] == ReplyIn(w, w').value
  {
    ReachableInv(cfg, w);
    OnRecordMeans(cfg, w, k);
    AnswerRemembers(cfg, w, CompleteOtpReq(pad), acts, w', k);
    assert ProcOk(w', cfg, w'.procs[|w.procs|]);
  }

  /** Whatever else was running, when CompleteOTP answers 200 for uid every key of uid issued
      before the call began, or in an index by then, is dead, and stays dead in every
      continuation. */
  lemma CompleteOtpSweepsAll(cfg: Config, w: World, pad: string, acts: seq<Action>, w': World, more: seq<Action>, k: Key)
    requires Reachable(cfg, w) && Completes(cfg, w, pad, acts, w') && Runs(cfg, w', more)
    requires k in w.issued || Indexed(w, k)
    requires k in w.owner && w.owner[k] == ReplyIn(w, w').value
    ensures Dead(Run(cfg, w', more), k)
  {
    CompletionKnows(cfg, w, pad, acts, w', k);
    HistoryPersists(cfg, w', more, k);
  }

  /** The user CompleteOTP answers with is the one the pad was issued to, and the pad itself is
      among the keys that are dead from then on. */
  lemma CompletedPadIsDead(cfg: Config, w: World, pad: string, acts: seq<Action>, w': World, more: seq<Action>)
    requires Reachable(cfg, w) && (Pad(pad) in w.issued || Indexed(w, Pad(pad)))
    requires Completes(cfg, w, pad, acts, w') && Runs(cfg, w', more)
    ensures Pad(pad) in w.owner && ReplyIn(w, w').value == w.owner[Pad(pad)]
    ensures Dead(Run(cfg, w', more), Pad(pad))
  {
    CompletionKnows(cfg, w, pad, acts, w', Pad(pad));
    HistoryPersists(cfg, w', more, Pad(pad));
  }

  /** A request that starts on a dead key fails: a pad with 500, a token with 307 (500 when the
      store fails). */
  lemma DeadKeysAreRefused(cfg: Config, w: World, req: Request, acts: seq<Action>)
    requires Reachable(cfg, w) && !Grants(req)
    requires Dead(w, if req.ValidReq? || req.LogoutReq? then Token(req.token) else Pad(req.pad))
    requires Runs(cfg, StartStep(w, req), acts)
    ensures var w' := Run(cfg, StartStep(w, req), acts);
            && |w'.procs| > |w.procs|
            && (w'.procs[|w.procs|].pc.Replied? ==>
                  if req.ValidReq? || req.LogoutReq?
                  then w'.procs[|w.procs|].pc.reply.code in {TEMPORARY_REDIRECT, INTERNAL_SERVER_ERROR}
                  else w'.procs[|w.procs|].pc.reply.code == INTERNAL_SERVER_ERROR)
  {
    ReachableInv(cfg, w);
    var w0, p := StartStep(w, req), |w.procs|;
    StartKeepsInv(cfg, w, req);
    RunKeepsInv(cfg, w0, acts);
    ProcsPersist(cfg, w0, acts, p);
    var w' := Run(cfg, w0, acts);
    assert ProcOk(w', cfg, w'.procs[p]);
  }

  predicate Uses(req: Request, pad: string) {
    req == LoginOtpReq(pad) || req == CompleteOtpReq(pad)
  }

  /** After any further steps a LoginOTP or CompleteOTP on the pad may start, and anything may
      run beside it; its answer can only be a 500. */
  ghost predicate Spent(cfg: Config, w: World, pad: string) {
    forall more, again, rest, v ::
      Runs(cfg, w, more) && Uses(again, pad) && Answers(cfg, Run(cfg, w, more), again, rest, v) ==>
        ReplyIn(Run(cfg, w, more), v).code == INTERNAL_SERVER_ERROR
  }

  lemma DeadPadIsSpent(cfg: Config, w: World, pad: string)
    requires Reachable(cfg, w) && Dead(w, Pad(pad))
    ensures Spent(cfg, w, pad)
  {
    ReachableInv(cfg, w);
    forall more, again, rest, v |
      Runs(cfg, w, more) && Uses(again, pad) && Answers(cfg, Run(cfg, w, more), again, rest, v)
      ensures ReplyIn(Run(cfg, w, more), v).code == INTERNAL_SERVER_ERROR
    {
      HistoryPersists(cfg, w, more, Pad(pad));
      ReachableOn(cfg, w, more);
      DeadKeysAreRefused(cfg, Run(cfg, w, more), again, rest);
    }
  }

  lemma AnswersReachable(cfg: Config, w: World, req: Request, acts: seq<Action>, w': World)
    requires Reachable(cfg, w) && Answers(cfg, w, req, acts, w')
    ensures Reachable(cfg, w')
  {
    StepReachable(cfg, w, Start(req));
    ReachableOn(cfg, StartStep(w, req), acts);
  }

  /** One-time pads. If CompleteOTP starts on a pad that was issued, or that some index names,
      and answers 200, the pad is spent. */
  lemma PadsWorkOnce(cfg: Config, w: World, pad: string, acts: seq<Action>, w': World)
    requires Reachable(cfg, w) && (Pad(pad) in w.issued || Indexed(w, Pad(pad)))
    requires Completes(cfg, w, pad, acts, w')
    ensures Spent(cfg, w', pad)
  {
    AnswersReachable(cfg, w, CompleteOtpReq(pad), acts, w');
    CompletionKnows(cfg, w, pad, acts, w', Pad(pad));
    DeadPadIsSpent(cfg, w', pad);
  }

  /** Logout is final: once it answers 204, every Valid or Logout of that token that starts
      later is refused, whatever runs beside it. */
  lemma LogoutIsFinal(cfg: Config, w: World, p: nat, more: seq<Action>, again: Request, rest: seq<Action>)
    requires Reachable(cfg, w) && p < |w.procs| && w.procs[p].req.LogoutReq?
    requires w.procs[p].pc.Replied? && w.procs[p].pc.reply.code == NO_CONTENT
    requires again == ValidReq(w.procs[p].req.token) || again == LogoutReq(w.procs[p].req.token)
    requires Runs(cfg, w, more) && Runs(cfg, StartStep(Run(cfg, w, more), again), rest)
    ensures var w2 := Run(cfg, w, more);
            var w3 := Run(cfg, StartStep(w2, again), rest);
            && |w3.procs| > |w2.procs|
            && (w3.procs[|w2.procs|].pc.Replied? ==>
                  w3.procs[|w2.procs|].pc.reply.code in {TEMPORARY_REDIRECT, INTERNAL_SERVER_ERROR})
  {
    ReachableInv(cfg, w);
    assert ProcOk(w, cfg, w.procs[p]);
    HistoryPersists(cfg, w, more, Token(w.procs[p].req.token));
    ReachableOn(cfg, w, more);
    DeadKeysAreRefused(cfg, Run(cfg, w, more), again, rest);
  }
}
