/** Exactly when a completed pad is spent. PadsWorkOnce asks for a pad that was issued or is in
    an index; for any other pad whose OTP is over, one-time use is false. */
module PadLifetime {
  import opened Common
  import opened RedisStore
  import opened Handlers
  import opened Interleaving
  import opened WorldInvariant
  import opened Concurrency
  import opened Delisting

  predicate PastDeadline(h: Hash, now: int) {
    h.deadline.Some? && h.deadline.value <= now
  }

  /** The pad has this hash and no index leads to it. */
  ghost predicate Astray(w: World, pad: string, h: Hash) {
    && Settled(w, Pad(pad)) && !Indexed(w, Pad(pad))
    && Pad(pad) in w.store.hashes && w.store.hashes[Pad(pad)] == h
  }

  /** Only these commands touch the hash of k. */
  predicate Touches(s: Store, cmd: Command, k: Key) {
    ((cmd.HSet? || cmd.Expire?) && cmd.key == k) || (cmd.HDel? && cmd.key == k && Live(s, k))
  }

  lemma UntouchedHash(s: Store, cmd: Command, fault: Fault, order: seq<Key>, k: Key)
    requires !Touches(s, cmd, k) && k in s.hashes
    ensures var s' := Execute(s, cmd, fault, order).0; k in s'.hashes && s'.hashes[k] == s.hashes[k]
  {
    ExecuteIsEffectOrNothing(s, cmd, fault, order);
    match cmd
    case HSet(_, _) =>
    case Expire(_, _) =>
    case HDel(_, _) =>
    case _ => assert Effect(s, cmd).hashes == s.hashes;
  }

  /** No request finds its way to the pad: those that go through an index miss it, and those
      that name it do not change it. */
  lemma NobodyTouches(cfg: Config, w: World, p: nat, pad: string, h: Hash)
    requires Inv(w, cfg) && Running(w, p) && Astray(w, pad, h)
    ensures !Touches(w.store, Pending(cfg, w, p), Pad(pad))
    ensures !(Pending(cfg, w, p).SAdd? && Pending(cfg, w, p).key == Pad(pad))
  {
    var x := w.procs[p];
    assert ProcOk(w, cfg, x);
    if x.pc.Clearing? {
      assert x.pc.listing[x.pc.next] in x.pc.listing;
    }
  }

  lemma AdvanceKeepsAstray(cfg: Config, w: World, p: nat, fault: Fault, order: seq<Key>, pad: string, h: Hash)
    requires Inv(w, cfg) && Enabled(cfg, w, Advance(p, fault, order)) && Astray(w, pad, h)
    ensures Astray(AdvanceStep(cfg, w, p, fault, order), pad, h)
  {
    var w', cmd := AdvanceStep(cfg, w, p, fault, order), Pending(cfg, w, p);
    NobodyTouches(cfg, w, p, pad, h);
    UntouchedHash(w.store, cmd, fault, order, Pad(pad));
    forall u ensures Pad(pad) !in Members(w'.store, u) {
      SetsChangeByName(w.store, cmd, fault, order, u, Pad(pad));
    }
  }

  lemma StepKeepsAstray(cfg: Config, w: World, a: Action, pad: string, h: Hash)
    requires Inv(w, cfg) && Enabled(cfg, w, a) && Astray(w, pad, h)
    ensures Astray(Step(cfg, w, a), pad, h)
  {
    match a
    case Start(req) => assert Pad(pad).id in w.used;
    case Advance(p, fault, order) => AdvanceKeepsAstray(cfg, w, p, fault, order, pad, h);
    case Tick(seconds) => assert forall u :: Members(Later(w.store, seconds), u) == Members(w.store, u);
  }

  lemma {:induction false} RunKeepsAstray(cfg: Config, w: World, acts: seq<Action>, pad: string, h: Hash)
    requires Inv(w, cfg) && Runs(cfg, w, acts) && Astray(w, pad, h)
    ensures Astray(Run(cfg, w, acts), pad, h)
    decreases |acts|
  {
    if acts != [] {
      var n := |acts| - 1;
      RunKeepsAstray(cfg, w, acts[..n], pad, h);
      RunKeepsInv(cfg, w, acts[..n]);
      StepKeepsAstray(cfg, Run(cfg, w, acts[..n]), acts[n], pad, h);
    }
  }

  /** A live pad whose OTP is over outlives a CompleteOTP that answers 200 if and only if no index
      named it when the call began and its deadline has not come. */
  lemma CompletionKillsTheIndexed(cfg: Config, w: World, pad: string, acts: seq<Action>, w': World)
    requires Reachable(cfg, w) && Live(w.store, Pad(pad)) && Settled(w, Pad(pad))
    requires Completes(cfg, w, pad, acts, w')
    ensures Live(w'.store, Pad(pad)) <==>
              !Indexed(w, Pad(pad)) && !PastDeadline(w.store.hashes[Pad(pad)], w'.store.now)
    ensures Pad(pad) in w'.made
  {
    if Indexed(w, Pad(pad)) {
      CompletionKnows(cfg, w, pad, acts, w', Pad(pad));
    } else {
      ReachableInv(cfg, w);
      StartKeepsInv(cfg, w, CompleteOtpReq(pad));
      StepKeepsAstray(cfg, w, Start(CompleteOtpReq(pad)), pad, w.store.hashes[Pad(pad)]);
      RunKeepsAstray(cfg, StartStep(w, CompleteOtpReq(pad)), acts, pad, w.store.hashes[Pad(pad)]);
    }
  }

  /** A LoginOTP on a live pad redirects, or is refused for an empty user or redirect. */
  lemma FetchAnswers(cfg: Config, w: World, pad: string)
    requires Inv(w, cfg) && Live(w.store, Pad(pad))
    ensures var w1 := StartStep(w, LoginOtpReq(pad));
            var pc := AdvanceStep(cfg, w1, |w.procs|, Fine, []).procs[|w.procs|].pc;
            pc.Replied? && pc.reply.code in {FOUND, BAD_REQUEST}
  {
  }

  lemma FetchIsAnswered(cfg: Config, w: World, pad: string) returns (acts: seq<Action>, v: World)
    requires Inv(w, cfg) && Live(w.store, Pad(pad))
    ensures Answers(cfg, w, LoginOtpReq(pad), acts, v) && ReplyIn(w, v).code in {FOUND, BAD_REQUEST}
  {
    var w1, a := StartStep(w, LoginOtpReq(pad)), Advance(|w.procs|, Fine, []);
    FetchAnswers(cfg, w, pad);
    assert Run(cfg, w1, []) == w1 && Enabled(cfg, w1, a);
    RunSnoc(cfg, w1, [], a);
    acts, v := [] + [a], AdvanceStep(cfg, w1, |w.procs|, Fine, []);
  }

  lemma LivePadIsNotSpent(cfg: Config, w: World, pad: string)
    requires Reachable(cfg, w) && Live(w.store, Pad(pad))
    ensures !Spent(cfg, w, pad)
  {
    ReachableInv(cfg, w);
    var acts, v := FetchIsAnswered(cfg, w, pad);
    assert Run(cfg, w, []) == w;
    assert Answers(cfg, Run(cfg, w, []), LoginOtpReq(pad), acts, v);
  }

  /** One-time use, exactly. A live pad whose OTP is over is spent by a CompleteOTP that answers
      200 if and only if some index named it when the call began, or its deadline has come. */
  lemma PadsWorkOnceExactly(cfg: Config, w: World, pad: string, acts: seq<Action>, w': World)
    requires Reachable(cfg, w) && Live(w.store, Pad(pad)) && Settled(w, Pad(pad))
    requires Completes(cfg, w, pad, acts, w')
    ensures Spent(cfg, w', pad) <==>
              Indexed(w, Pad(pad)) || PastDeadline(w.store.hashes[Pad(pad)], w'.store.now)
  {
    CompletionKillsTheIndexed(cfg, w, pad, acts, w');
    AnswersReachable(cfg, w, CompleteOtpReq(pad), acts, w');
    if Live(w'.store, Pad(pad)) { LivePadIsNotSpent(cfg, w', pad); } else { DeadPadIsSpent(cfg, w', pad); }
  }
}
