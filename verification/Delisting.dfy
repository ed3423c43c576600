/** What leaves an index stays out of it: a Logout or CompleteOTP that succeeds has also taken
    its keys out of their user's index, for good. */
module Delisting {
  import opened Common
  import opened RedisStore
  import opened Handlers
  import opened Interleaving
  import opened WorldInvariant
  import opened Concurrency

  /** The key was made, and the request that made it, the only one that could index it, is over. */
  predicate Settled(w: World, k: Key) {
    && k in w.made
    && forall i :: 0 <= i < |w.procs| && Grants(w.procs[i].req) && GrantKey(w.procs[i].req) == k ==> w.procs[i].pc.Replied?
  }

  lemma OnRecordIsSettled(cfg: Config, w: World, k: Key)
    requires Inv(w, cfg) && (k in w.issued || Indexed(w, k))
    ensures Settled(w, k)
  {
    forall i | 0 <= i < |w.procs| && Grants(w.procs[i].req) && GrantKey(w.procs[i].req) == k
      ensures w.procs[i].pc.Replied?
    {
      assert ProcOk(w, cfg, w.procs[i]);
    }
  }

  lemma SettledStays(cfg: Config, w: World, a: Action, k: Key)
    requires Inv(w, cfg) && Enabled(cfg, w, a) && Settled(w, k)
    ensures Settled(Step(cfg, w, a), k)
  {
    assert k.id in w.used;
  }

  /** Nobody puts a settled key into an index. */
  lemma IndexOnlyLoses(cfg: Config, w: World, a: Action, u: Uid, k: Key)
    requires Inv(w, cfg) && Enabled(cfg, w, a) && Settled(w, k)
    requires k in Members(Step(cfg, w, a).store, u)
    ensures k in Members(w.store, u)
  {
    if a.Advance? {
      SetsChangeByName(w.store, Pending(cfg, w, a.p), a.fault, a.order, u, k);
    }
  }

  lemma {:induction false} DelistedStays(cfg: Config, w: World, acts: seq<Action>, k: Key)
    requires Inv(w, cfg) && Runs(cfg, w, acts) && Settled(w, k) && !Indexed(w, k)
    ensures Settled(Run(cfg, w, acts), k) && !Indexed(Run(cfg, w, acts), k)
    decreases |acts|
  {
    if acts != [] {
      var n := |acts| - 1;
      var v := Run(cfg, w, acts[..n]);
      DelistedStays(cfg, w, acts[..n], k);
      RunKeepsInv(cfg, w, acts[..n]);
      SettledStays(cfg, v, acts[n], k);
      forall u ensures k !in Members(Run(cfg, w, acts).store, u) {
        if k in Members(Run(cfg, w, acts).store, u) { IndexOnlyLoses(cfg, v, acts[n], u, k); }
      }
    }
  }

  /** How far request p has come in taking k out of its user's index. */
  ghost predicate Delists(w: World, p: nat, k: Key) {
    && p < |w.procs| && Settled(w, k) && k in w.owner
    && match w.procs[p].pc
       case Dropping(uid) => uid == w.owner[k]
       case Unlisting(uid) => uid == w.owner[k]
       case Clearing(uid, listing, _) => uid == w.owner[k] ==> k in listing || !Indexed(w, k)
       case Sweeping(uid, listing) => uid == w.owner[k] ==> k in listing || !Indexed(w, k)
       case Replied(reply) =>
         && (w.procs[p].req.LogoutReq? && reply.code == NO_CONTENT ==> !Indexed(w, k))
         && (w.procs[p].req.CompleteOtpReq? && reply == Reply(OK, w.owner[k]) ==> !Indexed(w, k))
       case _ => true
  }

  /** k is the token of the Logout, or any key if p is a CompleteOTP. */
  predicate Concerns(req: Request, k: Key) {
    (req.LogoutReq? && k == Token(req.token)) || req.CompleteOtpReq?
  }

  lemma OthersKeepDelisting(cfg: Config, w: World, a: Action, p: nat, k: Key)
    requires Inv(w, cfg) && Enabled(cfg, w, a) && Delists(w, p, k)
    requires a.Advance? ==> a.p != p
    ensures Delists(Step(cfg, w, a), p, k)
  {
    var w' := Step(cfg, w, a);
    SettledStays(cfg, w, a, k);
    assert w'.procs[p] == w.procs[p];
    forall u | k in Members(w'.store, u) ensures k in Members(w.store, u) {
      IndexOnlyLoses(cfg, w, a, u, k);
    }
  }

  lemma OwnStepDelists(cfg: Config, w: World, a: Action, p: nat, k: Key)
    requires Inv(w, cfg) && Enabled(cfg, w, a) && Delists(w, p, k)
    requires a.Advance? && a.p == p && Concerns(w.procs[p].req, k)
    ensures Delists(Step(cfg, w, a), p, k)
  {
    var w' := Step(cfg, w, a);
    SettledStays(cfg, w, a, k);
    forall u | k in Members(w'.store, u) ensures k in Members(w.store, u) && u == w.owner[k] {
      IndexOnlyLoses(cfg, w, a, u, k);
    }
    if w.procs[p].pc.Enumerating? { assert k in Elements(a.order) <==> k in a.order; }
  }

  lemma {:induction false} RunDelists(cfg: Config, w: World, acts: seq<Action>, p: nat, k: Key)
    requires Inv(w, cfg) && Runs(cfg, w, acts) && Delists(w, p, k) && Concerns(w.procs[p].req, k)
    ensures Delists(Run(cfg, w, acts), p, k)
    decreases |acts|
  {
    if acts != [] {
      var n := |acts| - 1;
      var v := Run(cfg, w, acts[..n]);
      RunDelists(cfg, w, acts[..n], p, k);
      RunKeepsInv(cfg, w, acts[..n]);
      ProcsPersist(cfg, w, acts[..n], p);
      if acts[n].Advance? && acts[n].p == p {
        OwnStepDelists(cfg, v, acts[n], p, k);
      } else {
        OthersKeepDelisting(cfg, v, acts[n], p, k);
      }
    }
  }

  lemma AnswerDelists(cfg: Config, w: World, req: Request, acts: seq<Action>, w': World, k: Key)
    requires Reachable(cfg, w) && (k in w.issued || Indexed(w, k)) && Concerns(req, k)
    requires Answers(cfg, w, req, acts, w')
    ensures Inv(w', cfg) && Delists(w', |w.procs|, k) && w'.procs[|w.procs|].req == req
    ensures k in w.owner && w'.owner[k] == w.owner[k]
  {
    ReachableInv(cfg, w);
    OnRecordIsSettled(cfg, w, k);
    StartKeepsInv(cfg, w, req);
    SettledStays(cfg, w, Start(req), k);
    RunDelists(cfg, StartStep(w, req), acts, |w.procs|, k);
    AnswerRemembers(cfg, w, req, acts, w', k);
  }

  /** Once Logout has answered 204 for a token that had been issued or indexed when it began, the
      token is in no index, in every continuation. */
  lemma LogoutDelists(cfg: Config, w: World, token: string, acts: seq<Action>, w': World, more: seq<Action>)
    requires Reachable(cfg, w) && (Token(token) in w.issued || Indexed(w, Token(token)))
    requires Answers(cfg, w, LogoutReq(token), acts, w') && ReplyIn(w, w').code == NO_CONTENT
    requires Runs(cfg, w', more)
    ensures forall u :: Token(token) !in Members(Run(cfg, w', more).store, u)
  {
    AnswerDelists(cfg, w, LogoutReq(token), acts, w', Token(token));
    DelistedStays(cfg, w', more, Token(token));
  }

  /** Once CompleteOTP has answered 200 for uid, no key of uid that had been issued or indexed when
      it began is in any index, in every continuation. */
  lemma CompletionDelists(cfg: Config, w: World, pad: string, acts: seq<Action>, w': World, more: seq<Action>, k: Key)
    requires Reachable(cfg, w) && Completes(cfg, w, pad, acts, w') && Runs(cfg, w', more)
    requires k in w.issued || Indexed(w, k)
    requires k in w.owner && w.owner[k] == ReplyIn(w, w').value
    ensures forall u :: k !in Members(Run(cfg, w', more).store, u)
  {
    AnswerDelists(cfg, w, CompleteOtpReq(pad), acts, w', k);
    DelistedStays(cfg, w', more, k);
  }
}
