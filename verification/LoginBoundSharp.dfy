/** The bound of LoginBound is exact: for every limit and every number of concurrent requests
    some run, with no errors at all, reaches it. */
module LoginBoundSharp {
  import opened Common
  import opened RedisStore
  import opened Handlers
  import opened Interleaving
  import opened WorldInvariant
  import opened LoginBound

  /** A run from the empty store with at most k requests for uid in progress at any moment. */
  ghost predicate Good(cfg: Config, acts: seq<Action>, uid: Uid, k: nat) {
    Runs(cfg, Init(0), acts) && AtMost(cfg, Init(0), acts, uid, k)
  }

  ghost function End(cfg: Config, acts: seq<Action>): World
    requires Runs(cfg, Init(0), acts)
  {
    Run(cfg, Init(0), acts)
  }

  lemma Extend(cfg: Config, acts: seq<Action>, a: Action, uid: Uid, k: nat)
    requires Good(cfg, acts, uid, k) && Enabled(cfg, End(cfg, acts), a)
    requires InFlight(Step(cfg, End(cfg, acts), a), uid) <= k
    ensures Good(cfg, acts + [a], uid, k)
    ensures End(cfg, acts + [a]) == Step(cfg, End(cfg, acts), a)
  {
    RunSnoc(cfg, Init(0), acts, a);
    assert (acts + [a])[..|acts + [a]| - 1] == acts;
  }

  lemma {:induction false} ListingExists(members: set<Key>) returns (keys: seq<Key>)
    ensures IsListing(keys, members)
    decreases |members|
  {
    if members == {} {
      keys := [];
    } else {
      var k :| k in members;
      var rest := ListingExists(members - {k});
      keys := rest + [k];
      assert Elements(keys) == Elements(rest) + {k};
      assert k !in Elements(rest);
    }
  }

  lemma {:induction false} UnusedId(used: set<string>) returns (id: string)
    ensures id !in used && forall u :: u in used ==> |u| < |id|
    decreases |used|
  {
    if used == {} {
      id := "a";
    } else {
      var u :| u in used;
      var v := UnusedId(used - {u});
      id := v + u + "a";
    }
  }

  ghost predicate Waiting(x: Proc, uid: Uid) {
    x.req.LoginReq? && x.req.uid == uid && x.pc.Storing?
  }

  /** One more Login starts. */
  lemma Arrive(cfg: Config, acts: seq<Action>, uid: Uid, k: nat) returns (acts': seq<Action>)
    requires Good(cfg, acts, uid, k) && InFlight(End(cfg, acts), uid) < k
    ensures Good(cfg, acts', uid, k)
    ensures var w, w' := End(cfg, acts), End(cfg, acts');
            && |w'.procs| == |w.procs| + 1 && w'.procs[..|w.procs|] == w.procs
            && w'.procs[|w.procs|].req.LoginReq? && w'.procs[|w.procs|].req.uid == uid
            && w'.procs[|w.procs|].pc == Counting
            && w'.store == w.store && InFlight(w', uid) == InFlight(w, uid) + 1
  {
    var w := End(cfg, acts);
    var id := UnusedId(w.used);
    var a := Start(LoginReq(uid, "", id));
    CountAppend(w.procs, Step(cfg, w, a).procs[|w.procs|], FlightOf(uid));
    Extend(cfg, acts, a, uid, k);
    acts' := acts + [a];
  }

  /** One more Login passes checkCount while there is room. */
  lemma Admit(cfg: Config, acts: seq<Action>, uid: Uid, k: nat) returns (acts': seq<Action>)
    requires Good(cfg, acts, uid, k)
    requires InFlight(End(cfg, acts), uid) < k
    requires |Members(End(cfg, acts).store, uid)| < cfg.maxLogins
    ensures Good(cfg, acts', uid, k)
    ensures var w, w' := End(cfg, acts), End(cfg, acts');
            && |w'.procs| == |w.procs| + 1 && w'.procs[..|w.procs|] == w.procs
            && Waiting(w'.procs[|w.procs|], uid)
            && w'.store == w.store && InFlight(w', uid) == InFlight(w, uid) + 1
  {
    var arrived := Arrive(cfg, acts, uid, k);
    var w, w1 := End(cfg, acts), End(cfg, arrived);
    var order := ListingExists(Members(w.store, uid));
    ListingSize(order, Members(w.store, uid));
    var b := Advance(|w.procs|, Fine, order);
    var w2 := Step(cfg, w1, b);
    CountUpdate(w1.procs, |w.procs|, w2.procs[|w.procs|], FlightOf(uid));
    Extend(cfg, arrived, b, uid, k);
    acts' := arrived + [b];
  }

  /** One command of request p, error-free. */
  lemma Go(cfg: Config, acts: seq<Action>, uid: Uid, k: nat, p: nat) returns (acts': seq<Action>)
    requires Good(cfg, acts, uid, k) && Running(End(cfg, acts), p)
    requires !Pending(cfg, End(cfg, acts), p).SMembers?
    ensures Good(cfg, acts', uid, k) && End(cfg, acts') == AdvanceStep(cfg, End(cfg, acts), p, Fine, [])
    ensures var w, w' := End(cfg, acts), End(cfg, acts');
            InFlight(w', uid) == InFlight(w, uid)
              - (if FlightOf(uid)(w.procs[p]) && !FlightOf(uid)(w'.procs[p]) then 1 else 0)
  {
    var w := End(cfg, acts);
    var a := Advance(p, Fine, []);
    CountUpdate(w.procs, p, Step(cfg, w, a).procs[p], FlightOf(uid));
    Extend(cfg, acts, a, uid, k);
    acts' := acts + [a];
  }

  /** p is a Login for uid that has come to pc; its key is not in the index yet. */
  ghost predicate Stands(w: World, p: nat, uid: Uid, pc: Pc) {
    && p < |w.procs| && w.procs[p].req.LoginReq? && w.procs[p].req.uid == uid && w.procs[p].pc == pc
    && GrantKey(w.procs[p].req) !in Members(w.store, uid)
    && (pc == Expiring ==> Live(w.store, GrantKey(w.procs[p].req)))
  }

  ghost predicate OnlyMoves(w: World, w': World, p: nat) {
    p < |w.procs| == |w'.procs| && w'.procs == w.procs[p := w'.procs[p]]
  }

  /** p has moved on, still in progress and not in the index. */
  ghost predicate Moved(w: World, w': World, p: nat, uid: Uid) {
    OnlyMoves(w, w', p) && Members(w'.store, uid) == Members(w.store, uid) && InFlight(w', uid) == InFlight(w, uid)
  }

  lemma StoreHash(cfg: Config, acts: seq<Action>, uid: Uid, k: nat, p: nat) returns (acts': seq<Action>)
    requires Good(cfg, acts, uid, k) && Stands(End(cfg, acts), p, uid, Storing)
    ensures Good(cfg, acts', uid, k) && Stands(End(cfg, acts'), p, uid, Expiring)
    ensures Moved(End(cfg, acts), End(cfg, acts'), p, uid)
  {
    acts' := Go(cfg, acts, uid, k, p);
  }

  lemma SetDeadline(cfg: Config, acts: seq<Action>, uid: Uid, k: nat, p: nat) returns (acts': seq<Action>)
    requires Good(cfg, acts, uid, k) && Stands(End(cfg, acts), p, uid, Expiring)
    ensures Good(cfg, acts', uid, k) && Stands(End(cfg, acts'), p, uid, Indexing)
    ensures Moved(End(cfg, acts), End(cfg, acts'), p, uid)
  {
    acts' := Go(cfg, acts, uid, k, p);
  }

  lemma AddToIndex(cfg: Config, acts: seq<Action>, uid: Uid, k: nat, p: nat) returns (acts': seq<Action>)
    requires Good(cfg, acts, uid, k) && Stands(End(cfg, acts), p, uid, Indexing)
    ensures Good(cfg, acts', uid, k) && OnlyMoves(End(cfg, acts), End(cfg, acts'), p)
    ensures |Members(End(cfg, acts').store, uid)| == |Members(End(cfg, acts).store, uid)| + 1
    ensures InFlight(End(cfg, acts'), uid) == InFlight(End(cfg, acts), uid) - 1
  {
    var w := End(cfg, acts);
    acts' := Go(cfg, acts, uid, k, p);
    assert Members(End(cfg, acts').store, uid) == Members(w.store, uid) + {GrantKey(w.procs[p].req)};
  }

  /** A waiting Login stores, expires and indexes its key. */
  lemma Land(cfg: Config, acts: seq<Action>, uid: Uid, k: nat, p: nat) returns (acts': seq<Action>)
    requires Good(cfg, acts, uid, k) && p < |End(cfg, acts).procs| && Waiting(End(cfg, acts).procs[p], uid)
    ensures Good(cfg, acts', uid, k) && OnlyMoves(End(cfg, acts), End(cfg, acts'), p)
    ensures |Members(End(cfg, acts').store, uid)| == |Members(End(cfg, acts).store, uid)| + 1
    ensures InFlight(End(cfg, acts'), uid) == InFlight(End(cfg, acts), uid) - 1
  {
    assert Stands(End(cfg, acts), p, uid, Storing) by {
      RunKeepsInv(cfg, Init(0), acts);
      assert ProcOk(End(cfg, acts), cfg, End(cfg, acts).procs[p]);
    }
    var stored := StoreHash(cfg, acts, uid, k, p);
    var expiring := SetDeadline(cfg, stored, uid, k, p);
    acts' := AddToIndex(cfg, expiring, uid, k, p);
  }

  /** n Logins one after the other. */
  lemma {:induction false} Fill(cfg: Config, uid: Uid, k: nat, n: nat) returns (acts: seq<Action>)
    requires k >= 1 && n < cfg.maxLogins
    ensures Good(cfg, acts, uid, k)
    ensures |Members(End(cfg, acts).store, uid)| == n && InFlight(End(cfg, acts), uid) == 0
    decreases n
  {
    if n == 0 {
      acts := [];
    } else {
      var before := Fill(cfg, uid, k, n - 1);
      var admitted := Admit(cfg, before, uid, k);
      acts := Land(cfg, admitted, uid, k, |End(cfg, before).procs|);
    }
  }

  /** j Logins at once, all past checkCount, over an index with one free place. */
  lemma {:induction false} Crowd(cfg: Config, uid: Uid, k: nat, j: nat) returns (acts: seq<Action>)
    requires cfg.maxLogins >= 1 && 1 <= k && j <= k
    ensures Good(cfg, acts, uid, k)
    ensures var w := End(cfg, acts);
            && |Members(w.store, uid)| == cfg.maxLogins - 1 && InFlight(w, uid) == j
            && j <= |w.procs| && forall i :: |w.procs| - j <= i < |w.procs| ==> Waiting(w.procs[i], uid)
    decreases j
  {
    if j == 0 {
      acts := Fill(cfg, uid, k, cfg.maxLogins - 1);
    } else {
      var before := Crowd(cfg, uid, k, j - 1);
      acts := Admit(cfg, before, uid, k);
      var w, w' := End(cfg, before), End(cfg, acts);
      forall i | |w'.procs| - j <= i < |w'.procs| ensures Waiting(w'.procs[i], uid) {
        if i < |w.procs| { assert w'.procs[..|w.procs|][i] == w.procs[i]; }
      }
    }
  }

  /** The last j requests land, one after the other. */
  lemma {:induction false} LandAll(cfg: Config, acts: seq<Action>, uid: Uid, k: nat, j: nat) returns (acts': seq<Action>)
    requires Good(cfg, acts, uid, k) && j <= |End(cfg, acts).procs|
    requires var w := End(cfg, acts);
             forall i :: |w.procs| - j <= i < |w.procs| ==> Waiting(w.procs[i], uid)
    ensures Good(cfg, acts', uid, k)
    ensures |Members(End(cfg, acts').store, uid)| == |Members(End(cfg, acts).store, uid)| + j
    decreases j
  {
    if j == 0 {
      acts' := acts;
    } else {
      var landed := Land(cfg, acts, uid, k, |End(cfg, acts).procs| - j);
      acts' := LandAll(cfg, landed, uid, k, j - 1);
    }
  }

  /** With k requests in progress at most, the index of uid can hold maxLogins - 1 + k keys. */
  lemma BoundIsReached(cfg: Config, uid: Uid, k: nat)
    requires cfg.maxLogins >= 1 && k >= 1
    ensures exists acts ::
              && Runs(cfg, Init(0), acts) && AtMost(cfg, Init(0), acts, uid, k)
              && |Members(Run(cfg, Init(0), acts).store, uid)| == cfg.maxLogins - 1 + k
  {
    var crowd := Crowd(cfg, uid, k, k);
    var acts := LandAll(cfg, crowd, uid, k, k);
    assert Good(cfg, acts, uid, k) && |Members(End(cfg, acts).store, uid)| == cfg.maxLogins - 1 + k;
  }
}
