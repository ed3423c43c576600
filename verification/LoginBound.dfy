/** How far concurrent logins can overrun the per-user limit. */
module LoginBound {
  import opened Common
  import opened RedisStore
  import opened Handlers
  import opened Interleaving
  import opened WorldInvariant

  function CountIf(procs: seq<Proc>, f: Proc -> bool): nat {
    if procs == [] then 0
    else (if f(procs[0]) then 1 else 0) + CountIf(procs[1..], f)
  }

  lemma {:induction false} CountUpdate(procs: seq<Proc>, p: nat, x: Proc, f: Proc -> bool)
    requires p < |procs|
    ensures CountIf(procs[p := x], f) + (if f(procs[p]) then 1 else 0)
         == CountIf(procs, f) + (if f(x) then 1 else 0)
  {
    if p == 0 {
      assert procs[p := x][1..] == procs[1..];
    } else {
      assert procs[p := x][1..] == procs[1..][p - 1 := x];
      CountUpdate(procs[1..], p - 1, x, f);
    }
  }

  lemma {:induction false} CountAppend(procs: seq<Proc>, x: Proc, f: Proc -> bool)
    ensures CountIf(procs + [x], f) == CountIf(procs, f) + (if f(x) then 1 else 0)
  {
    if procs == [] {
      assert (procs + [x])[1..] == [];
    } else {
      assert (procs + [x])[1..] == procs[1..] + [x];
      CountAppend(procs[1..], x, f);
    }
  }

  lemma {:induction false} CountLess(procs: seq<Proc>, p: nat, f: Proc -> bool, g: Proc -> bool)
    requires p < |procs| && g(procs[p]) && !f(procs[p])
    requires forall x :: f(x) ==> g(x)
    ensures CountIf(procs, f) < CountIf(procs, g)
  {
    if p > 0 { CountLess(procs[1..], p - 1, f, g); } else { CountAtMost(procs[1..], f, g); }
  }

  lemma {:induction false} CountAtMost(procs: seq<Proc>, f: Proc -> bool, g: Proc -> bool)
    requires forall x :: f(x) ==> g(x)
    ensures CountIf(procs, f) <= CountIf(procs, g)
  {
    if procs != [] { CountAtMost(procs[1..], f, g); }
  }

  /** A Login or OTP for uid that has not answered yet. */
  function FlightOf(uid: Uid): Proc -> bool {
    (x: Proc) => Grants(x.req) && x.req.uid == uid && !x.pc.Replied?
  }

  /** One that has passed checkCount and has still to reach its SADD. */
  function AdmittedOf(uid: Uid): Proc -> bool {
    (x: Proc) => Grants(x.req) && x.req.uid == uid && (x.pc.Storing? || x.pc.Expiring? || x.pc.Indexing?)
  }

  function InFlight(w: World, uid: Uid): nat {
    CountIf(w.procs, FlightOf(uid))
  }

  function Admitted(w: World, uid: Uid): nat {
    CountIf(w.procs, AdmittedOf(uid))
  }

  /** At most k Logins and OTPs for uid are in progress at any moment of the run. */
  ghost predicate AtMost(cfg: Config, w: World, acts: seq<Action>, uid: Uid, k: nat)
    requires Runs(cfg, w, acts)
    decreases |acts|
  {
    && InFlight(Run(cfg, w, acts), uid) <= k
    && (acts != [] ==> AtMost(cfg, w, acts[..|acts| - 1], uid, k))
  }

  /** A limit of zero or less admits nobody. */
  function Bound(cfg: Config, k: nat): int {
    if cfg.maxLogins >= 1 then cfg.maxLogins - 1 + k else 0
  }

  /** The inductive form: the index and the requests admitted to it, together. */
  ghost predicate Bounded(cfg: Config, w: World, uid: Uid, k: nat) {
    |Members(w.store, uid)| + Admitted(w, uid) <= Bound(cfg, k)
  }

  lemma StepKeepsBound(cfg: Config, w: World, a: Action, uid: Uid, k: nat)
    requires Inv(w, cfg) && Enabled(cfg, w, a)
    requires InFlight(w, uid) <= k && Bounded(cfg, w, uid, k)
    ensures Bounded(cfg, Step(cfg, w, a), uid, k)
  {
    var w' := Step(cfg, w, a);
    match a
    case Tick(_) =>
    case Start(req) =>
      CountAppend(w.procs, w'.procs[|w.procs|], AdmittedOf(uid));
    case Advance(p, fault, order) =>
      AdvanceKeepsBound(cfg, w, p, fault, order, uid, k);
  }

  /** One command grows the index of uid by at most its own key, and only from Indexing. */
  lemma IndexGrowth(cfg: Config, w: World, p: nat, fault: Fault, order: seq<Key>, uid: Uid)
    requires Enabled(cfg, w, Advance(p, fault, order))
    ensures |Members(AdvanceStep(cfg, w, p, fault, order).store, uid)|
         <= |Members(w.store, uid)|
            + (if w.procs[p].pc.Indexing? && w.procs[p].req.uid == uid then 1 else 0)
  {
    var cmd := Pending(cfg, w, p);
    var before, after := Members(w.store, uid), Members(Execute(w.store, cmd, fault, order).0, uid);
    forall k | k in after ensures k in before || cmd == SAdd(uid, k) {
      SetsChangeByName(w.store, cmd, fault, order, uid, k);
    }
    if cmd.SAdd? && cmd.uid == uid {
      SubsetSize(after, before + {cmd.key});
    } else {
      SubsetSize(after, before);
    }
  }

  /** A request passes checkCount over an index that has, or is given, a free place. */
  lemma AdmissionNeedsRoom(cfg: Config, w: World, p: nat, fault: Fault, order: seq<Key>)
    requires Inv(w, cfg) && Enabled(cfg, w, Advance(p, fault, order))
    requires w.procs[p].pc.Counting? || w.procs[p].pc.Scanning? || w.procs[p].pc.Evicting?
    requires AdvancePc(cfg, w, p, fault, order).Storing?
    ensures var uid := w.procs[p].req.uid;
            var after := |Members(AdvanceStep(cfg, w, p, fault, order).store, uid)|;
            after < cfg.maxLogins || after < |Members(w.store, uid)|
  {
    if w.procs[p].pc.Counting? {
      ListingSize(order, Members(w.store, w.procs[p].req.uid));
    } else {
      EvictionMakesRoom(cfg, w, p, fault, order, w.procs[p].req.uid);
    }
  }

  lemma AdvanceKeepsBound(cfg: Config, w: World, p: nat, fault: Fault, order: seq<Key>, uid: Uid, k: nat)
    requires Inv(w, cfg) && Enabled(cfg, w, Advance(p, fault, order))
    requires InFlight(w, uid) <= k && Bounded(cfg, w, uid, k)
    ensures Bounded(cfg, AdvanceStep(cfg, w, p, fault, order), uid, k)
  {
    var x, x' := w.procs[p], AdvanceStep(cfg, w, p, fault, order).procs[p];
    CountUpdate(w.procs, p, x', AdmittedOf(uid));
    IndexGrowth(cfg, w, p, fault, order, uid);
    if AdmittedOf(uid)(x') && !AdmittedOf(uid)(x) {
      CountLess(w.procs, p, AdmittedOf(uid), FlightOf(uid));
      AdmissionNeedsRoom(cfg, w, p, fault, order);
    }
  }

  /** The slow path of checkCount admits a request only when its SREM took something out. */
  lemma EvictionMakesRoom(cfg: Config, w: World, p: nat, fault: Fault, order: seq<Key>, uid: Uid)
    requires Inv(w, cfg) && Enabled(cfg, w, Advance(p, fault, order))
    requires w.procs[p].pc.Evicting? && w.procs[p].req.uid == uid
    requires AdvancePc(cfg, w, p, fault, order).Storing?
    ensures |Members(AdvanceStep(cfg, w, p, fault, order).store, uid)| < |Members(w.store, uid)|
  {
    var x := w.procs[p];
    assert ProcOk(w, cfg, x);
    var members, gone := Members(w.store, uid), Elements(x.pc.expired);
    assert |members * gone| >= 1;
    SubsetSize(members * gone, members);
    assert members - gone == members - members * gone;
  }

  lemma {:induction false} RunKeepsBound(cfg: Config, w: World, acts: seq<Action>, uid: Uid, k: nat)
    requires Inv(w, cfg) && Runs(cfg, w, acts) && AtMost(cfg, w, acts, uid, k)
    requires Bounded(cfg, w, uid, k)
    ensures Bounded(cfg, Run(cfg, w, acts), uid, k)
    decreases |acts|
  {
    if acts != [] {
      var n := |acts| - 1;
      RunKeepsBound(cfg, w, acts[..n], uid, k);
      RunKeepsInv(cfg, w, acts[..n]);
      StepKeepsBound(cfg, Run(cfg, w, acts[..n]), acts[n], uid, k);
    }
  }

  /** If at most k Logins and OTPs for uid are ever in progress together, the index of uid never
      holds more than maxLogins - 1 + k keys; one at a time, never more than maxLogins. */
  lemma LoginsAreBounded(cfg: Config, now: int, acts: seq<Action>, uid: Uid, k: nat)
    requires Runs(cfg, Init(now), acts) && AtMost(cfg, Init(now), acts, uid, k)
    ensures |Members(Run(cfg, Init(now), acts).store, uid)| <= Bound(cfg, k)
  {
    RunKeepsBound(cfg, Init(now), acts, uid, k);
  }
}
