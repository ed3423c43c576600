/** How long an accepted password lasts when statements interleave. Login's UPDATE writes back
    the password and salt it has read, so a login that read the row before a change can undo
    the change after it was answered. */
module AuthDurability {
  import opened Common
  import opened AuthSpec
  import opened AuthInterleaving

  /** Whatever the counter says, this is the stored password. */
  predicate Stored(t: Table, uid: Uid, p: Password) {
    uid in t && t[uid].salt == SALT && t[uid].pass == Hash(p, SALT)
  }

  lemma StoredDecides(t: Table, uid: Uid, p: Password, q: Password, max: uint8)
    requires Stored(t, uid, p) && t[uid].failureCount <= max
    ensures Check(t[uid], q, max) == if q == p then None else Some(BadUserOrPass)
  {
    HashIsInjective(p, q, SALT);
  }

  // What a change or reset stores.

  function NewPassword(req: Request): Password
    requires !req.LoginReq?
  {
    if req.ChangeReq? then req.new_ else req.seed
  }

  predicate Carries(x: Proc) {
    x.pc.Replacing? ==>
      !x.req.LoginReq? && x.pc.row.salt == SALT && x.pc.row.pass == Hash(NewPassword(x.req), SALT)
  }

  predicate AllCarry(w: World) {
    forall i :: 0 <= i < |w.procs| ==> Carries(w.procs[i])
  }

  lemma {:induction false} RunKeepsCarrying(w: World, acts: seq<Action>, max: uint8)
    requires AllCarry(w) && Runs(w, acts, max)
    ensures AllCarry(Run(w, acts, max))
    decreases |acts|
  {
    if acts != [] { RunKeepsCarrying(w, acts[..|acts| - 1], max); }
  }

  // How long it lasts.

  /** A change or reset of uid about to send its last UPDATE. */
  predicate Replaces(w: World, a: Action, uid: Uid)
    requires Enabled(w, a)
  {
    a.Advance? && w.procs[a.p].req.uid == uid && w.procs[a.p].pc.Replacing?
  }

  /** A run in which no change and no reset of uid replaces the password. */
  predicate Unreplaced(w: World, acts: seq<Action>, uid: Uid, max: uint8)
    requires Runs(w, acts, max)
    decreases |acts|
  {
    acts == [] ||
    var n := |acts| - 1;
    Unreplaced(w, acts[..n], uid, max) && !Replaces(Run(w, acts[..n], max), acts[n], uid)
  }

  /** Every login of uid that has read its row and not yet recorded it has read this password. */
  predicate NothingStale(w: World, uid: Uid, p: Password) {
    forall i :: 0 <= i < |w.procs| && w.procs[i].req.uid == uid && w.procs[i].pc.Recording? ==>
      w.procs[i].pc.row.salt == SALT && w.procs[i].pc.row.pass == Hash(p, SALT)
  }

  lemma NextKeepsStored(w: World, a: Action, uid: Uid, p: Password, max: uint8)
    requires Enabled(w, a) && !Replaces(w, a, uid)
    requires Stored(w.table, uid, p) && NothingStale(w, uid, p)
    ensures Stored(Next(w, a, max).table, uid, p) && NothingStale(Next(w, a, max), uid, p)
  {
  }

  lemma {:induction false} RunKeepsStored(w: World, acts: seq<Action>, uid: Uid, p: Password, max: uint8)
    requires Runs(w, acts, max) && Unreplaced(w, acts, uid, max)
    requires Stored(w.table, uid, p) && NothingStale(w, uid, p)
    ensures Stored(Run(w, acts, max).table, uid, p) && NothingStale(Run(w, acts, max), uid, p)
    decreases |acts|
  {
    if acts != [] {
      var n := |acts| - 1;
      RunKeepsStored(w, acts[..n], uid, p, max);
      NextKeepsStored(Run(w, acts[..n], max), acts[n], uid, p, max);
    }
  }

  /** The password lasts until it is replaced, whatever runs and fails meanwhile. */
  ghost predicate Lasts(w: World, uid: Uid, p: Password, max: uint8) {
    forall acts :: Runs(w, acts, max) && Unreplaced(w, acts, uid, max) ==> Stored(Run(w, acts, max).table, uid, p)
  }

  /** A stored password lasts if and only if no login of that user is about to write back another
      one: the logins in progress that have read the row have read this password. */
  lemma LastsExactly(w: World, uid: Uid, p: Password, max: uint8)
    requires Stored(w.table, uid, p)
    ensures Lasts(w, uid, p, max) <==> NothingStale(w, uid, p)
  {
    if NothingStale(w, uid, p) {
      forall acts | Runs(w, acts, max) && Unreplaced(w, acts, uid, max) ensures Stored(Run(w, acts, max).table, uid, p) {
        RunKeepsStored(w, acts, uid, p, max);
      }
    } else {
      var i :| 0 <= i < |w.procs| && w.procs[i].req.uid == uid && w.procs[i].pc.Recording?
               && !(w.procs[i].pc.row.salt == SALT && w.procs[i].pc.row.pass == Hash(p, SALT));
      WritesBack(w, i, uid, p, max);
    }
  }

  lemma WritesBack(w: World, i: nat, uid: Uid, p: Password, max: uint8)
    requires uid in w.table && i < |w.procs| && w.procs[i].req.uid == uid && w.procs[i].pc.Recording?
    requires w.procs[i].pc.row.salt != SALT || w.procs[i].pc.row.pass != Hash(p, SALT)
    ensures !Lasts(w, uid, p, max)
  {
    var a := Advance(i, Fine, 0);
    var acts := [] + [a];
    RunSnoc(w, [], a, max);
    assert acts[..0] == [] && !Replaces(Run(w, [], max), acts[0], uid);
    assert Unreplaced(w, acts, uid, max);
    assert !Stored(Run(w, acts, max).table, uid, p);
  }

  /** So, of any change or reset that has just been answered without an error: its new password
      is stored, and lasts if and only if no login of that user has read an older one. */
  lemma AcceptedChangeLasts(start: World, acts: seq<Action>, p: nat, now: int, max: uint8)
    requires start.procs == [] && Runs(start, acts, max)
    requires var w := Run(start, acts, max);
             && Enabled(w, Advance(p, Fine, now)) && w.procs[p].pc.Replacing?
             && Next(w, Advance(p, Fine, now), max).procs[p].pc == Answered(None)
    ensures var w := Run(start, acts, max);
            var w', req := Next(w, Advance(p, Fine, now), max), w.procs[p].req;
            && !req.LoginReq? && Stored(w'.table, req.uid, NewPassword(req))
            && (Lasts(w', req.uid, NewPassword(req), max) <==> NothingStale(w, req.uid, NewPassword(req)))
  {
    RunKeepsCarrying(start, acts, max);
    var w := Run(start, acts, max);
    var w', req := Next(w, Advance(p, Fine, now), max), w.procs[p].req;
    assert Carries(w.procs[p]);
    assert NothingStale(w, req.uid, NewPassword(req)) <==> NothingStale(w', req.uid, NewPassword(req)) by {
      assert forall i :: 0 <= i < |w.procs| && i != p ==> w'.procs[i] == w.procs[i];
    }
    LastsExactly(w', req.uid, NewPassword(req), max);
  }

  // The run that loses a change: a login reads the row; a change does all its work and is
  // answered; then the login records its success, and the old password with it.

  /** acts leads from this table, with no request in progress, to w. */
  ghost predicate Leads(t: Table, acts: seq<Action>, w: World, max: uint8) {
    Runs(World(t, []), acts, max) && Run(World(t, []), acts, max) == w
  }

  lemma OneMore(t: Table, acts: seq<Action>, w: World, a: Action, max: uint8) returns (acts': seq<Action>)
    requires Leads(t, acts, w, max) && Enabled(w, a)
    ensures Leads(t, acts', Next(w, a, max), max) && |acts'| == |acts| + 1
  {
    acts' := acts + [a];
    RunSnoc(World(t, []), acts, a, max);
  }

  lemma LoginReads(t: Table, uid: Uid, p: Password, max: uint8) returns (acts: seq<Action>, w: World)
    requires uid in t && Check(t[uid], p, max).None?
    ensures Leads(t, acts, w, max) && |acts| == 2
    ensures w == World(t, [Proc(LoginReq(uid, p), Recording(LoginRow(t[uid], p, 0, max), None))])
  {
    var w0 := World(t, []);
    assert Leads(t, [], w0, max);
    acts := OneMore(t, [], w0, Start(LoginReq(uid, p)), max);
    var w1 := Next(w0, Start(LoginReq(uid, p)), max);
    acts := OneMore(t, acts, w1, Advance(0, Fine, 0), max);
    w := Next(w1, Advance(0, Fine, 0), max);
  }

  /** The change reads, records its login and replaces the password. */
  lemma ChangeRuns(t: Table, before: seq<Action>, x: Proc, uid: Uid, old_: Password, new_: Password, max: uint8)
    returns (acts: seq<Action>, w: World)
    requires Leads(t, before, World(t, [x]), max)
    requires uid in t && Check(t[uid], old_, max).None?
    requires |new_| >= 8 && new_ != t[uid].name && new_ != old_
    ensures Leads(t, acts, w, max) && |acts| == |before| + 4
    ensures w.procs == [x, Proc(ChangeReq(uid, old_, new_), Answered(None))] && uid in w.table
    ensures w.table[uid].name == t[uid].name && w.table[uid].failureCount == 0
  {
    var req := ChangeReq(uid, old_, new_);
    var w0 := World(t, [x]);
    var entered := LoginRow(t[uid], old_, 1, max);
    ValidateRules(AuthOf(uid, entered), old_, new_);
    acts := OneMore(t, before, w0, Start(req), max);
    var w1 := World(t, [x, Proc(req, Reading)]);
    acts := OneMore(t, acts, w1, Advance(1, Fine, 1), max);
    var w2 := World(t, [x, Proc(req, Recording(entered, None))]);
    acts := OneMore(t, acts, w2, Advance(1, Fine, 1), max);
    var w3 := World(t[uid := entered], [x, Proc(req, Replacing(WithPassword(entered, new_, 1)))]);
    assert Next(w2, Advance(1, Fine, 1), max) == w3;
    acts := OneMore(t, acts, w3, Advance(1, Fine, 1), max);
    w := Next(w3, Advance(1, Fine, 1), max);
  }

  /** For every unlocked user and every acceptable new password there is such a run of seven
      steps, with no errors: the change is answered without an error, and afterwards the old
      password logs in and the new one is refused. */
  lemma AcceptedChangeCanBeLost(t: Table, uid: Uid, old_: Password, new_: Password, max: uint8, later: int)
    requires uid in t && Check(t[uid], old_, max).None?
    requires |new_| >= 8 && new_ != t[uid].name && new_ != old_
    ensures exists acts, w ::
              && Leads(t, acts, w, max) && |acts| == 7
              && |w.procs| == 2 && w.procs[1] == Proc(ChangeReq(uid, old_, new_), Answered(None))
              && Login(w.table, uid, old_, later, max).1 == None
              && Login(w.table, uid, new_, later, max).1 == Some(BadUserOrPass)
  {
    HashIsInjective(old_, new_, t[uid].salt);
    var acts, w := LoginReads(t, uid, old_, max);
    acts, w := ChangeRuns(t, acts, w.procs[0], uid, old_, new_, max);
    acts := OneMore(t, acts, w, Advance(0, Fine, 2), max);
    w := Next(w, Advance(0, Fine, 2), max);
    assert w.table[uid].pass == t[uid].pass && w.table[uid].salt == t[uid].salt;
  }
}
