/** What every step of every interleaving keeps, whatever the store errors. The pieces:
    keys live only after their own HSET and never come back once dead; an index holds only
    keys drawn for its user and loses only dead ones; an issued key that is still live is in
    its user's index; and each request knows which of the keys it has seen are dead for good. */
module WorldInvariant {
  import opened Common
  import opened RedisStore
  import opened Handlers
  import opened Interleaving

  // Store-level invariants.

  predicate Shaped(k: Key, fields: map<Field, string>) {
    fields.Keys == if k.Token? then {UserId, Remote} else {UserId, Remote, Redirect}
  }

  ghost predicate IdsOk(w: World) {
    && (forall k :: k in w.owner ==> k.id in w.used)
    && w.made <= w.owner.Keys
    && w.issued <= w.made
    && w.store.hashes.Keys <= w.made
  }

  ghost predicate HashesOk(w: World)
    requires IdsOk(w)
  {
    forall k :: k in w.store.hashes ==>
      Shaped(k, w.store.hashes[k].fields) && w.store.hashes[k].fields[UserId] == w.owner[k]
  }

  ghost predicate IndexesOk(w: World)
    requires IdsOk(w)
  {
    forall u, k :: k in Members(w.store, u) ==> k in w.made && w.owner[k] == u
  }

  /** The index covers every issued key that is still live. */
  ghost predicate Covered(w: World)
    requires IdsOk(w)
  {
    forall k :: k in w.issued && Live(w.store, k) ==> k in Members(w.store, w.owner[k])
  }

  // Request-level invariants.

  ghost predicate AllMade(w: World, keys: seq<Key>) {
    forall k :: k in keys ==> k in w.made
  }

  ghost predicate AllDead(w: World, keys: seq<Key>) {
    forall k :: k in keys ==> Dead(w, k)
  }

  /** The key is dead for good or still in its user's index. */
  predicate Held(w: World, k: Key)
    requires k in w.owner
  {
    Dead(w, k) || k in Members(w.store, w.owner[k])
  }

  ghost predicate AllHeld(w: World, keys: seq<Key>)
    requires IdsOk(w)
  {
    forall k :: k in keys ==> k in w.made && Held(w, k)
  }

  /** Of the user's keys on record before the request began, all but those in rest are dead. */
  ghost predicate SweptBut(w: World, x: Proc, uid: Uid, rest: seq<Key>)
    requires IdsOk(w) && x.before <= w.made
  {
    forall k :: k in x.before && w.owner[k] == uid ==> Dead(w, k) || k in rest
  }

  /** The pad being completed, if it was on record before, belongs to uid. */
  ghost predicate PadOwner(w: World, x: Proc, uid: Uid)
    requires IdsOk(w) && x.before <= w.made && x.req.CompleteOtpReq?
  {
    Pad(x.req.pad) in x.before ==> w.owner[Pad(x.req.pad)] == uid
  }

  /** The hash of the key, while there is one, says what the request asked for. */
  predicate AsAsked(w: World, x: Proc)
    requires Grants(x.req)
  {
    GrantKey(x.req) in w.store.hashes ==> w.store.hashes[GrantKey(x.req)].fields == GrantFields(x.req)
  }

  ghost predicate GrantOk(w: World, cfg: Config, x: Proc)
    requires IdsOk(w) && Grants(x.req)
  {
    var k := GrantKey(x.req);
    && k in w.owner && w.owner[k] == x.req.uid
    && match x.pc
       case Counting => k !in w.made
       case Scanning(listing, next, expired) =>
         k !in w.made && AllMade(w, listing) && AllDead(w, expired) && |listing| >= cfg.maxLogins
       case Evicting(total, expired) =>
         k !in w.made && AllDead(w, expired) && total >= cfg.maxLogins
       case Storing => k !in w.made
       case Expiring => k in w.made && k !in w.issued && k !in Members(w.store, x.req.uid)
       case Indexing => k in w.made && k !in w.issued && k !in Members(w.store, x.req.uid)
       case Replied(reply) => reply.code == OK ==> k in w.issued && reply.value == x.req.id
       case _ => true
  }

  ghost predicate TokenOk(w: World, x: Proc)
    requires x.req.ValidReq? || x.req.LogoutReq?
  {
    var k := Token(x.req.token);
    && (k in x.gone ==> x.pc.Probing? || (x.pc.Replied? && x.pc.reply.code in {TEMPORARY_REDIRECT, INTERNAL_SERVER_ERROR}))
    && match x.pc
       case Dropping(_) => k in w.made
       case Unlisting(_) => Dead(w, k)
       case Replied(reply) => x.req.LogoutReq? && reply.code == NO_CONTENT ==> Dead(w, k)
       case _ => true
  }

  ghost predicate PadOk(w: World, x: Proc)
    requires IdsOk(w) && x.before <= w.made && (x.req.LoginOtpReq? || x.req.CompleteOtpReq?)
  {
    && (Pad(x.req.pad) in x.gone ==> x.pc.Fetching? || (x.pc.Replied? && x.pc.reply.code == INTERNAL_SERVER_ERROR))
    && match x.pc
       case Enumerating(uid) => PadOwner(w, x, uid)
       case Clearing(uid, listing, next) =>
         PadOwner(w, x, uid) && AllHeld(w, listing) && next <= |listing| && AllDead(w, listing[..next])
         && SweptBut(w, x, uid, listing[next..])
       case Sweeping(uid, listing) =>
         PadOwner(w, x, uid) && AllDead(w, listing) && SweptBut(w, x, uid, [])
       case Replied(reply) =>
         x.req.CompleteOtpReq? && reply.code == OK ==>
           PadOwner(w, x, reply.value) && SweptBut(w, x, reply.value, [])
       case _ => true
  }

  ghost predicate ProcOk(w: World, cfg: Config, x: Proc)
    requires IdsOk(w)
  {
    && x.before <= w.made
    && (forall k :: k in x.before ==> Held(w, k))
    && (forall k :: k in x.gone ==> Dead(w, k))
    && (Grants(x.req) ==> GrantOk(w, cfg, x) && AsAsked(w, x))
    && (x.req.ValidReq? || x.req.LogoutReq? ==> TokenOk(w, x))
    && (x.req.LoginOtpReq? || x.req.CompleteOtpReq? ==> PadOk(w, x))
  }

  ghost predicate ProcsOk(w: World, cfg: Config)
    requires IdsOk(w)
  {
    && (forall i :: 0 <= i < |w.procs| ==> ProcOk(w, cfg, w.procs[i]))
    && (forall i, j :: 0 <= i < j < |w.procs| && Grants(w.procs[i].req) && Grants(w.procs[j].req) ==>
          w.procs[i].req.id != w.procs[j].req.id)
  }

  ghost predicate Inv(w: World, cfg: Config) {
    IdsOk(w) && HashesOk(w) && IndexesOk(w) && Covered(w) && ProcsOk(w, cfg)
  }

  // Other requests do not notice a step.

  predicate SameFields(w: World, w': World, k: Key)
    requires k in w'.store.hashes
  {
    k in w.store.hashes && w'.store.hashes[k].fields == w.store.hashes[k].fields
  }

  /** w' follows w: history only grows, the dead stay dead, only they leave an index, and the
      only key newly made, issued, indexed or filled is the stepping request's own. */
  ghost predicate Follows(w: World, w': World, own: Option<Key>)
    requires IdsOk(w) && IdsOk(w')
  {
    && (forall k :: k in w.owner ==> k in w'.owner && w'.owner[k] == w.owner[k])
    && w.made <= w'.made && w.issued <= w'.issued
    && (forall k :: Dead(w, k) ==> Dead(w', k))
    && (forall k :: k in w.made && Held(w, k) ==> Held(w', k))
    && (forall k :: k in w'.store.hashes ==> own == Some(k) || SameFields(w, w', k))
    && (forall k :: k in w'.made ==> k in w.made || own == Some(k))
    && (forall k :: k in w'.issued ==> k in w.issued || own == Some(k))
    && (forall u, k :: k in Members(w'.store, u) ==> k in Members(w.store, u) || own == Some(k))
  }

  lemma ProcKept(w: World, w': World, cfg: Config, x: Proc, own: Option<Key>)
    requires IdsOk(w) && IdsOk(w') && Follows(w, w', own)
    requires ProcOk(w, cfg, x)
    requires Grants(x.req) ==> own != Some(GrantKey(x.req))
    ensures ProcOk(w', cfg, x)
  {
  }

  // One command of one request.

  function OwnKey(x: Proc): Option<Key> {
    if Grants(x.req) then Some(GrantKey(x.req)) else None
  }

  lemma IdsKept(cfg: Config, w: World, p: nat, fault: Fault, order: seq<Key>)
    requires Inv(w, cfg) && Enabled(cfg, w, Advance(p, fault, order))
    ensures IdsOk(AdvanceStep(cfg, w, p, fault, order))
  {
    assert ProcOk(w, cfg, w.procs[p]);
    var w' := AdvanceStep(cfg, w, p, fault, order);
    forall k | k in w'.store.hashes ensures k in w'.made {
      FieldsChangeByName(w.store, Pending(cfg, w, p), fault, order, k);
    }
  }

  predicate Whole(owner: map<Key, Uid>, k: Key, fields: map<Field, string>) {
    k in owner && Shaped(k, fields) && fields[UserId] == owner[k]
  }

  /** A hash is built whole on a key that has none, and taken away whole. */
  predicate Wholesale(s: Store, owner: map<Key, Uid>, cmd: Command) {
    && (cmd.HSet? ==> cmd.key !in s.hashes && Whole(owner, cmd.key, cmd.values))
    && (cmd.HDel? ==>
          cmd.names == {UserId, Remote, Redirect} || (cmd.names == {UserId, Remote} && cmd.key.Token?))
  }

  lemma CommandsAreWholesale(cfg: Config, w: World, p: nat)
    requires Inv(w, cfg) && Running(w, p)
    ensures Wholesale(w.store, w.owner, Pending(cfg, w, p))
  {
  }

  lemma TakenWhole(fields: map<Field, string>, names: set<Field>)
    requires fields.Keys <= names
    ensures fields - names == map[]
  {
  }

  lemma HashKept(s: Store, owner: map<Key, Uid>, cmd: Command, fault: Fault, order: seq<Key>, k: Key)
    requires Wholesale(s, owner, cmd) && (k in s.hashes ==> Whole(owner, k, s.hashes[k].fields))
    requires k in Execute(s, cmd, fault, order).0.hashes
    ensures Whole(owner, k, Execute(s, cmd, fault, order).0.hashes[k].fields)
  {
    FieldsChangeByName(s, cmd, fault, order, k);
    if k in s.hashes && cmd.HDel? && cmd.key == k { TakenWhole(s.hashes[k].fields, cmd.names); }
  }

  lemma HashesKept(cfg: Config, w: World, p: nat, fault: Fault, order: seq<Key>)
    requires Inv(w, cfg) && Enabled(cfg, w, Advance(p, fault, order))
    requires IdsOk(AdvanceStep(cfg, w, p, fault, order))
    ensures HashesOk(AdvanceStep(cfg, w, p, fault, order))
  {
    var w' := AdvanceStep(cfg, w, p, fault, order);
    CommandsAreWholesale(cfg, w, p);
    forall k | k in w'.store.hashes
      ensures Shaped(k, w'.store.hashes[k].fields) && w'.store.hashes[k].fields[UserId] == w'.owner[k]
    {
      HashKept(w.store, w.owner, Pending(cfg, w, p), fault, order, k);
      assert Whole(w.owner, k, w'.store.hashes[k].fields);
    }
  }

  lemma IndexesKept(cfg: Config, w: World, p: nat, fault: Fault, order: seq<Key>)
    requires Inv(w, cfg) && Enabled(cfg, w, Advance(p, fault, order))
    requires IdsOk(AdvanceStep(cfg, w, p, fault, order))
    ensures IndexesOk(AdvanceStep(cfg, w, p, fault, order))
  {
    assert ProcOk(w, cfg, w.procs[p]);
    var w' := AdvanceStep(cfg, w, p, fault, order);
    forall u, k | k in Members(w'.store, u) ensures k in w'.made && w'.owner[k] == u {
      SetsChangeByName(w.store, Pending(cfg, w, p), fault, order, u, k);
    }
  }

  /** Every SREM any request sends names dead keys only. */
  lemma OnlyDeadAreRemoved(cfg: Config, w: World, p: nat)
    requires Inv(w, cfg) && Running(w, p) && Pending(cfg, w, p).SRem?
    ensures AllDead(w, Pending(cfg, w, p).keys)
  {
  }

  /** No command takes a live key out of its user's index. */
  lemma HeldKept(cfg: Config, w: World, p: nat, fault: Fault, order: seq<Key>, k: Key)
    requires Inv(w, cfg) && Enabled(cfg, w, Advance(p, fault, order))
    requires k in w.made && Held(w, k)
    ensures k in AdvanceStep(cfg, w, p, fault, order).owner && Held(AdvanceStep(cfg, w, p, fault, order), k)
  {
    assert ProcOk(w, cfg, w.procs[p]);
    var cmd := Pending(cfg, w, p);
    OnlyHSetRevives(w.store, cmd, fault, order, k);
    SetsChangeByName(w.store, cmd, fault, order, w.owner[k], k);
    if cmd.SRem? { OnlyDeadAreRemoved(cfg, w, p); }
  }

  /** Only its own request ever writes a hash, and what is left of one is all of it. */
  lemma FieldsKept(cfg: Config, w: World, p: nat, fault: Fault, order: seq<Key>, k: Key)
    requires Inv(w, cfg) && Enabled(cfg, w, Advance(p, fault, order))
    requires k in AdvanceStep(cfg, w, p, fault, order).store.hashes && OwnKey(w.procs[p]) != Some(k)
    ensures SameFields(w, AdvanceStep(cfg, w, p, fault, order), k)
  {
    var cmd := Pending(cfg, w, p);
    CommandsAreWholesale(cfg, w, p);
    FieldsChangeByName(w.store, cmd, fault, order, k);
    if k in w.store.hashes && cmd.HDel? && cmd.key == k { TakenWhole(w.store.hashes[k].fields, cmd.names); }
  }

  lemma AdvanceFollows(cfg: Config, w: World, p: nat, fault: Fault, order: seq<Key>)
    requires Inv(w, cfg) && Enabled(cfg, w, Advance(p, fault, order))
    requires IdsOk(AdvanceStep(cfg, w, p, fault, order))
    ensures Follows(w, AdvanceStep(cfg, w, p, fault, order), OwnKey(w.procs[p]))
  {
    assert ProcOk(w, cfg, w.procs[p]);
    var w', cmd := AdvanceStep(cfg, w, p, fault, order), Pending(cfg, w, p);
    forall k | Dead(w, k) ensures Dead(w', k) {
      OnlyHSetRevives(w.store, cmd, fault, order, k);
    }
    forall k | k in w'.store.hashes && OwnKey(w.procs[p]) != Some(k) ensures SameFields(w, w', k) {
      FieldsKept(cfg, w, p, fault, order, k);
    }
    forall k | k in w.made && Held(w, k) ensures Held(w', k) {
      HeldKept(cfg, w, p, fault, order, k);
    }
    forall u, k | k in Members(w'.store, u) ensures k in Members(w.store, u) || OwnKey(w.procs[p]) == Some(k) {
      SetsChangeByName(w.store, cmd, fault, order, u, k);
    }
  }

  lemma CoverageKept(cfg: Config, w: World, p: nat, fault: Fault, order: seq<Key>)
    requires Inv(w, cfg) && Enabled(cfg, w, Advance(p, fault, order))
    requires IdsOk(AdvanceStep(cfg, w, p, fault, order))
    ensures Covered(AdvanceStep(cfg, w, p, fault, order))
  {
    assert ProcOk(w, cfg, w.procs[p]);
    var w' := AdvanceStep(cfg, w, p, fault, order);
    forall k | k in w'.issued && Live(w'.store, k) ensures k in Members(w'.store, w'.owner[k]) {
      if k in w.issued { HeldKept(cfg, w, p, fault, order, k); }
    }
  }

  // The stepping request itself, operation by operation.

  lemma GrantStep(cfg: Config, w: World, p: nat, fault: Fault, order: seq<Key>)
    requires Inv(w, cfg) && Enabled(cfg, w, Advance(p, fault, order)) && Grants(w.procs[p].req)
    requires IdsOk(AdvanceStep(cfg, w, p, fault, order))
    ensures GrantOk(AdvanceStep(cfg, w, p, fault, order), cfg, AdvanceStep(cfg, w, p, fault, order).procs[p])
  {
    var x := w.procs[p];
    assert ProcOk(w, cfg, x);
    AdvanceFollows(cfg, w, p, fault, order);
    SetsChangeByName(w.store, Pending(cfg, w, p), fault, order, x.req.uid, GrantKey(x.req));
  }

  lemma AskedStep(cfg: Config, w: World, p: nat, fault: Fault, order: seq<Key>)
    requires Inv(w, cfg) && Enabled(cfg, w, Advance(p, fault, order)) && Grants(w.procs[p].req)
    ensures AsAsked(AdvanceStep(cfg, w, p, fault, order), w.procs[p])
  {
    assert ProcOk(w, cfg, w.procs[p]);
    if GrantKey(w.procs[p].req) in AdvanceStep(cfg, w, p, fault, order).store.hashes {
      FieldsChangeByName(w.store, Pending(cfg, w, p), fault, order, GrantKey(w.procs[p].req));
      CommandsAreWholesale(cfg, w, p);
    }
  }

  lemma TokenStep(cfg: Config, w: World, p: nat, fault: Fault, order: seq<Key>)
    requires Inv(w, cfg) && Enabled(cfg, w, Advance(p, fault, order))
    requires w.procs[p].req.ValidReq? || w.procs[p].req.LogoutReq?
    requires IdsOk(AdvanceStep(cfg, w, p, fault, order))
    ensures TokenOk(AdvanceStep(cfg, w, p, fault, order), AdvanceStep(cfg, w, p, fault, order).procs[p])
  {
    var x := w.procs[p];
    assert ProcOk(w, cfg, x);
    AdvanceFollows(cfg, w, p, fault, order);
    if x.pc.Dropping? { HDelKills(w.store, Token(x.req.token), {UserId, Remote}); }
  }

  lemma FetchStep(cfg: Config, w: World, p: nat, fault: Fault, order: seq<Key>)
    requires Inv(w, cfg) && Enabled(cfg, w, Advance(p, fault, order)) && w.procs[p].pc.Fetching?
    requires IdsOk(AdvanceStep(cfg, w, p, fault, order))
    ensures PadOk(AdvanceStep(cfg, w, p, fault, order), AdvanceStep(cfg, w, p, fault, order).procs[p])
  {
  }

  lemma EnumerateStep(cfg: Config, w: World, p: nat, fault: Fault, order: seq<Key>)
    requires Inv(w, cfg) && Enabled(cfg, w, Advance(p, fault, order)) && w.procs[p].pc.Enumerating?
    requires IdsOk(AdvanceStep(cfg, w, p, fault, order))
    ensures PadOk(AdvanceStep(cfg, w, p, fault, order), AdvanceStep(cfg, w, p, fault, order).procs[p])
  {
  }

  /** One more key of the listing is dead. */
  lemma ClearedOneMore(w: World, w': World, x: Proc, uid: Uid, listing: seq<Key>, next: nat, own: Option<Key>)
    requires IdsOk(w) && IdsOk(w') && Follows(w, w', own)
    requires next < |listing| && Dead(w', listing[next])
    requires AllDead(w, listing[..next])
    requires x.before <= w.made && SweptBut(w, x, uid, listing[next..])
    ensures AllDead(w', listing[..next + 1])
    ensures x.before <= w'.made && SweptBut(w', x, uid, listing[next + 1..])
  {
  }

  lemma ClearStep(cfg: Config, w: World, p: nat, fault: Fault, order: seq<Key>)
    requires Inv(w, cfg) && Enabled(cfg, w, Advance(p, fault, order)) && w.procs[p].pc.Clearing?
    requires IdsOk(AdvanceStep(cfg, w, p, fault, order))
    ensures PadOk(AdvanceStep(cfg, w, p, fault, order), AdvanceStep(cfg, w, p, fault, order).procs[p])
  {
    var x := w.procs[p];
    var Clearing(uid, listing, next) := x.pc;
    assert ProcOk(w, cfg, x);
    if fault.Fine? {
      var w' := AdvanceStep(cfg, w, p, fault, order);
      assert Follows(w, w', None) by { AdvanceFollows(cfg, w, p, fault, order); }
      assert Dead(w', listing[next]) by {
        HDelKills(w.store, listing[next], {UserId, Remote, Redirect});
        assert listing[next] in w.made;
      }
      ClearedOneMore(w, w', x, uid, listing, next, None);
      if next + 1 == |listing| {
        assert listing[..next + 1] == listing && listing[next + 1..] == [];
      }
    }
  }

  lemma SweepStep(cfg: Config, w: World, p: nat, fault: Fault, order: seq<Key>)
    requires Inv(w, cfg) && Enabled(cfg, w, Advance(p, fault, order)) && w.procs[p].pc.Sweeping?
    requires IdsOk(AdvanceStep(cfg, w, p, fault, order))
    ensures PadOk(AdvanceStep(cfg, w, p, fault, order), AdvanceStep(cfg, w, p, fault, order).procs[p])
  {
    assert ProcOk(w, cfg, w.procs[p]);
    AdvanceFollows(cfg, w, p, fault, order);
  }

  lemma OwnProcKept(cfg: Config, w: World, p: nat, fault: Fault, order: seq<Key>)
    requires Inv(w, cfg) && Enabled(cfg, w, Advance(p, fault, order))
    requires IdsOk(AdvanceStep(cfg, w, p, fault, order))
    ensures ProcOk(AdvanceStep(cfg, w, p, fault, order), cfg, AdvanceStep(cfg, w, p, fault, order).procs[p])
  {
    var x := w.procs[p];
    assert ProcOk(w, cfg, x);
    AdvanceFollows(cfg, w, p, fault, order);
    if Grants(x.req) { AskedStep(cfg, w, p, fault, order); }
    match x.req
    case LoginReq(_, _, _) => GrantStep(cfg, w, p, fault, order);
    case OtpReq(_, _, _, _) => GrantStep(cfg, w, p, fault, order);
    case ValidReq(_) => TokenStep(cfg, w, p, fault, order);
    case LogoutReq(_) => TokenStep(cfg, w, p, fault, order);
    case _ =>
      match x.pc
      case Fetching => FetchStep(cfg, w, p, fault, order);
      case Enumerating(_) => EnumerateStep(cfg, w, p, fault, order);
      case Clearing(_, _, _) => ClearStep(cfg, w, p, fault, order);
      case Sweeping(_, _) => SweepStep(cfg, w, p, fault, order);
  }

  lemma AdvanceKeepsInv(cfg: Config, w: World, p: nat, fault: Fault, order: seq<Key>)
    requires Inv(w, cfg) && Enabled(cfg, w, Advance(p, fault, order))
    ensures Inv(AdvanceStep(cfg, w, p, fault, order), cfg)
  {
    var w' := AdvanceStep(cfg, w, p, fault, order);
    IdsKept(cfg, w, p, fault, order);
    HashesKept(cfg, w, p, fault, order);
    IndexesKept(cfg, w, p, fault, order);
    CoverageKept(cfg, w, p, fault, order);
    AdvanceFollows(cfg, w, p, fault, order);
    forall i | 0 <= i < |w'.procs| ensures ProcOk(w', cfg, w'.procs[i]) {
      if i == p {
        OwnProcKept(cfg, w, p, fault, order);
      } else {
        assert ProcOk(w, cfg, w.procs[i]);
        ProcKept(w, w', cfg, w.procs[i], OwnKey(w.procs[p]));
      }
    }
  }

  lemma StartFollows(cfg: Config, w: World, req: Request)
    requires Inv(w, cfg) && Enabled(cfg, w, Start(req))
    ensures IdsOk(StartStep(w, req)) && Follows(w, StartStep(w, req), None)
  {
  }

  lemma NewProcOk(cfg: Config, w: World, req: Request)
    requires Inv(w, cfg) && Enabled(cfg, w, Start(req)) && IdsOk(StartStep(w, req))
    ensures ProcOk(StartStep(w, req), cfg, StartStep(w, req).procs[|w.procs|])
  {
  }

  lemma StartKeepsInv(cfg: Config, w: World, req: Request)
    requires Inv(w, cfg) && Enabled(cfg, w, Start(req))
    ensures Inv(StartStep(w, req), cfg)
  {
    var w' := StartStep(w, req);
    StartFollows(cfg, w, req);
    NewProcOk(cfg, w, req);
    forall i | 0 <= i < |w'.procs| ensures ProcOk(w', cfg, w'.procs[i]) {
      if i < |w.procs| {
        assert ProcOk(w, cfg, w.procs[i]);
        ProcKept(w, w', cfg, w.procs[i], None);
      }
    }
    forall i | 0 <= i < |w.procs| && Grants(w.procs[i].req)
      ensures w.procs[i].req.id in w.used
    {
      assert ProcOk(w, cfg, w.procs[i]);
      assert GrantKey(w.procs[i].req).id in w.used;
    }
  }

  lemma TickFollows(cfg: Config, w: World, seconds: nat)
    requires Inv(w, cfg)
    ensures Follows(w, w.(store := Later(w.store, seconds)), None)
  {
    assert forall u :: Members(Later(w.store, seconds), u) == Members(w.store, u);
  }

  lemma TickKeepsInv(cfg: Config, w: World, seconds: nat)
    requires Inv(w, cfg)
    ensures Inv(w.(store := Later(w.store, seconds)), cfg)
  {
    var w' := w.(store := Later(w.store, seconds));
    assert forall u :: Members(w'.store, u) == Members(w.store, u);
    TickFollows(cfg, w, seconds);
    forall i | 0 <= i < |w.procs| ensures ProcOk(w', cfg, w'.procs[i]) {
      assert ProcOk(w, cfg, w.procs[i]);
      ProcKept(w, w', cfg, w.procs[i], None);
    }
  }

  lemma StepKeepsInv(cfg: Config, w: World, a: Action)
    requires Inv(w, cfg) && Enabled(cfg, w, a)
    ensures Inv(Step(cfg, w, a), cfg)
  {
    match a
    case Start(req) => StartKeepsInv(cfg, w, req);
    case Advance(p, fault, order) => AdvanceKeepsInv(cfg, w, p, fault, order);
    case Tick(seconds) => TickKeepsInv(cfg, w, seconds);
  }

  lemma {:induction false} RunKeepsInv(cfg: Config, w: World, acts: seq<Action>)
    requires Inv(w, cfg) && Runs(cfg, w, acts)
    ensures Inv(Run(cfg, w, acts), cfg)
    decreases |acts|
  {
    if acts != [] {
      var n := |acts| - 1;
      RunKeepsInv(cfg, w, acts[..n]);
      StepKeepsInv(cfg, Run(cfg, w, acts[..n]), acts[n]);
    }
  }
}
