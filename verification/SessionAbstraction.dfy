/** How Redis stands for the index-free sessions of SessionSpec while nothing has failed. */
module SessionAbstraction {
  import opened Common
  import opened RedisStore
  import opened Handlers
  import opened SessionSpec

  function SessionOf(h: Hash): Session {
    Session(if UserId in h.fields then h.fields[UserId] else "",
            if Redirect in h.fields then Some(h.fields[Redirect]) else None,
            if h.deadline.Some? then h.deadline.value else 0)
  }

  function LiveMap(s: Store): map<Key, Session> {
    map k | k in s.hashes && Live(s, k) :: SessionOf(s.hashes[k])
  }

  function Abs(s: Store, used: set<string>): Sessions {
    Sessions(s.now, LiveMap(s), used)
  }

  /** A live hash between requests: complete, expiring and indexed for its user. */
  ghost predicate TidyKey(s: Store, k: Key)
    requires k in s.hashes
  {
    var h := s.hashes[k];
    && h.fields.Keys == (if k.Token? then {UserId, Remote} else {UserId, Remote, Redirect})
    && h.deadline.Some?
    && k in Members(s, h.fields[UserId])
  }

  ghost predicate Tidy(s: Store, used: set<string>) {
    && (forall k :: k in s.hashes ==> k.id in used)
    && (forall k :: Live(s, k) ==> TidyKey(s, k))
    && (forall u, k :: k in Members(s, u) ==> k.id in used && (Live(s, k) ==> OwnerOf(s, k) == Some(u)))
  }

  function LiveMembers(s: Store, uid: Uid): set<Key> {
    set k | k in Members(s, uid) && Live(s, k)
  }

  /** The index, stale members aside, is what the index-free view counts. */
  lemma IndexIsLiveSet(s: Store, used: set<string>, uid: Uid)
    requires Tidy(s, used)
    ensures LiveMembers(s, uid) == LiveOf(Abs(s, used), uid)
  {
  }

  /** No member of the index is dead. */
  predicate Clean(s: Store, uid: Uid) {
    Members(s, uid) == LiveMembers(s, uid)
  }

  /** The members found dead are those the count must do without. */
  lemma StaleAreTheDead(s: Store, uid: Uid, listing: seq<Key>, expired: seq<Key>)
    requires IsListing(listing, Members(s, uid))
    requires Elements(expired) == set k | k in listing && !Live(s, k)
    ensures Elements(expired) == Members(s, uid) - LiveMembers(s, uid)
    ensures |listing| - |Members(s, uid) * Elements(expired)| == |LiveMembers(s, uid)|
    ensures expired == [] ==> |listing| == |LiveMembers(s, uid)| && Clean(s, uid)
  {
    assert forall k :: k in listing <==> k in Elements(listing);
    ListingSize(listing, Members(s, uid));
    SubsetSize(LiveMembers(s, uid), Members(s, uid));
    assert Members(s, uid) * Elements(expired) == Members(s, uid) - LiveMembers(s, uid);
  }

  /** The index of uid rid of its dead members. */
  function Evicted(s: Store, uid: Uid): Store {
    s.(logins := s.logins[uid := LiveMembers(s, uid)])
  }

  lemma EvictionLeavesTheLiving(s: Store, uid: Uid, expired: seq<Key>)
    requires Elements(expired) == Members(s, uid) - LiveMembers(s, uid)
    ensures Effect(s, SRem(uid, expired)) == Evicted(s, uid) && Clean(Evicted(s, uid), uid)
  {
    assert Members(s, uid) - Elements(expired) == LiveMembers(s, uid);
  }

  /** s' is s without the hashes in gone, the index of every survivor kept. */
  ghost predicate Shrinks(s: Store, s': Store, gone: set<Key>) {
    && s'.now == s.now && s'.hashes.Keys <= s.hashes.Keys
    && (forall k :: Live(s', k) <==> Live(s, k) && k !in gone)
    && (forall k :: Live(s', k) ==> s'.hashes[k] == s.hashes[k])
    && (forall u, k :: k in Members(s', u) ==> k in Members(s, u))
    && (forall u, k :: k in Members(s, u) && Live(s', k) ==> k in Members(s', u))
  }

  lemma ShrunkIsTidy(s: Store, s': Store, used: set<string>, gone: set<Key>)
    requires Tidy(s, used) && Shrinks(s, s', gone)
    ensures Tidy(s', used)
  {
  }

  lemma ShrunkLiveMap(s: Store, s': Store, gone: set<Key>)
    requires Shrinks(s, s', gone)
    ensures LiveMap(s') == LiveMap(s) - gone
  {
  }

  lemma EvictedIsTidy(s: Store, used: set<string>, uid: Uid)
    requires Tidy(s, used)
    ensures Tidy(Evicted(s, uid), used) && Abs(Evicted(s, uid), used) == Abs(s, used)
    ensures LiveMembers(Evicted(s, uid), uid) == LiveMembers(s, uid)
  {
    var s' := Evicted(s, uid);
    assert forall u :: Members(s', u) == if u == uid then LiveMembers(s, uid) else Members(s, u);
    assert Shrinks(s, s', {});
    ShrunkIsTidy(s, s', used, {});
    ShrunkLiveMap(s, s', {});
  }

  /** One more member probed. */
  lemma ScanOneMore(s: Store, listing: seq<Key>, i: nat, expired: seq<Key>)
    requires i < |listing| && Elements(expired) == set k | k in listing[..i] && !Live(s, k)
    ensures Elements(if Live(s, listing[i]) then expired else expired + [listing[i]])
         == set k | k in listing[..i + 1] && !Live(s, k)
  {
    assert listing[..i + 1] == listing[..i] + [listing[i]];
    assert Elements(expired + [listing[i]]) == Elements(expired) + {listing[i]};
    assert forall k :: k in listing[..i + 1] <==> k in listing[..i] || k == listing[i];
  }

  lemma LiveMapUpdate(s: Store, s': Store, k: Key, h: Hash)
    requires s'.now == s.now && s'.hashes == s.hashes[k := h] && h.deadline.Some?
    ensures LiveMap(s') == if s.now < h.deadline.value then LiveMap(s)[k := SessionOf(h)] else LiveMap(s) - {k}
  {
  }

  // Login and OTP.

  function GrantHash(cfg: Config, s: Store, req: Request): Hash
    requires Grants(req)
  {
    Hash(GrantFields(req), Some(s.now + GrantTtl(cfg, req)))
  }

  /** The store with a new key in it. */
  function Granted(cfg: Config, s: Store, req: Request): Store
    requires Grants(req)
  {
    s.(hashes := s.hashes[GrantKey(req) := GrantHash(cfg, s, req)],
       logins := s.logins[req.uid := Members(s, req.uid) + {GrantKey(req)}])
  }

  /** The three commands that create it. */
  lemma GrantedByCommands(cfg: Config, s: Store, req: Request)
    requires Grants(req) && GrantKey(req) !in s.hashes && GrantKey(req) !in Members(s, req.uid)
    ensures var k := GrantKey(req);
            var s1 := Effect(s, HSet(k, GrantFields(req)));
            var s2 := Effect(s1, Expire(k, GrantTtl(cfg, req)));
            && Live(s1, k)
            && Outcome(s2, SAdd(req.uid, k), []) == Number(1)
            && Effect(s2, SAdd(req.uid, k)) == Granted(cfg, s, req)
  {
    var k := GrantKey(req);
    var s1 := Effect(s, HSet(k, GrantFields(req)));
    assert s1.hashes[k] == Hash(GrantFields(req), None);
    assert Effect(s1, Expire(k, GrantTtl(cfg, req))).hashes == s.hashes[k := GrantHash(cfg, s, req)];
  }

  lemma GrantedIsTidy(cfg: Config, s: Store, used: set<string>, req: Request)
    requires Tidy(s, used) && Grants(req) && req.id !in used
    ensures Tidy(Granted(cfg, s, req), used + {req.id})
  {
    var k, s' := GrantKey(req), Granted(cfg, s, req);
    assert k !in s.hashes;
    assert forall u :: Members(s', u) == if u == req.uid then Members(s, u) + {k} else Members(s, u);
    forall j | Live(s', j) ensures TidyKey(s', j) {
      if j != k { assert Live(s, j) && TidyKey(s, j); }
    }
    forall u, j | j in Members(s', u) && Live(s', j) ensures OwnerOf(s', j) == Some(u) {
      if j != k { assert Live(s, j) && OwnerOf(s, j) == OwnerOf(s', j); }
    }
  }

  lemma GrantedLiveMap(cfg: Config, s: Store, used: set<string>, req: Request)
    requires Grants(req) && GrantKey(req) !in s.hashes
    ensures var x := Session(req.uid, if req.OtpReq? then Some(req.redirect) else None, s.now + GrantTtl(cfg, req));
            LiveMap(Granted(cfg, s, req)) == WithKey(Abs(s, used), GrantKey(req), x).live
  {
    LiveMapUpdate(s, Granted(cfg, s, req), GrantKey(req), GrantHash(cfg, s, req));
  }

  lemma GrantAnswer(cfg: Config, a: Sessions, req: Request)
    requires Grants(req) && |LiveOf(a, req.uid)| < cfg.maxLogins
    ensures var x := Session(req.uid, if req.OtpReq? then Some(req.redirect) else None, a.now + GrantTtl(cfg, req));
            Answer(cfg, a, req) ==
            (Sessions(a.now, WithKey(a, GrantKey(req), x).live, a.used + {req.id}), Reply(OK, req.id))
  {
  }

  /** A Login or OTP that finds room does what SessionSpec says. */
  lemma GrantIsExact(cfg: Config, s: Store, used: set<string>, req: Request)
    requires Tidy(s, used) && Grants(req) && req.id !in used
    requires |LiveMembers(s, req.uid)| < cfg.maxLogins
    ensures (Abs(Granted(cfg, s, req), used + {req.id}), Reply(OK, req.id)) == Answer(cfg, Abs(s, used), req)
  {
    assert GrantKey(req) !in s.hashes;
    assert |LiveOf(Abs(s, used), req.uid)| < cfg.maxLogins by { IndexIsLiveSet(s, used, req.uid); }
    GrantAnswer(cfg, Abs(s, used), req);
    GrantedLiveMap(cfg, s, used, req);
  }

  /** The key has a hash with this deadline and is in the user's index. */
  predicate Stands(s: Store, k: Key, uid: Uid, deadline: int) {
    Expires(s, k, deadline) && k in Members(s, uid)
  }

  predicate Expires(s: Store, k: Key, deadline: int) {
    k in s.hashes && s.hashes[k].deadline == Some(deadline)
  }

  predicate Holds(s: Store, k: Key, fields: map<Field, string>) {
    k in s.hashes && s.hashes[k].fields == fields
  }

  /** To a user of the session manager, the key lives until the deadline. */
  predicate LivesUntil(s: Sessions, k: Key, deadline: int) {
    k in s.live && s.live[k].deadline == deadline
  }

  /** One that meets a full house changes nothing. */
  lemma RefusalIsExact(cfg: Config, s: Store, used: set<string>, req: Request)
    requires Tidy(s, used) && Grants(req)
    requires |LiveMembers(s, req.uid)| >= cfg.maxLogins
    ensures (Abs(s, used + {req.id}), Reply(TOO_MANY_REQUESTS, "")) == Answer(cfg, Abs(s, used), req)
    ensures Tidy(s, used + {req.id})
  {
    IndexIsLiveSet(s, used, req.uid);
  }

  /** The three commands that create a key. */
  function Created(cfg: Config, s: Store, req: Request): Store
    requires Grants(req)
  {
    Effect(Effect(Effect(s, HSet(GrantKey(req), GrantFields(req))), Expire(GrantKey(req), GrantTtl(cfg, req))),
           SAdd(req.uid, GrantKey(req)))
  }

  /** Their results, if the key is new to the store. */
  predicate CreationWorks(cfg: Config, s: Store, req: Request)
    requires Grants(req)
  {
    var s1 := Effect(s, HSet(GrantKey(req), GrantFields(req)));
    && Live(s1, GrantKey(req))
    && Outcome(Effect(s1, Expire(GrantKey(req), GrantTtl(cfg, req))), SAdd(req.uid, GrantKey(req)), []) == Number(1)
  }

  lemma CreatedIsGranted(cfg: Config, s: Store, used: set<string>, req: Request)
    requires Tidy(s, used) && Grants(req) && req.id !in used
    ensures CreationWorks(cfg, s, req) && Created(cfg, s, req) == Granted(cfg, s, req)
    ensures Holds(Created(cfg, s, req), GrantKey(req), GrantFields(req))
  {
    assert GrantKey(req) !in s.hashes;
    GrantedByCommands(cfg, s, req);
  }

  /** Over any store, in order or not, the key ends up with its deadline and in the index. */
  lemma CreatedStands(cfg: Config, s: Store, req: Request)
    requires Grants(req)
    ensures Stands(Created(cfg, s, req), GrantKey(req), req.uid, s.now + GrantTtl(cfg, req))
  {
    var k := GrantKey(req);
    var s1 := Effect(s, HSet(k, GrantFields(req)));
    assert Live(s1, k) && Expires(Effect(s1, Expire(k, GrantTtl(cfg, req))), k, s.now + GrantTtl(cfg, req));
  }

  /** checkCount has left the store as it was, or rid the user's index of its dead members. */
  predicate CountedFrom(s: Store, counted: Store, uid: Uid) {
    counted == s || counted == Evicted(s, uid)
  }

  lemma CountedIsTidy(s: Store, counted: Store, used: set<string>, uid: Uid)
    requires Tidy(s, used) && CountedFrom(s, counted, uid)
    ensures Tidy(counted, used) && Abs(counted, used) == Abs(s, used)
    ensures LiveMembers(counted, uid) == LiveMembers(s, uid)
  {
    EvictedIsTidy(s, used, uid);
  }

  /** After checkCount: if there is room, the three commands that create the key do what
      SessionSpec says. */
  lemma CountedIsExact(cfg: Config, s: Store, counted: Store, used: set<string>, req: Request)
    requires Tidy(s, used) && Grants(req) && req.id !in used && CountedFrom(s, counted, req.uid)
    requires |LiveMembers(s, req.uid)| < cfg.maxLogins
    ensures var s' := Created(cfg, counted, req);
            && CreationWorks(cfg, counted, req)
            && Tidy(s', used + {req.id})
            && (Abs(s', used + {req.id}), Reply(OK, req.id)) == Answer(cfg, Abs(s, used), req)
            && Holds(s', GrantKey(req), GrantFields(req))
  {
    CountedIsTidy(s, counted, used, req.uid);
    CreatedIsGranted(cfg, counted, used, req);
    GrantedIsTidy(cfg, counted, used, req);
    GrantIsExact(cfg, counted, used, req);
  }

  /** If there is none, a refusal at this point does. */
  lemma CountedOutIsExact(cfg: Config, s: Store, counted: Store, used: set<string>, req: Request)
    requires Tidy(s, used) && Grants(req) && CountedFrom(s, counted, req.uid)
    requires |LiveMembers(s, req.uid)| >= cfg.maxLogins
    ensures Tidy(counted, used + {req.id})
    ensures (Abs(counted, used + {req.id}), Reply(TOO_MANY_REQUESTS, "")) == Answer(cfg, Abs(s, used), req)
  {
    CountedIsTidy(s, counted, used, req.uid);
    RefusalIsExact(cfg, counted, used, req);
  }

  lemma WaitingIsTidy(s: Store, used: set<string>, seconds: nat)
    requires Tidy(s, used)
    ensures Tidy(Later(s, seconds), used)
  {
    assert forall u :: Members(Later(s, seconds), u) == Members(s, u);
    forall k | Live(s, k) ensures TidyKey(Later(s, seconds), k) { assert TidyKey(s, k); }
  }

  lemma WaitingIsExact(s: Store, used: set<string>, seconds: nat)
    requires Tidy(s, used)
    ensures Tidy(Later(s, seconds), used)
    ensures Abs(Later(s, seconds), used) == Wait(Abs(s, used), seconds)
  {
    var s' := Later(s, seconds);
    WaitingIsTidy(s, used, seconds);
    assert LiveMap(s') == Wait(Abs(s, used), seconds).live;
  }

  // Valid and Logout.

  lemma TouchedIsTidy(cfg: Config, s: Store, used: set<string>, k: Key)
    requires Tidy(s, used) && k.Token?
    ensures Tidy(Effect(s, Expire(k, cfg.ttl)), used)
  {
    var s' := Effect(s, Expire(k, cfg.ttl));
    assert forall u :: Members(s', u) == Members(s, u);
    forall j | Live(s', j) ensures TidyKey(s', j) { assert Live(s, j) && TidyKey(s, j); }
  }

  /** EXPIRE on a live token is the touch SessionSpec describes; on anything else it is nothing. */
  lemma TouchIsExact(cfg: Config, s: Store, used: set<string>, token: string)
    requires Tidy(s, used)
    ensures var k, s' := Token(token), Effect(s, Expire(Token(token), cfg.ttl));
            && (Live(s, k) ==> (Live(s', k) <==> cfg.ttl > 0) && (OwnerOf(s', k).Some? <==> cfg.ttl > 0))
            && (Live(s, k) && cfg.ttl > 0 ==> LivesUntil(Abs(s', used), k, s.now + cfg.ttl))
            && Abs(s', used) == Answer(cfg, Abs(s, used), ValidReq(token)).0
  {
    var k, s' := Token(token), Effect(s, Expire(Token(token), cfg.ttl));
    if Live(s, k) {
      assert TidyKey(s, k);
      LiveMapUpdate(s, s', k, s'.hashes[k]);
    }
  }

  /** The key has left every index, and no other key has left or joined one. */
  ghost predicate Unlisted(s: Store, s': Store, k: Key) {
    forall u, j :: j in Members(s', u) <==> j in Members(s, u) && j != k
  }

  /** HDEL and SREM at the end of a Logout. */
  function LoggedOut(s: Store, k: Key, uid: Uid): Store {
    Effect(Effect(s, HDel(k, {UserId, Remote})), SRem(uid, [k]))
  }

  lemma LogoutIsExact(s: Store, used: set<string>, k: Key)
    requires Tidy(s, used) && k.Token? && Live(s, k) && OwnerOf(s, k).Some?
    ensures var s' := LoggedOut(s, k, OwnerOf(s, k).value);
            Tidy(s', used) && Abs(s', used) == Without(Abs(s, used), {k}) && Unlisted(s, s', k)
  {
    var uid, s' := OwnerOf(s, k).value, LoggedOut(s, k, OwnerOf(s, k).value);
    assert s'.hashes == s.hashes - {k} && s'.now == s.now by {
      assert TidyKey(s, k);
      assert s.hashes[k].fields - {UserId, Remote} == map[];
    }
    assert Elements([k]) == {k};
    assert forall u :: Members(s', u) == if u == uid then Members(s, u) - {k} else Members(s, u);
    assert Shrinks(s, s', {k});
    ShrunkIsTidy(s, s', used, {k});
    ShrunkLiveMap(s, s', {k});
  }

  lemma LogoutForgetsTheTouch(cfg: Config, a: Sessions, token: string)
    requires Token(token) in a.live && cfg.ttl > 0
    ensures Answer(cfg, a, LogoutReq(token)) ==
            (Without(Answer(cfg, a, ValidReq(token)).0, {Token(token)}), Reply(NO_CONTENT, ""))
  {
    assert Without(Answer(cfg, a, ValidReq(token)).0, {Token(token)}).live == a.live - {Token(token)};
  }

  /** All of Logout: the touch, then the two deletions. A touch that leaves the token no time to
      live has already removed it, and no owner is found. */
  function LogoutEffect(cfg: Config, s: Store, token: string): (Store, int) {
    var k := Token(token);
    var touched := Effect(s, Expire(k, cfg.ttl));
    if !Live(s, k) then (touched, TEMPORARY_REDIRECT)
    else if OwnerOf(touched, k).None? then (touched, FORBIDDEN)
    else (LoggedOut(touched, k, OwnerOf(touched, k).value), NO_CONTENT)
  }

  lemma LogoutFlow(cfg: Config, s: Store, used: set<string>, token: string)
    requires Tidy(s, used)
    ensures var (s', code) := LogoutEffect(cfg, s, token);
            Tidy(s', used) && (Abs(s', used), Reply(code, "")) == Answer(cfg, Abs(s, used), LogoutReq(token))
    ensures var (s', code) := LogoutEffect(cfg, s, token); code == NO_CONTENT ==> Unlisted(s, s', Token(token))
  {
    var k, a := Token(token), Abs(s, used);
    if Live(s, k) {
      var touched := Effect(s, Expire(k, cfg.ttl));
      assert Tidy(touched, used) by { TouchedIsTidy(cfg, s, used, k); }
      TouchIsExact(cfg, s, used, token);
      if cfg.ttl > 0 {
        LogoutIsExact(touched, used, k);
        LogoutForgetsTheTouch(cfg, a, token);
      }
    }
  }

  // LoginOTP and CompleteOTP.

  /** HGETALL of a pad shows exactly what SessionSpec knows of it. */
  lemma FetchIsExact(s: Store, used: set<string>, pad: string)
    requires Tidy(s, used)
    ensures var fields, sessions := FieldsOf(s, Pad(pad)), Abs(s, used);
            && (UserId in fields <==> Pad(pad) in sessions.live)
            && (UserId in fields ==>
                  && sessions.live[Pad(pad)].owner == fields[UserId]
                  && Redirect in fields && sessions.live[Pad(pad)].redirect == Some(fields[Redirect]))
  {
  }

  /** The store with the hashes of these keys, those that live, deleted. */
  function Wiped(s: Store, keys: set<Key>): Store {
    s.(hashes := s.hashes - (set k | k in keys && Live(s, k)))
  }

  lemma NothingElseIsStored(fields: map<Field, string>)
    ensures fields - {UserId, Remote, Redirect} == map[]
  {
    forall f ensures f !in fields - {UserId, Remote, Redirect} {
      match f
      case UserId =>
      case Remote =>
      case Redirect =>
    }
  }

  lemma WipeOneMore(s: Store, keys: set<Key>, k: Key)
    ensures Effect(Wiped(s, keys), HDel(k, {UserId, Remote, Redirect})) == Wiped(s, keys + {k})
  {
    var s1, s2 := Wiped(s, keys), Wiped(s, keys + {k});
    if Live(s1, k) { NothingElseIsStored(s1.hashes[k].fields); }
    assert forall j :: j in s2.hashes <==> j in s1.hashes && !(j == k && Live(s1, k));
    assert Effect(s1, HDel(k, {UserId, Remote, Redirect})).hashes == s2.hashes;
  }

  /** The user's whole index, and every hash it names, gone. */
  function SweptClean(s: Store, uid: Uid): Store {
    Wiped(s, Members(s, uid)).(logins := s.logins[uid := {}])
  }

  lemma SweepByCommands(s: Store, uid: Uid, listing: seq<Key>)
    requires IsListing(listing, Members(s, uid))
    ensures Effect(Wiped(s, Elements(listing)), SRem(uid, listing)) == SweptClean(s, uid)
  {
    assert Members(s, uid) - Elements(listing) == {};
  }

  /** CompleteOTP's sweep removes the sessions and pads of one user and touches nobody else. */
  lemma SweepIsExact(s: Store, s': Store, used: set<string>, uid: Uid)
    requires Tidy(s, used)
    requires s' == SweptClean(s, uid) || (s' == s && Members(s, uid) == {})
    ensures Tidy(s', used)
    ensures Abs(s', used) == Without(Abs(s, used), LiveOf(Abs(s, used), uid))
  {
    var gone := LiveOf(Abs(s, used), uid);
    assert LiveMembers(s, uid) == gone by { IndexIsLiveSet(s, used, uid); }
    assert forall u :: Members(s', u) == if u == uid then {} else Members(s, u);
    assert Shrinks(s, s', gone);
    ShrunkIsTidy(s, s', used, gone);
    ShrunkLiveMap(s, s', gone);
  }

  /** Everybody but uid keeps their hashes and their index. */
  ghost predicate Untouched(s: Store, s': Store, uid: Uid) {
    && (forall u :: u != uid ==> Members(s', u) == Members(s, u))
    && (forall k :: OwnerOf(s, k) != Some(uid) ==> FieldsOf(s', k) == FieldsOf(s, k))
  }

  lemma SweepSparesOthers(s: Store, used: set<string>, uid: Uid)
    requires Tidy(s, used)
    ensures Untouched(s, SweptClean(s, uid), uid)
  {
  }
}
