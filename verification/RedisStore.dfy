/** The nine Redis commands used by the session manager, as pure functions of a store.
    A hash exists while it has a field left and its deadline lies in the future; a dead
    hash may stay in the map, but no command can tell it from an absent one. */
module RedisStore {
  import opened Common

  // "token:<id>" and "pad:<id>" name hashes; "logins:<uid>" names a set of such keys.
  datatype Key = Token(id: string) | Pad(id: string)

  datatype Field = UserId | Remote | Redirect

  datatype Hash = Hash(fields: map<Field, string>, deadline: Option<int>)

  datatype Store = Store(now: int, hashes: map<Key, Hash>, logins: map<Uid, set<Key>>)

  predicate Live(s: Store, k: Key) {
    k in s.hashes && (s.hashes[k].deadline.Some? ==> s.now < s.hashes[k].deadline.value)
  }

  function Members(s: Store, uid: Uid): set<Key> {
    if uid in s.logins then s.logins[uid] else {}
  }

  function FieldsOf(s: Store, k: Key): map<Field, string> {
    if Live(s, k) then s.hashes[k].fields else map[]
  }

  /** The key's owner as its hash records it. */
  function OwnerOf(s: Store, k: Key): Option<string> {
    if UserId in FieldsOf(s, k) then Some(FieldsOf(s, k)[UserId]) else None
  }

  datatype Command =
    | Exists(key: Key)
    | Expire(key: Key, ttl: int)
    | HDel(key: Key, names: set<Field>)
    | HGet(key: Key, name: Field)
    | HGetAll(key: Key)
    | HSet(key: Key, values: map<Field, string>)
    | SAdd(uid: Uid, key: Key)
    | SMembers(uid: Uid)
    | SRem(uid: Uid, keys: seq<Key>)

  datatype Result =
    | Failed(msg: string)
    | Number(n: nat)
    | Flag(yes: bool)
    | Text(text: Option<string>)
    | Fields(fields: map<Field, string>)
    | Listing(keys: seq<Key>)

  function Elements(keys: seq<Key>): set<Key> {
    set k | k in keys
  }

  predicate NoDuplicates(keys: seq<Key>) {
    forall i, j :: 0 <= i < j < |keys| ==> keys[i] != keys[j]
  }

  /** SMEMBERS lists a set once each, in an order of the server's choosing. */
  predicate IsListing(keys: seq<Key>, members: set<Key>) {
    NoDuplicates(keys) && Elements(keys) == members
  }

  function Effect(s: Store, cmd: Command): Store {
    match cmd
    case Exists(_) => s
    case HGet(_, _) => s
    case HGetAll(_) => s
    case SMembers(_) => s
    case HSet(k, values) =>
      s.(hashes := s.hashes[k := if Live(s, k)
                                 then Hash(s.hashes[k].fields + values, s.hashes[k].deadline)
                                 else Hash(values, None)])
    case Expire(k, ttl) =>
      // a time to live of zero or less leaves the deadline in the past, which kills the key
      if Live(s, k) then s.(hashes := s.hashes[k := s.hashes[k].(deadline := Some(s.now + ttl))])
      else s
    case HDel(k, names) =>
      if !Live(s, k) then s
      else
        var left := s.hashes[k].fields - names;
        if left == map[] then s.(hashes := s.hashes - {k})
        else s.(hashes := s.hashes[k := s.hashes[k].(fields := left)])
    case SAdd(uid, k) => s.(logins := s.logins[uid := Members(s, uid) + {k}])
    case SRem(uid, keys) => s.(logins := s.logins[uid := Members(s, uid) - Elements(keys)])
  }

  function Outcome(s: Store, cmd: Command, order: seq<Key>): Result {
    match cmd
    case Exists(k) => Number(if Live(s, k) then 1 else 0)
    case HGet(k, name) =>
      Text(if name in FieldsOf(s, k) then Some(FieldsOf(s, k)[name]) else None)
    case HGetAll(k) => Fields(FieldsOf(s, k))
    case SMembers(_) => Listing(order)
    case HSet(k, values) => Number(|values.Keys - FieldsOf(s, k).Keys|)
    case Expire(k, _) => Flag(Live(s, k))
    case HDel(k, names) => Number(|FieldsOf(s, k).Keys * names|)
    case SAdd(uid, k) => Number(if k in Members(s, uid) then 0 else 1)
    case SRem(uid, keys) => Number(|Members(s, uid) * Elements(keys)|)
  }

  function Execute(s: Store, cmd: Command, fault: Fault, order: seq<Key>): (Store, Result) {
    match fault
    case Fine => (Effect(s, cmd), Outcome(s, cmd, order))
    case Lost(applied, msg) => (if applied then Effect(s, cmd) else s, Failed(msg))
  }

  predicate ResultFits(cmd: Command, res: Result) {
    res.Failed? ||
    match cmd
    case Exists(_) => res.Number?
    case Expire(_, _) => res.Flag?
    case HDel(_, _) => res.Number?
    case HGet(_, _) => res.Text?
    case HGetAll(_) => res.Fields?
    case HSet(_, _) => res.Number?
    case SAdd(_, _) => res.Number?
    case SMembers(_) => res.Listing?
    case SRem(_, _) => res.Number?
  }

  function Later(s: Store, seconds: nat): Store {
    s.(now := s.now + seconds)
  }

  lemma ExecuteIsEffectOrNothing(s: Store, cmd: Command, fault: Fault, order: seq<Key>)
    ensures var after := Execute(s, cmd, fault, order).0; after == s || after == Effect(s, cmd)
  {
  }

  /** Only HSET brings a key to life: nothing else, and no passage of time, revives a dead one. */
  lemma OnlyHSetRevives(s: Store, cmd: Command, fault: Fault, order: seq<Key>, k: Key)
    ensures Live(Execute(s, cmd, fault, order).0, k) ==> Live(s, k) || (cmd.HSet? && cmd.key == k)
    ensures Execute(s, cmd, fault, order).0.now == s.now
  {
  }

  lemma FieldsAfterEffect(s: Store, cmd: Command, k: Key)
    requires k in Effect(s, cmd).hashes
    ensures var after := Effect(s, cmd).hashes[k].fields;
            || (k in s.hashes && after == s.hashes[k].fields)
            || (cmd.HSet? && cmd.key == k &&
                after == if Live(s, k) then s.hashes[k].fields + cmd.values else cmd.values)
            || (cmd.HDel? && cmd.key == k && k in s.hashes &&
                after == s.hashes[k].fields - cmd.names && after != map[])
  {
  }

  /** Where the fields of a hash come from: they are as before, or HSET set them on a key that
      did not live, or merged them into one that did, or HDEL left a proper part of them. */
  lemma FieldsChangeByName(s: Store, cmd: Command, fault: Fault, order: seq<Key>, k: Key)
    requires k in Execute(s, cmd, fault, order).0.hashes
    ensures var after := Execute(s, cmd, fault, order).0.hashes[k].fields;
            || (k in s.hashes && after == s.hashes[k].fields)
            || (cmd.HSet? && cmd.key == k &&
                after == if Live(s, k) then s.hashes[k].fields + cmd.values else cmd.values)
            || (cmd.HDel? && cmd.key == k && k in s.hashes &&
                after == s.hashes[k].fields - cmd.names && after != map[])
  {
    ExecuteIsEffectOrNothing(s, cmd, fault, order);
    if Execute(s, cmd, fault, order).0 != s { FieldsAfterEffect(s, cmd, k); }
  }

  /** HDEL of all the fields a hash has leaves nothing behind. */
  lemma HDelKills(s: Store, k: Key, names: set<Field>)
    requires FieldsOf(s, k).Keys <= names
    ensures !Live(Effect(s, HDel(k, names)), k)
  {
    if Live(s, k) { assert s.hashes[k].fields - names == map[]; }
  }

  lemma SetsAfterEffect(s: Store, cmd: Command, uid: Uid, k: Key)
    ensures var after := Members(Effect(s, cmd), uid);
            && (k in after ==> k in Members(s, uid) || cmd == SAdd(uid, k))
            && (k in Members(s, uid) ==> k in after || (cmd.SRem? && cmd.uid == uid && k in cmd.keys))
  {
  }

  /** Only SADD puts a key into a set and only SREM takes one out. */
  lemma SetsChangeByName(s: Store, cmd: Command, fault: Fault, order: seq<Key>, uid: Uid, k: Key)
    ensures var after := Members(Execute(s, cmd, fault, order).0, uid);
            && (k in after ==> k in Members(s, uid) || cmd == SAdd(uid, k))
            && (k in Members(s, uid) ==> k in after || (cmd.SRem? && cmd.uid == uid && k in cmd.keys))
  {
    ExecuteIsEffectOrNothing(s, cmd, fault, order);
    SetsAfterEffect(s, cmd, uid, k);
  }

  lemma SubsetSize(a: set<Key>, b: set<Key>)
    requires a <= b
    ensures |a| <= |b|
    ensures |b - a| == |b| - |a|
  {
    assert b == a + (b - a);
  }

  lemma ListingSize(keys: seq<Key>, members: set<Key>)
    requires IsListing(keys, members)
    ensures |keys| == |members|
    decreases |keys|
  {
    if keys == [] {
      assert members == {};
    } else {
      var n := |keys| - 1;
      assert forall k :: k in members <==> k in keys;
      assert forall k :: k in keys <==> k in keys[..n] || k == keys[n];
      assert Elements(keys[..n]) == members - {keys[n]};
      ListingSize(keys[..n], members - {keys[n]});
    }
  }

  // What a result says about the effect.

  /** EXISTS and EXPIRE tell whether the key lives. */
  lemma KeyResults(s: Store, k: Key, ttl: int, order: seq<Key>)
    ensures Outcome(s, Exists(k), order) == Number(if Live(s, k) then 1 else 0)
    ensures Outcome(s, Expire(k, ttl), order) == Flag(Live(s, k))
    ensures Live(Effect(s, Expire(k, ttl)), k) <==> Live(s, k) && ttl > 0
  {
  }

  /** SADD tells by how many keys the set has grown. */
  lemma SAddResult(s: Store, uid: Uid, k: Key, order: seq<Key>)
    ensures var res := Outcome(s, SAdd(uid, k), order);
            res.Number? && |Members(Effect(s, SAdd(uid, k)), uid)| == |Members(s, uid)| + res.n
  {
    var before, after := Members(s, uid), Members(Effect(s, SAdd(uid, k)), uid);
    assert after == before + {k};
    if k in before { assert after == before; }
  }

  /** SREM tells by how many it has shrunk. */
  lemma SRemResult(s: Store, uid: Uid, keys: seq<Key>, order: seq<Key>)
    ensures var res := Outcome(s, SRem(uid, keys), order);
            res.Number? && |Members(Effect(s, SRem(uid, keys)), uid)| == |Members(s, uid)| - res.n
  {
    var before, gone := Members(s, uid), Elements(keys);
    SubsetSize(before * gone, before);
    assert before - gone == before - before * gone;
  }

  // The key spaces as Redis sees them.

  function KeyText(k: Key): string {
    match k
    case Token(id) => "token:" + id
    case Pad(id) => "pad:" + id
  }

  function LoginsText(uid: Uid): string {
    "logins:" + uid
  }

  /** Distinct keys have distinct texts and none of them names a login set, so the model may
      keep hashes and sets apart and use Key for the text. */
  lemma {:induction false} KeyTextsAreDistinct(a: Key, b: Key, u: Uid, v: Uid)
    ensures KeyText(a) == KeyText(b) <==> a == b
    ensures LoginsText(u) == LoginsText(v) <==> u == v
    ensures KeyText(a) != LoginsText(u)
  {
    assert KeyText(a)[0] == if a.Token? then 't' else 'p';
    assert KeyText(b)[0] == if b.Token? then 't' else 'p';
    assert LoginsText(u)[0] == 'l';
    assert LoginsText(u)[7..] == u && LoginsText(v)[7..] == v;
    assert KeyText(a)[if a.Token? then 6 else 4..] == a.id;
    assert KeyText(b)[if b.Token? then 6 else 4..] == b.id;
  }
}
