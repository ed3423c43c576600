/** Any number of requests against one Redis, interleaved command by command with each other,
    with the clock and with store errors. The history variables owner, made and issued record
    what has happened and never influence a step; used does in one place, the freshness of
    uuids: an id that was drawn before is not drawn again. */
module Interleaving {
  import opened Common
  import opened RedisStore
  import opened Handlers

  /** One request in progress or answered. before and gone are taken when it starts: the keys
      on record by then, and the keys that had lived and died by then. */
  datatype ProcState = ProcState(req: Request, pc: Pc, before: set<Key>, gone: set<Key>)

  type Proc = x: ProcState | PcFits(x.req, x.pc)
    witness ProcState(ValidReq(""), Probing, {}, {})

  datatype World = World(
    store: Store,
    used: set<string>,       // every uuid ever drawn
    owner: map<Key, Uid>,    // for whom each key was drawn
    made: set<Key>,          // keys whose HSET has been sent
    issued: set<Key>,        // keys handed out with status 200
    procs: seq<Proc>)

  predicate Dead(w: World, k: Key) {
    k in w.made && !Live(w.store, k)
  }

  function Departed(w: World): set<Key> {
    set k | k in w.made && !Live(w.store, k)
  }

  /** Some user's index names the key. */
  ghost predicate Indexed(w: World, k: Key) {
    exists u :: k in Members(w.store, u)
  }

  /** The keys handed out or in their user's index: those a sweep of that index can find. */
  function OnRecord(w: World): set<Key> {
    set k | k in w.made && (k in w.issued || (k in w.owner && k in Members(w.store, w.owner[k])))
  }

  function Init(now: int): World {
    World(Store(now, map[], map[]), {}, map[], {}, {}, [])
  }

  datatype Action =
    | Start(req: Request)
    | Advance(p: nat, fault: Fault, order: seq<Key>)
    | Tick(seconds: nat)

  predicate Running(w: World, p: nat) {
    p < |w.procs| && !w.procs[p].pc.Replied?
  }

  /** The command request p sends next. */
  function Pending(cfg: Config, w: World, p: nat): Command
    requires Running(w, p)
  {
    Next(cfg, w.procs[p].req, w.procs[p].pc)
  }

  predicate Enabled(cfg: Config, w: World, a: Action) {
    match a
    case Start(req) => Grants(req) ==> req.id !in w.used
    case Advance(p, _, order) =>
      && Running(w, p)
      && (Pending(cfg, w, p).SMembers? ==> IsListing(order, Members(w.store, Pending(cfg, w, p).uid)))
    case Tick(_) => true
  }

  function StartStep(w: World, req: Request): World {
    var proc := ProcState(req, Begin(req), OnRecord(w), Departed(w));
    if Grants(req) then
      w.(used := w.used + {req.id}, owner := w.owner[GrantKey(req) := req.uid], procs := w.procs + [proc])
    else
      w.(procs := w.procs + [proc])
  }

  function AdvancePc(cfg: Config, w: World, p: nat, fault: Fault, order: seq<Key>): (pc: Pc)
    requires Running(w, p)
    ensures PcFits(w.procs[p].req, pc)
  {
    Resume(cfg, w.procs[p].req, w.procs[p].pc, Execute(w.store, Pending(cfg, w, p), fault, order).1)
  }

  function AdvanceStep(cfg: Config, w: World, p: nat, fault: Fault, order: seq<Key>): World
    requires Running(w, p)
  {
    var proc := w.procs[p];
    var pc := AdvancePc(cfg, w, p, fault, order);
    w.(store := Execute(w.store, Pending(cfg, w, p), fault, order).0,
       made := if proc.pc.Storing? then w.made + {GrantKey(proc.req)} else w.made,
       issued := if proc.pc.Indexing? && pc == Replied(Reply(OK, proc.req.id))
                 then w.issued + {GrantKey(proc.req)} else w.issued,
       procs := w.procs[p := proc.(pc := pc)])
  }

  function Step(cfg: Config, w: World, a: Action): World
    requires Enabled(cfg, w, a)
  {
    match a
    case Start(req) => StartStep(w, req)
    case Advance(p, fault, order) => AdvanceStep(cfg, w, p, fault, order)
    case Tick(seconds) => w.(store := Later(w.store, seconds))
  }

  // Runs, extended one action at a time.

  predicate Runs(cfg: Config, w: World, acts: seq<Action>)
    decreases |acts|, 0
  {
    acts == [] ||
    var n := |acts| - 1;
    Runs(cfg, w, acts[..n]) && Enabled(cfg, Run(cfg, w, acts[..n]), acts[n])
  }

  function Run(cfg: Config, w: World, acts: seq<Action>): World
    requires Runs(cfg, w, acts)
    decreases |acts|, 1
  {
    if acts == [] then w
    else
      var n := |acts| - 1;
      Step(cfg, Run(cfg, w, acts[..n]), acts[n])
  }

  lemma RunSnoc(cfg: Config, w: World, acts: seq<Action>, a: Action)
    requires Runs(cfg, w, acts) && Enabled(cfg, Run(cfg, w, acts), a)
    ensures Runs(cfg, w, acts + [a])
    ensures Run(cfg, w, acts + [a]) == Step(cfg, Run(cfg, w, acts), a)
  {
    assert (acts + [a])[..|acts|] == acts;
  }
}
