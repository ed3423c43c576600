/** Logins, password changes and resets interleaved statement by statement: each SELECT and
    each UPDATE is one step, may act on a stale copy of the row, and may fail before or after
    it took effect. */
module AuthInterleaving {
  import opened Common
  import opened AuthSpec

  datatype Request =
    | LoginReq(uid: Uid, pass: Password)
    | ChangeReq(uid: Uid, pass: Password, new_: Password)
    | ResetReq(uid: Uid, seed: Password)

  datatype Pc =
    | Reading                                       // SELECT the row
    | Recording(row: Row, verdict: Option<Err>)     // Login: UPDATE with the outcome
    | Replacing(row: Row)                           // ChangePassword, ResetPassword: UPDATE the password
    | Answered(err: Option<Err>)

  /** What the request does with the row it has read. */
  function AfterRead(req: Request, row: Row, now: int, max: uint8): Pc {
    if req.ResetReq? then Replacing(WithPassword(row, req.seed, now))
    else
      var verdict := Check(row, req.pass, max);
      if verdict == Some(MaxFailedLogin) then Answered(verdict)
      else Recording(LoginRow(row, req.pass, now, max), verdict)
  }

  /** ... and once the login has been recorded. */
  function AfterRecord(req: Request, row: Row, verdict: Option<Err>, now: int): Pc {
    if verdict.Some? || !req.ChangeReq? then Answered(verdict)
    else if Validate(AuthOf(req.uid, row), req.new_).Some? then Answered(Validate(AuthOf(req.uid, row), req.new_))
    else Replacing(WithPassword(row, req.new_, now))
  }

  function AfterUpdate(t: Table, uid: Uid, pc: Pc): Pc {
    if uid in t then pc else Answered(Some(UserNotUpdated))
  }

  function Step(t: Table, req: Request, pc: Pc, fault: Fault, now: int, max: uint8): (Table, Pc)
    requires !pc.Answered?
  {
    var t' := if pc.Reading? then t else Update(t, AuthOf(req.uid, pc.row));
    match fault
    case Lost(applied, msg) => (if applied then t' else t, Answered(Some(DbFailure(msg))))
    case Fine =>
      match pc
      case Reading => (t, if req.uid in t then AfterRead(req, t[req.uid], now, max) else Answered(Some(NoRows)))
      case Recording(row, verdict) => (t', AfterUpdate(t, req.uid, AfterRecord(req, row, verdict, now)))
      case Replacing(row) => (t', AfterUpdate(t, req.uid, Answered(None)))
  }

  // Alone and with nothing failing, the statements add up to the functions of AuthSpec.

  function Rank(pc: Pc): nat {
    match pc
    case Reading => 3
    case Recording(_, _) => 2
    case Replacing(_) => 1
    case Answered(_) => 0
  }

  function Alone(t: Table, req: Request, pc: Pc, now: int, max: uint8): (Table, Option<Err>)
    decreases Rank(pc)
  {
    if pc.Answered? then (t, pc.err)
    else
      var (t', pc') := Step(t, req, pc, Fine, now, max);
      Alone(t', req, pc', now, max)
  }

  lemma OneStepAlone(t: Table, req: Request, pc: Pc, now: int, max: uint8)
    requires !pc.Answered?
    ensures var (t', pc') := Step(t, req, pc, Fine, now, max);
            Alone(t, req, pc, now, max) == Alone(t', req, pc', now, max)
  {
  }

  lemma ReplacingAlone(t: Table, req: Request, p: Password, now: int, max: uint8)
    requires req.uid in t
    ensures Alone(t, req, Replacing(WithPassword(t[req.uid], p, now)), now, max) ==
            (t[req.uid := WithPassword(t[req.uid], p, now)], None)
  {
    var row := WithPassword(t[req.uid], p, now);
    OneStepAlone(t, req, Replacing(row), now, max);
    assert Update(t, AuthOf(req.uid, row)) == t[req.uid := row];
  }

  lemma RecordingAlone(t: Table, req: Request, now: int, max: uint8)
    requires req.uid in t && !req.ResetReq?
    ensures var row, verdict := LoginRow(t[req.uid], req.pass, now, max), Check(t[req.uid], req.pass, max);
            Alone(t, req, Recording(row, verdict), now, max) ==
            Alone(t[req.uid := row], req, AfterRecord(req, row, verdict, now), now, max)
  {
    var row, verdict := LoginRow(t[req.uid], req.pass, now, max), Check(t[req.uid], req.pass, max);
    OneStepAlone(t, req, Recording(row, verdict), now, max);
    assert Update(t, AuthOf(req.uid, row)) == t[req.uid := row];
  }

  lemma AloneIsSpec(t: Table, req: Request, now: int, max: uint8)
    ensures Alone(t, req, Reading, now, max) ==
            match req
            case LoginReq(uid, p) => Login(t, uid, p, now, max)
            case ChangeReq(uid, p, new_) => ChangePassword(t, uid, p, new_, now, max)
            case ResetReq(uid, seed) => ResetPassword(t, uid, seed, now)
  {
    OneStepAlone(t, req, Reading, now, max);
    if req.uid in t {
      if req.ResetReq? {
        ReplacingAlone(t, req, req.seed, now, max);
      } else {
        var row := LoginRow(t[req.uid], req.pass, now, max);
        assert t[req.uid := t[req.uid]] == t;
        RecordingAlone(t, req, now, max);
        if req.ChangeReq? { ReplacingAlone(t[req.uid := row], req, req.new_, now, max); }
      }
    }
  }

  // Everything at once.

  datatype Proc = Proc(req: Request, pc: Pc)

  datatype World = World(table: Table, procs: seq<Proc>)

  datatype Action =
    | Start(req: Request)
    | Enroll(uid: Uid, row: Row)             // AddUser: a new row, with no failures yet
    | Advance(p: nat, fault: Fault, now: int)

  predicate Enabled(w: World, a: Action) {
    match a
    case Start(_) => true
    case Enroll(uid, row) => uid !in w.table && row.failureCount == 0
    case Advance(p, _, _) => p < |w.procs| && !w.procs[p].pc.Answered?
  }

  function Next(w: World, a: Action, max: uint8): World
    requires Enabled(w, a)
  {
    match a
    case Start(req) => w.(procs := w.procs + [Proc(req, Reading)])
    case Enroll(uid, row) => w.(table := w.table[uid := row])
    case Advance(p, fault, now) =>
      var (t, pc) := Step(w.table, w.procs[p].req, w.procs[p].pc, fault, now, max);
      World(t, w.procs[p := w.procs[p].(pc := pc)])
  }

  predicate Runs(w: World, acts: seq<Action>, max: uint8)
    decreases |acts|, 0
  {
    acts == [] ||
    var n := |acts| - 1;
    Runs(w, acts[..n], max) && Enabled(Run(w, acts[..n], max), acts[n])
  }

  function Run(w: World, acts: seq<Action>, max: uint8): World
    requires Runs(w, acts, max)
    decreases |acts|, 1
  {
    if acts == [] then w
    else
      var n := |acts| - 1;
      Next(Run(w, acts[..n], max), acts[n], max)
  }

  lemma RunSnoc(w: World, acts: seq<Action>, a: Action, max: uint8)
    requires Runs(w, acts, max) && Enabled(Run(w, acts, max), a)
    ensures Runs(w, acts + [a], max)
    ensures Run(w, acts + [a], max) == Next(Run(w, acts, max), a, max)
  {
    assert (acts + [a])[..|acts|] == acts;
  }

  /** No counter, stored or about to be stored, is more than one above the limit. */
  predicate CountersOk(w: World, max: uint8) {
    && (forall uid :: uid in w.table ==> w.table[uid].failureCount <= max + 1)
    && (forall i :: 0 <= i < |w.procs| ==>
          match w.procs[i].pc
          case Recording(row, _) => row.failureCount <= max + 1
          case Replacing(row) => row.failureCount == 0
          case _ => true)
  }

  lemma NextKeepsCounters(w: World, a: Action, max: uint8)
    requires max < 255 && CountersOk(w, max) && Enabled(w, a)
    ensures CountersOk(Next(w, a, max), max)
  {
  }

  /** Whatever interleaves and whatever fails, FailureCount stays at most maxfailure + 1. */
  lemma {:induction false} CountersStayBounded(w: World, acts: seq<Action>, max: uint8)
    requires max < 255 && CountersOk(w, max) && Runs(w, acts, max)
    ensures CountersOk(Run(w, acts, max), max)
    decreases |acts|
  {
    if acts != [] {
      var n := |acts| - 1;
      CountersStayBounded(w, acts[..n], max);
      NextKeepsCounters(Run(w, acts[..n], max), acts[n], max);
    }
  }

  /** So the byte never wraps: every rejection a request is about to record is one more than the
      count it read, however stale. */
  lemma IncrementNeverWraps(w: World, acts: seq<Action>, max: uint8, p: nat, now: int)
    requires max < 255 && CountersOk(w, max) && Runs(w, acts, max)
    requires var v := Run(w, acts, max);
             Enabled(v, Advance(p, Fine, now)) && v.procs[p].pc.Reading? && v.procs[p].req.uid in v.table
    ensures var v := Run(w, acts, max);
            var pc := Next(v, Advance(p, Fine, now), max).procs[p].pc;
            pc.Recording? && pc.verdict.Some? ==>
              pc.row.failureCount == v.table[v.procs[p].req.uid].failureCount + 1 <= max + 1
  {
    CountersStayBounded(w, acts, max);
  }
}
