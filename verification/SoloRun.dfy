/** One request handled with nothing in between, any of its commands failing: the view the
    sequential code has of itself, and a special case of Interleaving. */
module SoloRun {
  import opened Common
  import opened RedisStore
  import opened Handlers
  import opened Interleaving

  datatype Moment = Moment(store: Store, pc: Pc)

  ghost predicate StepsBy(cfg: Config, req: Request, a: Moment, fault: Fault, order: seq<Key>, b: Moment)
    requires PcFits(req, a.pc) && !a.pc.Replied?
  {
    var cmd := Next(cfg, req, a.pc);
    && (cmd.SMembers? ==> IsListing(order, Members(a.store, cmd.uid)))
    && b == Moment(Execute(a.store, cmd, fault, order).0,
                   Resume(cfg, req, a.pc, Execute(a.store, cmd, fault, order).1))
  }

  ghost predicate CanStep(cfg: Config, req: Request, a: Moment, b: Moment) {
    PcFits(req, a.pc) && !a.pc.Replied? && exists fault, order :: StepsBy(cfg, req, a, fault, order, b)
  }

  ghost predicate AdjacentAt(steps: seq<Moment>, i: nat, a: Moment, b: Moment) {
    i + 1 < |steps| && steps[i] == a && steps[i + 1] == b
  }

  ghost predicate Consecutive(steps: seq<Moment>, a: Moment, b: Moment) {
    exists i: nat :: AdjacentAt(steps, i, a, b)
  }

  ghost predicate Path(cfg: Config, req: Request, steps: seq<Moment>) {
    forall a, b :: Consecutive(steps, a, b) ==> CanStep(cfg, req, a, b)
  }

  /** Handling req takes the store from one state to the other and answers with reply. */
  ghost predicate Handles(cfg: Config, before: Store, req: Request, after: Store, reply: Reply) {
    exists steps ::
      && |steps| > 0 && Path(cfg, req, steps)
      && steps[0] == Moment(before, Begin(req)) && steps[|steps| - 1] == Moment(after, Replied(reply))
  }

  lemma PathGrows(cfg: Config, req: Request, steps: seq<Moment>, b: Moment)
    requires Path(cfg, req, steps) && |steps| > 0 && CanStep(cfg, req, steps[|steps| - 1], b)
    ensures Path(cfg, req, steps + [b])
  {
    forall x, y | Consecutive(steps + [b], x, y) ensures CanStep(cfg, req, x, y) {
      var i: nat :| AdjacentAt(steps + [b], i, x, y);
      if i + 1 < |steps| {
        assert AdjacentAt(steps, i, x, y);
        assert Consecutive(steps, x, y);
      }
    }
  }

  lemma LastStep(cfg: Config, req: Request, steps: seq<Moment>)
    requires Path(cfg, req, steps) && |steps| >= 2
    ensures CanStep(cfg, req, steps[|steps| - 2], steps[|steps| - 1])
    ensures Path(cfg, req, steps[..|steps| - 1])
  {
    var i, init := |steps| - 2, steps[..|steps| - 1];
    assert AdjacentAt(steps, i, steps[i], steps[i + 1]);
    assert Consecutive(steps, steps[i], steps[i + 1]);
    forall x, y | Consecutive(init, x, y) ensures CanStep(cfg, req, x, y) {
      var j: nat :| AdjacentAt(init, j, x, y);
      assert AdjacentAt(steps, j, x, y);
      assert Consecutive(steps, x, y);
    }
  }

  ghost predicate Ends(w: World, w': World, req: Request, m: Moment) {
    && w'.store == m.store && |w'.procs| == |w.procs| + 1
    && w'.procs[|w.procs|].req == req && w'.procs[|w.procs|].pc == m.pc
  }

  lemma OneStepIsRun(cfg: Config, w: World, w': World, req: Request, a: Moment, b: Moment) returns (act: Action)
    requires Ends(w, w', req, a) && CanStep(cfg, req, a, b)
    ensures Enabled(cfg, w', act) && Ends(w, Step(cfg, w', act), req, b)
  {
    var fault, order :| StepsBy(cfg, req, a, fault, order, b);
    act := Advance(|w.procs|, fault, order);
  }

  /** A request handled alone is a run of the interleaved system, from whatever state the other
      requests are in. */
  lemma {:induction false} SoloIsRun(cfg: Config, w: World, req: Request, steps: seq<Moment>) returns (acts: seq<Action>)
    requires Enabled(cfg, w, Start(req))
    requires Path(cfg, req, steps) && |steps| > 0 && steps[0] == Moment(w.store, Begin(req))
    ensures Runs(cfg, StartStep(w, req), acts)
    ensures Ends(w, Run(cfg, StartStep(w, req), acts), req, steps[|steps| - 1])
    decreases |steps|
  {
    var n := |steps| - 1;
    if n == 0 {
      acts := [];
    } else {
      LastStep(cfg, req, steps);
      acts := SoloIsRun(cfg, w, req, steps[..n]);
      var act := OneStepIsRun(cfg, w, Run(cfg, StartStep(w, req), acts), req, steps[n - 1], steps[n]);
      RunSnoc(cfg, StartStep(w, req), acts, act);
      acts := acts + [act];
    }
  }

  /** So every answer the sequential code can give, faults and all, is one of an interleaving. */
  lemma HandlingIsRun(cfg: Config, w: World, req: Request, after: Store, reply: Reply)
    requires Enabled(cfg, w, Start(req)) && Handles(cfg, w.store, req, after, reply)
    ensures exists acts ::
              && Runs(cfg, StartStep(w, req), acts)
              && Ends(w, Run(cfg, StartStep(w, req), acts), req, Moment(after, Replied(reply)))
  {
    var steps :|
      && |steps| > 0 && Path(cfg, req, steps)
      && steps[0] == Moment(w.store, Begin(req)) && steps[|steps| - 1] == Moment(after, Replied(reply));
    var acts := SoloIsRun(cfg, w, req, steps);
  }
}
