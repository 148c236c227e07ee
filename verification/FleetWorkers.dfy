/** Worker lifetimes: one active worker per running sensor, a WaitGroup that counts the live ones, and
    a shutdown that outlives them all. */
module FleetWorkers {
  import opened Registry
  import opened Fleet
  import opened FleetWakeup

  ghost function Live(c: Crew): set<nat> {
    set w | w in c.workers && c.workers[w].live
  }

  /** Not told to stop individually, and not gone. */
  ghost predicate Active(c: Crew, w: nat) {
    w in c.workers && c.workers[w].live && !c.workers[w].cancelled
  }

  /** Each running id has its own uncancelled worker, which has not left unless everything is shutting
      down; a worker that was not told to stop is the running one of its sensor. */
  ghost predicate Manned(c: Crew, shutdown: bool) {
    && (forall id :: id in c.running ==>
          var w := c.running[id];
          w in c.workers && c.workers[w].sensor.id == id && !c.workers[w].cancelled && (shutdown || c.workers[w].live))
    && (forall w :: Active(c, w) ==> c.workers[w].sensor.id in c.running && c.running[c.workers[w].sensor.id] == w)
  }

  ghost predicate Counted(c: Crew) {
    c.wg == |Live(c)|
  }

  ghost predicate Named(s: State) {
    s.pc.Applying? ==> forall id :: id in s.pc.desired ==> s.pc.desired[id].id == id
  }

  ghost predicate ShutDown(s: State) {
    && (s.pc.Waiting? || s.pc.Returned? ==> s.cancelled)
    && (s.pc.Returned? ==> Live(s.crew) == {})
    && (s.closed ==> s.pc.Returned?)
  }

  ghost predicate Inv(s: State) {
    Manned(s.crew, s.cancelled) && Counted(s.crew) && Named(s) && ShutDown(s)
  }

  lemma StartKeeps(c: Crew, x: Sensor, w: nat, shutdown: bool)
    requires Manned(c, shutdown) && Counted(c) && x.id !in c.running && w !in c.workers
    ensures Manned(Started(c, x, x.id, w), shutdown) && Counted(Started(c, x, x.id, w))
  {
    var t := Started(c, x, x.id, w);
    assert Live(t) == Live(c) + {w};
    forall v | Active(t, v) ensures t.workers[v].sensor.id in t.running && t.running[t.workers[v].sensor.id] == v {
      assert v == w || Active(c, v);
    }
  }

  lemma StopKeeps(c: Crew, id: string, shutdown: bool)
    requires Manned(c, shutdown) && Counted(c) && id in c.running
    ensures c.running[id] in c.workers
    ensures Manned(Stopped(c, id), shutdown) && Counted(Stopped(c, id))
  {
    var t := Stopped(c, id);
    assert Live(t) == Live(c);
    forall v | Active(t, v) ensures t.workers[v].sensor.id in t.running && t.running[t.workers[v].sensor.id] == v {
      assert Active(c, v);
    }
  }

  lemma ExitKeeps(c: Crew, w: nat, shutdown: bool)
    requires Manned(c, shutdown) && Counted(c) && w in Live(c) && (c.workers[w].cancelled || shutdown) && c.wg > 0
    ensures Manned(Exited(c, w), shutdown) && Counted(Exited(c, w))
    ensures Live(Exited(c, w)) == Live(c) - {w}
  {
    var t := Exited(c, w);
    assert Live(t) == Live(c) - {w};
    forall v | Active(t, v) ensures t.workers[v].sensor.id in t.running && t.running[t.workers[v].sensor.id] == v {
      assert Active(c, v);
    }
  }

  lemma NothingLive(c: Crew)
    requires Counted(c) && c.wg == 0
    ensures Live(c) == {}
  {
  }

  /** Only these steps touch the crew; the manager is the only one to start or stop workers. */
  lemma CrewFrame(s: State, l: Label)
    ensures l.Env? ==> Step(s, l).crew == s.crew
    ensures l.Manager? && !s.pc.Applying? ==> Step(s, l).crew == s.crew
    ensures l.Exit? ==> Step(s, l).pc == s.pc && Step(s, l).cancelled == s.cancelled && Step(s, l).closed == s.closed
  {
  }

  lemma CrewStep(s: State, l: Label)
    requires Inv(s)
    ensures Manned(Step(s, l).crew, Step(s, l).cancelled) && Counted(Step(s, l).crew)
    ensures Live(s.crew) == {} && s.pc.Returned? ==> Live(Step(s, l).crew) == {}
  {
    hide Manned, Counted, Live;
    CrewFrame(s, l);
    match l
    case Env(e) =>
      MannedInShutdown(s.crew, s.cancelled);
    case Manager(m) =>
      if s.pc.Applying? {
        ApplyKeeps(s, m);
      }
    case Exit(w) =>
      WorkerKeeps(s, w);
  }

  lemma MannedInShutdown(c: Crew, shutdown: bool)
    requires Manned(c, shutdown)
    ensures Manned(c, true)
  {
  }

  lemma ApplyKeeps(s: State, m: ManagerLabel)
    requires Inv(s) && s.pc.Applying?
    ensures Manned(StepApply(s, m).crew, s.cancelled) && Counted(StepApply(s, m).crew)
  {
    var c, desired := s.crew, s.pc.desired;
    match m
    case Start(id, w) =>
      if id in desired && id !in c.running && w !in c.workers { StartKeeps(c, desired[id], w, s.cancelled); }
    case Stop(id) =>
      if id in c.running { StopKeeps(c, id, s.cancelled); }
    case _ =>
  }

  lemma WorkerKeeps(s: State, w: nat)
    requires Inv(s)
    ensures Manned(StepWorker(s, w).crew, s.cancelled) && Counted(StepWorker(s, w).crew)
    ensures Live(StepWorker(s, w).crew) <= Live(s.crew)
  {
    var c := s.crew;
    if w in c.workers && c.workers[w].live && (c.workers[w].cancelled || s.cancelled) && c.wg > 0 {
      ExitKeeps(c, w, s.cancelled);
    }
  }

  lemma ShutDownStep(s: State, l: Label)
    requires Inv(s)
    ensures ShutDown(Step(s, l))
  {
    CrewStep(s, l);
    if s.crew.wg == 0 { NothingLive(s.crew); }
    CrewFrame(s, l);
    hide Manned, Counted, Live, Named;
  }

  lemma NamedStep(s: State, l: Label)
    requires Named(s) && Snapshot(s)
    ensures Named(Step(s, l))
  {
    if l.Env? || l.Exit? {
      assert s.pc.Applying? ==> Step(s, l).pc == s.pc;
    }
  }

  lemma {:induction false} InvAlways(ls: seq<Label>)
    ensures Inv(Run(ls))
  {
    if ls == [] {
      assert Live(BOOT.crew) == {};
    } else {
      var s, l := Run(ls[..|ls| - 1]), ls[|ls| - 1];
      InvAlways(ls[..|ls| - 1]);
      SnapshotAlways(ls[..|ls| - 1]);
      CrewStep(s, l);
      NamedStep(s, l);
      ShutDownStep(s, l);
    }
  }

  /** THE FLEET IS ACCOUNTED FOR. In every reachable state the WaitGroup counts the live workers, each
      running id has exactly one worker not told to stop, and it is live until shutdown. */
  lemma {:induction false} FleetIsAccountedFor(ls: seq<Label>)
    ensures var s := Run(ls); var c := s.crew;
            && c.wg == |Live(c)|
            && (forall id :: id in c.running ==>
                  (c.running[id] in c.workers && c.workers[c.running[id]].sensor.id == id && !c.workers[c.running[id]].cancelled))
            && (forall id :: id in c.running && !s.cancelled ==> Active(c, c.running[id]))
            && (forall v, w :: Active(c, v) && Active(c, w) && c.workers[v].sensor.id == c.workers[w].sensor.id ==> v == w)
            && (forall w :: Active(c, w) ==> c.workers[w].sensor.id in c.running)
  {
    InvAlways(ls);
  }

  /** WHO LEAVES. A live worker can leave exactly when it was told to or everything shuts down; before the shutdown
      that is exactly when it is not the running worker of its sensor. */
  lemma {:induction false} LeavesIffTold(ls: seq<Label>, w: nat)
    requires w in Run(ls).crew.workers && Run(ls).crew.workers[w].live
    ensures w in Run(ls + [Exit(w)]).crew.workers
    ensures var s, gone := Run(ls), !Run(ls + [Exit(w)]).crew.workers[w].live;
            && (gone <==> s.crew.workers[w].cancelled || s.cancelled)
            && (!s.cancelled ==>
                  (gone <==> !(s.crew.workers[w].sensor.id in s.crew.running
                               && s.crew.running[s.crew.workers[w].sensor.id] == w)))
  {
    InvAlways(ls);
    assert (ls + [Exit(w)])[..|ls|] == ls;
    var c := Run(ls).crew;
    assert w in Live(c);
    assert !c.workers[w].cancelled ==> Active(c, w);
  }

  /** NOTHING OUTLIVES RUN. Once the manager's `Run` has returned, and so whenever the producer has been
      closed, no worker is live, even if a reconcile was chosen after the cancellation. */
  lemma {:induction false} NothingOutlivesRun(ls: seq<Label>)
    requires Run(ls).pc.Returned? || Run(ls).closed
    ensures forall w :: w in Run(ls).crew.workers ==> !Run(ls).crew.workers[w].live
  {
    InvAlways(ls);
    var s := Run(ls);
    forall w | w in s.crew.workers ensures !s.crew.workers[w].live {
      assert w !in Live(s.crew);
    }
  }

  /** SHUTDOWN COMPLETES. A waiting `Run` returns after as many worker exits as the WaitGroup counts,
      all of them possible. */
  lemma {:induction false} ShutdownCompletes(ls: seq<Label>) returns (more: seq<Label>)
    requires Run(ls).pc.Waiting?
    ensures |more| == Run(ls).crew.wg + 1 && Run(ls + more).pc.Returned?
    ensures forall i :: 0 <= i < |more| ==> more[i].Exit? || more[i] == Manager(Return)
    decreases Run(ls).crew.wg
  {
    InvAlways(ls);
    var s := Run(ls);
    if s.crew.wg == 0 {
      more := [Manager(Return)];
      assert (ls + more)[..|ls|] == ls;
    } else {
      var w := SomeLive(s.crew);
      assert (ls + [Exit(w)])[..|ls|] == ls;
      ExitKeeps(s.crew, w, true);
      more := ShutdownCompletes(ls + [Exit(w)]);
      assert ls + [Exit(w)] + more == ls + ([Exit(w)] + more);
      more := [Exit(w)] + more;
    }
  }

  lemma SomeLive(c: Crew) returns (w: nat)
    requires Counted(c) && c.wg > 0
    ensures w in Live(c)
  {
    w := 0;
    if v: nat :| v in Live(c) {
      w := v;
    } else {
      assert false;
    }
  }
}
