/** What one reconcile does to the fleet, whatever order the two maps are ranged over. */
module FleetReconcile {
  import opened Registry
  import opened Fleet
  import opened FleetWorkers

  /** The listed sensors by id. */
  function Desired(listed: seq<Sensor>): map<string, Sensor> {
    if listed == [] then map[]
    else Desired(listed[..|listed| - 1])[listed[|listed| - 1].id := listed[|listed| - 1]]
  }

  /** Element `i` is the last listed with its id. */
  ghost predicate LastListed(listed: seq<Sensor>, i: nat) {
    i < |listed| && forall j :: i < j < |listed| ==> listed[j].id != listed[i].id
  }

  lemma {:induction false} LastIndex(listed: seq<Sensor>, id: string) returns (i: nat)
    requires id in Desired(listed)
    ensures LastListed(listed, i) && listed[i].id == id && Desired(listed)[id] == listed[i]
  {
    i := |listed| - 1;
    if listed[i].id != id {
      var n := i;
      i := LastIndex(listed[..n], id);
      assert forall j :: 0 <= j < n ==> listed[..n][j] == listed[j];
    }
  }

  lemma {:induction false} ListedIsDesired(listed: seq<Sensor>, i: nat)
    requires i < |listed|
    ensures listed[i].id in Desired(listed)
  {
    var n := |listed| - 1;
    if i < n {
      ListedIsDesired(listed[..n], i);
    }
  }

  /** A listed id is wanted once, with its last settings. */
  lemma {:induction false} LastListedWins(listed: seq<Sensor>, id: string)
    ensures id in Desired(listed) <==> exists i :: 0 <= i < |listed| && listed[i].id == id
    ensures id in Desired(listed) ==>
              exists i: nat :: LastListed(listed, i) && listed[i].id == id && Desired(listed)[id] == listed[i]
  {
    hide Desired, LastListed;
    forall i | 0 <= i < |listed| ensures listed[i].id in Desired(listed) {
      ListedIsDesired(listed, i);
    }
    if id in Desired(listed) {
      var i := LastIndex(listed, id);
      LastIsListed(listed, i);
    }
  }

  lemma LastIsListed(listed: seq<Sensor>, i: nat)
    requires LastListed(listed, i)
    ensures i < |listed|
  {
  }

  /** Worker `w` ran for a sensor that no longer runs. */
  ghost predicate Dismissed(c: Crew, t: Crew, w: nat)
    requires w in c.workers
  {
    var id := c.workers[w].sensor.id;
    id in c.running && c.running[id] == w && id !in t.running
  }

  /** Wanted sensors kept their worker; the ones that appeared are wanted, each with a new worker
      running on the listed settings. */
  ghost predicate Roster(c: Crew, desired: map<string, Sensor>, t: Crew) {
    && (forall id :: id in c.running && id in desired ==> id in t.running)
    && (forall id :: id in t.running && id in c.running ==> t.running[id] == c.running[id])
    && (forall id :: id in t.running && id !in c.running ==> id in desired && Recruited(c, t, t.running[id], desired[id]))
  }

  ghost predicate Recruited(c: Crew, t: Crew, w: nat, x: Sensor) {
    w !in c.workers && w in t.workers && t.workers[w] == Worker(x, false, true)
  }

  /** Old workers are as they were, except that the dismissed ones were told to stop; new ones run
      for ids that did not run before. */
  ghost predicate Workforce(c: Crew, t: Crew) {
    && (forall w :: w in c.workers ==>
          (w in t.workers
           && t.workers[w] == if Dismissed(c, t, w) then c.workers[w].(cancelled := true) else c.workers[w]))
    && (forall w :: w in t.workers && w !in c.workers ==>
          (t.workers[w].sensor.id in t.running && t.workers[w].sensor.id !in c.running
           && t.running[t.workers[w].sensor.id] == w))
  }

  /** How many ids run in `t` that did not in `c`. */
  ghost function Hired(c: Crew, t: Crew): nat {
    |t.running.Keys - c.running.Keys|
  }

  /** Between `c` and `t` wanted sensors kept or got a worker, unwanted ones may have been told to
      stop, and nothing else happened to the fleet. */
  ghost predicate Midway(c: Crew, desired: map<string, Sensor>, t: Crew) {
    Roster(c, desired, t) && Workforce(c, t) && t.wg == c.wg + Hired(c, t)
  }

  /** A finished reconcile: exactly the desired sensors run. */
  ghost predicate Reconciled(c: Crew, desired: map<string, Sensor>, t: Crew) {
    Midway(c, desired, t) && t.running.Keys == desired.Keys
  }

  /** Each desired sensor under its own id, each running one with its own worker. */
  ghost predicate Orderly(c: Crew, desired: map<string, Sensor>) {
    && (forall id :: id in c.running ==> c.running[id] in c.workers && c.workers[c.running[id]].sensor.id == id)
    && (forall id :: id in desired ==> desired[id].id == id)
  }

  lemma StartRoster(c: Crew, desired: map<string, Sensor>, t: Crew, id: string, w: nat)
    requires Roster(c, desired, t) && id in desired && id !in t.running && w !in t.workers && w !in c.workers
    ensures Roster(c, desired, Started(t, desired[id], id, w))
  {
    var u := Started(t, desired[id], id, w);
    forall i | i in u.running && i !in c.running ensures i in desired && Recruited(c, u, u.running[i], desired[i]) {
      if i != id {
        assert Recruited(c, t, t.running[i], desired[i]);
      }
    }
  }

  lemma StartWorkforce(c: Crew, t: Crew, x: Sensor, w: nat)
    requires Workforce(c, t) && x.id !in t.running && x.id !in c.running && w !in t.workers
    ensures Workforce(c, Started(t, x, x.id, w))
  {
    var u := Started(t, x, x.id, w);
    assert w !in c.workers;
    forall v | v in c.workers ensures Dismissed(c, u, v) == Dismissed(c, t, v) && v in t.workers && u.workers[v] == t.workers[v] {
    }
  }

  lemma StopRoster(c: Crew, desired: map<string, Sensor>, t: Crew, id: string)
    requires Roster(c, desired, t) && id !in desired && id in t.running && t.running[id] in c.workers && t.running[id] in t.workers
    ensures Roster(c, desired, Stopped(t, id))
  {
    var u := Stopped(t, id);
    forall i | i in u.running && i !in c.running ensures i in desired && Recruited(c, u, u.running[i], desired[i]) {
      assert Recruited(c, t, t.running[i], desired[i]);
    }
  }

  lemma StopWorkforce(c: Crew, t: Crew, id: string)
    requires Workforce(c, t) && id in t.running && id in c.running && t.running[id] == c.running[id]
    requires c.running[id] in c.workers && c.workers[c.running[id]].sensor.id == id
    ensures Workforce(c, Stopped(t, id))
  {
    var u, w := Stopped(t, id), t.running[id];
    forall v | v in c.workers ensures v in u.workers && Dismissed(c, u, v) == (Dismissed(c, t, v) || v == w) {
    }
  }

  lemma StartHires(c: Crew, t: Crew, x: Sensor, id: string, w: nat)
    requires id !in t.running && id !in c.running
    ensures Hired(c, Started(t, x, id, w)) == Hired(c, t) + 1
  {
    assert Started(t, x, id, w).running.Keys - c.running.Keys == (t.running.Keys - c.running.Keys) + {id};
  }

  lemma StopHiresNone(c: Crew, t: Crew, id: string)
    requires id in c.running && id in t.running && t.running[id] in t.workers
    ensures Hired(c, Stopped(t, id)) == Hired(c, t) && Stopped(t, id).wg == t.wg
  {
    assert Stopped(t, id).running.Keys - c.running.Keys == t.running.Keys - c.running.Keys;
  }

  lemma UnwantedRanBefore(c: Crew, desired: map<string, Sensor>, t: Crew, id: string)
    requires Roster(c, desired, t) && id !in desired && id in t.running
    ensures id in c.running && c.running[id] == t.running[id]
  {
  }

  lemma MissingIsNew(c: Crew, desired: map<string, Sensor>, t: Crew, id: string, w: nat)
    requires Midway(c, desired, t) && id in desired && id !in t.running && w !in t.workers
    ensures id !in c.running && w !in c.workers
  {
  }

  lemma StartMidway(c: Crew, desired: map<string, Sensor>, t: Crew, id: string, w: nat)
    requires Orderly(t, desired) && Midway(c, desired, t)
    requires id in desired && id !in t.running && w !in t.workers
    ensures Midway(c, desired, Started(t, desired[id], id, w))
  {
    MissingIsNew(c, desired, t, id, w);
    hide Roster, Workforce, Hired;
    StartRoster(c, desired, t, id, w);
    StartWorkforce(c, t, desired[id], w);
    StartHires(c, t, desired[id], id, w);
  }

  lemma StopMidway(c: Crew, desired: map<string, Sensor>, t: Crew, id: string)
    requires Orderly(c, desired) && Orderly(t, desired) && Midway(c, desired, t)
    requires id !in desired && id in t.running
    ensures Midway(c, desired, Stopped(t, id))
  {
    hide Roster, Workforce, Hired, Stopped;
    UnwantedRanBefore(c, desired, t, id);
    StopRoster(c, desired, t, id);
    StopWorkforce(c, t, id);
    StopHiresNone(c, t, id);
  }

  lemma StartOrderly(desired: map<string, Sensor>, t: Crew, id: string, w: nat)
    requires Orderly(t, desired) && id in desired && id !in t.running && w !in t.workers
    ensures Orderly(Started(t, desired[id], id, w), desired)
  {
  }

  lemma StopOrderly(desired: map<string, Sensor>, t: Crew, id: string)
    requires Orderly(t, desired) && id in t.running
    ensures Orderly(Stopped(t, id), desired)
  {
  }

  lemma NothingYet(c: Crew, desired: map<string, Sensor>)
    ensures Midway(c, desired, c)
  {
    assert c.running.Keys - c.running.Keys == {};
  }

  lemma SameRunning(t: Crew, desired: map<string, Sensor>, u: Crew)
    requires Roster(t, desired, u) && t.running.Keys == desired.Keys == u.running.Keys
    ensures u.running == t.running && Hired(t, u) == 0
  {
    assert forall id :: id in t.running <==> id in t.running.Keys;
    assert forall id :: id in u.running <==> id in u.running.Keys;
    assert u.running.Keys - t.running.Keys == {};
  }

  lemma SameWorkers(t: Crew, u: Crew)
    requires Workforce(t, u) && u.running == t.running
    ensures u.workers == t.workers
  {
    forall w ensures (w in u.workers <==> w in t.workers) && (w in t.workers ==> u.workers[w] == t.workers[w]) {
      assert w in t.workers ==> !Dismissed(t, u, w);
    }
    assert u.workers == t.workers;
  }

  /** A second reconcile on the same list changes nothing. */
  lemma ReconcileIsIdempotent(c: Crew, desired: map<string, Sensor>, t: Crew, u: Crew)
    requires Reconciled(c, desired, t) && Reconciled(t, desired, u)
    ensures u == t
  {
    hide Roster, Workforce, Hired;
    SameRunning(t, desired, u);
    SameWorkers(t, u);
  }

  /** The manager's own steps, one after the other. */
  function Manage(s: State, ms: seq<ManagerLabel>): State {
    if ms == [] then s else StepManager(Manage(s, ms[..|ms| - 1]), ms[|ms| - 1])
  }

  lemma {:induction false} ManageSnoc(s: State, ms: seq<ManagerLabel>, m: ManagerLabel)
    ensures Manage(s, ms + [m]) == StepManager(Manage(s, ms), m)
  {
    assert (ms + [m])[..|ms|] == ms;
  }

  function Labels(ms: seq<ManagerLabel>): seq<Label> {
    if ms == [] then [] else Labels(ms[..|ms| - 1]) + [Manager(ms[|ms| - 1])]
  }

  /** The manager's steps are a schedule. */
  lemma {:induction false} ManageIsRun(ls: seq<Label>, ms: seq<ManagerLabel>)
    ensures Run(ls + Labels(ms)) == Manage(Run(ls), ms)
  {
    if ms == [] {
      assert ls + [] == ls;
    } else {
      hide StepManager;
      var n := |ms| - 1;
      var before := ls + Labels(ms[..n]);
      ManageIsRun(ls, ms[..n]);
      assert ls + Labels(ms) == before + [Manager(ms[n])];
      assert (before + [Manager(ms[n])])[..|before|] == before;
    }
  }

  /** The steps of carrying out a list. */
  predicate Applies(m: ManagerLabel) {
    m.Start? || m.Stop? || m.Finish?
  }

  /** Part way through, or done. */
  ghost predicate Under(s: State, t: State) {
    s.pc.Applying? ==>
      || (t == s.(crew := t.crew) && Midway(s.crew, s.pc.desired, t.crew) && Orderly(t.crew, s.pc.desired))
      || (t == s.(crew := t.crew, pc := Idle, listOk := true) && Reconciled(s.crew, s.pc.desired, t.crew))
  }

  lemma AllWanted(s: State, t: State)
    requires s.pc.Applying? && t == s.(crew := t.crew) && Midway(s.crew, s.pc.desired, t.crew)
    ensures Under(s, StepManager(t, Finish)) || StepManager(t, Finish) == t
  {
    hide Midway;
    if StepManager(t, Finish) != t {
      assert forall id :: id in t.crew.running.Keys <==> id in s.pc.desired.Keys;
      assert t.crew.running.Keys == s.pc.desired.Keys;
    }
  }

  lemma ApplyStep(s: State, t: State, m: ManagerLabel)
    requires s.pc.Applying? && Orderly(s.crew, s.pc.desired) && Under(s, t) && Applies(m)
    ensures Under(s, StepManager(t, m))
  {
    hide Midway;
    if t.pc.Applying? {
      var desired := s.pc.desired;
      match m
      case Start(id, w) =>
        if id in desired && id !in t.crew.running && w !in t.crew.workers {
          StartMidway(s.crew, desired, t.crew, id, w);
          StartOrderly(desired, t.crew, id, w);
        }
      case Stop(id) =>
        if id !in desired && id in t.crew.running {
          StopMidway(s.crew, desired, t.crew, id);
          StopOrderly(desired, t.crew, id);
        }
      case Finish =>
        AllWanted(s, t);
    }
  }

  lemma {:induction false} ApplyAlways(s: State, ms: seq<ManagerLabel>)
    requires s.pc.Applying? && Orderly(s.crew, s.pc.desired) && forall i :: 0 <= i < |ms| ==> Applies(ms[i])
    ensures Under(s, Manage(s, ms))
  {
    if ms == [] {
      NothingYet(s.crew, s.pc.desired);
    } else {
      ApplyAlways(s, ms[..|ms| - 1]);
      ApplyStep(s, Manage(s, ms[..|ms| - 1]), ms[|ms| - 1]);
    }
  }

  /** The steps of the manager alone: nothing exits meanwhile, so also the WaitGroup has grown by just the
      newcomers. */
  lemma {:induction false} QuietReconcileIsExact(ls: seq<Label>, ms: seq<ManagerLabel>)
    requires Run(ls).pc.Applying? && (forall i :: 0 <= i < |ms| ==> Applies(ms[i])) && Manage(Run(ls), ms).pc.Idle?
    ensures Reconciled(Run(ls).crew, Run(ls).pc.desired, Manage(Run(ls), ms).crew)
  {
    InvAlways(ls);
    ApplyAlways(Run(ls), ms);
  }

  // ----- With everything else going on -----

  /** Wanted sensors kept their worker; the ones that appeared are wanted, each with a new worker on the
      listed settings that was not told to stop. */
  ghost predicate Staffed(c: Crew, desired: map<string, Sensor>, t: Crew) {
    && (forall id :: id in c.running && id in desired ==> id in t.running)
    && (forall id :: id in t.running && id in c.running ==> t.running[id] == c.running[id])
    && (forall id :: id in t.running && id !in c.running ==> id in desired && Hire(c, t, t.running[id], desired[id]))
  }

  ghost predicate Hire(c: Crew, t: Crew, w: nat, x: Sensor) {
    w !in c.workers && w in t.workers && t.workers[w].sensor == x && !t.workers[w].cancelled
  }

  /** Old workers keep their settings, may have left, and were told to stop exactly if they had been before or
      were dismissed; new ones run for ids that did not run before. */
  ghost predicate Treated(c: Crew, t: Crew) {
    && (forall w :: w in c.workers ==>
          (w in t.workers && t.workers[w].sensor == c.workers[w].sensor
           && (t.workers[w].live ==> c.workers[w].live)
           && (t.workers[w].cancelled <==> c.workers[w].cancelled || Dismissed(c, t, w))))
    && (forall w :: w in t.workers && w !in c.workers ==>
          (t.workers[w].sensor.id in t.running && t.workers[w].sensor.id !in c.running
           && t.running[t.workers[w].sensor.id] == w))
  }

  lemma StartStaffs(c: Crew, desired: map<string, Sensor>, t: Crew, id: string, w: nat)
    requires Staffed(c, desired, t) && id in desired && id !in t.running && w !in t.workers && w !in c.workers
    ensures Staffed(c, desired, Started(t, desired[id], id, w))
  {
    var u := Started(t, desired[id], id, w);
    forall i | i in u.running && i !in c.running ensures i in desired && Hire(c, u, u.running[i], desired[i]) {
      if i != id {
        assert Hire(c, t, t.running[i], desired[i]);
      }
    }
  }

  lemma StartTreats(c: Crew, t: Crew, x: Sensor, w: nat)
    requires Treated(c, t) && x.id !in t.running && x.id !in c.running && w !in t.workers
    ensures w !in c.workers && Treated(c, Started(t, x, x.id, w))
  {
    var u := Started(t, x, x.id, w);
    forall v | v in c.workers ensures Dismissed(c, u, v) == Dismissed(c, t, v) && v in t.workers && u.workers[v] == t.workers[v] {
    }
  }

  lemma StopStaffs(c: Crew, desired: map<string, Sensor>, t: Crew, id: string)
    requires Staffed(c, desired, t) && id !in desired && id in t.running && t.running[id] in t.workers
    requires forall i :: i in t.running && i != id ==> t.running[i] != t.running[id]
    ensures Staffed(c, desired, Stopped(t, id))
  {
    var u := Stopped(t, id);
    forall i | i in u.running && i !in c.running ensures i in desired && Hire(c, u, u.running[i], desired[i]) {
      assert Hire(c, t, t.running[i], desired[i]);
    }
  }

  lemma StopTreats(c: Crew, t: Crew, id: string)
    requires Treated(c, t) && id in t.running && id in c.running && t.running[id] == c.running[id]
    requires c.running[id] in c.workers && c.workers[c.running[id]].sensor.id == id
    ensures Treated(c, Stopped(t, id))
  {
    var u, w := Stopped(t, id), t.running[id];
    forall v | v in c.workers ensures v in u.workers && Dismissed(c, u, v) == (Dismissed(c, t, v) || v == w) {
    }
  }

  lemma ExitTreats(c: Crew, desired: map<string, Sensor>, t: Crew, w: nat)
    requires Staffed(c, desired, t) && Treated(c, t) && w in t.workers && t.wg > 0
    ensures Staffed(c, desired, Exited(t, w)) && Treated(c, Exited(t, w))
  {
    var u := Exited(t, w);
    assert u.running == t.running;
    forall i | i in u.running && i !in c.running ensures i in desired && Hire(c, u, u.running[i], desired[i]) {
      assert Hire(c, t, t.running[i], desired[i]);
    }
    forall v | v in c.workers ensures Dismissed(c, u, v) == Dismissed(c, t, v) {
    }
  }

  lemma UnwantedWasThere(c: Crew, desired: map<string, Sensor>, t: Crew, id: string)
    requires Staffed(c, desired, t) && id in t.running && id !in desired
    ensures id in c.running && t.running[id] == c.running[id]
  {
  }

  lemma WantedIsMissing(c: Crew, desired: map<string, Sensor>, t: Crew, id: string)
    requires Staffed(c, desired, t) && id in desired && id !in t.running
    ensures id !in c.running
  {
  }

  lemma RunningApart(c: Crew, id: string, shutdown: bool)
    requires Manned(c, shutdown) && id in c.running
    ensures c.running[id] in c.workers && c.workers[c.running[id]].sensor.id == id
    ensures forall i :: i in c.running && i != id ==> c.running[i] != c.running[id]
  {
  }

  /** One step of the manager while the crew of `s` has grown out of `c`. */
  lemma ManagerTreats(c: Crew, s: State, m: ManagerLabel, shutdown: bool)
    requires s.pc.Applying? && Inv(s) && Manned(c, shutdown) && Staffed(c, s.pc.desired, s.crew) && Treated(c, s.crew)
    ensures Staffed(c, s.pc.desired, StepApply(s, m).crew) && Treated(c, StepApply(s, m).crew)
  {
    hide Staffed, Treated, Manned, Counted, Started, Stopped, AllStarted;
    var t, desired := s.crew, s.pc.desired;
    match m
    case Start(id, w) =>
      if id in desired && id !in t.running && w !in t.workers {
        WantedIsMissing(c, desired, t, id);
        StartTreats(c, t, desired[id], w);
        StartStaffs(c, desired, t, id, w);
      }
    case Stop(id) =>
      if id !in desired && id in t.running {
        UnwantedWasThere(c, desired, t, id);
        RunningApart(t, id, s.cancelled);
        RunningApart(c, id, shutdown);
        StopStaffs(c, desired, t, id);
        StopTreats(c, t, id);
      }
    case _ =>
  }

  lemma AnyStepTreats(c: Crew, s: State, l: Label, shutdown: bool)
    requires s.pc.Applying? && Inv(s) && Manned(c, shutdown) && Staffed(c, s.pc.desired, s.crew) && Treated(c, s.crew)
    ensures Staffed(c, s.pc.desired, Step(s, l).crew) && Treated(c, Step(s, l).crew)
  {
    hide Staffed, Treated, Manned, Counted, Named, ShutDown, StepApply, Exited;
    CrewFrame(s, l);
    match l
    case Env(e) =>
    case Manager(m) => ManagerTreats(c, s, m, shutdown);
    case Exit(w) =>
      if w in s.crew.workers && s.crew.wg > 0 { ExitTreats(c, s.pc.desired, s.crew, w); }
  }

  /** The desired map is fixed until the reconcile finishes, which it does with exactly its ids running. */
  lemma ApplyingStep(s: State, l: Label)
    requires s.pc.Applying?
    ensures Step(s, l).pc == s.pc || Step(s, l).pc.Idle?
    ensures Step(s, l).pc.Idle? ==> Step(s, l).crew == s.crew && s.crew.running.Keys == s.pc.desired.Keys
  {
    hide Started, Stopped;
    if Step(s, l).pc.Idle? {
      assert forall id :: id in s.crew.running.Keys <==> id in s.pc.desired.Keys;
    }
  }

  lemma NothingDone(c: Crew, desired: map<string, Sensor>)
    ensures Staffed(c, desired, c) && Treated(c, c)
  {
  }

  /** Since step `m` the manager has been carrying out one list. */
  ghost predicate ApplyingSince(ls: seq<Label>, m: nat) {
    m <= |ls| && forall q :: m <= q <= |ls| ==> Run(ls[..q]).pc.Applying?
  }

  lemma {:induction false} TreatedSince(ls: seq<Label>, m: nat)
    requires ApplyingSince(ls, m)
    ensures var s, t := Run(ls[..m]), Run(ls);
            && t.pc == s.pc && s.pc.Applying?
            && Staffed(s.crew, s.pc.desired, t.crew) && Treated(s.crew, t.crew)
  {
    assert ls[..|ls|] == ls;
    hide Step, Staffed, Treated, Inv, Manned;
    if m == |ls| {
      NothingDone(Run(ls).crew, Run(ls).pc.desired);
    } else {
      var before, l := ls[..|ls| - 1], ls[|ls| - 1];
      assert forall q :: 0 <= q <= |before| ==> before[..q] == ls[..q];
      TreatedSince(before, m);
      InvAlways(before);
      InvAlways(ls[..m]);
      MannedNow(Run(ls[..m]));
      AnyStepTreats(Run(ls[..m]).crew, Run(before), l, Run(ls[..m]).cancelled);
      ApplyingStep(Run(before), l);
    }
  }

  lemma MannedNow(s: State)
    requires Inv(s)
    ensures Manned(s.crew, s.cancelled)
  {
  }

  /** A RECONCILE IS EXACT, WHATEVER ELSE GOES ON. From any reachable state, with starts and stops in any order and with
      workers leaving, kicks, notifications, registry changes and cancellations in between: when the manager is done
      exactly the desired sensors run; those that ran before kept their worker, each of the others got one new worker
      on the listed settings, and an old worker was told to stop exactly if it had been before or was dismissed. */
  lemma {:induction false} ReconcileIsExact(ls: seq<Label>, m: nat)
    requires ls != [] && ApplyingSince(ls[..|ls| - 1], m) && Run(ls).pc.Idle?
    ensures var s, t := Run(ls[..m]), Run(ls);
            && s.pc.Applying? && t.crew.running.Keys == s.pc.desired.Keys
            && Staffed(s.crew, s.pc.desired, t.crew) && Treated(s.crew, t.crew)
  {
    var before := ls[..|ls| - 1];
    assert before[..m] == ls[..m];
    TreatedSince(before, m);
    ApplyingStep(Run(before), ls[|ls| - 1]);
  }
}
