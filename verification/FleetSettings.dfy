/** The settings workers run on: where they come from, and when they are still the registered ones. */
module FleetSettings {
  import opened Events
  import opened Registry
  import opened Fleet
  import opened FleetWakeup
  import opened FleetWorkers

  /** Step `n` launched worker `w` from a reconcile whose listing read its settings at step `m`. */
  ghost predicate Launched(ls: seq<Label>, m: nat, n: nat, w: nat) {
    && m < n < |ls|
    && w in Run(ls).crew.workers && w !in Run(ls[..n]).crew.workers
    && ls[n] == Manager(Start(Run(ls).crew.workers[w].sensor.id, w))
    && HashRead(ls, m, Run(ls).crew.workers[w].sensor.id, Run(ls).crew.workers[w].sensor)
    && (forall q :: m <= q <= n ==> Run(ls[..q]).pc.Listing? || Run(ls[..q]).pc.Applying?)
  }

  /** The reconcile in progress wants what its own listing read at step `m`. */
  ghost predicate Desires(ls: seq<Label>, m: nat, id: string, x: Sensor) {
    HashRead(ls, m, id, x) && forall q :: m <= q <= |ls| ==> Run(ls[..q]).pc.Listing? || Run(ls[..q]).pc.Applying?
  }

  lemma DesiredStep(s: State, l: Label)
    requires Step(s, l).pc.Applying?
    ensures (s.pc.Applying? && Step(s, l).pc == s.pc) || (s.pc.Listing? && Step(s, l).pc.desired == s.pc.got)
  {
    hide Started, Stopped, AllStarted;
  }

  lemma {:induction false} DesiredWasRead(ls: seq<Label>, id: string) returns (m: nat)
    requires Run(ls).pc.Applying? && id in Run(ls).pc.desired
    ensures Desires(ls, m, id, Run(ls).pc.desired[id])
  {
    hide Step;
    var before, l := ls[..|ls| - 1], ls[|ls| - 1];
    assert ls[..|ls|] == ls && before[..|before|] == before;
    assert forall q :: 0 <= q <= |before| ==> ls[..q] == before[..q];
    DesiredStep(Run(before), l);
    if Run(before).pc.Applying? {
      m := DesiredWasRead(before, id);
    } else {
      m := GotWasRead(before, id);
    }
  }

  lemma ApplyWorkers(s: State, m: ManagerLabel, w: nat)
    requires s.pc.Applying? && w in StepApply(s, m).crew.workers
    ensures if w in s.crew.workers then StepApply(s, m).crew.workers[w].sensor == s.crew.workers[w].sensor
            else m.Start? && m.w == w && m.id in s.pc.desired
                 && StepApply(s, m).crew.workers[w].sensor == s.pc.desired[m.id]
  {
  }

  /** Workers keep their settings, and a new one gets the desired ones. */
  lemma WorkersStep(s: State, l: Label, w: nat)
    requires w in Step(s, l).crew.workers
    ensures if w in s.crew.workers then Step(s, l).crew.workers[w].sensor == s.crew.workers[w].sensor
            else l.Manager? && l.m.Start? && l.m.w == w && s.pc.Applying? && l.m.id in s.pc.desired
                 && Step(s, l).crew.workers[w].sensor == s.pc.desired[l.m.id]
  {
    CrewFrame(s, l);
    match l
    case Env(e) =>
      hide Step;
    case Manager(m) =>
      if s.pc.Applying? {
        ApplyWorkers(s, m, w);
      } else {
        hide Step;
      }
    case Exit(v) =>
  }

  /** EVERY WORKER RUNS ON REGISTERED SETTINGS: those the registry held under its id when the listing
      behind its start read them. */
  lemma {:induction false} WorkerWasRegistered(ls: seq<Label>, w: nat) returns (m: nat, n: nat)
    requires w in Run(ls).crew.workers
    ensures Launched(ls, m, n, w)
  {
    hide Step;
    assert ls != [];
    var before, l := ls[..|ls| - 1], ls[|ls| - 1];
    assert before[..|before|] == before;
    assert forall q :: 0 <= q <= |before| ==> ls[..q] == before[..q];
    WorkersStep(Run(before), l, w);
    if w in Run(before).crew.workers {
      m, n := WorkerWasRegistered(before, w);
    } else {
      m := DesiredWasRead(before, l.m.id);
      n := |before|;
      ConsistentAlways(before[..m]);
    }
  }

  // ----- Whether the settings are still the registered ones -----

  /** The step stores these settings. */
  ghost predicate Puts(l: Label, x: Sensor) {
    l.Env? && l.e.AddSensor? && l.e.x == x && l.e.now != 0 && x.Validate(l.e.now).None?
  }

  /** The step writes or removes the hash of `id`. */
  ghost predicate Touches(l: Label, id: string) {
    || (l.Env? && l.e.AddSensor? && l.e.x.id == id && Puts(l, l.e.x))
    || (l.Env? && l.e.RemoveSensor? && l.e.id == id)
  }

  /** Step `q` stored `y`, and no later step has touched its hash. */
  ghost predicate InForce(ls: seq<Label>, q: nat, y: Sensor) {
    q < |ls| && Puts(ls[q], y) && forall r :: q < r < |ls| ==> !Touches(ls[r], y.id)
  }

  /** Since step `m` an Add with other settings than `x` has been made and is still in force. */
  ghost predicate Superseded(ls: seq<Label>, m: nat, x: Sensor) {
    exists q, y :: m <= q && InForce(ls, q, y) && y.id == x.id && y != x
  }

  lemma HashStep(s: State, l: Label, id: string)
    ensures var h, k := s.link.store.hashes, Step(s, l).link.store.hashes;
            && (!Touches(l, id) ==> (id in k <==> id in h) && (id in k ==> k[id] == h[id]))
            && (Touches(l, id) && id in k ==> Puts(l, k[id]))
            && (forall x :: Puts(l, x) && x.id == id ==> id in k && k[id] == x)
  {
    hide Sensor.Validate;
    if !l.Env? {
      ManagerFrame(s, l);
    }
  }

  lemma {:induction false} InForceIsStored(ls: seq<Label>, q: nat, y: Sensor)
    requires InForce(ls, q, y)
    ensures y.id in Run(ls).link.store.hashes && Run(ls).link.store.hashes[y.id] == y
  {
    hide Step, Puts;
    var before, l := ls[..|ls| - 1], ls[|ls| - 1];
    HashStep(Run(before), l, y.id);
    if q < |before| {
      assert InForce(before, q, y);
      InForceIsStored(before, q, y);
    }
  }

  lemma {:induction false} StoredSince(ls: seq<Label>, m: nat, id: string) returns (q: nat)
    requires m <= |ls| && id in Run(ls[..m]).link.store.hashes && id in Run(ls).link.store.hashes
    ensures var x, z := Run(ls[..m]).link.store.hashes[id], Run(ls).link.store.hashes[id];
            z == x || (m <= q && InForce(ls, q, z) && z.id == id)
  {
    hide Step;
    q := m;
    if m == |ls| {
      assert ls[..m] == ls;
    } else {
      var before, l := ls[..|ls| - 1], ls[|ls| - 1];
      assert before[..m] == ls[..m];
      HashStep(Run(before), l, id);
      if Touches(l, id) {
        q := |before|;
      } else {
        q := StoredSince(before, m, id);
      }
    }
  }

  /** WHAT THE REGISTRY HOLDS: under each id the last settings added that nothing has touched since, and nothing else. */
  lemma {:induction false} RegistryHoldsWhatIsInForce(ls: seq<Label>, x: Sensor)
    ensures (x.id in Run(ls).link.store.hashes && Run(ls).link.store.hashes[x.id] == x) <==> exists q: nat :: InForce(ls, q, x)
    ensures x.id in Run(ls).link.store.index <==> x.id in Run(ls).link.store.hashes
  {
    ConsistentAlways(ls);
    hide InForce, Run;
    if q: nat :| InForce(ls, q, x) {
      InForceIsStored(ls, q, x);
    }
    if x.id in Run(ls).link.store.hashes && Run(ls).link.store.hashes[x.id] == x {
      var q := PutInForce(ls, x);
    }
  }

  lemma {:induction false} PutInForce(ls: seq<Label>, x: Sensor) returns (q: nat)
    requires x.id in Run(ls).link.store.hashes && Run(ls).link.store.hashes[x.id] == x
    ensures InForce(ls, q, x)
  {
    hide Step, Puts;
    assert ls != [];
    var before, l := ls[..|ls| - 1], ls[|ls| - 1];
    HashStep(Run(before), l, x.id);
    if Touches(l, x.id) {
      q := |before|;
    } else {
      q := PutInForce(before, x);
    }
  }

  /** WHEN A WORKER'S SETTINGS ARE CURRENT: exactly when no Add of its id with other settings, made since
      its listing read the hash, is still in force. */
  lemma {:induction false} SettingsCurrentIffNotSuperseded(ls: seq<Label>, m: nat, n: nat, w: nat)
    requires Launched(ls, m, n, w) && Run(ls).crew.workers[w].sensor.id in Run(ls).link.store.hashes
    ensures var x := Run(ls).crew.workers[w].sensor;
            Run(ls).link.store.hashes[x.id] == x <==> !Superseded(ls, m, x)
  {
    hide InForce, Run;
    var x := Run(ls).crew.workers[w].sensor;
    var z := Run(ls).link.store.hashes[x.id];
    var q := StoredSince(ls, m, x.id);
    assert z != x ==> InForce(ls, q, z);
    forall q', y | m <= q' && InForce(ls, q', y) && y.id == x.id ensures y == z {
      InForceIsStored(ls, q', y);
    }
  }

  // ----- Convergence -----

  /** Sensor `id` runs on the registered settings, unless they have been superseded since its worker's
      listing read them. */
  ghost predicate CurrentUnlessSuperseded(ls: seq<Label>, id: string) {
    var s := Run(ls);
    && id in s.crew.running && s.crew.running[id] in s.crew.workers && id in s.link.store.hashes
    && var x := s.crew.workers[s.crew.running[id]].sensor;
       x.id == id
       && exists m, n :: Launched(ls, m, n, s.crew.running[id])
                         && (s.link.store.hashes[id] == x <==> !Superseded(ls, m, x))
  }

  lemma {:induction false} RunningIsCurrentUnlessSuperseded(ls: seq<Label>, id: string)
    requires id in Run(ls).crew.running && id in Run(ls).link.store.hashes
    ensures CurrentUnlessSuperseded(ls, id)
  {
    FleetIsAccountedFor(ls);
    var m, n := WorkerWasRegistered(ls, Run(ls).crew.running[id]);
    SettingsCurrentIffNotSuperseded(ls, m, n, Run(ls).crew.running[id]);
  }

  /** THE POLL IS ENOUGH. Even if every notification was lost, a successful reconcile whose index read
      saw the registry as it still is leaves exactly the registered sensors running, each on its
      registered settings unless these were superseded while it ran. */
  lemma {:induction false} UndisturbedReconcileConverges(ls: seq<Label>)
    requires var s := Run(ls); s.pc.Idle? && s.listOk && s.seenAt == s.link.version
    ensures Run(ls).crew.running.Keys == Run(ls).link.store.index == Run(ls).link.store.hashes.Keys
    ensures forall id :: id in Run(ls).crew.running ==> CurrentUnlessSuperseded(ls, id)
  {
    UpToDateAlways(ls);
    ConsistentAlways(ls);
    forall id | id in Run(ls).crew.running ensures CurrentUnlessSuperseded(ls, id) {
      assert id in Run(ls).link.store.hashes.Keys;
      RunningIsCurrentUnlessSuperseded(ls, id);
    }
  }

  /** QUIESCENCE MEANS CONVERGENCE. Idle after a successful reconcile, with no token in the slot and
      the latest change's notification delivered, the same holds. */
  lemma {:induction false} QuiescentFleetMatchesRegistry(ls: seq<Label>)
    requires var s := Run(ls); s.pc.Idle? && s.listOk && !s.slot.token && s.link.version > 0 && !Pending(s.link, s.link.version)
    ensures Run(ls).crew.running.Keys == Run(ls).link.store.index == Run(ls).link.store.hashes.Keys
    ensures forall id :: id in Run(ls).crew.running ==> CurrentUnlessSuperseded(ls, id)
  {
    NoLostWakeUp(ls, Run(ls).link.version);
    AwakeAlways(ls);
    UndisturbedReconcileConverges(ls);
  }

  // ----- A sensor added again keeps its old settings -----

  /** One whole listing of a registry that holds just `x`. */
  lemma {:induction false} ListsOne(ls: seq<Label>, x: Sensor)
    requires Run(ls).pc.AboutToList? && Run(ls).link.store == Store({x.id}, map[x.id := x])
    ensures var s, v := Run(ls), Run(ls).link.version;
            Run(ls + [Manager(ReadIndex)] + [Manager(ReadHash(x.id))] + [Manager(ListDone)])
            == s.(pc := Applying(map[x.id := x]), triedAt := v, seenAt := v, listOk := false)
  {
    var s := Run(ls);
    var l1 := ls + [Manager(ReadIndex)];
    RunSnoc(ls, Manager(ReadIndex));
    assert Run(l1).pc == Listing({x.id}, {x.id}, map[], {x.id});
    var l2 := l1 + [Manager(ReadHash(x.id))];
    RunSnoc(l1, Manager(ReadHash(x.id)));
    assert {x.id} - {x.id} == {};
    assert Run(l2).pc == Listing({x.id}, {}, map[x.id := x], {x.id});
    RunSnoc(l2, Manager(ListDone));
  }

  lemma {:induction false} AddsOne(ls: seq<Label>, x: Sensor, now: Instant, ids: set<string>, hs: map<string, Sensor>)
    requires Run(ls).link.store == Store(ids, hs) && ids <= {x.id} && hs.Keys <= {x.id} && now != 0 && x.Validate(now).None?
    ensures var s := Run(ls);
            Run(ls + [Env(AddSensor(x, now))])
            == s.(link := s.link.(store := Store({x.id}, map[x.id := x]), version := s.link.version + 1,
                                  unsent := s.link.unsent + {s.link.version + 1}))
  {
    hide Sensor.Validate;
    RunSnoc(ls, Env(AddSensor(x, now)));
    assert ids + {x.id} == {x.id};
    assert hs[x.id := x] == map[x.id := x];
  }

  /** Both notifications arrive. */
  lemma {:induction false} DeliversBoth(ls: seq<Label>)
    requires Run(ls).link.version == 2 && Run(ls).link.unsent == {1, 2} && Run(ls).link.wire == {} == Run(ls).link.lost
    ensures var s := Run(ls);
            Run(ls + [Env(Notify(1, true))] + [Env(Notify(2, true))] + [Env(Deliver(1))] + [Env(Deliver(2))])
            == s.(link := s.link.(unsent := {}), slot := Slot(true, 2))
  {
    var l1 := ls + [Env(Notify(1, true))];
    RunSnoc(ls, Env(Notify(1, true)));
    assert {1, 2} - {1} == {2} && {} + {1} == {1};
    assert Run(l1).link.unsent == {2} && Run(l1).link.wire == {1};
    var l2 := l1 + [Env(Notify(2, true))];
    RunSnoc(l1, Env(Notify(2, true)));
    assert {2} - {2} == {} && {1} + {2} == {1, 2};
    assert Run(l2).link.unsent == {} && Run(l2).link.wire == {1, 2};
    var l3 := l2 + [Env(Deliver(1))];
    RunSnoc(l2, Env(Deliver(1)));
    assert Run(l3).link.wire == {2};
    RunSnoc(l3, Env(Deliver(2)));
  }

  /** A SENSOR ADDED AGAIN KEEPS ITS OLD SETTINGS. Added with `x`, listed and started, then added again with
      `y`: with both notifications delivered and the reconcile they asked for carried through, the worker
      still runs on `x`. */
  lemma ReaddedSensorKeepsSettings(x: Sensor, y: Sensor, now: Instant) returns (ls: seq<Label>)
    requires x.id == y.id && now != 0 && x.Validate(now).None? && y.Validate(now).None?
    ensures var s := Run(ls);
            && s.pc.Idle? && s.listOk && !s.slot.token && s.link.version == 2 && !Pending(s.link, 1) && !Pending(s.link, 2)
            && s.link.store.hashes == map[x.id := y] && s.crew.running == map[x.id := 0]
            && s.crew.workers == map[0 := Worker(x, false, true)]
  {
    hide Sensor.Validate;
    ls := [];
    AddsOne(ls, x, now, {}, map[]);
    ls := ls + [Env(AddSensor(x, now))];
    ListsOne(ls, x);
    ls := ls + [Manager(ReadIndex)] + [Manager(ReadHash(x.id))] + [Manager(ListDone)];
    RunSnoc(ls, Manager(Start(x.id, 0)));
    ls := ls + [Manager(Start(x.id, 0))];
    var s := Run(ls);
    assert s.crew == Crew(map[x.id := 0], map[0 := Worker(x, false, true)], 1);
    RunSnoc(ls, Manager(Finish));
    ls := ls + [Manager(Finish)];
    AddsOne(ls, y, now, {x.id}, map[x.id := x]);
    ls := ls + [Env(AddSensor(y, now))];
    assert {} + {1} == {1} && {1} + {2} == {1, 2};
    DeliversBoth(ls);
    ls := ls + [Env(Notify(1, true))] + [Env(Notify(2, true))] + [Env(Deliver(1))] + [Env(Deliver(2))];
    RunSnoc(ls, Manager(TakeKick));
    ls := ls + [Manager(TakeKick)];
    ListsOne(ls, y);
    ls := ls + [Manager(ReadIndex)] + [Manager(ReadHash(y.id))] + [Manager(ListDone)];
    assert Run(ls).crew == s.crew;
    RunSnoc(ls, Manager(Finish));
    ls := ls + [Manager(Finish)];
  }
}
