/** The registry as the manager sees it: consistent, listed as a weak snapshot, and never forgotten
    once a kick has been delivered. */
module FleetWakeup {
  import opened Events
  import opened Registry
  import opened Fleet

  lemma ConsistentStep(s: State, l: Label)
    requires Consistent(s.link.store)
    ensures Consistent(Step(s, l).link.store)
  {
    if !l.Env? {
      ManagerFrame(s, l);
    } else {
      match l.e
      case AddSensor(x, now) => if now != 0 && x.Validate(now).None? { PutIsConsistent(s.link.store, x, now); }
      case RemoveSensor(id) => DeleteIsConsistent(s.link.store, id);
      case _ =>
    }
  }

  /** The manager and its workers touch neither the link nor the record of kicks. */
  lemma ManagerFrame(s: State, l: Label)
    requires !l.Env?
    ensures Step(s, l).link == s.link && Step(s, l).slot.kickedAt == s.slot.kickedAt
  {
  }

  lemma {:induction false} ConsistentAlways(ls: seq<Label>)
    ensures Consistent(Run(ls).link.store)
  {
    if ls != [] {
      ConsistentAlways(ls[..|ls| - 1]);
      ConsistentStep(Run(ls[..|ls| - 1]), ls[|ls| - 1]);
    }
  }

  // ----- No lost wake-up -----

  ghost predicate Pending(k: Link, v: nat) {
    v in k.unsent || v in k.wire || v in k.lost
  }

  /** Every change's notification is still somewhere, or a kick came after the change. */
  ghost predicate Notified(k: Link, kickedAt: nat) {
    && kickedAt <= k.version
    && (forall v: nat :: Pending(k, v) ==> v <= k.version)
    && (forall v: nat :: 0 < v <= k.version && !Pending(k, v) ==> v <= kickedAt)
  }

  /** A kick is still in the slot, about to be acted on, or older than the last listing attempt; and a
      reconcile under way or carried through is that of the last attempt. */
  ghost predicate Awake(s: State) {
    && s.seenAt <= s.triedAt <= s.link.version
    && (s.slot.token || s.pc.AboutToList? || s.slot.kickedAt <= s.triedAt)
    && (s.pc.Listing? || s.pc.Applying? || s.listOk ==> s.seenAt == s.triedAt)
  }

  lemma NotifiedLink(k: Link, kickedAt: nat, e: EnvLabel)
    requires Notified(k, kickedAt)
    ensures Notified(StepLink(k, e), if e.Deliver? then k.version else kickedAt)
  {
    var t := StepLink(k, e);
    forall v: nat | Pending(t, v) ensures v <= t.version {
      assert Pending(k, v) || v == k.version + 1;
    }
    forall v: nat | 0 < v <= t.version && !Pending(t, v) ensures v <= if e.Deliver? then k.version else kickedAt {
      assert v <= k.version && (Pending(k, v) ==> e.Deliver?);
    }
  }

  lemma NotifiedStep(s: State, l: Label)
    requires Notified(s.link, s.slot.kickedAt)
    ensures Notified(Step(s, l).link, Step(s, l).slot.kickedAt)
  {
    if l.Env? {
      NotifiedLink(s.link, s.slot.kickedAt, l.e);
    } else {
      ManagerFrame(s, l);
    }
  }

  lemma AwakeEnv(s: State, e: EnvLabel)
    requires Awake(s) && s.slot.kickedAt <= s.link.version
    ensures Awake(StepEnv(s, e))
  {
    assert s.link.version <= StepEnv(s, e).link.version;
  }

  lemma AwakeManager(s: State, m: ManagerLabel)
    requires Awake(s) && s.slot.kickedAt <= s.link.version
    ensures Awake(StepManager(s, m))
  {
    if s.pc.Applying? {
      hide Started, Stopped, AllStarted;
    } else {
      hide StepApply;
    }
  }

  lemma AwakeStep(s: State, l: Label)
    requires Awake(s) && s.slot.kickedAt <= s.link.version
    ensures Awake(Step(s, l))
  {
    match l
    case Env(e) => AwakeEnv(s, e);
    case Manager(m) => AwakeManager(s, m);
    case Exit(w) =>
  }

  lemma {:induction false} AwakeAlways(ls: seq<Label>)
    ensures Notified(Run(ls).link, Run(ls).slot.kickedAt) && Awake(Run(ls))
  {
    if ls != [] {
      AwakeAlways(ls[..|ls| - 1]);
      NotifiedStep(Run(ls[..|ls| - 1]), ls[|ls| - 1]);
      AwakeStep(Run(ls[..|ls| - 1]), ls[|ls| - 1]);
    }
  }

  /** NO LOST WAKE-UP. Once the notification of change `v` is no longer on its way nor lost, either a
      token is in the slot, or the manager is about to list, or it has attempted a listing since. */
  lemma {:induction false} NoLostWakeUp(ls: seq<Label>, v: nat)
    requires 0 < v <= Run(ls).link.version && !Pending(Run(ls).link, v)
    ensures var s := Run(ls); s.slot.token || s.pc.AboutToList? || v <= s.triedAt
  {
    AwakeAlways(ls);
  }

  /** NOTIFICATIONS CAN BE LOST. One that is still to be sent or on its way can vanish, and then nothing has
      happened but that. */
  lemma {:induction false} NotificationCanBeLost(ls: seq<Label>, v: nat) returns (l: Label)
    requires v in Run(ls).link.unsent || v in Run(ls).link.wire
    ensures l == Env(Notify(v, false)) || l == Env(Lose(v))
    ensures var s, k := Run(ls), Run(ls).link;
            Run(ls + [l])
            == s.(link := if v in k.unsent then k.(unsent := k.unsent - {v}, lost := k.lost + {v})
                          else k.(wire := k.wire - {v}, lost := k.lost + {v}))
  {
    l := if v in Run(ls).link.unsent then Env(Notify(v, false)) else Env(Lose(v));
    assert (ls + [l])[..|ls|] == ls;
  }

  /** Step `n` attempts a listing at version `v` or later: it reads the index, or fails to. */
  ghost predicate Attempt(ls: seq<Label>, n: nat, v: nat) {
    && n < |ls|
    && Run(ls[..n]).pc.AboutToList? && v <= Run(ls[..n]).link.version
    && (ls[n] == Manager(ReadIndex) || ls[n] == Manager(ListFails))
  }

  ghost predicate IndexRead(ls: seq<Label>, n: nat, v: nat) {
    Attempt(ls, n, v) && ls[n] == Manager(ReadIndex)
  }

  lemma AttemptStep(s: State, l: Label)
    requires Awake(s)
    ensures var t := Step(s, l);
            if s.pc.AboutToList? && l == Manager(ReadIndex) then t.triedAt == t.seenAt == s.link.version
            else if s.pc.AboutToList? && l == Manager(ListFails) then t.triedAt == s.link.version && t.seenAt == s.seenAt
            else t.triedAt == s.triedAt && t.seenAt == s.seenAt
  {
  }

  /** Earlier attempts stay attempts, and the last step may be one more. */
  lemma AttemptsBefore(ls: seq<Label>, n: nat, v: nat)
    requires ls != [] && n < |ls| - 1
    ensures Attempt(ls, n, v) <==> Attempt(ls[..|ls| - 1], n, v)
    ensures IndexRead(ls, n, v) <==> IndexRead(ls[..|ls| - 1], n, v)
  {
    hide Run;
    assert ls[..|ls| - 1][..n] == ls[..n];
  }

  lemma AttemptLast(ls: seq<Label>, v: nat)
    requires ls != []
    ensures var n := |ls| - 1;
            var s := Run(ls[..n]);
            && (Attempt(ls, n, v) <==> s.pc.AboutToList? && v <= s.link.version
                                       && (ls[n] == Manager(ReadIndex) || ls[n] == Manager(ListFails)))
            && (IndexRead(ls, n, v) <==> s.pc.AboutToList? && v <= s.link.version && ls[n] == Manager(ReadIndex))
  {
    hide Run;
  }

  /** The two history fields say what attempts there were. */
  lemma {:induction false} AttemptsRecorded(ls: seq<Label>, v: nat)
    requires v > 0
    ensures v <= Run(ls).triedAt <==> exists n :: Attempt(ls, n, v)
    ensures v <= Run(ls).seenAt <==> exists n :: IndexRead(ls, n, v)
  {
    if ls == [] {
      NoAttempts(v);
    } else {
      var before, l := ls[..|ls| - 1], ls[|ls| - 1];
      AttemptsRecorded(before, v);
      AwakeAlways(before);
      AttemptStep(Run(before), l);
      assert Run(ls) == Step(Run(before), l);
      AttemptLast(ls, v);
      hide Step, Run, Attempt, IndexRead;
      forall n: nat
        ensures Attempt(ls, n, v) <==> (n == |before| && Attempt(ls, |before|, v)) || Attempt(before, n, v)
        ensures IndexRead(ls, n, v) <==> (n == |before| && IndexRead(ls, |before|, v)) || IndexRead(before, n, v)
      {
        AttemptInRun(ls, n, v);
        AttemptInRun(before, n, v);
        if n < |before| { AttemptsBefore(ls, n, v); }
      }
    }
  }

  lemma {:induction false} NoAttempts(v: nat)
    ensures Run([]).triedAt == 0 == Run([]).seenAt
    ensures forall n :: !Attempt([], n, v) && !IndexRead([], n, v)
  {
  }

  lemma AttemptInRun(ls: seq<Label>, n: nat, v: nat)
    ensures Attempt(ls, n, v) || IndexRead(ls, n, v) ==> n < |ls|
  {
  }

  /** WHEN A WAKE-UP IS SEEN. Idle with an empty slot and change `v` delivered, the manager has attempted
      a listing since the change; it has seen the change exactly when one of those attempts got past
      its index read. */
  lemma {:induction false} WakeUpSeenIffIndexRead(ls: seq<Label>, v: nat)
    requires var s := Run(ls); 0 < v <= s.link.version && !Pending(s.link, v) && s.pc.Idle? && !s.slot.token
    ensures exists n :: Attempt(ls, n, v)
    ensures v <= Run(ls).seenAt <==> exists n :: IndexRead(ls, n, v)
  {
    NoLostWakeUp(ls, v);
    AttemptsRecorded(ls, v);
  }

  lemma {:induction false} RunSnoc(ls: seq<Label>, l: Label)
    ensures Run(ls + [l]) == Step(Run(ls), l)
  {
    assert (ls + [l])[..|ls|] == ls;
  }

  /** Add one sensor and deliver its notification. */
  lemma {:induction false} AddAndDeliver(ls: seq<Label>, x: Sensor, now: Instant)
    requires Run(ls) == BOOT.(pc := Idle) && now != 0 && x.Validate(now).None?
    ensures Run(ls + [Env(AddSensor(x, now))] + [Env(Notify(1, true))] + [Env(Deliver(1))])
         == BOOT.(pc := Idle, link := Link(Store({x.id}, map[x.id := x]), 1, {}, {}, {}), slot := Slot(true, 1))
  {
    hide Sensor.Validate;
    var l1 := ls + [Env(AddSensor(x, now))];
    RunSnoc(ls, Env(AddSensor(x, now)));
    assert {} + {x.id} == {x.id};
    var k1 := Link(Store({x.id}, map[x.id := x]), 1, {1}, {}, {});
    assert Run(l1).link == k1;
    var l2 := l1 + [Env(Notify(1, true))];
    RunSnoc(l1, Env(Notify(1, true)));
    assert Run(l2).link == k1.(unsent := {}, wire := {1});
    RunSnoc(l2, Env(Deliver(1)));
    assert {1} - {1} == {};
  }

  /** A WAKE-UP CAN BE SPENT ON NOTHING. If the index read of the listing it asks for fails, the manager is
      idle again with an empty slot and has seen nothing; only the next tick or kick will list. */
  lemma FailedIndexReadSeesNothing(x: Sensor, now: Instant) returns (ls: seq<Label>)
    requires now != 0 && x.Validate(now).None?
    ensures var s := Run(ls);
            && s.pc.Idle? && !s.slot.token && !Pending(s.link, 1)
            && s.link.version == 1 == s.triedAt && s.seenAt == 0
            && s.link.store.index == {x.id} && s.crew.running == map[]
    ensures Manager(ReadIndex) !in ls
  {
    ls := [Manager(ListFails)];
    assert ls[..0] == [];
    AddAndDeliver(ls, x, now);
    ls := ls + [Env(AddSensor(x, now))] + [Env(Notify(1, true))] + [Env(Deliver(1))];
    RunSnoc(ls, Manager(TakeKick));
    ls := ls + [Manager(TakeKick)];
    RunSnoc(ls, Manager(ListFails));
    ls := ls + [Manager(ListFails)];
  }

  // ----- Listing is a weak snapshot -----

  ghost predicate Snapshot(s: State) {
    s.pc.Listing? ==>
      && s.pc.todo <= s.pc.ids
      && s.pc.stable <= s.pc.ids && s.pc.stable <= s.link.store.index
      && s.pc.got.Keys <= s.pc.ids - s.pc.todo
      && s.pc.stable - s.pc.todo <= s.pc.got.Keys
      && (forall id :: id in s.pc.got ==> s.pc.got[id].id == id)
  }

  lemma SnapshotEnv(s: State, e: EnvLabel)
    requires Snapshot(s)
    ensures Snapshot(StepEnv(s, e))
  {
  }

  lemma SnapshotManager(s: State, m: ManagerLabel)
    requires Consistent(s.link.store) && Snapshot(s)
    ensures Snapshot(StepManager(s, m))
  {
    if !s.pc.Applying? {
      hide StepApply;
    }
  }

  lemma SnapshotStep(s: State, l: Label)
    requires Consistent(s.link.store) && Snapshot(s)
    ensures Snapshot(Step(s, l))
  {
    match l
    case Env(e) => SnapshotEnv(s, e);
    case Manager(m) => SnapshotManager(s, m);
    case Exit(w) =>
  }

  lemma {:induction false} SnapshotAlways(ls: seq<Label>)
    ensures Snapshot(Run(ls))
  {
    if ls != [] {
      ConsistentAlways(ls[..|ls| - 1]);
      SnapshotAlways(ls[..|ls| - 1]);
      SnapshotStep(Run(ls[..|ls| - 1]), ls[|ls| - 1]);
    }
  }

  /** Step `m` read the hash of `id` for a listing, and got these settings. */
  ghost predicate HashRead(ls: seq<Label>, m: nat, id: string, x: Sensor) {
    && m < |ls| && ls[m] == Manager(ReadHash(id))
    && Run(ls[..m]).pc.Listing? && id in Run(ls[..m]).pc.todo
    && id in Run(ls[..m]).link.store.hashes && Run(ls[..m]).link.store.hashes[id] == x
  }

  /** ... for the listing still in progress after `ls`. */
  ghost predicate Collected(ls: seq<Label>, m: nat, id: string, x: Sensor) {
    HashRead(ls, m, id, x) && forall q :: m <= q <= |ls| ==> Run(ls[..q]).pc.Listing?
  }

  /** What has been collected was collected before, or is read off the registry now. */
  lemma GotStep(s: State, l: Label, id: string)
    requires Step(s, l).pc.Listing? && id in Step(s, l).pc.got
    ensures s.pc.Listing?
    ensures var x := Step(s, l).pc.got[id];
            (id in s.pc.got && s.pc.got[id] == x)
            || (l == Manager(ReadHash(id)) && id in s.pc.todo && id in s.link.store.hashes && s.link.store.hashes[id] == x)
  {
  }

  lemma {:induction false} GotWasRead(ls: seq<Label>, id: string) returns (m: nat)
    requires Run(ls).pc.Listing? && id in Run(ls).pc.got
    ensures Collected(ls, m, id, Run(ls).pc.got[id])
  {
    hide Step;
    var before, l := ls[..|ls| - 1], ls[|ls| - 1];
    assert ls[..|ls|] == ls && before[..|before|] == before;
    assert forall q :: 0 <= q <= |before| ==> ls[..q] == before[..q];
    GotStep(Run(before), l, id);
    if id in Run(before).pc.got && Run(before).pc.got[id] == Run(ls).pc.got[id] {
      m := GotWasRead(before, id);
    } else {
      m := |before|;
    }
  }

  /** LIST IS A WEAK SNAPSHOT. When every hash has been read, the result holds every sensor registered
      throughout and only sensors listed in the index at its read, each under its own id and with
      the settings it had when this listing read its hash. */
  lemma {:induction false} ListIsWeakSnapshot(ls: seq<Label>)
    requires Run(ls).pc.Listing? && Run(ls).pc.todo == {}
    ensures var pc := Run(ls).pc;
            && pc.stable <= pc.got.Keys <= pc.ids
            && (forall id :: id in pc.got ==> pc.got[id].id == id && exists m :: Collected(ls, m, id, pc.got[id]))
  {
    SnapshotAlways(ls);
    var pc := Run(ls).pc;
    assert pc.stable - pc.todo == pc.stable;
    forall id | id in pc.got ensures exists m :: Collected(ls, m, id, pc.got[id]) {
      var m := GotWasRead(ls, id);
    }
  }

  // ----- Convergence -----

  /** As long as nothing has changed since the index was read, what the manager has is the registry. */
  ghost predicate UpToDate(s: State) {
    s.seenAt == s.link.version ==>
      match s.pc
      case Listing(ids, todo, got, _) =>
        ids == s.link.store.index && todo <= ids && got.Keys == ids - todo && got.Keys <= s.link.store.hashes.Keys
      case Applying(desired) => desired.Keys == s.link.store.index
      case _ => s.listOk ==> s.crew.running.Keys == s.link.store.index
  }

  lemma UpToDateEnv(s: State, e: EnvLabel)
    requires s.seenAt <= s.link.version && UpToDate(s)
    ensures UpToDate(StepEnv(s, e))
  {
    var t := StepEnv(s, e);
    assert t.link.store == s.link.store || t.link.version == s.link.version + 1;
    assert t.seenAt == s.seenAt && t.crew == s.crew && t.listOk == s.listOk;
  }

  lemma UpToDateList(s: State, m: ManagerLabel)
    requires Consistent(s.link.store) && UpToDate(s) && s.pc.Listing?
    ensures UpToDate(StepManager(s, m))
  {
    var t := StepList(s, m);
    assert t == StepManager(s, m) && t.link == s.link && t.seenAt == s.seenAt && t.crew == s.crew;
    if t.pc.Listing? && t != s && s.seenAt == s.link.version {
      assert t.pc.got.Keys == s.pc.got.Keys + {m.id};
    }
    if t.pc.Applying? {
      assert s.pc.ids - s.pc.todo == s.pc.ids;
    }
  }

  lemma UpToDateApply(s: State, m: ManagerLabel)
    requires UpToDate(s) && s.pc.Applying?
    ensures UpToDate(StepManager(s, m))
  {
    hide Stopped, Started;
    var t := StepManager(s, m);
    assert t.link == s.link && t.seenAt == s.seenAt;
    if t.pc.Idle? {
      assert s.crew.running.Keys == s.pc.desired.Keys;
    }
  }

  lemma UpToDateManager(s: State, m: ManagerLabel)
    requires Consistent(s.link.store) && UpToDate(s)
    ensures UpToDate(StepManager(s, m))
  {
    if s.pc.Listing? {
      UpToDateList(s, m);
    } else if s.pc.Applying? {
      UpToDateApply(s, m);
    } else {
      hide StepList, StepApply;
      assert StepManager(s, m).link == s.link && StepManager(s, m).crew == s.crew;
    }
  }

  lemma UpToDateStep(s: State, l: Label)
    requires Consistent(s.link.store) && s.seenAt <= s.link.version && UpToDate(s)
    ensures UpToDate(Step(s, l))
  {
    match l
    case Env(e) => UpToDateEnv(s, e);
    case Manager(m) => UpToDateManager(s, m);
    case Exit(w) =>
  }

  lemma {:induction false} UpToDateAlways(ls: seq<Label>)
    ensures UpToDate(Run(ls))
  {
    if ls != [] {
      ConsistentAlways(ls[..|ls| - 1]);
      AwakeAlways(ls[..|ls| - 1]);
      UpToDateAlways(ls[..|ls| - 1]);
      UpToDateStep(Run(ls[..|ls| - 1]), ls[|ls| - 1]);
    }
  }
}
