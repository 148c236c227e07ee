/** What the manager can always do: one tick or kick is enough to bring the fleet in line with the registry, and every
    run can be stopped. */
module FleetPolling {
  import opened Registry
  import opened Fleet
  import opened FleetWakeup
  import opened FleetWorkers
  import opened FleetSettings
  import opened FleetReconcile

  lemma {:induction false} ManageConcat(s: State, a: seq<ManagerLabel>, b: seq<ManagerLabel>)
    ensures Manage(s, a + b) == Manage(Manage(s, a), b)
  {
    hide StepManager;
    if b == [] {
      assert a + b == a;
    } else {
      ManageConcat(s, a, b[..|b| - 1]);
      assert (a + b)[..|a + b| - 1] == a + b[..|b| - 1];
    }
  }

  lemma {:induction false} ManageFirst(s: State, m: ManagerLabel, ms: seq<ManagerLabel>)
    ensures Manage(s, [m] + ms) == Manage(StepManager(s, m), ms)
  {
    hide StepManager;
    ManageConcat(s, [m], ms);
    assert [m][..0] == [];
  }

  /** Every hash still to be read can be read. */
  lemma {:induction false} ReadsAll(s: State) returns (ms: seq<ManagerLabel>)
    requires s.pc.Listing?
    ensures var t := Manage(s, ms); t.pc.Listing? && t.pc.todo == {} && t == s.(pc := t.pc)
    decreases s.pc.todo
  {
    ms := [];
    if id :| id in s.pc.todo {
      var rest := ReadsAll(StepManager(s, ReadHash(id)));
      ms := [ReadHash(id)] + rest;
      ManageFirst(s, ReadHash(id), rest);
    }
  }

  lemma {:induction false} Above(ws: set<nat>) returns (b: nat)
    ensures forall w :: w in ws ==> w < b
  {
    b := 0;
    if x: nat :| x in ws {
      b := Above(ws - {x});
      assert forall w :: w in ws ==> w == x || w in ws - {x};
      if b <= x {
        b := x + 1;
      }
    }
  }

  ghost predicate Housed(c: Crew) {
    forall id :: id in c.running ==> c.running[id] in c.workers
  }

  /** Everything missing can be started ... */
  lemma {:induction false} StartsAll(s: State) returns (ms: seq<ManagerLabel>)
    requires s.pc.Applying? && Housed(s.crew)
    ensures var t := Manage(s, ms); t == s.(crew := t.crew) && Housed(t.crew) && AllStarted(t.crew, s.pc.desired)
    decreases s.pc.desired.Keys - s.crew.running.Keys
  {
    ms := [];
    if id :| id in s.pc.desired && id !in s.crew.running {
      var w := Above(s.crew.workers.Keys);
      var t := StepManager(s, Start(id, w));
      assert t == s.(crew := Started(s.crew, s.pc.desired[id], id, w));
      assert id in s.pc.desired.Keys - s.crew.running.Keys && id !in t.pc.desired.Keys - t.crew.running.Keys;
      var rest := StartsAll(t);
      ms := [Start(id, w)] + rest;
      ManageFirst(s, Start(id, w), rest);
    }
  }

  /** ... and then everything unwanted stopped. */
  lemma {:induction false} StopsAll(s: State) returns (ms: seq<ManagerLabel>)
    requires s.pc.Applying? && Housed(s.crew) && AllStarted(s.crew, s.pc.desired)
    ensures var t := Manage(s, ms);
            && t == s.(crew := t.crew) && AllStarted(t.crew, s.pc.desired)
            && forall id :: id in t.crew.running ==> id in s.pc.desired
    decreases s.crew.running.Keys
  {
    ms := [];
    if id :| id in s.crew.running && id !in s.pc.desired {
      var t := StepManager(s, Stop(id));
      assert t == s.(crew := Stopped(s.crew, id));
      assert id in s.crew.running.Keys && id !in t.crew.running.Keys;
      var rest := StopsAll(t);
      ms := [Stop(id)] + rest;
      ManageFirst(s, Stop(id), rest);
    }
  }

  /** Carrying out a list can always be finished. */
  lemma {:induction false} AppliesAll(s: State) returns (ms: seq<ManagerLabel>)
    requires s.pc.Applying? && Housed(s.crew)
    ensures var t := Manage(s, ms); t == s.(crew := t.crew, pc := Idle, listOk := true)
  {
    var a := StartsAll(s);
    var s1 := Manage(s, a);
    var b := StopsAll(s1);
    ms := a + b + [Finish];
    ManageConcat(s, a, b);
    ManageSnoc(s, a + b, Finish);
  }

  /** So can a listing, and what it lists be carried out. */
  lemma {:induction false} ListsAll(s: State) returns (ms: seq<ManagerLabel>)
    requires s.pc.AboutToList? && Housed(s.crew)
    ensures var t := Manage(s, ms);
            t.pc.Idle? && t.listOk && t.link == s.link && t.seenAt == s.link.version && t.slot == s.slot
  {
    var s1 := StepManager(s, ReadIndex);
    var a := ReadsAll(s1);
    var s2 := Manage(s1, a);
    var s3 := StepManager(s2, ListDone);
    var b := AppliesAll(s3);
    ms := [ReadIndex] + (a + ([ListDone] + b));
    ManageFirst(s, ReadIndex, a + ([ListDone] + b));
    ManageConcat(s1, a, [ListDone] + b);
    ManageFirst(s2, ListDone, b);
  }

  /** THE POLL CONVERGES. From every reachable idle state, whatever was lost before, some steps of the manager that begin
      with a tick and leave the kick slot alone end idle after a successful listing, with exactly the stored sensors running. */
  lemma {:induction false} PollConverges(ls: seq<Label>) returns (ms: seq<ManagerLabel>)
    requires Run(ls).pc.Idle?
    ensures ms != [] && ms[0] == Tick
    ensures var s, t := Run(ls), Run(ls + Labels(ms));
            && t.pc.Idle? && t.listOk && t.link == s.link && t.slot == s.slot
            && t.crew.running.Keys == t.link.store.hashes.Keys
  {
    ms := ActsOn(ls, Tick);
  }

  lemma {:induction false} ActsOn(ls: seq<Label>, m: ManagerLabel) returns (ms: seq<ManagerLabel>)
    requires Run(ls).pc.Idle? && (m.Tick? || (m.TakeKick? && Run(ls).slot.token))
    ensures ms != [] && ms[0] == m
    ensures var s, t := Run(ls), Run(ls + Labels(ms));
            && t.pc.Idle? && t.listOk && t.link == s.link
            && t.slot == (if m.Tick? then s.slot else s.slot.(token := false))
            && t.crew.running.Keys == t.link.store.hashes.Keys
  {
    InvAlways(ls);
    var s := Run(ls);
    var rest := ListsAll(StepManager(s, m));
    ms := [m] + rest;
    ManageFirst(s, m, rest);
    ManageIsRun(ls, ms);
    UndisturbedReconcileConverges(ls + Labels(ms));
  }

  /** SO DOES A KICK. Whatever the manager is doing, unless it waits for its workers or is gone: after a kick some of
      its steps use the token up and end the same way. */
  lemma {:induction false} KickConverges(ls: seq<Label>) returns (ms: seq<ManagerLabel>)
    requires !Run(ls).pc.Waiting? && !Run(ls).pc.Returned?
    ensures TakeKick in ms
    ensures var s, t := Run(ls), Run(ls + [Env(Kick)] + Labels(ms));
            && t.pc.Idle? && t.listOk && t.link == s.link && !t.slot.token
            && t.crew.running.Keys == t.link.store.hashes.Keys
  {
    hide Run, Manage, Labels, Housed;
    var l1 := ls + [Env(Kick)];
    KickFillsSlot(ls);
    AllHoused(l1);
    var a := TurnsIdle(Run(l1));
    ManageIsRun(l1, a);
    var b := ActsOn(l1 + Labels(a), TakeKick);
    ms := a + b;
    LabelsConcat(a, b);
    assert l1 + Labels(a) + Labels(b) == l1 + Labels(ms);
    assert ms[|a|] == TakeKick;
  }

  lemma {:induction false} LabelsConcat(a: seq<ManagerLabel>, b: seq<ManagerLabel>)
    ensures Labels(a + b) == Labels(a) + Labels(b)
  {
    if b == [] {
      assert a + b == a;
    } else {
      LabelsConcat(a, b[..|b| - 1]);
      assert (a + b)[..|a + b| - 1] == a + b[..|b| - 1];
    }
  }

  lemma {:induction false} KickFillsSlot(ls: seq<Label>)
    ensures var s, t := Run(ls), Run(ls + [Env(Kick)]); t.slot.token && t.pc == s.pc && t.link == s.link && t.crew == s.crew
  {
    RunSnoc(ls, Env(Kick));
  }

  lemma {:induction false} OneStep(s: State, m: ManagerLabel)
    ensures Manage(s, [m]) == StepManager(s, m)
  {
    assert [m][..0] == [];
  }

  /** The manager gets back to its select, wherever it is. */
  lemma {:induction false} TurnsIdle(s: State) returns (ms: seq<ManagerLabel>)
    requires Housed(s.crew) && !s.pc.Waiting? && !s.pc.Returned?
    ensures var t := Manage(s, ms); t.pc.Idle? && t.cancelled == s.cancelled && t.slot == s.slot && t.link == s.link
  {
    if s.pc.Idle? {
      ms := [];
    } else if s.pc.Applying? {
      hide StepManager;
      ms := AppliesAll(s);
    } else {
      ms := [ListFails];
      OneStep(s, ListFails);
    }
  }

  lemma {:induction false} AllHoused(ls: seq<Label>)
    ensures Housed(Run(ls).crew)
  {
    InvAlways(ls);
  }

  lemma Waits(s: State)
    requires s.pc.Idle? && s.cancelled
    ensures StepManager(s, TakeDone).pc.Waiting?
  {
  }

  /** From a cancelled state the manager gets to wait for its workers. */
  lemma {:induction false} GetsToWait(ls: seq<Label>) returns (more: seq<Label>)
    requires Run(ls).cancelled && !Run(ls).pc.Returned?
    ensures Run(ls + more).pc.Waiting? && forall i :: 0 <= i < |more| ==> more[i].Manager?
  {
    hide Run, Manage, StepManager, Labels, Housed;
    if Run(ls).pc.Waiting? {
      more := [];
      assert ls + more == ls;
    } else {
      AllHoused(ls);
      var ms := TurnsIdle(Run(ls));
      Waits(Manage(Run(ls), ms));
      ManageSnoc(Run(ls), ms, TakeDone);
      ManageIsRun(ls, ms + [TakeDone]);
      more := Labels(ms + [TakeDone]);
      ManagerOnly(ms + [TakeDone]);
    }
  }

  lemma {:induction false} ManagerOnly(ms: seq<ManagerLabel>)
    ensures forall i :: 0 <= i < |Labels(ms)| ==> Labels(ms)[i].Manager?
  {
    if ms != [] {
      ManagerOnly(ms[..|ms| - 1]);
    }
  }

  lemma {:induction false} Cancels(ls: seq<Label>)
    ensures Run(ls + [Env(Cancel)]).cancelled && Run(ls + [Env(Cancel)]).pc == Run(ls).pc
  {
    RunSnoc(ls, Env(Cancel));
  }

  lemma {:induction false} Closes(ls: seq<Label>)
    requires Run(ls).pc.Returned?
    ensures Run(ls + [Manager(CloseProducer)]).pc.Returned? && Run(ls + [Manager(CloseProducer)]).closed
  {
    RunSnoc(ls, Manager(CloseProducer));
  }

  /** EVERY RUN CAN STOP. From every reachable state a cancellation, steps of the manager and exits of workers lead to
      a manager that has returned and a closed producer, with no worker left. */
  lemma {:induction false} EveryRunCanStop(ls: seq<Label>) returns (more: seq<Label>)
    ensures forall i :: 0 <= i < |more| ==> more[i] == Env(Cancel) || more[i].Manager? || more[i].Exit?
    ensures var t := Run(ls + more);
            t.pc.Returned? && t.closed && forall w :: w in t.crew.workers ==> !t.crew.workers[w].live
  {
    hide Run, Step;
    more := [];
    assert ls + more == ls;
    if !Run(ls).pc.Returned? {
      Cancels(ls);
      var a := GetsToWait(ls + [Env(Cancel)]);
      var b := ShutdownCompletes(ls + [Env(Cancel)] + a);
      more := [Env(Cancel)] + a + b;
      assert ls + more == ls + [Env(Cancel)] + a + b;
    }
    Closes(ls + more);
    assert ls + (more + [Manager(CloseProducer)]) == ls + more + [Manager(CloseProducer)];
    more := more + [Manager(CloseProducer)];
    NothingOutlivesRun(ls + more);
  }
}
