/** The registry client and the simulator's manager as they are written, updated in place and proved
    against modules `Fleet` and `FleetReconcile`. */
module FleetCode {
  import opened Events
  import opened Registry
  import opened Ingestion
  import F = Fleet
  import opened FleetWorkers
  import opened FleetReconcile

  datatype AddError = Invalid(cause: SensorError) | NotStored | NotNotified

  /** What Redis answers to one HGETALL: no such hash, the settings, or an error. */
  datatype Reply = Missing | Found(x: Sensor) | Failed

  /** The sensors among the replies, in order. */
  function Present(replies: seq<Reply>): seq<Sensor> {
    if replies == [] then []
    else
      var before, reply := Present(replies[..|replies| - 1]), replies[|replies| - 1];
      if reply.Found? then before + [reply.x] else before
  }

  class RegistryClient {
    var store: Store
    // The ids handed to the notification channel.
    var published: seq<string>

    // The protocol's view of the store and of the notifications.
    ghost var link: F.Link

    ghost predicate Valid()
      reads this
    {
      link.store == store && Consistent(store) && link.unsent == {}
    }

    constructor ()
      ensures Valid() && link == F.BOOT.link && published == []
    {
      store, published, link := Store({}, map[]), [], F.BOOT.link;
    }

    /** Validate, store hash and index together, then notify; a notification follows only a write
        known to have worked. */
    method Add(x: Sensor, now: Instant, write: Fate, notify: Fate) returns (err: Option<AddError>)
      requires Valid() && now != 0
      modifies this
      ensures Valid()
      ensures x.Validate(now).Some? || write.Refused? ==> link == old(link)
      ensures x.Validate(now).None? && !write.Refused? ==>
                var k := F.StepLink(old(link), F.AddSensor(x, now));
                k.version == old(link).version + 1
                && link == F.StepLink(k, F.Notify(k.version, write.Done? && !notify.Refused?))
      ensures published == if x.Validate(now).None? && write.Done? && !notify.Refused? then old(published) + [x.id] else old(published)
      ensures err == match x.Validate(now)
                     case Some(e) => Some(Invalid(e))
                     case None => if !write.Done? then Some(NotStored) else if !notify.Done? then Some(NotNotified) else None
    {
      var bad := x.Validate(now);
      if bad.Some? {
        return Some(Invalid(bad.value));
      }
      if !write.Refused? {
        PutIsConsistent(store, x, now);
        store := Put(store, x);
        link := Settled(F.StepLink(link, F.AddSensor(x, now)), write.Done? && !notify.Refused?);
      }
      if !write.Done? {
        return Some(NotStored);
      }
      if !notify.Refused? {
        published := published + [x.id];
      }
      return if notify.Done? then None else Some(NotNotified);
    }

    /** What the change just made leads to: its notification, or none. */
    ghost function Settled(k: F.Link, ok: bool): F.Link {
      F.StepLink(k, F.Notify(k.version, ok))
    }

    /** Delete hash and index together; an unknown id is reported and nobody is notified of it. */
    method Remove(id: string, write: Fate, notify: Fate) returns (existed: bool, err: bool)
      requires Valid()
      modifies this
      ensures Valid()
      ensures write.Refused? || id !in old(store).hashes ==> link == old(link)
      ensures !write.Refused? && id in old(store).hashes ==>
                var k := F.StepLink(old(link), F.RemoveSensor(id));
                k.version == old(link).version + 1
                && link == F.StepLink(k, F.Notify(k.version, write.Done? && !notify.Refused?))
      ensures existed <==> write.Done? && id in old(store).hashes
      ensures published == if existed && !notify.Refused? then old(published) + [id] else old(published)
      ensures err <==> !write.Done? || (existed && !notify.Done?)
    {
      existed := write.Done? && id in store.hashes;
      if !write.Refused? {
        DeleteIsConsistent(store, id);
        if id in store.hashes {
          link := Settled(F.StepLink(link, F.RemoveSensor(id)), write.Done? && !notify.Refused?);
        } else {
          DeleteUnknown(store, id);
        }
        store := Delete(store, id);
      }
      if !write.Done? {
        return false, true;
      }
      if !existed {
        return false, false;
      }
      if !notify.Refused? {
        published := published + [id];
      }
      return true, !notify.Done?;
    }

    /** Range over the replies to one HGETALL per id of the index; a missing hash is skipped, any
        other failure fails the whole listing. */
    method List(indexOk: bool, pipelineOk: bool, replies: seq<Reply>) returns (listed: Option<seq<Sensor>>)
      ensures listed == if !indexOk || !pipelineOk || Failed in replies then None else Some(Present(replies))
    {
      if !indexOk || !pipelineOk {
        return None;
      }
      var sensors := [];
      for i := 0 to |replies|
        invariant Failed !in replies[..i]
        invariant sensors == Present(replies[..i])
      {
        assert replies[..i + 1][..i] == replies[..i];
        match replies[i] {
          case Failed => return None;
          case Missing =>
          case Found(x) => sensors := sensors + [x];
        }
      }
      assert replies[..|replies|] == replies;
      return Some(sensors);
    }
  }

  lemma DeleteUnknown(s: Store, id: string)
    requires Consistent(s) && id !in s.hashes
    ensures Delete(s, id) == s
  {
    assert id !in s.index;
    assert s.hashes - {id} == s.hashes;
  }

  // ----- Listing as the protocol's reads -----

  ghost predicate Answers(reply: Reply, h: map<string, Sensor>, id: string) {
    match reply
    case Missing => id !in h
    case Found(x) => id in h && h[id] == x && x.id == id
    case Failed => false
  }

  /** The protocol's hash reads in this order, each seeing the hashes of its own moment. */
  function ReadAll(pc: F.Pc, ids: seq<string>, hs: seq<map<string, Sensor>>): (r: F.Pc)
    requires pc.Listing? && |ids| == |hs|
    ensures r.Listing?
  {
    if ids == [] then pc
    else
      var n := |ids| - 1;
      var before := ReadAll(pc, ids[..n], hs[..n]);
      if ids[n] in before.todo then F.Read(before, hs[n], ids[n]) else before
  }

  lemma {:induction false} ListCollects(pc: F.Pc, ids: seq<string>, hs: seq<map<string, Sensor>>, replies: seq<Reply>)
    requires pc.Listing? && pc.got == map[] && |ids| == |hs| == |replies|
    requires forall i, j :: 0 <= i < j < |ids| ==> ids[i] != ids[j]
    requires forall i :: 0 <= i < |ids| ==> ids[i] in pc.todo && Answers(replies[i], hs[i], ids[i])
    ensures ReadAll(pc, ids, hs).got == Desired(Present(replies))
    ensures ReadAll(pc, ids, hs).todo == pc.todo - (set id | id in ids)
  {
    if ids == [] {
      assert pc.todo - (set id | id in ids) == pc.todo;
    } else {
      var n := |ids| - 1;
      var before := ReadAll(pc, ids[..n], hs[..n]);
      ListCollects(pc, ids[..n], hs[..n], replies[..n]);
      assert ids[n] !in ids[..n];
      assert ids == ids[..n] + [ids[n]];
      assert before.todo - {ids[n]} == pc.todo - (set id | id in ids);
      var xs := Present(replies[..n]);
      if replies[n].Found? {
        assert (xs + [replies[n].x])[..|xs|] == xs;
      }
    }
  }

  /** WHAT LIST RETURNS IS WHAT THE PROTOCOL COLLECTS. For a listing of the whole index in any order,
      each hash read at a moment of its own, the manager wants exactly the sensors the protocol's
      reads have got, and none are left to read. */
  lemma {:induction false} ListIsProtocolListing(
      index: set<string>, ids: seq<string>, hs: seq<map<string, Sensor>>, replies: seq<Reply>)
    requires |ids| == |hs| == |replies| && (forall id :: id in index <==> id in ids)
    requires forall i, j :: 0 <= i < j < |ids| ==> ids[i] != ids[j]
    requires forall i :: 0 <= i < |ids| ==> Answers(replies[i], hs[i], ids[i])
    ensures var r := ReadAll(F.Listing(index, index, map[], index), ids, hs);
            r.todo == {} && r.got == Desired(Present(replies))
  {
    forall i | 0 <= i < |ids| ensures ids[i] in index { assert ids[i] in ids; }
    ListCollects(F.Listing(index, index, map[], index), ids, hs, replies);
    assert index - (set id | id in ids) == {};
  }

  // ----- The manager -----

  /** What the manager's loop meets next. `TakeKick` and the tick come with the listing their
      reconcile gets; kicks, exits and the cancellation come from other goroutines. */
  datatype Event =
    | Tick(listed: Option<seq<Sensor>>)
    | TakeKick(listed: Option<seq<Sensor>>)
    | TakeDone
    | KickRequest
    | WorkerExit(w: nat)
    | Cancel

  /** The part of the manager that its events determine. */
  datatype Plan = Plan(wanted: set<string>, token: bool, cancelled: bool, waiting: bool)

  function Wanting(p: Plan, listed: Option<seq<Sensor>>): Plan {
    match listed
    case None => p
    case Some(xs) => p.(wanted := set x | x in xs :: x.id)
  }

  function PlanAfter(p: Plan, e: Event): Plan {
    match e
    case Tick(listed) => if p.waiting then p else Wanting(p, listed)
    case TakeKick(listed) => if p.waiting || !p.token then p else Wanting(p.(token := false), listed)
    case TakeDone => if p.cancelled then p.(waiting := true) else p
    case KickRequest => p.(token := true)
    case WorkerExit(_) => p
    case Cancel => p.(cancelled := true)
  }

  function PlanOf(p: Plan, es: seq<Event>): Plan {
    if es == [] then p else PlanAfter(PlanOf(p, es[..|es| - 1]), es[|es| - 1])
  }

  lemma {:induction false} DesiredIds(xs: seq<Sensor>)
    ensures Desired(xs).Keys == set x | x in xs :: x.id
    ensures OwnIds(Desired(xs))
  {
    if xs != [] {
      var n := |xs| - 1;
      DesiredIds(xs[..n]);
      assert xs == xs[..n] + [xs[n]];
    }
  }

  lemma DesiredSnoc(xs: seq<Sensor>, i: nat)
    requires i < |xs|
    ensures Desired(xs[..i + 1]) == Desired(xs[..i])[xs[i].id := xs[i]]
  {
    assert xs[..i + 1][..i] == xs[..i];
  }

  method Wanted(listed: seq<Sensor>) returns (desired: map<string, Sensor>)
    ensures desired == Desired(listed)
  {
    desired := map[];
    for i := 0 to |listed|
      invariant desired == Desired(listed[..i])
    {
      DesiredSnoc(listed, i);
      desired := desired[listed[i].id := listed[i]];
    }
    assert listed[..|listed|] == listed;
  }

  /** Off the protocol's steps: a launch and a dismissal. */
  lemma LaunchIsStep(s: F.State, desired: map<string, Sensor>, c: F.Crew, id: string, w: nat)
    requires s.pc == F.Applying(desired) && id in desired && id !in c.running && w !in c.workers
    ensures F.StepManager(s.(crew := c), F.Start(id, w)) == s.(crew := F.Started(c, desired[id], id, w))
  {
  }

  lemma DismissalIsStep(s: F.State, desired: map<string, Sensor>, c: F.Crew, id: string)
    requires s.pc == F.Applying(desired) && id !in desired && id in c.running && c.running[id] in c.workers
    requires forall i :: i in desired ==> i in c.running
    ensures F.StepManager(s.(crew := c), F.Stop(id)) == s.(crew := F.Stopped(c, id))
  {
  }

  class Manager {
    // The one-slot channel, the off-switches by sensor id, and the WaitGroup.
    var kick: bool
    var running: map<string, nat>
    var wg: nat

    // The goroutines behind the off-switches, whether the context handed to Run is cancelled, and
    // whether Run is waiting for the last of them.
    var workers: map<nat, F.Worker>
    var launched: nat
    var cancelled: bool
    var waiting: bool

    ghost function View(): F.Crew
      reads this
    {
      F.Crew(running, workers, wg)
    }

    ghost function ViewPlan(): Plan
      reads this
    {
      Plan(running.Keys, kick, cancelled, waiting)
    }

    ghost predicate Valid()
      reads this
    {
      && Manned(View(), cancelled) && Counted(View())
      && (forall w :: w in workers ==> w < launched)
      && (waiting ==> cancelled)
    }

    constructor ()
      ensures Valid() && View() == F.BOOT.crew && ViewPlan() == Plan({}, false, false, false)
    {
      kick, running, wg := false, map[], 0;
      workers, launched, cancelled, waiting := map[], 0, false, false;
    }

    /** Never blocks: a kick that finds the slot full is dropped. */
    method Kick()
      requires Valid()
      modifies this`kick
      ensures Valid() && kick
    {
      if !kick {
        kick := true;
      }
    }

    /** One worker for `x`; counted before it is launched. */
    method Launch(x: Sensor)
      requires Valid() && x.id !in running
      modifies this`running, this`workers, this`wg, this`launched
      ensures Valid() && launched == old(launched) + 1
      ensures View() == F.Started(old(View()), x, x.id, old(launched))
    {
      StartKeeps(View(), x, launched, cancelled);
      running := running[x.id := launched];
      wg := wg + 1;
      workers := workers[launched := F.Worker(x, false, true)];
      launched := launched + 1;
    }

    /** Cancel one worker's context and forget it. */
    method Dismiss(id: string)
      requires Valid() && id in running
      modifies this`running, this`workers
      ensures Valid() && old(running)[id] in old(workers)
      ensures View() == F.Stopped(old(View()), id)
    {
      StopKeeps(View(), id, cancelled);
      var w := running[id];
      workers := workers[w := workers[w].(cancelled := true)];
      running := running - {id};
    }

    /** A worker's deferred Done. */
    method WorkerDone(w: nat)
      requires Valid() && w in workers && workers[w].live && (workers[w].cancelled || cancelled)
      modifies this`workers, this`wg
      ensures Valid() && old(wg) > 0
      ensures View() == F.Exited(old(View()), w)
    {
      LiveIsCounted(View(), w);
      ExitKeeps(View(), w, cancelled);
      workers := workers[w := workers[w].(live := false)];
      wg := wg - 1;
    }

    /** A failed listing keeps the fleet. Otherwise start what is missing, then stop what is not
        wanted, ranging over the maps in whatever order; `ms` are the protocol's steps for it. */
    method Reconcile(listed: Option<seq<Sensor>>, ghost s: F.State) returns (ghost ms: seq<F.ManagerLabel>)
      requires Valid() && s.crew == View()
      requires listed.Some? ==> s.pc == F.Applying(Desired(listed.value))
      modifies this`running, this`workers, this`wg, this`launched
      ensures Valid()
      ensures listed.None? ==> View() == old(View()) && ms == []
      ensures listed.Some? ==>
                && Reconciled(old(View()), Desired(listed.value), View())
                && (forall i :: 0 <= i < |ms| ==> Applies(ms[i]))
                && Manage(s, ms) == s.(crew := View(), pc := F.Idle, listOk := true)
    {
      ms := [];
      if listed.None? {
        return;
      }
      var desired := Wanted(listed.value);
      DesiredIds(listed.value);
      assert Orderly(View(), desired);
      ms := StartMissing(desired, s);
      ms := StopUnwanted(desired, s, ms);
      ms := Finished(desired, s, ms);
    }

    method ReconcileWith(listed: Option<seq<Sensor>>)
      requires Valid()
      modifies this`running, this`workers, this`wg, this`launched
      ensures Valid() && ViewPlan() == Wanting(old(ViewPlan()), listed)
      ensures if listed.Some? then Reconciled(old(View()), Desired(listed.value), View()) else View() == old(View())
    {
      ghost var pc := if listed.Some? then F.Applying(Desired(listed.value)) else F.Idle;
      ghost var ms := Reconcile(listed, F.BOOT.(crew := View(), pc := pc));
      if listed.Some? {
        DesiredIds(listed.value);
      }
    }

    /** One pass through the `select`, or one thing another goroutine does meanwhile. */
    method Handle(e: Event)
      requires Valid()
      modifies this
      ensures Valid() && ViewPlan() == PlanAfter(old(ViewPlan()), e)
      ensures CrewAfter(old(ViewPlan()), old(View()), e, View())
      ensures e.Tick? && !old(waiting) && e.listed.Some? ==> Reconciled(old(View()), Desired(e.listed.value), View())
      ensures e.TakeKick? && !old(waiting) && old(kick) ==>
                !kick && (e.listed.Some? ==> Reconciled(old(View()), Desired(e.listed.value), View()))
      ensures e.TakeDone? ==> waiting == (old(waiting) || cancelled)
      ensures (e.KickRequest? ==> kick) && (e.Cancel? ==> cancelled)
      ensures e.WorkerExit? && e.w in old(workers) && (old(workers)[e.w].cancelled || cancelled) ==>
                e.w in workers && !workers[e.w].live
    {
      hide Manned, Counted, Reconciled, Desired;
      match e {
        case Tick(listed) =>
          if !waiting {
            ReconcileWith(listed);
          }
        case TakeKick(listed) =>
          if !waiting && kick {
            kick := false;
            ReconcileWith(listed);
          }
        case TakeDone =>
          waiting := waiting || cancelled;
        case KickRequest =>
          Kick();
        case WorkerExit(w) =>
          if w in workers && workers[w].live && (workers[w].cancelled || cancelled) {
            WorkerDone(w);
          }
        case Cancel =>
          MannedInShutdown(View(), cancelled);
          cancelled := true;
      }
    }

    /** The events so far have led here, through these fleets. */
    ghost predicate Underway(start: Plan, es: seq<Event>, crews: seq<F.Crew>)
      reads this
    {
      Valid() && ViewPlan() == PlanOf(start, es) && Trail(start, es, crews) && crews[|es|] == View()
    }

    lemma Begins(start: Plan)
      requires Valid() && ViewPlan() == start
      ensures Underway(start, [], [View()])
    {
      TrailStarts(start, View());
    }

    lemma {:induction false} UnderwayMeans(start: Plan, es: seq<Event>, crews: seq<F.Crew>)
      requires Underway(start, es, crews)
      ensures Valid() && ViewPlan() == PlanOf(start, es) && Trail(start, es, crews)
      ensures |crews| == |es| + 1 && crews[|es|] == View()
    {
    }

    method HandleNext(e: Event, ghost start: Plan, ghost es: seq<Event>, ghost crews: seq<F.Crew>)
      returns (ghost more: seq<F.Crew>)
      requires Underway(start, es, crews)
      modifies this
      ensures Underway(start, es + [e], more) && |crews| > 0 && |more| > 0 && more[0] == crews[0]
    {
      hide Manned, Counted, PlanOf, CrewAfter, PlanAfter;
      assert (es + [e])[..|es|] == es;
      PlanOfLast(start, es + [e]);
      Handle(e);
      TrailGrows(start, es, crews, e, View());
      more := crews + [View()];
    }

    /** Reconcile at boot, then one event after the other, until the context is done and the last
        worker has left. `crews` are the fleets it went through: each event reconciled, let one worker go, or
        changed nothing. */
    method Run(boot: Option<seq<Sensor>>, events: seq<Event>)
      returns (seen: nat, stopped: bool, ghost crews: seq<F.Crew>)
      requires Valid() && !waiting
      modifies this
      ensures Valid() && seen <= |events| && (stopped || seen == |events|)
      ensures ViewPlan() == PlanOf(Wanting(old(ViewPlan()), boot), events[..seen])
      ensures Trail(Wanting(old(ViewPlan()), boot), events[..seen], crews) && |crews| == seen + 1 && crews[seen] == View()
      ensures if boot.Some? then Reconciled(old(View()), Desired(boot.value), crews[0]) else crews[0] == old(View())
      ensures stopped <==> waiting && wg == 0
      ensures stopped ==> cancelled && forall w :: w in workers ==> !workers[w].live
    {
      ghost var start := Wanting(ViewPlan(), boot);
      ReconcileWith(boot);
      hide Manned, Counted, Reconciled, Desired, Wanting, Underway, Trail, PlanOf, CrewAfter, ViewPlan;
      ghost var first := View();
      seen, crews := 0, [first];
      assert events[..0] == [];
      Begins(start);
      while seen < |events| && !(waiting && wg == 0)
        invariant seen <= |events| && |crews| > 0 && crews[0] == first
        invariant Underway(start, events[..seen], crews)
      {
        assert events[..seen + 1] == events[..seen] + [events[seen]];
        crews := HandleNext(events[seen], start, events[..seen], crews);
        seen := seen + 1;
      }
      UnderwayMeans(start, events[..seen], crews);
      stopped := waiting && wg == 0;
      if stopped {
        NobodyLeft(View());
      }
    }

    /** The steps so far have led here. */
    ghost predicate Follows(s: F.State, ms: seq<F.ManagerLabel>)
      reads this
    {
      Valid() && (forall i :: 0 <= i < |ms| ==> Applies(ms[i])) && Manage(s, ms) == s.(crew := View())
    }

    method StartMissing(desired: map<string, Sensor>, ghost s: F.State) returns (ghost ms: seq<F.ManagerLabel>)
      requires Follows(s, []) && s.pc == F.Applying(desired) && OwnIds(desired)
      modifies this`running, this`workers, this`wg, this`launched
      ensures Follows(s, ms) && forall id :: id in desired ==> id in running
    {
      hide Manned, Counted, F.StepManager, Manage;
      ms := [];
      var todo := desired.Keys;
      while todo != {}
        invariant Follows(s, ms) && todo <= desired.Keys
        invariant forall id :: id in desired && id !in todo ==> id in running
      {
        var id :| id in todo;
        todo := todo - {id};
        if id !in running {
          ghost var m := F.Start(id, launched);
          ManageSnoc(s, ms, m);
          LaunchIsStep(s, desired, View(), id, launched);
          Launch(desired[id]);
          ms := ms + [m];
        }
      }
    }

    method StopUnwanted(desired: map<string, Sensor>, ghost s: F.State, ghost before: seq<F.ManagerLabel>)
      returns (ghost ms: seq<F.ManagerLabel>)
      requires Follows(s, before) && s.pc == F.Applying(desired) && forall id :: id in desired ==> id in running
      modifies this`running, this`workers
      ensures Follows(s, ms) && running.Keys == desired.Keys
    {
      hide Manned, Counted, F.StepManager, Manage;
      ms := before;
      var todo := running.Keys;
      while todo != {}
        invariant Follows(s, ms) && todo <= running.Keys
        invariant forall id :: id in desired ==> id in running
        invariant forall id :: id in running && id !in todo ==> id in desired
      {
        var id :| id in todo;
        todo := todo - {id};
        if id !in desired {
          ghost var m := F.Stop(id);
          ManageSnoc(s, ms, m);
          RunningIsKnown(View(), id, cancelled);
          DismissalIsStep(s, desired, View(), id);
          Dismiss(id);
          ms := ms + [m];
        }
      }
      assert forall id :: id in running <==> id in desired;
    }

    ghost method Finished(desired: map<string, Sensor>, s: F.State, before: seq<F.ManagerLabel>)
      returns (ms: seq<F.ManagerLabel>)
      requires Follows(s, before) && s.pc == F.Applying(desired) && running.Keys == desired.Keys
      requires Orderly(s.crew, desired)
      ensures (forall i :: 0 <= i < |ms| ==> Applies(ms[i])) && Manage(s, ms) == s.(crew := View(), pc := F.Idle, listOk := true)
      ensures Reconciled(s.crew, desired, View())
    {
      ms := before + [F.Finish];
      ManageSnoc(s, before, F.Finish);
      ApplyAlways(s, ms);
    }
  }

  /** What a notification watcher meets. */
  datatype Notice = Message(id: string) | ContextDone | ChannelClosed

  /** Kick on every message, whatever it says, until the context is done; a closed channel is an
      error. However many messages came, one token is in the slot. */
  method Watch(notices: seq<Notice>, m: Manager) returns (seen: nat, err: bool)
    requires m.Valid()
    modifies m`kick
    ensures m.Valid() && seen <= |notices|
    ensures forall i :: 0 <= i < seen ==> notices[i].Message?
    ensures seen < |notices| ==> !notices[seen].Message? && (err <==> notices[seen].ChannelClosed?)
    ensures seen == |notices| ==> !err
    ensures m.kick <==> old(m.kick) || seen > 0
  {
    for i := 0 to |notices|
      invariant m.Valid() && forall j :: 0 <= j < i ==> notices[j].Message?
      invariant m.kick <==> old(m.kick) || i > 0
    {
      match notices[i] {
        case ContextDone => return i, false;
        case ChannelClosed => return i, true;
        case Message(_) => m.Kick();
      }
    }
    return |notices|, false;
  }

  /** The event makes the manager reconcile with this listing. */
  function ListingFor(p: Plan, e: Event): Option<seq<Sensor>> {
    match e
    case Tick(listed) => if p.waiting then None else listed
    case TakeKick(listed) => if p.waiting || !p.token then None else listed
    case _ => None
  }

  predicate CanExit(c: F.Crew, cancelled: bool, w: nat) {
    w in c.workers && c.workers[w].live && (c.workers[w].cancelled || cancelled)
  }

  lemma ListingDecides(p: Plan, e: Event)
    ensures PlanAfter(p, e).wanted
         == if ListingFor(p, e).Some? then set x | x in ListingFor(p, e).value :: x.id else p.wanted
  {
  }

  lemma {:induction false} PlanOfLast(p: Plan, es: seq<Event>)
    requires es != []
    ensures PlanOf(p, es) == PlanAfter(PlanOf(p, es[..|es| - 1]), es[|es| - 1])
  {
  }

  /** THE LATEST LISTING WINS. After any events the sensors that run are those of the latest listing
      that succeeded and was acted on, whatever failed, was kicked or was cancelled since. */
  lemma {:induction false} LatestListingWins(p: Plan, es: seq<Event>, i: nat)
    requires i < |es| && ListingFor(PlanOf(p, es[..i]), es[i]).Some?
    requires forall j :: i < j < |es| ==> ListingFor(PlanOf(p, es[..j]), es[j]).None?
    ensures PlanOf(p, es).wanted == set x | x in ListingFor(PlanOf(p, es[..i]), es[i]).value :: x.id
  {
    hide PlanAfter, ListingFor;
    var n := |es| - 1;
    ListingDecides(PlanOf(p, es[..n]), es[n]);
    PlanOfLast(p, es);
    hide PlanOf;
    if i < n {
      assert forall j :: 0 <= j <= n ==> es[..n][..j] == es[..j];
      LatestListingWins(p, es[..n], i);
    }
  }

  /** What an event does to the fleet: a reconcile, one worker's exit, or nothing. */
  ghost predicate CrewAfter(p: Plan, c: F.Crew, e: Event, t: F.Crew) {
    if ListingFor(p, e).Some? then Reconciled(c, Desired(ListingFor(p, e).value), t)
    else if e.WorkerExit? && CanExit(c, p.cancelled, e.w) && c.wg > 0 then t == F.Exited(c, e.w)
    else t == c
  }

  /** The fleets before the first event and after each. */
  ghost predicate Trail(p: Plan, es: seq<Event>, crews: seq<F.Crew>) {
    |crews| == |es| + 1 && forall i :: 0 <= i < |es| ==> CrewAfter(PlanOf(p, es[..i]), crews[i], es[i], crews[i + 1])
  }

  lemma TrailStarts(p: Plan, c: F.Crew)
    ensures Trail(p, [], [c])
  {
  }

  lemma {:induction false} TrailGrows(p: Plan, es: seq<Event>, crews: seq<F.Crew>, e: Event, t: F.Crew)
    requires Trail(p, es, crews) && CrewAfter(PlanOf(p, es), crews[|es|], e, t)
    ensures Trail(p, es + [e], crews + [t])
  {
    hide CrewAfter, PlanOf;
    assert (es + [e])[..|es|] == es;
    assert forall i :: 0 <= i < |es| ==> (es + [e])[..i] == es[..i];
  }

  /** A SURVIVOR KEEPS ITS WORKER, however many reconciles it lives through. */
  lemma {:induction false} SurvivorKeepsWorker(p: Plan, es: seq<Event>, crews: seq<F.Crew>, id: string)
    requires Trail(p, es, crews) && forall i :: 0 <= i < |crews| ==> id in crews[i].running
    ensures crews[|es|].running[id] == crews[0].running[id]
  {
    if es != [] {
      var n := |es| - 1;
      assert forall i :: 0 <= i <= n ==> es[..n][..i] == es[..i];
      SurvivorKeepsWorker(p, es[..n], crews[..n + 1], id);
      assert CrewAfter(PlanOf(p, es[..n]), crews[n], es[n], crews[n + 1]);
      StepKeepsWorker(PlanOf(p, es[..n]), crews[n], es[n], crews[n + 1], id);
    }
  }

  lemma StepKeepsWorker(p: Plan, c: F.Crew, e: Event, t: F.Crew, id: string)
    requires CrewAfter(p, c, e, t) && id in c.running && id in t.running
    ensures t.running[id] == c.running[id]
  {
    hide Desired, PlanOf;
  }

  ghost predicate OwnIds(desired: map<string, Sensor>) {
    forall id :: id in desired ==> desired[id].id == id
  }

  lemma NobodyLeft(c: F.Crew)
    requires Counted(c) && c.wg == 0
    ensures forall w :: w in c.workers ==> !c.workers[w].live
  {
    forall w | w in c.workers ensures !c.workers[w].live {
      assert w !in Live(c);
    }
  }

  lemma RunningIsKnown(c: F.Crew, id: string, shutdown: bool)
    requires Manned(c, shutdown) && id in c.running
    ensures c.running[id] in c.workers
  {
  }

  lemma LiveIsCounted(c: F.Crew, w: nat)
    requires Counted(c) && w in Live(c)
    ensures c.wg > 0
  {
  }
}
