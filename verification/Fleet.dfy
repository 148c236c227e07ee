/** The simulator's controller as a protocol: writers change the registry and notify over a lossy
    link, the watcher turns notifications into kicks of a one-slot channel, the manager lists the
    registry non-atomically and starts and stops workers, and shutdown waits for them.

    As in module `Ingestion` a label that cannot happen in a state changes nothing, so every label
    sequence is a schedule. */
module Fleet {
  import opened Events
  import opened Registry

  /** One sensor goroutine; `cancelled` is its individual off-switch. */
  datatype Worker = Worker(sensor: Sensor, cancelled: bool, live: bool)

  /** Where the manager's goroutine is. `stable` is history: the listed ids registered ever since
      the index was read. */
  datatype Pc =
    | Idle
    | AboutToList
    | Listing(ids: set<string>, todo: set<string>, got: map<string, Sensor>, stable: set<string>)
    | Applying(desired: map<string, Sensor>)
    | Waiting
    | Returned

  /** The registry and the notification link. `version` counts changes and names their
      notifications, which are `unsent`, on the `wire`, or `lost`. */
  datatype Link = Link(store: Store, version: nat, unsent: set<nat>, wire: set<nat>, lost: set<nat>)

  /** The kick slot; `kickedAt` is history: the version at the last kick. */
  datatype Slot = Slot(token: bool, kickedAt: nat)

  /** The fleet: who runs, by id; every worker ever started; and the WaitGroup counter. */
  datatype Crew = Crew(running: map<string, nat>, workers: map<nat, Worker>, wg: nat)

  /** `triedAt`, `seenAt` and `listOk` are history: the version at the last attempted listing, the
      version the last successful index read saw, and whether the last attempt was carried through. */
  datatype State = State(
    link: Link, slot: Slot, pc: Pc, triedAt: nat, seenAt: nat, listOk: bool, crew: Crew, cancelled: bool, closed: bool)

  /** Writers, the notification link, the watcher, and signals. */
  datatype EnvLabel =
    | AddSensor(x: Sensor, now: Instant)
    | RemoveSensor(id: string)
    | Notify(v: nat, ok: bool)
    | Lose(v: nat)
    | Deliver(v: nat)
    | Kick
    | Cancel

  /** The manager's own goroutine. */
  datatype ManagerLabel =
    | Tick
    | TakeKick
    | TakeDone
    | ReadIndex
    | ReadHash(id: string)
    | ListFails
    | ListDone
    | Start(id: string, w: nat)
    | Stop(id: string)
    | Finish
    | Return
    | CloseProducer

  datatype Label = Env(e: EnvLabel) | Manager(m: ManagerLabel) | Exit(w: nat)

  const BOOT: State := State(
    Link(Store({}, map[]), 0, {}, {}, {}), Slot(false, 0), AboutToList, 0, 0, false, Crew(map[], map[], 0), false, false)

  function Changed(k: Link, store: Store): Link {
    k.(store := store, version := k.version + 1, unsent := k.unsent + {k.version + 1})
  }

  /** What a writer or the network does to the link. An invalid sensor is refused before anything is
      written; removing an unknown id changes nothing and notifies nobody. */
  function StepLink(k: Link, e: EnvLabel): Link {
    match e
    case AddSensor(x, now) => if now == 0 || x.Validate(now).Some? then k else Changed(k, Put(k.store, x))
    case RemoveSensor(id) => if id !in k.store.hashes then k else Changed(k, Delete(k.store, id))
    case Notify(v, ok) =>
      if v !in k.unsent then k
      else if ok then k.(unsent := k.unsent - {v}, wire := k.wire + {v})
      else k.(unsent := k.unsent - {v}, lost := k.lost + {v})
    case Lose(v) => if v in k.wire then k.(wire := k.wire - {v}, lost := k.lost + {v}) else k
    case Deliver(v) => k.(wire := k.wire - {v})
    case _ => k
  }

  /** Kick puts a token in the slot if there is room. */
  function Kicked(s: State): Slot {
    Slot(true, s.link.version)
  }

  /** Drop a removed sensor from the listing's history. */
  function Forget(pc: Pc, id: string): Pc {
    if pc.Listing? then pc.(stable := pc.stable - {id}) else pc
  }

  function StepEnv(s: State, e: EnvLabel): State {
    match e
    case RemoveSensor(id) => s.(link := StepLink(s.link, e), pc := Forget(s.pc, id))
    case Deliver(v) => if v in s.link.wire then s.(link := StepLink(s.link, e), slot := Kicked(s)) else s
    case Kick => s.(slot := Kicked(s))
    case Cancel => s.(cancelled := true)
    case _ => s.(link := StepLink(s.link, e))
  }

  function Read(pc: Pc, h: map<string, Sensor>, id: string): Pc
    requires pc.Listing? && id in pc.todo
  {
    pc.(todo := pc.todo - {id}, got := if id in h then pc.got[id := h[id]] else pc.got)
  }

  /** wg.Add before the goroutine is launched. */
  function Started(c: Crew, x: Sensor, id: string, w: nat): Crew {
    Crew(c.running[id := w], c.workers[w := Worker(x, false, true)], c.wg + 1)
  }

  function Stopped(c: Crew, id: string): Crew
    requires id in c.running && c.running[id] in c.workers
  {
    var w := c.running[id];
    c.(running := c.running - {id}, workers := c.workers[w := c.workers[w].(cancelled := true)])
  }

  function Exited(c: Crew, w: nat): Crew
    requires w in c.workers && c.wg > 0
  {
    c.(workers := c.workers[w := c.workers[w].(live := false)], wg := c.wg - 1)
  }

  predicate AllStarted(c: Crew, desired: map<string, Sensor>) {
    forall id | id in desired :: id in c.running
  }

  /** Reconciling: first start whatever is missing, then stop whatever is not wanted. */
  function StepApply(s: State, m: ManagerLabel): State
    requires s.pc.Applying?
  {
    var c, desired := s.crew, s.pc.desired;
    match m
    case Start(id, w) =>
      if id in desired && id !in c.running && w !in c.workers then s.(crew := Started(c, desired[id], id, w)) else s
    case Stop(id) =>
      if AllStarted(c, desired) && id !in desired && id in c.running && c.running[id] in c.workers then s.(crew := Stopped(c, id)) else s
    case Finish =>
      if AllStarted(c, desired) && (forall id | id in c.running :: id in desired) then s.(pc := Idle, listOk := true) else s
    case _ => s
  }

  function StepList(s: State, m: ManagerLabel): State
    requires s.pc.Listing?
  {
    match m
    case ReadHash(id) => if id in s.pc.todo then s.(pc := Read(s.pc, s.link.store.hashes, id)) else s
    case ListFails => s.(pc := Idle, listOk := false)
    case ListDone => if s.pc.todo == {} then s.(pc := Applying(s.pc.got)) else s
    case _ => s
  }

  function StepManager(s: State, m: ManagerLabel): State {
    var index := s.link.store.index;
    match s.pc
    case Idle =>
      if m.Tick? then s.(pc := AboutToList)
      else if m.TakeKick? && s.slot.token then s.(pc := AboutToList, slot := s.slot.(token := false))
      else if m.TakeDone? && s.cancelled then s.(pc := Waiting)
      else s
    case AboutToList =>
      if m.ReadIndex? then
        s.(pc := Listing(index, index, map[], index), triedAt := s.link.version, seenAt := s.link.version, listOk := false)
      else if m.ListFails? then s.(pc := Idle, triedAt := s.link.version, listOk := false)
      else s
    case Listing(_, _, _, _) => StepList(s, m)
    case Applying(_) => StepApply(s, m)
    case Waiting => if m.Return? && s.crew.wg == 0 then s.(pc := Returned) else s
    case Returned => if m.CloseProducer? then s.(closed := true) else s
  }

  /** A worker leaves its loop only once its own context or the parent's is cancelled. */
  function StepWorker(s: State, w: nat): State {
    var c := s.crew;
    if w in c.workers && c.workers[w].live && (c.workers[w].cancelled || s.cancelled) && c.wg > 0 then s.(crew := Exited(c, w))
    else s
  }

  function Step(s: State, l: Label): State {
    match l
    case Env(e) => StepEnv(s, e)
    case Manager(m) => StepManager(s, m)
    case Exit(w) => StepWorker(s, w)
  }

  function Run(ls: seq<Label>): State {
    if ls == [] then BOOT else Step(Run(ls[..|ls| - 1]), ls[|ls| - 1])
  }
}
