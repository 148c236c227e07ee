/** The broadcast hub as a protocol: register, unregister and broadcast exclude one another under
    the hub's lock, while clients receive whenever they like, even between two sends of one
    broadcast. */
module Hub {
  import opened Events

  /** Each client's queue length. */
  const CLIENT_BUFFER: nat := 16

  /** One client's channel. `received` and `dropped` are history. */
  datatype Client = Client(queue: seq<Bytes>, received: seq<Bytes>, open: bool, dropped: nat)

  /** A broadcast in progress: its message and the clients still to be served. */
  datatype Cast = Cast(msg: Bytes, todo: set<nat>)

  /** `drops` names the client of every skipped delivery; the source keeps only their number. */
  datatype State = State(clients: map<nat, Client>, registered: set<nat>, sending: Option<Cast>, drops: multiset<nat>)

  datatype Label = Register(c: nat) | Unregister(c: nat) | Begin(msg: Bytes) | Send(c: nat) | Receive(c: nat)

  const START: State := State(map[], {}, None, multiset{})

  const NEW_CLIENT: Client := Client([], [], true, 0)

  /** What the lock and the channels allow. */
  predicate Enabled(s: State, l: Label) {
    match l
    case Register(c) => s.sending.None? && c !in s.clients
    case Unregister(c) => s.sending.None?
    case Begin(_) => s.sending.None?
    case Send(c) => s.sending.Some? && c in s.sending.value.todo && c in s.clients
    case Receive(c) => c in s.clients && s.clients[c].queue != []
  }

  /** The select-with-default: queue the message or skip it. */
  function Offered(k: Client, msg: Bytes): Client {
    if |k.queue| < CLIENT_BUFFER then k.(queue := k.queue + [msg]) else k.(dropped := k.dropped + 1)
  }

  function Taken(k: Client): Client
    requires k.queue != []
  {
    k.(queue := k.queue[1..], received := k.received + [k.queue[0]])
  }

  function Casting(msg: Bytes, todo: set<nat>): Option<Cast> {
    if todo == {} then None else Some(Cast(msg, todo))
  }

  function Step(s: State, l: Label): State
    requires Enabled(s, l)
  {
    match l
    case Register(c) => s.(clients := s.clients[c := NEW_CLIENT], registered := s.registered + {c})
    case Unregister(c) =>
      if c in s.registered && c in s.clients then
        s.(clients := s.clients[c := s.clients[c].(open := false)], registered := s.registered - {c})
      else s
    case Begin(msg) => s.(sending := Casting(msg, s.registered))
    case Send(c) =>
      s.(clients := s.clients[c := Offered(s.clients[c], s.sending.value.msg)],
         sending := Casting(s.sending.value.msg, s.sending.value.todo - {c}),
         drops := if |s.clients[c].queue| < CLIENT_BUFFER then s.drops else s.drops + multiset{c})
    case Receive(c) => s.(clients := s.clients[c := Taken(s.clients[c])])
  }

  /** A schedule every step of which the lock and the channels allow. */
  predicate Valid(ls: seq<Label>)
    decreases |ls|, 0
  {
    ls == [] || (Valid(ls[..|ls| - 1]) && Enabled(Run(ls[..|ls| - 1]), ls[|ls| - 1]))
  }

  function Run(ls: seq<Label>): State
    requires Valid(ls)
    decreases |ls|, 1
  {
    if ls == [] then START else Step(Run(ls[..|ls| - 1]), ls[|ls| - 1])
  }

  /** The sends of one broadcast, in this order. */
  function SendAll(s: State, ids: seq<nat>): State {
    if ids == [] then s
    else
      var before := SendAll(s, ids[..|ids| - 1]);
      if Enabled(before, Send(ids[|ids| - 1])) then Step(before, Send(ids[|ids| - 1])) else before
  }

  lemma {:induction false} NoSends(s: State)
    ensures SendAll(s, []) == s
  {
  }

  lemma {:induction false} OneMoreSend(s: State, ids: seq<nat>)
    requires ids != [] && Enabled(SendAll(s, ids[..|ids| - 1]), Send(ids[|ids| - 1]))
    ensures SendAll(s, ids) == Step(SendAll(s, ids[..|ids| - 1]), Send(ids[|ids| - 1]))
  {
  }

  // ----- Sends only ever hit open channels -----

  ghost predicate Orderly(s: State) {
    && (forall c :: c in s.registered <==> c in s.clients && s.clients[c].open)
    && (s.sending.Some? ==> s.sending.value.todo <= s.registered && s.sending.value.todo != {})
    && (forall c :: c in s.clients ==> |s.clients[c].queue| <= CLIENT_BUFFER && s.clients[c].dropped == s.drops[c])
    && (forall c :: c in s.drops ==> c in s.clients)
  }

  lemma OrderlyStep(s: State, l: Label)
    requires Orderly(s) && Enabled(s, l)
    ensures Orderly(Step(s, l))
  {
  }

  lemma {:induction false} OrderlyAlways(ls: seq<Label>)
    requires Valid(ls)
    ensures Orderly(Run(ls))
  {
    if ls != [] {
      OrderlyAlways(ls[..|ls| - 1]);
      OrderlyStep(Run(ls[..|ls| - 1]), ls[|ls| - 1]);
    }
  }

  /** NO SEND ON A CLOSED CHANNEL. In every reachable state exactly the registered clients have an open channel,
      and a send that can happen goes to one of them. */
  lemma {:induction false} SendsHitOpenChannels(ls: seq<Label>, c: nat)
    requires Valid(ls)
    ensures c in Run(ls).registered <==> c in Run(ls).clients && Run(ls).clients[c].open
    ensures Enabled(Run(ls), Send(c)) ==> c in Run(ls).registered
  {
    OrderlyAlways(ls);
  }

  lemma {:induction false} RunSnoc(ls: seq<Label>, l: Label)
    requires Valid(ls) && Enabled(Run(ls), l)
    ensures Valid(ls + [l]) && Run(ls + [l]) == Step(Run(ls), l)
  {
    assert (ls + [l])[..|ls|] == ls;
  }

  /** NOBODY HOLDS UP A BROADCAST. In every reachable state one send to each client still to be served, all of them
      possible, ends the broadcast and frees the lock, however full the queues are. */
  lemma {:induction false} BroadcastCanFinish(ls: seq<Label>) returns (more: seq<Label>)
    requires Valid(ls) && Run(ls).sending.Some?
    ensures Valid(ls + more) && Run(ls + more).sending.None?
    ensures |more| == |Run(ls).sending.value.todo|
    ensures forall i :: 0 <= i < |more| ==> more[i].Send? && more[i].c in Run(ls).sending.value.todo
    decreases Run(ls).sending.value.todo
  {
    OrderlyAlways(ls);
    hide Orderly, Offered;
    var todo := Run(ls).sending.value.todo;
    var c := NextToServe(Run(ls));
    RunSnoc(ls, Send(c));
    more := [Send(c)];
    if todo != {c} {
      assert todo - {c} != {};
      var rest := BroadcastCanFinish(ls + [Send(c)]);
      assert ls + [Send(c)] + rest == ls + ([Send(c)] + rest);
      more := [Send(c)] + rest;
    } else {
      assert todo - {c} == {};
    }
  }

  lemma NextToServe(s: State) returns (c: nat)
    requires Orderly(s) && s.sending.Some?
    ensures c in s.sending.value.todo && Enabled(s, Send(c))
  {
    c :| c in s.sending.value.todo;
  }

  /** A CLIENT CAN ALWAYS READ WHAT IS QUEUED FOR IT, all of it and in order, also once its channel is closed and also
      during a broadcast. */
  lemma {:induction false} QueueCanDrain(ls: seq<Label>, c: nat) returns (more: seq<Label>)
    requires Valid(ls) && c in Run(ls).clients
    ensures Valid(ls + more) && |more| == |Run(ls).clients[c].queue| && forall i :: 0 <= i < |more| ==> more[i] == Receive(c)
    ensures var k, s, t := Run(ls).clients[c], Run(ls), Run(ls + more);
            t == s.(clients := s.clients[c := k.(queue := [], received := k.received + k.queue)])
    decreases |Run(ls).clients[c].queue|
  {
    more := [];
    var k := Run(ls).clients[c];
    if k.queue == [] {
      assert ls + more == ls;
      assert k.(queue := [], received := k.received + k.queue) == k;
      assert Run(ls).clients[c := k] == Run(ls).clients;
    } else {
      RunSnoc(ls, Receive(c));
      var rest := QueueCanDrain(ls + [Receive(c)], c);
      assert ls + [Receive(c)] + rest == ls + ([Receive(c)] + rest);
      assert k.received + [k.queue[0]] + k.queue[1..] == k.received + k.queue;
      var after := k.(queue := [], received := k.received + k.queue);
      assert Run(ls).clients[c := Taken(k)][c := after] == Run(ls).clients[c := after];
      more := [Receive(c)] + rest;
    }
  }

  // ----- Non-interference -----

  /** Whether client `c` takes part in a step. */
  predicate Concerns(l: Label, c: nat) {
    l.Begin? || l.c == c
  }

  /** The run with everything other clients do cut out. */
  function Purge(ls: seq<Label>, c: nat): seq<Label> {
    if ls == [] then []
    else
      var before := Purge(ls[..|ls| - 1], c);
      if Concerns(ls[|ls| - 1], c) then before + [ls[|ls| - 1]] else before
  }

  /** `t` shows client `c` what `s` shows it, and has no other client. */
  ghost predicate SameFor(s: State, t: State, c: nat) {
    && (c in s.clients <==> c in t.clients) && (c in s.clients ==> s.clients[c] == t.clients[c])
    && t.registered == (if c in s.registered then {c} else {})
    && t.sending == (if s.sending.Some? && c in s.sending.value.todo then Some(Cast(s.sending.value.msg, {c})) else None)
    && s.drops[c] == t.drops[c]
  }

  lemma SameForSend(s: State, t: State, d: nat, c: nat)
    requires Orderly(s) && Enabled(s, Send(d)) && SameFor(s, t, c)
    ensures d == c ==> Enabled(t, Send(d)) && SameFor(Step(s, Send(d)), Step(t, Send(d)), c)
    ensures d != c ==> SameFor(Step(s, Send(d)), t, c)
  {
    hide Offered;
    assert {c} - {c} == {};
  }

  lemma SameForLeave(s: State, t: State, d: nat, c: nat)
    requires Orderly(s) && Enabled(s, Unregister(d)) && SameFor(s, t, c)
    ensures d == c ==> Enabled(t, Unregister(d)) && SameFor(Step(s, Unregister(d)), Step(t, Unregister(d)), c)
    ensures d != c ==> SameFor(Step(s, Unregister(d)), t, c)
  {
    assert {c} - {c} == {};
  }

  lemma SameForJoin(s: State, t: State, d: nat, c: nat)
    requires Orderly(s) && Enabled(s, Register(d)) && SameFor(s, t, c)
    ensures d == c ==> Enabled(t, Register(d)) && SameFor(Step(s, Register(d)), Step(t, Register(d)), c)
    ensures d != c ==> SameFor(Step(s, Register(d)), t, c)
  {
  }

  lemma SameForBegin(s: State, t: State, msg: Bytes, c: nat)
    requires Orderly(s) && Enabled(s, Begin(msg)) && SameFor(s, t, c)
    ensures Enabled(t, Begin(msg)) && SameFor(Step(s, Begin(msg)), Step(t, Begin(msg)), c)
  {
  }

  lemma SameForReceive(s: State, t: State, d: nat, c: nat)
    requires Enabled(s, Receive(d)) && SameFor(s, t, c)
    ensures d == c ==> Enabled(t, Receive(d)) && SameFor(Step(s, Receive(d)), Step(t, Receive(d)), c)
    ensures d != c ==> SameFor(Step(s, Receive(d)), t, c)
  {
    hide Taken;
  }

  lemma SameForStep(s: State, t: State, l: Label, c: nat)
    requires Orderly(s) && Enabled(s, l) && SameFor(s, t, c)
    ensures Concerns(l, c) ==> Enabled(t, l) && SameFor(Step(s, l), Step(t, l), c)
    ensures !Concerns(l, c) ==> SameFor(Step(s, l), t, c)
  {
    hide Step, SameFor, Orderly, Enabled;
    match l
    case Register(d) => SameForJoin(s, t, d, c);
    case Unregister(d) => SameForLeave(s, t, d, c);
    case Begin(msg) => SameForBegin(s, t, msg, c);
    case Send(d) => SameForSend(s, t, d, c);
    case Receive(d) => SameForReceive(s, t, d, c);
  }

  /** NON-INTERFERENCE. Cutting everything the other clients do out of a run leaves a possible run
      that looks exactly the same to the client left in it: its queue, what it received, what was
      dropped on it. */
  lemma {:induction false} OthersDoNotInterfere(ls: seq<Label>, c: nat)
    requires Valid(ls)
    ensures Valid(Purge(ls, c)) && SameFor(Run(ls), Run(Purge(ls, c)), c)
  {
    if ls != [] {
      var before, l := ls[..|ls| - 1], ls[|ls| - 1];
      OthersDoNotInterfere(before, c);
      OrderlyAlways(before);
      SameForStep(Run(before), Run(Purge(before, c)), l, c);
      assert Concerns(l, c) ==> Purge(ls, c)[..|Purge(ls, c)| - 1] == Purge(before, c);
    }
  }

  // ----- The queue is a greedy bounded FIFO -----

  datatype Event = Offer(msg: Bytes) | Take

  /** A lone bounded queue: take what fits, skip what does not. */
  function Fifo(es: seq<Event>): Client {
    if es == [] then NEW_CLIENT
    else
      var k := Fifo(es[..|es| - 1]);
      match es[|es| - 1]
      case Offer(m) => Offered(k, m)
      case Take => if k.queue == [] then k else Taken(k)
  }

  /** What happened to client `c`'s own queue. */
  function EventsOf(ls: seq<Label>, c: nat): seq<Event>
    requires Valid(ls)
  {
    if ls == [] then []
    else
      var l, before := ls[|ls| - 1], EventsOf(ls[..|ls| - 1], c);
      if l == Send(c) then before + [Offer(Run(ls[..|ls| - 1]).sending.value.msg)]
      else if l == Receive(c) then before + [Take]
      else before
  }

  function Offers(es: seq<Event>): seq<Bytes> {
    if es == [] then []
    else
      var before := Offers(es[..|es| - 1]);
      match es[|es| - 1]
      case Offer(m) => before + [m]
      case Take => before
  }

  /** The messages broadcast while `c` was registered. */
  function CastsFor(ls: seq<Label>, c: nat): seq<Bytes>
    requires Valid(ls)
  {
    if ls == [] then []
    else
      var l, before := ls[|ls| - 1], CastsFor(ls[..|ls| - 1], c);
      if l.Begin? && c in Run(ls[..|ls| - 1]).registered then before + [l.msg] else before
  }

  /** The broadcast that has yet to reach `c`. */
  function Pending(s: State, c: nat): seq<Bytes> {
    if s.sending.Some? && c in s.sending.value.todo then [s.sending.value.msg] else []
  }

  /** One step, as client `c`'s channel sees it ... */
  lemma ChannelStep(s: State, l: Label, c: nat)
    requires Enabled(s, l)
    ensures var t := Step(s, l);
            && (l == Send(c) ==> c in s.clients && c in t.clients && t.clients[c] == Offered(s.clients[c], s.sending.value.msg))
            && (l == Receive(c) ==> c in s.clients && c in t.clients && s.clients[c].queue != [] && t.clients[c] == Taken(s.clients[c]))
            && (l == Register(c) ==> c !in s.clients && c in t.clients && t.clients[c] == NEW_CLIENT)
            && (l != Send(c) && l != Receive(c) && l != Register(c) ==>
                  (c in t.clients <==> c in s.clients) && (c in s.clients ==> t.clients[c].(open := true) == s.clients[c].(open := true)))
  {
    hide Offered, Taken, Casting;
  }

  /** ... and as the broadcasts still on their way to it. */
  lemma PendingStep(s: State, l: Label, c: nat)
    requires Orderly(s) && Enabled(s, l)
    ensures var t := Step(s, l);
            && (l == Send(c) ==> Pending(s, c) == [s.sending.value.msg] && Pending(t, c) == [])
            && (l.Begin? ==> Pending(s, c) == [] && Pending(t, c) == (if c in s.registered then [l.msg] else []))
            && (!l.Begin? && l != Send(c) ==> Pending(t, c) == Pending(s, c))
  {
    hide Offered, Taken;
    if l.Send? && l.c != c {
      assert c in s.sending.value.todo <==> c in s.sending.value.todo - {l.c};
    } else if l.Begin? {
      assert c in s.registered ==> s.registered != {};
    }
  }

  lemma {:induction false} OneMoreEvent(es: seq<Event>, e: Event)
    ensures Offers(es + [e]) == if e.Offer? then Offers(es) + [e.msg] else Offers(es)
    ensures var k := Fifo(es);
            Fifo(es + [e]) == if e.Offer? then Offered(k, e.msg) else if k.queue == [] then k else Taken(k)
  {
    assert (es + [e])[..|es|] == es;
  }

  /** How the events and the broadcasts of client `c` grow by one step. */
  lemma EventsStep(ls: seq<Label>, c: nat)
    requires Valid(ls) && ls != []
    ensures var before, l := ls[..|ls| - 1], ls[|ls| - 1];
            var es, cs, s := EventsOf(before, c), CastsFor(before, c), Run(before);
            && (l == Send(c) ==> s.sending.Some? && EventsOf(ls, c) == es + [Offer(s.sending.value.msg)])
            && (l == Receive(c) ==> EventsOf(ls, c) == es + [Take])
            && (l != Send(c) && l != Receive(c) ==> EventsOf(ls, c) == es)
            && CastsFor(ls, c) == (if l.Begin? && c in s.registered then cs + [l.msg] else cs)
            && Enabled(s, l) && Run(ls) == Step(s, l)
  {
  }

  lemma OfferedOpens(k: Client, m: Bytes)
    ensures Offered(k, m).(open := true) == Offered(k.(open := true), m)
    ensures k.queue != [] ==> Taken(k).(open := true) == Taken(k.(open := true))
  {
  }

  lemma {:induction false} QueueIsLoneFifo(ls: seq<Label>, c: nat)
    requires Valid(ls)
    ensures c in Run(ls).clients ==> Run(ls).clients[c].(open := true) == Fifo(EventsOf(ls, c))
    ensures c !in Run(ls).clients ==> EventsOf(ls, c) == []
  {
    if ls != [] {
      var before, l := ls[..|ls| - 1], ls[|ls| - 1];
      QueueIsLoneFifo(before, c);
      EventsStep(ls, c);
      hide Step, Run, EventsOf, Fifo, Offered, Taken, Enabled;
      ChannelStep(Run(before), l, c);
      if l == Send(c) {
        OneMoreEvent(EventsOf(before, c), Offer(Run(before).sending.value.msg));
        OfferedOpens(Run(before).clients[c], Run(before).sending.value.msg);
      } else if l == Receive(c) {
        OneMoreEvent(EventsOf(before, c), Take);
        OfferedOpens(Run(before).clients[c], []);
      } else if l == Register(c) {
        NoEventsYet();
      }
    }
  }

  lemma NoEventsYet()
    ensures Fifo([]) == NEW_CLIENT && NEW_CLIENT.(open := true) == NEW_CLIENT
  {
  }

  lemma {:induction false} OffersAreCasts(ls: seq<Label>, c: nat)
    requires Valid(ls)
    ensures Offers(EventsOf(ls, c)) + Pending(Run(ls), c) == CastsFor(ls, c)
  {
    if ls != [] {
      var before, l := ls[..|ls| - 1], ls[|ls| - 1];
      OffersAreCasts(before, c);
      OrderlyAlways(before);
      EventsStep(ls, c);
      hide Step, Run, EventsOf, Offers, Pending, CastsFor, Enabled;
      PendingStep(Run(before), l, c);
      if l == Send(c) {
        OneMoreEvent(EventsOf(before, c), Offer(Run(before).sending.value.msg));
      } else if l == Receive(c) {
        OneMoreEvent(EventsOf(before, c), Take);
      }
    } else {
      NoEventsYet();
    }
  }

  /** EXACT QUEUE SEMANTICS. A client's channel is what a lone greedy 16-slot queue makes of the
      client's own receives and of the broadcasts made while it was registered, each offered once
      and in order. */
  lemma {:induction false} ClientIsLoneFifo(ls: seq<Label>, c: nat)
    requires Valid(ls)
    ensures var s := Run(ls);
            && Offers(EventsOf(ls, c)) + Pending(s, c) == CastsFor(ls, c)
            && (c in s.clients ==> s.clients[c].(open := true) == Fifo(EventsOf(ls, c)))
            && (c !in s.clients ==> EventsOf(ls, c) == [])
  {
    QueueIsLoneFifo(ls, c);
    OffersAreCasts(ls, c);
  }

  ghost predicate Subsequence(xs: seq<Bytes>, ys: seq<Bytes>) {
    if xs == [] then true
    else ys != [] && (Subsequence(xs, ys[..|ys| - 1])
                      || (xs[|xs| - 1] == ys[|ys| - 1] && Subsequence(xs[..|xs| - 1], ys[..|ys| - 1])))
  }

  lemma {:induction false} SubsequenceGrows(xs: seq<Bytes>, ys: seq<Bytes>, m: Bytes)
    requires Subsequence(xs, ys)
    ensures Subsequence(xs + [m], ys + [m]) && Subsequence(xs, ys + [m])
  {
    assert (xs + [m])[..|xs|] == xs && (ys + [m])[..|ys|] == ys;
  }

  /** EXACT ACCOUNTING. Every offer was received, is queued, or was dropped; what got through kept
      its order; no more than sixteen wait. */
  lemma {:induction false} FifoAccounts(es: seq<Event>)
    ensures var k := Fifo(es);
            && |k.received| + |k.queue| + k.dropped == |Offers(es)|
            && |k.queue| <= 16
            && Subsequence(k.received + k.queue, Offers(es))
  {
    if es != [] {
      var before := es[..|es| - 1];
      FifoAccounts(before);
      hide Subsequence;
      var k := Fifo(before);
      match es[|es| - 1]
      case Offer(m) =>
        SubsequenceGrows(k.received + k.queue, Offers(before), m);
        assert k.received + (k.queue + [m]) == k.received + k.queue + [m];
      case Take =>
        if k.queue != [] {
          assert k.received + [k.queue[0]] + k.queue[1..] == k.received + k.queue;
        }
    } else {
      assert Subsequence(NEW_CLIENT.received + NEW_CLIENT.queue, []);
    }
  }

  ghost predicate KeptUpAt(es: seq<Event>) {
    |Offers(es)| <= |Fifo(es).received| + 16
  }

  /** The client is never more than sixteen messages behind. */
  ghost predicate KeepsUp(es: seq<Event>) {
    forall i :: 0 <= i <= |es| ==> KeptUpAt(es[..i])
  }

  /** WHO LOSES MESSAGES: exactly the clients that at some moment fall more than sixteen messages behind.
      All others get everything, in order. */
  lemma {:induction false} DroppedIffBehind(es: seq<Event>)
    ensures Fifo(es).dropped == 0 <==> KeepsUp(es)
    ensures KeepsUp(es) ==> Fifo(es).received + Fifo(es).queue == Offers(es)
  {
    if es != [] {
      var n := |es| - 1;
      var before := es[..n];
      DroppedIffBehind(before);
      KeepsUpLast(es);
      LastEvent(es);
      FifoAccounts(before);
      if KeepsUp(before) {
        InOrder(Fifo(before), Offers(before), es[n]);
      }
      hide Fifo, Offers, KeepsUp, Subsequence;
    }
  }

  lemma Queued<T>(received: seq<T>, queue: seq<T>, m: T)
    ensures received + (queue + [m]) == received + queue + [m]
  {
  }

  lemma Moved<T>(received: seq<T>, queue: seq<T>)
    requires queue != []
    ensures received + [queue[0]] + queue[1..] == received + queue
  {
  }

  lemma InOrder(k: Client, offered: seq<Bytes>, e: Event)
    requires k.received + k.queue == offered
    ensures e.Offer? && |k.queue| < CLIENT_BUFFER ==>
              Offered(k, e.msg).received + Offered(k, e.msg).queue == offered + [e.msg]
    ensures e.Take? && k.queue != [] ==> Taken(k).received + Taken(k).queue == offered
  {
    if e.Offer? {
      Queued(k.received, k.queue, e.msg);
    } else if k.queue != [] {
      Moved(k.received, k.queue);
    }
  }

  lemma LastEvent(es: seq<Event>)
    requires es != []
    ensures var before, e := es[..|es| - 1], es[|es| - 1];
            var k := Fifo(before);
            && Fifo(es) == (if e.Offer? then Offered(k, e.msg) else if k.queue == [] then k else Taken(k))
            && Offers(es) == (if e.Offer? then Offers(before) + [e.msg] else Offers(before))
  {
  }

  lemma KeepsUpLast(es: seq<Event>)
    requires es != []
    ensures KeepsUp(es) <==> KeepsUp(es[..|es| - 1]) && KeptUpAt(es)
  {
    hide KeptUpAt;
    var n := |es| - 1;
    assert es[..|es|] == es;
    assert forall i :: 0 <= i <= n ==> es[..n][..i] == es[..i];
    if KeepsUp(es) {
      assert KeptUpAt(es[..|es|]);
      forall i | 0 <= i <= n ensures KeptUpAt(es[..n][..i]) {
        assert KeptUpAt(es[..i]);
      }
    } else if KeepsUp(es[..n]) && KeptUpAt(es) {
      forall i | 0 <= i <= |es| ensures KeptUpAt(es[..i]) {
        if i <= n { assert KeptUpAt(es[..n][..i]); }
      }
      assert false;
    }
  }

  /** The drop counter is the sum over the clients of what each one's lone queue would have dropped. */
  lemma {:induction false} DropsAreExact(ls: seq<Label>, c: nat)
    requires Valid(ls)
    ensures Run(ls).drops[c] == Fifo(EventsOf(ls, c)).dropped
  {
    ClientIsLoneFifo(ls, c);
    OrderlyAlways(ls);
  }

  // ----- One broadcast with nothing in between -----

  lemma {:induction false} SendAllServes(s: State, msg: Bytes, ids: seq<nat>)
    requires s.registered <= s.clients.Keys && s.sending.None?
    requires forall i :: 0 <= i < |ids| ==> ids[i] in s.registered
    requires forall i, j :: 0 <= i < j < |ids| ==> ids[i] != ids[j]
    ensures var t := SendAll(Step(s, Begin(msg)), ids);
            && t.clients.Keys == s.clients.Keys && t.registered == s.registered
            && t.sending == Casting(msg, s.registered - (set c | c in ids))
            && (forall c :: c in s.clients ==> t.clients[c] == if c in ids then Offered(s.clients[c], msg) else s.clients[c])
  {
    if ids != [] {
      hide Offered, CLIENT_BUFFER;
      var n := |ids| - 1;
      var before, c := ids[..n], ids[n];
      SendAllServes(s, msg, before);
      assert c !in before && c in s.registered - (set x | x in before);
      assert ids == before + [c];
      assert s.registered - (set x | x in ids) == s.registered - (set x | x in before) - {c};
      OneMoreSend(Step(s, Begin(msg)), ids);
    } else {
      assert s.registered - (set c | c in ids) == s.registered;
    }
  }

  /** A BROADCAST REACHES EVERYONE ONCE. Whatever order the clients are visited in, each registered
      client is offered the message once, nobody else is touched, and the lock is free again. */
  lemma {:induction false} BroadcastServesAll(s: State, msg: Bytes, ids: seq<nat>)
    requires Orderly(s) && s.sending.None?
    requires forall c :: c in ids <==> c in s.registered
    requires forall i, j :: 0 <= i < j < |ids| ==> ids[i] != ids[j]
    ensures var t := SendAll(Step(s, Begin(msg)), ids);
            && t.sending.None? && t.registered == s.registered && t.clients.Keys == s.clients.Keys
            && (forall c :: c in s.clients ==>
                  t.clients[c] == if c in s.registered then Offered(s.clients[c], msg) else s.clients[c])
  {
    forall i | 0 <= i < |ids| ensures ids[i] in s.registered { assert ids[i] in ids; }
    SendAllServes(s, msg, ids);
    assert s.registered - (set c | c in ids) == {};
  }
}
