/** The hub as it is written: a set of channels under one lock, proved against the protocol. */
module HubCode {
  import opened Events
  import P = Hub

  /** A client's buffered channel; `id`, `received` and `dropped` are bookkeeping for the proof. */
  class Channel {
    ghost const id: nat
    var queue: seq<Bytes>
    var open: bool
    ghost var received: seq<Bytes>
    ghost var dropped: nat

    constructor (ghost id: nat)
      ensures this.id == id && View() == P.NEW_CLIENT
    {
      this.id := id;
      queue, open, received, dropped := [], true, [], 0;
    }

    ghost function View(): P.Client
      reads this
    {
      P.Client(queue, received, open, dropped)
    }

    /** A send that gives up when the buffer is full; sending on a closed channel would panic. */
    method TrySend(msg: Bytes) returns (sent: bool)
      requires open
      modifies this
      ensures View() == P.Offered(old(View()), msg)
      ensures sent <==> old(|queue|) < 16
    {
      if |queue| < P.CLIENT_BUFFER {
        queue := queue + [msg];
        sent := true;
      } else {
        dropped := dropped + 1;
        sent := false;
      }
    }

    /** What a waiting client gets: the oldest queued message, or none once the channel is closed and empty. */
    method Receive() returns (msg: Option<Bytes>)
      modifies this
      ensures old(queue) != [] ==> msg == Some(old(queue[0])) && View() == P.Taken(old(View()))
      ensures old(queue) == [] ==> msg.None? && View() == old(View())
    {
      if queue == [] {
        return None;
      }
      msg := Some(queue[0]);
      received := received + [queue[0]];
      queue := queue[1..];
    }
  }

  class HubObject {
    var clients: set<Channel>
    var dropped: nat

    /** Every channel ever handed out, by id, and the protocol's view of the lock and of the drops. */
    ghost var all: map<nat, Channel>
    ghost var sending: Option<P.Cast>
    ghost var drops: multiset<nat>

    ghost predicate Valid()
      reads this, clients, all.Values
    {
      && (forall ch :: ch in clients ==> ch.id in all && all[ch.id] == ch)
      && (forall i :: i in all ==> all[i].id == i)
      && (forall ch :: ch in clients ==> ch.open)
      && dropped == |drops|
    }

    ghost function View(): P.State
      reads this, all.Values
    {
      P.State(map i | i in all :: all[i].View(), (set i | i in all && all[i] in clients), sending, drops)
    }

    constructor ()
      ensures Valid() && View() == P.START
    {
      clients, dropped := {}, 0;
      all, sending, drops := map[], None, multiset{};
    }

    method Register(ghost id: nat) returns (ch: Channel)
      requires Valid() && sending.None? && id !in all
      modifies this
      ensures Valid() && fresh(ch) && ch.id == id && ch in clients && all == old(all)[id := ch]
      ensures View() == P.Step(old(View()), P.Register(id))
    {
      ghost var was := View();
      ch := new Channel(id);
      clients := clients + {ch};
      all := all[id := ch];
      assert forall i :: i in was.clients ==> all[i].View() == was.clients[i];
      SameState(View(), P.Step(was, P.Register(id)));
    }

    /** Safe to call twice: the second call finds nothing to do. */
    method Unregister(ch: Channel)
      requires Valid() && sending.None? && ch.id in all && all[ch.id] == ch
      modifies this, ch
      ensures Valid() && ch !in clients && all == old(all)
      ensures View() == P.Step(old(View()), P.Unregister(ch.id))
    {
      ghost var was := View();
      if ch !in clients {
        return;
      }
      clients := clients - {ch};
      ch.open := false;
      assert forall i :: i in was.clients && i != ch.id ==> all[i].View() == was.clients[i];
      hide P.Step;
      LeftState(was, ch.id, View());
    }

    /** The body of the broadcast loop: the `select` with a `default`. */
    method SendOne(ch: Channel, msg: Bytes)
      requires Valid() && ch in clients
      requires sending.Some? && sending.value.msg == msg && ch.id in sending.value.todo
      modifies this`dropped, this`sending, this`drops, ch
      ensures Valid() && P.Enabled(old(View()), P.Send(ch.id)) && View() == P.Step(old(View()), P.Send(ch.id))
      ensures ch.View() == P.Offered(old(ch.View()), msg)
      ensures sending == P.Casting(msg, old(sending.value.todo) - {ch.id})
    {
      ghost var was := View();
      var sent := ch.TrySend(msg);
      if !sent {
        dropped := dropped + 1;
        drops := drops + multiset{ch.id};
      }
      sending := P.Casting(msg, sending.value.todo - {ch.id});
      assert forall i :: i in was.clients && i != ch.id ==> all[i].View() == was.clients[i];
      hide P.Step, P.Offered, P.Casting;
      SentState(was, ch.id, View());
    }

    /** Serves every client once, in the order ranging over the set happens to visit them, and
        never blocks. */
    method Broadcast(msg: Bytes, order: seq<Channel>)
      requires Valid() && sending.None?
      requires forall ch :: ch in order <==> ch in clients
      requires forall i, j :: 0 <= i < j < |order| ==> order[i].id != order[j].id
      modifies this`dropped, this`sending, this`drops, clients
      ensures Valid() && sending.None? && clients == old(clients) && all == old(all)
      ensures View() == P.SendAll(P.Step(old(View()), P.Begin(msg)), Ids(order))
    {
      ghost var ids, todo := Ids(order), View().registered;
      RegisteredAre(order);
      TakeLock(msg);
      ghost var began := View();
      P.NoSends(began);
      assert todo - Served(ids, 0) == todo;
      hide View, P.Step, P.SendAll, P.Casting, Served;
      for i := 0 to |order|
        invariant Serving(began, msg, todo, ids, i)
      {
        ServeNext(order[i], msg, began, todo, ids, i);
      }
      assert ids[..|ids|] == ids;
      AllServed(msg, todo, ids);
    }

    /** The first `n` clients have been served. */
    ghost predicate Serving(began: P.State, msg: Bytes, todo: set<nat>, ids: seq<nat>, n: nat)
      requires n <= |ids|
      reads this, clients, all.Values
    {
      Valid() && sending == P.Casting(msg, todo - Served(ids, n)) && View() == P.SendAll(began, ids[..n])
    }

    method ServeNext(ch: Channel, msg: Bytes, ghost began: P.State, ghost todo: set<nat>, ghost ids: seq<nat>, ghost n: nat)
      requires n < |ids| && Serving(began, msg, todo, ids, n)
      requires ch in clients && ch.id == ids[n] && ids[n] in todo
      requires forall i, j :: 0 <= i < j < |ids| ==> ids[i] != ids[j]
      modifies this`dropped, this`sending, this`drops, ch
      ensures Serving(began, msg, todo, ids, n + 1)
    {
      hide View, P.Step, P.Enabled, P.SendAll, P.Casting, Served;
      OneMore(msg, todo, ids, n);
      SendOne(ch, msg);
      P.OneMoreSend(began, ids[..n + 1]);
    }

    lemma RegisteredAre(order: seq<Channel>)
      requires Valid() && forall ch :: ch in order <==> ch in clients
      ensures forall c :: c in View().registered <==> c in Ids(order)
    {
      forall c | c in View().registered ensures c in Ids(order) {
        var j :| 0 <= j < |order| && order[j] == all[c];
        assert Ids(order)[j] == c;
      }
      forall c | c in Ids(order) ensures c in View().registered {
        var j :| 0 <= j < |order| && Ids(order)[j] == c;
        assert order[j] in clients;
      }
    }

    /** What the lock excludes while a broadcast is under way. */
    ghost method TakeLock(msg: Bytes)
      requires Valid() && sending.None?
      modifies this`sending
      ensures Valid() && sending == P.Casting(msg, old(View()).registered)
      ensures View() == P.Step(old(View()), P.Begin(msg))
    {
      sending := P.Casting(msg, View().registered);
    }

    /** As many as the protocol has registered: no two channels share an id. */
    method ClientCount() returns (n: nat)
      requires Valid()
      ensures n == |View().registered|
    {
      CountByIds(clients, View().registered);
      n := |clients|;
    }

    method Dropped() returns (n: nat)
      requires Valid()
      ensures n == |View().drops|
    {
      n := dropped;
    }
  }

  lemma {:induction false} CountByIds(chs: set<Channel>, ids: set<nat>)
    requires forall i :: i in ids <==> exists ch :: ch in chs && ch.id == i
    requires forall a, b :: a in chs && b in chs && a.id == b.id ==> a == b
    ensures |chs| == |ids|
  {
    if ch :| ch in chs {
      assert ch.id in ids;
      CountByIds(chs - {ch}, ids - {ch.id});
    } else if i: nat :| i in ids {
      assert false;
    }
  }

  lemma SameState(a: P.State, b: P.State)
    requires forall i :: i in a.clients <==> i in b.clients
    requires forall i :: i in a.clients ==> a.clients[i] == b.clients[i]
    requires forall i :: i in a.registered <==> i in b.registered
    requires a.sending == b.sending && a.drops == b.drops
    ensures a == b
  {
    assert forall i :: i in a.clients <==> i in b.clients;
    assert a.clients == b.clients;
    assert a.registered == b.registered;
  }

  lemma LeftState(s: P.State, c: nat, t: P.State)
    requires c in s.registered && c in s.clients && (forall i :: i in t.clients <==> i in s.clients)
    requires forall i :: i in s.clients ==> t.clients[i] == if i == c then s.clients[c].(open := false) else s.clients[i]
    requires forall i :: i in t.registered <==> i in s.registered && i != c
    requires t.sending == s.sending && t.drops == s.drops && s.sending.None?
    ensures t == P.Step(s, P.Unregister(c))
  {
    SameState(t, P.Step(s, P.Unregister(c)));
  }

  lemma SentState(s: P.State, c: nat, t: P.State)
    requires P.Enabled(s, P.Send(c)) && (forall i :: i in t.clients <==> i in s.clients)
    requires forall i :: i in s.clients ==>
               t.clients[i] == if i == c then P.Offered(s.clients[c], s.sending.value.msg) else s.clients[i]
    requires forall i :: i in t.registered <==> i in s.registered
    requires t.sending == P.Casting(s.sending.value.msg, s.sending.value.todo - {c})
    requires t.drops == if |s.clients[c].queue| < P.CLIENT_BUFFER then s.drops else s.drops + multiset{c}
    ensures t == P.Step(s, P.Send(c))
  {
    hide P.Offered, P.Casting;
    SameState(t, P.Step(s, P.Send(c)));
  }

  ghost function Ids(order: seq<Channel>): seq<nat> {
    seq(|order|, i requires 0 <= i < |order| => order[i].id)
  }

  ghost function Served(ids: seq<nat>, n: nat): set<nat>
    requires n <= |ids|
  {
    set i | 0 <= i < n :: ids[i]
  }

  lemma OneMore(msg: Bytes, todo: set<nat>, ids: seq<nat>, i: nat)
    requires i < |ids| && (forall a, b :: 0 <= a < b < |ids| ==> ids[a] != ids[b]) && ids[i] in todo
    ensures P.Casting(msg, todo - Served(ids, i)) == Some(P.Cast(msg, todo - Served(ids, i)))
    ensures ids[i] in todo - Served(ids, i)
    ensures todo - Served(ids, i + 1) == todo - Served(ids, i) - {ids[i]}
    ensures ids[..i + 1][..i] == ids[..i]
  {
    assert ids[i] in todo - Served(ids, i);
  }

  lemma AllServed(msg: Bytes, todo: set<nat>, ids: seq<nat>)
    requires forall c :: c in todo ==> c in ids
    ensures P.Casting(msg, todo - Served(ids, |ids|)) == None
  {
    assert todo - Served(ids, |ids|) == {};
  }
}
