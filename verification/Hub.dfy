/** The broadcast hub as an object. Each select, receive, subscription and cancellation is a method that does to the
    queues what the step of that name does to the live queues of the protocol (`HubProtocol.StepsActOnLiveQueues`). */
module Hub {
  import opened Common
  import P = HubProtocol

  class Channel<E> {
    var queue: seq<E>
    var closed: bool

    constructor ()
      ensures queue == [] && !closed
    {
      queue, closed := [], false;
    }
  }

  class Hub<E> {
    var subs: map<nat, Channel<E>>
    var next: nat

    ghost function Channels(): set<Channel<E>>
      reads this`subs
    {
      set id | id in subs :: subs[id]
    }

    ghost predicate Valid()
      reads this, Channels()
    {
      && (forall id | id in subs :: id < next && !subs[id].closed && |subs[id].queue| <= P.QUEUE_SIZE)
      && forall id, jd | id in subs && jd in subs && id != jd :: subs[id] != subs[jd]
    }

    ghost function Queues(): map<nat, seq<E>>
      reads this`subs, Channels()
    {
      map id | id in subs :: subs[id].queue
    }

    /** The queues are what they were if neither the hub nor a channel was written. */
    twostate lemma Untouched()
      requires unchanged(this) && forall id | id in subs :: unchanged(subs[id])
      ensures Queues() == old(Queues()) && (old(Valid()) ==> Valid())
    {
    }

    constructor ()
      ensures Valid() && subs == map[] && next == 0
    {
      subs, next := map[], 0;
    }

    method Subscribe() returns (id: nat, ch: Channel<E>)
      requires Valid()
      modifies this
      ensures Valid() && fresh(ch) && id == old(next) && next == id + 1
      ensures id !in old(subs) && subs == old(subs)[id := ch]
      ensures Queues() == old(Queues())[id := []]
    {
      id := next;
      next := next + 1;
      ch := new Channel<E>();
      subs := subs[id := ch];
    }

    /** The cancel function of a subscription; calling it again changes nothing. */
    method Cancel(id: nat)
      requires Valid()
      modifies this`subs, if id in subs then {subs[id]} else {}
      ensures Valid() && subs == old(subs) - {id}
      ensures id in old(subs) ==> old(subs[id]).closed && old(subs[id]).queue == old(subs[id].queue)
      ensures Queues() == old(Queues()) - {id}
    {
      if id in subs {
        var c := subs[id];
        subs := subs - {id};
        c.closed := true;
      }
    }

    /** A consumer takes the oldest entry of its channel. It needs no lock, so it may come between any two selects. */
    method Receive(id: nat) returns (ev: E)
      requires Valid() && id in subs && subs[id].queue != []
      modifies subs[id]
      ensures Valid() && ev == old(subs[id].queue)[0] && Queues() == P.TakeFrom(old(Queues()), id)
    {
      ev := subs[id].queue[0];
      subs[id].queue := subs[id].queue[1..];
    }

    /** The first select: sends if there is room. */
    method Offer(id: nat, ev: E) returns (sent: bool)
      requires Valid() && id in subs
      modifies subs[id]
      ensures Valid() && sent == (|old(subs[id].queue)| < P.QUEUE_SIZE)
      ensures Queues() == P.SendTo(old(Queues()), id, ev)
    {
      sent := |subs[id].queue| < P.QUEUE_SIZE;
      if sent {
        subs[id].queue := subs[id].queue + [ev];
      }
    }

    /** The second select: drops the oldest entry, if there still is one. */
    method DropOldest(id: nat)
      requires Valid() && id in subs
      modifies subs[id]
      ensures Valid() && Queues() == P.TakeFrom(old(Queues()), id)
    {
      if |subs[id].queue| > 0 {
        subs[id].queue := subs[id].queue[1..];
      }
    }

    /** The third select: sends if there is room, and evicts the subscriber if there is not. */
    method Retry(id: nat, ev: E)
      requires Valid() && id in subs
      modifies this`subs, subs[id]
      ensures Valid() && Queues() == P.RetryTo(old(Queues()), id, ev)
      ensures subs == if |old(subs[id].queue)| < P.QUEUE_SIZE then old(subs) else old(subs) - {id}
    {
      var ch := subs[id];
      if |ch.queue| < P.QUEUE_SIZE {
        ch.queue := ch.queue + [ev];
      } else {
        subs := subs - {id};
        ch.closed := true;
      }
    }

    /** The selects for one subscriber, with no consumer running in between. */
    method Serve(id: nat, ev: E)
      requires Valid() && id in subs
      modifies this`subs, subs[id]
      ensures Valid() && subs == old(subs)
      ensures Queues() == old(Queues())[id := LastN(old(Queues())[id] + [ev], P.QUEUE_SIZE)]
    {
      ghost var q := subs[id].queue;
      var sent := Offer(id, ev);
      if sent {
        return;
      }
      assert Queues()[id] == q;
      DropOldest(id);
      assert Queues()[id] == q[1..];
      Retry(id, ev);
      assert q[1..] + [ev] == LastN(q + [ev], P.QUEUE_SIZE);
    }

    /** One turn of the loop over the subscribers. */
    method ServeNext(id: nat, ev: E, ghost qs: map<nat, seq<E>>, ghost todo: set<nat>)
      requires Valid() && id in subs && id in todo && P.Midpoint(Queues(), qs, ev, P.Between(todo))
      modifies this`subs, subs[id]
      ensures Valid() && subs == old(subs) && P.Midpoint(Queues(), qs, ev, P.Between(todo - {id}))
    {
      P.MidServed(Queues(), qs, ev, todo, id);
      Serve(id, ev);
    }

    /** Offers the event to every subscriber. With no consumer running in between, nobody is evicted and every
        queue keeps its newest entries. */
    method Publish(ev: E)
      requires Valid()
      modifies this`subs, Channels()
      ensures Valid() && subs == old(subs) && Queues() == P.Published(old(Queues()), ev)
    {
      ghost var qs := Queues();
      var todo := subs.Keys;
      assert todo == qs.Keys;
      P.MidStart(qs, ev);
      while todo != {}
        invariant Valid() && subs == old(subs) && todo <= subs.Keys
        invariant P.Midpoint(Queues(), qs, ev, P.Between(todo))
        decreases |todo|
      {
        var id :| id in todo;
        ServeNext(id, ev, qs, todo);
        todo := todo - {id};
      }
      P.MidEnd(Queues(), qs, ev, P.Between({}));
    }
  }
}
