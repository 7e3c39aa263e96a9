/** The broadcast hub under every interleaving: the publisher's selects, the consumers' receives,
    subscriptions and cancellations are separate steps. */
module HubProtocol {
  import opened Common

  const QUEUE_SIZE: nat := 128

  /** What became of an event that has left a queue. */
  datatype Fate = Received | Dropped

  /** A channel and its books: where in the log it joined, what was sent to it, the fate of what left it,
      what its consumer got, and how often a send found it full. */
  datatype Channel<E> = Channel(
    queue: seq<E>, closed: bool, joined: nat, sent: seq<E>, fates: seq<Fate>, received: seq<E>, fulls: nat)

  /** Where the publisher stands. It holds the hub's lock except when idle. */
  datatype Publisher =
    | Idle
    | Between(todo: set<nat>)
    | SawFull(id: nat, todo: set<nat>)
    | Retrying(id: nat, todo: set<nat>)

  datatype State<E> = State(
    channels: map<nat, Channel<E>>, subs: set<nat>, next: nat, log: seq<E>, publisher: Publisher,
    evictions: nat, panicked: bool)

  datatype Step<E> =
    | Subscribe
    | Cancel(id: nat)
    | Begin(ev: E)
    | Offer(id: nat)
    | DropOldest
    | Retry
    | End
    | Receive(id: nat)

  function Initial<E>(): State<E> { State(map[], {}, 0, [], Idle, 0, false) }

  /** Locks keep subscriptions, cancellations and publications apart; receives need no lock. */
  ghost predicate Enabled<E>(s: State<E>, step: Step<E>) {
    match step
    case Subscribe => s.publisher.Idle?
    case Cancel(_) => s.publisher.Idle?
    case Begin(_) => s.publisher.Idle?
    case Offer(id) => s.publisher.Between? && id in s.publisher.todo && id in s.channels && s.log != []
    case DropOldest => s.publisher.SawFull? && s.publisher.id in s.channels
    case Retry => s.publisher.Retrying? && s.publisher.id in s.channels && s.log != []
    case End => s.publisher == Between({})
    case Receive(id) => id in s.channels && s.channels[id].queue != []
  }

  /** Sending on a closed channel panics. */
  function Send<E>(s: State<E>, id: nat, ev: E): State<E>
    requires id in s.channels
  {
    var c := s.channels[id];
    if c.closed then s.(panicked := true)
    else s.(channels := s.channels[id := c.(queue := c.queue + [ev], sent := c.sent + [ev])])
  }

  /** Closing a closed channel panics. */
  function Close<E>(s: State<E>, id: nat): State<E>
    requires id in s.channels
  {
    if s.channels[id].closed then s.(panicked := true)
    else s.(channels := s.channels[id := s.channels[id].(closed := true)], subs := s.subs - {id})
  }

  function Pop<E>(c: Channel<E>, fate: Fate): Channel<E>
    requires c.queue != []
  {
    c.(queue := c.queue[1..], fates := c.fates + [fate],
       received := if fate.Received? then c.received + [c.queue[0]] else c.received)
  }

  ghost function Next<E>(s: State<E>, step: Step<E>): State<E>
    requires Enabled(s, step)
  {
    match step
    case Subscribe =>
      s.(channels := s.channels[s.next := Channel([], false, |s.log|, [], [], [], 0)],
         subs := s.subs + {s.next}, next := s.next + 1)
    case Cancel(id) => if id in s.subs && id in s.channels then Close(s, id) else s
    case Begin(ev) => s.(log := s.log + [ev], publisher := Between(s.subs))
    case Offer(id) =>
      var todo := s.publisher.todo - {id};
      var c := s.channels[id];
      if |c.queue| < QUEUE_SIZE then Send(s, id, s.log[|s.log| - 1]).(publisher := Between(todo))
      else s.(channels := s.channels[id := c.(fulls := c.fulls + 1)], publisher := SawFull(id, todo))
    case DropOldest =>
      var id := s.publisher.id;
      var c := s.channels[id];
      s.(channels := if c.queue == [] then s.channels else s.channels[id := Pop(c, Dropped)],
         publisher := Retrying(id, s.publisher.todo))
    case Retry =>
      var id := s.publisher.id;
      var after := Between(s.publisher.todo);
      if |s.channels[id].queue| < QUEUE_SIZE then Send(s, id, s.log[|s.log| - 1]).(publisher := after)
      else Close(s, id).(publisher := after, evictions := s.evictions + 1)
    case End => s.(publisher := Idle)
    case Receive(id) => s.(channels := s.channels[id := Pop(s.channels[id], Received)])
  }

  /** The state a run of steps leads to, if every step was possible. */
  ghost function Run<E>(steps: seq<Step<E>>): Option<State<E>>
    decreases |steps|
  {
    if steps == [] then Some(Initial())
    else
      match Run(steps[..|steps| - 1])
      case None => None
      case Some(s) => if Enabled(s, steps[|steps| - 1]) then Some(Next(s, steps[|steps| - 1])) else None
  }

  /** What was published since a channel joined. */
  function Since<E>(log: seq<E>, joined: nat): seq<E> {
    if joined <= |log| then log[joined..] else []
  }

  // ---- the invariant ----

  /** The events whose fate was to be received. */
  function Picked<E>(events: seq<E>, fates: seq<Fate>): seq<E>
    requires |events| == |fates|
  {
    if events == [] then []
    else Picked(events[..|events| - 1], fates[..|fates| - 1])
         + (if fates[|fates| - 1].Received? then [events[|events| - 1]] else [])
  }

  function Drops(fates: seq<Fate>): nat {
    if fates == [] then 0 else Drops(fates[..|fates| - 1]) + (if fates[|fates| - 1].Dropped? then 1 else 0)
  }

  /** The books of a channel are in order: everything sent to it was published since it joined, left it in
      order for a consumer or was dropped after a full queue was seen, or is still queued. */
  ghost predicate InOrder<E>(c: Channel<E>, log: seq<E>) {
    && |c.queue| <= QUEUE_SIZE
    && c.joined + |c.sent| <= |log| && c.sent == log[c.joined..c.joined + |c.sent|]
    && |c.fates| + |c.queue| == |c.sent| && c.queue == c.sent[|c.fates|..]
    && c.received == Picked(c.sent[..|c.fates|], c.fates)
    && Drops(c.fates) <= c.fulls
  }

  /** The channels the publisher has yet to serve with the newest event. */
  function Pending(p: Publisher): set<nat> {
    match p
    case Idle => {}
    case Between(todo) => todo
    case SawFull(id, todo) => todo + {id}
    case Retrying(id, todo) => todo + {id}
  }

  /** A live channel has been sent all that was published since it joined, save the newest while pending. */
  ghost predicate UpToDate<E>(s: State<E>, id: nat)
    requires id in s.channels
  {
    var c := s.channels[id];
    c.joined + |c.sent| == if id in Pending(s.publisher) then |s.log| - 1 else |s.log|
  }

  ghost predicate Inv<E>(s: State<E>) {
    && !s.panicked && s.evictions == 0
    && (forall id | id in s.channels :: id < s.next && InOrder(s.channels[id], s.log))
    && (forall id | id in s.subs :: id in s.channels && !s.channels[id].closed && UpToDate(s, id))
    && Pending(s.publisher) <= s.subs
    && (!s.publisher.Idle? ==> s.log != [])
    && match s.publisher
       case SawFull(id, todo) => id !in todo && Drops(s.channels[id].fates) < s.channels[id].fulls
       case Retrying(id, todo) => id !in todo && |s.channels[id].queue| < QUEUE_SIZE
       case _ => true
  }

  lemma PickedSnoc<E>(events: seq<E>, fates: seq<Fate>, ev: E, fate: Fate)
    requires |events| == |fates|
    ensures Picked(events + [ev], fates + [fate]) == Picked(events, fates) + (if fate.Received? then [ev] else [])
    ensures Drops(fates + [fate]) == Drops(fates) + (if fate.Dropped? then 1 else 0)
  {
    assert (events + [ev])[..|events|] == events && (fates + [fate])[..|fates|] == fates;
  }

  lemma PopKeepsOrder<E>(c: Channel<E>, log: seq<E>, fate: Fate)
    requires InOrder(c, log) && c.queue != []
    requires fate.Dropped? ==> Drops(c.fates) < c.fulls
    ensures InOrder(Pop(c, fate), log)
  {
    var n := |c.fates|;
    assert c.sent[..n + 1] == c.sent[..n] + [c.queue[0]];
    PickedSnoc(c.sent[..n], c.fates, c.queue[0], fate);
  }

  lemma SendKeepsOrder<E>(c: Channel<E>, log: seq<E>, ev: E)
    requires InOrder(c, log) && |c.queue| < QUEUE_SIZE
    requires log != [] && ev == log[|log| - 1] && c.joined + |c.sent| == |log| - 1
    ensures InOrder(c.(queue := c.queue + [ev], sent := c.sent + [ev]), log)
  {
    var d := c.(queue := c.queue + [ev], sent := c.sent + [ev]);
    assert d.sent[..|d.fates|] == c.sent[..|c.fates|];
    assert d.sent[|d.fates|..] == c.sent[|c.fates|..] + [ev];
    assert log[c.joined..] == log[c.joined..c.joined + |c.sent|] + [ev];
  }

  lemma LongerLogKeepsOrder<E>(c: Channel<E>, log: seq<E>, ev: E)
    requires InOrder(c, log)
    ensures InOrder(c, log + [ev])
  {
    assert (log + [ev])[c.joined..c.joined + |c.sent|] == log[c.joined..c.joined + |c.sent|];
  }

  lemma SubscribeKeepsInv<E>(s: State<E>)
    requires Inv(s) && Enabled(s, Subscribe)
    ensures Inv(Next(s, Subscribe))
  {
    assert s.log[|s.log|..|s.log|] == [];
  }

  lemma BeginKeepsInv<E>(s: State<E>, ev: E)
    requires Inv(s) && Enabled(s, Begin(ev))
    ensures Inv(Next(s, Begin(ev)))
  {
    forall id | id in s.channels ensures InOrder(s.channels[id], s.log + [ev]) {
      LongerLogKeepsOrder(s.channels[id], s.log, ev);
    }
  }

  /** A send to a live channel with room goes through and brings it up to date. */
  lemma SendServes<E>(s: State<E>, id: nat, todo: set<nat>)
    requires Inv(s) && id in Pending(s.publisher) && todo == Pending(s.publisher) - {id} && s.log != []
    requires |s.channels[id].queue| < QUEUE_SIZE
    ensures Inv(Send(s, id, s.log[|s.log| - 1]).(publisher := Between(todo)))
  {
    var ev := s.log[|s.log| - 1];
    assert UpToDate(s, id);
    SendKeepsOrder(s.channels[id], s.log, ev);
    var t := Send(s, id, ev).(publisher := Between(todo));
    forall jd | jd in t.subs ensures UpToDate(t, jd) {
      assert UpToDate(s, jd);
    }
  }

  lemma OfferKeepsInv<E>(s: State<E>, id: nat)
    requires Inv(s) && Enabled(s, Offer(id))
    ensures Inv(Next(s, Offer(id)))
  {
    if |s.channels[id].queue| < QUEUE_SIZE {
      RoomOfferKeepsInv(s, id);
    } else {
      FullOfferKeepsInv(s, id);
    }
  }

  lemma RoomOfferKeepsInv<E>(s: State<E>, id: nat)
    requires Inv(s) && Enabled(s, Offer(id)) && |s.channels[id].queue| < QUEUE_SIZE
    ensures Inv(Next(s, Offer(id)))
  {
    var todo := s.publisher.todo - {id};
    SendServes(s, id, todo);
    assert Next(s, Offer(id)) == Send(s, id, s.log[|s.log| - 1]).(publisher := Between(todo));
  }

  lemma FullOfferKeepsInv<E>(s: State<E>, id: nat)
    requires Inv(s) && Enabled(s, Offer(id)) && |s.channels[id].queue| >= QUEUE_SIZE
    ensures Inv(Next(s, Offer(id)))
  {
    var t := Next(s, Offer(id));
    OfferToFull(s, id);
    assert Pending(t.publisher) == Pending(s.publisher);
    forall jd | jd in t.subs ensures UpToDate(t, jd) {
      assert UpToDate(s, jd);
    }
  }

  lemma DropKeepsInv<E>(s: State<E>)
    requires Inv(s) && Enabled(s, DropOldest)
    ensures Inv(Next(s, DropOldest))
  {
    var t := Next(s, DropOldest);
    if s.channels[s.publisher.id].queue != [] {
      PopKeepsOrder(s.channels[s.publisher.id], s.log, Dropped);
    }
    assert Pending(t.publisher) == Pending(s.publisher);
    forall jd | jd in t.subs ensures UpToDate(t, jd) {
      assert UpToDate(s, jd);
    }
  }

  lemma RetryKeepsInv<E>(s: State<E>)
    requires Inv(s) && Enabled(s, Retry)
    ensures Inv(Next(s, Retry))
  {
    SendServes(s, s.publisher.id, s.publisher.todo);
  }

  lemma ReceiveKeepsInv<E>(s: State<E>, id: nat)
    requires Inv(s) && Enabled(s, Receive(id))
    ensures Inv(Next(s, Receive(id)))
  {
    var t := Next(s, Receive(id));
    var c := s.channels[id];
    PopKeepsOrder(c, s.log, Received);
    PickedSnoc(c.sent[..|c.fates|], c.fates, c.queue[0], Received);
    forall jd | jd in t.subs ensures UpToDate(t, jd) {
      assert UpToDate(s, jd);
    }
  }

  lemma CancelKeepsInv<E>(s: State<E>, id: nat)
    requires Inv(s) && Enabled(s, Cancel(id))
    ensures Inv(Next(s, Cancel(id)))
  {
  }

  lemma EndKeepsInv<E>(s: State<E>)
    requires Inv(s) && Enabled(s, End)
    ensures Inv(Next(s, End))
  {
  }

  lemma StepKeepsInv<E>(s: State<E>, step: Step<E>)
    requires Inv(s) && Enabled(s, step)
    ensures Inv(Next(s, step))
  {
    match step
    case Subscribe => SubscribeKeepsInv(s);
    case Cancel(id) => CancelKeepsInv(s, id);
    case Begin(ev) => BeginKeepsInv(s, ev);
    case Offer(id) => OfferKeepsInv(s, id);
    case DropOldest => DropKeepsInv(s);
    case Retry => RetryKeepsInv(s);
    case End => EndKeepsInv(s);
    case Receive(id) => ReceiveKeepsInv(s, id);
  }

  /** Whatever the interleaving: no send on a closed channel, no second close, no eviction, and every
      channel's books are in order. */
  lemma {:induction false} EveryRunIsSafe<E>(steps: seq<Step<E>>)
    requires Run(steps).Some?
    ensures Inv(Run(steps).value)
    decreases |steps|
  {
    if steps != [] {
      var front := steps[..|steps| - 1];
      EveryRunIsSafe(front);
      StepKeepsInv(Run(front).value, steps[|steps| - 1]);
    }
  }

  /** The branch that would evict a slow consumer can never be taken: when the publisher retries, the
      queue has room, whatever its consumer did in between. */
  lemma EvictionIsUnreachable<E>(steps: seq<Step<E>>, s: State<E>)
    requires Run(steps) == Some(s) && Enabled(s, Retry)
    ensures s.publisher.id in s.subs && |s.channels[s.publisher.id].queue| < QUEUE_SIZE
    ensures !Next(s, Retry).panicked && Next(s, Retry).evictions == 0 && Next(s, Retry).subs == s.subs
  {
    EveryRunIsSafe(steps);
    StepKeepsInv(s, Retry);
  }

  /** A publication never waits for a consumer: some publisher step is always possible until it ends. */
  lemma PublisherNeverBlocks<E>(steps: seq<Step<E>>, s: State<E>)
    requires Run(steps) == Some(s) && !s.publisher.Idle?
    ensures match s.publisher
            case Between(todo) => if todo == {} then Enabled(s, End) else forall id | id in todo :: Enabled(s, Offer(id))
            case SawFull(_, _) => Enabled(s, DropOldest)
            case _ => Enabled(s, Retry)
  {
    EveryRunIsSafe(steps);
  }

  /** Between publications, a live subscriber's queue is a suffix of everything published since it
      subscribed, and what left the queue was either received, in order, or dropped. */
  lemma LiveQueueIsSuffix<E>(steps: seq<Step<E>>, s: State<E>, id: nat)
    requires Run(steps) == Some(s) && s.publisher.Idle? && id in s.subs
    ensures id in s.channels
    ensures var c := s.channels[id];
            var published := Since(s.log, c.joined);
            && c.sent == published && |c.fates| <= |published|
            && c.queue == published[|c.fates|..]
            && c.received == Picked(published[..|c.fates|], c.fates)
            && Drops(c.fates) <= c.fulls
  {
    EveryRunIsSafe(steps);
    var c := s.channels[id];
    assert UpToDate(s, id) && InOrder(c, s.log);
    assert s.log[c.joined..|s.log|] == s.log[c.joined..];
  }

  /** A subscriber whose queue was never found full loses nothing. */
  lemma NothingIsLostUnlessFull<E>(steps: seq<Step<E>>, s: State<E>, id: nat)
    requires Run(steps) == Some(s) && s.publisher.Idle? && id in s.subs && id in s.channels
    requires s.channels[id].fulls == 0
    ensures s.channels[id].received + s.channels[id].queue == Since(s.log, s.channels[id].joined)
  {
    LiveQueueIsSuffix(steps, s, id);
    var c := s.channels[id];
    var published := Since(s.log, c.joined);
    NoDropsPicksAll(published[..|c.fates|], c.fates);
    assert published[..|c.fates|] + published[|c.fates|..] == published;
  }

  lemma {:induction false} NoDropsPicksAll<E>(events: seq<E>, fates: seq<Fate>)
    requires |events| == |fates| && Drops(fates) == 0
    ensures Picked(events, fates) == events
  {
    if events != [] {
      NoDropsPicksAll(events[..|events| - 1], fates[..|fates| - 1]);
      assert events == events[..|events| - 1] + [events[|events| - 1]];
    }
  }

  /** The positions whose fate was to be received. */
  function ReceivedAt(fates: seq<Fate>): seq<nat> {
    if fates == [] then []
    else ReceivedAt(fates[..|fates| - 1]) + (if fates[|fates| - 1].Received? then [|fates| - 1] else [])
  }

  lemma {:induction false} ReceivedAtIncreases(fates: seq<Fate>)
    ensures forall i | 0 <= i < |ReceivedAt(fates)| :: ReceivedAt(fates)[i] < |fates|
    ensures forall i, j | 0 <= i < j < |ReceivedAt(fates)| :: ReceivedAt(fates)[i] < ReceivedAt(fates)[j]
  {
    if fates != [] {
      ReceivedAtIncreases(fates[..|fates| - 1]);
    }
  }

  /** What a consumer gets is a subsequence of what it was sent: positions strictly increase, so nothing
      comes twice or out of order. */
  lemma {:induction false} PickedIsSubsequence<E>(events: seq<E>, fates: seq<Fate>)
    requires |events| == |fates|
    ensures |ReceivedAt(fates)| == |Picked(events, fates)|
    ensures forall i | 0 <= i < |ReceivedAt(fates)| ::
              ReceivedAt(fates)[i] < |events| && Picked(events, fates)[i] == events[ReceivedAt(fates)[i]]
    ensures forall i, j | 0 <= i < j < |ReceivedAt(fates)| :: ReceivedAt(fates)[i] < ReceivedAt(fates)[j]
  {
    ReceivedAtIncreases(fates);
    if events != [] {
      var n := |events| - 1;
      PickedIsSubsequence(events[..n], fates[..n]);
      var front := ReceivedAt(fates[..n]);
      forall i | 0 <= i < |front| ensures events[..n][front[i]] == events[front[i]] { }
    }
  }

  /** A channel is closed exactly when it is no longer subscribed, and a closed one is never sent anything more. */
  ghost predicate ClosedWithSubscription<E>(s: State<E>) {
    forall id | id in s.channels :: s.channels[id].closed <==> id !in s.subs
  }

  /** What is closed stays closed and is sent nothing. */
  ghost predicate ClosedStay<E>(s: State<E>, t: State<E>) {
    forall id | id in s.channels && s.channels[id].closed ::
      id in t.channels && t.channels[id].closed && t.channels[id].sent == s.channels[id].sent
  }

  lemma SendCloses<E>(s: State<E>, id: nat, ev: E)
    requires ClosedWithSubscription(s) && Servable(s, id)
    ensures ClosedWithSubscription(Send(s, id, ev)) && ClosedStay(s, Send(s, id, ev))
  {
  }

  lemma OfferCloses<E>(s: State<E>, id: nat)
    requires ClosedWithSubscription(s) && Servable(s, id) && Enabled(s, Offer(id))
    ensures ClosedWithSubscription(Next(s, Offer(id))) && ClosedStay(s, Next(s, Offer(id)))
  {
    if |s.channels[id].queue| < QUEUE_SIZE {
      SendCloses(s, id, s.log[|s.log| - 1]);
    }
  }

  lemma RetryCloses<E>(s: State<E>)
    requires ClosedWithSubscription(s) && Enabled(s, Retry) && Servable(s, s.publisher.id)
    ensures ClosedWithSubscription(Next(s, Retry)) && ClosedStay(s, Next(s, Retry))
  {
    if |s.channels[s.publisher.id].queue| < QUEUE_SIZE {
      SendCloses(s, s.publisher.id, s.log[|s.log| - 1]);
    }
  }

  lemma TakingCloses<E>(s: State<E>, step: Step<E>)
    requires ClosedWithSubscription(s) && Enabled(s, step) && (step.DropOldest? || step.Receive?)
    ensures ClosedWithSubscription(Next(s, step)) && ClosedStay(s, Next(s, step))
  {
  }

  lemma JoiningCloses<E>(s: State<E>, step: Step<E>)
    requires ClosedWithSubscription(s) && Enabled(s, step) && (step.Subscribe? || step.Cancel?)
    requires s.next !in s.channels
    ensures ClosedWithSubscription(Next(s, step)) && ClosedStay(s, Next(s, step))
  {
  }

  lemma StepClosesOnce<E>(s: State<E>, step: Step<E>)
    requires Inv(s) && ClosedWithSubscription(s) && Enabled(s, step)
    ensures ClosedWithSubscription(Next(s, step)) && ClosedStay(s, Next(s, step))
  {
    match step
    case Subscribe => JoiningCloses(s, step);
    case Cancel(_) => JoiningCloses(s, step);
    case Begin(_) =>
    case Offer(id) => PendingIsServable(s, id); OfferCloses(s, id);
    case DropOldest => TakingCloses(s, step);
    case Retry => PendingIsServable(s, s.publisher.id); RetryCloses(s);
    case End =>
    case Receive(_) => TakingCloses(s, step);
  }

  lemma {:induction false} ChannelsCloseWithSubscriptions<E>(steps: seq<Step<E>>)
    requires Run(steps).Some?
    ensures ClosedWithSubscription(Run(steps).value)
    decreases |steps|
  {
    if steps != [] {
      var front := steps[..|steps| - 1];
      ChannelsCloseWithSubscriptions(front);
      EveryRunIsSafe(front);
      StepClosesOnce(Run(front).value, steps[|steps| - 1]);
    }
  }

  /** After a cancellation the channel is closed, and nothing that happens later sends it anything. */
  lemma {:induction false} CancelledStaysSilent<E>(before: seq<Step<E>>, id: nat, after: seq<Step<E>>, s: State<E>, t: State<E>)
    requires Run(before + [Cancel(id)]) == Some(s) && id in s.channels
    requires Run(before + [Cancel(id)] + after) == Some(t)
    ensures id in t.channels && t.channels[id].closed && t.channels[id].sent == s.channels[id].sent && id !in t.subs
    decreases |after|
  {
    var start := before + [Cancel(id)];
    if after == [] {
      assert start + after == start;
      ChannelsCloseWithSubscriptions(start);
      RunLast(before, Cancel(id), s);
      EveryRunIsSafe(before);
    } else {
      var front, last := after[..|after| - 1], after[|after| - 1];
      assert start + after == (start + front) + [last];
      RunLast(start + front, last, t);
      var r := Run(start + front).value;
      CancelledStaysSilent(before, id, front, s, r);
      EveryRunIsSafe(start + front);
      ChannelsCloseWithSubscriptions(start + front);
      StepClosesOnce(r, last);
    }
  }

  // ---- when a drop hits a queue with room ----

  lemma RunSnoc<E>(steps: seq<Step<E>>, step: Step<E>, s: State<E>)
    requires Run(steps) == Some(s) && Enabled(s, step)
    ensures Run(steps + [step]) == Some(Next(s, step))
  {
    assert (steps + [step])[..|steps|] == steps;
  }

  lemma RunLast<E>(front: seq<Step<E>>, last: Step<E>, s: State<E>)
    requires Run(front + [last]) == Some(s)
    ensures Run(front).Some? && Enabled(Run(front).value, last) && s == Next(Run(front).value, last)
  {
    assert (front + [last])[..|front|] == front;
  }

  /** How often a consumer received from one channel. */
  function Receipts<E>(steps: seq<Step<E>>, id: nat): nat {
    if steps == [] then 0
    else Receipts(steps[..|steps| - 1], id) + (if steps[|steps| - 1].Receive? && steps[|steps| - 1].id == id then 1 else 0)
  }

  predicate AllReceive<E>(steps: seq<Step<E>>) { forall i | 0 <= i < |steps| :: steps[i].Receive? }

  /** The publisher has seen the queue full, and `gone` entries have been received since. */
  predicate Draining<E>(s: State<E>, id: nat, gone: nat) {
    s.publisher.SawFull? && s.publisher.id == id && id in s.channels && |s.channels[id].queue| + gone == QUEUE_SIZE
  }

  lemma FullWhenSeen<E>(before: seq<Step<E>>, id: nat, s: State<E>)
    requires Run(before + [Offer(id)]) == Some(s) && s.publisher.SawFull?
    ensures Draining(s, id, 0)
  {
    RunLast(before, Offer(id), s);
    EveryRunIsSafe(before + [Offer(id)]);
    assert InOrder(s.channels[id], s.log);
  }

  lemma ReceiptDrains<E>(s: State<E>, id: nat, gone: nat, jd: nat)
    requires Draining(s, id, gone) && Enabled(s, Receive(jd))
    ensures Draining(Next(s, Receive(jd)), id, if jd == id then gone + 1 else gone)
  {
  }

  lemma {:induction false} ReceiptsDrain<E>(seen: seq<Step<E>>, id: nat, mids: seq<Step<E>>, s: State<E>)
    requires Run(seen).Some? && Draining(Run(seen).value, id, 0)
    requires AllReceive(mids) && Run(seen + mids) == Some(s)
    ensures Draining(s, id, Receipts(mids, id))
    decreases |mids|
  {
    if mids == [] {
      assert seen + mids == seen;
    } else {
      var front, last := mids[..|mids| - 1], mids[|mids| - 1];
      assert seen + mids == (seen + front) + [last];
      RunLast(seen + front, last, s);
      var r := Run(seen + front).value;
      ReceiptsDrain(seen, id, front, r);
      ReceiptDrains(r, id, Receipts(front, id), last.id);
    }
  }

  lemma {:induction false} NoReceipts<E>(steps: seq<Step<E>>, id: nat)
    ensures Receipts(steps, id) == 0 <==> Receive(id) !in steps
  {
    if steps != [] {
      var front, last := steps[..|steps| - 1], steps[|steps| - 1];
      NoReceipts(front, id);
      assert steps == front + [last];
    }
  }

  /** The publisher decides to drop when it sees a queue full, and drops in a later step. By then the queue has
      room exactly when its consumer received in between, and the drop loses an event all the same unless the
      consumer has emptied the queue. */
  lemma DropHitsRoomExactlyWhen<E>(before: seq<Step<E>>, id: nat, mids: seq<Step<E>>, s: State<E>)
    requires Run(before + [Offer(id)]).Some? && Run(before + [Offer(id)]).value.publisher.SawFull?
    requires AllReceive(mids) && Run(before + [Offer(id)] + mids) == Some(s)
    ensures Enabled(s, DropOldest) && s.publisher.id == id
    ensures |s.channels[id].queue| == QUEUE_SIZE - Receipts(mids, id)
    ensures |s.channels[id].queue| < QUEUE_SIZE <==> Receive(id) in mids
    ensures Drops(Next(s, DropOldest).channels[id].fates)
            == Drops(s.channels[id].fates) + (if Receipts(mids, id) == QUEUE_SIZE then 0 else 1)
  {
    FullWhenSeen(before, id, Run(before + [Offer(id)]).value);
    ReceiptsDrain(before + [Offer(id)], id, mids, s);
    NoReceipts(mids, id);
    var c := s.channels[id];
    if c.queue != [] {
      assert (c.fates + [Dropped])[..|c.fates|] == c.fates;
    }
  }

  /** A subscription and `n` publications that nobody receives. */
  function Filling<E>(ev: E, n: nat): seq<Step<E>> {
    if n == 0 then [Subscribe] else Filling(ev, n - 1) + [Begin(ev), Offer(0), End]
  }

  ghost predicate Filled<E>(s: State<E>, n: nat) {
    && s.publisher.Idle? && s.subs == {0} && 0 in s.channels
    && |s.channels[0].queue| == n && !s.channels[0].closed
  }

  lemma OnePublication<E>(steps: seq<Step<E>>, s: State<E>, ev: E, n: nat)
    requires Run(steps) == Some(s) && Filled(s, n) && n < QUEUE_SIZE
    ensures Run(steps + [Begin(ev), Offer(0), End]).Some?
    ensures Filled(Run(steps + [Begin(ev), Offer(0), End]).value, n + 1)
  {
    var t := Next(s, Begin(ev));
    var u := Next(t, Offer(0));
    RunSnoc(steps, Begin(ev), s);
    RunSnoc(steps + [Begin(ev)], Offer(0), t);
    assert u.publisher == Between({});
    RunSnoc(steps + [Begin(ev)] + [Offer(0)], End, u);
    assert steps + [Begin(ev)] + [Offer(0)] + [End] == steps + [Begin(ev), Offer(0), End];
  }

  lemma {:induction false} FillingFills<E>(ev: E, n: nat)
    requires n <= QUEUE_SIZE
    ensures Run(Filling(ev, n)).Some? && Filled(Run(Filling(ev, n)).value, n)
  {
    if n == 0 {
      var none: seq<Step<E>> := [];
      RunSnoc(none, Subscribe, Initial<E>());
      assert none + [Subscribe] == Filling(ev, 0);
    } else {
      FillingFills(ev, n - 1);
      OnePublication(Filling(ev, n - 1), Run(Filling(ev, n - 1)).value, ev, n - 1);
    }
  }

  /** Such a run exists: a queue is filled, the next publication sees it full, and its consumer receives before
      the drop, which then loses an event although there was room. */
  lemma DropMayHitAQueueWithRoom<E>(ev: E, n: nat)
    requires n == QUEUE_SIZE
    ensures var before := Filling(ev, n) + [Begin(ev)];
            && Run(before + [Offer(0)]).Some? && Run(before + [Offer(0)]).value.publisher.SawFull?
            && Run(before + [Offer(0)] + [Receive(0)]).Some?
            && var s := Run(before + [Offer(0)] + [Receive(0)]).value;
            && Enabled(s, DropOldest) && 0 in s.channels && |s.channels[0].queue| < QUEUE_SIZE
            && Drops(Next(s, DropOldest).channels[0].fates) == Drops(s.channels[0].fates) + 1
  {
    FillingFills(ev, n);
    var steps := Filling(ev, n);
    var s := Run(steps).value;
    var before := steps + [Begin(ev)];
    RunSnoc(steps, Begin(ev), s);
    var t := Next(s, Begin(ev));
    RunSnoc(before, Offer(0), t);
    var u := Next(t, Offer(0));
    FullWhenSeen(before, 0, u);
    RunSnoc(before + [Offer(0)], Receive(0), u);
    var mids := [Receive(0)];
    assert mids[..0] == [];
    DropHitsRoomExactlyWhen(before, 0, mids, Next(u, Receive(0)));
  }

  lemma OfferToFull<E>(s: State<E>, id: nat)
    requires Enabled(s, Offer(id)) && |s.channels[id].queue| >= QUEUE_SIZE
    ensures var t := Next(s, Offer(id));
            && t.publisher == SawFull(id, s.publisher.todo - {id}) && t.log == s.log
            && id in t.channels && t.channels[id] == s.channels[id].(fulls := s.channels[id].fulls + 1)
  {
  }

  // ---- the subscribed queues ----

  /** The queues of the subscribed channels: what the hub holds. */
  function Live<E>(s: State<E>): map<nat, seq<E>> {
    map id | id in s.subs && id in s.channels :: s.channels[id].queue
  }

  function SendTo<E>(qs: map<nat, seq<E>>, id: nat, ev: E): map<nat, seq<E>> {
    if id in qs && |qs[id]| < QUEUE_SIZE then qs[id := qs[id] + [ev]] else qs
  }

  function TakeFrom<E>(qs: map<nat, seq<E>>, id: nat): map<nat, seq<E>> {
    if id in qs && qs[id] != [] then qs[id := qs[id][1..]] else qs
  }

  function RetryTo<E>(qs: map<nat, seq<E>>, id: nat, ev: E): map<nat, seq<E>> {
    if id in qs && |qs[id]| < QUEUE_SIZE then qs[id := qs[id] + [ev]] else qs - {id}
  }

  /** What a step does to the subscribed queues, as the methods of the hub do it. */
  ghost function Effect<E>(s: State<E>, step: Step<E>): map<nat, seq<E>>
    requires Enabled(s, step)
  {
    match step
    case Subscribe => Live(s)[s.next := []]
    case Cancel(id) => Live(s) - {id}
    case Offer(id) => SendTo(Live(s), id, s.log[|s.log| - 1])
    case DropOldest => TakeFrom(Live(s), s.publisher.id)
    case Retry => RetryTo(Live(s), s.publisher.id, s.log[|s.log| - 1])
    case Receive(id) => TakeFrom(Live(s), id)
    case Begin(_) => Live(s)
    case End => Live(s)
  }

  /** In every reachable state, each step of the protocol does to the subscribed queues what the method of
      that name does to the queues of the hub. */
  lemma StepsActOnLiveQueues<E>(steps: seq<Step<E>>, s: State<E>, step: Step<E>)
    requires Run(steps) == Some(s) && Enabled(s, step)
    ensures Live(Next(s, step)) == Effect(s, step)
  {
    EveryRunIsSafe(steps);
    match step
    case Subscribe => SubscribeActs(s);
    case Cancel(id) => CancelActs(s, id);
    case Offer(id) => PendingIsServable(s, id); OfferActs(s, id);
    case Retry => PendingIsServable(s, s.publisher.id); RetryActs(s);
    case DropOldest => DropActs(s);
    case Receive(id) => ReceiveActs(s, id);
    case Begin(ev) => BeginActs(s, ev);
    case End => EndActs(s);
  }

  lemma SubscribeActs<E>(s: State<E>)
    requires Inv(s) && Enabled(s, Subscribe)
    ensures Live(Next(s, Subscribe)) == Live(s)[s.next := []]
  {
  }

  lemma DropActs<E>(s: State<E>)
    requires Enabled(s, DropOldest)
    ensures Live(Next(s, DropOldest)) == TakeFrom(Live(s), s.publisher.id)
    ensures Next(s, DropOldest).publisher == Retrying(s.publisher.id, s.publisher.todo)
  {
  }

  lemma ReceiveActs<E>(s: State<E>, id: nat)
    requires Enabled(s, Receive(id))
    ensures Live(Next(s, Receive(id))) == TakeFrom(Live(s), id)
  {
  }

  lemma BeginActs<E>(s: State<E>, ev: E)
    requires Enabled(s, Begin(ev))
    ensures Live(Next(s, Begin(ev))) == Live(s)
  {
  }

  lemma EndActs<E>(s: State<E>)
    requires Enabled(s, End)
    ensures Live(Next(s, End)) == Live(s)
  {
  }

  /** Where the publisher goes from the first select: on, or to the second. */
  function AfterOffer<E>(q: seq<E>, id: nat, todo: set<nat>): Publisher {
    if |q| < QUEUE_SIZE then Between(todo - {id}) else SawFull(id, todo - {id})
  }

  lemma CancelActs<E>(s: State<E>, id: nat)
    requires Inv(s) && Enabled(s, Cancel(id))
    ensures Live(Next(s, Cancel(id))) == Live(s) - {id}
  {
  }

  /** A channel that is subscribed and open. */
  predicate Servable<E>(s: State<E>, id: nat) {
    id in s.subs && id in s.channels && !s.channels[id].closed
  }

  lemma PendingIsServable<E>(s: State<E>, id: nat)
    requires Inv(s) && id in Pending(s.publisher)
    ensures Servable(s, id)
  {
  }

  lemma OfferActs<E>(s: State<E>, id: nat)
    requires Servable(s, id) && Enabled(s, Offer(id))
    ensures Live(Next(s, Offer(id))) == SendTo(Live(s), id, s.log[|s.log| - 1])
    ensures id in Live(s) && Next(s, Offer(id)).publisher == AfterOffer(Live(s)[id], id, s.publisher.todo)
  {
    if |s.channels[id].queue| < QUEUE_SIZE {
      SendActs(s, id, s.log[|s.log| - 1]);
    }
  }

  lemma SendActs<E>(s: State<E>, id: nat, ev: E)
    requires Servable(s, id)
    ensures Live(Send(s, id, ev)) == Live(s)[id := s.channels[id].queue + [ev]]
  {
  }

  lemma RetryActs<E>(s: State<E>)
    requires Enabled(s, Retry) && Servable(s, s.publisher.id)
    ensures Live(Next(s, Retry)) == RetryTo(Live(s), s.publisher.id, s.log[|s.log| - 1])
    ensures Next(s, Retry).publisher == Between(s.publisher.todo)
  {
    if |s.channels[s.publisher.id].queue| < QUEUE_SIZE {
      SendActs(s, s.publisher.id, s.log[|s.log| - 1]);
    }
  }

  // ---- a publication with consumers at rest ----

  /** Every queue with the event appended and cut to its newest entries. */
  function Published<E>(qs: map<nat, seq<E>>, ev: E): map<nat, seq<E>> {
    map id | id in qs :: LastN(qs[id] + [ev], QUEUE_SIZE)
  }

  /** A queue part way through a publication, told by where the publisher stands. */
  function Midway<E>(q: seq<E>, ev: E, id: nat, p: Publisher): seq<E> {
    match p
    case Idle => LastN(q + [ev], QUEUE_SIZE)
    case Between(todo) => if id in todo then q else LastN(q + [ev], QUEUE_SIZE)
    case SawFull(at, todo) => if id == at || id in todo then q else LastN(q + [ev], QUEUE_SIZE)
    case Retrying(at, todo) =>
      if id in todo then q else if id == at then LastN(q, QUEUE_SIZE - 1) else LastN(q + [ev], QUEUE_SIZE)
  }

  /** The queues now, when they were `qs` as the publication of `ev` began and no consumer has moved since. */
  ghost predicate Midpoint<E>(now: map<nat, seq<E>>, qs: map<nat, seq<E>>, ev: E, p: Publisher) {
    && now.Keys == qs.Keys && Pending(p) <= qs.Keys
    && (forall id | id in qs :: |qs[id]| <= QUEUE_SIZE && now[id] == Midway(qs[id], ev, id, p))
    && (p.SawFull? || p.Retrying? ==> p.id !in p.todo && |qs[p.id]| == QUEUE_SIZE)
  }

  lemma OfferMid<E>(now: map<nat, seq<E>>, qs: map<nat, seq<E>>, ev: E, todo: set<nat>, id: nat)
    requires Midpoint(now, qs, ev, Between(todo)) && id in todo
    ensures Midpoint(SendTo(now, id, ev), qs, ev, AfterOffer(now[id], id, todo))
  {
  }

  lemma DropMid<E>(now: map<nat, seq<E>>, qs: map<nat, seq<E>>, ev: E, todo: set<nat>, id: nat)
    requires Midpoint(now, qs, ev, SawFull(id, todo))
    ensures Midpoint(TakeFrom(now, id), qs, ev, Retrying(id, todo))
  {
  }

  lemma RetryMid<E>(now: map<nat, seq<E>>, qs: map<nat, seq<E>>, ev: E, todo: set<nat>, id: nat)
    requires Midpoint(now, qs, ev, Retrying(id, todo))
    ensures Midpoint(RetryTo(now, id, ev), qs, ev, Between(todo))
  {
    assert now[id] + [ev] == LastN(qs[id] + [ev], QUEUE_SIZE);
  }

  lemma MidStart<E>(qs: map<nat, seq<E>>, ev: E)
    requires forall id | id in qs :: |qs[id]| <= QUEUE_SIZE
    ensures Midpoint(qs, qs, ev, Between(qs.Keys))
  {
  }

  lemma MidServed<E>(now: map<nat, seq<E>>, qs: map<nat, seq<E>>, ev: E, todo: set<nat>, id: nat)
    requires Midpoint(now, qs, ev, Between(todo)) && id in todo
    ensures Midpoint(now[id := LastN(now[id] + [ev], QUEUE_SIZE)], qs, ev, Between(todo - {id}))
  {
  }

  lemma MidEnd<E>(now: map<nat, seq<E>>, qs: map<nat, seq<E>>, ev: E, p: Publisher)
    requires Midpoint(now, qs, ev, p) && (p.Idle? || p == Between({}))
    ensures now == Published(qs, ev)
  {
  }

  /** The steps of a publication once it has begun. */
  predicate Publishes<E>(step: Step<E>) { step.Offer? || step.DropOldest? || step.Retry? || step.End? }

  /** A publication of `ev` that found the queues as `qs` is under way, or has just ended. */
  ghost predicate Publishing<E>(s: State<E>, qs: map<nat, seq<E>>, ev: E) {
    s.log != [] && s.log[|s.log| - 1] == ev && Midpoint(Live(s), qs, ev, s.publisher)
  }

  lemma StepKeepsLog<E>(s: State<E>, step: Step<E>)
    requires Enabled(s, step) && Publishes(step)
    ensures Next(s, step).log == s.log
  {
  }

  lemma OfferGoesOn<E>(s: State<E>, qs: map<nat, seq<E>>, ev: E, id: nat)
    requires Publishing(s, qs, ev) && Enabled(s, Offer(id)) && Servable(s, id)
    ensures Publishing(Next(s, Offer(id)), qs, ev)
  {
    StepKeepsLog(s, Offer(id));
    OfferActs(s, id);
    OfferMid(Live(s), qs, ev, s.publisher.todo, id);
  }

  lemma DropGoesOn<E>(s: State<E>, qs: map<nat, seq<E>>, ev: E)
    requires Publishing(s, qs, ev) && Enabled(s, DropOldest)
    ensures Publishing(Next(s, DropOldest), qs, ev)
  {
    StepKeepsLog(s, DropOldest);
    DropActs(s);
    DropMid(Live(s), qs, ev, s.publisher.todo, s.publisher.id);
  }

  lemma RetryGoesOn<E>(s: State<E>, qs: map<nat, seq<E>>, ev: E)
    requires Publishing(s, qs, ev) && Enabled(s, Retry) && Servable(s, s.publisher.id)
    ensures Publishing(Next(s, Retry), qs, ev)
  {
    StepKeepsLog(s, Retry);
    RetryActs(s);
    RetryMid(Live(s), qs, ev, s.publisher.todo, s.publisher.id);
  }

  lemma EndGoesOn<E>(s: State<E>, qs: map<nat, seq<E>>, ev: E)
    requires Publishing(s, qs, ev) && Enabled(s, End)
    ensures Publishing(Next(s, End), qs, ev)
  {
    EndActs(s);
  }

  lemma PublishingGoesOn<E>(s: State<E>, qs: map<nat, seq<E>>, ev: E, step: Step<E>)
    requires Inv(s) && Publishing(s, qs, ev) && Publishes(step) && Enabled(s, step)
    ensures Publishing(Next(s, step), qs, ev)
  {
    match step
    case Offer(id) => PendingIsServable(s, id); OfferGoesOn(s, qs, ev, id);
    case DropOldest => DropGoesOn(s, qs, ev);
    case Retry => PendingIsServable(s, s.publisher.id); RetryGoesOn(s, qs, ev);
    case End => EndGoesOn(s, qs, ev);
  }

  lemma PublishingBegins<E>(s: State<E>, ev: E)
    requires Inv(s) && s.publisher.Idle?
    ensures Publishing(Next(s, Begin(ev)), Live(s), ev)
  {
    BeginActs(s, ev);
    forall id | id in Live(s) ensures |Live(s)[id]| <= QUEUE_SIZE {
      assert InOrder(s.channels[id], s.log);
    }
  }

  lemma {:induction false} QuietStretch<E>(before: seq<Step<E>>, ev: E, mids: seq<Step<E>>, s: State<E>, t: State<E>)
    requires Run(before) == Some(s) && s.publisher.Idle?
    requires forall i | 0 <= i < |mids| :: Publishes(mids[i])
    requires Run(before + [Begin(ev)] + mids) == Some(t)
    ensures Publishing(t, Live(s), ev)
    decreases |mids|
  {
    if mids == [] {
      EveryRunIsSafe(before);
      assert before + [Begin(ev)] + mids == before + [Begin(ev)];
      RunSnoc(before, Begin(ev), s);
      PublishingBegins(s, ev);
    } else {
      var front, last := mids[..|mids| - 1], mids[|mids| - 1];
      assert before + [Begin(ev)] + mids == (before + [Begin(ev)] + front) + [last];
      RunLast(before + [Begin(ev)] + front, last, t);
      var r := Run(before + [Begin(ev)] + front).value;
      QuietStretch(before, ev, front, s, r);
      EveryRunIsSafe(before + [Begin(ev)] + front);
      PublishingGoesOn(r, Live(s), ev, last);
    }
  }

  /** A publication during which no consumer moves, in whatever order it serves the subscribers, leaves every
      queue its newest entries and evicts nobody. */
  lemma QuietPublicationKeepsNewest<E>(before: seq<Step<E>>, ev: E, mids: seq<Step<E>>, s: State<E>, t: State<E>)
    requires Run(before) == Some(s) && s.publisher.Idle?
    requires forall i | 0 <= i < |mids| :: Publishes(mids[i])
    requires Run(before + [Begin(ev)] + mids) == Some(t) && t.publisher.Idle?
    ensures Live(t) == Published(Live(s), ev)
  {
    QuietStretch(before, ev, mids, s, t);
    MidEnd(Live(t), Live(s), ev, t.publisher);
  }
}
