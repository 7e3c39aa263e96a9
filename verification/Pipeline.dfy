/** The live pipeline: one event at a time through the edge, the detection windows, the alerts, the ring and the hub. */
module Pipeline {
  import opened Common
  import opened Events
  import Rules
  import Edge
  import EdgeRuns
  import Detect
  import opened Alerts
  import opened Store
  import opened AlertService
  import Ring
  import Hub
  import P = HubProtocol
  import R = PipelineRuns

  /** Every emission carries at least the event that caused it. */
  lemma {:induction false} EmissionsCarryEvents(ws: Detect.Windows, rules: seq<Rules.Rule>, e: EventData)
    ensures forall m | m in Detect.ProcessNext(ws, rules, e).1 :: m.evs != []
  {
    if rules != [] {
      EmissionsCarryEvents(ws, rules[..|rules| - 1], e);
    }
  }

  // ---- one pass of the loop, in values ----

  ghost function Verdict(s: Edge.State, e: EventData, now: Time, rate: Option<Edge.Policy>): Edge.Decision {
    Edge.Decide(s, e.srcIP, e.tags, now, rate)
  }

  /** After the edge has seen an event: counted, and entered in the book of those let through unless blocked. */
  ghost function Enforced(s: R.State, e: EventData, now: Time, rate: Option<Edge.Policy>): R.State {
    s.(edge := Edge.EvalNext(s.edge, e.srcIP, e.tags, now, rate), events := s.events + 1,
       passed := if Verdict(s.edge, e, now, rate).Blocked() then s.passed else s.passed + [R.Passed(e, now, s.edge.policies)])
  }

  /** After detection has seen an event: windows moved on, alerts raised. */
  ghost function Watched(s: R.State, rules: seq<Rules.Rule>, e: EventData, newIDs: nat -> string, now: Time): R.State {
    var (windows, ms) := Detect.ProcessNext(s.windows, rules, e);
    s.(windows := windows, alerts := R.Raised(s.alerts, ms, newIDs, now))
  }

  /** The two together are one input of the run. */
  lemma ArrivalInTwo(s: R.State, rules: seq<Rules.Rule>, e: EventData, now: Time, rate: Option<Edge.Policy>, newIDs: nat -> string)
    ensures var t := Enforced(s, e, now, rate);
            R.Next(s, rules, R.Arrive(e, now, rate, newIDs))
            == if Verdict(s.edge, e, now, rate).Blocked() then t else Watched(t, rules, e, newIDs, now)
  {
  }

  class Pipeline {
    const edge: Edge.Engine
    const engine: Detect.Engine
    const alerts: Service
    const ring: Ring.Ring
    const hub: Hub.Hub<NormalizedEvent>
    var events: nat

    /** The events let through, in order, and what each of them said then. */
    ghost var passed: seq<R.Passed>
    ghost var letThrough: map<NormalizedEvent, R.Passed>

    /** The parts are in order. */
    ghost predicate Ready()
      reads edge, alerts.store, ring, ring.buf, hub, hub.Channels()
    {
      edge.Valid() && alerts.Valid() && ring.Valid() && hub.Valid()
    }

    /** The parts that decide are in order. */
    ghost predicate Working()
      reads edge, alerts.store
    {
      edge.Valid() && alerts.Valid()
    }

    /** The pipeline as a state of `PipelineRuns`. */
    ghost function View(): R.State
      requires edge.Valid()
      reads this, edge, edge.Repr(), engine, engine.Held(), alerts.store, alerts.store.created
    {
      R.State(edge.Model(), engine.Model(), alerts.Model(), events, passed)
    }

    /** Every event in a window was let through under no deny policy for its address, and still says
        what it said then. */
    ghost predicate Clean()
      reads this, engine, engine.Held()
    {
      forall e | e in engine.Held() :: Unwritten(e)
    }

    ghost predicate Unwritten(e: NormalizedEvent)
      reads this`letThrough, e
    {
      && e in letThrough && e.View() == letThrough[e].e
      && !Edge.HasMatch(letThrough[e].policies, Edge.Deny, e.srcIP, letThrough[e].at)
    }

    constructor (edge: Edge.Engine, engine: Detect.Engine, alerts: Service, ring: Ring.Ring, hub: Hub.Hub<NormalizedEvent>)
      requires edge.Valid() && edge.Model() == Edge.INITIAL
      requires engine.Held() == {} && engine.Model() == map[]
      requires alerts.Valid() && alerts.Model() == [] && ring.Valid() && hub.Valid()
      ensures this.edge == edge && this.engine == engine && this.alerts == alerts && this.ring == ring && this.hub == hub
      ensures Ready() && Clean() && View() == R.INITIAL
    {
      this.edge, this.engine, this.alerts, this.ring, this.hub := edge, engine, alerts, ring, hub;
      events, passed, letThrough := 0, [], map[];
    }

    /** Enforcement: the event is blocked, marked and counted, or entered in the books of those let through. */
    method Enforce(ev: NormalizedEvent, now: Time) returns (blocked: bool, ghost rate: Option<Edge.Policy>)
      requires edge.Valid()
      modifies this, edge`buckets, edge`blocked, edge.byReason, (set jp | jp in edge.buckets :: edge.buckets[jp]), ev
      ensures edge.Valid() && edge.policies == old(edge.policies)
      ensures Edge.LegalRate(edge.policies, ev.srcIP, now, rate)
      ensures edge.Model() == Edge.EvalNext(old(edge.Model()), ev.srcIP, old(ev.tags), now, rate)
      ensures blocked == Verdict(old(edge.Model()), old(ev.View()), now, rate).Blocked()
      ensures ev.View() == Edge.Marked(old(ev.View()), Verdict(old(edge.Model()), old(ev.View()), now, rate))
      ensures events == old(events) + 1
      ensures passed == if blocked then old(passed) else old(passed) + [R.Passed(old(ev.View()), now, edge.policies)]
      ensures letThrough == if blocked then old(letThrough) else old(letThrough)[ev := R.Passed(old(ev.View()), now, edge.policies)]
    {
      blocked, rate := edge.Eval(ev, now);
      Book(ev, now, blocked);
    }

    method Book(ev: NormalizedEvent, now: Time, blocked: bool)
      modifies this
      ensures events == old(events) + 1
      ensures passed == if blocked then old(passed) else old(passed) + [R.Passed(ev.View(), now, edge.policies)]
      ensures letThrough == if blocked then old(letThrough) else old(letThrough)[ev := R.Passed(ev.View(), now, edge.policies)]
    {
      events := events + 1;
      if !blocked {
        passed := passed + [R.Passed(ev.View(), now, edge.policies)];
        letThrough := letThrough[ev := R.Passed(ev.View(), now, edge.policies)];
      }
    }

    /** Detection, and the alerts it leads to. */
    method Watch(ev: NormalizedEvent, newIDs: nat -> string, now: Time)
      requires alerts.Valid()
      modifies engine, alerts.store, alerts.store.created
      ensures alerts.Valid()
      ensures var (windows, ms) := Detect.ProcessNext(old(engine.Model()), engine.rules, ev.View());
              engine.Model() == windows && alerts.Model() == R.Raised(old(alerts.Model()), ms, newIDs, now)
      ensures engine.Held() <= old(engine.Held()) + {ev}
    {
      EmissionsCarryEvents(engine.Model(), engine.rules, ev.View());
      var ms := engine.Process(ev, true);
      Raise(ms, newIDs, now);
    }

    method Raise(ms: seq<Detect.Emission>, newIDs: nat -> string, now: Time)
      requires alerts.Valid() && forall m | m in ms :: m.evs != []
      modifies alerts.store, alerts.store.created
      ensures alerts.Valid() && alerts.Model() == EmissionsNext(old(alerts.Model()), ms, newIDs, now)
      ensures forall a | a in alerts.store.created :: a in old(alerts.store.created) || fresh(a)
    {
      if |ms| == 0 {
        return;
      }
      var last := |ms| - 1;
      Raise(ms[..last], newIDs, now);
      assert ms[last] in ms;
      alerts.Ingest(ms[last].rule, ms[last].evs, ms[last].outcome, newIDs(last), now);
    }

    /** The shared views: the ring of recent events and the live subscribers. */
    method Share(ev: NormalizedEvent)
      requires ring.Valid() && hub.Valid()
      modifies ring, ring.buf, hub`subs, hub.Channels()
      ensures ring.Valid() && hub.Valid() && ring.history == old(ring.history) + [ev]
      ensures hub.subs == old(hub.subs) && hub.Queues() == P.Published(old(hub.Queues()), ev)
    {
      ring.Append(ev);
      hub.Untouched();
      label appended:
      hub.Publish(ev);
      ring.Untouched@appended();
    }

    /** One pass of the loop over a newly normalized event: enforcement, detection unless blocked, then the
        ring and the hub in any case. It is one input of `PipelineRuns`, and it writes no event that is
        already in a window. */
    method Step(ev: NormalizedEvent, newIDs: nat -> string, now: Time) returns (ghost rate: Option<Edge.Policy>)
      requires Ready() && Clean() && ev !in letThrough && ev !in engine.Held()
      modifies this, edge`buckets, edge`blocked, edge.byReason, (set jp | jp in edge.buckets :: edge.buckets[jp]), ev,
               engine, alerts.store, alerts.store.created, ring, ring.buf, hub`subs, hub.Channels()
      ensures Ready() && Clean()
      ensures R.Possible(old(View()), R.Arrive(old(ev.View()), now, rate, newIDs))
      ensures View() == R.Next(old(View()), engine.rules, R.Arrive(old(ev.View()), now, rate, newIDs))
      ensures ring.history == old(ring.history) + [ev] && hub.Queues() == P.Published(old(hub.Queues()), ev)
    {
      rate := Examine(ev, newIDs, now);
      hub.Untouched();
      ring.Untouched();
      Deliver(ev);
    }

    // ---- what the handlers do to the shared edge and alerts between two passes ----

    method Install(p: Edge.Policy)
      requires Working() && Clean()
      modifies edge`policies
      ensures Working() && Clean() && View() == R.Next(old(View()), engine.rules, R.Install(p))
    {
      edge.Install(p);
      alerts.Untouched();
      Detect.ModelUnchanged(engine.windows);
    }

    method Remove(sourceID: string)
      requires Working() && Clean()
      modifies edge`policies, edge`buckets
      ensures Working() && Clean() && View() == R.Next(old(View()), engine.rules, R.Remove(sourceID))
    {
      edge.Remove(sourceID);
      alerts.Untouched();
      Detect.ModelUnchanged(engine.windows);
    }

    method Operate(id: string, e: Edit, actor: string, now: Time)
      requires Working() && Clean()
      modifies alerts.store`byID, alerts.store.created
      ensures Working() && Clean() && View() == R.Next(old(View()), engine.rules, R.Operate(id, e, actor, now))
    {
      Request(id, e, actor, now);
      edge.Untouched();
      Detect.ModelUnchanged(engine.windows);
    }

    method Request(id: string, e: Edit, actor: string, now: Time)
      requires alerts.Valid()
      modifies alerts.store`byID, alerts.store.created
      ensures alerts.Valid() && alerts.Model() == EditNext(old(alerts.Model()), id, e, actor, now).0
    {
      var answer;
      match e {
        case Assign(assignee) => answer := alerts.Assign(id, assignee, actor, now);
        case SetStatus(requested) => answer := alerts.SetStatus(id, requested, actor, now);
        case Act(action, note) => answer := alerts.Action(id, action, note, actor, now);
      }
    }

    /** Enforcement and, unless blocked, detection. */
    method Examine(ev: NormalizedEvent, newIDs: nat -> string, now: Time) returns (ghost rate: Option<Edge.Policy>)
      requires Working() && Clean() && ev !in letThrough && ev !in engine.Held()
      modifies this, edge`buckets, edge`blocked, edge.byReason, (set jp | jp in edge.buckets :: edge.buckets[jp]), ev,
               engine, alerts.store, alerts.store.created
      ensures Working() && Clean()
      ensures R.Possible(old(View()), R.Arrive(old(ev.View()), now, rate, newIDs))
      ensures View() == R.Next(old(View()), engine.rules, R.Arrive(old(ev.View()), now, rate, newIDs))
    {
      ghost var before, e := View(), ev.View();
      var blocked;
      blocked, rate := Admit(ev, now);
      ArrivalInTwo(before, engine.rules, e, now, rate, newIDs);
      if !blocked {
        Inspect(ev, newIDs, now);
      }
    }

    /** Enforcement, with what it leaves alone. */
    method Admit(ev: NormalizedEvent, now: Time) returns (blocked: bool, ghost rate: Option<Edge.Policy>)
      requires Working() && Clean() && ev !in letThrough && ev !in engine.Held()
      modifies this, edge`buckets, edge`blocked, edge.byReason, (set jp | jp in edge.buckets :: edge.buckets[jp]), ev
      ensures Working() && Clean() && engine.Held() == old(engine.Held())
      ensures Edge.LegalRate(old(edge.policies), ev.srcIP, now, rate)
      ensures View() == Enforced(old(View()), old(ev.View()), now, rate)
      ensures blocked == Verdict(old(edge.Model()), old(ev.View()), now, rate).Blocked()
      ensures !blocked ==> Unwritten(ev) && ev.View() == old(ev.View())
    {
      blocked, rate := Enforce(ev, now);
      Detect.ModelUnchanged(engine.windows);
      assert alerts.Model() == old(alerts.Model());
    }

    /** Detection, with what it leaves alone. */
    method Inspect(ev: NormalizedEvent, newIDs: nat -> string, now: Time)
      requires Working() && Clean() && Unwritten(ev)
      modifies engine, alerts.store, alerts.store.created
      ensures Working() && Clean()
      ensures View() == Watched(old(View()), engine.rules, ev.View(), newIDs, now)
    {
      ghost var held := engine.Held();
      Watch(ev, newIDs, now);
      edge.Untouched();
      assert Unwritten(ev) && forall e | e in held :: Unwritten(e);
    }

    /** Delivery, with what it leaves alone. */
    method Deliver(ev: NormalizedEvent)
      requires Ready() && Clean()
      modifies ring, ring.buf, hub`subs, hub.Channels()
      ensures Ready() && Clean() && View() == old(View())
      ensures ring.history == old(ring.history) + [ev] && hub.Queues() == P.Published(old(hub.Queues()), ev)
    {
      Share(ev);
      Detect.ModelUnchanged(engine.windows);
      alerts.Untouched();
      edge.Untouched();
    }
  }
}
