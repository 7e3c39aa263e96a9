/** Whole runs of the pipeline in values: enforcement, detection and alerts together, with policies changing
    and operators at work in between. */
module PipelineRuns {
  import opened Common
  import opened Events
  import opened Rules
  import opened Alerts
  import opened Store
  import opened AlertService
  import Edge
  import EdgeRuns
  import Detect
  import DetectRuns
  import Lifecycle

  datatype Input =
    | Install(p: Edge.Policy)
    | Remove(sourceID: string)
    | Arrive(e: EventData, now: Time, rate: Option<Edge.Policy>, newIDs: nat -> string)
    | Operate(id: string, edit: Edit, actor: string, at: Time)

  /** An event that was let through, and the policies and moment it was let through under. */
  datatype Passed = Passed(e: EventData, at: Time, policies: map<string, Edge.Policy>)

  datatype State = State(
    edge: Edge.State, windows: Detect.Windows, alerts: seq<AlertData>, events: nat, passed: seq<Passed>)

  const INITIAL: State := State(Edge.INITIAL, map[], [], 0, [])

  ghost predicate Possible(s: State, i: Input) {
    i.Arrive? ==> Edge.LegalRate(s.edge.policies, i.e.srcIP, i.now, i.rate)
  }

  ghost function DecisionFor(s: State, i: Input): Edge.Decision
    requires i.Arrive?
  {
    Edge.Decide(s.edge, i.e.srcIP, i.e.tags, i.now, i.rate)
  }

  /** Emissions raise alerts; one without events raises none, and there is none. */
  ghost function Raised(alerts: seq<AlertData>, ms: seq<Detect.Emission>, newIDs: nat -> string, now: Time): seq<AlertData> {
    if forall m | m in ms :: m.evs != [] then EmissionsNext(alerts, ms, newIDs, now) else alerts
  }

  ghost function Next(s: State, rules: seq<Rule>, i: Input): State {
    match i
    case Install(p) => s.(edge := Edge.InstallNext(s.edge, p))
    case Remove(id) => s.(edge := Edge.RemoveNext(s.edge, id))
    case Operate(id, edit, actor, at) => s.(alerts := EditNext(s.alerts, id, edit, actor, at).0)
    case Arrive(e, now, rate, newIDs) =>
      var t := s.(edge := Edge.EvalNext(s.edge, e.srcIP, e.tags, now, rate), events := s.events + 1);
      if DecisionFor(s, i).Blocked() then t
      else
        var (windows, ms) := Detect.ProcessNext(s.windows, rules, e);
        t.(windows := windows, alerts := Raised(s.alerts, ms, newIDs, now), passed := s.passed + [Passed(e, now, s.edge.policies)])
  }

  ghost function Run(rules: seq<Rule>, inputs: seq<Input>): Option<State> {
    if inputs == [] then Some(INITIAL)
    else
      match Run(rules, inputs[..|inputs| - 1])
      case None => None
      case Some(s) => if Possible(s, inputs[|inputs| - 1]) then Some(Next(s, rules, inputs[|inputs| - 1])) else None
  }

  function EventsOf(ps: seq<Passed>): seq<EventData> { seq(|ps|, i requires 0 <= i < |ps| => ps[i].e) }

  // ---- what detection sees ----

  ghost predicate WindowsFrom(ws: Detect.Windows, seen: set<EventData>) {
    forall r, k, x | r in ws && k in ws[r] && x in ws[r][k] :: x.ev in seen
  }

  ghost predicate EmissionsFrom(ms: seq<Detect.Emission>, seen: set<EventData>) {
    forall m | m in ms :: m.evs != [] && forall e | e in m.evs :: e in seen
  }

  lemma RuleStaysWithin(ws: Detect.Windows, r: Rule, e: EventData, seen: set<EventData>)
    requires WindowsFrom(ws, seen) && e in seen
    ensures WindowsFrom(Detect.RuleNext(ws, r, e).0, seen) && EmissionsFrom(Detect.RuleNext(ws, r, e).1, seen)
  {
    if Detect.Concerns(r, e) {
      var before := Detect.At(ws, r.id, r.key(e));
      var entries := Detect.Slid(before, e, r.window);
      forall x | x in entries ensures x.ev in seen {
        if x != Detect.Entry(e.timestamp, e) {
          FilterMember(before, Detect.LaterThan(e.timestamp - r.window), x);
        }
      }
      var evs := Detect.EventsOf(entries);
      assert evs[|evs| - 1] == e;
      forall v | v in evs ensures v in seen {
        var i :| 0 <= i < |evs| && evs[i] == v;
        assert entries[i] in entries;
      }
    }
  }

  lemma {:induction false} ProcessStaysWithin(ws: Detect.Windows, rules: seq<Rule>, e: EventData, seen: set<EventData>)
    requires WindowsFrom(ws, seen) && e in seen
    ensures WindowsFrom(Detect.ProcessNext(ws, rules, e).0, seen) && EmissionsFrom(Detect.ProcessNext(ws, rules, e).1, seen)
  {
    if rules != [] {
      var front := rules[..|rules| - 1];
      ProcessStaysWithin(ws, front, e, seen);
      RuleStaysWithin(Detect.ProcessNext(ws, front, e).0, rules[|rules| - 1], e, seen);
    }
  }

  // ---- what alerts list ----

  ghost predicate AlertsListOnly(alerts: seq<AlertData>, ids: set<string>) {
    forall i, id | 0 <= i < |alerts| && id in alerts[i].evidence.eventIDs :: id in ids
  }

  lemma IngestListsOnly(s: seq<AlertData>, m: Detect.Emission, newID: string, now: Time, ids: set<string>)
    requires m.evs != [] && AlertsListOnly(s, ids) && forall e | e in m.evs :: e.id in ids
    ensures AlertsListOnly(IngestNext(s, m.rule, m.evs, m.outcome, newID, now), ids)
  {
    var listed := IDsOf(m.evs);
    forall id | id in listed ensures id in ids {
      var i :| 0 <= i < |listed| && listed[i] == id;
      assert m.evs[i] in m.evs;
    }
    match FirstOpen(s, m.rule.id, m.rule.key(m.evs[0]))
    case None =>
    case Some(k) =>
      var all := s[k].evidence.eventIDs + listed;
      assert forall id | id in LastN(all, MAX_EVENT_IDS) :: id in all;
  }

  lemma {:induction false} RaisedKeeps(s: seq<AlertData>, ms: seq<Detect.Emission>, newIDs: nat -> string, now: Time, ids: set<string>)
    requires Lifecycle.UniqueIDs(s) && Lifecycle.UniqueOpen(s) && AlertsListOnly(s, ids)
    requires forall m | m in ms :: m.evs != [] && forall e | e in m.evs :: e.id in ids
    ensures var t := EmissionsNext(s, ms, newIDs, now);
            Lifecycle.UniqueIDs(t) && Lifecycle.UniqueOpen(t) && AlertsListOnly(t, ids)
  {
    if ms != [] {
      var front, m := ms[..|ms| - 1], ms[|ms| - 1];
      assert m in ms && forall q | q in front :: q in ms;
      RaisedKeeps(s, front, newIDs, now, ids);
      var t := EmissionsNext(s, front, newIDs, now);
      IngestListsOnly(t, m, newIDs(|ms| - 1), now, ids);
      Lifecycle.StepKeepsUnique(t, Lifecycle.Ingest(m.rule, m.evs, m.outcome, newIDs(|ms| - 1), now));
    }
  }

  // ---- the whole run ----

  ghost function Seen(ps: seq<Passed>): set<EventData> { set p | p in ps :: p.e }

  ghost function SeenIDs(ps: seq<Passed>): set<string> { set p | p in ps :: p.e.id }

  /** No deny policy applied to what was let through. */
  ghost predicate NoneDenied(ps: seq<Passed>) {
    forall p | p in ps :: !Edge.HasMatch(p.policies, Edge.Deny, p.e.srcIP, p.at)
  }

  ghost predicate Inv(s: State, rules: seq<Rule>) {
    && s.events == s.edge.counters.total + |s.passed| && EdgeRuns.Conserved(s.edge.counters)
    && s.windows == DetectRuns.Run(rules, EventsOf(s.passed)).0
    && WindowsFrom(s.windows, Seen(s.passed)) && NoneDenied(s.passed)
    && Lifecycle.UniqueIDs(s.alerts) && Lifecycle.UniqueOpen(s.alerts)
    && AlertsListOnly(s.alerts, SeenIDs(s.passed))
  }

  lemma PassedSnoc(ps: seq<Passed>, p: Passed)
    ensures EventsOf(ps + [p]) == EventsOf(ps) + [p.e]
    ensures Seen(ps + [p]) == Seen(ps) + {p.e} && SeenIDs(ps + [p]) == SeenIDs(ps) + {p.e.id}
    ensures NoneDenied(ps + [p]) <==> NoneDenied(ps) && !Edge.HasMatch(p.policies, Edge.Deny, p.e.srcIP, p.at)
  {
    assert forall q :: q in ps + [p] <==> q in ps || q == p;
  }

  /** An event that gets through leaves every part as it should be. */
  lemma PassingKeepsInv(s: State, rules: seq<Rule>, i: Input)
    requires Inv(s, rules) && i.Arrive? && !DecisionFor(s, i).Blocked()
    ensures Inv(Next(s, rules, i), rules)
  {
    var p := Passed(i.e, i.now, s.edge.policies);
    var seen, ids := Seen(s.passed) + {i.e}, SeenIDs(s.passed) + {i.e.id};
    PassedSnoc(s.passed, p);
    ProcessStaysWithin(s.windows, rules, i.e, seen);
    DetectRuns.RunSnoc(rules, EventsOf(s.passed), i.e);
    var ms := Detect.ProcessNext(s.windows, rules, i.e).1;
    forall m, e | m in ms && e in m.evs ensures e.id in ids {
      assert e in seen;
    }
    RaisedKeeps(s.alerts, ms, i.newIDs, i.now, ids);
  }

  lemma StepKeepsInv(s: State, rules: seq<Rule>, i: Input)
    requires Inv(s, rules) && Possible(s, i)
    ensures Inv(Next(s, rules, i), rules)
  {
    match i
    case Install(p) =>
    case Remove(id) =>
    case Operate(id, edit, actor, at) =>
      Lifecycle.StepKeepsUnique(s.alerts, Lifecycle.Request(id, edit, actor, at));
      IndexOfIsFirst(s.alerts, id);
    case Arrive(e, now, rate, newIDs) =>
      if !DecisionFor(s, i).Blocked() {
        PassingKeepsInv(s, rules, i);
      }
  }

  /** In every reachable state: events are the blocked and the let through, and blocks are counted under
      one reason each; the windows are those of a detection run over exactly the events let through; none of
      these was under a deny policy for its address; alerts list only such events, and at most one alert per
      rule and key is open. */
  lemma {:induction false} EveryRunKeepsInv(rules: seq<Rule>, inputs: seq<Input>)
    requires Run(rules, inputs).Some?
    ensures Inv(Run(rules, inputs).value, rules)
  {
    if inputs == [] {
      assert EventsOf([]) == [];
    } else {
      var front := inputs[..|inputs| - 1];
      EveryRunKeepsInv(rules, front);
      StepKeepsInv(Run(rules, front).value, rules, inputs[|inputs| - 1]);
    }
  }

  /** Every event in a window was let through at a moment when no unexpired deny policy named its address. */
  lemma NoDeniedEventInAnyWindow(rules: seq<Rule>, inputs: seq<Input>, ruleID: string, key: string, x: Detect.Entry)
    requires Run(rules, inputs).Some? && x in Detect.At(Run(rules, inputs).value.windows, ruleID, key)
    ensures exists k :: 0 <= k < |inputs| && EnteredUndenied(rules, inputs, k, x.ev)
  {
    EveryRunKeepsInv(rules, inputs);
    BookIsWhatEntered(rules, inputs);
    var s := Run(rules, inputs).value;
    assert x.ev in Seen(s.passed);
    var p :| p in s.passed && p.e == x.ev;
    var n :| 0 <= n < |s.passed| && s.passed[n] == p;
    assert EventsOf(s.passed)[n] == x.ev;
    EnteredSomewhere(rules, inputs, x.ev);
  }

  /** Input `k` is the arrival of that event, and at that moment no deny policy in the table was unexpired and
      aimed at its address or at all addresses. */
  ghost predicate EnteredUndenied(rules: seq<Rule>, inputs: seq<Input>, k: nat, e: EventData)
    requires k < |inputs|
  {
    && inputs[k].Arrive? && inputs[k].e == e && Run(rules, inputs[..k]).Some?
    && forall id | id in Run(rules, inputs[..k]).value.edge.policies ::
         var p := Run(rules, inputs[..k]).value.edge.policies[id];
         p.kind.Deny? && (p.targetIP == "" || p.targetIP == e.srcIP) ==> p.expiresAt.Some? && inputs[k].now > p.expiresAt.value
  }

  lemma {:induction false} EnteredSomewhere(rules: seq<Rule>, inputs: seq<Input>, e: EventData)
    requires Run(rules, inputs).Some? && e in LetThrough(rules, inputs)
    ensures exists k :: 0 <= k < |inputs| && EnteredUndenied(rules, inputs, k, e)
  {
    var front, last := inputs[..|inputs| - 1], inputs[|inputs| - 1];
    if e in LetThrough(rules, front) {
      EnteredSomewhere(rules, front, e);
      var k :| 0 <= k < |front| && EnteredUndenied(rules, front, k, e);
      assert front[..k] == inputs[..k];
      assert EnteredUndenied(rules, inputs, k, e);
    } else {
      var s := Run(rules, front).value;
      forall id | id in s.edge.policies && s.edge.policies[id].kind.Deny?
        ensures !Edge.Applies(s.edge.policies[id], Edge.Deny, e.srcIP, last.now)
      {
        assert !Edge.HasMatch(s.edge.policies, Edge.Deny, e.srcIP, last.now);
      }
      assert EnteredUndenied(rules, inputs, |front|, e);
    }
  }

  /** What was never let through leaves no trace: its identifier is in no window and on no alert. */
  lemma BlockedEventsLeaveNoTrace(rules: seq<Rule>, inputs: seq<Input>, id: string)
    requires Run(rules, inputs).Some? && id !in SeenIDs(Run(rules, inputs).value.passed)
    ensures var s := Run(rules, inputs).value;
            && (forall r, k, x | r in s.windows && k in s.windows[r] && x in s.windows[r][k] :: x.ev.id != id)
            && (forall i | 0 <= i < |s.alerts| :: id !in s.alerts[i].evidence.eventIDs)
  {
    EveryRunKeepsInv(rules, inputs);
    var s := Run(rules, inputs).value;
    forall e | e in Seen(s.passed) ensures e.id in SeenIDs(s.passed) {
      var p :| p in s.passed && p.e == e;
    }
  }

  /** The windows of a running pipeline hold, for each rule and key, exactly the survivors of the history of
      let-through events that concern them. */
  lemma WindowsHoldLetThroughHistory(rules: seq<Rule>, inputs: seq<Input>, i: nat, key: string)
    requires Run(rules, inputs).Some? && WellFormed(rules) && i < |rules|
    ensures var s := Run(rules, inputs).value;
            Detect.EventsOf(Detect.At(s.windows, rules[i].id, key))
            == DetectRuns.Survivors(DetectRuns.History(rules[i], key, EventsOf(s.passed)), 0, rules[i].window)
  {
    EveryRunKeepsInv(rules, inputs);
    var s := Run(rules, inputs).value;
    DetectRuns.RunAt(rules, EventsOf(s.passed), i, key);
    DetectRuns.WindowHoldsSurvivors(rules[i], DetectRuns.History(rules[i], key, EventsOf(s.passed)));
  }

  // ---- the alerts, told by the inputs ----

  /** The events of the inputs that the edge let through, in order. */
  ghost function LetThrough(rules: seq<Rule>, inputs: seq<Input>): seq<EventData> {
    if inputs == [] then []
    else LetThrough(rules, inputs[..|inputs| - 1]) + (if Enters(rules, inputs) then [inputs[|inputs| - 1].e] else [])
  }

  /** The last input is an event that the edge lets through. */
  ghost predicate Enters(rules: seq<Rule>, inputs: seq<Input>)
    requires inputs != []
  {
    var last := inputs[|inputs| - 1];
    match Run(rules, inputs[..|inputs| - 1])
    case None => false
    case Some(s) => last.Arrive? && !DecisionFor(s, last).Blocked()
  }

  /** What detection makes of an event after others. */
  ghost function EmissionsFor(rules: seq<Rule>, evs: seq<EventData>, e: EventData): seq<Detect.Emission> {
    Detect.ProcessNext(DetectRuns.Run(rules, evs).0, rules, e).1
  }

  /** One call of the alert service per emission, in order. */
  function CallsFor(ms: seq<Detect.Emission>, newIDs: nat -> string, now: Time): seq<Lifecycle.Op> {
    seq(|ms|, n requires 0 <= n < |ms| => Lifecycle.Ingest(ms[n].rule, ms[n].evs, ms[n].outcome, newIDs(n), now))
  }

  /** The calls that the inputs make on the alert service: the operators' requests, and an ingestion for each
      emission of detection over the events let through. */
  ghost function Calls(rules: seq<Rule>, inputs: seq<Input>): seq<Lifecycle.Op> {
    if inputs == [] then []
    else
      var front, last := inputs[..|inputs| - 1], inputs[|inputs| - 1];
      Calls(rules, front) +
      (match last
       case Operate(id, edit, actor, at) => [Lifecycle.Request(id, edit, actor, at)]
       case Arrive(e, now, _, newIDs) =>
         if Enters(rules, inputs) then CallsFor(EmissionsFor(rules, LetThrough(rules, front), e), newIDs, now) else []
       case _ => [])
  }

  function Arrivals(inputs: seq<Input>): nat {
    if inputs == [] then 0 else Arrivals(inputs[..|inputs| - 1]) + (if inputs[|inputs| - 1].Arrive? then 1 else 0)
  }

  /** The book of let-through events and the event counter say what the inputs say. */
  lemma {:induction false} BookIsWhatEntered(rules: seq<Rule>, inputs: seq<Input>)
    requires Run(rules, inputs).Some?
    ensures EventsOf(Run(rules, inputs).value.passed) == LetThrough(rules, inputs)
    ensures Run(rules, inputs).value.events == Arrivals(inputs)
  {
    if inputs != [] {
      var front, i := inputs[..|inputs| - 1], inputs[|inputs| - 1];
      BookIsWhatEntered(rules, front);
      var s := Run(rules, front).value;
      if i.Arrive? && !DecisionFor(s, i).Blocked() {
        PassedSnoc(s.passed, Passed(i.e, i.now, s.edge.policies));
      }
    }
  }

  lemma EmissionsHaveEvents(rules: seq<Rule>, evs: seq<EventData>, e: EventData)
    requires WellFormed(rules)
    ensures forall m | m in EmissionsFor(rules, evs, e) :: m.evs != []
  {
    EmissionsFit(rules, evs, e);
  }

  lemma EmissionsFit(rules: seq<Rule>, evs: seq<EventData>, e: EventData)
    requires WellFormed(rules)
    ensures forall m | m in EmissionsFor(rules, evs, e) :: DetectRuns.EmissionFits(rules, m)
  {
    DetectRuns.OnlyMatchedEventsFire(rules, evs);
    DetectRuns.ProcessFits(DetectRuns.Run(rules, evs).0, rules, |rules|, e);
    assert rules[..|rules|] == rules;
  }

  lemma {:induction false} CallsAreProper(rules: seq<Rule>, inputs: seq<Input>)
    requires WellFormed(rules)
    ensures forall i | 0 <= i < |Calls(rules, inputs)| && Calls(rules, inputs)[i].Ingest? :: Calls(rules, inputs)[i].evs != []
  {
    if inputs != [] {
      var front, last := inputs[..|inputs| - 1], inputs[|inputs| - 1];
      CallsAreProper(rules, front);
      if Enters(rules, inputs) {
        EmissionsHaveEvents(rules, LetThrough(rules, front), last.e);
        var ms := EmissionsFor(rules, LetThrough(rules, front), last.e);
        assert forall n | 0 <= n < |ms| :: ms[n] in ms;
      }
    }
  }

  lemma CallsSnoc(ms: seq<Detect.Emission>, newIDs: nat -> string, now: Time)
    requires ms != []
    ensures var k := |ms| - 1;
            CallsFor(ms, newIDs, now)
            == CallsFor(ms[..k], newIDs, now) + [Lifecycle.Ingest(ms[k].rule, ms[k].evs, ms[k].outcome, newIDs(k), now)]
  {
  }

  lemma CallsHaveEvents(ms: seq<Detect.Emission>, newIDs: nat -> string, now: Time)
    requires forall m | m in ms :: m.evs != []
    ensures forall n | 0 <= n < |ms| :: CallsFor(ms, newIDs, now)[n].evs != []
  {
    forall n | 0 <= n < |ms| ensures CallsFor(ms, newIDs, now)[n].evs != [] {
      assert ms[n] in ms;
    }
  }

  /** A run of the alert service that goes on with the emissions. */
  function Extended(before: Lifecycle.Calls, ms: seq<Detect.Emission>, newIDs: nat -> string, now: Time): Lifecycle.Calls
    requires forall m | m in ms :: m.evs != []
  {
    CallsHaveEvents(ms, newIDs, now);
    before + CallsFor(ms, newIDs, now)
  }

  /** Ingesting emissions one after the other is a run of the alert service. */
  lemma {:induction false} IngestingIsCalling(before: Lifecycle.Calls, ms: seq<Detect.Emission>, newIDs: nat -> string, now: Time)
    requires forall m | m in ms :: m.evs != []
    ensures Lifecycle.Run(Extended(before, ms, newIDs, now)) == EmissionsNext(Lifecycle.Run(before), ms, newIDs, now)
  {
    if ms == [] {
      assert Extended(before, ms, newIDs, now) == before;
    } else {
      var front, m := ms[..|ms| - 1], ms[|ms| - 1];
      assert m in ms && forall q | q in front :: q in ms;
      IngestingIsCalling(before, front, newIDs, now);
      CallsSnoc(ms, newIDs, now);
      IngestOneMore(Extended(before, front, newIDs, now), Extended(before, ms, newIDs, now), m, newIDs(|front|), now);
    }
  }

  lemma IngestOneMore(done: Lifecycle.Calls, all: Lifecycle.Calls, m: Detect.Emission, newID: string, now: Time)
    requires m.evs != [] && all == done + [Lifecycle.Ingest(m.rule, m.evs, m.outcome, newID, now)]
    ensures Lifecycle.Run(all) == IngestNext(Lifecycle.Run(done), m.rule, m.evs, m.outcome, newID, now)
  {
    OneMoreCall(done, Lifecycle.Ingest(m.rule, m.evs, m.outcome, newID, now));
  }

  /** In every reachable state the alerts are those of a run of the alert service over exactly those calls:
      each emission of detection over the let-through events is ingested, once, in order, and nothing else is. */
  lemma {:induction false} AlertsAreIngestedEmissions(rules: seq<Rule>, inputs: seq<Input>)
    requires WellFormed(rules) && Run(rules, inputs).Some?
    ensures forall i | 0 <= i < |Calls(rules, inputs)| && Calls(rules, inputs)[i].Ingest? :: Calls(rules, inputs)[i].evs != []
    ensures Run(rules, inputs).value.alerts == Lifecycle.Run(Calls(rules, inputs))
  {
    CallsAreProper(rules, inputs);
    if inputs != [] {
      var front, last := inputs[..|inputs| - 1], inputs[|inputs| - 1];
      AlertsAreIngestedEmissions(rules, front);
      var s, calls: Lifecycle.Calls := Run(rules, front).value, Calls(rules, front);
      if last.Operate? {
        OneMoreCall(calls, Lifecycle.Request(last.id, last.edit, last.actor, last.at));
      } else if Enters(rules, inputs) {
        EmissionsHaveEvents(rules, LetThrough(rules, front), last.e);
        RaisedIsIngested(rules, front, last);
        IngestingIsCalling(calls, EmissionsFor(rules, LetThrough(rules, front), last.e), last.newIDs, last.now);
      } else {
        assert Calls(rules, inputs) == calls;
      }
    }
  }

  lemma OneMoreCall(calls: Lifecycle.Calls, op: Lifecycle.Op)
    requires op.Ingest? ==> op.evs != []
    ensures Lifecycle.Run(calls + [op]) == Lifecycle.Next(Lifecycle.Run(calls), op)
  {
    assert (calls + [op])[..|calls|] == calls;
  }

  // ---- a detection is never lost ----

  /** An open alert of that rule and key lists that event. */
  ghost predicate Shown(alerts: seq<AlertData>, ruleID: string, key: string, eventID: string) {
    exists k :: 0 <= k < |alerts| && Lifecycle.OpenFor(alerts[k], ruleID, key) && eventID in alerts[k].evidence.eventIDs
  }

  ghost predicate Taken(alerts: seq<AlertData>, id: string) {
    exists k :: 0 <= k < |alerts| && alerts[k].who.id == id
  }

  lemma LastIsListed(ids: seq<string>, evs: seq<EventData>)
    requires evs != []
    ensures evs[|evs| - 1].id in LastN(ids + IDsOf(evs), MAX_EVENT_IDS) && evs[|evs| - 1].id in IDsOf(evs)
  {
    var all := ids + IDsOf(evs);
    assert all[|all| - 1] == evs[|evs| - 1].id;
    var kept := LastN(all, MAX_EVENT_IDS);
    assert kept[|kept| - 1] == all[|all| - 1];
    assert IDsOf(evs)[|evs| - 1] == evs[|evs| - 1].id;
  }

  /** An ingested detection is shown by an open alert exactly when there was one to merge into or the identifier
      drawn for a new one was free. */
  lemma IngestedIsShownExactlyWhen(s: seq<AlertData>, r: Rule, evs: seq<EventData>, o: Outcome, newID: string, now: Time)
    requires evs != []
    ensures Shown(IngestNext(s, r, evs, o, newID, now), r.id, r.key(evs[0]), evs[|evs| - 1].id)
            <==> (exists k :: 0 <= k < |s| && Lifecycle.OpenFor(s[k], r.id, r.key(evs[0]))) || !Taken(s, newID)
  {
    var key, t := r.key(evs[0]), IngestNext(s, r, evs, o, newID, now);
    FirstOpenIsFirst(s, r.id, key);
    match FirstOpen(s, r.id, key)
    case Some(k) =>
      LastIsListed(s[k].evidence.eventIDs, evs);
      assert Lifecycle.OpenFor(t[k], r.id, key);
    case None =>
      IndexOfIsFirst(s, newID);
      if IndexOf(s, newID).None? {
        LastIsListed([], evs);
        assert Lifecycle.OpenFor(t[|s|], r.id, key);
      }
  }

  /** Ingesting for another rule hides nothing. */
  lemma OtherRuleKeepsShown(s: seq<AlertData>, r: Rule, evs: seq<EventData>, o: Outcome, newID: string, now: Time,
                            ruleID: string, key: string, eventID: string)
    requires evs != [] && r.id != ruleID && Shown(s, ruleID, key, eventID)
    ensures Shown(IngestNext(s, r, evs, o, newID, now), ruleID, key, eventID)
  {
    var k :| 0 <= k < |s| && Lifecycle.OpenFor(s[k], ruleID, key) && eventID in s[k].evidence.eventIDs;
    FirstOpenIsFirst(s, r.id, r.key(evs[0]));
    assert IngestNext(s, r, evs, o, newID, now)[k] == s[k];
  }

  /** An open alert of the emission's rule and key lists its newest event. */
  ghost predicate EmissionShown(alerts: seq<AlertData>, m: Detect.Emission) {
    m.evs != [] && Shown(alerts, m.rule.id, m.rule.key(m.evs[0]), m.evs[|m.evs| - 1].id)
  }

  lemma OwnIngestShows(s: seq<AlertData>, m: Detect.Emission, newID: string, now: Time)
    requires m.evs != []
    ensures EmissionShown(IngestNext(s, m.rule, m.evs, m.outcome, newID, now), m) || Taken(s, newID)
  {
    IngestedIsShownExactlyWhen(s, m.rule, m.evs, m.outcome, newID, now);
  }

  lemma OtherIngestKeeps(s: seq<AlertData>, m: Detect.Emission, other: Detect.Emission, newID: string, now: Time)
    requires EmissionShown(s, m) && other.evs != [] && other.rule.id != m.rule.id
    ensures EmissionShown(IngestNext(s, other.rule, other.evs, other.outcome, newID, now), m)
  {
    OtherRuleKeepsShown(s, other.rule, other.evs, other.outcome, newID, now,
                        m.rule.id, m.rule.key(m.evs[0]), m.evs[|m.evs| - 1].id);
  }

  lemma {:induction false} EmittedIsShown(s: seq<AlertData>, ms: seq<Detect.Emission>, newIDs: nat -> string, now: Time, n: nat)
    requires (forall m | m in ms :: m.evs != []) && n < |ms|
    requires forall m | m in ms[..n] :: m.evs != []
    requires forall p | n < p < |ms| :: ms[p].rule.id != ms[n].rule.id
    ensures EmissionShown(EmissionsNext(s, ms, newIDs, now), ms[n]) || Taken(EmissionsNext(s, ms[..n], newIDs, now), newIDs(n))
    decreases |ms|
  {
    var front, last := ms[..|ms| - 1], ms[|ms| - 1];
    assert last in ms && forall q | q in front :: q in ms;
    var before := EmissionsNext(s, front, newIDs, now);
    if n == |ms| - 1 {
      OwnIngestShows(before, last, newIDs(n), now);
    } else {
      assert front[..n] == ms[..n] && front[n] == ms[n];
      EmittedIsShown(s, front, newIDs, now, n);
      if EmissionShown(before, ms[n]) {
        OtherIngestKeeps(before, ms[n], last, newIDs(|ms| - 1), now);
      }
    }
  }

  lemma IngestTakes(s: seq<AlertData>, r: Rule, evs: seq<EventData>, o: Outcome, newID: string, now: Time, id: string)
    requires evs != [] && Taken(IngestNext(s, r, evs, o, newID, now), id)
    ensures Taken(s, id) || newID == id
  {
    var t := IngestNext(s, r, evs, o, newID, now);
    var k :| 0 <= k < |t| && t[k].who.id == id;
    if k < |s| {
      assert s[k].who.id == id;
    }
  }

  /** An identifier in use was in use before, or has been drawn since. */
  lemma {:induction false} TakenWasDrawn(s: seq<AlertData>, ms: seq<Detect.Emission>, newIDs: nat -> string, now: Time, id: string)
    requires (forall m | m in ms :: m.evs != []) && Taken(EmissionsNext(s, ms, newIDs, now), id)
    ensures Taken(s, id) || exists n: nat :: n < |ms| && newIDs(n) == id
  {
    if ms != [] {
      var front, last := ms[..|ms| - 1], ms[|ms| - 1];
      assert last in ms && forall q | q in front :: q in ms;
      IngestTakes(EmissionsNext(s, front, newIDs, now), last.rule, last.evs, last.outcome, newIDs(|ms| - 1), now, id);
      if Taken(EmissionsNext(s, front, newIDs, now), id) {
        TakenWasDrawn(s, front, newIDs, now, id);
      }
    }
  }

  /** The identifiers drawn for one event repeat each other or one in use. */
  ghost predicate Clash(s: seq<AlertData>, newIDs: nat -> string, n: nat) {
    exists p: nat :: p < n && (Taken(s, newIDs(p)) || exists q: nat :: q < p && newIDs(q) == newIDs(p))
  }

  /** The surviving history of a rule and the key of an event, with that event. */
  ghost function Seeing(r: Rule, evs: seq<EventData>, e: EventData): seq<EventData> {
    DetectRuns.Survivors(DetectRuns.History(r, r.key(e), evs + [e]), 0, r.window)
  }

  /** The event completes the condition of the rule. */
  ghost predicate Completes(r: Rule, evs: seq<EventData>, e: EventData) {
    r.matches(e) && r.key(e) != "" && |Seeing(r, evs, e)| >= r.threshold && r.alert(Seeing(r, evs, e)).Some?
  }

  lemma SeenLast(r: Rule, evs: seq<EventData>, e: EventData)
    requires r.matches(e) && r.key(e) != ""
    ensures Seeing(r, evs, e) != [] && Seeing(r, evs, e)[|Seeing(r, evs, e)| - 1] == e
  {
    DetectRuns.HistorySnoc(r, r.key(e), evs, e);
    DetectRuns.SurvivorsSnoc(DetectRuns.History(r, r.key(e), evs), e, 0, r.window);
  }

  /** What one rule emits for an event that completes its condition. */
  lemma CompletedIsEmitted(rules: seq<Rule>, evs: seq<EventData>, e: EventData, i: nat) returns (m: Detect.Emission)
    requires WellFormed(rules) && i < |rules| && Completes(rules[i], evs, e)
    ensures m in EmissionsFor(rules, evs, e) && m.rule == rules[i] && m.evs == Seeing(rules[i], evs, e)
  {
    var r, ms := rules[i], EmissionsFor(rules, evs, e);
    DetectRuns.EmitsExactlyWhenHistorySays(rules, evs, e, i, r.key(e));
    m := Detect.Emission(r, Seeing(r, evs, e), r.alert(Seeing(r, evs, e)).value);
    assert m in Filter(ms, DetectRuns.Of(r, r.key(e)));
    FilterMember(ms, DetectRuns.Of(r, r.key(e)), m);
  }

  lemma EmissionHasKey(rules: seq<Rule>, evs: seq<EventData>, e: EventData, m: Detect.Emission)
    requires WellFormed(rules) && m in EmissionsFor(rules, evs, e) && e in m.evs
    ensures m.evs != [] && m.rule.key(m.evs[0]) == m.rule.key(e)
  {
    EmissionsFit(rules, evs, e);
    assert DetectRuns.EmissionFits(rules, m);
    assert DetectRuns.Fits(m.rule, m.rule.key(m.evs[0]), e);
  }

  /** Later emissions of one event are by other rules. */
  lemma OthersFollow(rules: seq<Rule>, evs: seq<EventData>, e: EventData, n: nat)
    requires WellFormed(rules) && n < |EmissionsFor(rules, evs, e)|
    ensures var ms := EmissionsFor(rules, evs, e); forall p | n < p < |ms| :: ms[p].rule.id != ms[n].rule.id
    ensures |EmissionsFor(rules, evs, e)| <= |rules|
  {
    var at := DetectRuns.EmissionsInRuleOrder(DetectRuns.Run(rules, evs).0, rules, e);
    PositionsFit(at, |rules|);
  }

  /** A detection is never lost: when an event is let through and the surviving history of a rule and its key
      then meets the rule's threshold and condition, an open alert of that rule and key lists the event
      afterwards, unless a drawn identifier was already taken. */
  lemma DetectionIsShown(rules: seq<Rule>, inputs: seq<Input>, i: nat)
    requires WellFormed(rules) && Run(rules, inputs).Some? && inputs != [] && Enters(rules, inputs) && i < |rules|
    requires Completes(rules[i], LetThrough(rules, inputs[..|inputs| - 1]), inputs[|inputs| - 1].e)
    ensures var (front, last) := (inputs[..|inputs| - 1], inputs[|inputs| - 1]);
            || Shown(Run(rules, inputs).value.alerts, rules[i].id, rules[i].key(last.e), last.e.id)
            || Clash(Run(rules, front).value.alerts, last.newIDs, |rules|)
  {
    var front, last := inputs[..|inputs| - 1], inputs[|inputs| - 1];
    var evs := LetThrough(rules, front);
    EmissionsHaveEvents(rules, evs, last.e);
    var n := CompletedAt(rules, evs, last.e, i);
    OthersFollow(rules, evs, last.e, n);
    IngestedAreShown(Run(rules, front).value.alerts, EmissionsFor(rules, evs, last.e), last.newIDs, last.now, n, |rules|);
    RaisedIsIngested(rules, front, last);
  }

  /** Where the emission of a rule comes among those of an event that completes its condition. */
  lemma CompletedAt(rules: seq<Rule>, evs: seq<EventData>, e: EventData, i: nat) returns (n: nat)
    requires WellFormed(rules) && i < |rules| && Completes(rules[i], evs, e)
    ensures var ms := EmissionsFor(rules, evs, e);
            && n < |ms| && ms[n].rule == rules[i] && ms[n].evs != []
            && ms[n].rule.key(ms[n].evs[0]) == rules[i].key(e) && ms[n].evs[|ms[n].evs| - 1] == e
  {
    var m := CompletedIsEmitted(rules, evs, e, i);
    var ms := EmissionsFor(rules, evs, e);
    SeenLast(rules[i], evs, e);
    assert e in m.evs;
    EmissionHasKey(rules, evs, e, m);
    n :| 0 <= n < |ms| && ms[n] == m;
  }

  lemma IngestedAreShown(s: seq<AlertData>, ms: seq<Detect.Emission>, newIDs: nat -> string, now: Time, n: nat, bound: nat)
    requires (forall m | m in ms :: m.evs != []) && n < |ms| <= bound
    requires forall p | n < p < |ms| :: ms[p].rule.id != ms[n].rule.id
    ensures EmissionShown(EmissionsNext(s, ms, newIDs, now), ms[n]) || Clash(s, newIDs, bound)
  {
    assert forall m | m in ms[..n] :: m in ms;
    EmittedIsShown(s, ms, newIDs, now, n);
    if Taken(EmissionsNext(s, ms[..n], newIDs, now), newIDs(n)) {
      TakenWasDrawn(s, ms[..n], newIDs, now, newIDs(n));
    }
  }

  /** As many increasing positions as there are fit below their bound. */
  lemma {:induction false} PositionsFit(at: seq<nat>, n: nat)
    requires forall i | 0 <= i < |at| :: at[i] < n
    requires forall i, j | 0 <= i < j < |at| :: at[i] < at[j]
    ensures |at| <= n
  {
    if at != [] {
      PositionsFit(at[..|at| - 1], at[|at| - 1]);
    }
  }

  /** The windows are those of a detection run over the events let through. */
  lemma WindowsAreOfWhatEntered(rules: seq<Rule>, inputs: seq<Input>)
    requires Run(rules, inputs).Some?
    ensures Run(rules, inputs).value.windows == DetectRuns.Run(rules, LetThrough(rules, inputs)).0
  {
    EveryRunKeepsInv(rules, inputs);
    BookIsWhatEntered(rules, inputs);
  }

  lemma RaisedIsIngested(rules: seq<Rule>, front: seq<Input>, last: Input)
    requires WellFormed(rules) && Run(rules, front).Some? && last.Arrive? && !DecisionFor(Run(rules, front).value, last).Blocked()
    requires forall m | m in EmissionsFor(rules, LetThrough(rules, front), last.e) :: m.evs != []
    ensures Next(Run(rules, front).value, rules, last).alerts
            == EmissionsNext(Run(rules, front).value.alerts, EmissionsFor(rules, LetThrough(rules, front), last.e), last.newIDs, last.now)
  {
    WindowsAreOfWhatEntered(rules, front);
  }
}
