/** What incidents and kill chains say of the alerts that a running service can actually hold. */
module CaseRuns {
  import opened Common
  import opened Events
  import opened Rules
  import opened Alerts
  import opened Store
  import opened AlertService
  import opened KillChain
  import opened Incidents
  import Detect
  import Lifecycle
  import P = PipelineRuns

  predicate AllDated(evs: seq<EventData>) {
    forall e | e in evs :: e.timestamp > ZERO_TIME
  }

  predicate DatedOp(op: Lifecycle.Op) {
    op.Ingest? ==> AllDated(op.evs)
  }

  lemma StepKeepsDated(s: seq<AlertData>, op: Lifecycle.Op)
    requires op.Ingest? ==> op.evs != []
    requires Dated(s) && DatedOp(op)
    ensures Dated(Lifecycle.Next(s, op))
  {
    var t := Lifecycle.Next(s, op);
    if op.Ingest? {
      assert op.evs[0] in op.evs && op.evs[|op.evs| - 1] in op.evs;
    }
    forall a | a in t ensures a.who.startedAt > ZERO_TIME && a.evidence.lastSeenAt > ZERO_TIME {
      var i :| 0 <= i < |t| && t[i] == a;
      if i < |s| {
        assert s[i] in s;
      }
    }
  }

  /** Events are stamped by the clock when they are normalized, so no alert is ever undated. */
  lemma {:induction false} ReachableAlertsAreDated(ops: Lifecycle.Calls)
    requires forall i | 0 <= i < |ops| :: DatedOp(ops[i])
    ensures Dated(Lifecycle.Run(ops))
  {
    if ops != [] {
      ReachableAlertsAreDated(ops[..|ops| - 1]);
      StepKeepsDated(Lifecycle.Run(ops[..|ops| - 1]), ops[|ops| - 1]);
    }
  }

  // ---- the alerts of a pipeline ----

  /** The alert was raised by one of the rules. */
  predicate RaisedBy(rules: seq<Rule>, a: AlertData) {
    exists i :: 0 <= i < |rules| && a.who.ruleID == rules[i].id
  }

  /** All alerts are dated and come from the rules. */
  ghost predicate Sourced(rules: seq<Rule>, s: seq<AlertData>) {
    Dated(s) && forall a | a in s :: RaisedBy(rules, a)
  }

  ghost predicate EmissionSourced(rules: seq<Rule>, m: Detect.Emission) {
    m.evs != [] && AllDated(m.evs) && m.rule in rules
  }

  lemma IngestKeepsSourced(rules: seq<Rule>, s: seq<AlertData>, m: Detect.Emission, newID: string, now: Time)
    requires Sourced(rules, s) && EmissionSourced(rules, m)
    ensures Sourced(rules, IngestNext(s, m.rule, m.evs, m.outcome, newID, now))
  {
    StepKeepsDated(s, Lifecycle.Ingest(m.rule, m.evs, m.outcome, newID, now));
    var t := IngestNext(s, m.rule, m.evs, m.outcome, newID, now);
    forall a | a in t ensures RaisedBy(rules, a) {
      var i :| 0 <= i < |t| && t[i] == a;
      if i < |s| {
        assert s[i] in s && a.who == s[i].who;
      }
    }
  }

  lemma {:induction false} EmissionsKeepSourced(rules: seq<Rule>, s: seq<AlertData>, ms: seq<Detect.Emission>, newIDs: nat -> string, now: Time)
    requires Sourced(rules, s) && forall m | m in ms :: m.evs != [] && EmissionSourced(rules, m)
    ensures Sourced(rules, EmissionsNext(s, ms, newIDs, now))
  {
    if ms != [] {
      var front, m := ms[..|ms| - 1], ms[|ms| - 1];
      assert m in ms && forall q | q in front :: q in ms;
      EmissionsKeepSourced(rules, s, front, newIDs, now);
      IngestKeepsSourced(rules, EmissionsNext(s, front, newIDs, now), m, newIDs(|ms| - 1), now);
    }
  }

  lemma {:induction false} EmissionsAreOfRules(ws: Detect.Windows, rules: seq<Rule>, e: EventData)
    ensures forall m | m in Detect.ProcessNext(ws, rules, e).1 :: m.rule in rules
  {
    if rules != [] {
      EmissionsAreOfRules(ws, rules[..|rules| - 1], e);
    }
  }

  /** The events that arrive are stamped by the clock. */
  ghost predicate Stamped(inputs: seq<P.Input>) {
    forall i | 0 <= i < |inputs| && inputs[i].Arrive? :: inputs[i].e.timestamp > ZERO_TIME
  }

  ghost predicate PassedDated(ps: seq<P.Passed>) {
    forall p | p in ps :: p.e.timestamp > ZERO_TIME
  }

  lemma PassingKeepsSourced(s: P.State, rules: seq<Rule>, i: P.Input)
    requires P.Inv(s, rules) && i.Arrive? && !P.DecisionFor(s, i).Blocked()
    requires Sourced(rules, s.alerts) && PassedDated(s.passed) && i.e.timestamp > ZERO_TIME
    ensures Sourced(rules, P.Next(s, rules, i).alerts)
  {
    var seen := P.Seen(s.passed) + {i.e};
    var ms := Detect.ProcessNext(s.windows, rules, i.e).1;
    P.ProcessStaysWithin(s.windows, rules, i.e, seen);
    EmissionsAreOfRules(s.windows, rules, i.e);
    forall m | m in ms ensures EmissionSourced(rules, m) {
      forall e | e in m.evs ensures e.timestamp > ZERO_TIME {
        assert e in seen;
      }
    }
    EmissionsKeepSourced(rules, s.alerts, ms, i.newIDs, i.now);
  }

  lemma OperatingKeepsSourced(s: P.State, rules: seq<Rule>, i: P.Input)
    requires i.Operate? && Sourced(rules, s.alerts)
    ensures Sourced(rules, P.Next(s, rules, i).alerts)
  {
    StepKeepsDated(s.alerts, Lifecycle.Request(i.id, i.edit, i.actor, i.at));
    var t := P.Next(s, rules, i).alerts;
    forall a | a in t ensures RaisedBy(rules, a) {
      var j :| 0 <= j < |t| && t[j] == a;
      assert s.alerts[j] in s.alerts && a.who == s.alerts[j].who;
    }
  }

  /** Every alert of a running pipeline is dated and comes from one of its rules. */
  lemma {:induction false} PipelineAlertsAreSourced(rules: seq<Rule>, inputs: seq<P.Input>)
    requires P.Run(rules, inputs).Some? && Stamped(inputs)
    ensures Sourced(rules, P.Run(rules, inputs).value.alerts) && PassedDated(P.Run(rules, inputs).value.passed)
  {
    if inputs != [] {
      var front, i := inputs[..|inputs| - 1], inputs[|inputs| - 1];
      PipelineAlertsAreSourced(rules, front);
      P.EveryRunKeepsInv(rules, front);
      var s := P.Run(rules, front).value;
      if i.Arrive? && !P.DecisionFor(s, i).Blocked() {
        PassingKeepsSourced(s, rules, i);
      } else if i.Operate? {
        OperatingKeepsSourced(s, rules, i);
      }
    }
  }

  lemma GroupIsSourced(rules: seq<Rule>, s: seq<AlertData>, key: string)
    requires Sourced(rules, s)
    ensures Sourced(rules, WithKey(s, key))
  {
    forall a | a in WithKey(s, key) ensures a in s {
      FilterMember(s, HasKey(key), a);
    }
  }

  /** Every incident built from the alerts of a pipeline running the seven rules begins and ends when its
      kill chain does, and has its count and severity. */
  lemma PipelineIncidentsAgree(m: Matchers, inputs: seq<P.Input>, key: string, now: Time)
    requires P.Run(Table(m), inputs).Some? && Stamped(inputs)
    requires WithKey(P.Run(Table(m), inputs).value.alerts, key) != []
    ensures var inc := IncidentOf(WithKey(P.Run(Table(m), inputs).value.alerts, key), now);
      && inc.chain.startedAt == inc.firstSeen && inc.chain.lastSeenAt == inc.lastSeen
      && inc.chain.total == inc.count && inc.chain.maxSeverity == inc.severity
  {
    PipelineAlertsAreSourced(Table(m), inputs);
    var s := P.Run(Table(m), inputs).value.alerts;
    GroupIsSourced(Table(m), s, key);
    var group := WithKey(s, key);
    forall a | a in group ensures exists i :: 0 <= i < 7 && a.who.ruleID == Table(m)[i].id {
      assert RaisedBy(Table(m), a);
    }
    EngineChainSpansTheCase(m, group);
    IncidentAgreesWithItsChain(group, now);
  }
}
