/** Alerts: what an alert holds, how a detection merges into it and how its lifecycle moves. */
module Alerts {
  import opened Common
  import opened Events
  import opened Rules

  datatype Status = Open | Assigned | InProgress | Resolved
  {
    predicate IsActive() { this != Resolved }
  }

  datatype ActionType =
    | AssignAction | Unassign | Start | Acknowledge | Respond | Investigate | BlockIP | Whitelist
    | Resolve | Mitigate | FalsePositive | Comment | OtherAction(name: string)

  datatype Resolution = Mitigated | MarkedFalsePositive | Benign | NoAction

  datatype ActionLog = ActionLog(at: Time, actor: string, action: ActionType, note: string, from: Status, to: Status)

  /** What an alert is: fixed when it is created. */
  datatype Identity = Identity(
    id: string, ruleID: string, ruleKey: string, title: string, mitre: seq<string>, startedAt: Time, createdAt: Time)

  /** What detections have shown: changed only by merging. */
  datatype Evidence = Evidence(
    severity: Severity, confidence: real, asset: string, srcIP: string, geo: Option<Geo>, lastSeenAt: Time,
    eventIDs: seq<string>, count: nat, blockedCount: nat, uniquePaths: nat, distinctAssets: nat)

  /** Where triage stands: changed only by operators. */
  datatype Lifecycle = Lifecycle(
    status: Status, assignee: string, assignedAt: Option<Time>, statusChangedAt: Option<Time>,
    respondedAt: Option<Time>, resolvedAt: Option<Time>, resolution: Option<Resolution>,
    ipAction: Option<(ActionType, Time)>, actions: seq<ActionLog>)

  datatype AlertData = AlertData(who: Identity, evidence: Evidence, life: Lifecycle)
  {
    predicate IsActive() { life.status.IsActive() }

    predicate IsUnassigned() { life.status == Open && life.assignee == "" }

    /** The response time, once there is one. */
    function ResponseTime(): Option<Time> {
      if life.respondedAt.Some? then Some(life.respondedAt.value - who.createdAt)
      else if life.resolvedAt.Some? then Some(life.resolvedAt.value - who.createdAt)
      else None
    }
  }

  datatype Error = NotFound | BadTransition | UnknownAction | AssigneeRequired | DuplicateID

  datatype Result<+T> = Ok(value: T) | Err(error: Error)

  const MAX_EVENT_IDS: nat := 200
  const MAX_CONFIDENCE: real := 0.99
  const CONFIDENCE_STEP: real := 0.02

  // ---- evidence ----

  function MaxSeverity(a: Severity, b: Severity): Severity {
    if Rank(a) >= Rank(b) then a else b
  }

  function IDsOf(evs: seq<EventData>): seq<string> {
    seq(|evs|, i requires 0 <= i < |evs| => evs[i].id)
  }

  function WithOutcome(e: Evidence, o: Outcome): Evidence {
    e.(count := o.count,
       blockedCount := MaxInt(e.blockedCount, o.blocked),
       uniquePaths := MaxInt(e.uniquePaths, o.uniquePaths),
       distinctAssets := MaxInt(e.distinctAssets, o.distinctAssets))
  }

  function Merged(e: Evidence, r: Rule, evs: seq<EventData>, o: Outcome): Evidence
    requires evs != []
  {
    var first, last := evs[0], evs[|evs| - 1];
    WithOutcome(
      e.(lastSeenAt := last.timestamp,
         severity := MaxSeverity(e.severity, r.severity),
         confidence := Min(MAX_CONFIDENCE, e.confidence + CONFIDENCE_STEP),
         asset := first.asset,
         srcIP := first.srcIP,
         geo := if first.geo.Some? && !first.geo.value.IsZero() then first.geo else e.geo,
         eventIDs := LastN(e.eventIDs + IDsOf(evs), MAX_EVENT_IDS)),
      o)
  }

  function FirstEvidence(r: Rule, evs: seq<EventData>, o: Outcome): Evidence
    requires evs != []
  {
    var first, last := evs[0], evs[|evs| - 1];
    WithOutcome(
      Evidence(r.severity, r.confidence, first.asset, first.srcIP, first.geo, last.timestamp, IDsOf(evs), 0, 0, 0, 0), o)
  }

  const UNTOUCHED: Lifecycle := Lifecycle(Open, "", None, None, None, None, None, None, [])

  function NewAlert(r: Rule, evs: seq<EventData>, o: Outcome, id: string, now: Time): AlertData
    requires evs != []
  {
    AlertData(Identity(id, r.id, r.key(evs[0]), r.name, r.mitre, evs[0].timestamp, now),
              FirstEvidence(r, evs, o), UNTOUCHED)
  }

  // ---- lifecycle ----

  /** What an operator does to one alert. `requested` is absent when the text names no status. */
  datatype Edit =
    | Assign(assignee: string)
    | SetStatus(requested: Option<Status>)
    | Act(action: ActionType, note: string)

  function Logged(l: Lifecycle, now: Time, actor: string, action: ActionType, from: Status, note: string): Lifecycle {
    l.(actions := l.actions + [ActionLog(now, actor, action, note, from, l.status)])
  }

  function FirstOr(t: Option<Time>, fallback: Time): Option<Time> {
    if t.Some? then t else Some(fallback)
  }

  function Closed(l: Lifecycle, resolution: Resolution, now: Time): Lifecycle {
    l.(status := Resolved, resolution := Some(resolution), resolvedAt := Some(now),
       respondedAt := FirstOr(l.respondedAt, now))
  }

  /** The effect of an action before it is logged. */
  function Acted(l: Lifecycle, action: ActionType, now: Time): Result<Lifecycle> {
    match action
    case Investigate | Acknowledge | Respond => Ok(l.(respondedAt := FirstOr(l.respondedAt, now)))
    case BlockIP | Whitelist => Ok(l.(respondedAt := FirstOr(l.respondedAt, now), ipAction := Some((action, now))))
    case Mitigate | Resolve => Ok(Closed(l, Mitigated, now))
    case FalsePositive => Ok(Closed(l, MarkedFalsePositive, now))
    case Comment => Ok(l)
    case _ => Err(UnknownAction)
  }

  function Edited(l: Lifecycle, e: Edit, actor: string, now: Time): Result<Lifecycle> {
    match e
    case Assign(assignee) =>
      if assignee == "" then Err(AssigneeRequired)
      else if l.status == Resolved then Err(BadTransition)
      else
        Ok(Logged(l.(assignee := assignee, assignedAt := Some(now), status := if l.status == Open then Assigned else l.status),
                  now, actor, AssignAction, l.status, "assigned to " + assignee))
    case SetStatus(requested) =>
      if l.status == Resolved then Err(BadTransition)
      else if requested.None? || requested.value == Resolved then Err(BadTransition)
      else if requested.value == Assigned && l.assignee == "" then Err(AssigneeRequired)
      else
        Ok(Logged(l.(status := requested.value, statusChangedAt := Some(now)), now, actor, Start, l.status, ""))
    case Act(action, note) =>
      match Acted(l, action, now)
      case Err(error) => Err(error)
      case Ok(next) => Ok(Logged(next.(statusChangedAt := Some(now)), now, actor, action, l.status, note))
  }

  // ---- the alert object ----

  class Alert {
    const who: Identity
    var evidence: Evidence
    var life: Lifecycle

    constructor (data: AlertData)
      ensures View() == data
    {
      who, evidence, life := data.who, data.evidence, data.life;
    }

    function View(): AlertData
      reads this
    {
      AlertData(who, evidence, life)
    }

    method ApplyOutcome(o: Outcome)
      modifies this`evidence
      ensures evidence == WithOutcome(old(evidence), o)
    {
      evidence := evidence.(count := o.count);
      if o.blocked > evidence.blockedCount {
        evidence := evidence.(blockedCount := o.blocked);
      }
      if o.uniquePaths > evidence.uniquePaths {
        evidence := evidence.(uniquePaths := o.uniquePaths);
      }
      if o.distinctAssets > evidence.distinctAssets {
        evidence := evidence.(distinctAssets := o.distinctAssets);
      }
    }

    method Merge(r: Rule, evs: seq<EventData>, o: Outcome)
      requires evs != []
      modifies this`evidence
      ensures evidence == Merged(old(evidence), r, evs, o)
    {
      var first, last := evs[0], evs[|evs| - 1];
      evidence := evidence.(lastSeenAt := last.timestamp,
        severity := MaxSeverity(evidence.severity, r.severity),
        confidence := Min(MAX_CONFIDENCE, evidence.confidence + CONFIDENCE_STEP),
        asset := first.asset, srcIP := first.srcIP);
      if first.geo.Some? && !first.geo.value.IsZero() {
        evidence := evidence.(geo := first.geo);
      }
      var merged := evidence.eventIDs + IDsOf(evs);
      if |merged| > MAX_EVENT_IDS {
        merged := merged[|merged| - MAX_EVENT_IDS..];
      }
      evidence := evidence.(eventIDs := merged);
      ApplyOutcome(o);
    }

    method AppendAction(now: Time, actor: string, action: ActionType, from: Status, note: string)
      modifies this`life
      ensures life == Logged(old(life), now, actor, action, from, note)
    {
      life := life.(actions := life.actions + [ActionLog(now, actor, action, note, from, life.status)]);
    }

    /** Assigns an open or worked alert; an open one becomes assigned. */
    method Assign(assignee: string, actor: string, now: Time) returns (refusal: Option<Error>)
      modifies this`life
      ensures match Edited(old(life), Edit.Assign(assignee), actor, now)
              case Ok(l) => refusal == None && life == l
              case Err(e) => refusal == Some(e) && life == old(life)
    {
      if assignee == "" {
        return Some(AssigneeRequired);
      }
      if life.status == Resolved {
        return Some(BadTransition);
      }
      var from := life.status;
      life := life.(assignee := assignee, assignedAt := Some(now));
      if life.status == Open {
        life := life.(status := Assigned);
      }
      AppendAction(now, actor, AssignAction, from, "assigned to " + assignee);
      return None;
    }

    method SetStatus(requested: Option<Status>, actor: string, now: Time) returns (refusal: Option<Error>)
      modifies this`life
      ensures match Edited(old(life), Edit.SetStatus(requested), actor, now)
              case Ok(l) => refusal == None && life == l
              case Err(e) => refusal == Some(e) && life == old(life)
    {
      if life.status == Resolved {
        return Some(BadTransition);
      }
      if requested.None? || requested.value == Resolved {
        return Some(BadTransition);
      }
      if requested.value == Assigned && life.assignee == "" {
        return Some(AssigneeRequired);
      }
      var from := life.status;
      life := life.(status := requested.value);
      life := life.(statusChangedAt := Some(now));
      AppendAction(now, actor, Start, from, "");
      return None;
    }

    method Act(action: ActionType, note: string, actor: string, now: Time) returns (refusal: Option<Error>)
      modifies this`life
      ensures match Edited(old(life), Edit.Act(action, note), actor, now)
              case Ok(l) => refusal == None && life == l
              case Err(e) => refusal == Some(e) && life == old(life)
    {
      var from := life.status;
      match action {
        case Investigate | Acknowledge | Respond =>
          life := life.(respondedAt := FirstOr(life.respondedAt, now));
        case BlockIP | Whitelist =>
          life := life.(respondedAt := FirstOr(life.respondedAt, now));
          life := life.(ipAction := Some((action, now)));
        case Mitigate | Resolve =>
          life := life.(status := Resolved, resolution := Some(Mitigated), resolvedAt := Some(now));
          life := life.(respondedAt := FirstOr(life.respondedAt, now));
        case FalsePositive =>
          life := life.(status := Resolved, resolution := Some(MarkedFalsePositive), resolvedAt := Some(now));
          life := life.(respondedAt := FirstOr(life.respondedAt, now));
        case Comment =>
        case _ =>
          return Some(UnknownAction);
      }
      life := life.(statusChangedAt := Some(now));
      AppendAction(now, actor, action, from, note);
      return None;
    }
  }
}
