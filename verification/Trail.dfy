/** What the action log of an alert says of everything else triage has left on it. */
module Trail {
  import opened Common
  import opened Events
  import opened Rules
  import opened Alerts
  import opened Store
  import opened AlertService
  import Runs = Lifecycle

  // ---- entries of a log ----

  function FirstSuch(log: seq<ActionLog>, p: ActionLog -> bool): Option<ActionLog> {
    if log == [] then None
    else
      var before := FirstSuch(log[..|log| - 1], p);
      if before.Some? then before else if p(log[|log| - 1]) then Some(log[|log| - 1]) else None
  }

  function LastSuch(log: seq<ActionLog>, p: ActionLog -> bool): Option<ActionLog> {
    if log == [] then None
    else if p(log[|log| - 1]) then Some(log[|log| - 1])
    else LastSuch(log[..|log| - 1], p)
  }

  lemma {:induction false} FirstSuchIsFirst(log: seq<ActionLog>, p: ActionLog -> bool)
    ensures match FirstSuch(log, p)
            case Some(x) => exists k :: 0 <= k < |log| && log[k] == x && p(x) && forall j | 0 <= j < k :: !p(log[j])
            case None => forall j | 0 <= j < |log| :: !p(log[j])
  {
    if log != [] {
      var front := log[..|log| - 1];
      FirstSuchIsFirst(front, p);
      match FirstSuch(front, p)
      case Some(x) =>
        var k :| 0 <= k < |front| && front[k] == x && p(x) && forall j | 0 <= j < k :: !p(front[j]);
        assert log[k] == x && forall j | 0 <= j < k :: log[j] == front[j];
      case None => assert forall j | 0 <= j < |front| :: log[j] == front[j];
    }
  }

  lemma {:induction false} LastSuchIsLast(log: seq<ActionLog>, p: ActionLog -> bool)
    ensures match LastSuch(log, p)
            case Some(x) => exists k :: 0 <= k < |log| && log[k] == x && p(x) && forall j | k < j < |log| :: !p(log[j])
            case None => forall j | 0 <= j < |log| :: !p(log[j])
  {
    if log != [] && !p(log[|log| - 1]) {
      var front := log[..|log| - 1];
      LastSuchIsLast(front, p);
      match LastSuch(front, p)
      case Some(x) =>
        var k :| 0 <= k < |front| && front[k] == x && p(x) && forall j | k < j < |front| :: !p(front[j]);
        assert log[k] == x && forall j | k < j < |front| :: log[j] == front[j];
      case None => assert forall j | 0 <= j < |front| :: log[j] == front[j];
    }
  }

  lemma SuchSnoc(log: seq<ActionLog>, x: ActionLog, p: ActionLog -> bool)
    ensures FirstSuch(log + [x], p) == if FirstSuch(log, p).Some? then FirstSuch(log, p) else if p(x) then Some(x) else None
    ensures LastSuch(log + [x], p) == if p(x) then Some(x) else LastSuch(log, p)
  {
    assert (log + [x])[..|log|] == log;
  }

  // ---- what the actions mean ----

  predicate ResponseAction(a: ActionType) {
    match a
    case Investigate | Acknowledge | Respond | BlockIP | Whitelist | Mitigate | Resolve | FalsePositive => true
    case _ => false
  }

  function Responding(): ActionLog -> bool { (x: ActionLog) => ResponseAction(x.action) }

  function Closing(): ActionLog -> bool { (x: ActionLog) => x.action.Mitigate? || x.action.Resolve? || x.action.FalsePositive? }

  function OnAddress(): ActionLog -> bool { (x: ActionLog) => x.action.BlockIP? || x.action.Whitelist? }

  function Assigning(): ActionLog -> bool { (x: ActionLog) => x.action.AssignAction? }

  function Changing(): ActionLog -> bool { (x: ActionLog) => !x.action.AssignAction? }

  function At(x: Option<ActionLog>): Option<Time> { if x.Some? then Some(x.value.at) else None }

  function ResolutionBy(x: ActionLog): Resolution { if x.action.FalsePositive? then MarkedFalsePositive else Mitigated }

  /** Everything triage has left on an alert, told by its log alone. */
  ghost predicate ToldByLog(l: Lifecycle) {
    ResponseTold(l) && ChangeTold(l) && ClosingTold(l) && AddressTold(l) && AssignmentTold(l)
  }

  ghost predicate ResponseTold(l: Lifecycle) { l.respondedAt == At(FirstSuch(l.actions, Responding())) }

  ghost predicate ChangeTold(l: Lifecycle) { l.statusChangedAt == At(LastSuch(l.actions, Changing())) }

  ghost predicate ClosingTold(l: Lifecycle) {
    match LastSuch(l.actions, Closing())
    case Some(x) => l.resolution == Some(ResolutionBy(x)) && l.resolvedAt == Some(x.at)
    case None => l.resolution == None && l.resolvedAt == None
  }

  ghost predicate AddressTold(l: Lifecycle) {
    match LastSuch(l.actions, OnAddress())
    case Some(x) => l.ipAction == Some((x.action, x.at))
    case None => l.ipAction == None
  }

  ghost predicate AssignmentTold(l: Lifecycle) {
    match LastSuch(l.actions, Assigning())
    case Some(x) => l.assignedAt == Some(x.at) && x.note == "assigned to " + l.assignee && l.assignee != ""
    case None => l.assignedAt == None && l.assignee == ""
  }

  /** The entry a request leaves when it is accepted. */
  function EntryOf(e: Edit, actor: string, now: Time, from: Status, to: Status): ActionLog {
    match e
    case Assign(assignee) => ActionLog(now, actor, AssignAction, "assigned to " + assignee, from, to)
    case SetStatus(_) => ActionLog(now, actor, Start, "", from, to)
    case Act(action, note) => ActionLog(now, actor, action, note, from, to)
  }

  lemma EditLeavesEntry(l: Lifecycle, e: Edit, actor: string, now: Time)
    requires Edited(l, e, actor, now).Ok?
    ensures Edited(l, e, actor, now).value.actions
            == l.actions + [EntryOf(e, actor, now, l.status, Edited(l, e, actor, now).value.status)]
  {
  }

  lemma ResponseStaysTold(l: Lifecycle, e: Edit, actor: string, now: Time)
    requires ResponseTold(l) && Edited(l, e, actor, now).Ok?
    ensures ResponseTold(Edited(l, e, actor, now).value)
  {
    EditLeavesEntry(l, e, actor, now);
    SuchSnoc(l.actions, EntryOf(e, actor, now, l.status, Edited(l, e, actor, now).value.status), Responding());
  }

  lemma ChangeStaysTold(l: Lifecycle, e: Edit, actor: string, now: Time)
    requires ChangeTold(l) && Edited(l, e, actor, now).Ok?
    ensures ChangeTold(Edited(l, e, actor, now).value)
  {
    EditLeavesEntry(l, e, actor, now);
    SuchSnoc(l.actions, EntryOf(e, actor, now, l.status, Edited(l, e, actor, now).value.status), Changing());
  }

  lemma ClosingStaysTold(l: Lifecycle, e: Edit, actor: string, now: Time)
    requires ClosingTold(l) && Edited(l, e, actor, now).Ok?
    ensures ClosingTold(Edited(l, e, actor, now).value)
  {
    EditLeavesEntry(l, e, actor, now);
    SuchSnoc(l.actions, EntryOf(e, actor, now, l.status, Edited(l, e, actor, now).value.status), Closing());
  }

  lemma AddressStaysTold(l: Lifecycle, e: Edit, actor: string, now: Time)
    requires AddressTold(l) && Edited(l, e, actor, now).Ok?
    ensures AddressTold(Edited(l, e, actor, now).value)
  {
    EditLeavesEntry(l, e, actor, now);
    SuchSnoc(l.actions, EntryOf(e, actor, now, l.status, Edited(l, e, actor, now).value.status), OnAddress());
  }

  lemma AssignmentStaysTold(l: Lifecycle, e: Edit, actor: string, now: Time)
    requires AssignmentTold(l) && Edited(l, e, actor, now).Ok?
    ensures AssignmentTold(Edited(l, e, actor, now).value)
  {
    EditLeavesEntry(l, e, actor, now);
    SuchSnoc(l.actions, EntryOf(e, actor, now, l.status, Edited(l, e, actor, now).value.status), Assigning());
  }

  lemma EditIsTold(l: Lifecycle, e: Edit, actor: string, now: Time)
    requires ToldByLog(l) && Edited(l, e, actor, now).Ok?
    ensures ToldByLog(Edited(l, e, actor, now).value)
  {
    ResponseStaysTold(l, e, actor, now);
    ChangeStaysTold(l, e, actor, now);
    ClosingStaysTold(l, e, actor, now);
    AddressStaysTold(l, e, actor, now);
    AssignmentStaysTold(l, e, actor, now);
  }

  lemma {:induction false} LivedIsTold(a: AlertData, ts: Runs.Touches)
    requires ToldByLog(a.life)
    ensures ToldByLog(Runs.Lived(a, ts).life)
  {
    if ts != [] {
      var before, t := Runs.Lived(a, ts[..|ts| - 1]), ts[|ts| - 1];
      LivedIsTold(a, ts[..|ts| - 1]);
      if t.Edit? && Edited(before.life, t.e, t.actor, t.now).Ok? {
        EditIsTold(before.life, t.e, t.actor, t.now);
      }
    }
  }

  /** Every reachable alert: it was responded to when its log has the first response, resolved as the last closing
      entry says, its address dealt with as the last such entry says, and assigned as the last assignment says;
      where the log has no such entry, there is no such mark. */
  lemma LogTellsTheRest(ops: Runs.Calls, i: nat)
    requires i < |Runs.Run(ops)|
    ensures ToldByLog(Runs.Run(ops)[i].life)
  {
    Runs.AlertsLiveTheirBiographies(ops, i);
    var b := Runs.Biographies(ops)[i];
    LivedIsTold(NewAlert(b.r, b.evs, b.o, b.id, b.born), b.touches);
  }

  /** The same of the response time, entry by entry: it is absent exactly when no entry is a response, and is
      otherwise the time of the first that is. */
  lemma RespondedAtFirstResponse(ops: Runs.Calls, i: nat)
    requires i < |Runs.Run(ops)|
    ensures var l := Runs.Run(ops)[i].life;
            match l.respondedAt
            case None => forall j | 0 <= j < |l.actions| :: !ResponseAction(l.actions[j].action)
            case Some(t) =>
              exists k :: && 0 <= k < |l.actions| && ResponseAction(l.actions[k].action) && l.actions[k].at == t
                          && forall j | 0 <= j < k :: !ResponseAction(l.actions[j].action)
  {
    LogTellsTheRest(ops, i);
    var l := Runs.Run(ops)[i].life;
    FirstSuchIsFirst(l.actions, Responding());
    if l.respondedAt.Some? {
      var x := FirstSuch(l.actions, Responding()).value;
      var k :| 0 <= k < |l.actions| && l.actions[k] == x && Responding()(x) && forall j | 0 <= j < k :: !Responding()(l.actions[j]);
      assert forall j | 0 <= j < k :: !ResponseAction(l.actions[j].action) by {
        assert forall j | 0 <= j < k :: !Responding()(l.actions[j]);
      }
    }
  }

  lemma {:induction false} ClosingIsResponding(log: seq<ActionLog>)
    ensures LastSuch(log, Closing()).Some? ==> FirstSuch(log, Responding()).Some?
  {
    if log != [] {
      ClosingIsResponding(log[..|log| - 1]);
    }
  }

  /** A sample of the response statistics is the time from an alert's creation to its first response, and an
      alert without a response gives no sample. */
  lemma SampleIsFirstResponse(ops: Runs.Calls, i: nat)
    requires i < |Runs.Run(ops)|
    ensures var a := Runs.Run(ops)[i];
            a.ResponseTime() == match FirstSuch(a.life.actions, Responding())
                                case Some(x) => Some(x.at - a.who.createdAt)
                                case None => None
  {
    LogTellsTheRest(ops, i);
    SampleByLog(Runs.Run(ops)[i]);
  }

  lemma SampleByLog(a: AlertData)
    requires ToldByLog(a.life)
    ensures a.ResponseTime() == match FirstSuch(a.life.actions, Responding())
                                case Some(x) => Some(x.at - a.who.createdAt)
                                case None => None
  {
    ClosingIsResponding(a.life.actions);
  }

  // ---- when a request is accepted ----

  /** A request is accepted exactly when the alert is not resolved or the request is an action, an assignment
      names someone, a status is one of the open ones and does not lack an assignee, and an action is a response
      or a comment. */
  lemma AcceptedExactlyWhen(l: Lifecycle, e: Edit, actor: string, now: Time)
    ensures Edited(l, e, actor, now).Ok? <==>
      match e
      case Assign(assignee) => assignee != "" && l.status != Resolved
      case SetStatus(requested) =>
        && l.status != Resolved && (requested == Some(Open) || requested == Some(Assigned) || requested == Some(InProgress))
        && (requested == Some(Assigned) ==> l.assignee != "")
      case Act(action, _) => ResponseAction(action) || action.Comment?
    ensures Edited(l, e, actor, now).Ok? ==>
      Edited(l, e, actor, now).value.status ==
      match e
      case Assign(_) => (if l.status == Open then Assigned else l.status)
      case SetStatus(requested) => (if requested.Some? then requested.value else l.status)
      case Act(action, _) => (if action.Mitigate? || action.Resolve? || action.FalsePositive? then Resolved else l.status)
    ensures Edited(l, e, actor, now).Ok? && e.Assign? ==> Edited(l, e, actor, now).value.assignee == e.assignee
    ensures Edited(l, e, actor, now).Err? ==>
      Edited(l, e, actor, now).error ==
      match e
      case Assign(assignee) => (if assignee == "" then AssigneeRequired else BadTransition)
      case SetStatus(requested) => (if l.status != Resolved && requested == Some(Assigned) then AssigneeRequired else BadTransition)
      case Act(_, _) => UnknownAction
  {
  }
}
