/** Whole runs of the alert service: one open alert per key, the audit trail, response times, merged evidence. */
module Lifecycle {
  import opened Common
  import opened Events
  import opened Rules
  import opened Alerts
  import opened Store
  import opened AlertService

  /** One serialised call of the service. */
  datatype Op =
    | Ingest(r: Rule, evs: seq<EventData>, o: Outcome, newID: string, now: Time)
    | Request(id: string, edit: Edit, actor: string, now: Time)

  type Calls = ops: seq<Op> | forall i | 0 <= i < |ops| && ops[i].Ingest? :: ops[i].evs != []

  function Next(s: seq<AlertData>, op: Op): seq<AlertData>
    requires op.Ingest? ==> op.evs != []
  {
    match op
    case Ingest(r, evs, o, newID, now) => IngestNext(s, r, evs, o, newID, now)
    case Request(id, e, actor, now) => EditNext(s, id, e, actor, now).0
  }

  function Run(ops: Calls): seq<AlertData> {
    if ops == [] then [] else Next(Run(ops[..|ops| - 1]), ops[|ops| - 1])
  }

  ghost predicate InOrder(ops: seq<Op>) {
    forall i, j | 0 <= i < j < |ops| :: ops[i].now <= ops[j].now
  }

  // ---- one open alert per rule and key ----

  ghost predicate UniqueIDs(s: seq<AlertData>) {
    forall i, j | 0 <= i < j < |s| :: s[i].who.id != s[j].who.id
  }

  /** The alert is not resolved and belongs to that rule and key. */
  predicate OpenFor(a: AlertData, ruleID: string, key: string) {
    a.life.status != Resolved && a.who.ruleID == ruleID && a.who.ruleKey == key
  }

  ghost predicate UniqueOpen(s: seq<AlertData>) {
    forall i, j | 0 <= i < j < |s| && s[i].life.status != Resolved && s[j].life.status != Resolved ::
      s[i].who.ruleID != s[j].who.ruleID || s[i].who.ruleKey != s[j].who.ruleKey
  }

  /** No request wakes a resolved alert. */
  lemma ResolvedIsAbsorbing(l: Lifecycle, e: Edit, actor: string, now: Time)
    requires l.status == Resolved && Edited(l, e, actor, now).Ok?
    ensures Edited(l, e, actor, now).value.status == Resolved
  {
  }

  /** An alert that is replaced by one of the same identity, and not woken, stays unique. */
  lemma ReplacingKeepsUnique(s: seq<AlertData>, i: nat, a: AlertData)
    requires UniqueIDs(s) && UniqueOpen(s) && i < |s|
    requires a.who == s[i].who && (a.IsActive() ==> s[i].IsActive())
    ensures UniqueIDs(s[i := a]) && UniqueOpen(s[i := a])
  {
  }

  lemma CreatingKeepsUnique(s: seq<AlertData>, a: AlertData)
    requires UniqueIDs(s) && UniqueOpen(s)
    requires forall j | 0 <= j < |s| :: s[j].who.id != a.who.id
    requires forall j | 0 <= j < |s| :: !Matches(s[j], a.who.ruleID, a.who.ruleKey)
    ensures UniqueIDs(s + [a]) && UniqueOpen(s + [a])
  {
  }

  lemma IngestKeepsUnique(s: seq<AlertData>, r: Rule, evs: seq<EventData>, o: Outcome, newID: string, now: Time)
    requires evs != [] && UniqueIDs(s) && UniqueOpen(s)
    ensures UniqueIDs(IngestNext(s, r, evs, o, newID, now)) && UniqueOpen(IngestNext(s, r, evs, o, newID, now))
  {
    FirstOpenIsFirst(s, r.id, r.key(evs[0]));
    match FirstOpen(s, r.id, r.key(evs[0]))
    case Some(i) => ReplacingKeepsUnique(s, i, MergeInto(s[i], r, evs, o));
    case None =>
      IndexOfIsFirst(s, newID);
      if IndexOf(s, newID).None? {
        CreatingKeepsUnique(s, NewAlert(r, evs, o, newID, now));
      }
  }

  lemma RequestKeepsUnique(s: seq<AlertData>, id: string, e: Alerts.Edit, actor: string, now: Time)
    requires UniqueIDs(s) && UniqueOpen(s)
    ensures UniqueIDs(EditNext(s, id, e, actor, now).0) && UniqueOpen(EditNext(s, id, e, actor, now).0)
  {
    match IndexOf(s, id)
    case None =>
    case Some(i) =>
      if Edited(s[i].life, e, actor, now).Ok? {
        if s[i].life.status == Resolved {
          ResolvedIsAbsorbing(s[i].life, e, actor, now);
        }
        ReplacingKeepsUnique(s, i, s[i].(life := Edited(s[i].life, e, actor, now).value));
      }
  }

  lemma StepKeepsUnique(s: seq<AlertData>, op: Op)
    requires op.Ingest? ==> op.evs != []
    requires UniqueIDs(s) && UniqueOpen(s)
    ensures UniqueIDs(Next(s, op)) && UniqueOpen(Next(s, op))
  {
    match op
    case Ingest(r, evs, o, newID, now) => IngestKeepsUnique(s, r, evs, o, newID, now);
    case Request(id, e, actor, now) => RequestKeepsUnique(s, id, e, actor, now);
  }

  /** In every reachable store, at most one open alert per rule and key, and one alert per identifier. */
  lemma {:induction false} OneOpenAlertPerKey(ops: Calls)
    ensures UniqueIDs(Run(ops)) && UniqueOpen(Run(ops))
  {
    if ops != [] {
      OneOpenAlertPerKey(ops[..|ops| - 1]);
      StepKeepsUnique(Run(ops[..|ops| - 1]), ops[|ops| - 1]);
    }
  }

  /** An answer the database query may give: an open match that was seen last, or none. */
  ghost predicate LatestOpen(s: seq<AlertData>, ruleID: string, ruleKey: string, r: Option<nat>) {
    match r
    case Some(i) =>
      && i < |s| && OpenFor(s[i], ruleID, ruleKey)
      && forall j | 0 <= j < |s| && OpenFor(s[j], ruleID, ruleKey) :: s[j].evidence.lastSeenAt <= s[i].evidence.lastSeenAt
    case None => forall j | 0 <= j < |s| :: !OpenFor(s[j], ruleID, ruleKey)
  }

  /** The in-memory search and the database query have the same single answer in every reachable store. */
  lemma BothStoresFindTheSame(ops: Calls, ruleID: string, ruleKey: string, r: Option<nat>)
    ensures LatestOpen(Run(ops), ruleID, ruleKey, r) <==> r == FirstOpen(Run(ops), ruleID, ruleKey)
  {
    OneOpenAlertPerKey(ops);
    OnlyOpenIsLatest(Run(ops), ruleID, ruleKey, r);
  }

  lemma OnlyOpenIsLatest(s: seq<AlertData>, ruleID: string, ruleKey: string, r: Option<nat>)
    requires UniqueOpen(s)
    ensures LatestOpen(s, ruleID, ruleKey, r) <==> r == FirstOpen(s, ruleID, ruleKey)
  {
    FirstOpenIsFirst(s, ruleID, ruleKey);
  }

  // ---- one alert on its own ----

  /** What a call does to one alert. */
  datatype Touch =
    | Merge(r: Rule, evs: seq<EventData>, o: Outcome)
    | Edit(e: Alerts.Edit, actor: string, now: Time)

  type Touches = ts: seq<Touch> | forall i | 0 <= i < |ts| && ts[i].Merge? :: ts[i].evs != []

  function Touched(a: AlertData, t: Touch): AlertData
    requires t.Merge? ==> t.evs != []
  {
    match t
    case Merge(r, evs, o) => MergeInto(a, r, evs, o)
    case Edit(e, actor, now) =>
      match Edited(a.life, e, actor, now)
      case Ok(l) => a.(life := l)
      case Err(_) => a
  }

  function Lived(a: AlertData, ts: Touches): AlertData {
    if ts == [] then a else Touched(Lived(a, ts[..|ts| - 1]), ts[|ts| - 1])
  }

  /** How an alert came to be and everything that has touched it since. */
  datatype Biography = Biography(r: Rule, evs: seq<EventData>, o: Outcome, id: string, born: Time, touches: Touches)
  {
    predicate Valid() { evs != [] }

    function Alert(): AlertData
      requires Valid()
    {
      Lived(NewAlert(r, evs, o, id, born), touches)
    }
  }

  /** The position a call touches, and how; none if it creates, or does nothing. */
  function Aim(s: seq<AlertData>, op: Op): Option<nat>
    requires op.Ingest? ==> op.evs != []
  {
    match op
    case Ingest(r, evs, _, _, _) => FirstOpen(s, r.id, r.key(evs[0]))
    case Request(id, e, _, _) => IndexOf(s, id)
  }

  function TouchOf(op: Op): (t: Touch)
    requires op.Ingest? ==> op.evs != []
    ensures t.Merge? ==> t.evs != []
  {
    match op
    case Ingest(r, evs, o, _, _) => Merge(r, evs, o)
    case Request(_, e, actor, now) => Edit(e, actor, now)
  }

  function TouchBio(b: Biography, t: Touch): Biography
    requires t.Merge? ==> t.evs != []
  {
    b.(touches := b.touches + [t])
  }

  predicate AllValid(bs: seq<Biography>) { forall i | 0 <= i < |bs| :: bs[i].Valid() }

  /** What one call writes into the biographies of the alerts of a store. */
  function BiographiesNext(s: seq<AlertData>, bs: seq<Biography>, op: Op): (r: seq<Biography>)
    requires op.Ingest? ==> op.evs != []
    requires |bs| == |s| && AllValid(bs)
    ensures |r| == |Next(s, op)| && AllValid(r)
  {
    match Aim(s, op)
    case Some(i) => bs[i := TouchBio(bs[i], TouchOf(op))]
    case None =>
      if op.Ingest? && IndexOf(s, op.newID).None? then bs + [Biography(op.r, op.evs, op.o, op.newID, op.now, [])] else bs
  }

  /** The biographies of the alerts of a run, in creation order. */
  function Biographies(ops: Calls): (bs: seq<Biography>)
    ensures |bs| == |Run(ops)| && AllValid(bs)
  {
    if ops == [] then []
    else BiographiesNext(Run(ops[..|ops| - 1]), Biographies(ops[..|ops| - 1]), ops[|ops| - 1])
  }

  /** Every alert of the store is the outcome of its biography. */
  ghost predicate Live(s: seq<AlertData>, bs: seq<Biography>) {
    |bs| == |s| && AllValid(bs) && forall i | 0 <= i < |s| :: s[i] == bs[i].Alert()
  }

  lemma LivedSnoc(b: Biography, t: Touch)
    requires b.Valid() && (t.Merge? ==> t.evs != [])
    ensures TouchBio(b, t).Alert() == Touched(b.Alert(), t)
  {
    assert (b.touches + [t])[..|b.touches|] == b.touches;
  }

  lemma TouchStaysLive(s: seq<AlertData>, bs: seq<Biography>, i: nat, t: Touch)
    requires Live(s, bs) && i < |s| && (t.Merge? ==> t.evs != [])
    ensures Live(s[i := Touched(s[i], t)], bs[i := TouchBio(bs[i], t)])
  {
    LivedSnoc(bs[i], t);
  }

  /** A call with an aim touches the alert it aims at; one without may create. */
  lemma NextByAim(s: seq<AlertData>, op: Op)
    requires op.Ingest? ==> op.evs != []
    ensures match Aim(s, op)
            case Some(i) => i < |s| && Next(s, op) == s[i := Touched(s[i], TouchOf(op))]
            case None =>
              Next(s, op) == if op.Ingest? && IndexOf(s, op.newID).None?
                             then s + [NewAlert(op.r, op.evs, op.o, op.newID, op.now)] else s
  {
    match op
    case Ingest(r, evs, o, newID, now) =>
    case Request(id, e, actor, now) =>
      match IndexOf(s, id)
      case None =>
      case Some(i) => assert s[i := s[i]] == s;
  }

  lemma BirthStaysLive(s: seq<AlertData>, bs: seq<Biography>, r: Rule, evs: seq<EventData>, o: Outcome, id: string, now: Time)
    requires Live(s, bs) && evs != []
    ensures Live(s + [NewAlert(r, evs, o, id, now)], bs + [Biography(r, evs, o, id, now, [])])
  {
  }

  lemma StepStaysLive(s: seq<AlertData>, bs: seq<Biography>, op: Op)
    requires op.Ingest? ==> op.evs != []
    requires Live(s, bs)
    ensures Live(Next(s, op), BiographiesNext(s, bs, op))
  {
    NextByAim(s, op);
    match Aim(s, op)
    case Some(i) => TouchStaysLive(s, bs, i, TouchOf(op));
    case None =>
      if op.Ingest? && IndexOf(s, op.newID).None? {
        BirthStaysLive(s, bs, op.r, op.evs, op.o, op.newID, op.now);
      }
  }

  lemma {:induction false} RunsStayLive(ops: Calls)
    ensures Live(Run(ops), Biographies(ops))
  {
    if ops != [] {
      RunsStayLive(ops[..|ops| - 1]);
      StepStaysLive(Run(ops[..|ops| - 1]), Biographies(ops[..|ops| - 1]), ops[|ops| - 1]);
    }
  }

  /** Every alert of a reachable store is the outcome of its own biography: calls aimed at other
      alerts never reach it. */
  lemma AlertsLiveTheirBiographies(ops: Calls, i: nat)
    requires i < |Run(ops)|
    ensures Run(ops)[i] == Biographies(ops)[i].Alert()
  {
    RunsStayLive(ops);
  }

  // ---- the audit trail ----

  predicate LegalMove(action: ActionType, from: Status, to: Status) {
    match action
    case AssignAction => from != Resolved && to == (if from == Open then Assigned else from)
    case Start => from != Resolved && to != Resolved
    case Mitigate | Resolve | FalsePositive => to == Resolved
    case Investigate | Acknowledge | Respond | BlockIP | Whitelist | Comment => to == from
    case _ => false
  }

  /** Follows a log from OPEN; fails at the first entry that is out of place or not allowed. */
  function Replay(log: seq<ActionLog>): Option<Status> {
    if log == [] then Some(Open)
    else
      var entry := log[|log| - 1];
      if Replay(log[..|log| - 1]) == Some(entry.from) && LegalMove(entry.action, entry.from, entry.to)
      then Some(entry.to) else None
  }

  predicate Audited(l: Lifecycle) {
    Replay(l.actions) == Some(l.status) && (l.status == Assigned ==> l.assignee != "")
  }

  lemma EditIsAudited(l: Lifecycle, e: Alerts.Edit, actor: string, now: Time)
    requires Audited(l) && Edited(l, e, actor, now).Ok?
    ensures Audited(Edited(l, e, actor, now).value)
    ensures |Edited(l, e, actor, now).value.actions| == |l.actions| + 1
    ensures l.actions <= Edited(l, e, actor, now).value.actions
  {
    var next := Edited(l, e, actor, now).value;
    assert next.actions[..|next.actions| - 1] == l.actions;
    if e.Assign? {
      assert |"assigned to " + e.assignee| >= 0;
    }
  }

  lemma {:induction false} LivedIsAudited(a: AlertData, ts: Touches)
    requires Audited(a.life)
    ensures Audited(Lived(a, ts).life)
  {
    if ts != [] {
      var before := Lived(a, ts[..|ts| - 1]);
      LivedIsAudited(a, ts[..|ts| - 1]);
      match ts[|ts| - 1]
      case Merge(r, evs, o) =>
      case Edit(e, actor, now) =>
        if Edited(before.life, e, actor, now).Ok? {
          EditIsAudited(before.life, e, actor, now);
        }
    }
  }

  /** Replaying the action log of any reachable alert from OPEN succeeds and ends in its status,
      and an assigned alert has an assignee. */
  lemma LogReplaysToStatus(ops: Calls, i: nat)
    requires i < |Run(ops)|
    ensures Audited(Run(ops)[i].life)
  {
    AlertsLiveTheirBiographies(ops, i);
    var b := Biographies(ops)[i];
    LivedIsAudited(NewAlert(b.r, b.evs, b.o, b.id, b.born), b.touches);
  }

  /** What a replayable log looks like from inside: it starts at OPEN, every entry starts where the
      one before it ended, every move is allowed, and nothing leaves RESOLVED. */
  lemma {:induction false} ReplayedLogsConnect(log: seq<ActionLog>)
    requires Replay(log).Some?
    ensures log != [] ==> log[0].from == Open && log[|log| - 1].to == Replay(log).value
    ensures forall i | 0 < i < |log| :: log[i].from == log[i - 1].to
    ensures forall i | 0 <= i < |log| :: LegalMove(log[i].action, log[i].from, log[i].to)
    ensures forall i | 0 <= i < |log| && log[i].from == Resolved :: log[i].to == Resolved
  {
    if log != [] {
      var front, last := log[..|log| - 1], log[|log| - 1];
      ReplayedLogsConnect(front);
      forall i | 0 <= i < |log|
        ensures LegalMove(log[i].action, log[i].from, log[i].to)
        ensures i > 0 ==> log[i].from == log[i - 1].to
      {
        if i < |front| {
          assert front[i] == log[i];
          if i > 0 {
            assert front[i - 1] == log[i - 1];
          }
        }
      }
    }
  }

  function Progress(s: Status): nat {
    match s
    case Open => 0
    case Assigned => 1
    case InProgress => 2
    case Resolved => 3
  }

  /** An accepted edit takes an alert back in the order OPEN, ASSIGNED, IN_PROGRESS, RESOLVED exactly when it
      sets a status below the current one. */
  lemma GoesBackExactlyWhen(l: Lifecycle, e: Alerts.Edit, actor: string, now: Time)
    requires Edited(l, e, actor, now).Ok?
    ensures Progress(Edited(l, e, actor, now).value.status) < Progress(l.status)
            <==> e.SetStatus? && e.requested.Some? && Progress(e.requested.value) < Progress(l.status)
  {
  }

  /** A run that takes an alert back: raised, put in progress, and reopened. */
  function BackAndForth(r: Rule, evs: seq<EventData>, o: Outcome): Calls
    requires evs != []
  {
    [Ingest(r, evs, o, "id", 0), Request("id", SetStatus(Some(InProgress)), "", 1), Request("id", SetStatus(Some(Open)), "", 2)]
  }

  lemma AlertsCanGoBack(r: Rule, evs: seq<EventData>, o: Outcome)
    requires evs != []
    ensures var ops := BackAndForth(r, evs, o);
            && |Run(ops[..2])| == 1 && Run(ops[..2])[0].life.status == InProgress
            && |Run(ops)| == 1 && Run(ops)[0].life.status == Open
  {
    var ops := BackAndForth(r, evs, o);
    var a := NewAlert(r, evs, o, "id", 0);
    assert ops[..2][..1] == ops[..1] && ops[..1][..0] == [];
    assert Run(ops[..1]) == Next([], ops[0]) == [a];
    assert Run(ops[..2]) == Next([a], ops[1]);
    var b := Run(ops[..2])[0];
    assert b.life.status == InProgress && b.who.id == "id";
    assert Run(ops) == Next([b], ops[2]);
  }

  /** What a request is logged as. */
  function ActionOf(e: Alerts.Edit): ActionType {
    match e
    case Assign(_) => AssignAction
    case SetStatus(_) => Start
    case Act(action, _) => action
  }

  function NoteOf(e: Alerts.Edit): string {
    match e
    case Assign(assignee) => "assigned to " + assignee
    case SetStatus(_) => ""
    case Act(_, note) => note
  }

  /** `b` is `a` with one more entry in its log, which records who asked for what and when, and the change of status. */
  predicate OneEntryLater(a: AlertData, b: AlertData, e: Alerts.Edit, actor: string, now: Time) {
    && b.who == a.who && b.evidence == a.evidence
    && b.life.actions == a.life.actions + [ActionLog(now, actor, ActionOf(e), NoteOf(e), a.life.status, b.life.status)]
  }

  /** The alert of that identifier has one more entry, and no other alert has changed. */
  ghost predicate OneAlertLater(s: seq<AlertData>, t: seq<AlertData>, k: nat, id: string, e: Alerts.Edit, actor: string, now: Time) {
    && k < |s| && |t| == |s| && s[k].who.id == id && OneEntryLater(s[k], t[k], e, actor, now)
    && forall j | 0 <= j < |s| && j != k :: t[j] == s[j]
  }

  /** A refused request leaves every alert, and so every log, as it was; an accepted one adds one entry
      to the log of the alert it names, and it is refused for want of the alert exactly when there is none. */
  lemma RequestsAddOneEntry(s: seq<AlertData>, id: string, e: Alerts.Edit, actor: string, now: Time)
    ensures var (t, answer) := EditNext(s, id, e, actor, now);
            && (answer.Err? ==> t == s)
            && (answer.Ok? ==> exists k: nat :: OneAlertLater(s, t, k, id, e, actor, now) && answer.value == t[k])
            && (answer == Err(NotFound) <==> (forall j | 0 <= j < |s| :: s[j].who.id != id) && !(e.Assign? && e.assignee == ""))
  {
    IndexOfIsFirst(s, id);
    var (t, answer) := EditNext(s, id, e, actor, now);
    if answer.Ok? {
      assert OneAlertLater(s, t, IndexOf(s, id).value, id, e, actor, now);
    }
  }

  // ---- times ----

  /** The order of an alert's times, and what being resolved means. */
  predicate Timely(a: AlertData, clock: Time) {
    var l := a.life;
    && a.who.createdAt <= clock
    && (l.respondedAt.Some? ==> a.who.createdAt <= l.respondedAt.value <= clock)
    && (l.resolvedAt.Some? ==> l.respondedAt.Some? && l.respondedAt.value <= l.resolvedAt.value <= clock)
    && (l.status == Resolved <==> l.resolvedAt.Some?)
    && (l.status == Resolved <==> l.resolution.Some?)
  }

  lemma EditIsTimely(a: AlertData, e: Alerts.Edit, actor: string, now: Time, clock: Time)
    requires Timely(a, clock) && clock <= now && Edited(a.life, e, actor, now).Ok?
    ensures Timely(a.(life := Edited(a.life, e, actor, now).value), now)
    ensures a.life.respondedAt.Some? ==> Edited(a.life, e, actor, now).value.respondedAt == a.life.respondedAt
  {
  }

  lemma StepIsTimely(s: seq<AlertData>, op: Op, clock: Time)
    requires op.Ingest? ==> op.evs != []
    requires clock <= op.now && forall i | 0 <= i < |s| :: Timely(s[i], clock)
    ensures forall i | 0 <= i < |Next(s, op)| :: Timely(Next(s, op)[i], op.now)
    ensures forall i | 0 <= i < |s| && s[i].life.respondedAt.Some? ::
              Next(s, op)[i].life.respondedAt == s[i].life.respondedAt && Next(s, op)[i].who == s[i].who
  {
    forall i | 0 <= i < |s| ensures Timely(s[i], op.now) { }
    if op.Request? {
      IndexOfIsFirst(s, op.id);
      match IndexOf(s, op.id)
      case None =>
      case Some(i) =>
        if Edited(s[i].life, op.edit, op.actor, op.now).Ok? {
          EditIsTimely(s[i], op.edit, op.actor, op.now, clock);
        }
    }
  }

  /** With a clock that never runs backwards, every reachable alert is created, responded to and resolved
      in that order, and is RESOLVED exactly when it has a resolution and a resolution time. */
  lemma {:induction false} TimesAreOrdered(ops: Calls, clock: Time)
    requires InOrder(ops) && forall i | 0 <= i < |ops| :: ops[i].now <= clock
    ensures forall i | 0 <= i < |Run(ops)| :: Timely(Run(ops)[i], clock)
  {
    if ops != [] {
      var front, op := ops[..|ops| - 1], ops[|ops| - 1];
      TimesAreOrdered(front, op.now);
      StepIsTimely(Run(front), op, op.now);
    }
  }

  /** The alert at a position has the response time and the identity it had before. */
  predicate SameResponse(s: seq<AlertData>, t: seq<AlertData>, i: nat) {
    && i < |s| && i < |t| && t[i].who == s[i].who
    && s[i].life.respondedAt.Some? && t[i].life.respondedAt == s[i].life.respondedAt
    && t[i].ResponseTime() == s[i].ResponseTime()
  }

  /** A response time, once taken, is never changed by a later call. */
  lemma {:induction false} SamplesNeverChange(ops: Calls, k: nat, i: nat)
    requires k <= |ops| && i < |Run(ops[..k])| && Run(ops[..k])[i].life.respondedAt.Some?
    ensures SameResponse(Run(ops[..k]), Run(ops), i)
    decreases |ops|
  {
    if k == |ops| {
      assert ops[..k] == ops;
    } else {
      var front, op := ops[..|ops| - 1], ops[|ops| - 1];
      assert front[..k] == ops[..k];
      SamplesNeverChange(front, k, i);
      RespondedOnce(Run(front), op, i);
      SameResponseTwice(Run(ops[..k]), Run(front), Run(ops), i);
    }
  }

  lemma SameResponseTwice(s: seq<AlertData>, t: seq<AlertData>, u: seq<AlertData>, i: nat)
    requires SameResponse(s, t, i) && SameResponse(t, u, i)
    ensures SameResponse(s, u, i)
  {
  }

  lemma RespondedOnce(s: seq<AlertData>, op: Op, i: nat)
    requires op.Ingest? ==> op.evs != []
    requires i < |s| && s[i].life.respondedAt.Some?
    ensures SameResponse(s, Next(s, op), i)
  {
  }

  lemma OneMore(n: int, x: int)
    ensures (n + 1) * x == n * x + x
  {
  }

  lemma {:induction false} MeanWithin(ts: seq<int>, lo: int, hi: int)
    requires forall t | t in ts :: lo <= t <= hi
    ensures |ts| * lo <= Sum(ts) <= |ts| * hi
  {
    if ts != [] {
      var front := ts[..|ts| - 1];
      forall t | t in front ensures lo <= t <= hi {
        assert t in ts;
      }
      MeanWithin(front, lo, hi);
      OneMore(|front|, lo);
      OneMore(|front|, hi);
      assert |ts| == |front| + 1 && ts[|ts| - 1] in ts;
      assert |ts| * lo == |front| * lo + lo && |ts| * hi == |front| * hi + hi;
    }
  }

  lemma DivideWithin(sum: int, n: int, lo: int, hi: int)
    requires n > 0 && n * lo <= sum <= n * hi
    ensures lo <= sum / n <= hi
  {
    var q := sum / n;
    assert sum == n * q + sum % n;
    assert q < lo ==> n * (q + 1) <= n * lo;
    assert q > hi ==> n * q >= n * (hi + 1);
  }

  lemma QuotientWithin(sum: int, n: int, lo: int, hi: int)
    requires n > 0 && 0 <= lo && n * lo <= sum <= n * hi
    ensures lo <= Quotient(sum, n) <= hi
  {
    assert n * lo >= 0;
    DivideWithin(sum, n, lo, hi);
  }

  lemma {:induction false} Extremes(ts: seq<int>) returns (lo: int, hi: int)
    requires ts != []
    ensures lo in ts && hi in ts && forall t | t in ts :: lo <= t <= hi
  {
    lo, hi := ts[0], ts[0];
    if |ts| > 1 {
      lo, hi := Extremes(ts[1..]);
      assert ts == [ts[0]] + ts[1..];
      lo, hi := if ts[0] < lo then ts[0] else lo, if ts[0] > hi then ts[0] else hi;
    }
  }

  lemma {:induction false} SamplesAreResponses(s: seq<AlertData>, clock: Time)
    requires forall i | 0 <= i < |s| :: Timely(s[i], clock)
    ensures forall t | t in ResponseTimes(s) :: t >= 0
  {
    if s != [] {
      SamplesAreResponses(s[..|s| - 1], clock);
    }
  }

  /** The mean response time of a reachable store lies between its smallest and its largest sample. */
  lemma MeanIsBetweenSamples(ops: Calls, clock: Time)
    requires InOrder(ops) && forall i | 0 <= i < |ops| :: ops[i].now <= clock
    requires ResponseTimes(Run(ops)) != []
    ensures exists lo, hi :: lo in ResponseTimes(Run(ops)) && hi in ResponseTimes(Run(ops))
              && 0 <= lo <= MeanResponse(Run(ops)).0 <= hi
    ensures MeanResponse(Run(ops)).1 == |ResponseTimes(Run(ops))|
  {
    var ts := ResponseTimes(Run(ops));
    TimesAreOrdered(ops, clock);
    SamplesAreResponses(Run(ops), clock);
    var lo, hi := Extremes(ts);
    MeanWithin(ts, lo, hi);
    QuotientWithin(Sum(ts), |ts|, lo, hi);
  }

  lemma NonNegativeSum(ts: seq<int>)
    requires forall t | t in ts :: t >= 0
    ensures Sum(ts) >= 0
  {
    if ts != [] {
      var front := ts[..|ts| - 1];
      assert ts[|ts| - 1] in ts && forall t | t in front :: t in ts;
      NonNegativeSum(front);
    }
  }

  /** It is their sum over their number, cut to a whole. */
  lemma MeanIsTruncated(ops: Calls, clock: Time)
    requires InOrder(ops) && forall i | 0 <= i < |ops| :: ops[i].now <= clock
    requires ResponseTimes(Run(ops)) != []
    ensures IsTruncation(MeanResponse(Run(ops)).0, Sum(ResponseTimes(Run(ops))), |ResponseTimes(Run(ops))|)
  {
    TimesAreOrdered(ops, clock);
    SamplesAreResponses(Run(ops), clock);
    MeanTruncates(Run(ops));
  }

  predicate IsTruncation(mean: int, sum: int, n: int) { n * mean <= sum < n * (mean + 1) }

  lemma MeanTruncates(s: seq<AlertData>)
    requires ResponseTimes(s) != [] && forall t | t in ResponseTimes(s) :: t >= 0
    ensures IsTruncation(MeanResponse(s).0, Sum(ResponseTimes(s)), |ResponseTimes(s)|)
  {
    NonNegativeSum(ResponseTimes(s));
    Truncates(Sum(ResponseTimes(s)), |ResponseTimes(s)|);
  }

  lemma Truncates(sum: int, n: int)
    requires n > 0 && sum >= 0
    ensures IsTruncation(Quotient(sum, n), sum, n)
  {
    var q := sum / n;
    assert sum == n * q + sum % n;
    assert n * (q + 1) == n * q + n;
  }

  // ---- merged evidence ----

  /** The identifier batches that ever reached an alert: the first, then one a merge. */
  function Batches(first: seq<string>, ts: seq<Touch>): seq<seq<string>> {
    if ts == [] then [first]
    else Batches(first, ts[..|ts| - 1]) + (if ts[|ts| - 1].Merge? then [IDsOf(ts[|ts| - 1].evs)] else [])
  }

  function Merges(ts: seq<Touch>): nat {
    if ts == [] then 0 else Merges(ts[..|ts| - 1]) + (if ts[|ts| - 1].Merge? then 1 else 0)
  }

  /** The outcomes that reached an alert, in order. */
  function Outcomes(first: Outcome, ts: seq<Touch>): seq<Outcome> {
    if ts == [] then [first]
    else Outcomes(first, ts[..|ts| - 1]) + (if ts[|ts| - 1].Merge? then [ts[|ts| - 1].o] else [])
  }

  /** The greatest value of a measure over outcomes. */
  ghost predicate IsGreatest(value: nat, os: seq<Outcome>, f: Outcome -> nat) {
    (forall o | o in os :: f(o) <= value) && exists o :: o in os && f(o) == value
  }

  ghost function BlockedIn(): Outcome -> nat { (o: Outcome) => o.blocked }

  ghost function PathsIn(): Outcome -> nat { (o: Outcome) => o.uniquePaths }

  ghost function AssetsIn(): Outcome -> nat { (o: Outcome) => o.distinctAssets }

  lemma {:induction false} EventIDsClosedForm(a: AlertData, ts: Touches)
    ensures var ids := Lived(a, ts).evidence.eventIDs;
            if Merges(ts) == 0 then ids == a.evidence.eventIDs
            else ids == LastN(Flatten(Batches(a.evidence.eventIDs, ts)), MAX_EVENT_IDS)
    ensures Merges(ts) == 0 ==> Batches(a.evidence.eventIDs, ts) == [a.evidence.eventIDs]
  {
    if ts != [] {
      var front, t := ts[..|ts| - 1], ts[|ts| - 1];
      EventIDsClosedForm(a, front);
      if t.Merge? {
        var batches, ids := Batches(a.evidence.eventIDs, front), IDsOf(t.evs);
        FlattenSnoc(batches, ids);
        LastNAppend(Flatten(batches), ids, MAX_EVENT_IDS);
        var before := Lived(a, front).evidence;
        assert Lived(a, ts).evidence.eventIDs == LastN(before.eventIDs + ids, MAX_EVENT_IDS);
        assert Batches(a.evidence.eventIDs, ts) == batches + [ids];
        assert Flatten(Batches(a.evidence.eventIDs, ts)) == Flatten(batches) + ids;
        if Merges(front) == 0 {
          assert batches[1..] == [] && batches[0] + [] == batches[0];
          assert Flatten(batches) == a.evidence.eventIDs;
        }
      } else {
        assert Batches(a.evidence.eventIDs, ts) == Batches(a.evidence.eventIDs, front);
      }
    }
  }

  lemma {:induction false} ConfidenceClosedForm(a: AlertData, ts: Touches)
    ensures Lived(a, ts).evidence.confidence
            == if Merges(ts) == 0 then a.evidence.confidence
               else Min(MAX_CONFIDENCE, a.evidence.confidence + CONFIDENCE_STEP * Merges(ts) as real)
  {
    if ts != [] {
      ConfidenceClosedForm(a, ts[..|ts| - 1]);
    }
  }

  lemma GreatestSnoc(value: nat, os: seq<Outcome>, o: Outcome, f: Outcome -> nat)
    requires IsGreatest(value, os, f)
    ensures IsGreatest(MaxInt(value, f(o)), os + [o], f)
  {
    var w :| w in os && f(w) == value;
    assert w in os + [o] && o in os + [o];
  }

  /** The three maxima are the greatest over the outcomes, and the count is the latest. */
  ghost predicate TellsOutcomes(e: Evidence, os: seq<Outcome>) {
    && IsGreatest(e.blockedCount, os, BlockedIn())
    && IsGreatest(e.uniquePaths, os, PathsIn())
    && IsGreatest(e.distinctAssets, os, AssetsIn())
    && os != [] && e.count == os[|os| - 1].count
  }

  lemma OutcomeJoins(e: Evidence, os: seq<Outcome>, o: Outcome)
    requires TellsOutcomes(e, os)
    ensures TellsOutcomes(WithOutcome(e, o), os + [o])
  {
    GreatestSnoc(e.blockedCount, os, o, BlockedIn());
    GreatestSnoc(e.uniquePaths, os, o, PathsIn());
    GreatestSnoc(e.distinctAssets, os, o, AssetsIn());
  }

  lemma FirstOutcome(e: Evidence, o: Outcome)
    requires e.blockedCount == 0 && e.uniquePaths == 0 && e.distinctAssets == 0
    ensures TellsOutcomes(WithOutcome(e, o), [o])
  {
    assert o in [o];
  }

  lemma MergeJoins(e: Evidence, r: Rule, evs: seq<EventData>, o: Outcome, os: seq<Outcome>)
    requires evs != [] && TellsOutcomes(e, os)
    ensures TellsOutcomes(Merged(e, r, evs, o), os + [o])
  {
    OutcomeJoins(e, os, o);
  }

  lemma {:induction false} MaximaClosedForm(a: AlertData, o: Outcome, ts: Touches)
    requires TellsOutcomes(a.evidence, [o])
    ensures TellsOutcomes(Lived(a, ts).evidence, Outcomes(o, ts))
  {
    if ts != [] {
      var front, t := ts[..|ts| - 1], ts[|ts| - 1];
      MaximaClosedForm(a, o, front);
      if t.Merge? {
        MergeJoins(Lived(a, front).evidence, t.r, t.evs, t.o, Outcomes(o, front));
      }
    }
  }

  /** The identifiers: those of the first batch or, once merged, the last 200 of all batches. */
  ghost predicate TellsIDs(e: Evidence, b: Biography) {
    e.eventIDs == if Merges(b.touches) == 0 then IDsOf(b.evs)
                  else LastN(Flatten(Batches(IDsOf(b.evs), b.touches)), MAX_EVENT_IDS)
  }

  /** The confidence: the rule's, grown by a step a merge up to the cap. */
  ghost predicate TellsConfidence(e: Evidence, b: Biography) {
    e.confidence == if Merges(b.touches) == 0 then b.r.confidence
                    else Min(MAX_CONFIDENCE, b.r.confidence + CONFIDENCE_STEP * Merges(b.touches) as real)
  }

  /** The events of the latest batch. */
  function LatestBatch(first: seq<EventData>, ts: seq<Touch>): seq<EventData> {
    if ts == [] then first
    else if ts[|ts| - 1].Merge? then ts[|ts| - 1].evs
    else LatestBatch(first, ts[..|ts| - 1])
  }

  /** The location of the first event of the latest batch whose first event has one, or that of the first batch. */
  function LatestGeo(first: Option<Geo>, ts: seq<Touch>): Option<Geo> {
    if ts == [] then first
    else
      var t := ts[|ts| - 1];
      if t.Merge? && t.evs != [] && t.evs[0].geo.Some? && (t.evs[0].geo.value.countryCode != "" || t.evs[0].geo.value.asn != "")
      then t.evs[0].geo else LatestGeo(first, ts[..|ts| - 1])
  }

  /** The severities of the rules that reached an alert. */
  function Severities(first: Severity, ts: seq<Touch>): seq<Severity> {
    if ts == [] then [first]
    else Severities(first, ts[..|ts| - 1]) + (if ts[|ts| - 1].Merge? then [ts[|ts| - 1].r.severity] else [])
  }

  /** Last seen, asset, address and location are those of the latest batch. */
  ghost predicate TellsLatest(e: Evidence, evs: seq<EventData>, geo: Option<Geo>) {
    && evs != [] && e.lastSeenAt == evs[|evs| - 1].timestamp
    && e.asset == evs[0].asset && e.srcIP == evs[0].srcIP && e.geo == geo
  }

  /** The severity is the worst among the rules'. */
  ghost predicate TellsSeverity(e: Evidence, vs: seq<Severity>) {
    e.severity in vs && forall v | v in vs :: Rank(v) <= Rank(e.severity)
  }

  /** The evidence an alert must show, told by the batches and outcomes that reached it. */
  ghost predicate TellsHistory(e: Evidence, b: Biography) {
    && TellsIDs(e, b) && TellsConfidence(e, b) && TellsOutcomes(e, Outcomes(b.o, b.touches))
    && b.evs != [] && TellsLatest(e, LatestBatch(b.evs, b.touches), LatestGeo(b.evs[0].geo, b.touches))
    && TellsSeverity(e, Severities(b.r.severity, b.touches))
  }

  lemma {:induction false} LatestClosedForm(a: AlertData, evs: seq<EventData>, geo: Option<Geo>, ts: Touches)
    requires TellsLatest(a.evidence, evs, geo)
    ensures TellsLatest(Lived(a, ts).evidence, LatestBatch(evs, ts), LatestGeo(geo, ts))
  {
    if ts != [] {
      LatestClosedForm(a, evs, geo, ts[..|ts| - 1]);
    }
  }

  lemma SeverityJoins(e: Evidence, r: Rule, evs: seq<EventData>, o: Outcome, vs: seq<Severity>)
    requires evs != [] && TellsSeverity(e, vs)
    ensures TellsSeverity(Merged(e, r, evs, o), vs + [r.severity])
  {
    assert forall v :: v in vs + [r.severity] <==> v in vs || v == r.severity;
  }

  lemma {:induction false} SeverityClosedForm(a: AlertData, first: Severity, ts: Touches)
    requires TellsSeverity(a.evidence, [first])
    ensures TellsSeverity(Lived(a, ts).evidence, Severities(first, ts))
  {
    if ts != [] {
      var front, t := ts[..|ts| - 1], ts[|ts| - 1];
      SeverityClosedForm(a, first, front);
      if t.Merge? {
        SeverityJoins(Lived(a, front).evidence, t.r, t.evs, t.o, Severities(first, front));
      }
    }
  }

  lemma LatestTellHistory(b: Biography)
    requires b.Valid()
    ensures TellsLatest(b.Alert().evidence, LatestBatch(b.evs, b.touches), LatestGeo(b.evs[0].geo, b.touches))
    ensures TellsSeverity(b.Alert().evidence, Severities(b.r.severity, b.touches))
  {
    var a := NewAlert(b.r, b.evs, b.o, b.id, b.born);
    LatestClosedForm(a, b.evs, b.evs[0].geo, b.touches);
    SeverityClosedForm(a, b.r.severity, b.touches);
  }

  // ---- who reaches an alert ----

  /** The alert is what its biography was born as, and every detection that ever merged into it was of its own
      rule and key. */
  ghost predicate OwnBiography(a: AlertData, b: Biography) {
    && b.evs != []
    && a.who == Identity(b.id, b.r.id, b.r.key(b.evs[0]), b.r.name, b.r.mitre, b.evs[0].timestamp, b.born)
    && forall k | 0 <= k < |b.touches| && b.touches[k].Merge? ::
         b.touches[k].evs != [] && b.touches[k].r.id == a.who.ruleID && b.touches[k].r.key(b.touches[k].evs[0]) == a.who.ruleKey
  }

  lemma TouchKeepsOwn(a: AlertData, b: Biography, t: Touch)
    requires OwnBiography(a, b)
    requires t.Merge? ==> t.evs != [] && t.r.id == a.who.ruleID && t.r.key(t.evs[0]) == a.who.ruleKey
    ensures OwnBiography(Touched(a, t), TouchBio(b, t))
  {
  }

  ghost predicate AllOwn(s: seq<AlertData>, bs: seq<Biography>) {
    |bs| == |s| && AllValid(bs) && forall i | 0 <= i < |s| :: OwnBiography(s[i], bs[i])
  }

  lemma StepKeepsOwn(s: seq<AlertData>, bs: seq<Biography>, op: Op)
    requires (op.Ingest? ==> op.evs != []) && AllOwn(s, bs)
    ensures AllOwn(Next(s, op), BiographiesNext(s, bs, op))
  {
    NextByAim(s, op);
    match Aim(s, op)
    case Some(i) =>
      if op.Ingest? {
        FirstOpenIsFirst(s, op.r.id, op.r.key(op.evs[0]));
      }
      TouchKeepsOwn(s[i], bs[i], TouchOf(op));
    case None =>
  }

  lemma {:induction false} RunsKeepOwn(ops: Calls)
    ensures AllOwn(Run(ops), Biographies(ops))
  {
    if ops != [] {
      RunsKeepOwn(ops[..|ops| - 1]);
      StepKeepsOwn(Run(ops[..|ops| - 1]), Biographies(ops[..|ops| - 1]), ops[|ops| - 1]);
    }
  }

  /** An alert says of itself what the detection that raised it said, and every detection that has merged into
      it was by the same rule and of the same key. */
  lemma OnlyOwnDetectionsMerge(ops: Calls, i: nat)
    requires i < |Run(ops)|
    ensures OwnBiography(Run(ops)[i], Biographies(ops)[i])
  {
    RunsKeepOwn(ops);
  }

  lemma IDsTellHistory(b: Biography)
    requires b.Valid()
    ensures TellsIDs(b.Alert().evidence, b)
  {
    var a := NewAlert(b.r, b.evs, b.o, b.id, b.born);
    assert a.evidence.eventIDs == IDsOf(b.evs);
    EventIDsClosedForm(a, b.touches);
  }

  lemma ConfidenceTellsHistory(b: Biography)
    requires b.Valid()
    ensures TellsConfidence(b.Alert().evidence, b)
  {
    ConfidenceClosedForm(NewAlert(b.r, b.evs, b.o, b.id, b.born), b.touches);
  }

  lemma OutcomesTellHistory(b: Biography)
    requires b.Valid()
    ensures TellsOutcomes(b.Alert().evidence, Outcomes(b.o, b.touches))
  {
    var a := NewAlert(b.r, b.evs, b.o, b.id, b.born);
    FirstOutcome(a.evidence.(count := 0, blockedCount := 0, uniquePaths := 0, distinctAssets := 0), b.o);
    MaximaClosedForm(a, b.o, b.touches);
  }

  /** The evidence of every reachable alert tells its whole history. */
  lemma EvidenceTellsTheWholeHistory(ops: Calls, i: nat)
    requires i < |Run(ops)|
    ensures TellsHistory(Run(ops)[i].evidence, Biographies(ops)[i])
  {
    AlertsLiveTheirBiographies(ops, i);
    IDsTellHistory(Biographies(ops)[i]);
    ConfidenceTellsHistory(Biographies(ops)[i]);
    OutcomesTellHistory(Biographies(ops)[i]);
    LatestTellHistory(Biographies(ops)[i]);
  }

  /** An alert lists more identifiers than the cap exactly when it was never merged and its first batch was
      longer: only merging caps. */
  lemma ExceedsCapExactlyWhen(ops: Calls, i: nat)
    requires i < |Run(ops)|
    ensures |Run(ops)[i].evidence.eventIDs| > MAX_EVENT_IDS
            <==> Merges(Biographies(ops)[i].touches) == 0 && |Biographies(ops)[i].evs| > MAX_EVENT_IDS
  {
    EvidenceTellsTheWholeHistory(ops, i);
  }

  /** The shortest such run: one detection with a long batch. */
  lemma LongBatchIsKept(r: Rule, evs: seq<EventData>, o: Outcome, id: string, now: Time)
    requires |evs| > MAX_EVENT_IDS
    ensures |Run([Ingest(r, evs, o, id, now)])| == 1
    ensures |Run([Ingest(r, evs, o, id, now)])[0].evidence.eventIDs| > MAX_EVENT_IDS
  {
    var ops := [Ingest(r, evs, o, id, now)];
    assert ops[..0] == [];
    assert Run(ops) == Next([], ops[0]) == [NewAlert(r, evs, o, id, now)];
  }
}
