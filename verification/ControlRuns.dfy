/** Whole runs of the control plane: the containment table and the edge table are always in agreement. */
module ControlRuns {
  import opened Common
  import opened Alerts
  import opened Store
  import opened AlertService
  import opened ControlPlane
  import Edge
  import EdgeRuns
  import Lifecycle
  import C = Containment

  /** One handler call, or what detection and triage make of the alerts in between. `Look` and `List` change
      nothing but lazy labels. */
  datatype Op =
    | Deploy(r: C.Request, suffix: string, now: Time)
    | Contain(ids: seq<string>, r: C.Request, suffixes: nat -> string, actor: string, now: Time)
    | Revoke(id: string, now: Time)
    | Look(id: string, now: Time)
    | List(targetIP: string, now: Time)
    | Refresh(alerts: seq<AlertData>, now: Time)

  function Next(p: Plane, op: Op): Plane {
    match op
    case Deploy(r, suffix, now) => DeployNext(p, r, suffix, now)
    case Contain(ids, r, suffixes, actor, now) => ContainNext(p, ids, r, suffixes, actor, now)
    case Revoke(id, now) => RevokeNext(p, id, now)
    case Look(id, now) => p.(items := C.GetNext(p.items, id, now))
    case List(targetIP, now) => p.(items := C.ListNext(p.items, targetIP, now))
    case Refresh(alerts, now) => p.(alerts := alerts)
  }

  /** A run from empty tables. */
  function Run(ops: seq<Op>): Plane {
    if ops == [] then EMPTY else Next(Run(ops[..|ops| - 1]), ops[|ops| - 1])
  }

  ghost predicate InOrder(ops: seq<Op>) {
    forall i, j | 0 <= i < j < |ops| :: ops[i].now <= ops[j].now
  }

  // ---- agreement ----

  /** The policy that enforces a control, as the edge stores it. */
  function Enforcing(c: C.Control): Edge.Policy { Edge.Normalized(PolicyFor(c)) }

  ghost predicate PolicyHasControl(items: C.Items, id: string, policy: Edge.Policy, clock: Time) {
    && id in items && policy == Enforcing(items[id]) && items[id].status != C.Revoked
    && (items[id].status == C.Lapsed ==> Edge.Expired(policy, clock))
  }

  ghost predicate Sound(c: C.Control, id: string) {
    c.id == id && C.ID_PREFIX <= id && c.targetIP != "" && !c.kind.UnknownType?
  }

  /** Every policy enforces its control, and every control still labelled active has its policy. */
  ghost predicate Agree(p: Plane, clock: Time) {
    && (forall id | id in p.policies :: PolicyHasControl(p.items, id, p.policies[id], clock))
    && (forall id | id in p.items :: Sound(p.items[id], id) && (p.items[id].status == C.Active ==> id in p.policies))
  }

  lemma AgreeLater(p: Plane, clock: Time, later: Time)
    requires Agree(p, clock) && clock <= later
    ensures Agree(p, later)
  {
    forall id | id in p.policies ensures PolicyHasControl(p.items, id, p.policies[id], later) {
      assert PolicyHasControl(p.items, id, p.policies[id], clock);
    }
  }

  lemma PrefixedSuffix(suffix: string)
    ensures C.ID_PREFIX <= C.ID_PREFIX + suffix
  {
  }

  lemma ControlKeepsAgreement(p: Plane, r: C.Request, suffix: string, now: Time)
    requires Agree(p, now)
    ensures Agree(ControlNext(p, r, suffix, now), now)
  {
    PrefixedSuffix(suffix);
    if C.Refusal(r).None? {
      var c := C.NewControl(r, C.ID_PREFIX + suffix, now);
      var q := ControlNext(p, r, suffix, now);
      forall id | id in q.policies ensures PolicyHasControl(q.items, id, q.policies[id], now) {
        if id != c.id {
          assert PolicyHasControl(p.items, id, p.policies[id], now);
        }
      }
    }
  }

  lemma {:induction false} SweepKeepsAgreement(p: Plane, ids: seq<string>, r: C.Request, suffixes: nat -> string, actor: string, now: Time)
    requires Agree(p, now)
    ensures Agree(SweepOver(p, ids, r, suffixes, actor, now).plane, now)
  {
    if ids != [] {
      var front := ids[..|ids| - 1];
      SweepKeepsAgreement(p, front, r, suffixes, actor, now);
      var w := SweepOver(p, front, r, suffixes, actor, now);
      match AddressOf(w.plane.alerts, ids[|ids| - 1])
      case None =>
      case Some(address) => ControlKeepsAgreement(w.plane, Aimed(r, address), suffixes(|ids| - 1), now);
    }
  }

  lemma RevokeKeepsAgreement(p: Plane, id: string, now: Time)
    requires Agree(p, now)
    ensures Agree(RevokeNext(p, id, now), now)
  {
    var q := RevokeNext(p, id, now);
    forall jd | jd in q.policies ensures PolicyHasControl(q.items, jd, q.policies[jd], now) {
      assert PolicyHasControl(p.items, jd, p.policies[jd], now);
    }
  }

  lemma LabelsKeepAgreement(p: Plane, items: C.Items, now: Time)
    requires Agree(p, now) && items.Keys == p.items.Keys
    requires forall id | id in items :: items[id] == p.items[id] || items[id] == C.Resolved(p.items[id], now)
    ensures Agree(p.(items := items), now)
  {
    forall id | id in p.policies ensures PolicyHasControl(items, id, p.policies[id], now) {
      assert PolicyHasControl(p.items, id, p.policies[id], now);
    }
  }

  lemma StepKeepsAgreement(p: Plane, op: Op, clock: Time)
    requires Agree(p, clock) && clock <= op.now
    ensures Agree(Next(p, op), op.now)
  {
    AgreeLater(p, clock, op.now);
    match op
    case Deploy(r, suffix, now) => ControlKeepsAgreement(p, r, suffix, now);
    case Contain(ids, r, suffixes, actor, now) => SweepKeepsAgreement(p, ids, r, suffixes, actor, now);
    case Revoke(id, now) => RevokeKeepsAgreement(p, id, now);
    case Look(id, now) => LabelsKeepAgreement(p, C.GetNext(p.items, id, now), now);
    case List(targetIP, now) => LabelsKeepAgreement(p, C.ListNext(p.items, targetIP, now), now);
    case Refresh(alerts, now) =>
  }

  lemma {:induction false} RunsAgree(ops: seq<Op>, clock: Time)
    requires InOrder(ops) && forall i | 0 <= i < |ops| :: ops[i].now <= clock
    ensures Agree(Run(ops), clock)
  {
    if ops != [] {
      var front, op := ops[..|ops| - 1], ops[|ops| - 1];
      RunsAgree(front, op.now);
      StepKeepsAgreement(Run(front), op, op.now);
      AgreeLater(Run(ops), op.now, clock);
    }
  }

  /** The policies the containment table says should be in force at a moment. */
  function InForce(items: C.Items, now: Time): map<string, Edge.Policy> {
    map id | id in items && C.Resolved(items[id], now).status == C.Active :: Enforcing(items[id])
  }

  lemma AgreementMeansSameTables(p: Plane, now: Time)
    requires Agree(p, now)
    ensures Edge.ActiveAt(p.policies, now) == InForce(p.items, now)
  {
    forall id | id in Edge.ActiveAt(p.policies, now) ensures id in InForce(p.items, now) && p.policies[id] == Enforcing(p.items[id]) {
      assert PolicyHasControl(p.items, id, p.policies[id], now);
    }
    forall id | id in InForce(p.items, now) ensures id in Edge.ActiveAt(p.policies, now) {
      assert PolicyHasControl(p.items, id, p.policies[id], now);
    }
  }

  /** In every reachable state and at every moment from then on, the controls a listing reports as active
      are exactly the policies the edge has in force: same identifiers, same targets, kinds and expiries,
      however often the lazy re-labelling has run. */
  lemma TablesAgree(ops: seq<Op>, now: Time)
    requires InOrder(ops) && forall i | 0 <= i < |ops| :: ops[i].now <= now
    ensures Edge.ActiveAt(Run(ops).policies, now) == InForce(Run(ops).items, now)
  {
    RunsAgree(ops, now);
    AgreementMeansSameTables(Run(ops), now);
  }

  /** The control is of that type, aims at the address and is in force. */
  predicate Bars(c: C.Control, kind: C.ControlType, ip: string, now: Time) {
    c.kind == kind && c.targetIP == ip && C.Resolved(c, now).status == C.Active
  }

  /** A control of that type is in force against the address. */
  predicate Against(items: C.Items, kind: C.ControlType, ip: string, now: Time) {
    exists id | id in items :: Bars(items[id], kind, ip, now)
  }

  lemma PolicyFollowsControl(p: Plane, id: string, kind: C.ControlType, ip: string, now: Time)
    requires Agree(p, now) && !kind.UnknownType?
    ensures id in p.policies && Edge.Applies(p.policies[id], KindFor(kind), ip, now)
            <==> id in p.items && Bars(p.items[id], kind, ip, now)
  {
    if id in p.policies {
      assert PolicyHasControl(p.items, id, p.policies[id], now);
    }
    if id in p.items {
      assert Sound(p.items[id], id);
    }
  }

  /** What a control in force against an address means at the edge. */
  lemma MatchFollowsControls(p: Plane, kind: C.ControlType, ip: string, now: Time)
    requires Agree(p, now) && !kind.UnknownType?
    ensures Edge.HasMatch(p.policies, KindFor(kind), ip, now) <==> Against(p.items, kind, ip, now)
  {
    forall id ensures id in p.policies && Edge.Applies(p.policies[id], KindFor(kind), ip, now)
                      <==> id in p.items && Bars(p.items[id], kind, ip, now)
    {
      PolicyFollowsControl(p, id, kind, ip, now);
    }
  }

  /** No firewall policy of a reachable plane matches the empty address the edge asks with. */
  lemma FirewallNeverMatches(p: Plane, now: Time)
    requires Agree(p, now)
    ensures !Edge.HasMatch(p.policies, Edge.Waf, "", now)
  {
    forall id | id in p.policies ensures !Edge.Applies(p.policies[id], Edge.Waf, "", now) {
      assert PolicyHasControl(p.items, id, p.policies[id], now);
      assert Sound(p.items[id], id);
    }
  }

  /** What the edge decides for an address, told by the containment table alone: denied under a block in force,
      else rate limited under a rate limit in force, else let through, whatever firewall controls there are. */
  lemma VerdictFollowsControls(ops: seq<Op>, s: Edge.State, ip: string, tags: seq<string>, now: Time, rate: Option<Edge.Policy>)
    requires InOrder(ops) && forall i | 0 <= i < |ops| :: ops[i].now <= now
    requires s.policies == Run(ops).policies && Edge.LegalRate(s.policies, ip, now, rate)
    ensures var d := Edge.Decide(s, ip, tags, now, rate);
            var items := Run(ops).items;
            if Against(items, C.BlockIP, ip, now) then d.Denied?
            else if Against(items, C.RateLimit, ip, now) then d.RateAdmitted? || d.Throttled?
            else d.Unlimited?
  {
    RunsAgree(ops, now);
    MatchFollowsControls(Run(ops), C.BlockIP, ip, now);
    MatchFollowsControls(Run(ops), C.RateLimit, ip, now);
    FirewallNeverMatches(Run(ops), now);
    VerdictByMatch(s, ip, tags, now, rate);
  }

  lemma VerdictByMatch(s: Edge.State, ip: string, tags: seq<string>, now: Time, rate: Option<Edge.Policy>)
    requires Edge.LegalRate(s.policies, ip, now, rate) && !Edge.HasMatch(s.policies, Edge.Waf, "", now)
    ensures var d := Edge.Decide(s, ip, tags, now, rate);
            if Edge.HasMatch(s.policies, Edge.Deny, ip, now) then d.Denied?
            else if Edge.HasMatch(s.policies, Edge.RateLimit, ip, now) then d.RateAdmitted? || d.Throttled?
            else d.Unlimited?
  {
  }

  /** The edge denies or rate limits the address. */
  ghost predicate Enforced(policies: map<string, Edge.Policy>, ip: string, now: Time) {
    Edge.HasMatch(policies, Edge.Deny, ip, now) || Edge.HasMatch(policies, Edge.RateLimit, ip, now)
  }

  predicate BeyondFirewall(items: C.Items, ip: string, now: Time) {
    exists id | id in items :: !items[id].kind.WafRule? && Bars(items[id], items[id].kind, ip, now)
  }

  /** An incident that shows as contained is enforced exactly when some control in force against its address
      is not a firewall rule; an enforced address always shows as contained. */
  lemma ContainedIsEnforcedExactlyWhen(ops: seq<Op>, srcIP: string, now: Time)
    requires InOrder(ops) && forall i | 0 <= i < |ops| :: ops[i].now <= now
    ensures var p := Run(ops);
            && (Enforced(p.policies, srcIP, now) <==> BeyondFirewall(p.items, srcIP, now))
            && (Enforced(p.policies, srcIP, now) ==> Covered(p.items, srcIP, now))
  {
    RunsAgree(ops, now);
    var p := Run(ops);
    MatchFollowsControls(p, C.BlockIP, srcIP, now);
    MatchFollowsControls(p, C.RateLimit, srcIP, now);
    if BeyondFirewall(p.items, srcIP, now) {
      var id :| id in p.items && !p.items[id].kind.WafRule? && Bars(p.items[id], p.items[id].kind, srcIP, now);
      assert Sound(p.items[id], id);
      assert Against(p.items, p.items[id].kind, srcIP, now);
    }
  }

  /** The one kind of control that contains without enforcing: after deploying nothing but a firewall rule,
      the incident shows as contained, and the edge lets even an attack from that address through. */
  lemma FirewallContainsButEnforcesNothing(r: C.Request, suffix: string, now: Time, s: Edge.State, tags: seq<string>)
    requires r.kind.WafRule? && C.Refusal(r).None? && r.duration.Permanent?
    requires s.policies == Run([Deploy(r, suffix, now)]).policies
    ensures Covered(Run([Deploy(r, suffix, now)]).items, r.targetIP, now)
    ensures !Enforced(s.policies, r.targetIP, now)
    ensures Edge.Decide(s, r.targetIP, tags, now, None) == Edge.Unlimited
    ensures Edge.LegalRate(s.policies, r.targetIP, now, None)
  {
    var ops := [Deploy(r, suffix, now)];
    var id := C.ID_PREFIX + suffix;
    assert ops[..0] == [];
    assert Run(ops) == Next(EMPTY, ops[0]);
    var items := Run(ops).items;
    assert items == map[id := C.NewControl(r, id, now)];
    assert id in items && Bars(items[id], C.WafRule, r.targetIP, now);
    ContainedIsEnforcedExactlyWhen(ops, r.targetIP, now);
    VerdictFollowsControls(ops, s, r.targetIP, tags, now, None);
  }

  /** An incident shows as contained exactly when the edge holds an unexpired policy that names its address. */
  lemma ContainedMeansPolicyHeld(ops: seq<Op>, srcIP: string, now: Time)
    requires InOrder(ops) && forall i | 0 <= i < |ops| :: ops[i].now <= now
    ensures var p := Run(ops);
            Covered(p.items, srcIP, now)
            <==> exists id :: id in p.policies && !Edge.Expired(p.policies[id], now) && p.policies[id].targetIP == srcIP
  {
    TablesAgree(ops, now);
    var p := Run(ops);
    if Covered(p.items, srcIP, now) {
      var id :| id in p.items && p.items[id].targetIP == srcIP && C.Resolved(p.items[id], now).status == C.Active;
      assert id in InForce(p.items, now);
      assert id in Edge.ActiveAt(p.policies, now);
      assert p.policies[id] == Edge.ActiveAt(p.policies, now)[id] == Enforcing(p.items[id]);
    }
    if exists id :: id in p.policies && !Edge.Expired(p.policies[id], now) && p.policies[id].targetIP == srcIP {
      var id :| id in p.policies && !Edge.Expired(p.policies[id], now) && p.policies[id].targetIP == srcIP;
      assert id in Edge.ActiveAt(p.policies, now);
      assert id in InForce(p.items, now);
      assert p.policies[id] == InForce(p.items, now)[id];
    }
  }

  /** A revoked control is enforced by nothing, from then on and whatever follows but a new deployment. */
  lemma RevokedIsNotEnforced(ops: seq<Op>, id: string, now: Time)
    requires InOrder(ops) && forall i | 0 <= i < |ops| :: ops[i].now <= now
    requires id in Run(ops).items && Run(ops).items[id].status == C.Revoked
    ensures id !in Run(ops).policies
  {
    RunsAgree(ops, now);
    var p := Run(ops);
    assert forall jd | jd in p.policies :: PolicyHasControl(p.items, jd, p.policies[jd], now);
  }

  // ---- how long a control lasts ----

  /** When a control deployed at `t` for that long ends, if ever. */
  function EndOf(d: C.ParsedDuration, t: Time): Option<Time> {
    match d
    case Lasting(nanos) => Some(t + nanos)
    case _ => None
  }

  predicate Over(end: Option<Time>, now: Time) { end.Some? && now > end.value }

  /** The plane holds a control of that type, target and end under the identifier, neither revoked nor labelled
      lapsed before its time, and the policy that enforces it. */
  ghost predicate Standing(p: Plane, id: string, kind: C.ControlType, ip: string, end: Option<Time>, clock: Time) {
    && id in p.items && p.items[id].kind == kind && p.items[id].targetIP == ip && p.items[id].expiresAt == end
    && p.items[id].status != C.Revoked && (p.items[id].status == C.Lapsed ==> Over(end, clock))
    && id in p.policies && p.policies[id].kind == EdgeKind(kind) && p.policies[id].targetIP == ip
    && p.policies[id].expiresAt == end
  }

  function EdgeKind(kind: C.ControlType): Edge.Kind {
    match kind
    case RateLimit => Edge.RateLimit
    case WafRule => Edge.Waf
    case _ => Edge.Deny
  }

  /** The operator's request names a type, an address and a duration that the service knows. */
  predicate Acceptable(r: C.Request) {
    (r.kind.BlockIP? || r.kind.RateLimit? || r.kind.WafRule?) && r.targetIP != "" && !r.duration.Malformed?
  }

  /** The call deploys under that identifier. */
  ghost predicate Redeploys(op: Op, id: string) {
    match op
    case Deploy(_, suffix, _) => C.ID_PREFIX + suffix == id
    case Contain(ids, _, suffixes, _, _) => exists k :: 0 <= k < |ids| && C.ID_PREFIX + suffixes(k) == id
    case _ => false
  }

  lemma DeployedStands(p: Plane, r: C.Request, suffix: string, now: Time)
    requires Acceptable(r)
    ensures Standing(ControlNext(p, r, suffix, now), C.ID_PREFIX + suffix, r.kind, r.targetIP, EndOf(r.duration, now), now)
  {
  }

  lemma {:induction false} SweepKeepsOthers(p: Plane, ids: seq<string>, r: C.Request, suffixes: nat -> string, actor: string, now: Time, id: string)
    requires forall k | 0 <= k < |ids| :: C.ID_PREFIX + suffixes(k) != id
    ensures var q := SweepOver(p, ids, r, suffixes, actor, now).plane;
      && (id in q.items <==> id in p.items) && (id in p.items ==> q.items[id] == p.items[id])
      && (id in q.policies <==> id in p.policies) && (id in p.policies ==> q.policies[id] == p.policies[id])
  {
    if ids != [] {
      var front := ids[..|ids| - 1];
      SweepKeepsOthers(p, front, r, suffixes, actor, now, id);
    }
  }

  lemma StepKeepsStanding(p: Plane, op: Op, id: string, kind: C.ControlType, ip: string, end: Option<Time>, clock: Time)
    requires Standing(p, id, kind, ip, end, clock) && clock <= op.now
    requires !Redeploys(op, id) && !(op.Revoke? && op.id == id)
    ensures Standing(Next(p, op), id, kind, ip, end, op.now)
  {
    match op
    case Contain(ids, r, suffixes, actor, now) => SweepKeepsOthers(p, ids, r, suffixes, actor, now, id);
    case _ =>
  }

  lemma {:induction false} StandsFrom(ops: seq<Op>, k: nat, id: string, kind: C.ControlType, ip: string, end: Option<Time>)
    requires InOrder(ops) && k < |ops|
    requires Standing(Run(ops[..k + 1]), id, kind, ip, end, ops[k].now)
    requires forall j | k < j < |ops| :: !Redeploys(ops[j], id) && !(ops[j].Revoke? && ops[j].id == id)
    ensures Standing(Run(ops), id, kind, ip, end, ops[|ops| - 1].now)
    decreases |ops|
  {
    if k == |ops| - 1 {
      assert ops[..k + 1] == ops;
    } else {
      var front, op := ops[..|ops| - 1], ops[|ops| - 1];
      assert front[..k + 1] == ops[..k + 1];
      StandsFrom(front, k, id, kind, ip, end);
      StepKeepsStanding(Run(front), op, id, kind, ip, end, front[|front| - 1].now);
    }
  }

  lemma StandingIsInForce(p: Plane, id: string, kind: C.ControlType, ip: string, end: Option<Time>, clock: Time, now: Time)
    requires Standing(p, id, kind, ip, end, clock) && clock <= now
    ensures C.Resolved(p.items[id], now).status == C.Active <==> !Over(end, now)
    ensures Edge.Applies(p.policies[id], EdgeKind(kind), ip, now) <==> !Over(end, now)
  {
  }

  /** A control deployed at `t` for a duration is in force, and the edge has its policy, exactly through `t` plus
      that duration, and a permanent one always, until it is revoked or its identifier deployed again. */
  lemma DeployedControlLastsExactly(ops: seq<Op>, k: nat, now: Time)
    requires InOrder(ops) && k < |ops| && ops[k].Deploy? && Acceptable(ops[k].r)
    requires ops[|ops| - 1].now <= now
    requires var id := C.ID_PREFIX + ops[k].suffix;
             forall j | k < j < |ops| :: !Redeploys(ops[j], id) && !(ops[j].Revoke? && ops[j].id == id)
    ensures var (p, id, r, t) := (Run(ops), C.ID_PREFIX + ops[k].suffix, ops[k].r, ops[k].now);
      var lasts := r.duration.Permanent? || now <= t + r.duration.nanos;
      && id in p.items && p.items[id].kind == r.kind && p.items[id].targetIP == r.targetIP
      && (C.Resolved(p.items[id], now).status == C.Active <==> lasts)
      && id in p.policies && (Edge.Applies(p.policies[id], EdgeKind(r.kind), r.targetIP, now) <==> lasts)
  {
    var id, r, t := C.ID_PREFIX + ops[k].suffix, ops[k].r, ops[k].now;
    assert ops[..k + 1][..k] == ops[..k] && ops[..k + 1][k] == ops[k];
    DeployedStands(Run(ops[..k]), r, ops[k].suffix, t);
    StandsFrom(ops, k, id, r.kind, r.targetIP, EndOf(r.duration, t));
    StandingIsInForce(Run(ops), id, r.kind, r.targetIP, EndOf(r.duration, t), ops[|ops| - 1].now, now);
  }

  /** So a block denies its address throughout. */
  lemma BlockDeniesThroughout(ops: seq<Op>, k: nat, now: Time, s: Edge.State, tags: seq<string>, rate: Option<Edge.Policy>)
    requires InOrder(ops) && k < |ops| && ops[k].Deploy? && Acceptable(ops[k].r) && ops[k].r.kind.BlockIP?
    requires ops[|ops| - 1].now <= now
    requires var id := C.ID_PREFIX + ops[k].suffix;
             forall j | k < j < |ops| :: !Redeploys(ops[j], id) && !(ops[j].Revoke? && ops[j].id == id)
    requires ops[k].r.duration.Permanent? || now <= ops[k].now + ops[k].r.duration.nanos
    requires s.policies == Run(ops).policies
    ensures Edge.Decide(s, ops[k].r.targetIP, tags, now, rate) == Edge.Denied
  {
    DeployedControlLastsExactly(ops, k, now);
    assert Edge.HasMatch(s.policies, Edge.Deny, ops[k].r.targetIP, now);
  }

  /** The control was revoked at that moment, and nothing enforces it. */
  ghost predicate Gone(p: Plane, id: string, at: Time) {
    && id in p.items && p.items[id].status == C.Revoked && p.items[id].revokedAt == Some(at) && id !in p.policies
  }

  lemma StepKeepsGone(p: Plane, op: Op, id: string, at: Time)
    requires Gone(p, id, at) && !Redeploys(op, id)
    ensures Gone(Next(p, op), id, at)
  {
    match op
    case Contain(ids, r, suffixes, actor, now) => SweepKeepsOthers(p, ids, r, suffixes, actor, now, id);
    case _ =>
  }

  lemma {:induction false} GoneFrom(ops: seq<Op>, k: nat, id: string, at: Time)
    requires k < |ops| && Gone(Run(ops[..k + 1]), id, at)
    requires forall j | k < j < |ops| :: !Redeploys(ops[j], id)
    ensures Gone(Run(ops), id, at)
    decreases |ops|
  {
    if k == |ops| - 1 {
      assert ops[..k + 1] == ops;
    } else {
      var front, op := ops[..|ops| - 1], ops[|ops| - 1];
      assert front[..k + 1] == ops[..k + 1];
      GoneFrom(front, k, id, at);
      StepKeepsGone(Run(front), op, id, at);
    }
  }

  /** A control whose label is active when it is revoked stays revoked, as of that moment, with no policy,
      whatever is called afterwards, until its identifier is deployed again. */
  lemma RevokedStaysRevoked(ops: seq<Op>, k: nat, id: string)
    requires k < |ops| && ops[k].Revoke? && ops[k].id == id
    requires id in Run(ops[..k]).items && Run(ops[..k]).items[id].status == C.Active
    requires forall j | k < j < |ops| :: !Redeploys(ops[j], id)
    ensures var p := Run(ops);
      id in p.items && p.items[id].status == C.Revoked && p.items[id].revokedAt == Some(ops[k].now) && id !in p.policies
  {
    assert ops[..k + 1][..k] == ops[..k] && ops[..k + 1][k] == ops[k];
    GoneFrom(ops, k, id, ops[k].now);
  }

  // ---- what the handlers do to alerts ----

  /** What a block or another containment does to an alert it names: a block records itself as the action on the
      address and leaves the status alone; any other containment resolves the alert as mitigated. */
  ghost predicate Told(before: AlertData, after: AlertData, kind: C.ControlType, note: string, actor: string, now: Time) {
    var action := if kind.BlockIP? then ActionType.BlockIP else Mitigate;
    var n := |after.life.actions|;
    && after.who == before.who && after.evidence == before.evidence && after.life.respondedAt.Some?
    && n > |before.life.actions| && before.life.actions <= after.life.actions
    && after.life.actions[n - 1]
       == ActionLog(now, actor, action, note, after.life.actions[n - 1].from, after.life.status)
    && (if kind.BlockIP? then after.life.status == before.life.status && after.life.ipAction == Some((ActionType.BlockIP, now))
        else after.life.status == Resolved && after.life.resolution == Some(Mitigated) && after.life.resolvedAt == Some(now))
  }

  /** Exactly the alerts among the identifiers were told. */
  ghost predicate ToldAmong(before: seq<AlertData>, after: seq<AlertData>, ids: seq<string>, kind: C.ControlType,
                            note: string, actor: string, now: Time) {
    && |after| == |before|
    && forall i | 0 <= i < |before| ::
         if before[i].who.id in ids then Told(before[i], after[i], kind, note, actor, now) else after[i] == before[i]
  }

  lemma EditTells(a: AlertData, kind: C.ControlType, note: string, actor: string, now: Time)
    requires !kind.UnknownType?
    ensures Edited(a.life, Act(ActionFor(kind), note), actor, now).Ok?
    ensures Told(a, a.(life := Edited(a.life, Act(ActionFor(kind), note), actor, now).value), kind, note, actor, now)
  {
  }

  lemma ToldTwice(a: AlertData, b: AlertData, c: AlertData, kind: C.ControlType, note: string, actor: string, now: Time)
    requires Told(a, b, kind, note, actor, now) && Told(b, c, kind, note, actor, now)
    ensures Told(a, c, kind, note, actor, now)
  {
  }

  lemma IndexIsUnique(s: seq<AlertData>, i: nat)
    requires Lifecycle.UniqueIDs(s) && i < |s|
    ensures IndexOf(s, s[i].who.id) == Some(i)
  {
    IndexOfIsFirst(s, s[i].who.id);
  }

  /** One more action tells one more alert. */
  lemma TellOneMore(before: seq<AlertData>, after: seq<AlertData>, ids: seq<string>, id: string, kind: C.ControlType,
                    note: string, actor: string, now: Time)
    requires !kind.UnknownType? && Lifecycle.UniqueIDs(before) && ToldAmong(before, after, ids, kind, note, actor, now)
    ensures ToldAmong(before, EditNext(after, id, Act(ActionFor(kind), note), actor, now).0, ids + [id], kind, note, actor, now)
  {
    assert forall jd :: jd in ids + [id] <==> jd in ids || jd == id;
    assert forall i | 0 <= i < |before| :: after[i].who == before[i].who;
    IndexOfIsFirst(after, id);
    match IndexOf(after, id)
    case None =>
    case Some(k) =>
      EditTells(after[k], kind, note, actor, now);
      if before[k].who.id in ids {
        var c := after[k].(life := Edited(after[k].life, Act(ActionFor(kind), note), actor, now).value);
        ToldTwice(before[k], after[k], c, kind, note, actor, now);
      }
  }

  lemma {:induction false} ActAllTells(s: seq<AlertData>, ids: seq<string>, kind: C.ControlType, note: string, actor: string, now: Time)
    requires !kind.UnknownType? && Lifecycle.UniqueIDs(s)
    ensures ToldAmong(s, ActAll(s, ids, ActionFor(kind), note, actor, now), ids, kind, note, actor, now)
  {
    if ids != [] {
      var front, id := ids[..|ids| - 1], ids[|ids| - 1];
      ActAllTells(s, front, kind, note, actor, now);
      TellOneMore(s, ActAll(s, front, ActionFor(kind), note, actor, now), front, id, kind, note, actor, now);
      assert ids == front + [id];
    }
  }

  /** An accepted deployment acts on exactly the alerts its request names. */
  lemma DeploymentTellsItsAlerts(p: Plane, r: C.Request, suffix: string, now: Time)
    requires Acceptable(r) && Lifecycle.UniqueIDs(p.alerts)
    ensures ToldAmong(p.alerts, DeployNext(p, r, suffix, now).alerts, r.alertIDs, r.kind, r.note, "console", now)
  {
    ActAllTells(p.alerts, r.alertIDs, r.kind, r.note, "console", now);
  }

  lemma {:induction false} SweepTells(p: Plane, ids: seq<string>, r: C.Request, suffixes: nat -> string, actor: string, now: Time)
    requires !r.kind.UnknownType? && Lifecycle.UniqueIDs(p.alerts)
    ensures var w := SweepOver(p, ids, r, suffixes, actor, now);
            ToldAmong(p.alerts, w.plane.alerts, w.acted, r.kind, r.note, actor, now)
  {
    if ids != [] {
      var front, id, k := ids[..|ids| - 1], ids[|ids| - 1], |ids| - 1;
      SweepTells(p, front, r, suffixes, actor, now);
      var v := SweepOver(p, front, r, suffixes, actor, now);
      SweepStepActs(v, id, r, suffixes(k), actor, now);
      TellOneMore(p.alerts, v.plane.alerts, v.acted, id, r.kind, r.note, actor, now);
    }
  }

  /** One step of a sweep acts on its alert and no other, or on none. */
  lemma SweepStepActs(v: Sweep, id: string, r: C.Request, suffix: string, actor: string, now: Time)
    ensures var w := SweepNext(v, id, r, suffix, actor, now);
      || (w.acted == v.acted && w.plane.alerts == v.plane.alerts)
      || (w.acted == v.acted + [id]
          && w.plane.alerts == EditNext(v.plane.alerts, id, Act(ActionFor(r.kind), r.note), actor, now).0)
  {
  }

  /** Containing an incident with a request the service accepts acts on exactly the alerts of the incident. */
  lemma ContainmentTellsItsAlerts(p: Plane, ids: seq<string>, r: C.Request, suffixes: nat -> string, actor: string, now: Time)
    requires !Refused(r) && Lifecycle.UniqueIDs(p.alerts)
    ensures ToldAmong(p.alerts, ContainNext(p, ids, r, suffixes, actor, now).alerts, ids, r.kind, r.note, actor, now)
  {
    SweepTells(p, ids, r, suffixes, actor, now);
    var w := SweepOver(p, ids, r, suffixes, actor, now);
    forall i | 0 <= i < |p.alerts| ensures p.alerts[i].who.id in ids <==> p.alerts[i].who.id in w.acted {
      IndexIsUnique(p.alerts, i);
      ActedAreNamed(p, ids, r, suffixes, actor, now, p.alerts[i].who.id);
    }
  }

  lemma {:induction false} ActedAreNamed(p: Plane, ids: seq<string>, r: C.Request, suffixes: nat -> string, actor: string, now: Time, id: string)
    requires !Refused(r) && AddressOf(p.alerts, id).Some?
    ensures id in SweepOver(p, ids, r, suffixes, actor, now).acted <==> id in ids
  {
    if ids != [] {
      var front, last, k := ids[..|ids| - 1], ids[|ids| - 1], |ids| - 1;
      ActedAreNamed(p, front, r, suffixes, actor, now, id);
      SweepKeepsAddresses(p, front, r, suffixes, actor, now, last);
      BooksStep(SweepOver(p, front, r, suffixes, actor, now), last, r, suffixes(k), actor, now);
      assert ids == front + [last];
    }
  }

  // ---- what handler-built policies can and cannot do ----

  /** All policies the handlers build carry the default burst and rate, so by
      EdgeRuns.OrderNeverMatters the edge's answers do not depend on map iteration. */
  lemma HandlerRatesAreUniform(ops: seq<Op>, now: Time)
    requires InOrder(ops) && forall i | 0 <= i < |ops| :: ops[i].now <= now
    ensures EdgeRuns.RatesAre(Run(ops).policies, 5, 2.0)
    ensures EdgeRuns.PoliciesWithin(Run(ops).policies, Edge.DEFAULT_BURST as real, Edge.DEFAULT_RATE)
  {
    RunsAgree(ops, now);
    var p := Run(ops);
    forall id | id in p.policies
      ensures p.policies[id].burst == Edge.DEFAULT_BURST && p.policies[id].ratePerSec == Edge.DEFAULT_RATE
    {
      assert PolicyHasControl(p.items, id, p.policies[id], now);
    }
  }

  /** So under the policies the handlers build, the iteration order decides nothing, for any address at any moment. */
  lemma HandlerOrderIsIrrelevant(ops: seq<Op>, ip: string, now: Time)
    requires InOrder(ops) && forall i | 0 <= i < |ops| :: ops[i].now <= now
    ensures EdgeRuns.OrderIrrelevant(Run(ops).policies, ip, now)
  {
    HandlerRatesAreUniform(ops, now);
    EdgeRuns.OrderIsIrrelevantExactlyWhen(Run(ops).policies, ip, now);
  }

  /** A web-application-firewall policy blocks only when it names no address; the handlers always name one,
      so no event is ever blocked by a firewall control they deploy. */
  lemma HandlerFirewallNeverBlocks(ops: seq<Op>, s: Edge.State, ip: string, tags: seq<string>,
                                   now: Time, rate: Option<Edge.Policy>)
    requires InOrder(ops) && forall i | 0 <= i < |ops| :: ops[i].now <= now
    requires s.policies == Run(ops).policies
    ensures !Edge.Decide(s, ip, tags, now, rate).WafBlocked?
  {
    RunsAgree(ops, now);
    FirewallNeverMatches(Run(ops), now);
    NoFirewallNoBlock(s, ip, tags, now, rate);
  }

  lemma NoFirewallNoBlock(s: Edge.State, ip: string, tags: seq<string>, now: Time, rate: Option<Edge.Policy>)
    requires !Edge.HasMatch(s.policies, Edge.Waf, "", now)
    ensures !Edge.Decide(s, ip, tags, now, rate).WafBlocked?
  {
  }

  // ---- containing an incident ----

  predicate Refused(r: C.Request) { r.kind.UnknownType? || r.duration.Malformed? }

  lemma EditKeepsAddresses(s: seq<AlertData>, id: string, e: Edit, actor: string, now: Time, jd: string)
    ensures AddressOf(EditNext(s, id, e, actor, now).0, jd) == AddressOf(s, jd)
  {
    var t := EditNext(s, id, e, actor, now).0;
    IndexOfIsFirst(s, id);
    IndexOfIsFirst(s, jd);
    IndexOfIsFirst(t, jd);
    match IndexOf(s, jd)
    case None =>
    case Some(i) => assert t[i].who == s[i].who && t[i].evidence == s[i].evidence;
  }

  lemma {:induction false} SweepKeepsAddresses(p: Plane, ids: seq<string>, r: C.Request, suffixes: nat -> string, actor: string, now: Time, jd: string)
    ensures AddressOf(SweepOver(p, ids, r, suffixes, actor, now).plane.alerts, jd) == AddressOf(p.alerts, jd)
  {
    if ids != [] {
      var front, id := ids[..|ids| - 1], ids[|ids| - 1];
      SweepKeepsAddresses(p, front, r, suffixes, actor, now, jd);
      var w := SweepOver(p, front, r, suffixes, actor, now);
      EditKeepsAddresses(w.plane.alerts, id, Act(ActionFor(r.kind), r.note), actor, now, jd);
    }
  }

  /** The alert has an address. */
  predicate Addressed(s: seq<AlertData>, id: string) {
    AddressOf(s, id).Some? && AddressOf(s, id).value != ""
  }

  /** Everything the sweep acted on is covered by a control it deployed itself. */
  ghost predicate ActedUnderCover(p: Plane, w: Sweep) {
    forall id | id in w.acted && Addressed(p.alerts, id) :: AddressOf(p.alerts, id).value in w.covered
  }

  /** Two positions of the incident name alerts with one and the same address. */
  ghost predicate AddressRepeats(p: Plane, ids: seq<string>) {
    exists i, j :: 0 <= i < j < |ids| && Addressed(p.alerts, ids[i]) && AddressOf(p.alerts, ids[i]) == AddressOf(p.alerts, ids[j])
  }

  lemma RefusalByRequest(r: C.Request, address: string)
    requires address != ""
    ensures C.Refusal(Aimed(r, address)).Some? <==> Refused(r)
  {
  }

  /** What one alert does to the books of a sweep. */
  lemma BooksStep(v: Sweep, id: string, r: C.Request, suffix: string, actor: string, now: Time)
    ensures var w := SweepNext(v, id, r, suffix, actor, now);
      match AddressOf(v.plane.alerts, id)
      case None => w == v
      case Some(a) =>
        var novel := a != "" && a !in v.seen;
        && w.seen == (if novel then v.seen + {a} else v.seen)
        && w.acted == (if novel && Refused(r) then v.acted else v.acted + [id])
        && w.covered == (if novel && !Refused(r) then v.covered + {a} else v.covered)
        && (!novel || Refused(r) ==> w.plane.items == v.plane.items && w.plane.policies == v.plane.policies)
        && (novel && !Refused(r) ==>
              w.plane.items == v.plane.items[C.ID_PREFIX + suffix := C.NewControl(Aimed(r, a), C.ID_PREFIX + suffix, now)])
  {
    match AddressOf(v.plane.alerts, id)
    case None =>
    case Some(a) =>
      if a != "" {
        RefusalByRequest(r, a);
      }
  }

  /** Some alert among the first has the address. */
  ghost predicate SeenAmong(p: Plane, ids: seq<string>, a: string) {
    exists i :: 0 <= i < |ids| && AddressOf(p.alerts, ids[i]) == Some(a)
  }

  lemma SeenAmongSnoc(p: Plane, front: seq<string>, id: string, a: string)
    ensures SeenAmong(p, front + [id], a) <==> SeenAmong(p, front, a) || AddressOf(p.alerts, id) == Some(a)
  {
    var ids := front + [id];
    assert ids[|front|] == id && forall i | 0 <= i < |front| :: ids[i] == front[i];
    if SeenAmong(p, front, a) {
      var i :| 0 <= i < |front| && AddressOf(p.alerts, front[i]) == Some(a);
      assert AddressOf(p.alerts, ids[i]) == Some(a);
    }
    if AddressOf(p.alerts, id) == Some(a) {
      assert AddressOf(p.alerts, ids[|front|]) == Some(a);
    }
  }

  /** The addresses seen are exactly those of the alerts gone by. */
  ghost predicate SeenIn(p: Plane, ids: seq<string>, seen: set<string>) {
    forall a :: a in seen <==> a != "" && SeenAmong(p, ids, a)
  }

  lemma SeenStep(p: Plane, v: Sweep, front: seq<string>, id: string, r: C.Request, suffix: string, actor: string, now: Time)
    requires SeenIn(p, front, v.seen) && AddressOf(v.plane.alerts, id) == AddressOf(p.alerts, id)
    ensures SeenIn(p, front + [id], SweepNext(v, id, r, suffix, actor, now).seen)
  {
    BooksStep(v, id, r, suffix, actor, now);
    forall a ensures SeenAmong(p, front + [id], a) <==> SeenAmong(p, front, a) || AddressOf(p.alerts, id) == Some(a) {
      SeenAmongSnoc(p, front, id, a);
    }
  }

  lemma {:induction false} SeenAddresses(p: Plane, ids: seq<string>, r: C.Request, suffixes: nat -> string, actor: string, now: Time)
    ensures SeenIn(p, ids, SweepOver(p, ids, r, suffixes, actor, now).seen)
  {
    if ids != [] {
      var front, id := ids[..|ids| - 1], ids[|ids| - 1];
      assert ids == front + [id];
      SeenAddresses(p, front, r, suffixes, actor, now);
      SweepKeepsAddresses(p, front, r, suffixes, actor, now, id);
      SweepSnoc(p, front, id, r, suffixes, actor, now);
      SeenStep(p, SweepOver(p, front, r, suffixes, actor, now), front, id, r, suffixes(|front|), actor, now);
    }
  }

  lemma {:induction false} AcceptedSweep(p: Plane, ids: seq<string>, r: C.Request, suffixes: nat -> string, actor: string, now: Time)
    requires !Refused(r)
    ensures var w := SweepOver(p, ids, r, suffixes, actor, now);
      w.covered == w.seen && ActedUnderCover(p, w)
  {
    if ids != [] {
      var front, id, k := ids[..|ids| - 1], ids[|ids| - 1], |ids| - 1;
      AcceptedSweep(p, front, r, suffixes, actor, now);
      SweepKeepsAddresses(p, front, r, suffixes, actor, now, id);
      BooksStep(SweepOver(p, front, r, suffixes, actor, now), id, r, suffixes(k), actor, now);
    }
  }

  lemma {:induction false} RefusedSweepDeploysNothing(p: Plane, ids: seq<string>, r: C.Request, suffixes: nat -> string, actor: string, now: Time)
    requires Refused(r)
    ensures var w := SweepOver(p, ids, r, suffixes, actor, now);
      w.covered == {} && w.plane.items == p.items && w.plane.policies == p.policies
  {
    if ids != [] {
      var front, id, k := ids[..|ids| - 1], ids[|ids| - 1], |ids| - 1;
      RefusedSweepDeploysNothing(p, front, r, suffixes, actor, now);
      BooksStep(SweepOver(p, front, r, suffixes, actor, now), id, r, suffixes(k), actor, now);
    }
  }

  /** No alert acted on has an address. */
  ghost predicate NoneAddressed(p: Plane, acted: seq<string>) {
    forall id | id in acted :: !Addressed(p.alerts, id)
  }

  lemma NoneAddressedSnoc(p: Plane, acted: seq<string>, id: string)
    ensures NoneAddressed(p, acted + [id]) <==> NoneAddressed(p, acted) && !Addressed(p.alerts, id)
  {
    assert forall jd :: jd in acted + [id] <==> jd in acted || jd == id;
  }

  lemma SweepSnoc(p: Plane, front: seq<string>, id: string, r: C.Request, suffixes: nat -> string, actor: string, now: Time)
    ensures SweepOver(p, front + [id], r, suffixes, actor, now)
            == SweepNext(SweepOver(p, front, r, suffixes, actor, now), id, r, suffixes(|front|), actor, now)
  {
    assert (front + [id])[..|front|] == front;
  }

  ghost predicate ActsOnRepeats(p: Plane, ids: seq<string>, w: Sweep) {
    NoneAddressed(p, w.acted) <==> !AddressRepeats(p, ids)
  }

  lemma {:induction false} RefusedSweepActsOnRepeats(p: Plane, ids: seq<string>, r: C.Request, suffixes: nat -> string, actor: string, now: Time)
    requires Refused(r)
    ensures ActsOnRepeats(p, ids, SweepOver(p, ids, r, suffixes, actor, now))
  {
    if ids != [] {
      var front, id := ids[..|ids| - 1], ids[|ids| - 1];
      var v := SweepOver(p, front, r, suffixes, actor, now);
      assert ids == front + [id];
      RefusedSweepActsOnRepeats(p, front, r, suffixes, actor, now);
      SeenAddresses(p, front, r, suffixes, actor, now);
      SweepKeepsAddresses(p, front, r, suffixes, actor, now, id);
      ActsStep(p, v, front, id, r, suffixes(|front|), actor, now);
      SweepSnoc(p, front, id, r, suffixes, actor, now);
    }
  }

  lemma ActsStep(p: Plane, v: Sweep, front: seq<string>, id: string, r: C.Request, suffix: string, actor: string, now: Time)
    requires Refused(r) && SeenIn(p, front, v.seen)
    requires AddressOf(v.plane.alerts, id) == AddressOf(p.alerts, id)
    requires ActsOnRepeats(p, front, v)
    ensures ActsOnRepeats(p, front + [id], SweepNext(v, id, r, suffix, actor, now))
  {
    BooksStep(v, id, r, suffix, actor, now);
    RepeatsStep(p, front, id);
    NoneAddressedSnoc(p, v.acted, id);
  }

  lemma RepeatsStep(p: Plane, front: seq<string>, id: string)
    ensures AddressRepeats(p, front + [id]) <==>
            AddressRepeats(p, front)
            || (Addressed(p.alerts, id) && SeenAmong(p, front, AddressOf(p.alerts, id).value))
  {
    var ids := front + [id];
    assert ids[|front|] == id && forall i | 0 <= i < |front| :: ids[i] == front[i];
    if AddressRepeats(p, front) {
      var i, j :| 0 <= i < j < |front| && Addressed(p.alerts, front[i]) && AddressOf(p.alerts, front[i]) == AddressOf(p.alerts, front[j]);
      assert ids[i] == front[i] && ids[j] == front[j];
    }
    if Addressed(p.alerts, id) && SeenAmong(p, front, AddressOf(p.alerts, id).value) {
      var i :| 0 <= i < |front| && AddressOf(p.alerts, front[i]) == AddressOf(p.alerts, id);
      assert Addressed(p.alerts, ids[i]) && AddressOf(p.alerts, ids[i]) == AddressOf(p.alerts, ids[|front|]);
    }
  }

  /** Containing an incident acts only under cover of controls it deployed exactly when its request is
      acceptable or no address comes up twice: a refused request skips the first alert of each address
      and still acts on the others. */
  lemma ActsUnderCoverExactlyWhen(p: Plane, ids: seq<string>, r: C.Request, suffixes: nat -> string, actor: string, now: Time)
    ensures ActedUnderCover(p, SweepOver(p, ids, r, suffixes, actor, now)) <==> !Refused(r) || !AddressRepeats(p, ids)
    ensures Refused(r) ==> ContainNext(p, ids, r, suffixes, actor, now).items == p.items
    ensures Refused(r) ==> ContainNext(p, ids, r, suffixes, actor, now).policies == p.policies
  {
    if Refused(r) {
      RefusedSweepDeploysNothing(p, ids, r, suffixes, actor, now);
      RefusedSweepActsOnRepeats(p, ids, r, suffixes, actor, now);
      var w := SweepOver(p, ids, r, suffixes, actor, now);
      assert ActedUnderCover(p, w) <==> NoneAddressed(p, w.acted);
    } else {
      AcceptedSweep(p, ids, r, suffixes, actor, now);
    }
  }

  /** The requested duration does not end before it begins. */
  predicate Enduring(r: C.Request) { r.duration.Lasting? ==> r.duration.nanos >= 0 }

  /** Every address in the set has a control, deployed under one of the first `n` identifiers. */
  ghost predicate AllCovered(items: C.Items, addresses: set<string>, n: nat, suffixes: nat -> string, now: Time, r: C.Request) {
    forall a | a in addresses :: CoveredBy(items, a, n, suffixes, now, r)
  }

  lemma CoverStep(items: C.Items, addresses: set<string>, n: nat, suffixes: nat -> string, now: Time, r: C.Request, c: C.Control)
    requires forall i: nat, j: nat | i < j :: suffixes(i) != suffixes(j)
    requires AllCovered(items, addresses, n, suffixes, now, r)
    requires c.status == C.Active && c.kind == r.kind && c.expiresAt == EndOf(r.duration, now)
    requires C.Resolved(c, now).status == C.Active <==> Enduring(r)
    ensures AllCovered(items[C.ID_PREFIX + suffixes(n) := c], addresses + {c.targetIP}, n + 1, suffixes, now, r)
  {
    var after := items[C.ID_PREFIX + suffixes(n) := c];
    forall a | a in addresses + {c.targetIP} ensures CoveredBy(after, a, n + 1, suffixes, now, r) {
      if a == c.targetIP {
        assert HasControl(after, C.ID_PREFIX + suffixes(n), a, now, r);
      } else {
        assert CoveredBy(items, a, n, suffixes, now, r);
        var i: nat :| i < n && HasControl(items, C.ID_PREFIX + suffixes(i), a, now, r);
        PrefixInjective(suffixes(i), suffixes(n));
        assert HasControl(after, C.ID_PREFIX + suffixes(i), a, now, r);
      }
    }
  }

  lemma CoverWidens(items: C.Items, addresses: set<string>, n: nat, suffixes: nat -> string, now: Time, r: C.Request)
    requires AllCovered(items, addresses, n, suffixes, now, r)
    ensures AllCovered(items, addresses, n + 1, suffixes, now, r)
  {
    forall a | a in addresses ensures CoveredBy(items, a, n + 1, suffixes, now, r) {
      assert CoveredBy(items, a, n, suffixes, now, r);
    }
  }

  /** Every address a sweep covered has a control labelled active when it ends, provided the identifier source
      does not repeat itself. That control is in force exactly when the requested duration is not negative:
      with a negative one, which the parser of durations accepts, it has lapsed before it was ever enforced. */
  lemma {:induction false} CoverIsInForceExactlyWhen(p: Plane, ids: seq<string>, r: C.Request, suffixes: nat -> string, actor: string, now: Time)
    requires forall i: nat, j: nat | i < j :: suffixes(i) != suffixes(j)
    ensures var w := SweepOver(p, ids, r, suffixes, actor, now);
            AllCovered(w.plane.items, w.covered, |ids|, suffixes, now, r)
  {
    if ids != [] {
      var front, id, k := ids[..|ids| - 1], ids[|ids| - 1], |ids| - 1;
      CoverIsInForceExactlyWhen(p, front, r, suffixes, actor, now);
      var v := SweepOver(p, front, r, suffixes, actor, now);
      BooksStep(v, id, r, suffixes(k), actor, now);
      CoverWidens(v.plane.items, v.covered, k, suffixes, now, r);
      match AddressOf(v.plane.alerts, id)
      case None =>
      case Some(a) =>
        CoverStep(v.plane.items, v.covered, k, suffixes, now, r,
                  C.NewControl(Aimed(r, a), C.ID_PREFIX + suffixes(k), now));
    }
  }

  lemma PrefixInjective(a: string, b: string)
    ensures C.ID_PREFIX + a == C.ID_PREFIX + b ==> a == b
  {
    assert (C.ID_PREFIX + a)[|C.ID_PREFIX|..] == a && (C.ID_PREFIX + b)[|C.ID_PREFIX|..] == b;
  }

  /** A control as requested, labelled active, that aims at the address, and whether it is in force. */
  predicate HasControl(items: C.Items, id: string, address: string, now: Time, r: C.Request) {
    && id in items && items[id].targetIP == address && items[id].status == C.Active
    && items[id].kind == r.kind && items[id].expiresAt == EndOf(r.duration, now)
    && (C.Resolved(items[id], now).status == C.Active <==> Enduring(r))
  }

  ghost predicate CoveredBy(items: C.Items, address: string, n: nat, suffixes: nat -> string, now: Time, r: C.Request) {
    exists i: nat :: i < n && HasControl(items, C.ID_PREFIX + suffixes(i), address, now, r)
  }

  /** An accepted containment covers every address of the incident: each alert's address has a control of the
      requested type and end, in force exactly when the requested duration is not negative. */
  lemma EveryAddressIsCovered(p: Plane, ids: seq<string>, r: C.Request, suffixes: nat -> string, actor: string, now: Time, i: nat)
    requires forall j: nat, k: nat | j < k :: suffixes(j) != suffixes(k)
    requires !Refused(r) && i < |ids| && Addressed(p.alerts, ids[i])
    ensures CoveredBy(ContainNext(p, ids, r, suffixes, actor, now).items, AddressOf(p.alerts, ids[i]).value, |ids|, suffixes, now, r)
  {
    CoverIsInForceExactlyWhen(p, ids, r, suffixes, actor, now);
    AcceptedSweep(p, ids, r, suffixes, actor, now);
    SeenAddresses(p, ids, r, suffixes, actor, now);
    assert SeenAmong(p, ids, AddressOf(p.alerts, ids[i]).value);
  }
}
