/** The control plane: containment controls and the edge policies that enforce them, moved together by the handlers. */
module ControlPlane {
  import opened Common
  import opened Alerts
  import opened Store
  import opened AlertService
  import Edge
  import C = Containment

  // ---- mappings ----

  function KindFor(t: C.ControlType): Edge.Kind {
    match t
    case BlockIP => Edge.Deny
    case RateLimit => Edge.RateLimit
    case WafRule => Edge.Waf
    case UnknownType(_) => Edge.Deny
  }

  function PolicyFor(c: C.Control): Edge.Policy {
    Edge.Policy(c.id, KindFor(c.kind), c.targetIP, c.enforcement, 0.0, 0, c.expiresAt)
  }

  function ActionFor(t: C.ControlType): ActionType {
    match t
    case BlockIP => ActionType.BlockIP
    case _ => Mitigate
  }

  /** A control in force at `now` aims at the address. */
  predicate Covered(items: C.Items, srcIP: string, now: Time) {
    exists id | id in items :: items[id].targetIP == srcIP && C.Resolved(items[id], now).status == C.Active
  }

  // ---- specification of the handlers ----

  datatype Plane = Plane(items: C.Items, policies: map<string, Edge.Policy>, alerts: seq<AlertData>)

  const EMPTY: Plane := Plane(map[], map[], [])

  /** Deploys a control and installs its policy; a refused request changes nothing. */
  function ControlNext(p: Plane, r: C.Request, suffix: string, now: Time): Plane {
    if C.Refusal(r).Some? then p
    else
      var c := C.NewControl(r, C.ID_PREFIX + suffix, now);
      p.(items := C.DeployNext(p.items, r, suffix, now),
         policies := p.policies[c.id := Edge.Normalized(PolicyFor(c))])
  }

  function DeployNext(p: Plane, r: C.Request, suffix: string, now: Time): Plane {
    if C.Refusal(r).Some? then p
    else
      var q := ControlNext(p, r, suffix, now);
      q.(alerts := ActAll(q.alerts, r.alertIDs, ActionFor(r.kind), r.note, "console", now))
  }

  predicate Revocable(items: C.Items, id: string) {
    id in items && items[id].status == C.Active
  }

  function RevokeNext(p: Plane, id: string, now: Time): Plane {
    if !Revocable(p.items, id) then p
    else p.(items := C.RevokeNext(p.items, id, now), policies := p.policies - {id})
  }

  /** A containment of a whole incident, part way through its alerts. */
  datatype Sweep = Sweep(plane: Plane, seen: set<string>, covered: set<string>, acted: seq<string>)

  function AddressOf(s: seq<AlertData>, id: string): Option<string> {
    match IndexOf(s, id)
    case Some(i) => Some(s[i].evidence.srcIP)
    case None => None
  }

  function Aimed(r: C.Request, address: string): C.Request {
    r.(targetIP := address)
  }

  /** What one alert of the incident leads to. */
  datatype SweepStep = SweepStep(plane: Plane, seen: set<string>, deployed: bool, acted: bool)

  /** One alert of the incident: a control the first time its address comes up, then the action, which is
      skipped when the control was refused. */
  function StepOne(p: Plane, seen: set<string>, id: string, r: C.Request, suffix: string, actor: string, now: Time): SweepStep {
    match AddressOf(p.alerts, id)
    case None => SweepStep(p, seen, false, false)
    case Some(address) =>
      var novel := address != "" && address !in seen;
      if novel && C.Refusal(Aimed(r, address)).Some? then SweepStep(p, seen + {address}, false, false)
      else
        var q := if novel then ControlNext(p, Aimed(r, address), suffix, now) else p;
        SweepStep(q.(alerts := EditNext(q.alerts, id, Act(ActionFor(r.kind), r.note), actor, now).0),
                  if novel then seen + {address} else seen, novel, true)
  }

  function SweepNext(w: Sweep, id: string, r: C.Request, suffix: string, actor: string, now: Time): Sweep {
    var step := StepOne(w.plane, w.seen, id, r, suffix, actor, now);
    Sweep(step.plane, step.seen,
          if step.deployed then w.covered + (step.seen - w.seen) else w.covered,
          if step.acted then w.acted + [id] else w.acted)
  }

  function SweepOver(p: Plane, ids: seq<string>, r: C.Request, suffixes: nat -> string, actor: string, now: Time): Sweep {
    if ids == [] then Sweep(p, {}, {}, [])
    else SweepNext(SweepOver(p, ids[..|ids| - 1], r, suffixes, actor, now), ids[|ids| - 1], r, suffixes(|ids| - 1), actor, now)
  }

  function ContainNext(p: Plane, ids: seq<string>, r: C.Request, suffixes: nat -> string, actor: string, now: Time): Plane {
    SweepOver(p, ids, r, suffixes, actor, now).plane
  }

  lemma PrefixedIsNotRuleset(id: string)
    requires C.ID_PREFIX <= id
    ensures id != Edge.WAF_SOURCE_ID && id != ""
  {
    assert id[0] == C.ID_PREFIX[0];
  }

  // ---- the handlers ----

  class Handlers {
    const ctr: C.Service
    const edge: Edge.Engine
    const svc: Service

    ghost predicate Valid()
      reads ctr, edge, svc.store
    {
      ctr.Valid() && edge.Valid() && svc.Valid()
    }

    ghost function Model(): Plane
      reads ctr, ctr.Records(), edge, svc.store, svc.store.created
    {
      Plane(ctr.Model(), edge.policies, svc.Model())
    }

    constructor (ctr: C.Service, edge: Edge.Engine, svc: Service)
      ensures this.ctr == ctr && this.edge == edge && this.svc == svc
    {
      this.ctr, this.edge, this.svc := ctr, edge, svc;
    }

    /** Deploys one control and installs its policy. */
    method Control(r: C.Request, suffix: string, now: Time) returns (res: C.Result<C.ControlRecord>)
      requires Valid()
      modifies ctr, edge`policies
      ensures Valid() && fresh(ctr.Records() - old(ctr.Records()))
      ensures Model() == ControlNext(old(Model()), r, suffix, now)
      ensures C.Refusal(r).Some? ==> res == C.Err(C.Refusal(r).value)
      ensures C.Refusal(r).None? ==> res.Ok? && res.value.View() == C.NewControl(r, C.ID_PREFIX + suffix, now)
    {
      res := ctr.Deploy(r, suffix, now);
      svc.Untouched();
      if res.Err? {
        return;
      }
      Enforce(PolicyFor(res.value.View()));
    }

    /** Puts the policy of a control into the edge. */
    method Enforce(p: Edge.Policy)
      requires Valid() && p.sourceID != ""
      modifies edge`policies
      ensures Valid() && Model() == old(Model()).(policies := old(edge.policies)[p.sourceID := Edge.Normalized(p)])
    {
      edge.Install(p);
      ctr.Untouched();
      svc.Untouched();
    }

    /** Applies one action to alerts in order, going on past refusals. */
    method ActOnAll(ids: seq<string>, action: ActionType, note: string, actor: string, now: Time)
      requires svc.Valid()
      modifies svc.store`byID, svc.store.created
      ensures svc.Valid() && svc.Model() == ActAll(old(svc.Model()), ids, action, note, actor, now)
    {
      for i := 0 to |ids|
        invariant svc.Valid() && svc.Model() == ActAll(old(svc.Model()), ids[..i], action, note, actor, now)
      {
        assert ids[..i + 1][..i] == ids[..i];
        var r := svc.Action(ids[i], action, note, actor, now);
      }
      assert ids[..|ids|] == ids;
    }

    method DeployContainment(r: C.Request, suffix: string, now: Time) returns (res: C.Result<C.ControlRecord>)
      requires Valid()
      modifies ctr, edge`policies, svc.store`byID, svc.store.created
      ensures Valid() && Model() == DeployNext(old(Model()), r, suffix, now)
      ensures res.Err? <==> C.Refusal(r).Some?
    {
      res := Control(r, suffix, now);
      if res.Err? {
        return;
      }
      label deployed:
      ActOnAll(r.alertIDs, ActionFor(res.value.kind), r.note, "console", now);
      ctr.Untouched@deployed();
    }

    method RevokeContainment(id: string, now: Time) returns (res: C.Result<C.ControlRecord>)
      requires Valid()
      modifies ctr.Records(), edge`policies, edge`buckets
      ensures Valid() && Model() == RevokeNext(old(Model()), id, now)
      ensures edge.buckets == old(edge.buckets)
      ensures res.Ok? <==> Revocable(old(ctr.Model()), id)
    {
      res := ctr.Revoke(id, now);
      if res.Err? {
        return;
      }
      PrefixedIsNotRuleset(res.value.id);
      Lift(res.value.id);
    }

    /** Takes the policy of a control out of the edge. */
    method Lift(id: string)
      requires Valid() && id != Edge.WAF_SOURCE_ID
      modifies edge`policies, edge`buckets
      ensures Valid() && edge.buckets == old(edge.buckets)
      ensures Model() == old(Model()).(policies := old(edge.policies) - {id})
    {
      edge.Remove(id);
      ctr.Untouched();
    }

    /** Deploys a control for every address of an incident and acts on its alerts. */
    method IncidentContain(ids: seq<string>, r: C.Request, suffixes: nat -> string, actor: string, now: Time)
      requires Valid()
      modifies ctr, edge`policies, svc.store`byID, svc.store.created
      ensures Valid() && Model() == ContainNext(old(Model()), ids, r, suffixes, actor, now)
    {
      var seen: set<string> := {};
      for i := 0 to |ids|
        invariant Valid() && Model() == SweepOver(old(Model()), ids[..i], r, suffixes, actor, now).plane
        invariant seen == SweepOver(old(Model()), ids[..i], r, suffixes, actor, now).seen
      {
        assert ids[..i + 1][..i] == ids[..i];
        seen := ContainOne(ids[i], r, suffixes(i), actor, now, seen);
      }
      assert ids[..|ids|] == ids;
    }

    method ContainOne(id: string, r: C.Request, suffix: string, actor: string, now: Time, seen: set<string>) returns (seen': set<string>)
      requires Valid()
      modifies ctr, edge`policies, svc.store`byID, svc.store.created
      ensures Valid()
      ensures Model() == StepOne(old(Model()), seen, id, r, suffix, actor, now).plane
      ensures seen' == StepOne(old(Model()), seen, id, r, suffix, actor, now).seen
    {
      seen' := seen;
      var a := svc.store.Get(id);
      ctr.Untouched();
      svc.Untouched();
      if a.Err? {
        return;
      }
      var address := a.value.evidence.srcIP;
      assert AddressOf(old(Model()).alerts, id) == Some(address);
      var refused;
      seen', refused := Cover(address, r, suffix, now, seen);
      if refused {
        return;
      }
      ActOnOne(id, ActionFor(r.kind), r.note, actor, now);
    }

    /** Deploys a control the first time an address comes up. */
    method Cover(address: string, r: C.Request, suffix: string, now: Time, seen: set<string>)
        returns (seen': set<string>, refused: bool)
      requires Valid()
      modifies ctr, edge`policies
      ensures Valid() && fresh(ctr.Records() - old(ctr.Records()))
      ensures var novel := address != "" && address !in seen;
        && seen' == (if novel then seen + {address} else seen)
        && refused == (novel && C.Refusal(Aimed(r, address)).Some?)
        && Model() == if novel then ControlNext(old(Model()), Aimed(r, address), suffix, now) else old(Model())
    {
      if address == "" || address in seen {
        return seen, false;
      }
      var c := Control(Aimed(r, address), suffix, now);
      return seen + {address}, c.Err?;
    }

    method ActOnOne(id: string, action: ActionType, note: string, actor: string, now: Time)
      requires Valid()
      modifies svc.store`byID, svc.store.created
      ensures Valid()
      ensures Model() == old(Model()).(alerts := EditNext(old(Model()).alerts, id, Act(action, note), actor, now).0)
    {
      var acted := svc.Action(id, action, note, actor, now);
      ctr.Untouched();
    }

    /** Whether a control in force aims at the address of an incident. */
    method IncidentContained(srcIP: string, now: Time) returns (contained: bool)
      requires Valid()
      modifies ctr.Records()
      ensures Valid()
      ensures Model() == old(Model()).(items := if srcIP == "" then old(ctr.Model()) else C.ListNext(old(ctr.Model()), srcIP, now))
      ensures contained <==> srcIP != "" && Covered(old(ctr.Model()), srcIP, now)
    {
      if srcIP == "" {
        return false;
      }
      var listed := ctr.List(srcIP, now);
      assert Model() == old(Model()).(items := C.ListNext(old(ctr.Model()), srcIP, now));
      for i := 0 to |listed|
        invariant forall j | 0 <= j < i :: listed[j].status != C.Active
      {
        if listed[i].status == C.Active {
          assert ctr.Model()[listed[i].id] == C.Resolved(old(ctr.Model())[listed[i].id], now);
          return true;
        }
      }
      return false;
    }
  }
}
