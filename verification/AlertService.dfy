/** The alert service: detections become alerts or merge into open ones, and operators edit them. */
module AlertService {
  import opened Common
  import opened Events
  import opened Rules
  import opened Detect
  import opened Alerts
  import opened Store
  import Sorting

  // ---- specification over the alerts in creation order ----

  function MergeInto(a: AlertData, r: Rule, evs: seq<EventData>, o: Outcome): AlertData
    requires evs != []
  {
    a.(evidence := Merged(a.evidence, r, evs, o))
  }

  /** A detection merges into the first open alert of its rule and key, or becomes a new alert
      unless the identifier drawn for it is taken. */
  function IngestNext(s: seq<AlertData>, r: Rule, evs: seq<EventData>, o: Outcome, newID: string, now: Time): seq<AlertData>
    requires evs != []
  {
    match FirstOpen(s, r.id, r.key(evs[0]))
    case Some(i) => s[i := MergeInto(s[i], r, evs, o)]
    case None =>
      if IndexOf(s, newID).Some? then s
      else s + [NewAlert(r, evs, o, newID, now)]
  }

  /** One operator request: the new alerts and the answer. A refused request changes nothing. */
  function EditNext(s: seq<AlertData>, id: string, e: Edit, actor: string, now: Time): (seq<AlertData>, Result<AlertData>) {
    if e.Assign? && e.assignee == "" then (s, Err(AssigneeRequired))
    else
      match IndexOf(s, id)
      case None => (s, Err(NotFound))
      case Some(i) =>
        match Edited(s[i].life, e, actor, now)
        case Err(error) => (s, Err(error))
        case Ok(life) => (s[i := s[i].(life := life)], Ok(s[i].(life := life)))
  }

  function EmissionsNext(s: seq<AlertData>, ms: seq<Emission>, newIDs: nat -> string, now: Time): seq<AlertData>
    requires forall m | m in ms :: m.evs != []
  {
    if ms == [] then s
    else
      var m := ms[|ms| - 1];
      IngestNext(EmissionsNext(s, ms[..|ms| - 1], newIDs, now), m.rule, m.evs, m.outcome, newIDs(|ms| - 1), now)
  }

  /** The same action on several alerts, in order; refusals are skipped. */
  function ActAll(s: seq<AlertData>, ids: seq<string>, action: ActionType, note: string, actor: string, now: Time): seq<AlertData> {
    if ids == [] then s
    else EditNext(ActAll(s, ids[..|ids| - 1], action, note, actor, now), ids[|ids| - 1], Act(action, note), actor, now).0
  }

  // ---- the related events of an alert ----

  function AmongIDs(ids: seq<string>): EventData -> bool { (e: EventData) => e.id in ids }

  function SameOrigin(srcIP: string, asset: string): EventData -> bool {
    (e: EventData) => (srcIP != "" && e.srcIP == srcIP) || (asset != "" && e.asset == asset)
  }

  function Earlier(): (EventData, EventData) -> bool { (a: EventData, b: EventData) => a.timestamp < b.timestamp }

  lemma EarlierIsOrdering()
    ensures Sorting.Ordering(Earlier())
  {
  }

  /** The newest `max` events the alert lists or, if none of them is at hand, the newest of its origin. */
  function RelatedTo(a: AlertData, recent: seq<EventData>, max: nat): seq<EventData> {
    var listed := LastN(Filter(recent, AmongIDs(a.evidence.eventIDs)), max);
    if listed != [] then listed
    else LastN(Filter(recent, SameOrigin(a.evidence.srcIP, a.evidence.asset)), max)
  }

  /** Gathers matching events from the newest back, at most `max` of them. */
  method Newest(recent: seq<EventData>, p: EventData -> bool, max: nat) returns (out: seq<EventData>)
    ensures multiset(out) == multiset(LastN(Filter(recent, p), max))
    ensures |out| == |LastN(Filter(recent, p), max)|
  {
    out := [];
    var i := |recent| - 1;
    while i >= 0 && |out| < max
      invariant -1 <= i < |recent| && |out| <= max
      invariant |out| == |Filter(recent[i + 1..], p)|
      invariant multiset(out) == multiset(Filter(recent[i + 1..], p))
    {
      FilterBack(recent, i, p);
      if p(recent[i]) {
        out := out + [recent[i]];
      }
      i := i - 1;
    }
    NewestCut(recent, i + 1, p, max);
  }

  lemma FilterBack(recent: seq<EventData>, i: nat, p: EventData -> bool)
    requires i < |recent|
    ensures Filter(recent[i..], p) == (if p(recent[i]) then [recent[i]] else []) + Filter(recent[i + 1..], p)
  {
    assert recent[i..][1..] == recent[i + 1..];
  }

  lemma NewestCut(recent: seq<EventData>, i: nat, p: EventData -> bool, max: nat)
    requires i <= |recent| && |Filter(recent[i..], p)| <= max
    requires i == 0 || |Filter(recent[i..], p)| == max
    ensures LastN(Filter(recent, p), max) == Filter(recent[i..], p)
  {
    FilterConcat(recent[..i], recent[i..], p);
    assert recent[..i] + recent[i..] == recent;
  }

  // ---- the service ----

  class Service {
    const store: MemoryStore

    ghost predicate Valid()
      reads store
    {
      store.Valid()
    }

    ghost function Model(): seq<AlertData>
      reads store, store.created
    {
      store.Model()
    }

    /** The alerts are what they were if none of them was written. */
    twostate lemma Untouched()
      requires unchanged(store) && forall i | 0 <= i < |store.created| :: unchanged(store.created[i])
      ensures Model() == old(Model())
    {
    }

    constructor ()
      ensures Valid() && Model() == [] && fresh(store) && store.created == []
    {
      store := new MemoryStore();
    }

    /** The alert a detection would merge into, if any. */
    ghost function Target(ruleID: string, ruleKey: string): (t: set<Alert>)
      reads store, store.created
      ensures forall a | a in t :: a in store.created
    {
      match FirstOpen(Model(), ruleID, ruleKey)
      case Some(i) => {store.created[i]}
      case None => {}
    }

    method Ingest(r: Rule, evs: seq<EventData>, o: Outcome, newID: string, now: Time)
      requires Valid() && evs != []
      modifies store, Target(r.id, r.key(evs[0]))
      ensures Valid() && forall a | a in store.created :: a in old(store.created) || fresh(a)
      ensures Model() == IngestNext(old(Model()), r, evs, o, newID, now)
    {
      FirstOpenIsFirst(Model(), r.id, r.key(evs[0]));
      ghost var open := FirstOpen(Model(), r.id, r.key(evs[0]));
      var existing := store.FindOpen(r.id, r.key(evs[0]));
      Untouched();
      if existing.Some? {
        Absorb(existing.value, open.value, r, evs, o);
      } else {
        Open(NewAlert(r, evs, o, newID, now));
      }
    }

    /** Stores a new alert, unless its identifier is taken. */
    method Open(data: AlertData)
      requires Valid()
      modifies store
      ensures Valid() && forall a | a in store.created :: a in old(store.created) || fresh(a)
      ensures Model() == if IndexOf(old(Model()), data.who.id).Some? then old(Model()) else old(Model()) + [data]
    {
      var alert := new Alert(data);
      Untouched();
      var ok := store.Create(alert);
    }

    /** Merges a detection into the stored alert at a position. */
    method Absorb(a: Alert, ghost i: nat, r: Rule, evs: seq<EventData>, o: Outcome)
      requires Valid() && evs != [] && i < |store.created| && store.created[i] == a
      modifies store`byID, a
      ensures Valid() && Model() == old(Model())[i := MergeInto(old(Model())[i], r, evs, o)]
    {
      assert forall j | 0 <= j < |store.created| && j != i :: store.created[j] != a;
      a.Merge(r, evs, o);
      var ok := store.Update(a);
    }

    static method Dispatch(a: Alert, e: Edit, actor: string, now: Time) returns (refusal: Option<Error>)
      modifies a`life
      ensures match Edited(old(a.life), e, actor, now)
              case Ok(l) => refusal == None && a.life == l
              case Err(x) => refusal == Some(x) && a.life == old(a.life)
    {
      match e {
        case Assign(assignee) => refusal := a.Assign(assignee, actor, now);
        case SetStatus(requested) => refusal := a.SetStatus(requested, actor, now);
        case Act(action, note) => refusal := a.Act(action, note, actor, now);
      }
    }

    /** Edits the stored alert at a position; a refusal leaves everything as it was. */
    method Apply(a: Alert, ghost i: nat, e: Edit, actor: string, now: Time) returns (refusal: Option<Error>)
      requires Valid() && i < |store.created| && store.created[i] == a
      modifies store`byID, a`life
      ensures Valid()
      ensures Model() == old(Model())[i := old(Model())[i].(life := a.life)]
      ensures match Edited(old(a.life), e, actor, now)
              case Ok(l) => refusal == None && a.life == l
              case Err(x) => refusal == Some(x) && a.life == old(a.life)
    {
      assert forall j | 0 <= j < |store.created| && j != i :: store.created[j] != a;
      refusal := Dispatch(a, e, actor, now);
      if refusal.None? {
        var ok := store.Update(a);
      }
    }

    method Change(id: string, e: Edit, actor: string, now: Time) returns (r: Result<Alert>)
      requires Valid() && !(e.Assign? && e.assignee == "")
      modifies store`byID, store.created
      ensures Valid()
      ensures Model() == EditNext(old(Model()), id, e, actor, now).0
      ensures Answers(r, EditNext(old(Model()), id, e, actor, now).1)
    {
      var got := store.Get(id);
      if got.Err? {
        return Err(got.error);
      }
      var refusal := Apply(got.value, IndexOf(Model(), id).value, e, actor, now);
      return if refusal.Some? then Err(refusal.value) else Ok(got.value);
    }

    /** The answer is the stored alert as the specification has it, or the same refusal. */
    ghost predicate Answers(r: Result<Alert>, spec: Result<AlertData>)
      reads store, if r.Ok? then {r.value} else {}
    {
      match spec
      case Ok(data) => r.Ok? && r.value in store.created && r.value.View() == data
      case Err(error) => r == Err(error)
    }

    method Assign(id: string, assignee: string, actor: string, now: Time) returns (r: Result<Alert>)
      requires Valid()
      modifies store`byID, store.created
      ensures Valid()
      ensures Model() == EditNext(old(Model()), id, Edit.Assign(assignee), actor, now).0
      ensures Answers(r, EditNext(old(Model()), id, Edit.Assign(assignee), actor, now).1)
    {
      if assignee == "" {
        return Err(AssigneeRequired);
      }
      r := Change(id, Edit.Assign(assignee), actor, now);
    }

    method SetStatus(id: string, requested: Option<Status>, actor: string, now: Time) returns (r: Result<Alert>)
      requires Valid()
      modifies store`byID, store.created
      ensures Valid()
      ensures Model() == EditNext(old(Model()), id, Edit.SetStatus(requested), actor, now).0
      ensures Answers(r, EditNext(old(Model()), id, Edit.SetStatus(requested), actor, now).1)
    {
      r := Change(id, Edit.SetStatus(requested), actor, now);
    }

    method Action(id: string, action: ActionType, note: string, actor: string, now: Time) returns (r: Result<Alert>)
      requires Valid()
      modifies store`byID, store.created
      ensures Valid()
      ensures Model() == EditNext(old(Model()), id, Act(action, note), actor, now).0
      ensures Answers(r, EditNext(old(Model()), id, Act(action, note), actor, now).1)
    {
      r := Change(id, Act(action, note), actor, now);
    }

    /** One page of the triage queue; without a limit, fifty alerts. */
    method List(q: Query) returns (out: seq<Alert>)
      ensures Store.Views(out) == Page(Queue(Model(), q), q.offset, if q.limit <= 0 then 50 else q.limit)
      ensures forall i, j | 0 <= i < j < |out| :: NotBehind(out[i].View(), out[j].View())
    {
      var limit := if q.limit <= 0 then 50 else q.limit;
      assert Queue(Model(), q.(limit := limit)) == Queue(Model(), q) by {
        SameFilter(Model(), q, limit);
      }
      out := store.List(q.(limit := limit));
    }

    /** The events behind an alert, oldest first. */
    method RelatedEvents(id: string, recent: seq<EventData>, max: nat) returns (out: seq<EventData>)
      requires Valid()
      ensures match IndexOf(Model(), id)
              case None => out == []
              case Some(i) =>
                && i < |Model()|
                && multiset(out) == multiset(RelatedTo(Model()[i], recent, max))
                && forall i, j | 0 <= i < j < |out| :: out[i].timestamp <= out[j].timestamp
    {
      var got := store.Get(id);
      if got.Err? {
        return [];
      }
      var gathered := Related(got.value.View(), recent, max);
      out := OldestFirst(gathered);
    }

    static method Related(a: AlertData, recent: seq<EventData>, max: nat) returns (out: seq<EventData>)
      ensures multiset(out) == multiset(RelatedTo(a, recent, max))
    {
      out := Newest(recent, AmongIDs(a.evidence.eventIDs), max);
      if |out| == 0 {
        out := Newest(recent, SameOrigin(a.evidence.srcIP, a.evidence.asset), max);
      }
    }

    /** Stands in for the library's sort by timestamp. */
    static method OldestFirst(events: seq<EventData>) returns (out: seq<EventData>)
      ensures multiset(out) == multiset(events)
      ensures forall i, j | 0 <= i < j < |out| :: out[i].timestamp <= out[j].timestamp
    {
      EarlierIsOrdering();
      Sorting.SortIsStable(events, Earlier());
      Sorting.SortMultiset(events, Earlier());
      out := Sorting.Sort(events, Earlier());
      assert forall i, j | 0 <= i < j < |out| :: !Earlier()(out[j], out[i]);
    }
  }

  /** The related events: none but those the alert lists or, when none of these is at hand, those of its address or
      its asset; the newest of them, in the order they came in, and no more than asked for. */
  lemma RelatedAreRelated(a: AlertData, recent: seq<EventData>, max: nat)
    ensures var out := RelatedTo(a, recent, max);
      && |out| <= max
      && (max > 0 && (exists e :: e in recent && e.id in a.evidence.eventIDs) ==>
            out != [] && forall e | e in out :: e in recent && e.id in a.evidence.eventIDs)
      && ((forall e | e in recent :: e.id !in a.evidence.eventIDs) ==>
            forall e | e in out :: && e in recent
                                   && ((a.evidence.srcIP != "" && e.srcIP == a.evidence.srcIP)
                                       || (a.evidence.asset != "" && e.asset == a.evidence.asset)))
  {
    var ids, o := AmongIDs(a.evidence.eventIDs), SameOrigin(a.evidence.srcIP, a.evidence.asset);
    forall e ensures e in Filter(recent, ids) <==> e in recent && e.id in a.evidence.eventIDs
             ensures e in Filter(recent, o) <==> e in recent && o(e)
    {
      FilterMember(recent, ids, e);
      FilterMember(recent, o, e);
    }
    if max > 0 && exists e :: e in recent && e.id in a.evidence.eventIDs {
      var e :| e in recent && e.id in a.evidence.eventIDs;
      assert e in Filter(recent, ids);
    }
  }

  lemma {:induction false} SameFilter(s: seq<AlertData>, q: Query, limit: int)
    ensures Filter(s, KeptBy(q.(limit := limit))) == Filter(s, KeptBy(q))
  {
    if s != [] {
      SameFilter(s[1..], q, limit);
    }
  }
}
