/** The in-memory alert store: one set of alert objects reached by identifier and in creation order. */
module Store {
  import opened Common
  import opened Events
  import opened Alerts
  import Sorting

  // ---- specification over the alerts in creation order ----

  function IndexOf(s: seq<AlertData>, id: string): (r: Option<nat>)
    ensures r.Some? ==> r.value < |s|
  {
    if s == [] then None
    else if s[0].who.id == id then Some(0)
    else match IndexOf(s[1..], id) case Some(i) => Some(i + 1) case None => None
  }

  predicate Matches(a: AlertData, ruleID: string, ruleKey: string) {
    a.who.ruleID == ruleID && a.who.ruleKey == ruleKey && a.IsActive()
  }

  function FirstOpen(s: seq<AlertData>, ruleID: string, ruleKey: string): (r: Option<nat>)
    ensures r.Some? ==> r.value < |s|
  {
    if s == [] then None
    else if Matches(s[0], ruleID, ruleKey) then Some(0)
    else match FirstOpen(s[1..], ruleID, ruleKey) case Some(i) => Some(i + 1) case None => None
  }

  lemma {:induction false} IndexOfIsFirst(s: seq<AlertData>, id: string)
    ensures match IndexOf(s, id)
            case Some(i) => i < |s| && s[i].who.id == id && forall j | 0 <= j < i :: s[j].who.id != id
            case None => forall j | 0 <= j < |s| :: s[j].who.id != id
  {
    if s != [] && s[0].who.id != id {
      IndexOfIsFirst(s[1..], id);
    }
  }

  lemma {:induction false} FirstOpenIsFirst(s: seq<AlertData>, ruleID: string, ruleKey: string)
    ensures match FirstOpen(s, ruleID, ruleKey)
            case Some(i) => i < |s| && Matches(s[i], ruleID, ruleKey) && forall j | 0 <= j < i :: !Matches(s[j], ruleID, ruleKey)
            case None => forall j | 0 <= j < |s| :: !Matches(s[j], ruleID, ruleKey)
  {
    if s != [] && !Matches(s[0], ruleID, ruleKey) {
      FirstOpenIsFirst(s[1..], ruleID, ruleKey);
    }
  }

  // ---- the triage queue ----

  datatype Query = Query(
    status: Option<Status>, severity: Option<Severity>, asset: string, assignee: string, ruleID: string,
    text: string, limit: int, offset: nat)

  function Lower(s: string): string {
    seq(|s|, i requires 0 <= i < |s| => LowerChar(s[i]))
  }

  predicate Contains(s: string, sub: string) {
    exists i | 0 <= i <= |s| :: sub <= s[i..]
  }

  function Joined(words: seq<string>): string {
    if words == [] then "" else if |words| == 1 then words[0] else words[0] + " " + Joined(words[1..])
  }

  predicate Keeps(q: Query, a: AlertData) {
    && (q.status.Some? ==> a.life.status == q.status.value)
    && (q.severity.Some? ==> a.evidence.severity == q.severity.value)
    && (q.asset != "" ==> a.evidence.asset == q.asset)
    && (q.assignee != "" ==> a.life.assignee == q.assignee)
    && (q.ruleID != "" ==> a.who.ruleID == q.ruleID)
    && (q.text != "" ==>
          Contains(Lower(a.who.title + " " + a.evidence.srcIP + " " + a.evidence.asset + " " + Joined(a.who.mitre)), Lower(q.text)))
  }

  function KeptBy(q: Query): AlertData -> bool { (a: AlertData) => Keeps(q, a) }

  /** Active first, then the more severe, then the more recently seen. */
  predicate Before(a: AlertData, b: AlertData) {
    if a.IsActive() != b.IsActive() then a.IsActive()
    else if Rank(a.evidence.severity) != Rank(b.evidence.severity) then Rank(a.evidence.severity) > Rank(b.evidence.severity)
    else a.evidence.lastSeenAt > b.evidence.lastSeenAt
  }

  function Priority(): (AlertData, AlertData) -> bool { (a: AlertData, b: AlertData) => Before(a, b) }

  lemma PriorityIsOrdering()
    ensures Sorting.Ordering(Priority())
  {
  }

  function Queue(s: seq<AlertData>, q: Query): seq<AlertData> {
    Sorting.Sort(Filter(s, KeptBy(q)), Priority())
  }

  function Page<T>(s: seq<T>, offset: nat, limit: int): seq<T> {
    var rest := s[if offset > |s| then |s| else offset..];
    if limit > 0 && |rest| > limit then rest[..limit] else rest
  }

  // ---- counting ----

  datatype CountsData = CountsData(
    totalActive: nat, open: nat, held: nat, inProgress: nat, resolved: nat, unclaimed: nat,
    critical: nat, high: nat, medium: nat, low: nat, bySeverity: map<Severity, nat>)

  function Number(s: seq<AlertData>, p: AlertData -> bool): nat { |Filter(s, p)| }

  function Active(): AlertData -> bool { (a: AlertData) => a.IsActive() }

  function InStatus(status: Status): AlertData -> bool { (a: AlertData) => a.life.status == status }

  function OfSeverity(severity: Severity): AlertData -> bool { (a: AlertData) => a.evidence.severity == severity }

  function Unclaimed(): AlertData -> bool { (a: AlertData) => a.IsUnassigned() }

  /** The number of alerts of each severity: the four named ones always, and any other that occurs. */
  function SeverityTable(s: seq<AlertData>): map<Severity, nat> {
    map v: Severity | v != Unset || Number(s, OfSeverity(v)) > 0 :: Number(s, OfSeverity(v))
  }

  function CountsOf(s: seq<AlertData>): CountsData {
    CountsData(Number(s, Active()), Number(s, InStatus(Open)), Number(s, InStatus(Assigned)), Number(s, InStatus(InProgress)),
           Number(s, InStatus(Resolved)), Number(s, Unclaimed()),
           Number(s, OfSeverity(Critical)), Number(s, OfSeverity(High)),
           Number(s, OfSeverity(Medium)), Number(s, OfSeverity(Low)), SeverityTable(s))
  }

  function ResponseTimes(s: seq<AlertData>): seq<Time> {
    if s == [] then []
    else ResponseTimes(s[..|s| - 1]) + (match s[|s| - 1].ResponseTime() case Some(t) => [t] case None => [])
  }

  function Sum(s: seq<int>): int {
    if s == [] then 0 else Sum(s[..|s| - 1]) + s[|s| - 1]
  }

  lemma ResponseTimesSnoc(s: seq<AlertData>, a: AlertData)
    ensures ResponseTimes(s + [a]) == ResponseTimes(s) + (match a.ResponseTime() case Some(t) => [t] case None => [])
  {
    assert (s + [a])[..|s|] == s;
  }

  lemma SumSnoc(s: seq<int>, x: int)
    ensures Sum(s + [x]) == Sum(s) + x
  {
    assert (s + [x])[..|s|] == s;
  }

  /** Integer division as the source language does it, towards zero. */
  function Quotient(a: int, b: int): int
    requires b > 0
  {
    if a >= 0 then a / b else -((-a) / b)
  }

  function MeanResponse(s: seq<AlertData>): (Time, nat) {
    var ts := ResponseTimes(s);
    if |ts| == 0 then (0, 0) else (Quotient(Sum(ts), |ts|), |ts|)
  }

  // ---- the store ----

  ghost function Views(alerts: seq<Alert>): seq<AlertData>
    reads alerts
  {
    seq(|alerts|, i requires 0 <= i < |alerts| reads alerts => alerts[i].View())
  }

  lemma ViewsSnoc(alerts: seq<Alert>, a: Alert)
    ensures Views(alerts + [a]) == Views(alerts) + [a.View()]
  {
  }

  class MemoryStore {
    var byID: map<string, Alert>
    var created: seq<Alert>

    /** Map and list hold the same objects, one per identifier. */
    ghost predicate Valid()
      reads this
    {
      && (forall i, j | 0 <= i < j < |created| :: created[i].who.id != created[j].who.id)
      && (forall a | a in created :: a.who.id in byID && byID[a.who.id] == a)
      && (forall id | id in byID :: byID[id] in created && byID[id].who.id == id)
    }

    ghost function Model(): seq<AlertData>
      reads this, created
    {
      Views(created)
    }

    constructor ()
      ensures Valid() && Model() == [] && created == []
    {
      byID, created := map[], [];
    }

    method Create(a: Alert) returns (ok: bool)
      requires Valid()
      modifies this
      ensures Valid()
      ensures ok == (a.who.id !in old(byID)) == (IndexOf(old(Model()), a.who.id) == None)
      ensures created == if ok then old(created) + [a] else old(created)
      ensures Model() == if ok then old(Model()) + [a.View()] else old(Model())
    {
      LookupAgrees(a.who.id);
      if a.who.id in byID {
        return false;
      }
      ViewsSnoc(created, a);
      byID := byID[a.who.id := a];
      created := created + [a];
      return true;
    }

    lemma LookupAgrees(id: string)
      requires Valid()
      ensures match IndexOf(Model(), id)
              case Some(i) => i < |created| && id in byID && byID[id] == created[i]
              case None => id !in byID
    {
      IndexOfIsFirst(Model(), id);
      if id in byID {
        var i :| 0 <= i < |created| && created[i] == byID[id];
        assert Model()[i].who.id == id;
      }
    }

    method Get(id: string) returns (r: Result<Alert>)
      requires Valid()
      ensures match IndexOf(Model(), id)
              case Some(i) => i < |created| && r == Ok(created[i])
              case None => r == Err(NotFound)
    {
      LookupAgrees(id);
      if id !in byID {
        return Err(NotFound);
      }
      return Ok(byID[id]);
    }

    /** Puts an object under its identifier; for the object already there, nothing changes. */
    method Update(a: Alert) returns (ok: bool)
      modifies this`byID
      ensures ok == (a.who.id in old(byID))
      ensures byID == if ok then old(byID)[a.who.id := a] else old(byID)
      ensures old(Valid()) && a in created ==> ok && byID == old(byID)
    {
      if a.who.id !in byID {
        return false;
      }
      byID := byID[a.who.id := a];
      return true;
    }

    method FindOpen(ruleID: string, ruleKey: string) returns (r: Option<Alert>)
      ensures match FirstOpen(Model(), ruleID, ruleKey)
              case Some(i) => i < |created| && r == Some(created[i])
              case None => r == None
    {
      FirstOpenIsFirst(Model(), ruleID, ruleKey);
      for i := 0 to |created|
        invariant forall j | 0 <= j < i :: !Matches(created[j].View(), ruleID, ruleKey)
      {
        var a := created[i];
        if a.who.ruleID == ruleID && a.who.ruleKey == ruleKey && a.life.status.IsActive() {
          assert Model()[i] == a.View();
          return Some(a);
        }
      }
      return None;
    }

    /** One page of the triage queue. */
    method List(q: Query) returns (out: seq<Alert>)
      ensures Views(out) == Page(Queue(Model(), q), q.offset, q.limit)
      ensures forall a | a in out :: a in created
      ensures forall i, j | 0 <= i < j < |out| :: NotBehind(out[i].View(), out[j].View())
    {
      out := Select(q);
      out := StableSort(out);
      var offset := if q.offset > |out| then |out| else q.offset;
      out := out[offset..];
      if q.limit > 0 && |out| > q.limit {
        out := out[..q.limit];
      }
      ghost var page := Page(Queue(Model(), q), q.offset, q.limit);
      PageIsInOrder(Model(), q);
      assert Views(out) == page;
      forall i, j | 0 <= i < j < |out| ensures NotBehind(out[i].View(), out[j].View()) {
        assert page[i] == out[i].View() && page[j] == out[j].View();
        assert NotBehind(page[i], page[j]);
      }
    }

    method Select(q: Query) returns (out: seq<Alert>)
      ensures Views(out) == Filter(Model(), KeptBy(q))
      ensures forall a | a in out :: a in created
    {
      out := [];
      for i := 0 to |created|
        invariant Views(out) == Filter(Views(created[..i]), KeptBy(q))
        invariant forall a | a in out :: a in created
      {
        var a := created[i];
        ViewsSnoc(created[..i], a);
        ViewsSnoc(out, a);
        FilterSnoc(Views(created[..i]), a.View(), KeptBy(q));
        assert created[..i + 1] == created[..i] + [a];
        if Keeps(q, a.View()) {
          out := out + [a];
        }
      }
      assert created[..|created|] == created;
    }

    method Counts() returns (c: CountsData)
      ensures c == CountsOf(Model())
    {
      c := CountsData(0, 0, 0, 0, 0, 0, 0, 0, 0, 0, map[Critical := 0, High := 0, Medium := 0, Low := 0]);
      CountsOfNone();
      for i := 0 to |created|
        invariant c == CountsOf(Views(created[..i]))
      {
        var a := created[i];
        CountsFurther(created, i);
        c := CountOne(c, a);
      }
      assert created[..|created|] == created;
    }

    static method CountOne(before: CountsData, a: Alert) returns (c: CountsData)
      ensures c == Counted(before, a.View())
    {
      c := before;
      c := c.(bySeverity := c.bySeverity[a.evidence.severity := Tallied(c.bySeverity, a.evidence.severity) + 1]);
      match a.evidence.severity {
        case Critical => c := c.(critical := c.critical + 1);
        case High => c := c.(high := c.high + 1);
        case Medium => c := c.(medium := c.medium + 1);
        case Low => c := c.(low := c.low + 1);
        case Unset =>
      }
      if a.life.status.IsActive() {
        c := c.(totalActive := c.totalActive + 1);
      } else {
        c := c.(resolved := c.resolved + 1);
      }
      match a.life.status {
        case Open => c := c.(open := c.open + 1);
        case Assigned => c := c.(held := c.held + 1);
        case InProgress => c := c.(inProgress := c.inProgress + 1);
        case Resolved =>
      }
      if a.life.status == Open && a.life.assignee == "" {
        c := c.(unclaimed := c.unclaimed + 1);
      }
    }

    /** The truncated mean response time and the number of samples. */
    method MTTR() returns (mean: Time, n: nat)
      ensures (mean, n) == MeanResponse(Model())
    {
      var total;
      total, n := TotalResponse();
      if n == 0 {
        return 0, 0;
      }
      mean := Quotient(total, n);
    }

    method TotalResponse() returns (total: Time, n: nat)
      ensures total == Sum(ResponseTimes(Model())) && n == |ResponseTimes(Model())|
    {
      total, n := 0, 0;
      for i := 0 to |created|
        invariant total == Sum(ResponseTimes(Views(created[..i]))) && n == |ResponseTimes(Views(created[..i]))|
      {
        TimesFurther(created, i);
        match created[i].View().ResponseTime() {
          case Some(d) =>
            total := total + d;
            n := n + 1;
          case None =>
        }
      }
      assert created[..|created|] == created;
    }
  }

  lemma TimesFurther(alerts: seq<Alert>, i: nat)
    requires i < |alerts|
    ensures var before, after := ResponseTimes(Views(alerts[..i])), ResponseTimes(Views(alerts[..i + 1]));
            match alerts[i].View().ResponseTime()
            case Some(d) => Sum(after) == Sum(before) + d && |after| == |before| + 1
            case None => after == before
  {
    var before := ResponseTimes(Views(alerts[..i]));
    ViewsSnoc(alerts[..i], alerts[i]);
    assert alerts[..i + 1] == alerts[..i] + [alerts[i]];
    ResponseTimesSnoc(Views(alerts[..i]), alerts[i].View());
    match alerts[i].View().ResponseTime()
    case Some(d) => SumSnoc(before, d);
    case None => assert before + [] == before;
  }

  function Bump(n: nat, yes: bool): nat { if yes then n + 1 else n }

  /** The counters with one more alert. */
  function Counted(c: CountsData, a: AlertData): CountsData {
    CountsData(
      Bump(c.totalActive, a.IsActive()), Bump(c.open, a.life.status == Open), Bump(c.held, a.life.status == Assigned),
      Bump(c.inProgress, a.life.status == InProgress), Bump(c.resolved, a.life.status == Resolved),
      Bump(c.unclaimed, a.IsUnassigned()),
      Bump(c.critical, a.evidence.severity == Critical), Bump(c.high, a.evidence.severity == High),
      Bump(c.medium, a.evidence.severity == Medium), Bump(c.low, a.evidence.severity == Low),
      c.bySeverity[a.evidence.severity := Tallied(c.bySeverity, a.evidence.severity) + 1])
  }

  lemma CountsOfNone()
    ensures CountsOf([]) == CountsData(0, 0, 0, 0, 0, 0, 0, 0, 0, 0, map[Critical := 0, High := 0, Medium := 0, Low := 0])
  {
    assert SeverityTable([]) == map[Critical := 0, High := 0, Medium := 0, Low := 0];
  }

  lemma CountsFurther(alerts: seq<Alert>, i: nat)
    requires i < |alerts|
    ensures CountsOf(Views(alerts[..i + 1])) == Counted(CountsOf(Views(alerts[..i])), alerts[i].View())
  {
    ViewsSnoc(alerts[..i], alerts[i]);
    assert alerts[..i + 1] == alerts[..i] + [alerts[i]];
    CountsSnoc(Views(alerts[..i]), alerts[i].View());
  }

  lemma CountsSnoc(s: seq<AlertData>, a: AlertData)
    ensures CountsOf(s + [a]) == Counted(CountsOf(s), a)
  {
    TableSnoc(s, a);
    NumberSnoc(s, a, Active());
    NumberSnoc(s, a, InStatus(Open));
    NumberSnoc(s, a, InStatus(Assigned));
    NumberSnoc(s, a, InStatus(InProgress));
    NumberSnoc(s, a, InStatus(Resolved));
    NumberSnoc(s, a, Unclaimed());
    NumberSnoc(s, a, OfSeverity(Critical));
    NumberSnoc(s, a, OfSeverity(High));
    NumberSnoc(s, a, OfSeverity(Medium));
    NumberSnoc(s, a, OfSeverity(Low));
  }

  /** A counter of the source's map: zero when missing. */
  function Tallied(m: map<Severity, nat>, v: Severity): nat { if v in m then m[v] else 0 }

  lemma TableSnoc(s: seq<AlertData>, a: AlertData)
    ensures SeverityTable(s + [a])
            == SeverityTable(s)[a.evidence.severity := Tallied(SeverityTable(s), a.evidence.severity) + 1]
  {
    forall v: Severity ensures Number(s + [a], OfSeverity(v)) == Bump(Number(s, OfSeverity(v)), a.evidence.severity == v) {
      NumberSnoc(s, a, OfSeverity(v));
    }
  }

  lemma NumberSnoc(s: seq<AlertData>, a: AlertData, p: AlertData -> bool)
    ensures Number(s + [a], p) == Bump(Number(s, p), p(a))
  {
    FilterSnoc(s, a, p);
  }

  /** Stands in for the library's stable sort: its result is the stable sort of the alerts' values. */
  method StableSort(input: seq<Alert>) returns (out: seq<Alert>)
    ensures Views(out) == Sorting.Sort(Views(input), Priority())
    ensures forall a | a in out :: a in input
  {
    out := [];
    for i := 0 to |input|
      invariant Views(out) == Sorting.Sort(Views(input[..i]), Priority())
      invariant forall a | a in out :: a in input
    {
      ViewsSnoc(input[..i], input[i]);
      assert input[..i + 1] == input[..i] + [input[i]];
      assert Views(input[..i + 1])[..i] == Views(input[..i]);
      out := Insert(out, input[i]);
    }
    assert input[..|input|] == input;
  }

  method Insert(s: seq<Alert>, x: Alert) returns (r: seq<Alert>)
    ensures Views(r) == Sorting.Insert(Views(s), x.View(), Priority())
    ensures forall a | a in r :: a == x || a in s
  {
    if s == [] {
      return [x];
    }
    if Before(x.View(), s[0].View()) {
      return [x] + s;
    }
    r := Insert(s[1..], x);
    assert Views(s)[1..] == Views(s[1..]);
    r := [s[0]] + r;
  }

  // ---- properties of the read side ----

  /** Pages of the same positive size, taken at successive offsets. */
  function Pages<T>(s: seq<T>, from: nat, size: nat): seq<seq<T>>
    requires size > 0
    decreases |s| - from
  {
    if from >= |s| then [] else [Page(s, from, size)] + Pages(s, from + size, size)
  }

  lemma {:induction false} PagesFrom<T>(s: seq<T>, from: nat, size: nat)
    requires size > 0
    ensures Flatten(Pages(s, from, size)) == s[if from > |s| then |s| else from..]
    decreases |s| - from
  {
    if from < |s| {
      PagesFrom(s, from + size, size);
      var rest := Pages(s, from + size, size);
      assert Pages(s, from, size)[1..] == rest;
    }
  }

  /** The queue is the one stable ordering of the alerts the query keeps, and any other sequence
      with those two properties is that same sequence. */
  lemma QueueIsTheStableOrder(s: seq<AlertData>, q: Query, other: seq<AlertData>)
    ensures Sorting.IsStableSort(Queue(s, q), Filter(s, KeptBy(q)), Priority())
    ensures multiset(Queue(s, q)) == multiset(Filter(s, KeptBy(q)))
    ensures Sorting.IsStableSort(other, Filter(s, KeptBy(q)), Priority()) ==> other == Queue(s, q)
  {
    PriorityIsOrdering();
    var kept := Filter(s, KeptBy(q));
    Sorting.SortIsStable(kept, Priority());
    Sorting.SortMultiset(kept, Priority());
    if Sorting.IsStableSort(other, kept, Priority()) {
      forall z ensures Sorting.Tie(other, Priority(), z) == Sorting.Tie(Queue(s, q), Priority(), z) {
        assert Sorting.Tie(other, Priority(), z) == Sorting.Tie(kept, Priority(), z);
      }
      Sorting.StableSortUnique(other, Queue(s, q), Priority());
    }
  }

  /** An alert that may stand before another: no resolved one before an open one; among the open and among the
      resolved none before a more severe one; and among those of one severity none before one seen later. */
  predicate NotBehind(a: AlertData, b: AlertData) {
    && (b.life.status != Resolved ==> a.life.status != Resolved)
    && ((a.life.status == Resolved <==> b.life.status == Resolved) ==>
          && AsSevere(a.evidence.severity, b.evidence.severity)
          && (a.evidence.severity == b.evidence.severity ==> a.evidence.lastSeenAt >= b.evidence.lastSeenAt))
  }

  lemma BeforeDecides(a: AlertData, b: AlertData)
    ensures !Before(b, a) <==> NotBehind(a, b)
  {
    RankIsSeverity(a.evidence.severity, b.evidence.severity);
    RankIsSeverity(b.evidence.severity, a.evidence.severity);
  }

  /** The queue, field by field: the open alerts come first, then the more severe, then the later seen, and it
      holds exactly the alerts that every given criterion of the query accepts. */
  lemma QueueIsInOrder(s: seq<AlertData>, q: Query)
    ensures forall i, j | 0 <= i < j < |Queue(s, q)| :: NotBehind(Queue(s, q)[i], Queue(s, q)[j])
    ensures forall a :: a in Queue(s, q) <==> a in s && Accepted(q, a)
  {
    SortedIsInOrder(Filter(s, KeptBy(q)));
    forall a ensures a in Queue(s, q) <==> a in s && Accepted(q, a) {
      FilterMember(s, KeptBy(q), a);
      SortedHolds(Filter(s, KeptBy(q)), a);
    }
  }

  lemma SortedIsInOrder(kept: seq<AlertData>)
    ensures var out := Sorting.Sort(kept, Priority());
            forall i, j | 0 <= i < j < |out| :: NotBehind(out[i], out[j])
  {
    var out := Sorting.Sort(kept, Priority());
    PriorityIsOrdering();
    Sorting.SortIsStable(kept, Priority());
    forall i, j | 0 <= i < j < |out| ensures NotBehind(out[i], out[j]) {
      assert !Priority()(out[j], out[i]);
      BeforeDecides(out[i], out[j]);
    }
  }

  lemma SortedHolds(kept: seq<AlertData>, a: AlertData)
    ensures a in Sorting.Sort(kept, Priority()) <==> a in kept
  {
    Sorting.SortMultiset(kept, Priority());
    assert a in Sorting.Sort(kept, Priority()) <==> a in multiset(Sorting.Sort(kept, Priority()));
    assert a in kept <==> a in multiset(kept);
  }

  /** Each criterion of a query that is given accepts the alert. */
  predicate Accepted(q: Query, a: AlertData) {
    && (q.status.None? || q.status == Some(a.life.status))
    && (q.severity.None? || q.severity == Some(a.evidence.severity))
    && q.asset in ["", a.evidence.asset] && q.assignee in ["", a.life.assignee] && q.ruleID in ["", a.who.ruleID]
    && (q.text == "" || Contains(Lower(a.who.title + " " + a.evidence.srcIP + " " + a.evidence.asset + " " + Joined(a.who.mitre)),
                                 Lower(q.text)))
  }

  /** A page is the stretch of the list from the offset on, as long as asked for if there is that much. */
  lemma PageIsStretch<T>(s: seq<T>, offset: nat, limit: int)
    ensures var from := if offset > |s| then |s| else offset;
            var to := if limit > 0 && |s| - from > limit then from + limit else |s|;
            Page(s, offset, limit) == s[from..to]
  {
  }

  lemma PageIsInOrder(s: seq<AlertData>, q: Query)
    ensures var page := Page(Queue(s, q), q.offset, q.limit);
            forall i, j | 0 <= i < j < |page| :: NotBehind(page[i], page[j])
  {
    QueueIsInOrder(s, q);
    PageIsStretch(Queue(s, q), q.offset, q.limit);
  }

  /** The counters are the numbers of alerts in each status and of each severity; an alert is unclaimed when it is
      open and nobody is assigned. */
  lemma CountersCount(s: seq<AlertData>)
    ensures var c := CountsOf(s);
      && c.totalActive == |Where(s, (a: AlertData) => a.life.status != Resolved)|
      && c.open == |Where(s, (a: AlertData) => a.life.status == Open)|
      && c.held == |Where(s, (a: AlertData) => a.life.status == Assigned)|
      && c.inProgress == |Where(s, (a: AlertData) => a.life.status == InProgress)|
      && c.resolved == |Where(s, (a: AlertData) => a.life.status == Resolved)|
      && c.unclaimed == |Where(s, (a: AlertData) => a.life.status == Open && a.life.assignee == "")|
      && c.critical == |Where(s, (a: AlertData) => a.evidence.severity == Critical)|
      && c.high == |Where(s, (a: AlertData) => a.evidence.severity == High)|
      && c.medium == |Where(s, (a: AlertData) => a.evidence.severity == Medium)|
      && c.low == |Where(s, (a: AlertData) => a.evidence.severity == Low)|
  {
    SameWhere(s, Active(), (a: AlertData) => a.life.status != Resolved);
    SameWhere(s, InStatus(Open), (a: AlertData) => a.life.status == Open);
    SameWhere(s, InStatus(Assigned), (a: AlertData) => a.life.status == Assigned);
    SameWhere(s, InStatus(InProgress), (a: AlertData) => a.life.status == InProgress);
    SameWhere(s, InStatus(Resolved), (a: AlertData) => a.life.status == Resolved);
    SameWhere(s, Unclaimed(), (a: AlertData) => a.life.status == Open && a.life.assignee == "");
    SameWhere(s, OfSeverity(Critical), (a: AlertData) => a.evidence.severity == Critical);
    SameWhere(s, OfSeverity(High), (a: AlertData) => a.evidence.severity == High);
    SameWhere(s, OfSeverity(Medium), (a: AlertData) => a.evidence.severity == Medium);
    SameWhere(s, OfSeverity(Low), (a: AlertData) => a.evidence.severity == Low);
  }

  lemma SameWhere(s: seq<AlertData>, p: AlertData -> bool, q: AlertData -> bool)
    requires forall a | a in s :: p(a) == q(a)
    ensures Number(s, p) == |Where(s, q)|
  {
    FilterCounts(s, p);
    assert Where(s, p) == Where(s, q);
  }

  /** Paging with any positive size walks the whole queue: no gap and no repeat. */
  lemma PagesCoverQueue(s: seq<AlertData>, q: Query, size: nat)
    requires size > 0
    ensures Flatten(Pages(Queue(s, q), 0, size)) == Queue(s, q)
  {
    PagesFrom(Queue(s, q), 0, size);
  }

  /** The counters partition `n` alerts: by activity, the active ones by status, and all by severity. */
  predicate Partition(c: CountsData, n: nat) {
    && c.totalActive + c.resolved == n
    && c.open + c.held + c.inProgress == c.totalActive
    && c.unclaimed <= c.open
    && c.critical + c.high + c.medium + c.low + Tallied(c.bySeverity, Unset) == n
    && c.critical == Tallied(c.bySeverity, Critical) && c.high == Tallied(c.bySeverity, High)
    && c.medium == Tallied(c.bySeverity, Medium) && c.low == Tallied(c.bySeverity, Low)
  }

  lemma CountedPartition(c: CountsData, a: AlertData, n: nat)
    requires Partition(c, n)
    ensures Partition(Counted(c, a), n + 1)
  {
  }

  /** Counters that start at zero and are moved on alert by alert. */
  ghost predicate CountsAlong(f: seq<AlertData> -> CountsData) {
    && Partition(f([]), 0)
    && forall s: seq<AlertData>, a :: f(s + [a]) == Counted(f(s), a)
  }

  lemma {:induction false} PartitionAlong(s: seq<AlertData>, f: seq<AlertData> -> CountsData)
    requires CountsAlong(f)
    ensures Partition(f(s), |s|)
  {
    if s != [] {
      var front, a := s[..|s| - 1], s[|s| - 1];
      PartitionAlong(front, f);
      CountedPartition(f(front), a, |front|);
      assert s == front + [a] && f(front + [a]) == Counted(f(front), a);
    }
  }

  function Counting(): seq<AlertData> -> CountsData { (s: seq<AlertData>) => CountsOf(s) }

  /** The counters of a store partition its alerts. */
  lemma CountsPartition(s: seq<AlertData>)
    ensures Partition(CountsOf(s), |s|)
  {
    CountsOfNone();
    forall t: seq<AlertData>, a ensures Counting()(t + [a]) == Counted(Counting()(t), a) {
      CountsSnoc(t, a);
    }
    PartitionAlong(s, Counting());
  }
}
