/** The containment service: controls that are deployed, revoked, and lazily re-labelled when they lapse. */
module Containment {
  import opened Common

  datatype ControlType = BlockIP | RateLimit | WafRule | UnknownType(name: string)

  datatype ControlStatus = Active | Revoked | Lapsed

  /** What the duration text of a request parses to. */
  datatype ParsedDuration = Permanent | Lasting(nanos: int) | Malformed

  datatype Control = Control(
    id: string, kind: ControlType, targetIP: string, direction: string, duration: ParsedDuration,
    enforcement: string, status: ControlStatus, alertIDs: seq<string>, note: string,
    deployedAt: Time, expiresAt: Option<Time>, revokedAt: Option<Time>)

  datatype Error = NotFound | InvalidType | InvalidIP | InvalidDuration | NotActive

  datatype Result<+T> = Ok(value: T) | Err(error: Error)

  /** What an operator asks for. */
  datatype Request = Request(
    kind: ControlType, targetIP: string, direction: string, duration: ParsedDuration,
    enforcement: string, note: string, alertIDs: seq<string>)

  const ID_PREFIX: string := "CTR-"

  type ControlID = s: string | ID_PREFIX <= s witness ID_PREFIX

  type Items = map<string, Control>

  // ---- specification ----

  function Refusal(r: Request): Option<Error> {
    if r.kind.UnknownType? then Some(InvalidType)
    else if r.targetIP == "" then Some(InvalidIP)
    else if r.duration.Malformed? then Some(InvalidDuration)
    else None
  }

  function NewControl(r: Request, id: string, now: Time): Control {
    Control(id, r.kind, r.targetIP, r.direction, r.duration, r.enforcement, Active, r.alertIDs, r.note, now,
            if r.duration.Lasting? then Some(now + r.duration.nanos) else None, None)
  }

  function PastDue(c: Control, now: Time): bool {
    c.expiresAt.Some? && now > c.expiresAt.value
  }

  /** The lazy re-labelling. */
  function Resolved(c: Control, now: Time): Control {
    if c.status == Active && PastDue(c, now) then c.(status := Lapsed) else c
  }

  function DeployNext(items: Items, r: Request, suffix: string, now: Time): Items {
    if Refusal(r).Some? then items
    else items[ID_PREFIX + suffix := NewControl(r, ID_PREFIX + suffix, now)]
  }

  function RevokeNext(items: Items, id: string, now: Time): Items {
    if id in items && items[id].status == Active
    then items[id := items[id].(status := Revoked, revokedAt := Some(now))]
    else items
  }

  /** A listing asks for the controls against one address or, without an address, for all. */
  predicate Asked(controlIP: string, targetIP: string) {
    targetIP == "" || controlIP == targetIP
  }

  function ListNext(items: Items, targetIP: string, now: Time): Items {
    map id | id in items :: if Asked(items[id].targetIP, targetIP) then Resolved(items[id], now) else items[id]
  }

  function GetNext(items: Items, id: string, now: Time): Items {
    if id in items then items[id := Resolved(items[id], now)] else items
  }

  /** Newest first. */
  ghost predicate NewestFirst(s: seq<ControlRecord>) {
    forall i, j | 0 <= i < j < |s| :: s[i].deployedAt >= s[j].deployedAt
  }

  // ---- the service ----

  /** A deployed control. Only its status and revocation time are ever written again. */
  class ControlRecord {
    const id: ControlID
    const kind: ControlType
    const targetIP: string
    const direction: string
    const duration: ParsedDuration
    const enforcement: string
    const alertIDs: seq<string>
    const note: string
    const deployedAt: Time
    const expiresAt: Option<Time>
    var status: ControlStatus
    var revokedAt: Option<Time>

    constructor (r: Request, id: ControlID, now: Time)
      ensures View() == NewControl(r, id, now)
    {
      this.id, kind, targetIP, direction, duration := id, r.kind, r.targetIP, r.direction, r.duration;
      enforcement, alertIDs, note := r.enforcement, r.alertIDs, r.note;
      deployedAt := now;
      expiresAt := if r.duration.Lasting? then Some(now + r.duration.nanos) else None;
      status, revokedAt := Active, None;
    }

    function View(): Control
      reads this
    {
      Control(id, kind, targetIP, direction, duration, enforcement, status, alertIDs, note, deployedAt, expiresAt, revokedAt)
    }

    method Resolve(now: Time)
      modifies this`status
      ensures View() == Resolved(old(View()), now)
    {
      if status == Active && expiresAt.Some? && now > expiresAt.value {
        status := Lapsed;
      }
    }
  }

  class Service {
    var items: map<string, ControlRecord>

    ghost function Records(): set<ControlRecord>
      reads this
    {
      set id | id in items :: items[id]
    }

    ghost predicate Valid()
      reads this
    {
      forall id | id in items :: items[id].id == id
    }

    ghost function Model(): Items
      reads this, Records()
    {
      map id | id in items :: items[id].View()
    }

    /** The controls are what they were if none of their records was written. */
    twostate lemma Untouched()
      requires unchanged(this) && forall id | id in items :: unchanged(items[id])
      ensures Model() == old(Model())
    {
    }

    constructor ()
      ensures Valid() && Model() == map[] && Records() == {}
    {
      items := map[];
    }

    /** Deploys a control under the prefix and a suffix that the identifier source supplies. */
    method Deploy(r: Request, suffix: string, now: Time) returns (res: Result<ControlRecord>)
      requires Valid()
      modifies this
      ensures Valid() && fresh(Records() - old(Records()))
      ensures Model() == DeployNext(old(Model()), r, suffix, now)
      ensures Refusal(r).Some? ==> res == Err(Refusal(r).value)
      ensures Refusal(r).None? ==> res.Ok? && res.value.View() == NewControl(r, ID_PREFIX + suffix, now)
      ensures res.Ok? <==> !r.kind.UnknownType? && r.targetIP != "" && !r.duration.Malformed?
      ensures res == Err(InvalidType) <==> r.kind.UnknownType?
      ensures res == Err(InvalidIP) <==> !r.kind.UnknownType? && r.targetIP == ""
      ensures res.Ok? ==> && res.value.kind == r.kind && res.value.targetIP == r.targetIP && res.value.status == Active
                          && res.value.deployedAt == now && res.value.revokedAt == None
                          && (match r.duration
                              case Lasting(nanos) => res.value.expiresAt == Some(now + nanos)
                              case _ => res.value.expiresAt == None)
    {
      if r.kind.UnknownType? {
        return Err(InvalidType);
      }
      if r.targetIP == "" {
        return Err(InvalidIP);
      }
      if r.duration.Malformed? {
        return Err(InvalidDuration);
      }
      var c := new ControlRecord(r, ID_PREFIX + suffix, now);
      Keep(c);
      return Ok(c);
    }

    method Keep(c: ControlRecord)
      requires Valid()
      modifies this
      ensures Valid() && Records() <= old(Records()) + {c}
      ensures Model() == old(Model())[c.id := c.View()]
    {
      items := items[c.id := c];
    }

    method Get(id: string, now: Time) returns (res: Result<ControlRecord>)
      requires Valid()
      modifies Records()
      ensures Valid()
      ensures Model() == GetNext(old(Model()), id, now)
      ensures res == if id in items then Ok(items[id]) else Err(NotFound)
      ensures res.Ok? ==> Truthful(res.value, now)
    {
      if id !in items {
        return Err(NotFound);
      }
      items[id].Resolve(now);
      return Ok(items[id]);
    }

    function StatusAfter(c: ControlRecord, before: ControlStatus, targetIP: string, now: Time): ControlStatus {
      if Asked(c.targetIP, targetIP) && before == Active && c.expiresAt.Some? && now > c.expiresAt.value then Lapsed else before
    }

    /** Whether a control is still as it was, or as a visit at `now` leaves it. */
    twostate predicate Handled(c: ControlRecord, waiting: bool, targetIP: string, now: Time)
      reads c
    {
      c.status == if waiting then old(c.status) else StatusAfter(c, old(c.status), targetIP, now)
    }

    /** Re-labels and gathers the controls asked for, in the order the map gives them. */
    method Gather(targetIP: string, now: Time) returns (out: seq<ControlRecord>)
      requires Valid()
      modifies Records()`status
      ensures forall id | id in items :: Handled(items[id], false, targetIP, now)
      ensures Distinct(out)
      ensures forall c | c in out :: c.id in items && items[c.id] == c && Asked(c.targetIP, targetIP)
      ensures forall id | id in items && Asked(items[id].targetIP, targetIP) :: items[id] in out
    {
      out := [];
      var todo := items.Keys;
      while todo != {}
        invariant todo <= items.Keys
        invariant forall id | id in items :: Handled(items[id], id in todo, targetIP, now)
        invariant Distinct(out)
        invariant forall c | c in out :: c.id in items && c.id !in todo && items[c.id] == c && Asked(c.targetIP, targetIP)
        invariant forall id | id in items && id !in todo && Asked(items[id].targetIP, targetIP) :: items[id] in out
        decreases |todo|
      {
        var id :| id in todo;
        var c := items[id];
        assert c !in out && c in Records() && forall jd | jd in items && jd != id :: items[jd] != c;
        todo := todo - {id};
        out := Visit(c, targetIP, now, out);
      }
    }

    /** Re-labels one control and takes it along, unless it was not asked for. */
    method Visit(c: ControlRecord, targetIP: string, now: Time, taken: seq<ControlRecord>) returns (out: seq<ControlRecord>)
      requires Distinct(taken) && c !in taken
      modifies c`status
      ensures c.status == StatusAfter(c, old(c.status), targetIP, now)
      ensures Distinct(out) && forall d :: d in out <==> d in taken || (d == c && Asked(c.targetIP, targetIP))
    {
      if targetIP != "" && c.targetIP != targetIP {
        return taken;
      }
      c.Resolve(now);
      DistinctSnoc(taken, c);
      return taken + [c];
    }

    /** A control labelled active has not passed its expiry. */
    ghost predicate Truthful(c: ControlRecord, now: Time)
      reads c
    {
      c.status == Active && c.expiresAt.Some? ==> now <= c.expiresAt.value
    }

    /** The same, told by the table. */
    method Relabel(targetIP: string, now: Time) returns (out: seq<ControlRecord>)
      requires Valid()
      modifies Records()`status
      ensures Model() == ListNext(old(Model()), targetIP, now)
      ensures Distinct(out)
      ensures forall c | c in out :: c.id in items && items[c.id] == c && Asked(c.targetIP, targetIP)
      ensures forall id | id in items && Asked(items[id].targetIP, targetIP) :: items[id] in out
      ensures forall c | c in out :: Truthful(c, now)
    {
      out := Gather(targetIP, now);
    }

    /** Re-labels and returns the controls asked for, newest first. */
    method List(targetIP: string, now: Time) returns (out: seq<ControlRecord>)
      requires Valid()
      modifies Records()
      ensures Valid()
      ensures Model() == ListNext(old(Model()), targetIP, now)
      ensures NewestFirst(out) && Distinct(out)
      ensures forall c | c in out :: c.id in items && items[c.id] == c && (targetIP == "" || c.targetIP == targetIP)
      ensures forall id | id in items && (targetIP == "" || items[id].targetIP == targetIP) :: items[id] in out
      ensures forall c | c in out :: Truthful(c, now)
    {
      var gathered := Relabel(targetIP, now);
      ghost var after := Model();
      out := SortByDeployedDesc(gathered);
      assert Model() == after;
      SameElements(gathered, out);
    }

    method Revoke(id: string, now: Time) returns (res: Result<ControlRecord>)
      requires Valid()
      modifies Records()
      ensures Valid()
      ensures Model() == RevokeNext(old(Model()), id, now)
      ensures id !in items ==> res == Err(NotFound)
      ensures id in items ==> res == if old(items[id].status) == Active then Ok(items[id]) else Err(NotActive)
      ensures res.Ok? ==> items[id].status == Revoked && items[id].revokedAt == Some(now)
    {
      if id !in items {
        return Err(NotFound);
      }
      var c := items[id];
      if c.status != Active {
        return Err(NotActive);
      }
      c.status, c.revokedAt := Revoked, Some(now);
      return Ok(c);
    }
  }

  function DeployedAt(t: Time): ControlRecord -> bool { (c: ControlRecord) => c.deployedAt == t }

  /** Controls deployed at the same moment are in the order they were given in. */
  ghost predicate Stable(out: seq<ControlRecord>, input: seq<ControlRecord>) {
    forall t :: Filter(out, DeployedAt(t)) == Filter(input, DeployedAt(t))
  }

  /** The insertion sort of the source, swapping neighbours until each item is in place. */
  method SortByDeployedDesc(input: seq<ControlRecord>) returns (items: seq<ControlRecord>)
    ensures NewestFirst(items) && multiset(items) == multiset(input) && Stable(items, input)
  {
    items := input;
    for i := 0 to |input|
      invariant |items| == |input| && multiset(items) == multiset(input) && Stable(items, input)
      invariant NewestFirst(items[..i])
    {
      items := Sink(items, i);
    }
    assert items[..|input|] == items;
  }

  /** Moves one item forward past everything older. */
  method Sink(input: seq<ControlRecord>, i: nat) returns (items: seq<ControlRecord>)
    requires i < |input| && NewestFirst(input[..i])
    ensures multiset(items) == multiset(input) && |items| == |input| && Stable(items, input)
    ensures NewestFirst(items[..i + 1])
  {
    items := input;
    var j := i;
    while j > 0 && items[j].deployedAt > items[j - 1].deployedAt
      invariant 0 <= j <= i && |items| == |input| && multiset(items) == multiset(input) && Stable(items, input)
      invariant Sinking(items, i, j)
    {
      SwapKeepsElements(items, j);
      SwapIsStable(items, j);
      SwapSinks(items, i, j);
      items := items[j := items[j - 1]][j - 1 := items[j]];
      j := j - 1;
    }
    SunkIsSorted(items, i, j);
  }

  /** The first items are newest first, but for the one on its way forward. */
  ghost predicate Sinking(items: seq<ControlRecord>, i: nat, j: nat) {
    i < |items| && forall k, m | 0 <= k < m <= i && m != j :: items[k].deployedAt >= items[m].deployedAt
  }

  lemma SwapSinks(items: seq<ControlRecord>, i: nat, j: nat)
    requires Sinking(items, i, j) && 0 < j <= i && items[j].deployedAt > items[j - 1].deployedAt
    ensures Sinking(items[j := items[j - 1]][j - 1 := items[j]], i, j - 1)
  {
    var after := items[j := items[j - 1]][j - 1 := items[j]];
    forall k, m | 0 <= k < m <= i && m != j - 1 ensures after[k].deployedAt >= after[m].deployedAt {
      if m != j {
        assert items[j - 1].deployedAt >= items[m].deployedAt || m < j;
      }
    }
  }

  lemma SunkIsSorted(items: seq<ControlRecord>, i: nat, j: nat)
    requires Sinking(items, i, j) && j <= i && (j == 0 || items[j].deployedAt <= items[j - 1].deployedAt)
    ensures NewestFirst(items[..i + 1])
  {
  }

  lemma SwapIsStable(s: seq<ControlRecord>, j: nat)
    requires 0 < j < |s| && s[j].deployedAt > s[j - 1].deployedAt
    ensures Stable(s[j := s[j - 1]][j - 1 := s[j]], s)
  {
    var a, b := s[..j - 1], s[j + 1..];
    var x, y := s[j - 1], s[j];
    assert s == a + ([x] + [y]) + b;
    assert s[j := x][j - 1 := y] == a + ([y] + [x]) + b;
    forall t ensures Filter(a + ([y] + [x]) + b, DeployedAt(t)) == Filter(a + ([x] + [y]) + b, DeployedAt(t)) {
      FilterPair(a, x, y, b, DeployedAt(t));
    }
  }

  /** Exchanging two neighbours that are not both kept changes nothing for a filter. */
  lemma FilterPair<T>(a: seq<T>, x: T, y: T, b: seq<T>, p: T -> bool)
    requires !(p(x) && p(y))
    ensures Filter(a + ([y] + [x]) + b, p) == Filter(a + ([x] + [y]) + b, p)
  {
    FilterConcat(a + ([y] + [x]), b, p);
    FilterConcat(a + ([x] + [y]), b, p);
    FilterConcat(a, [y] + [x], p);
    FilterConcat(a, [x] + [y], p);
    FilterSnoc([x], y, p);
    FilterSnoc([y], x, p);
    assert [x][1..] == [] && [y][1..] == [];
  }

  lemma SwapKeepsElements<T>(s: seq<T>, j: nat)
    requires 0 < j < |s|
    ensures multiset(s[j := s[j - 1]][j - 1 := s[j]]) == multiset(s)
  {
  }

  lemma SameElements(a: seq<ControlRecord>, b: seq<ControlRecord>)
    requires multiset(a) == multiset(b)
    ensures forall c :: c in a <==> c in b
    ensures Distinct(a) ==> Distinct(b)
  {
    forall c ensures c in a <==> c in b {
      assert c in a <==> c in multiset(a);
      assert c in b <==> c in multiset(b);
    }
    if Distinct(a) {
      forall i, j | 0 <= i < j < |b| ensures b[i] != b[j] {
        if b[i] == b[j] {
          TwiceInMultiset(b, i, j);
          AtMostOnce(a, b[i]);
        }
      }
    }
  }

  lemma TwiceInMultiset<T>(s: seq<T>, i: nat, j: nat)
    requires i < j < |s| && s[i] == s[j]
    ensures multiset(s)[s[i]] >= 2
  {
    assert s == s[..i] + [s[i]] + s[i + 1..j] + [s[j]] + s[j + 1..];
  }

  lemma {:induction false} AtMostOnce<T>(s: seq<T>, x: T)
    requires Distinct(s)
    ensures multiset(s)[x] <= 1
  {
    if s != [] {
      AtMostOnce(s[1..], x);
      assert s == [s[0]] + s[1..];
      if x == s[0] {
        assert x !in s[1..];
      }
    }
  }
}
