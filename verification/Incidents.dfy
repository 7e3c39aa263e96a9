/** Incidents: alerts grouped by where they come from. */
module Incidents {
  import opened Common
  import opened Events
  import opened Alerts
  import opened KillChain
  import Sorting

  const MINUTE: Time := 60000000000
  const RESPONSE_TARGET: Time := 15 * MINUTE
  const MITIGATION_TARGET: Time := 120 * MINUTE

  /** A case over all alerts of one key. The source's identifier is a hash of that key. */
  datatype Incident = Incident(
    key: string, srcIP: string, asset: string, severity: Severity, status: Option<Status>, alertIDs: seq<string>,
    count: nat, assets: set<string>, techniques: set<string>, chain: Chain, firstSeen: Time, lastSeen: Time,
    answered: bool, closed: bool, responseBreached: bool, mitigationBreached: bool)

  function KeyOf(a: AlertData): string {
    if a.evidence.srcIP != "" then "ip:" + a.evidence.srcIP else "asset:" + a.evidence.asset
  }

  function HasKey(key: string): AlertData -> bool { (a: AlertData) => KeyOf(a) == key }

  function WithKey(s: seq<AlertData>, key: string): seq<AlertData> { Filter(s, HasKey(key)) }

  predicate HasActive(s: seq<AlertData>) { exists a :: a in s && a.IsActive() }

  // ---- what one incident says about its group ----

  function FirstNonEmpty(texts: seq<string>): string {
    if texts == [] then ""
    else
      var before := FirstNonEmpty(texts[..|texts| - 1]);
      if before == "" then texts[|texts| - 1] else before
  }

  function Addresses(s: seq<AlertData>): seq<string> { seq(|s|, i requires 0 <= i < |s| => s[i].evidence.srcIP) }

  function Assets(s: seq<AlertData>): seq<string> { seq(|s|, i requires 0 <= i < |s| => s[i].evidence.asset) }

  function IDs(s: seq<AlertData>): seq<string> { seq(|s|, i requires 0 <= i < |s| => s[i].who.id) }

  /** The status fold of the source: resolved alerts are passed over. */
  function StatusStep(status: Option<Status>, a: Status): Option<Status> {
    match a
    case Resolved => status
    case InProgress => Some(InProgress)
    case Assigned => if status == Some(InProgress) then status else Some(Assigned)
    case Open => if status == None then Some(Open) else status
  }

  function StatusOf(s: seq<AlertData>): Option<Status> {
    if s == [] then None else StatusStep(StatusOf(s[..|s| - 1]), s[|s| - 1].life.status)
  }

  function IncidentOf(group: seq<AlertData>, now: Time): Incident
    requires group != []
  {
    IncidentWith(group, ChainOf(Techniques(), group), now)
  }

  function IncidentWith(group: seq<AlertData>, chain: Chain, now: Time): Incident
    requires group != []
  {
    var first := FirstSeen(group);
    var answered := exists a :: a in group && a.life.status != Open;
    var closed := exists a :: a in group && a.life.resolvedAt.Some?;
    Incident(KeyOf(group[0]), FirstNonEmpty(Addresses(group)), FirstNonEmpty(Assets(group)),
             TopSeverity(group), StatusOf(group), IDs(group), |group|,
             set a | a in group :: a.evidence.asset, set a | a in group :: a.who.ruleID,
             chain, first, LastSeen(group),
             answered, closed, !answered && now > first + RESPONSE_TARGET, !closed && now > first + MITIGATION_TARGET)
  }

  // ---- grouping ----

  /** The keys of a list in order of first appearance. */
  function Keys(s: seq<AlertData>): seq<string> {
    if s == [] then []
    else
      var before := Keys(s[..|s| - 1]);
      var key := KeyOf(s[|s| - 1]);
      if key in before then before else before + [key]
  }

  /** The incident of each key that has an active alert. */
  function IncidentAt(s: seq<AlertData>, now: Time): string -> Option<Incident> {
    (key: string) =>
      var group := WithKey(s, key);
      if group != [] && HasActive(group) then Some(IncidentOf(group, now)) else None
  }

  function IncidentsOver(s: seq<AlertData>, keys: seq<string>, now: Time): seq<Incident> {
    Collected(keys, IncidentAt(s, now))
  }

  /** The more severe first, then the more recently seen. */
  function Urgency(): (Incident, Incident) -> bool {
    (a: Incident, b: Incident) =>
      if Rank(a.severity) != Rank(b.severity) then Rank(a.severity) > Rank(b.severity) else a.lastSeen > b.lastSeen
  }

  lemma UrgencyIsOrdering()
    ensures Sorting.Ordering(Urgency())
  {
  }

  // ---- the loops ----

  method HasActiveAlert(s: seq<AlertData>) returns (r: bool)
    ensures r == HasActive(s)
  {
    for i := 0 to |s|
      invariant forall j | 0 <= j < i :: !s[j].IsActive()
    {
      if s[i].life.status.IsActive() {
        assert s[i] in s;
        return true;
      }
    }
    return false;
  }

  /** What the loop over a group gathers. */
  datatype Gathered = Gathered(
    srcIP: string, asset: string, severity: Severity, status: Option<Status>, ids: seq<string>,
    assets: set<string>, techniques: set<string>, first: Time, last: Time)

  function GatheredFrom(s: seq<AlertData>): Gathered {
    Gathered(FirstNonEmpty(Addresses(s)), FirstNonEmpty(Assets(s)), TopSeverity(s), StatusOf(s), IDs(s),
             set a | a in s :: a.evidence.asset, set a | a in s :: a.who.ruleID, FirstSeen(s), LastSeen(s))
  }

  function GatherStep(g: Gathered, a: AlertData): Gathered {
    Gathered(if g.srcIP == "" then a.evidence.srcIP else g.srcIP, if g.asset == "" then a.evidence.asset else g.asset,
             Worse(g.severity, a.evidence.severity), StatusStep(g.status, a.life.status), g.ids + [a.who.id],
             g.assets + {a.evidence.asset}, g.techniques + {a.who.ruleID},
             Sooner(g.first, a.who.startedAt), Later(g.last, a.evidence.lastSeenAt))
  }

  /** One alert of the loop. */
  method Gather(before: Gathered, a: AlertData) returns (g: Gathered)
    ensures g == GatherStep(before, a)
  {
    g := before.(ids := before.ids + [a.who.id], assets := before.assets + {a.evidence.asset},
                 techniques := before.techniques + {a.who.ruleID});
    if Rank(a.evidence.severity) > Rank(g.severity) {
      g := g.(severity := a.evidence.severity);
    }
    if g.srcIP == "" && a.evidence.srcIP != "" {
      g := g.(srcIP := a.evidence.srcIP);
    }
    if g.asset == "" && a.evidence.asset != "" {
      g := g.(asset := a.evidence.asset);
    }
    if g.first == ZERO_TIME || a.who.startedAt < g.first {
      g := g.(first := a.who.startedAt);
    }
    if a.evidence.lastSeenAt > g.last {
      g := g.(last := a.evidence.lastSeenAt);
    }
    if a.life.status != Resolved {
      if a.life.status == InProgress {
        g := g.(status := Some(InProgress));
      } else if a.life.status == Assigned {
        if g.status != Some(InProgress) {
          g := g.(status := Some(Assigned));
        }
      } else if g.status == None {
        g := g.(status := Some(Open));
      }
    }
  }

  method GatherAll(group: seq<AlertData>) returns (g: Gathered)
    ensures g == GatheredFrom(group)
  {
    g := Gathered("", "", Unset, None, [], {}, {}, ZERO_TIME, ZERO_TIME);
    for i := 0 to |group|
      invariant g == GatheredFrom(group[..i])
    {
      GatherSnoc(group[..i], group[i]);
      assert group[..i + 1] == group[..i] + [group[i]];
      g := Gather(g, group[i]);
    }
    assert group[..|group|] == group;
  }

  method BuildIncident(group: seq<AlertData>, now: Time) returns (inc: Incident)
    requires group != []
    ensures inc == IncidentOf(group, now)
  {
    var chain := BuildChain(group);
    inc := Assemble(group, chain, now);
  }

  method Assemble(group: seq<AlertData>, chain: Chain, now: Time) returns (inc: Incident)
    requires group != []
    ensures inc == IncidentWith(group, chain, now)
  {
    var g := GatherAll(group);
    var answered, closed := Answered(group);
    inc := Incident(KeyOf(group[0]), g.srcIP, g.asset, g.severity, g.status, g.ids, |group|, g.assets, g.techniques, chain,
                    g.first, g.last, answered, closed,
                    !answered && now > g.first + RESPONSE_TARGET, !closed && now > g.first + MITIGATION_TARGET);
  }

  method Answered(group: seq<AlertData>) returns (answered: bool, closed: bool)
    ensures answered <==> exists a :: a in group && a.life.status != Open
    ensures closed <==> exists a :: a in group && a.life.resolvedAt.Some?
  {
    answered, closed := false, false;
    for i := 0 to |group|
      invariant answered <==> exists j :: 0 <= j < i && group[j].life.status != Open
      invariant closed <==> exists j :: 0 <= j < i && group[j].life.resolvedAt.Some?
    {
      if group[i].life.status == Assigned || group[i].life.status == InProgress || group[i].life.status == Resolved {
        answered := true;
      }
      if group[i].life.resolvedAt.Some? {
        closed := true;
      }
    }
  }

  lemma TextsSnoc(texts: seq<string>, t: string)
    ensures FirstNonEmpty(texts + [t]) == if FirstNonEmpty(texts) == "" then t else FirstNonEmpty(texts)
  {
    assert (texts + [t])[..|texts|] == texts;
  }

  lemma GatherSnoc(s: seq<AlertData>, a: AlertData)
    ensures GatheredFrom(s + [a]) == GatherStep(GatheredFrom(s), a)
  {
    assert (s + [a])[..|s|] == s;
    assert Addresses(s + [a]) == Addresses(s) + [a.evidence.srcIP];
    assert Assets(s + [a]) == Assets(s) + [a.evidence.asset];
    assert IDs(s + [a]) == IDs(s) + [a.who.id];
    TextsSnoc(Addresses(s), a.evidence.srcIP);
    TextsSnoc(Assets(s), a.evidence.asset);
  }

  /** The groups and the order of their keys, for the alerts seen so far. */
  ghost predicate Grouped(groups: map<string, seq<AlertData>>, order: seq<string>, s: seq<AlertData>) {
    && order == Keys(s) && groups.Keys == (set k | k in order)
    && forall k | k in groups :: groups[k] == WithKey(s, k)
  }

  lemma GroupStep(groups: map<string, seq<AlertData>>, order: seq<string>, s: seq<AlertData>, a: AlertData, key: string)
    requires Grouped(groups, order, s) && key == KeyOf(a)
    ensures Grouped(groups[key := (if key in groups then groups[key] else []) + [a]],
                    if key in groups then order else order + [key], s + [a])
  {
    KeysSnoc(s, a);
    KeysAreSeen(s, key);
    var after := groups[key := (if key in groups then groups[key] else []) + [a]];
    forall k | k in after ensures after[k] == WithKey(s + [a], k) {
      FilterSnoc(s, a, HasKey(k));
    }
  }

  method GroupByKey(s: seq<AlertData>) returns (groups: map<string, seq<AlertData>>, order: seq<string>)
    ensures Grouped(groups, order, s)
  {
    groups, order := map[], [];
    for i := 0 to |s|
      invariant Grouped(groups, order, s[..i])
    {
      var key := KeyOf(s[i]);
      GroupStep(groups, order, s[..i], s[i], key);
      assert s[..i + 1] == s[..i] + [s[i]];
      if key !in groups {
        order := order + [key];
      }
      groups := groups[key := (if key in groups then groups[key] else []) + [s[i]]];
    }
    assert s[..|s|] == s;
  }

  method GroupIncidents(s: seq<AlertData>, now: Time) returns (out: seq<Incident>)
    ensures multiset(out) == multiset(IncidentsOver(s, Keys(s), now))
    ensures forall i, j | 0 <= i < j < |out| ::
              && AsSevere(out[i].severity, out[j].severity)
              && (out[i].severity == out[j].severity ==> out[i].lastSeen >= out[j].lastSeen)
  {
    var groups, order := GroupByKey(s);
    forall k | k in order ensures WithKey(s, k) != [] {
      KeysAreSeen(s, k);
    }
    var found := BuildAll(s, groups, order, now);
    UrgencyIsOrdering();
    Sorting.SortIsStable(found, Urgency());
    Sorting.SortMultiset(found, Urgency());
    out := Sorting.Sort(found, Urgency());
    forall i, j | 0 <= i < j < |out|
      ensures AsSevere(out[i].severity, out[j].severity)
      ensures out[i].severity == out[j].severity ==> out[i].lastSeen >= out[j].lastSeen
    {
      assert !Urgency()(out[j], out[i]);
      RankIsSeverity(out[i].severity, out[j].severity);
    }
  }

  method BuildAll(s: seq<AlertData>, groups: map<string, seq<AlertData>>, order: seq<string>, now: Time) returns (out: seq<Incident>)
    requires forall k | k in order :: k in groups && groups[k] == WithKey(s, k)
    requires forall k | k in order :: WithKey(s, k) != []
    ensures out == IncidentsOver(s, order, now)
  {
    out := [];
    for i := 0 to |order|
      invariant out == IncidentsOver(s, order[..i], now)
    {
      assert order[..i + 1][..i] == order[..i];
      var group := groups[order[i]];
      var active := HasActiveAlert(group);
      if !active {
        continue;
      }
      var inc := BuildIncident(group, now);
      out := out + [inc];
    }
    assert order[..|order|] == order;
  }

  // ---- what grouping keeps ----

  lemma KeysSnoc(s: seq<AlertData>, a: AlertData)
    ensures Keys(s + [a]) == if KeyOf(a) in Keys(s) then Keys(s) else Keys(s) + [KeyOf(a)]
  {
    assert (s + [a])[..|s|] == s;
  }

  lemma {:induction false} KeysAreSeen(s: seq<AlertData>, key: string)
    ensures key in Keys(s) <==> WithKey(s, key) != []
    ensures Distinct(Keys(s))
  {
    if s != [] {
      var front, a := s[..|s| - 1], s[|s| - 1];
      assert s == front + [a];
      KeysAreSeen(front, key);
      KeysSnoc(front, a);
      FilterSnoc(front, a, HasKey(key));
      if KeyOf(a) !in Keys(front) {
        DistinctSnoc(Keys(front), KeyOf(a));
      }
    }
  }

  lemma GroupSharesKey(s: seq<AlertData>, key: string)
    ensures forall a :: a in WithKey(s, key) <==> a in s && KeyOf(a) == key
  {
    forall a ensures a in WithKey(s, key) <==> a in s && KeyOf(a) == key {
      FilterMember(s, HasKey(key), a);
    }
  }

  /** The incident at a key sums up exactly the alerts of that key, and names it. */
  lemma IncidentNamesItsKey(s: seq<AlertData>, now: Time, key: string)
    ensures IncidentAt(s, now)(key).Some? <==> exists a :: a in s && KeyOf(a) == key && a.IsActive()
    ensures IncidentAt(s, now)(key).Some? ==>
              && IncidentAt(s, now)(key).value.key == key
              && IncidentAt(s, now)(key).value.alertIDs == IDs(WithKey(s, key))
  {
    GroupSharesKey(s, key);
    var group := WithKey(s, key);
    if group != [] {
      assert group[0] in group;
    }
    if exists a :: a in s && KeyOf(a) == key && a.IsActive() {
      var a :| a in s && KeyOf(a) == key && a.IsActive();
      assert a in group;
    }
    if HasActive(group) {
      var a :| a in group && a.IsActive();
      assert a in s;
    }
  }

  lemma {:induction false} CollectedOnce(keys: seq<string>, f: string -> Option<Incident>)
    requires Distinct(keys) && forall k | f(k).Some? :: f(k).value.key == k
    ensures forall inc :: inc in Collected(keys, f) <==> inc.key in keys && f(inc.key) == Some(inc)
    ensures forall inc :: multiset(Collected(keys, f))[inc] <= 1
  {
    if keys != [] {
      var front, key := keys[..|keys| - 1], keys[|keys| - 1];
      CollectedOnce(front, f);
      assert keys == front + [key];
      assert forall k :: k in keys <==> k in front || k == key;
      var before := Collected(front, f);
      if f(key).Some? {
        assert f(key).value !in before;
        assert multiset(before)[f(key).value] == 0;
      }
    }
  }

  /** Grouping is a partition: the incidents are those of the keys that have an active alert, none comes
      twice, each lists exactly the alerts of its key, and so every active alert is in one incident. */
  lemma GroupingPartitions(s: seq<AlertData>, now: Time)
    ensures var out := IncidentsOver(s, Keys(s), now);
      && (forall inc :: inc in out <==> IncidentAt(s, now)(inc.key) == Some(inc))
      && (forall inc :: multiset(out)[inc] <= 1)
      && (forall inc | inc in out :: inc.alertIDs == IDs(WithKey(s, inc.key)))
      && (forall a | a in s && a.IsActive() :: exists inc :: inc in out && inc.key == KeyOf(a))
  {
    KeysAreSeen(s, "");
    var f, out := IncidentAt(s, now), IncidentsOver(s, Keys(s), now);
    forall k ensures f(k).Some? <==> exists a :: a in s && KeyOf(a) == k && a.IsActive()
             ensures f(k).Some? ==> f(k).value.key == k && f(k).value.alertIDs == IDs(WithKey(s, k)) && k in Keys(s) {
      IncidentNamesItsKey(s, now, k);
      GroupSharesKey(s, k);
      KeysAreSeen(s, k);
    }
    CollectedOnce(Keys(s), f);
    forall a | a in s && a.IsActive() ensures exists inc :: inc in out && inc.key == KeyOf(a) {
      assert f(KeyOf(a)).Some?;
      assert f(KeyOf(a)).value in out;
    }
  }

  /** How far along the work on an active alert is. */
  function Progress(status: Option<Status>): nat {
    match status
    case None => 0
    case Some(s) => (match s case Resolved => 0 case Open => 1 case Assigned => 2 case InProgress => 3)
  }

  /** An incident has the furthest status of its active alerts, or none if all are resolved. */
  lemma {:induction false} StatusIsFurthest(s: seq<AlertData>)
    ensures StatusOf(s) != Some(Resolved)
    ensures forall a | a in s :: Progress(Some(a.life.status)) <= Progress(StatusOf(s))
    ensures StatusOf(s).Some? ==> exists a :: a in s && Some(a.life.status) == StatusOf(s)
  {
    if s != [] {
      var front, x := s[..|s| - 1], s[|s| - 1];
      StatusIsFurthest(front);
      assert x in s;
      forall a | a in s ensures Progress(Some(a.life.status)) <= Progress(StatusOf(s)) {
        assert a in front || a == x;
      }
      if StatusOf(s).Some? && Some(x.life.status) != StatusOf(s) {
        var a :| a in front && Some(a.life.status) == StatusOf(front);
        assert a in s;
      }
    }
  }

  /** The order in which alerts are given does not change the status of their incident. */
  lemma StatusIgnoresOrder(s: seq<AlertData>, t: seq<AlertData>)
    requires multiset(s) == multiset(t)
    ensures StatusOf(s) == StatusOf(t)
  {
    StatusIsFurthest(s);
    StatusIsFurthest(t);
    forall a ensures a in s <==> a in t {
      assert a in s <==> a in multiset(s);
      assert a in t <==> a in multiset(t);
    }
    assert Progress(StatusOf(s)) == Progress(StatusOf(t));
  }

  /** An incident and its kill chain, two folds over the same alerts, agree on how many there are and
      how severe the worst is and, for dated alerts, on when they began and were last seen. */
  lemma IncidentAgreesWithItsChain(group: seq<AlertData>, now: Time)
    requires group != []
    ensures var inc := IncidentOf(group, now);
      && inc.chain.total == inc.count && inc.chain.maxSeverity == inc.severity
      && (Dated(group) ==> LeastFirst(inc.chain.phases, inc.firstSeen) && GreatestLast(inc.chain.phases, inc.lastSeen))
  {
    TechniquesAreValid();
    ChainKeepsEveryAlert(Techniques(), group);
    ChainSeverityIsFlat(Techniques(), group);
    if Dated(group) {
      ChainTimesAreFlat(Techniques(), group);
    }
  }

  // ---- incidents, told by the alerts' fields ----

  /** Two alerts belong together: they have one address, or neither has any and they have one asset. */
  predicate Together(a: AlertData, b: AlertData) {
    if a.evidence.srcIP != "" then b.evidence.srcIP == a.evidence.srcIP
    else b.evidence.srcIP == "" && b.evidence.asset == a.evidence.asset
  }

  function With(a: AlertData): AlertData -> bool { (b: AlertData) => Together(a, b) }

  lemma KeysMeanTogether(a: AlertData, b: AlertData)
    ensures KeyOf(a) == KeyOf(b) <==> Together(a, b)
  {
    var x, y := KeyOf(a), KeyOf(b);
    assert a.evidence.srcIP != "" ==> x[0] == 'i' && x[3..] == a.evidence.srcIP;
    assert b.evidence.srcIP != "" ==> y[0] == 'i' && y[3..] == b.evidence.srcIP;
    assert a.evidence.srcIP == "" ==> x[0] == 'a' && x[6..] == a.evidence.asset;
    assert b.evidence.srcIP == "" ==> y[0] == 'a' && y[6..] == b.evidence.asset;
  }

  lemma {:induction false} SameFilters(s: seq<AlertData>, p: AlertData -> bool, q: AlertData -> bool)
    requires forall a | a in s :: p(a) <==> q(a)
    ensures Filter(s, p) == Filter(s, q)
  {
    if s != [] {
      assert s[0] in s && forall a | a in s[1..] :: a in s;
      SameFilters(s[1..], p, q);
    }
  }

  lemma GroupIsTogether(s: seq<AlertData>, a: AlertData)
    ensures WithKey(s, KeyOf(a)) == Filter(s, With(a))
  {
    forall b | b in s ensures HasKey(KeyOf(a))(b) <==> With(a)(b) {
      KeysMeanTogether(a, b);
    }
    SameFilters(s, HasKey(KeyOf(a)), With(a));
  }

  /** Every alert that is not resolved is in an incident, and every incident is that of one: it lists exactly the
      alerts that belong together with it, open or not, in the order given. */
  lemma IncidentsHoldWhatBelongsTogether(s: seq<AlertData>, now: Time)
    ensures var out := IncidentsOver(s, Keys(s), now);
      && (forall a | a in s && a.life.status != Resolved :: exists inc :: inc in out && inc.alertIDs == IDs(Filter(s, With(a))))
      && (forall inc | inc in out ::
            exists a :: a in s && a.life.status != Resolved && inc.alertIDs == IDs(Filter(s, With(a))))
  {
    GroupingPartitions(s, now);
    var out := IncidentsOver(s, Keys(s), now);
    forall a | a in s && a.life.status != Resolved
      ensures exists inc :: inc in out && inc.alertIDs == IDs(Filter(s, With(a)))
    {
      GroupIsTogether(s, a);
      var inc :| inc in out && inc.key == KeyOf(a);
    }
    forall inc | inc in out
      ensures exists a :: a in s && a.life.status != Resolved && inc.alertIDs == IDs(Filter(s, With(a)))
    {
      IncidentNamesItsKey(s, now, inc.key);
      var a :| a in s && KeyOf(a) == inc.key && a.IsActive();
      GroupIsTogether(s, a);
    }
  }

  lemma {:induction false} FirstTextStays(texts: seq<string>)
    ensures texts != [] && texts[0] != "" ==> FirstNonEmpty(texts) == texts[0]
    ensures FirstNonEmpty(texts) == "" <==> forall i | 0 <= i < |texts| :: texts[i] == ""
    ensures FirstNonEmpty(texts) != "" ==> FirstNonEmpty(texts) in texts
  {
    if texts != [] {
      FirstTextStays(texts[..|texts| - 1]);
    }
  }

  lemma AddressIsShared(group: seq<AlertData>)
    requires group != [] && forall a | a in group :: Together(group[0], a)
    ensures FirstNonEmpty(Addresses(group)) == group[0].evidence.srcIP
  {
    FirstTextStays(Addresses(group));
    forall i | 0 <= i < |group| ensures Addresses(group)[i] == group[0].evidence.srcIP {
      assert group[i] in group;
    }
  }

  lemma AssetIsOneOfTheirs(group: seq<AlertData>)
    ensures var asset := FirstNonEmpty(Assets(group));
      && (asset == "" <==> forall a | a in group :: a.evidence.asset == "")
      && (asset != "" ==> exists a :: a in group && a.evidence.asset == asset)
  {
    FirstTextStays(Assets(group));
    AssetsAreGroups(group);
    forall i | 0 <= i < |group| ensures group[i] in group && Assets(group)[i] == group[i].evidence.asset {
    }
  }

  /** An incident has the address its alerts share and the asset of one of them, if any has one; and it breaches its
      targets exactly when nothing in it has been picked up within a quarter of an hour of the first sight, and
      nothing resolved within two hours. */
  lemma IncidentSaysWhatItsAlertsSay(group: seq<AlertData>, chain: Chain, now: Time)
    requires group != [] && forall a | a in group :: Together(group[0], a)
    ensures var inc := IncidentWith(group, chain, now);
      && inc.srcIP == group[0].evidence.srcIP && inc.firstSeen == FirstSeen(group) && inc.lastSeen == LastSeen(group)
      && (inc.asset == "" <==> forall a | a in group :: a.evidence.asset == "")
      && (inc.asset != "" ==> exists a :: a in group && a.evidence.asset == inc.asset)
      && (inc.responseBreached <==> now > inc.firstSeen + 900000000000 && forall a | a in group :: a.life.status == Open)
      && (inc.mitigationBreached <==> now > inc.firstSeen + 7200000000000 && forall a | a in group :: a.life.resolvedAt == None)
  {
    AddressIsShared(group);
    AssetIsOneOfTheirs(group);
  }

  lemma AssetsAreGroups(group: seq<AlertData>)
    ensures forall x :: x in Assets(group) <==> exists a :: a in group && a.evidence.asset == x
  {
    forall x ensures x in Assets(group) <==> exists a :: a in group && a.evidence.asset == x {
      if x in Assets(group) {
        var i :| 0 <= i < |group| && Assets(group)[i] == x;
        assert group[i] in group;
      }
      if exists a :: a in group && a.evidence.asset == x {
        var a :| a in group && a.evidence.asset == x;
        var i :| 0 <= i < |group| && group[i] == a;
        assert Assets(group)[i] == x;
      }
    }
  }
}
