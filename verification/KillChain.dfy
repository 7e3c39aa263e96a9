/** The kill chain: alerts folded by phase, and what that fold keeps of the flat list. */
module KillChain {
  import opened Common
  import opened Events
  import opened Rules
  import opened Alerts

  datatype Phase =
    | Recon | InitialAccess | Execution | Persistence | DefenseEvasion | CredentialAccess
    | Discovery | LateralMovement | Collection | CommandAndControl | Exfiltration | Impact

  const PHASE_ORDER: seq<Phase> := [
    Recon, InitialAccess, Execution, Persistence, DefenseEvasion, CredentialAccess,
    Discovery, LateralMovement, Collection, CommandAndControl, Exfiltration, Impact]

  function PhaseForTechnique(t: string): Phase {
    if t in ["T1595.001", "T1595", "T1083", "T1046", "T1595.002", "T1057"] then Recon
    else if t in ["T1190", "T1133", "T1566", "T1189", "T1200"] then InitialAccess
    else if t in ["T1059", "T1203", "T1106"] then Execution
    else if t in ["T1505.003", "T1505", "T1543", "T1574"] then Persistence
    else if t in ["T1078.004", "T1078", "T1562", "T1027"] then DefenseEvasion
    else if t in ["T1110", "T1111", "T1558", "T1003"] then CredentialAccess
    else if t in ["T1087", "T1016", "T1018", "T1033", "T1082"] then Discovery
    else if t in ["T1021", "T1563", "T1570"] then LateralMovement
    else if t in ["T1005", "T1213", "T1560"] then Collection
    else if t in ["T1071", "T1105", "T1573"] then CommandAndControl
    else if t in ["T1041", "T1567", "T1020"] then Exfiltration
    else if t in ["T1486", "T1489", "T1490"] then Impact
    else InitialAccess
  }

  /** How phases are assigned, and the order they are listed in. What the folds keep depends on neither. */
  datatype Phasing = Phasing(phase: string -> Phase, order: seq<Phase>)
  {
    /** Every phase is listed, in kill-chain order. */
    ghost predicate Valid() { Ascending(order) && forall p: Phase :: p in order }
  }

  /** The assignment and the order of the source. */
  function Techniques(): Phasing { Phasing((t: string) => PhaseForTechnique(t), PHASE_ORDER) }

  /** The phase of an alert: the source looks it up by rule identifier. */
  function PhaseOf(ph: Phasing, a: AlertData): Phase { ph.phase(a.who.ruleID) }

  datatype ChainPhase = ChainPhase(
    phase: Phase, alerts: seq<AlertData>, count: nat, blocked: nat, severity: Severity, firstSeen: Time, lastSeen: Time)

  datatype Chain = Chain(
    srcIP: string, asset: string, total: nat, maxSeverity: Severity, reached: Option<Phase>,
    startedAt: Time, lastSeenAt: Time, phases: seq<ChainPhase>)

  // ---- the folds ----

  function InPhase(ph: Phasing, p: Phase): AlertData -> bool { (a: AlertData) => PhaseOf(ph, a) == p }

  function Group(ph: Phasing, s: seq<AlertData>, p: Phase): seq<AlertData> { Filter(s, InPhase(ph, p)) }

  function Worse(a: Severity, b: Severity): Severity { if Rank(b) > Rank(a) then b else a }

  function Sooner(seen: Time, t: Time): Time { if seen == ZERO_TIME || t < seen then t else seen }

  function Later(seen: Time, t: Time): Time { if t > seen then t else seen }

  function TopSeverity(s: seq<AlertData>): Severity {
    if s == [] then Unset else Worse(TopSeverity(s[..|s| - 1]), s[|s| - 1].evidence.severity)
  }

  function FirstSeen(s: seq<AlertData>): Time {
    if s == [] then ZERO_TIME else Sooner(FirstSeen(s[..|s| - 1]), s[|s| - 1].who.startedAt)
  }

  function LastSeen(s: seq<AlertData>): Time {
    if s == [] then ZERO_TIME else Later(LastSeen(s[..|s| - 1]), s[|s| - 1].evidence.lastSeenAt)
  }

  function BlockedTotal(s: seq<AlertData>): nat {
    if s == [] then 0 else BlockedTotal(s[..|s| - 1]) + s[|s| - 1].evidence.blockedCount
  }

  function Summary(p: Phase, group: seq<AlertData>): ChainPhase {
    ChainPhase(p, group, |group|, BlockedTotal(group), TopSeverity(group), FirstSeen(group), LastSeen(group))
  }

  /** The summary of each phase that has alerts. */
  function PhaseAt(ph: Phasing, s: seq<AlertData>): Phase -> Option<ChainPhase> {
    (p: Phase) => if Group(ph, s, p) == [] then None else Some(Summary(p, Group(ph, s, p)))
  }

  function PhasesOver(ph: Phasing, s: seq<AlertData>, order: seq<Phase>): seq<ChainPhase> {
    Collected(order, PhaseAt(ph, s))
  }

  function Total(phases: seq<ChainPhase>): nat {
    if phases == [] then 0 else Total(phases[..|phases| - 1]) + phases[|phases| - 1].count
  }

  function WorstPhase(phases: seq<ChainPhase>): Severity {
    if phases == [] then Unset else Worse(WorstPhase(phases[..|phases| - 1]), phases[|phases| - 1].severity)
  }

  function ChainOf(ph: Phasing, s: seq<AlertData>): Chain {
    var phases := PhasesOver(ph, s, ph.order);
    var n := |phases|;
    Chain(if s == [] then "" else s[0].evidence.srcIP, if s == [] then "" else s[0].evidence.asset,
          Total(phases), if n == 0 then Unset else WorstPhase(phases),
          if n == 0 then None else Some(phases[n - 1].phase),
          if n == 0 then ZERO_TIME else phases[0].firstSeen, if n == 0 then ZERO_TIME else phases[n - 1].lastSeen,
          phases)
  }

  // ---- the loops ----

  method Summarize(p: Phase, group: seq<AlertData>) returns (cp: ChainPhase)
    ensures cp == Summary(p, group)
  {
    cp := ChainPhase(p, [], |group|, 0, Unset, ZERO_TIME, ZERO_TIME);
    for i := 0 to |group|
      invariant cp == Summary(p, group[..i]).(count := |group|)
    {
      var a := group[i];
      assert group[..i + 1] == group[..i] + [a] && group[..i + 1][..i] == group[..i];
      cp := cp.(alerts := cp.alerts + [a], blocked := cp.blocked + a.evidence.blockedCount);
      if Rank(a.evidence.severity) > Rank(cp.severity) {
        cp := cp.(severity := a.evidence.severity);
      }
      if cp.firstSeen == ZERO_TIME || a.who.startedAt < cp.firstSeen {
        cp := cp.(firstSeen := a.who.startedAt);
      }
      if a.evidence.lastSeenAt > cp.lastSeen {
        cp := cp.(lastSeen := a.evidence.lastSeenAt);
      }
    }
    assert group[..|group|] == group;
  }

  /** The bucket of a phase holds its group; a missing bucket is an empty one. */
  predicate IsBucket(byPhase: map<Phase, seq<AlertData>>, ph: Phasing, s: seq<AlertData>, p: Phase) {
    (if p in byPhase then byPhase[p] else []) == Group(ph, s, p)
  }

  method Bucket(ph: Phasing, s: seq<AlertData>) returns (byPhase: map<Phase, seq<AlertData>>)
    ensures forall p :: IsBucket(byPhase, ph, s, p)
  {
    byPhase := map[];
    for i := 0 to |s|
      invariant forall p :: IsBucket(byPhase, ph, s[..i], p)
    {
      var p := PhaseOf(ph, s[i]);
      assert s[..i + 1] == s[..i] + [s[i]];
      ghost var before := byPhase;
      byPhase := byPhase[p := (if p in byPhase then byPhase[p] else []) + [s[i]]];
      ghost var seen := s[..i + 1];
      forall q ensures IsBucket(byPhase, ph, seen, q) {
        FilterSnoc(s[..i], s[i], InPhase(ph, q));
        assert IsBucket(before, ph, s[..i], q);
      }
    }
    assert s[..|s|] == s;
  }

  method MaxSeverity(phases: seq<ChainPhase>) returns (r: Severity)
    ensures r == WorstPhase(phases)
  {
    r := Unset;
    for i := 0 to |phases|
      invariant r == WorstPhase(phases[..i])
    {
      assert phases[..i + 1][..i] == phases[..i];
      if Rank(phases[i].severity) > Rank(r) {
        r := phases[i].severity;
      }
    }
    assert phases[..|phases|] == phases;
  }

  /** The summary of one phase, if it has alerts. */
  method SummaryOf(ph: Phasing, s: seq<AlertData>, byPhase: map<Phase, seq<AlertData>>, p: Phase) returns (cp: Option<ChainPhase>)
    requires IsBucket(byPhase, ph, s, p)
    ensures cp == PhaseAt(ph, s)(p)
  {
    var group := if p in byPhase then byPhase[p] else [];
    if |group| == 0 {
      return None;
    }
    var summary := Summarize(p, group);
    return Some(summary);
  }

  /** The phases that have alerts, in the given order, and how many alerts they hold. */
  method Collect(ph: Phasing, s: seq<AlertData>, byPhase: map<Phase, seq<AlertData>>, order: seq<Phase>)
      returns (phases: seq<ChainPhase>, total: nat)
    requires forall p :: IsBucket(byPhase, ph, s, p)
    ensures phases == PhasesOver(ph, s, order) && total == Total(phases)
  {
    phases, total := [], 0;
    ghost var f := PhaseAt(ph, s);
    for i := 0 to |order|
      invariant phases == Collected(order[..i], f) && total == Total(phases)
    {
      CollectedFurther(order, i, f);
      var cp := SummaryOf(ph, s, byPhase, order[i]);
      phases, total := AddPhase(phases, total, cp);
    }
    assert order[..|order|] == order;
  }

  /** A summary goes on the list, unless its phase had no alerts. */
  method AddPhase(before: seq<ChainPhase>, count: nat, cp: Option<ChainPhase>) returns (phases: seq<ChainPhase>, total: nat)
    requires count == Total(before)
    ensures phases == before + (match cp case Some(v) => [v] case None => []) && total == Total(phases)
  {
    if cp.None? {
      return before, count;
    }
    TotalSnoc(before, cp.value);
    return before + [cp.value], count + cp.value.count;
  }

  method BuildChain(s: seq<AlertData>) returns (chain: Chain)
    ensures chain == ChainOf(Techniques(), s)
  {
    var byPhase := Bucket(Techniques(), s);
    var phases, total := Collect(Techniques(), s, byPhase, Techniques().order);
    chain := Chain("", "", total, Unset, None, ZERO_TIME, ZERO_TIME, phases);
    if |phases| > 0 {
      var worst := MaxSeverity(phases);
      chain := chain.(reached := Some(phases[|phases| - 1].phase), maxSeverity := worst,
                      startedAt := phases[0].firstSeen, lastSeenAt := phases[|phases| - 1].lastSeen);
    }
    if |s| > 0 {
      chain := chain.(srcIP := s[0].evidence.srcIP, asset := s[0].evidence.asset);
    }
  }

  lemma TotalSnoc(phases: seq<ChainPhase>, cp: ChainPhase)
    ensures Total(phases + [cp]) == Total(phases) + cp.count
    ensures WorstPhase(phases + [cp]) == Worse(WorstPhase(phases), cp.severity)
  {
    assert (phases + [cp])[..|phases|] == phases;
  }

  // ---- what a fold means ----

  /** Severities are told apart by their rank. */
  lemma RankIsInjective(a: Severity, b: Severity)
    requires Rank(a) == Rank(b)
    ensures a == b
  {
  }

  ghost predicate IsWorst(v: Severity, s: seq<AlertData>) {
    && (forall a | a in s :: Rank(a.evidence.severity) <= Rank(v))
    && (v == Unset || exists a :: a in s && a.evidence.severity == v)
  }

  lemma {:induction false} TopSeverityIsWorst(s: seq<AlertData>)
    ensures IsWorst(TopSeverity(s), s)
  {
    if s != [] {
      var front, x := s[..|s| - 1], s[|s| - 1];
      TopSeverityIsWorst(front);
      forall a | a in s ensures Rank(a.evidence.severity) <= Rank(TopSeverity(s)) {
        assert a in front || a == x;
      }
      if TopSeverity(s) != Unset && TopSeverity(s) == TopSeverity(front) {
        var a :| a in front && a.evidence.severity == TopSeverity(front);
        assert a in s;
      } else {
        assert x in s;
      }
    }
  }

  /** Start times the clock can produce: later than the zero time. */
  ghost predicate Started(s: seq<AlertData>) {
    forall a | a in s :: a.who.startedAt > ZERO_TIME
  }

  /** All times the clock can produce. */
  ghost predicate Dated(s: seq<AlertData>) {
    Started(s) && forall a | a in s :: a.evidence.lastSeenAt > ZERO_TIME
  }

  ghost predicate IsEarliest(t: Time, s: seq<AlertData>) {
    (forall a | a in s :: t <= a.who.startedAt) && exists a :: a in s && a.who.startedAt == t
  }

  ghost predicate IsLatest(t: Time, s: seq<AlertData>) {
    (forall a | a in s :: a.evidence.lastSeenAt <= t) && exists a :: a in s && a.evidence.lastSeenAt == t
  }

  lemma {:induction false} FirstSeenIsEarliest(s: seq<AlertData>)
    requires s != [] && Started(s)
    ensures IsEarliest(FirstSeen(s), s)
  {
    var front, x := s[..|s| - 1], s[|s| - 1];
    assert x in s && forall a :: a in s <==> a in front || a == x;
    if front != [] {
      FirstSeenIsEarliest(front);
      var e :| e in front && e.who.startedAt == FirstSeen(front);
      assert e in s;
    }
  }

  lemma {:induction false} LastSeenIsLatest(s: seq<AlertData>)
    requires s != [] && Dated(s)
    ensures IsLatest(LastSeen(s), s)
  {
    var front, x := s[..|s| - 1], s[|s| - 1];
    assert x in s && forall a :: a in s <==> a in front || a == x;
    if front != [] {
      LastSeenIsLatest(front);
      var l :| l in front && l.evidence.lastSeenAt == LastSeen(front);
      assert l in s;
    }
  }

  lemma FoldsFindExtremes(s: seq<AlertData>)
    requires s != [] && Dated(s)
    ensures IsEarliest(FirstSeen(s), s) && IsLatest(LastSeen(s), s)
  {
    FirstSeenIsEarliest(s);
    LastSeenIsLatest(s);
  }

  /** No start time is before the zero time. */
  ghost predicate NoneBeforeZero(s: seq<AlertData>) {
    forall a | a in s :: a.who.startedAt >= ZERO_TIME
  }

  lemma {:induction false} FirstSeenZero(s: seq<AlertData>)
    requires NoneBeforeZero(s)
    ensures FirstSeen(s) >= ZERO_TIME
    ensures FirstSeen(s) == ZERO_TIME <==> s == [] || s[|s| - 1].who.startedAt == ZERO_TIME
  {
    if s != [] {
      FirstSeenZero(s[..|s| - 1]);
    }
  }

  /** The first-seen fold takes the zero time for "nothing seen yet", so it finds the earliest start exactly
      when every alert is dated, or the undated one comes last. */
  lemma FirstSeenIsRightExactlyWhen(s: seq<AlertData>)
    requires s != [] && NoneBeforeZero(s)
    ensures IsEarliest(FirstSeen(s), s) <==> Started(s) || s[|s| - 1].who.startedAt == ZERO_TIME
  {
    FirstSeenZero(s);
    assert s[|s| - 1] in s;
    if Started(s) {
      FirstSeenIsEarliest(s);
    }
  }

  // ---- the two-level fold against the flat one ----

  function OrderOf(p: Phase): nat {
    match p
    case Recon => 0 case InitialAccess => 1 case Execution => 2 case Persistence => 3
    case DefenseEvasion => 4 case CredentialAccess => 5 case Discovery => 6 case LateralMovement => 7
    case Collection => 8 case CommandAndControl => 9 case Exfiltration => 10 case Impact => 11
  }

  ghost predicate Ascending(order: seq<Phase>) {
    forall i, j | 0 <= i < j < |order| :: OrderOf(order[i]) < OrderOf(order[j])
  }

  /** The source lists every phase, in kill-chain order. */
  lemma TechniquesAreValid()
    ensures Techniques().Valid()
  {
    assert forall i | 0 <= i < 12 :: OrderOf(PHASE_ORDER[i]) == i;
    forall p: Phase ensures p in PHASE_ORDER {
      assert PHASE_ORDER[OrderOf(p)] == p;
    }
  }

  ghost predicate Increasing(ps: seq<ChainPhase>) {
    forall i, j | 0 <= i < j < |ps| :: OrderOf(ps[i].phase) < OrderOf(ps[j].phase)
  }

  /** The summaries are those of the phases in a list, and no others. */
  ghost predicate SummariesOf(ps: seq<ChainPhase>, order: seq<Phase>, f: Phase -> Option<ChainPhase>) {
    forall cp :: cp in ps <==> cp.phase in order && f(cp.phase) == Some(cp)
  }

  lemma OneMorePhase(ps: seq<ChainPhase>, front: seq<Phase>, p: Phase, f: Phase -> Option<ChainPhase>)
    requires Increasing(ps) && SummariesOf(ps, front, f)
    requires forall i | 0 <= i < |front| :: OrderOf(front[i]) < OrderOf(p)
    requires f(p).Some? ==> f(p).value.phase == p
    ensures var after := ps + (match f(p) case Some(v) => [v] case None => []);
            Increasing(after) && SummariesOf(after, front + [p], f)
  {
    assert forall q :: q in front + [p] <==> q in front || q == p;
    match f(p)
    case None => assert ps + [] == ps;
    case Some(v) =>
      forall i | 0 <= i < |ps| ensures OrderOf(ps[i].phase) < OrderOf(p) {
        assert ps[i] in ps;
      }
      assert forall c :: c in ps + [v] <==> c in ps || c == v;
  }

  /** Summaries collected over an ascending order: each where its phase is, none out of place, none left out. */
  lemma {:induction false} CollectedInOrder(order: seq<Phase>, f: Phase -> Option<ChainPhase>)
    requires Ascending(order) && forall p | f(p).Some? :: f(p).value.phase == p
    ensures Increasing(Collected(order, f)) && SummariesOf(Collected(order, f), order, f)
  {
    if order != [] {
      var front, p := order[..|order| - 1], order[|order| - 1];
      assert order == front + [p];
      CollectedInOrder(front, f);
      CollectedSnoc(front, p, f);
      OneMorePhase(Collected(front, f), front, p, f);
    }
  }

  lemma PhaseAtNamesItsPhase(ph: Phasing, s: seq<AlertData>, p: Phase)
    ensures PhaseAt(ph, s)(p).Some? ==> PhaseAt(ph, s)(p).value.phase == p
  {
  }

  lemma PhasesAreFaithful(ph: Phasing, s: seq<AlertData>)
    requires ph.Valid()
    ensures var ps := ChainOf(ph, s).phases;
      && Increasing(ps)
      && (forall cp :: cp in ps <==> PhaseAt(ph, s)(cp.phase) == Some(cp))
  {
    forall p ensures PhaseAt(ph, s)(p).Some? ==> PhaseAt(ph, s)(p).value.phase == p {
      PhaseAtNamesItsPhase(ph, s, p);
    }
    CollectedInOrder(ph.order, PhaseAt(ph, s));
  }

  /** The phases of a chain strictly increase in kill-chain order, and each holds exactly the alerts of
      its phase in the order they were given. */
  lemma ChainIsOrdered(ph: Phasing, s: seq<AlertData>)
    requires ph.Valid()
    ensures var ps := ChainOf(ph, s).phases;
      && (forall i, j | 0 <= i < j < |ps| :: OrderOf(ps[i].phase) < OrderOf(ps[j].phase))
      && (forall i | 0 <= i < |ps| :: ps[i] == Summary(ps[i].phase, Group(ph, s, ps[i].phase)) && ps[i].alerts != [])
      && (forall a | a in s :: exists i :: 0 <= i < |ps| && ps[i].phase == PhaseOf(ph, a) && a in ps[i].alerts)
  {
    PhasesAreFaithful(ph, s);
    var ps := ChainOf(ph, s).phases;
    forall i | 0 <= i < |ps| ensures ps[i] == Summary(ps[i].phase, Group(ph, s, ps[i].phase)) && ps[i].alerts != [] {
      assert ps[i] in ps;
    }
    forall a | a in s ensures exists i :: 0 <= i < |ps| && ps[i].phase == PhaseOf(ph, a) && a in ps[i].alerts {
      var p := PhaseOf(ph, a);
      FilterMember(s, InPhase(ph, p), a);
      assert PhaseAt(ph, s)(p) == Some(Summary(p, Group(ph, s, p)));
      assert Summary(p, Group(ph, s, p)) in ps;
    }
  }

  /** The alerts whose phase is among some. */
  function Within(ph: Phasing, order: seq<Phase>): AlertData -> bool { (a: AlertData) => PhaseOf(ph, a) in order }

  /** The multisets and lengths of three lists agree: one holds what the other two hold. */
  ghost predicate Joins(whole: seq<AlertData>, one: seq<AlertData>, other: seq<AlertData>) {
    multiset(whole) == multiset(one) + multiset(other) && |whole| == |one| + |other|
  }

  lemma JoinsCons(a: AlertData, whole: seq<AlertData>, one: seq<AlertData>, other: seq<AlertData>)
    requires Joins(whole, one, other)
    ensures Joins([a] + whole, [a] + one, other) && Joins([a] + whole, one, [a] + other)
  {
  }

  /** Filtering by either of two exclusive conditions joins filtering by each. */
  lemma {:induction false} SplitFilter(s: seq<AlertData>, both: AlertData -> bool, p: AlertData -> bool, q: AlertData -> bool)
    requires forall a | a in s :: (both(a) <==> p(a) || q(a)) && !(p(a) && q(a))
    ensures Joins(Filter(s, both), Filter(s, p), Filter(s, q))
  {
    if s != [] {
      var rest := s[1..];
      assert s[0] in s && forall a | a in rest :: a in s;
      SplitFilter(rest, both, p, q);
      FilterHead(s, both);
      FilterHead(s, p);
      FilterHead(s, q);
      JoinsCons(s[0], Filter(rest, both), Filter(rest, p), Filter(rest, q));
    }
  }

  lemma SplitLast(ph: Phasing, s: seq<AlertData>, front: seq<Phase>, p: Phase)
    requires p !in front
    ensures Joins(Filter(s, Within(ph, front + [p])), Filter(s, Within(ph, front)), Group(ph, s, p))
  {
    assert forall q :: q in front + [p] <==> q in front || q == p;
    SplitFilter(s, Within(ph, front + [p]), Within(ph, front), InPhase(ph, p));
  }

  function AlertsOf(phases: seq<ChainPhase>): seq<AlertData> {
    if phases == [] then [] else AlertsOf(phases[..|phases| - 1]) + phases[|phases| - 1].alerts
  }

  lemma AlertsOfSnoc(phases: seq<ChainPhase>, cp: ChainPhase)
    ensures AlertsOf(phases + [cp]) == AlertsOf(phases) + cp.alerts
  {
    assert (phases + [cp])[..|phases|] == phases;
  }

  /** `f` sums up exactly the groups that have alerts. */
  ghost predicate SumsUpGroups(ph: Phasing, s: seq<AlertData>, f: Phase -> Option<ChainPhase>) {
    forall p :: match f(p)
                case Some(cp) => cp.alerts == Group(ph, s, p) && cp.count == |cp.alerts|
                case None => Group(ph, s, p) == []
  }

  lemma {:induction false} NothingIsLost(ph: Phasing, s: seq<AlertData>, order: seq<Phase>, f: Phase -> Option<ChainPhase>)
    requires Ascending(order) && SumsUpGroups(ph, s, f)
    ensures multiset(AlertsOf(Collected(order, f))) == multiset(Filter(s, Within(ph, order)))
    ensures Total(Collected(order, f)) == |Filter(s, Within(ph, order))|
  {
    if order == [] {
      FilterNone(s, Within(ph, []));
    } else {
      var front, p := order[..|order| - 1], order[|order| - 1];
      NothingIsLost(ph, s, front, f);
      assert order == front + [p];
      assert forall i | 0 <= i < |front| :: OrderOf(front[i]) < OrderOf(p);
      SplitLast(ph, s, front, p);
      CollectedSnoc(front, p, f);
      match f(p) {
        case Some(cp) =>
          AlertsOfSnoc(Collected(front, f), cp);
          TotalSnoc(Collected(front, f), cp);
          AddAlerts(AlertsOf(Collected(front, f)), cp.alerts, Filter(s, Within(ph, front)), Filter(s, Within(ph, order)));
        case None =>
          assert Collected(order, f) == Collected(front, f);
      }
    }
  }

  lemma AddAlerts(a: seq<AlertData>, b: seq<AlertData>, x: seq<AlertData>, y: seq<AlertData>)
    requires multiset(a) == multiset(x) && multiset(y) == multiset(x) + multiset(b)
    ensures multiset(a + b) == multiset(y)
  {
  }

  /** The chain loses no alert and duplicates none; its total is the number of alerts given. */
  lemma ChainKeepsEveryAlert(ph: Phasing, s: seq<AlertData>)
    requires ph.Valid()
    ensures multiset(AlertsOf(ChainOf(ph, s).phases)) == multiset(s)
    ensures ChainOf(ph, s).total == |s|
  {
    NothingIsLost(ph, s, ph.order, PhaseAt(ph, s));
    FilterAll(s, Within(ph, ph.order));
  }

  function BlockedOver(phases: seq<ChainPhase>): nat {
    if phases == [] then 0 else BlockedOver(phases[..|phases| - 1]) + phases[|phases| - 1].blocked
  }

  lemma BlockedSnoc(phases: seq<ChainPhase>, cp: ChainPhase)
    ensures BlockedOver(phases + [cp]) == BlockedOver(phases) + cp.blocked
  {
    assert (phases + [cp])[..|phases|] == phases;
  }

  lemma {:induction false} BlockedCons(a: AlertData, s: seq<AlertData>)
    ensures BlockedTotal([a] + s) == a.evidence.blockedCount + BlockedTotal(s)
  {
    if s == [] {
      assert [a] + s == [a] && [a][..0] == [];
    } else {
      BlockedCons(a, s[..|s| - 1]);
      assert ([a] + s)[..|s|] == [a] + s[..|s| - 1];
    }
  }

  lemma {:induction false} BlockedSplit(s: seq<AlertData>, both: AlertData -> bool, p: AlertData -> bool, q: AlertData -> bool)
    requires forall a | a in s :: (both(a) <==> p(a) || q(a)) && !(p(a) && q(a))
    ensures BlockedTotal(Filter(s, both)) == BlockedTotal(Filter(s, p)) + BlockedTotal(Filter(s, q))
  {
    if s != [] {
      var rest := s[1..];
      assert s[0] in s && forall a | a in rest :: a in s;
      BlockedSplit(rest, both, p, q);
      FilterHead(s, both);
      FilterHead(s, p);
      FilterHead(s, q);
      BlockedCons(s[0], Filter(rest, both));
      BlockedCons(s[0], Filter(rest, p));
      BlockedCons(s[0], Filter(rest, q));
    }
  }

  /** `f` counts what was blocked in the groups that have alerts. */
  ghost predicate CountsBlocked(ph: Phasing, s: seq<AlertData>, f: Phase -> Option<ChainPhase>) {
    forall p :: match f(p)
                case Some(cp) => cp.blocked == BlockedTotal(Group(ph, s, p))
                case None => Group(ph, s, p) == []
  }

  lemma OneMoreGroup(ph: Phasing, s: seq<AlertData>, front: seq<Phase>, p: Phase)
    requires p !in front
    ensures BlockedTotal(Filter(s, Within(ph, front + [p])))
            == BlockedTotal(Filter(s, Within(ph, front))) + BlockedTotal(Group(ph, s, p))
  {
    assert forall q :: q in front + [p] <==> q in front || q == p;
    BlockedSplit(s, Within(ph, front + [p]), Within(ph, front), InPhase(ph, p));
  }

  lemma {:induction false} NoBlockIsLost(ph: Phasing, s: seq<AlertData>, order: seq<Phase>, f: Phase -> Option<ChainPhase>)
    requires Ascending(order) && CountsBlocked(ph, s, f)
    ensures BlockedOver(Collected(order, f)) == BlockedTotal(Filter(s, Within(ph, order)))
  {
    if order == [] {
      FilterNone(s, Within(ph, []));
    } else {
      var front, p := order[..|order| - 1], order[|order| - 1];
      NoBlockIsLost(ph, s, front, f);
      assert order == front + [p];
      assert forall i | 0 <= i < |front| :: OrderOf(front[i]) < OrderOf(p);
      OneMoreGroup(ph, s, front, p);
      CollectedSnoc(front, p, f);
      OneMoreBlocked(Collected(front, f), f(p));
    }
  }

  lemma OneMoreBlocked(phases: seq<ChainPhase>, cp: Option<ChainPhase>)
    ensures BlockedOver(phases + (match cp case Some(v) => [v] case None => []))
            == BlockedOver(phases) + (match cp case Some(v) => v.blocked case None => 0)
  {
    match cp
    case Some(v) => BlockedSnoc(phases, v);
    case None => assert phases + [] == phases;
  }

  /** What the phases of a chain count as blocked is what the alerts given count. */
  lemma ChainKeepsBlocked(ph: Phasing, s: seq<AlertData>)
    requires ph.Valid()
    ensures BlockedOver(ChainOf(ph, s).phases) == BlockedTotal(s)
  {
    NoBlockIsLost(ph, s, ph.order, PhaseAt(ph, s));
    FilterAll(s, Within(ph, ph.order));
  }

  lemma {:induction false} WorstPhaseIsWorst(phases: seq<ChainPhase>)
    ensures forall i | 0 <= i < |phases| :: Rank(phases[i].severity) <= Rank(WorstPhase(phases))
    ensures WorstPhase(phases) == Unset || exists i :: 0 <= i < |phases| && phases[i].severity == WorstPhase(phases)
  {
    if phases != [] {
      var front := phases[..|phases| - 1];
      WorstPhaseIsWorst(front);
      assert forall i | 0 <= i < |front| :: phases[i] == front[i];
      if WorstPhase(phases) != Unset && WorstPhase(phases) == WorstPhase(front) {
        var i :| 0 <= i < |front| && front[i].severity == WorstPhase(front);
        assert phases[i].severity == WorstPhase(phases);
      }
    }
  }

  predicate SumsUp(cp: ChainPhase) {
    && cp.alerts != [] && cp.severity == TopSeverity(cp.alerts)
    && cp.firstSeen == FirstSeen(cp.alerts) && cp.lastSeen == LastSeen(cp.alerts)
  }

  lemma SummarySumsUp(p: Phase, group: seq<AlertData>)
    requires group != []
    ensures SumsUp(Summary(p, group)) && Summary(p, group).alerts == group
  {
  }

  ghost predicate AllFrom(cp: ChainPhase, s: seq<AlertData>) {
    forall a | a in cp.alerts :: a in s
  }

  /** The phases hold all the alerts between them, and each sums up its own. */
  ghost predicate Covers(ps: seq<ChainPhase>, s: seq<AlertData>) {
    && (forall i | 0 <= i < |ps| :: SumsUp(ps[i]) && AllFrom(ps[i], s))
    && (forall a | a in s :: exists i :: 0 <= i < |ps| && a in ps[i].alerts)
  }

  lemma PhaseHolds(ph: Phasing, s: seq<AlertData>, i: nat)
    requires ph.Valid()
    requires i < |ChainOf(ph, s).phases|
    ensures var cp := ChainOf(ph, s).phases[i];
            SumsUp(cp) && forall a :: a in cp.alerts <==> a in s && InPhase(ph, cp.phase)(a)
  {
    ChainIsOrdered(ph, s);
    var cp := ChainOf(ph, s).phases[i];
    SummarySumsUp(cp.phase, Group(ph, s, cp.phase));
    forall a ensures a in cp.alerts <==> a in s && InPhase(ph, cp.phase)(a) {
      FilterMember(s, InPhase(ph, cp.phase), a);
    }
  }

  lemma ChainCovers(ph: Phasing, s: seq<AlertData>)
    requires ph.Valid()
    ensures Covers(ChainOf(ph, s).phases, s)
  {
    ChainIsOrdered(ph, s);
    var ps := ChainOf(ph, s).phases;
    forall i | 0 <= i < |ps| ensures SumsUp(ps[i]) && AllFrom(ps[i], s) {
      PhaseHolds(ph, s, i);
    }
  }

  lemma WorstAlertInSomePhase(ps: seq<ChainPhase>, s: seq<AlertData>)
    requires Covers(ps, s)
    ensures Rank(TopSeverity(s)) <= Rank(WorstPhase(ps))
  {
    WorstPhaseIsWorst(ps);
    TopSeverityIsWorst(s);
    if TopSeverity(s) != Unset {
      var a :| a in s && a.evidence.severity == TopSeverity(s);
      var i :| 0 <= i < |ps| && a in ps[i].alerts;
      TopSeverityIsWorst(ps[i].alerts);
      assert Rank(a.evidence.severity) <= Rank(ps[i].severity);
    }
  }

  lemma WorstPhaseHasSomeAlert(ps: seq<ChainPhase>, s: seq<AlertData>)
    requires Covers(ps, s)
    ensures Rank(WorstPhase(ps)) <= Rank(TopSeverity(s))
  {
    WorstPhaseIsWorst(ps);
    if WorstPhase(ps) != Unset {
      var i :| 0 <= i < |ps| && ps[i].severity == WorstPhase(ps);
      assert SumsUp(ps[i]) && AllFrom(ps[i], s);
      TopSeverityIsWorst(ps[i].alerts);
      var a :| a in ps[i].alerts && a.evidence.severity == WorstPhase(ps);
      assert a in s;
      TopSeverityIsWorst(s);
    }
  }

  lemma SeverityOverPhases(ps: seq<ChainPhase>, s: seq<AlertData>)
    requires Covers(ps, s)
    ensures WorstPhase(ps) == TopSeverity(s)
  {
    WorstAlertInSomePhase(ps, s);
    WorstPhaseHasSomeAlert(ps, s);
    RankIsInjective(WorstPhase(ps), TopSeverity(s));
  }

  /** The worst severity over the phases is the worst severity over the alerts. */
  lemma ChainSeverityIsFlat(ph: Phasing, s: seq<AlertData>)
    requires ph.Valid()
    ensures ChainOf(ph, s).maxSeverity == TopSeverity(s)
  {
    ChainCovers(ph, s);
    SeverityOverPhases(ChainOf(ph, s).phases, s);
  }

  lemma PhaseTimes(ps: seq<ChainPhase>, s: seq<AlertData>, i: nat)
    requires Covers(ps, s) && Dated(s) && i < |ps|
    ensures IsEarliest(ps[i].firstSeen, ps[i].alerts) && IsLatest(ps[i].lastSeen, ps[i].alerts)
  {
    forall a | a in ps[i].alerts ensures a.who.startedAt > ZERO_TIME && a.evidence.lastSeenAt > ZERO_TIME {
      assert a in s;
    }
    FoldsFindExtremes(ps[i].alerts);
  }

  ghost predicate LeastFirst(ps: seq<ChainPhase>, t: Time) {
    (forall i | 0 <= i < |ps| :: t <= ps[i].firstSeen) && exists i :: 0 <= i < |ps| && ps[i].firstSeen == t
  }

  ghost predicate GreatestLast(ps: seq<ChainPhase>, t: Time) {
    (forall i | 0 <= i < |ps| :: ps[i].lastSeen <= t) && exists i :: 0 <= i < |ps| && ps[i].lastSeen == t
  }

  lemma FirstOverPhases(ps: seq<ChainPhase>, s: seq<AlertData>, t: Time)
    requires Dated(s) && Covers(ps, s) && IsEarliest(t, s)
    ensures LeastFirst(ps, t)
  {
    forall i | 0 <= i < |ps| ensures t <= ps[i].firstSeen {
      PhaseTimes(ps, s, i);
      var a :| a in ps[i].alerts && a.who.startedAt == ps[i].firstSeen;
      assert a in s;
    }
    var e :| e in s && e.who.startedAt == t;
    var i :| 0 <= i < |ps| && e in ps[i].alerts;
    PhaseTimes(ps, s, i);
    assert ps[i].firstSeen == t;
  }

  lemma LastOverPhases(ps: seq<ChainPhase>, s: seq<AlertData>, t: Time)
    requires Dated(s) && Covers(ps, s) && IsLatest(t, s)
    ensures GreatestLast(ps, t)
  {
    forall i | 0 <= i < |ps| ensures ps[i].lastSeen <= t {
      PhaseTimes(ps, s, i);
      var a :| a in ps[i].alerts && a.evidence.lastSeenAt == ps[i].lastSeen;
      assert a in s;
    }
    var l :| l in s && l.evidence.lastSeenAt == t;
    var i :| 0 <= i < |ps| && l in ps[i].alerts;
    PhaseTimes(ps, s, i);
    assert ps[i].lastSeen == t;
  }

  /** With dated alerts, the earliest first-seen and the latest last-seen over the phases are those of
      the flat list. */
  lemma ChainTimesAreFlat(ph: Phasing, s: seq<AlertData>)
    requires ph.Valid()
    requires s != [] && Dated(s)
    ensures LeastFirst(ChainOf(ph, s).phases, FirstSeen(s)) && GreatestLast(ChainOf(ph, s).phases, LastSeen(s))
  {
    ChainCovers(ph, s);
    FoldsFindExtremes(s);
    FirstOverPhases(ChainOf(ph, s).phases, s, FirstSeen(s));
    LastOverPhases(ChainOf(ph, s).phases, s, LastSeen(s));
  }

  /** An alert that none starts before and none precedes in kill-chain order. */
  ghost predicate Opens(ph: Phasing, s: seq<AlertData>, a: AlertData) {
    && a in s
    && forall b | b in s :: a.who.startedAt <= b.who.startedAt && OrderOf(PhaseOf(ph, a)) <= OrderOf(PhaseOf(ph, b))
  }

  /** An alert that none outlasts and none follows in kill-chain order. */
  ghost predicate Closes(ph: Phasing, s: seq<AlertData>, a: AlertData) {
    && a in s
    && forall b | b in s ::
         a.evidence.lastSeenAt >= b.evidence.lastSeenAt && OrderOf(PhaseOf(ph, a)) >= OrderOf(PhaseOf(ph, b))
  }

  ghost predicate HasOpening(ph: Phasing, s: seq<AlertData>) { exists a :: Opens(ph, s, a) }

  ghost predicate HasClosing(ph: Phasing, s: seq<AlertData>) { exists a :: Closes(ph, s, a) }

  /** Alerts of the least phase, and of the greatest. */
  ghost function Leading(ph: Phasing, s: seq<AlertData>): AlertData -> bool {
    (a: AlertData) => forall b | b in s :: OrderOf(PhaseOf(ph, a)) <= OrderOf(PhaseOf(ph, b))
  }

  ghost function Trailing(ph: Phasing, s: seq<AlertData>): AlertData -> bool {
    (a: AlertData) => forall b | b in s :: OrderOf(PhaseOf(ph, a)) >= OrderOf(PhaseOf(ph, b))
  }

  lemma OrderIsInjective(p: Phase, q: Phase)
    requires OrderOf(p) == OrderOf(q)
    ensures p == q
  {
  }

  /** The phases are in order, and every alert's phase is among them. */
  ghost predicate Lists(ph: Phasing, ps: seq<ChainPhase>, s: seq<AlertData>) {
    Increasing(ps) && forall a | a in s :: exists i :: 0 <= i < |ps| && InPhase(ph, ps[i].phase)(a)
  }

  lemma ChainLists(ph: Phasing, s: seq<AlertData>)
    requires ph.Valid()
    ensures Lists(ph, ChainOf(ph, s).phases, s)
  {
    PhasesAreFaithful(ph, s);
    var ps := ChainOf(ph, s).phases;
    forall a | a in s ensures exists i :: 0 <= i < |ps| && InPhase(ph, ps[i].phase)(a) {
      var p := PhaseOf(ph, a);
      FilterMember(s, InPhase(ph, p), a);
      assert PhaseAt(ph, s)(p).value in ps;
    }
  }

  lemma FirstPhaseLeads(ph: Phasing, ps: seq<ChainPhase>, s: seq<AlertData>, a: AlertData, first: AlertData)
    requires Lists(ph, ps, s) && ps != [] && a in s && first in s && InPhase(ph, ps[0].phase)(first)
    ensures InPhase(ph, ps[0].phase)(a) <==> Leading(ph, s)(a)
  {
    if InPhase(ph, ps[0].phase)(a) {
      forall b | b in s ensures OrderOf(PhaseOf(ph, a)) <= OrderOf(PhaseOf(ph, b)) {
        var i :| 0 <= i < |ps| && InPhase(ph, ps[i].phase)(b);
      }
    }
    if Leading(ph, s)(a) {
      var i :| 0 <= i < |ps| && InPhase(ph, ps[i].phase)(a);
      OrderIsInjective(ps[i].phase, ps[0].phase);
    }
  }

  lemma LastPhaseTrails(ph: Phasing, ps: seq<ChainPhase>, s: seq<AlertData>, a: AlertData, last: AlertData)
    requires Lists(ph, ps, s) && ps != [] && a in s && last in s && InPhase(ph, ps[|ps| - 1].phase)(last)
    ensures InPhase(ph, ps[|ps| - 1].phase)(a) <==> Trailing(ph, s)(a)
  {
    if InPhase(ph, ps[|ps| - 1].phase)(a) {
      forall b | b in s ensures OrderOf(PhaseOf(ph, a)) >= OrderOf(PhaseOf(ph, b)) {
        var i :| 0 <= i < |ps| && InPhase(ph, ps[i].phase)(b);
      }
    }
    if Trailing(ph, s)(a) {
      var i :| 0 <= i < |ps| && InPhase(ph, ps[i].phase)(a);
      OrderIsInjective(ps[i].phase, ps[|ps| - 1].phase);
    }
  }

  /** `cp` holds exactly the alerts that are `member`s. */
  ghost predicate HoldsExactly(cp: ChainPhase, s: seq<AlertData>, member: AlertData -> bool) {
    forall a :: a in cp.alerts <==> a in s && member(a)
  }

  lemma FirstPhaseMembers(ph: Phasing, ps: seq<ChainPhase>, s: seq<AlertData>)
    requires Lists(ph, ps, s) && ps != [] && ps[0].alerts != [] && HoldsExactly(ps[0], s, InPhase(ph, ps[0].phase))
    ensures HoldsExactly(ps[0], s, Leading(ph, s))
  {
    var first := ps[0].alerts[0];
    assert first in ps[0].alerts;
    forall a | a in s ensures InPhase(ph, ps[0].phase)(a) <==> Leading(ph, s)(a) {
      FirstPhaseLeads(ph, ps, s, a, first);
    }
  }

  lemma LastPhaseMembers(ph: Phasing, ps: seq<ChainPhase>, s: seq<AlertData>)
    requires Lists(ph, ps, s) && ps != [] && ps[|ps| - 1].alerts != []
    requires HoldsExactly(ps[|ps| - 1], s, InPhase(ph, ps[|ps| - 1].phase))
    ensures HoldsExactly(ps[|ps| - 1], s, Trailing(ph, s))
  {
    var last := ps[|ps| - 1].alerts[0];
    assert last in ps[|ps| - 1].alerts;
    forall a | a in s ensures InPhase(ph, ps[|ps| - 1].phase)(a) <==> Trailing(ph, s)(a) {
      LastPhaseTrails(ph, ps, s, a, last);
    }
  }

  /** A phase whose alerts are the leading ones starts with the case exactly when an alert opens the case. */
  lemma StartsWithMembers(ph: Phasing, cp: ChainPhase, s: seq<AlertData>)
    requires s != [] && Dated(s) && SumsUp(cp) && HoldsExactly(cp, s, Leading(ph, s))
    ensures cp.firstSeen >= FirstSeen(s)
    ensures cp.firstSeen == FirstSeen(s) <==> HasOpening(ph, s)
  {
    FirstSeenIsEarliest(s);
    assert Started(cp.alerts);
    FirstSeenIsEarliest(cp.alerts);
    var b :| b in cp.alerts && b.who.startedAt == cp.firstSeen;
    assert b in s && Leading(ph, s)(b);
    if cp.firstSeen == FirstSeen(s) {
      assert Opens(ph, s, b);
    }
    if HasOpening(ph, s) {
      var a :| Opens(ph, s, a);
      assert a in s && Leading(ph, s)(a);
      assert a in cp.alerts;
    }
  }

  lemma EndsWithMembers(ph: Phasing, cp: ChainPhase, s: seq<AlertData>)
    requires s != [] && Dated(s) && SumsUp(cp) && HoldsExactly(cp, s, Trailing(ph, s))
    ensures cp.lastSeen <= LastSeen(s)
    ensures cp.lastSeen == LastSeen(s) <==> HasClosing(ph, s)
  {
    LastSeenIsLatest(s);
    assert Dated(cp.alerts);
    LastSeenIsLatest(cp.alerts);
    var b :| b in cp.alerts && b.evidence.lastSeenAt == cp.lastSeen;
    assert b in s && Trailing(ph, s)(b);
    if cp.lastSeen == LastSeen(s) {
      assert Closes(ph, s, b);
    }
    if HasClosing(ph, s) {
      var a :| Closes(ph, s, a);
      assert a in s && Trailing(ph, s)(a);
      assert a in cp.alerts;
    }
  }

  lemma PhaseFacts(ph: Phasing, s: seq<AlertData>, ps: seq<ChainPhase>, i: nat)
    requires ph.Valid() && ps == ChainOf(ph, s).phases && i < |ps|
    ensures SumsUp(ps[i]) && HoldsExactly(ps[i], s, InPhase(ph, ps[i].phase))
  {
    PhaseHolds(ph, s, i);
  }

  lemma ChainIsNotEmpty(ph: Phasing, s: seq<AlertData>, ps: seq<ChainPhase>)
    requires Lists(ph, ps, s) && s != []
    ensures ps != []
  {
    assert s[0] in s;
  }

  /** What the first phase of a chain is, apart from how it comes about. */
  lemma FirstEnd(ph: Phasing, s: seq<AlertData>, ps: seq<ChainPhase>)
    requires ph.Valid() && s != [] && ps == ChainOf(ph, s).phases
    ensures ps != [] && SumsUp(ps[0]) && HoldsExactly(ps[0], s, Leading(ph, s))
  {
    ChainLists(ph, s);
    ChainIsNotEmpty(ph, s, ps);
    PhaseFacts(ph, s, ps, 0);
    FirstPhaseMembers(ph, ps, s);
  }

  lemma LastEnd(ph: Phasing, s: seq<AlertData>, ps: seq<ChainPhase>)
    requires ph.Valid() && s != [] && ps == ChainOf(ph, s).phases
    ensures ps != [] && SumsUp(ps[|ps| - 1]) && HoldsExactly(ps[|ps| - 1], s, Trailing(ph, s))
  {
    ChainLists(ph, s);
    ChainIsNotEmpty(ph, s, ps);
    PhaseFacts(ph, s, ps, |ps| - 1);
    LastPhaseMembers(ph, ps, s);
  }

  lemma ChainTimesAreItsEnds(ph: Phasing, s: seq<AlertData>, c: Chain)
    requires c == ChainOf(ph, s) && c.phases != []
    ensures c.startedAt == c.phases[0].firstSeen && c.lastSeenAt == c.phases[|c.phases| - 1].lastSeen
  {
  }

  lemma ChainStarts(ph: Phasing, s: seq<AlertData>, c: Chain)
    requires ph.Valid() && s != [] && Dated(s) && c == ChainOf(ph, s)
    ensures c.startedAt >= FirstSeen(s) && (c.startedAt == FirstSeen(s) <==> HasOpening(ph, s))
  {
    FirstEnd(ph, s, c.phases);
    ChainTimesAreItsEnds(ph, s, c);
    StartsWithMembers(ph, c.phases[0], s);
  }

  lemma ChainEnds(ph: Phasing, s: seq<AlertData>, c: Chain)
    requires ph.Valid() && s != [] && Dated(s) && c == ChainOf(ph, s)
    ensures c.lastSeenAt <= LastSeen(s) && (c.lastSeenAt == LastSeen(s) <==> HasClosing(ph, s))
  {
    LastEnd(ph, s, c.phases);
    ChainTimesAreItsEnds(ph, s, c);
    EndsWithMembers(ph, c.phases[|c.phases| - 1], s);
  }

  lemma LastPhaseIsFurthest(ph: Phasing, s: seq<AlertData>, cp: ChainPhase)
    requires SumsUp(cp) && HoldsExactly(cp, s, InPhase(ph, cp.phase)) && HoldsExactly(cp, s, Trailing(ph, s))
    ensures exists a :: a in s && PhaseOf(ph, a) == cp.phase && forall b | b in s :: OrderOf(PhaseOf(ph, b)) <= OrderOf(PhaseOf(ph, a))
  {
    var a := cp.alerts[0];
    assert a in cp.alerts;
    assert InPhase(ph, cp.phase)(a) && Trailing(ph, s)(a);
  }

  lemma ChainReaches(ph: Phasing, s: seq<AlertData>, c: Chain)
    requires ph.Valid() && s != [] && c == ChainOf(ph, s)
    ensures c.phases != [] && c.reached == Some(c.phases[|c.phases| - 1].phase)
    ensures c.srcIP == s[0].evidence.srcIP && c.asset == s[0].evidence.asset
  {
    LastEnd(ph, s, c.phases);
  }

  /** The phase a chain has reached is the furthest of any alert, and its address and asset are those of the first. */
  lemma ChainReachesFurthest(ph: Phasing, s: seq<AlertData>, c: Chain)
    requires ph.Valid() && s != [] && c == ChainOf(ph, s)
    ensures exists a :: && a in s && c.reached == Some(PhaseOf(ph, a))
                        && forall b | b in s :: OrderOf(PhaseOf(ph, b)) <= OrderOf(PhaseOf(ph, a))
    ensures c.srcIP == s[0].evidence.srcIP && c.asset == s[0].evidence.asset
  {
    ChainReaches(ph, s, c);
    LastEnd(ph, s, c.phases);
    PhaseFacts(ph, s, c.phases, |c.phases| - 1);
    LastPhaseIsFurthest(ph, s, c.phases[|c.phases| - 1]);
  }

  /** A chain starts when its first phase does. That is when the whole case starts exactly when some earliest
      alert is also first in kill-chain order. */
  lemma ChainStartsRightExactlyWhen(ph: Phasing, s: seq<AlertData>)
    requires ph.Valid() && s != [] && Dated(s)
    ensures ChainOf(ph, s).startedAt >= FirstSeen(s)
    ensures ChainOf(ph, s).startedAt == FirstSeen(s) <==> HasOpening(ph, s)
  {
    ChainStarts(ph, s, ChainOf(ph, s));
  }

  /** A chain was last seen when its last phase was. That is when the whole case was last seen exactly when
      some latest alert is also last in kill-chain order. */
  lemma ChainEndsRightExactlyWhen(ph: Phasing, s: seq<AlertData>)
    requires ph.Valid() && s != [] && Dated(s)
    ensures ChainOf(ph, s).lastSeenAt <= LastSeen(s)
    ensures ChainOf(ph, s).lastSeenAt == LastSeen(s) <==> HasClosing(ph, s)
  {
    ChainEnds(ph, s, ChainOf(ph, s));
  }

  /** Two alerts whose phases and times run in opposite directions: the chain misses both ends of the case. */
  lemma ChainCanMissBothEnds(ph: Phasing, a: AlertData, b: AlertData)
    requires ph.Valid()
    requires Dated([a, b]) && OrderOf(PhaseOf(ph, a)) < OrderOf(PhaseOf(ph, b))
    requires b.who.startedAt < a.who.startedAt && b.evidence.lastSeenAt < a.evidence.lastSeenAt
    ensures ChainOf(ph, [a, b]).startedAt > FirstSeen([a, b])
    ensures ChainOf(ph, [a, b]).lastSeenAt < LastSeen([a, b])
  {
    var s := [a, b];
    assert a in s && b in s;
    ChainStartsRightExactlyWhen(ph, s);
    ChainEndsRightExactlyWhen(ph, s);
    assert forall x :: !Opens(ph, s, x) && !Closes(ph, s, x);
  }

  // ---- what the detection rules reach ----

  lemma NotATechnique(t: string)
    requires t != "" && t[0] != 'T'
    ensures PhaseForTechnique(t) == InitialAccess
  {
  }

  lemma RuleNamesAreNoTechniques(i: nat)
    requires i < 7
    ensures PhaseForTechnique(Names()[i]) == InitialAccess
  {
    var names := Names();
    assert forall j | 0 <= j < 7 :: names[j] != "" && names[j][0] != 'T';
    NotATechnique(names[i]);
  }

  /** The chain looks a rule's alerts up by the rule's identifier; looking them up by its techniques gives the
      same phase exactly for the three rules whose technique is T1190. */
  lemma PhaseIsRightExactlyFor(m: Matchers, i: nat)
    requires i < 7
    ensures (forall t | t in Table(m)[i].mitre :: PhaseForTechnique(t) == PhaseForTechnique(Table(m)[i].id))
            <==> "T1190" in Table(m)[i].mitre
    ensures "T1190" in Table(m)[i].mitre <==> i == 2 || i == 4 || i == 5
  {
    TableNames(m, i);
    RuleNamesAreNoTechniques(i);
    MitreOf(m, i);
    var ts := RuleTechniques()[i];
    assert ts[0] in ts;
  }

  /** The techniques of the seven rules. */
  function RuleTechniques(): seq<seq<string>> {
    [["T1595.001", "T1083"], ["T1046"], ["T1190"], ["T1110"], ["T1190"], ["T1190"], ["T1505.003"]]
  }

  lemma MitreOf(m: Matchers, i: nat)
    requires i < 7
    ensures Table(m)[i].mitre == RuleTechniques()[i]
  {
  }

  ghost predicate FromEngine(m: Matchers, s: seq<AlertData>) {
    forall a | a in s :: exists i :: 0 <= i < 7 && a.who.ruleID == Table(m)[i].id
  }

  lemma EnginePhase(m: Matchers, s: seq<AlertData>, a: AlertData)
    requires FromEngine(m, s) && a in s
    ensures PhaseOf(Techniques(), a) == InitialAccess
  {
    var i :| 0 <= i < 7 && a.who.ruleID == Table(m)[i].id;
    TableNames(m, i);
    RuleNamesAreNoTechniques(i);
  }

  /** The alerts of the detection engine carry rule identifiers, not techniques, so whatever rules fired,
      their chain has the one phase `initial_access`. */
  lemma EngineAlertsStayInInitialAccess(m: Matchers, s: seq<AlertData>)
    requires FromEngine(m, s)
    ensures forall i | 0 <= i < |ChainOf(Techniques(), s).phases| :: ChainOf(Techniques(), s).phases[i].phase == InitialAccess
    ensures |ChainOf(Techniques(), s).phases| <= 1
  {
    TechniquesAreValid();
    ChainIsOrdered(Techniques(), s);
    var ps := ChainOf(Techniques(), s).phases;
    forall i | 0 <= i < |ps| ensures ps[i].phase == InitialAccess {
      var a := ps[i].alerts[0];
      FilterMember(s, InPhase(Techniques(), ps[i].phase), a);
      EnginePhase(m, s, a);
    }
  }

  /** With that one phase, their chain starts and ends with the case. */
  lemma EngineChainSpansTheCase(m: Matchers, s: seq<AlertData>)
    requires FromEngine(m, s) && s != [] && Dated(s)
    ensures ChainOf(Techniques(), s).startedAt == FirstSeen(s) && ChainOf(Techniques(), s).lastSeenAt == LastSeen(s)
  {
    TechniquesAreValid();
    FoldsFindExtremes(s);
    forall a | a in s ensures PhaseOf(Techniques(), a) == InitialAccess {
      EnginePhase(m, s, a);
    }
    var a :| a in s && a.who.startedAt == FirstSeen(s);
    var b :| b in s && b.evidence.lastSeenAt == LastSeen(s);
    assert Opens(Techniques(), s, a) && Closes(Techniques(), s, b);
    ChainStartsRightExactlyWhen(Techniques(), s);
    ChainEndsRightExactlyWhen(Techniques(), s);
  }
}
