/** Detection rules: thresholds, windows, keys and the distinct-count outcomes. */
module Rules {
  import opened Common
  import opened Events

  datatype Outcome = Outcome(count: nat, blocked: nat, uniquePaths: nat, distinctAssets: nat)

  datatype Rule = Rule(
    id: string, name: string, severity: Severity, mitre: seq<string>, confidence: real,
    window: Time, threshold: nat,
    key: EventData -> string, matches: EventData -> bool, alert: seq<EventData> -> Option<Outcome>)
  {
    /** An outcome only at or above the threshold. */
    function ShouldAlert(evs: seq<EventData>): Option<Outcome> {
      if |evs| < threshold then None else alert(evs)
    }
  }

  const SECOND: Time := 1000000000

  // ---- what the rules count ----

  ghost function PathsOf(evs: seq<EventData>): set<string> { set e | e in evs :: e.path }

  ghost function AssetsOf(evs: seq<EventData>): set<string> { set e | e in evs :: e.asset }

  ghost function PortsOf(evs: seq<EventData>): set<int> { set e | e in evs && e.srcPort > 0 :: e.srcPort }

  ghost function UsersOf(evs: seq<EventData>): set<string> { set e | e in evs && e.user != "" :: e.user }

  function Refused(): EventData -> bool { (e: EventData) => e.status == 403 || e.status == 401 }

  ghost function DirEnumAlert(evs: seq<EventData>): Option<Outcome> {
    if |PathsOf(evs)| < 8 then None
    else Some(Outcome(|evs|, |Filter(evs, Refused())|, |PathsOf(evs)|, 1))
  }

  ghost function PortScanAlert(evs: seq<EventData>): Option<Outcome> {
    if |AssetsOf(evs)| < 2 then None
    else Some(Outcome(|evs|, 0, |PortsOf(evs)|, |AssetsOf(evs)|))
  }

  ghost function AuthBruteAlert(evs: seq<EventData>): Option<Outcome> {
    Some(Outcome(|evs|, 0, |UsersOf(evs)|, 0))
  }

  ghost function WebshellAlert(evs: seq<EventData>): Option<Outcome> {
    Some(Outcome(|evs|, 0, |PathsOf(evs)|, 0))
  }

  /** The directory-enumeration count: distinct paths and refused requests in one pass. */
  method CountDirEnum(evs: seq<EventData>) returns (r: Option<Outcome>)
    ensures r == DirEnumAlert(evs)
  {
    var paths: set<string> := {};
    var blocked := 0;
    for i := 0 to |evs|
      invariant paths == PathsOf(evs[..i])
      invariant blocked == |Filter(evs[..i], Refused())|
    {
      assert evs[..i + 1] == evs[..i] + [evs[i]];
      FilterSnoc(evs[..i], evs[i], Refused());
      paths := paths + {evs[i].path};
      if evs[i].status == 403 || evs[i].status == 401 {
        blocked := blocked + 1;
      }
    }
    assert evs[..|evs|] == evs;
    if |paths| < 8 {
      return None;
    }
    return Some(Outcome(|evs|, blocked, |paths|, 1));
  }

  /** The port-scan count: distinct assets and distinct positive ports. */
  method CountPortScan(evs: seq<EventData>) returns (r: Option<Outcome>)
    ensures r == PortScanAlert(evs)
  {
    var assets: set<string> := {};
    var ports: set<int> := {};
    for i := 0 to |evs|
      invariant assets == AssetsOf(evs[..i])
      invariant ports == PortsOf(evs[..i])
    {
      assert evs[..i + 1] == evs[..i] + [evs[i]];
      assets := assets + {evs[i].asset};
      if evs[i].srcPort > 0 {
        ports := ports + {evs[i].srcPort};
      }
    }
    assert evs[..|evs|] == evs;
    if |assets| < 2 {
      return None;
    }
    return Some(Outcome(|evs|, 0, |ports|, |assets|));
  }

  /** The brute-force count: distinct named users. */
  method CountAuthBrute(evs: seq<EventData>) returns (r: Option<Outcome>)
    ensures r == AuthBruteAlert(evs)
  {
    var users: set<string> := {};
    for i := 0 to |evs|
      invariant users == UsersOf(evs[..i])
    {
      assert evs[..i + 1] == evs[..i] + [evs[i]];
      if evs[i].user != "" {
        users := users + {evs[i].user};
      }
    }
    assert evs[..|evs|] == evs;
    return Some(Outcome(|evs|, 0, |users|, 0));
  }

  /** The webshell count: distinct paths. */
  method CountWebshell(evs: seq<EventData>) returns (r: Option<Outcome>)
    ensures r == WebshellAlert(evs)
  {
    var paths: set<string> := {};
    for i := 0 to |evs|
      invariant paths == PathsOf(evs[..i])
    {
      assert evs[..i + 1] == evs[..i] + [evs[i]];
      paths := paths + {evs[i].path};
    }
    assert evs[..|evs|] == evs;
    return Some(Outcome(|evs|, 0, |paths|, 0));
  }

  // ---- the table ----

  /** The match predicates of the rules; their bodies are text searches that the model leaves open. */
  datatype Matchers = Matchers(
    dirEnum: EventData -> bool, portScan: EventData -> bool, sqli: EventData -> bool, authBrute: EventData -> bool,
    wafSpike: EventData -> bool, dbAnomaly: EventData -> bool, webshell: EventData -> bool)

  ghost function BySource(): EventData -> string { (e: EventData) => e.srcIP }

  ghost function ByAsset(): EventData -> string { (e: EventData) => e.asset }

  ghost function CountOnly(): seq<EventData> -> Option<Outcome> {
    (evs: seq<EventData>) => Some(Outcome(|evs|, 0, 0, 0))
  }

  ghost function CountBlocked(): seq<EventData> -> Option<Outcome> {
    (evs: seq<EventData>) => Some(Outcome(|evs|, |evs|, 0, 0))
  }

  ghost function DirEnumRule(m: Matchers): Rule {
    Rule("dir-enum", "Directory Enumeration", High, ["T1595.001", "T1083"], 0.94, 90 * SECOND, 12,
         BySource(), m.dirEnum, DirEnumAlert)
  }

  ghost function PortScanRule(m: Matchers): Rule {
    Rule("port-scan", "Sequential Port Scan", High, ["T1046"], 0.87, 120 * SECOND, 15,
         BySource(), m.portScan, PortScanAlert)
  }

  ghost function SqliRule(m: Matchers): Rule {
    Rule("sqli", "SQLi Pattern", Critical, ["T1190"], 0.91, 120 * SECOND, 3,
         BySource(), m.sqli, CountOnly())
  }

  ghost function AuthBruteRule(m: Matchers): Rule {
    Rule("auth-brute", "Credential Brute Force", High, ["T1110"], 0.9, 90 * SECOND, 5,
         BySource(), m.authBrute, AuthBruteAlert)
  }

  ghost function WafSpikeRule(m: Matchers): Rule {
    Rule("waf-block-spike", "WAF Block Spike", Medium, ["T1190"], 0.85, 60 * SECOND, 8,
         BySource(), m.wafSpike, CountBlocked())
  }

  ghost function DbAnomalyRule(m: Matchers): Rule {
    Rule("db-anomaly", "Anomalous DB Query Volume", Medium, ["T1190"], 0.72, 90 * SECOND, 6,
         ByAsset(), m.dbAnomaly, CountOnly())
  }

  ghost function WebshellRule(m: Matchers): Rule {
    Rule("webshell", "Webshell Delivery", Critical, ["T1505.003"], 0.88, 300 * SECOND, 1,
         BySource(), m.webshell, WebshellAlert)
  }

  /** The seven rules, in evaluation order. */
  ghost function Table(m: Matchers): seq<Rule> {
    [DirEnumRule(m), PortScanRule(m), SqliRule(m), AuthBruteRule(m), WafSpikeRule(m), DbAnomalyRule(m), WebshellRule(m)]
  }

  /** What the engine relies on: one identifier per rule, and windows that hold the current event. */
  ghost predicate WellFormed(rules: seq<Rule>) {
    && (forall i, j | 0 <= i < j < |rules| :: rules[i].id != rules[j].id)
    && forall i | 0 <= i < |rules| :: rules[i].window > 0
  }

  function Names(): seq<string> {
    ["dir-enum", "port-scan", "sqli", "auth-brute", "waf-block-spike", "db-anomaly", "webshell"]
  }

  lemma NamesDiffer()
    ensures Distinct(Names())
  {
    var n := Names();
    assert |n[0]| == 8 && |n[1]| == 9 && |n[2]| == 4 && |n[3]| == 10 && |n[4]| == 15 && |n[5]| == 10 && |n[6]| == 8;
    assert n[0][0] != n[6][0] && n[3][0] != n[5][0];
  }

  lemma TableNames(m: Matchers, i: nat)
    requires i < 7
    ensures Table(m)[i].id == Names()[i] && Table(m)[i].window > 0 && Table(m)[i].threshold >= 1
  {
  }

  lemma TableIsWellFormed(m: Matchers)
    ensures WellFormed(Table(m)) && |Table(m)| == 7
    ensures forall i | 0 <= i < 7 :: Table(m)[i].threshold >= 1
  {
    NamesDiffer();
    forall i | 0 <= i < 7
      ensures Table(m)[i].id == Names()[i] && Table(m)[i].window > 0 && Table(m)[i].threshold >= 1
    {
      TableNames(m, i);
    }
  }

  /** Everything an outcome counts lies within the window it was taken from. */
  predicate Bounded(o: Option<Outcome>, evs: seq<EventData>) {
    o.Some? ==> && o.value.count == |evs| && o.value.blocked <= |evs|
                && o.value.uniquePaths <= |evs| && o.value.distinctAssets <= MaxInt(1, |evs|)
  }

  lemma CountsAreBounded(evs: seq<EventData>)
    ensures Bounded(DirEnumAlert(evs), evs) && Bounded(WebshellAlert(evs), evs)
    ensures Bounded(PortScanAlert(evs), evs) && Bounded(AuthBruteAlert(evs), evs)
  {
    FilterShrinks(evs, Refused());
    DistinctAtMost(evs, PathsOf(evs), (e: EventData) => e.path);
    DistinctAtMost(evs, AssetsOf(evs), (e: EventData) => e.asset);
    PortsAtMost(evs);
    DistinctAtMost(evs, UsersOf(evs), (e: EventData) => e.user);
  }

  lemma PortsAtMost(evs: seq<EventData>)
    ensures |PortsOf(evs)| <= |evs|
  {
    DistinctAtMost(evs, PortsOf(evs), (e: EventData) => e.srcPort);
  }

  /** An outcome of any rule counts its whole window, which is at least the threshold long,
      and nothing it counts exceeds the window. */
  lemma OutcomesAreBounded(m: Matchers, i: nat, evs: seq<EventData>)
    requires i < 7
    ensures Bounded(Table(m)[i].ShouldAlert(evs), evs)
    ensures Table(m)[i].ShouldAlert(evs).Some? ==> |evs| >= Table(m)[i].threshold
  {
    CountsAreBounded(evs);
    match i
    case 0 => assert Table(m)[i].alert == DirEnumAlert;
    case 1 => assert Table(m)[i].alert == PortScanAlert;
    case 2 => assert Table(m)[i].alert == CountOnly();
    case 3 => assert Table(m)[i].alert == AuthBruteAlert;
    case 4 => assert Table(m)[i].alert == CountBlocked();
    case 5 => assert Table(m)[i].alert == CountOnly();
    case 6 => assert Table(m)[i].alert == WebshellAlert;
  }

  /** The three rules without a condition of their own: injections and database anomalies count events, and the
      block spike counts each of its events as blocked. */
  lemma PlainRulesFire(m: Matchers, evs: seq<EventData>)
    ensures SqliRule(m).ShouldAlert(evs) == if |evs| < 3 then None else Some(Outcome(|evs|, 0, 0, 0))
    ensures WafSpikeRule(m).ShouldAlert(evs) == if |evs| < 8 then None else Some(Outcome(|evs|, |evs|, 0, 0))
    ensures DbAnomalyRule(m).ShouldAlert(evs) == if |evs| < 6 then None else Some(Outcome(|evs|, 0, 0, 0))
  {
  }

  /** How far each rule looks back, in seconds, and whose events it puts together: those of one asset for database
      anomalies, those of one address for all others. */
  lemma WindowsAndKeys(m: Matchers, i: nat, e: EventData)
    requires i < 7
    ensures Table(m)[i].window == [90, 120, 120, 90, 60, 90, 300][i] * 1000000000
    ensures Table(m)[i].key(e) == if i == 5 then e.asset else e.srcIP
  {
  }

  /** The distinct values of a text field. */
  ghost function Distinctly(evs: seq<EventData>, f: EventData -> string): set<string> { set e | e in evs :: f(e) }

  /** When the directory-enumeration rule fires, and what it then counts: twelve events on eight paths at least,
      and of them those that were refused. */
  lemma DirEnumFires(m: Matchers, evs: seq<EventData>)
    ensures var o := DirEnumRule(m).ShouldAlert(evs);
      && (o.Some? <==> |evs| >= 12 && |Distinctly(evs, (e: EventData) => e.path)| >= 8)
      && (o.Some? ==> o.value == Outcome(|evs|, |Where(evs, (e: EventData) => e.status == 401 || e.status == 403)|,
                                         |Distinctly(evs, (e: EventData) => e.path)|, 1))
  {
    assert PathsOf(evs) == Distinctly(evs, (e: EventData) => e.path);
    FilterCounts(evs, Refused());
    assert Where(evs, Refused()) == Where(evs, (e: EventData) => e.status == 401 || e.status == 403);
  }

  /** The port-scan rule fires on fifteen events on two assets at least, and counts ports and assets. */
  lemma PortScanFires(m: Matchers, evs: seq<EventData>)
    ensures var o := PortScanRule(m).ShouldAlert(evs);
      && (o.Some? <==> |evs| >= 15 && |Distinctly(evs, (e: EventData) => e.asset)| >= 2)
      && (o.Some? ==> o.value == Outcome(|evs|, 0, |set e | e in evs && e.srcPort > 0 :: e.srcPort|,
                                         |Distinctly(evs, (e: EventData) => e.asset)|))
  {
    assert AssetsOf(evs) == Distinctly(evs, (e: EventData) => e.asset);
  }

  /** The brute-force rule fires on five events, and counts the users they name. */
  lemma AuthBruteFires(m: Matchers, evs: seq<EventData>)
    ensures var o := AuthBruteRule(m).ShouldAlert(evs);
      && (o.Some? <==> |evs| >= 5)
      && (o.Some? ==> o.value == Outcome(|evs|, 0, |Distinctly(evs, (e: EventData) => e.user) - {""}|, 0))
  {
    assert UsersOf(evs) == Distinctly(evs, (e: EventData) => e.user) - {""};
  }

  /** The webshell rule fires on any event, and counts paths. */
  lemma WebshellFires(m: Matchers, evs: seq<EventData>)
    ensures var o := WebshellRule(m).ShouldAlert(evs);
      && (o.Some? <==> evs != [])
      && (o.Some? ==> o.value == Outcome(|evs|, 0, |Distinctly(evs, (e: EventData) => e.path)|, 0))
  {
    assert PathsOf(evs) == Distinctly(evs, (e: EventData) => e.path);
  }

  lemma {:induction false} FilterShrinks<T>(s: seq<T>, p: T -> bool)
    ensures |Filter(s, p)| <= |s|
  {
    if s != [] {
      FilterShrinks(s[1..], p);
    }
  }

  lemma {:induction false} DistinctAtMost<X>(evs: seq<EventData>, values: set<X>, f: EventData -> X)
    requires forall v | v in values :: exists e :: e in evs && f(e) == v
    ensures |values| <= |evs|
  {
    if evs == [] {
      assert values == {};
    } else {
      var front, last := evs[..|evs| - 1], evs[|evs| - 1];
      var rest := values - {f(last)};
      forall v | v in rest ensures exists e :: e in front && f(e) == v {
        var e :| e in evs && f(e) == v;
        assert e in front || e == last;
      }
      DistinctAtMost(front, rest, f);
      if f(last) in values {
        assert |rest| == |values| - 1;
      }
    }
  }
}
