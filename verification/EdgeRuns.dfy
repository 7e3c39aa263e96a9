/** Whole runs of the edge engine: rate bounds, counter conservation, iteration order, eager purging. */
module EdgeRuns {
  import opened Common
  import opened Events
  import opened Edge
  import TokenBucket

  /** `Purge` drops lapsed policies from the table. The engine never does; it is here to show
      that skipping them lazily is the same. */
  datatype Op =
    | Install(p: Policy)
    | Remove(sourceID: string)
    | Eval(ip: string, tags: seq<string>, now: Time, rate: Option<Policy>)
    | Purge(at: Time)

  ghost function Next(s: State, op: Op): State {
    match op
    case Install(p) => InstallNext(s, p)
    case Remove(id) => RemoveNext(s, id)
    case Eval(ip, tags, now, rate) => EvalNext(s, ip, tags, now, rate)
    case Purge(at) => s.(policies := ActiveAt(s.policies, at))
  }

  function ClockAfter(clock: Time, op: Op): Time {
    match op
    case Eval(_, _, now, _) => now
    case Purge(at) => at
    case _ => clock
  }

  /** The clock never runs backwards and every rate policy is one the iteration can come upon. */
  ghost predicate Legal(s: State, ops: seq<Op>, clock: Time)
    decreases |ops|
  {
    ops == [] ||
    (&& ClockAfter(clock, ops[0]) >= clock
     && (ops[0].Eval? ==> LegalRate(s.policies, ops[0].ip, ops[0].now, ops[0].rate))
     && Legal(Next(s, ops[0]), ops[1..], ClockAfter(clock, ops[0])))
  }

  ghost function Run(s: State, ops: seq<Op>): State
    decreases |ops|
  {
    if ops == [] then s else Run(Next(s, ops[0]), ops[1..])
  }

  function EndClock(ops: seq<Op>, clock: Time): Time {
    if ops == [] then clock else EndClock(ops[1..], ClockAfter(clock, ops[0]))
  }

  ghost function DecisionOf(s: State, op: Op): Decision
    requires op.Eval?
  {
    Decide(s, op.ip, op.tags, op.now, op.rate)
  }

  /** The decisions of a run, in order. */
  ghost function Decisions(s: State, ops: seq<Op>): seq<Decision>
    decreases |ops|
  {
    if ops == [] then []
    else (if ops[0].Eval? then [DecisionOf(s, ops[0])] else []) + Decisions(Next(s, ops[0]), ops[1..])
  }

  // ---- the rate bound ----

  /** How often a run lets `ip` through a rate limit. */
  ghost function Admissions(s: State, ops: seq<Op>, ip: string): nat
    decreases |ops|
  {
    if ops == [] then 0
    else (if ops[0].Eval? && ops[0].ip == ip && DecisionOf(s, ops[0]).RateAdmitted? then 1 else 0)
         + Admissions(Next(s, ops[0]), ops[1..], ip)
  }

  /** How often a run removes the managed ruleset, which empties every bucket table entry. */
  function Resets(ops: seq<Op>): nat {
    if ops == [] then 0
    else (if ops[0] == Op.Remove(WAF_SOURCE_ID) then 1 else 0) + Resets(ops[1..])
  }

  predicate PolicyWithin(p: Policy, burst: real, rate: real) {
    0 < p.burst && p.burst as real <= burst && 0.0 < p.ratePerSec <= rate
  }

  ghost predicate PoliciesWithin(policies: map<string, Policy>, burst: real, rate: real) {
    forall id | id in policies :: PolicyWithin(policies[id], burst, rate)
  }

  ghost predicate InstallsWithin(ops: seq<Op>, burst: real, rate: real) {
    forall op | op in ops && op.Install? :: PolicyWithin(Normalized(op.p), burst, rate)
  }

  function Tokens(bursts: nat, burst: real): real { bursts as real * burst }

  lemma TokensAdd(a: nat, b: nat, burst: real)
    ensures Tokens(a + b, burst) == Tokens(a, burst) + Tokens(b, burst)
    ensures Tokens(0, burst) == 0.0 && Tokens(1, burst) == burst
  {
    assert (a + b) as real == a as real + b as real;
    assert (a as real + b as real) * burst == a as real * burst + b as real * burst;
  }

  ghost predicate BucketsWithin(s: State, burst: real, clock: Time) {
    forall ip | ip in s.buckets :: s.buckets[ip].last <= clock && 0.0 <= s.buckets[ip].tokens <= burst
  }

  /** What `ip` could spend at once: the bucket as if refilled by the largest policy. */
  ghost function Available(s: State, ip: string, burst: real, rate: real, clock: Time): real {
    if ip in s.buckets then
      Min(burst, s.buckets[ip].tokens + Gain(rate, s.buckets[ip].last, clock))
    else burst
  }

  lemma GainMonotone(rate: real, larger: real, a: Time, b: Time)
    requires 0.0 <= rate <= larger && a <= b
    ensures 0.0 <= Gain(rate, a, b) <= Gain(larger, a, b)
  {
    var x := (b - a) as real / NANOS_PER_SECOND;
    assert x >= 0.0;
    assert x * rate <= x * larger;
  }

  lemma AllowWithin(b: Option<BucketData>, p: Policy, now: Time, burst: real, rate: real)
    requires PolicyWithin(p, burst, rate)
    requires b.Some? ==> b.value.last <= now && 0.0 <= b.value.tokens <= burst
    ensures var (ok, c) := Allow(b, p, now);
            && c.last == now && 0.0 <= c.tokens <= burst
            && c.tokens + (if ok then 1.0 else 0.0)
               <= if b.Some? then Min(burst, b.value.tokens + Gain(rate, b.value.last, now)) else burst
  {
    if b.Some? {
      GainMonotone(p.ratePerSec, rate, b.value.last, now);
    }
  }

  lemma AvailableLater(s: State, ip: string, burst: real, rate: real, clock: Time, later: Time)
    requires rate > 0.0 && clock <= later
    ensures Available(s, ip, burst, rate, later) <= Available(s, ip, burst, rate, clock) + Gain(rate, clock, later)
  {
    GainMonotone(rate, rate, clock, later);
    if ip in s.buckets {
      TokenBucket.GainAdds(rate, s.buckets[ip].last, clock, later);
    }
  }

  lemma AvailableNonNegative(s: State, ip: string, burst: real, rate: real, clock: Time)
    requires rate > 0.0 && burst >= 1.0 && BucketsWithin(s, burst, clock)
    ensures Available(s, ip, burst, rate, clock) >= 0.0
  {
    if ip in s.buckets {
      GainMonotone(rate, rate, s.buckets[ip].last, clock);
    }
  }

  lemma GainAtOnce(rate: real, t: Time)
    ensures Gain(rate, t, t) == 0.0
  {
  }

  /** One step spends what it admits, up to what time and a reset hand out. */
  lemma StepBound(s: State, op: Op, clock: Time, ip: string, burst: real, rate: real)
    requires rate > 0.0 && burst >= 1.0 && Legal(s, [op], clock)
    requires PoliciesWithin(s.policies, burst, rate) && InstallsWithin([op], burst, rate)
    requires BucketsWithin(s, burst, clock)
    ensures var later := ClockAfter(clock, op);
            && BucketsWithin(Next(s, op), burst, later)
            && PoliciesWithin(Next(s, op).policies, burst, rate)
            && Admissions(s, [op], ip) as real + Available(Next(s, op), ip, burst, rate, later)
               <= Available(s, ip, burst, rate, clock) + Gain(rate, clock, later)
                  + Tokens(Resets([op]), burst)
  {
    var later := ClockAfter(clock, op);
    AvailableLater(s, ip, burst, rate, clock, later);
    AvailableNonNegative(s, ip, burst, rate, clock);
    TokensAdd(0, 0, burst);
    assert [op][0] == op && [op][1..] == [];
    match op
    case Install(p) =>
      GainAtOnce(rate, clock);
      assert op in [op];
    case Remove(id) =>
      GainAtOnce(rate, clock);
    case Purge(at) =>
    case Eval(jp, tags, now, pick) =>
      var d := DecisionOf(s, op);
      if d.RateAdmitted? || d.Throttled? {
        AllowWithin(BucketOf(s, jp), pick.value, now, burst, rate);
        GainAtOnce(rate, now);
      }
  }

  lemma LegalHead(s: State, ops: seq<Op>, clock: Time)
    requires ops != [] && Legal(s, ops, clock)
    ensures Legal(s, [ops[0]], clock)
    ensures Legal(Next(s, ops[0]), ops[1..], ClockAfter(clock, ops[0]))
  {
    assert [ops[0]][1..] == [];
  }

  lemma {:induction false} SegmentBound(s: State, ops: seq<Op>, clock: Time, ip: string, burst: real, rate: real)
    requires rate > 0.0 && burst >= 1.0 && Legal(s, ops, clock)
    requires PoliciesWithin(s.policies, burst, rate) && InstallsWithin(ops, burst, rate)
    requires BucketsWithin(s, burst, clock)
    ensures EndClock(ops, clock) >= clock
    ensures BucketsWithin(Run(s, ops), burst, EndClock(ops, clock))
    ensures PoliciesWithin(Run(s, ops).policies, burst, rate)
    ensures Admissions(s, ops, ip) as real
            <= Available(s, ip, burst, rate, clock) + Gain(rate, clock, EndClock(ops, clock))
               + Tokens(Resets(ops), burst)
    decreases |ops|
  {
    if ops == [] {
      GainAtOnce(rate, clock);
      TokensAdd(0, 0, burst);
      AvailableNonNegative(s, ip, burst, rate, clock);
    } else {
      var op, rest := ops[0], ops[1..];
      var later := ClockAfter(clock, op);
      LegalHead(s, ops, clock);
      StepBound(s, op, clock, ip, burst, rate);
      SegmentBound(Next(s, op), rest, later, ip, burst, rate);
      TokenBucket.GainAdds(rate, clock, later, EndClock(ops, clock));
      assert [op][1..] == [];
      assert Admissions(s, ops, ip) == Admissions(s, [op], ip) + Admissions(Next(s, op), rest, ip);
      TokensAdd(Resets([op]), Resets(rest), burst);
    }
  }

  /** Over any window of any run from the initial state, an address passes its rate limit at most once per
      token of one burst, of one burst more for each removal of the managed ruleset, and of the refill over
      the window, whenever the window opens and closes. Installing and removing other policies adds nothing. */
  lemma AdmissionsBounded(before: seq<Op>, stretch: seq<Op>, clock: Time, from: Time, to: Time, ip: string, burst: real, rate: real)
    requires rate > 0.0 && burst >= 1.0
    requires Legal(INITIAL, before, clock) && EndClock(before, clock) <= from
    requires Legal(Run(INITIAL, before), stretch, from) && EndClock(stretch, from) <= to
    requires InstallsWithin(before, burst, rate) && InstallsWithin(stretch, burst, rate)
    ensures Admissions(Run(INITIAL, before), stretch, ip) as real
            <= Tokens(Resets(stretch) + 1, burst) + Gain(rate, from, to)
  {
    SegmentBound(INITIAL, before, clock, ip, burst, rate);
    SegmentBound(Run(INITIAL, before), stretch, from, ip, burst, rate);
    TokensAdd(Resets(stretch), 1, burst);
    GainMonotone(rate, rate, EndClock(stretch, from), to);
    TokenBucket.GainAdds(rate, from, EndClock(stretch, from), to);
  }

  // ---- the windows of an address, over a run of the engine ----

  /** The moments at which an address was let through its rate limit, since the buckets were last emptied:
      those so far, and those of the run. */
  ghost function AdmittedSince(s: State, ops: seq<Op>, ip: string, sofar: seq<Time>): seq<Time>
    decreases |ops|
  {
    if ops == [] then sofar
    else
      var op := ops[0];
      AdmittedSince(Next(s, op), ops[1..], ip,
        if op.Remove? && op.sourceID == "waf-managed-ruleset" then []
        else if op.Eval? && op.ip == ip && DecisionOf(s, op).RateAdmitted? then sofar + [op.now]
        else sofar)
  }

  /** The bucket of an address is what its admissions leave of a bucket with that burst and rate. */
  ghost predicate BucketTells(s: State, ip: string, admitted: seq<Time>, p: Policy, clock: Time) {
    TokenBucket.Faithful(p, TokenBucket.Log(BucketOf(s, ip), admitted), clock)
  }

  lemma SameRatesSameAnswer(b: Option<BucketData>, p: Policy, q: Policy, now: Time)
    requires p.burst == q.burst && p.ratePerSec == q.ratePerSec
    ensures Allow(b, p, now) == Allow(b, q, now)
  {
  }

  /** An evaluation leaves the bucket of an address as one question does, if it was a rate-limit question for it,
      and as it was otherwise. */
  lemma EvalTells(s: State, op: Op, ip: string, admitted: seq<Time>, p: Policy, clock: Time)
    requires op.Eval? && clock <= op.now && LegalRate(s.policies, op.ip, op.now, op.rate)
    requires TokenBucket.Usable(p) && RatesAre(s.policies, p.burst, p.ratePerSec) && BucketTells(s, ip, admitted, p, clock)
    ensures BucketTells(Next(s, op), ip,
                        if op.ip == ip && DecisionOf(s, op).RateAdmitted? then admitted + [op.now] else admitted, p, op.now)
  {
    var d := DecisionOf(s, op);
    if op.ip == ip && (d.RateAdmitted? || d.Throttled?) {
      SameRatesSameAnswer(BucketOf(s, ip), op.rate.value, p, op.now);
      TokenBucket.VisitKeepsFaith(p, TokenBucket.Log(BucketOf(s, ip), admitted), TokenBucket.Ask(op.now), clock);
      assert BucketOf(Next(s, op), ip) == Some(Allow(BucketOf(s, ip), p, op.now).1);
    } else {
      assert BucketOf(Next(s, op), ip) == BucketOf(s, ip);
    }
  }

  lemma RatesStay(s: State, op: Op, burst: int, rate: real)
    requires RatesAre(s.policies, burst, rate) && InstalledRatesAre([op], burst, rate)
    ensures RatesAre(Next(s, op).policies, burst, rate)
  {
    assert [op][0] == op;
  }

  lemma {:induction false} BucketsTell(s: State, ops: seq<Op>, clock: Time, ip: string, sofar: seq<Time>, p: Policy)
    requires TokenBucket.Usable(p) && Legal(s, ops, clock)
    requires RatesAre(s.policies, p.burst, p.ratePerSec) && InstalledRatesAre(ops, p.burst, p.ratePerSec)
    requires BucketTells(s, ip, sofar, p, clock)
    ensures BucketTells(Run(s, ops), ip, AdmittedSince(s, ops, ip, sofar), p, EndClock(ops, clock))
    ensures RatesAre(Run(s, ops).policies, p.burst, p.ratePerSec)
    decreases |ops|
  {
    if ops != [] {
      var op, rest := ops[0], ops[1..];
      RatesStay(s, op, p.burst, p.ratePerSec);
      var next := if op.Remove? && op.sourceID == "waf-managed-ruleset" then []
                  else if op.Eval? && op.ip == ip && DecisionOf(s, op).RateAdmitted? then sofar + [op.now]
                  else sofar;
      assert BucketTells(Next(s, op), ip, next, p, ClockAfter(clock, op)) by {
        if op.Eval? {
          EvalTells(s, op, ip, sofar, p, clock);
        }
      }
      BucketsTell(Next(s, op), rest, ClockAfter(clock, op), ip, next, p);
    }
  }

  /** Over any run of the engine with one burst and rate, an event that comes to the rate limit is let through exactly
      when every window that starts at an earlier admission of its address, since the managed ruleset was last removed,
      has room for one more. Nothing else that happens in between makes a difference. */
  lemma EngineAdmitsExactlyWhenWindowsHaveRoom(ops: seq<Op>, clock: Time, ip: string, tags: seq<string>, now: Time,
                                               rate: Option<Policy>, burst: int, perSec: real)
    requires burst >= 1 && perSec > 0.0 && InstalledRatesAre(ops, burst, perSec)
    requires Legal(INITIAL, ops, clock) && EndClock(ops, clock) <= now
    requires var policies := Run(INITIAL, ops).policies;
             LegalRate(policies, ip, now, rate) && rate.Some? && !HasMatch(policies, Deny, ip, now)
    ensures var admitted := AdmittedSince(INITIAL, ops, ip, []);
            && rate.value.burst == burst && rate.value.ratePerSec == perSec
            && (Decide(Run(INITIAL, ops), ip, tags, now, rate) == RateAdmitted
                <==> TokenBucket.RoomInEveryWindow(rate.value, admitted, now))
  {
    var p := rate.value.(burst := burst, ratePerSec := perSec);
    var s, admitted := Run(INITIAL, ops), AdmittedSince(INITIAL, ops, ip, []);
    BucketsTell(INITIAL, ops, clock, ip, [], p);
    var id :| id in s.policies && s.policies[id] == rate.value;
    assert p == rate.value;
    TokenBucket.FetchedLevel(p, TokenBucket.Log(BucketOf(s, ip), admitted), now, EndClock(ops, clock));
    TokenBucket.LevelIsRoom(p, admitted, now);
  }

  // ---- decisions and marks, told by the policies ----

  /** The policy is of that kind, has not expired, and names that address or none. */
  predicate Bites(p: Policy, kind: Kind, ip: string, now: Time) {
    p.kind == kind && (p.expiresAt.None? || now <= p.expiresAt.value) && p.targetIP in ["", ip]
  }

  predicate AnyBites(policies: map<string, Policy>, kind: Kind, ip: string, now: Time) {
    exists id | id in policies :: Bites(policies[id], kind, ip, now)
  }

  /** The tags by which an event counts as an attack. */
  predicate Attacks(tags: seq<string>) {
    "sqli" in tags || "webshell" in tags || "brute_force" in tags || "scan" in tags || "auth_failure" in tags
  }

  lemma MatchIsBite(policies: map<string, Policy>, kind: Kind, ip: string, now: Time)
    ensures HasMatch(policies, kind, ip, now) <==> AnyBites(policies, kind, ip, now)
  {
    forall id | id in policies ensures Applies(policies[id], kind, ip, now) <==> Bites(policies[id], kind, ip, now) {
    }
  }

  lemma AttackIsTagged(tags: seq<string>)
    ensures IsAttack(tags) <==> Attacks(tags)
  {
    if IsAttack(tags) {
      var t :| t in tags && AttackTag(t);
    }
    assert Attacks(tags) ==> exists t :: t in tags && AttackTag(t) by {
      if "sqli" in tags { assert AttackTag("sqli"); }
      if "webshell" in tags { assert AttackTag("webshell"); }
      if "brute_force" in tags { assert AttackTag("brute_force"); }
      if "scan" in tags { assert AttackTag("scan"); }
      if "auth_failure" in tags { assert AttackTag("auth_failure"); }
    }
  }

  /** A deny policy decides first, then a rate limit, then, for an attack, a firewall policy that names no address. */
  lemma DecisionFollowsPolicies(s: State, ip: string, tags: seq<string>, now: Time, rate: Option<Policy>)
    requires LegalRate(s.policies, ip, now, rate)
    ensures var d := Decide(s, ip, tags, now, rate);
            if AnyBites(s.policies, Deny, ip, now) then d.Denied?
            else if AnyBites(s.policies, RateLimit, ip, now) then d.RateAdmitted? || d.Throttled?
            else if AnyBites(s.policies, Waf, "", now) && Attacks(tags) then d.WafBlocked?
            else d.Unlimited?
  {
    MatchIsBite(s.policies, Deny, ip, now);
    MatchIsBite(s.policies, RateLimit, ip, now);
    MatchIsBite(s.policies, Waf, "", now);
    AttackIsTagged(tags);
  }

  /** A blocked event answers 429 when throttled and 403 otherwise, and says in its tags that it was blocked and
      why; one that passes is not marked, and nothing else of an event is ever changed. */
  lemma MarkSaysWhy(e: EventData, d: Decision)
    ensures Marked(e, d) ==
      if d.Denied? then e.(status := 403, tags := e.tags + ["waf_block", "contained:deny"])
      else if d.Throttled? then e.(status := 429, tags := e.tags + ["waf_block", "contained:rate_limit"])
      else if d.WafBlocked? then e.(status := 403, tags := e.tags + ["waf_block", "contained:waf"])
      else e
  {
    assert "contained:" + "deny" == "contained:deny";
    assert "contained:" + "rate_limit" == "contained:rate_limit";
    assert "contained:" + "waf" == "contained:waf";
  }

  // ---- counters ----

  predicate Conserved(c: Counters) {
    c.total == c.deny + c.rate + c.waf
  }

  function Is(d: Decision): Decision -> bool { (x: Decision) => x == d }

  /** The counters after some decisions: each reason counts its own, and the total all of them. */
  ghost predicate Counts(before: Counters, after: Counters, ds: seq<Decision>) {
    && after.deny == before.deny + |Filter(ds, Is(Denied))|
    && after.rate == before.rate + |Filter(ds, Is(Throttled))|
    && after.waf == before.waf + |Filter(ds, Is(WafBlocked))|
    && after.total - before.total == after.deny - before.deny + after.rate - before.rate + after.waf - before.waf
  }

  lemma CountsOneMore(before: Counters, after: Counters, d: Decision, ds: seq<Decision>)
    requires Counts(Count(before, d), after, ds)
    ensures Counts(before, after, [d] + ds)
  {
    assert ([d] + ds)[1..] == ds;
  }

  /** Over any run each reason counter has grown by the number of decisions of its kind, and the block counter by
      the number of all blocking decisions. */
  lemma {:induction false} BlocksAreCounted(s: State, ops: seq<Op>)
    ensures Counts(s.counters, Run(s, ops).counters, Decisions(s, ops))
    ensures Conserved(s.counters) ==> Conserved(Run(s, ops).counters)
    decreases |ops|
  {
    if ops != [] {
      BlocksAreCounted(Next(s, ops[0]), ops[1..]);
      if ops[0].Eval? {
        CountsOneMore(s.counters, Run(s, ops).counters, DecisionOf(s, ops[0]), Decisions(Next(s, ops[0]), ops[1..]));
      } else {
        assert Decisions(s, ops) == Decisions(Next(s, ops[0]), ops[1..]);
      }
    }
  }

  // ---- iteration order ----

  /** The rate policies that apply to an address share burst and rate. */
  ghost predicate RatesAgreeAt(policies: map<string, Policy>, ip: string, now: Time) {
    forall id, jd | id in policies && jd in policies
                    && Applies(policies[id], RateLimit, ip, now) && Applies(policies[jd], RateLimit, ip, now) ::
      policies[id].burst == policies[jd].burst && policies[id].ratePerSec == policies[jd].ratePerSec
  }

  /** Two answers of the iteration lead to the same decision, bucket and counters. */
  ghost predicate SameOutcome(s: State, ip: string, tags: seq<string>, now: Time, one: Option<Policy>, other: Option<Policy>) {
    && Decide(s, ip, tags, now, one) == Decide(s, ip, tags, now, other)
    && EvalNext(s, ip, tags, now, one) == EvalNext(s, ip, tags, now, other)
  }

  /** Whatever the buckets, the counters and the tags, the iteration order of the policy map decides nothing. */
  ghost predicate OrderIrrelevant(policies: map<string, Policy>, ip: string, now: Time) {
    forall s: State, tags, one, other
      | s.policies == policies && LegalRate(policies, ip, now, one) && LegalRate(policies, ip, now, other) ::
      SameOutcome(s, ip, tags, now, one, other)
  }

  lemma OrderDoesNotMatter(s: State, ip: string, tags: seq<string>, now: Time, one: Option<Policy>, other: Option<Policy>)
    requires HasMatch(s.policies, Deny, ip, now) || RatesAgreeAt(s.policies, ip, now)
    requires LegalRate(s.policies, ip, now, one) && LegalRate(s.policies, ip, now, other)
    ensures SameOutcome(s, ip, tags, now, one, other)
  {
    if !HasMatch(s.policies, Deny, ip, now) {
      assert one.Some? <==> other.Some?;
      if one.Some? {
        assert Allow(BucketOf(s, ip), one.value, now) == Allow(BucketOf(s, ip), other.value, now);
      }
    }
  }

  /** A bucket on which two policies act differently: none at all when their bursts differ, and otherwise
      one a moment old that neither refill can fill. */
  function Telling(p: Policy, q: Policy, now: Time): Option<BucketData> {
    if p.burst != q.burst then None
    else
      var gain := Gain(p.ratePerSec, now - 1, now) + Gain(q.ratePerSec, now - 1, now);
      Some(BucketData(p.burst as real - (if gain > 0.0 then gain else 0.0), now - 1))
  }

  lemma TellsApart(p: Policy, q: Policy, now: Time)
    requires p.burst != q.burst || p.ratePerSec != q.ratePerSec
    requires p.ratePerSec > 0.0 && q.ratePerSec > 0.0
    ensures Allow(Telling(p, q, now), p, now).1.tokens != Allow(Telling(p, q, now), q, now).1.tokens
            || Allow(Telling(p, q, now), p, now).0 != Allow(Telling(p, q, now), q, now).0
  {
    if p.burst == q.burst {
      var unit := 1.0 / NANOS_PER_SECOND;
      var g, h := Gain(p.ratePerSec, now - 1, now), Gain(q.ratePerSec, now - 1, now);
      assert g == unit * p.ratePerSec && h == unit * q.ratePerSec;
      assert g > 0.0 && h > 0.0 && g != h;
      var b := Telling(p, q, now);
      assert Refill(b.value, p, now).tokens == p.burst as real - h;
      assert Refill(b.value, q, now).tokens == p.burst as real - g;
    }
  }

  /** For a policy table, an address and a moment, the iteration order of the map decides nothing exactly when
      a deny policy decides first or all rate policies that apply share burst and rate. */
  lemma OrderIsIrrelevantExactlyWhen(policies: map<string, Policy>, ip: string, now: Time)
    requires forall id | id in policies :: policies[id].ratePerSec > 0.0
    ensures OrderIrrelevant(policies, ip, now) <==> HasMatch(policies, Deny, ip, now) || RatesAgreeAt(policies, ip, now)
  {
    if HasMatch(policies, Deny, ip, now) || RatesAgreeAt(policies, ip, now) {
      forall s: State, tags, one, other
        | s.policies == policies && LegalRate(policies, ip, now, one) && LegalRate(policies, ip, now, other)
        ensures SameOutcome(s, ip, tags, now, one, other)
      {
        OrderDoesNotMatter(s, ip, tags, now, one, other);
      }
    } else {
      var id, jd :| id in policies && jd in policies
                    && Applies(policies[id], RateLimit, ip, now) && Applies(policies[jd], RateLimit, ip, now)
                    && (policies[id].burst != policies[jd].burst || policies[id].ratePerSec != policies[jd].ratePerSec);
      OrderTells(policies, ip, now, policies[id], policies[jd]);
    }
  }

  lemma OrderTells(policies: map<string, Policy>, ip: string, now: Time, p: Policy, q: Policy)
    requires !HasMatch(policies, Deny, ip, now)
    requires ValidPick(policies, RateLimit, ip, now, Some(p)) && ValidPick(policies, RateLimit, ip, now, Some(q))
    requires p.burst != q.burst || p.ratePerSec != q.ratePerSec
    requires p.ratePerSec > 0.0 && q.ratePerSec > 0.0
    ensures !OrderIrrelevant(policies, ip, now)
  {
    var level := Telling(p, q, now);
    var s := State(policies, match level case None => map[] case Some(b) => map[ip := b], Counters(0, 0, 0, 0));
    TellsApart(p, q, now);
    assert BucketOf(s, ip) == level;
    assert EvalNext(s, ip, [], now, Some(p)).buckets[ip] == Allow(level, p, now).1;
    assert EvalNext(s, ip, [], now, Some(q)).buckets[ip] == Allow(level, q, now).1;
    assert !SameOutcome(s, ip, [], now, Some(p), Some(q));
  }

  /** The same calls, but for the rate policies the iteration came upon. */
  ghost predicate SameCalls(ops: seq<Op>, others: seq<Op>) {
    |ops| == |others| &&
    forall i | 0 <= i < |ops| ::
      others[i] == if ops[i].Eval? && others[i].Eval? then ops[i].(rate := others[i].rate) else ops[i]
  }

  ghost predicate RatesAre(policies: map<string, Policy>, burst: int, rate: real) {
    forall id | id in policies && policies[id].kind.RateLimit? ::
      policies[id].burst == burst && policies[id].ratePerSec == rate
  }

  ghost predicate InstalledRatesAre(ops: seq<Op>, burst: int, rate: real) {
    forall i | 0 <= i < |ops| && ops[i].Install? && ops[i].p.kind.RateLimit? ::
      Normalized(ops[i].p).burst == burst && Normalized(ops[i].p).ratePerSec == rate
  }

  /** While all rate policies share burst and rate, the iteration order of the policy map decides nothing:
      two runs of the same calls that come upon different policies decide alike and end alike. */
  lemma {:induction false} OrderNeverMatters(s: State, ops: seq<Op>, others: seq<Op>, clock: Time, burst: int, rate: real)
    requires RatesAre(s.policies, burst, rate) && InstalledRatesAre(ops, burst, rate)
    requires SameCalls(ops, others) && Legal(s, ops, clock) && Legal(s, others, clock)
    ensures Decisions(s, ops) == Decisions(s, others)
    ensures Run(s, ops) == Run(s, others)
    decreases |ops|
  {
    if ops != [] {
      var op, other := ops[0], others[0];
      if op.Eval? {
        OrderDoesNotMatter(s, op.ip, op.tags, op.now, op.rate, other.rate);
      }
      assert Next(s, op) == Next(s, other);
      OrderNeverMatters(Next(s, op), ops[1..], others[1..], ClockAfter(clock, op), burst, rate);
    }
  }

  const SLOW: Policy := Policy("slow", RateLimit, "", "", 1.0, 1, None)
  const FAST: Policy := Policy("fast", RateLimit, "", "", 2.0, 1, None)

  /** Two overlapping rate limits, a question that takes the only token, and one half a second later
      for which the iteration comes upon `pick`. */
  function Overlapping(pick: Policy): seq<Op> {
    [Install(SLOW), Install(FAST), Eval("ip", [], 0, Some(SLOW)), Eval("ip", [], 500000000, Some(pick))]
  }

  const OVERLAP: map<string, Policy> := map["slow" := SLOW, "fast" := FAST]

  /** The decision of the later question, when the only token has just been taken. */
  lemma LaterQuestion(pick: Policy, s: State)
    requires pick == SLOW || pick == FAST
    requires s.policies == OVERLAP && s.buckets == map["ip" := BucketData(0.0, 0)]
    ensures LegalRate(OVERLAP, "ip", 500000000, Some(pick))
    ensures Decide(s, "ip", [], 500000000, Some(pick)) == if pick == FAST then RateAdmitted else Throttled
  {
    assert OVERLAP["slow"] == SLOW && OVERLAP["fast"] == FAST;
    assert ValidPick(OVERLAP, RateLimit, "ip", 500000000, Some(pick));
    assert !HasMatch(OVERLAP, Deny, "ip", 500000000);
    assert Gain(1.0, 0, 500000000) == 0.5 && Gain(2.0, 0, 500000000) == 1.0;
  }

  lemma FirstQuestion(s: State)
    requires s.policies == OVERLAP && s.buckets == map[]
    ensures LegalRate(OVERLAP, "ip", 0, Some(SLOW))
    ensures Decide(s, "ip", [], 0, Some(SLOW)) == RateAdmitted
    ensures EvalNext(s, "ip", [], 0, Some(SLOW)).buckets == map["ip" := BucketData(0.0, 0)]
  {
    assert OVERLAP["slow"] == SLOW && OVERLAP["fast"] == FAST;
    assert ValidPick(OVERLAP, RateLimit, "ip", 0, Some(SLOW));
    assert !HasMatch(OVERLAP, Deny, "ip", 0);
  }

  lemma RunOfTwo(s: State, first: Op, second: Op, clock: Time)
    requires first.Eval? && second.Eval? && clock <= first.now <= second.now
    requires LegalRate(s.policies, first.ip, first.now, first.rate)
    requires LegalRate(Next(s, first).policies, second.ip, second.now, second.rate)
    ensures Legal(s, [first, second], clock)
    ensures Decisions(s, [first, second]) == [DecisionOf(s, first), DecisionOf(Next(s, first), second)]
  {
    assert [first, second][1..] == [second] && [second][1..] == [];
    assert Decisions(Next(s, first), [second]) == [DecisionOf(Next(s, first), second)];
  }

  lemma OverlappingRun(pick: Policy)
    requires pick == SLOW || pick == FAST
    ensures Legal(INITIAL, Overlapping(pick), 0)
    ensures Decisions(INITIAL, Overlapping(pick)) == [RateAdmitted, if pick == FAST then RateAdmitted else Throttled]
  {
    var ops := Overlapping(pick);
    var s := Next(INITIAL, ops[0]);
    var t := Next(s, ops[1]);
    assert t == State(OVERLAP, map[], Counters(0, 0, 0, 0));
    assert ops[1..][0] == ops[1] && ops[1..][1..] == [ops[2], ops[3]];
    FirstQuestion(t);
    LaterQuestion(pick, Next(t, ops[2]));
    RunOfTwo(t, ops[2], ops[3], 0);
    assert Legal(s, ops[1..], 0) && Decisions(s, ops[1..]) == [] + Decisions(t, [ops[2], ops[3]]);
    assert Decisions(INITIAL, ops) == [] + Decisions(s, ops[1..]);
  }

  /** With different rates it can: two runs of the same calls, from the initial state, decide differently. */
  lemma OrderCanMatter()
    ensures Legal(INITIAL, Overlapping(SLOW), 0) && Legal(INITIAL, Overlapping(FAST), 0)
    ensures SameCalls(Overlapping(SLOW), Overlapping(FAST))
    ensures Decisions(INITIAL, Overlapping(SLOW)) != Decisions(INITIAL, Overlapping(FAST))
  {
    OverlappingRun(SLOW);
    OverlappingRun(FAST);
    assert Decisions(INITIAL, Overlapping(SLOW))[1] != Decisions(INITIAL, Overlapping(FAST))[1];
  }

  // ---- eager purging ----

  function IsReal(): Op -> bool { (op: Op) => !op.Purge? }

  /** `t` holds everything `s` holds, and beyond it only policies that have lapsed. */
  ghost predicate SameButLapsed(s: State, t: State, clock: Time) {
    && s.buckets == t.buckets && s.counters == t.counters
    && (forall id | id in s.policies :: id in t.policies && t.policies[id] == s.policies[id])
    && (forall id | id in t.policies && id !in s.policies :: Expired(t.policies[id], clock))
  }

  lemma LapsedNeverMatch(s: State, t: State, clock: Time, kind: Kind, ip: string, now: Time)
    requires SameButLapsed(s, t, clock) && clock <= now
    ensures HasMatch(s.policies, kind, ip, now) <==> HasMatch(t.policies, kind, ip, now)
    ensures forall pick :: ValidPick(s.policies, kind, ip, now, pick) <==> ValidPick(t.policies, kind, ip, now, pick)
  {
    forall id | id in t.policies && Applies(t.policies[id], kind, ip, now)
      ensures id in s.policies && s.policies[id] == t.policies[id]
    {
    }
    forall pick ensures ValidPick(s.policies, kind, ip, now, pick) <==> ValidPick(t.policies, kind, ip, now, pick) {
      if ValidPick(t.policies, kind, ip, now, pick) && pick.Some? {
        var id :| id in t.policies && t.policies[id] == pick.value;
        assert id in s.policies;
      }
    }
  }

  lemma StepSameButLapsed(s: State, t: State, op: Op, clock: Time)
    requires SameButLapsed(s, t, clock) && ClockAfter(clock, op) >= clock
    requires op.Eval? ==> LegalRate(s.policies, op.ip, op.now, op.rate)
    ensures SameButLapsed(Next(s, op), if op.Purge? then t else Next(t, op), ClockAfter(clock, op))
    ensures op.Eval? ==> LegalRate(t.policies, op.ip, op.now, op.rate) && DecisionOf(s, op) == DecisionOf(t, op)
  {
    if op.Eval? {
      LapsedNeverMatch(s, t, clock, Deny, op.ip, op.now);
      LapsedNeverMatch(s, t, clock, RateLimit, op.ip, op.now);
      LapsedNeverMatch(s, t, clock, Waf, "", op.now);
    }
  }

  /** Dropping lapsed policies at any points of a run changes no decision, no bucket and no counter. */
  lemma {:induction false} PurgingIsInvisible(s: State, t: State, ops: seq<Op>, clock: Time)
    requires SameButLapsed(s, t, clock) && Legal(s, ops, clock)
    ensures Legal(t, Filter(ops, IsReal()), clock)
    ensures Decisions(s, ops) == Decisions(t, Filter(ops, IsReal()))
    ensures SameButLapsed(Run(s, ops), Run(t, Filter(ops, IsReal())), EndClock(ops, clock))
    decreases |ops|
  {
    if ops != [] {
      var op, rest := ops[0], ops[1..];
      var later := ClockAfter(clock, op);
      var u := if op.Purge? then t else Next(t, op);
      StepSameButLapsed(s, t, op, clock);
      PurgingIsInvisible(Next(s, op), u, rest, later);
      if op.Purge? {
        LegalEarlier(t, Filter(rest, IsReal()), later, clock);
        assert Filter(ops, IsReal()) == Filter(rest, IsReal());
        assert Decisions(s, ops) == Decisions(Next(s, op), rest);
      } else {
        var kept := Filter(ops, IsReal());
        assert kept == [op] + Filter(rest, IsReal());
        assert kept[0] == op && kept[1..] == Filter(rest, IsReal());
      }
    }
  }

  lemma LegalEarlier(s: State, ops: seq<Op>, clock: Time, earlier: Time)
    requires Legal(s, ops, clock) && earlier <= clock
    ensures Legal(s, ops, earlier)
    decreases |ops|
  {
    if ops != [] && (ops[0].Install? || ops[0].Remove?) {
      LegalEarlier(Next(s, ops[0]), ops[1..], clock, earlier);
    }
  }
}
