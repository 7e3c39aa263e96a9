/** Edge enforcement: the policy table, the lazily refilled buckets and the block counters. */
module Edge {
  import opened Common
  import opened Events

  datatype Kind = Deny | RateLimit | Waf

  datatype Policy = Policy(
    sourceID: string, kind: Kind, targetIP: string, enforcement: string,
    ratePerSec: real, burst: int, expiresAt: Option<Time>)

  const DEFAULT_RATE: real := 2.0
  const DEFAULT_BURST: int := 5
  const WAF_SOURCE_ID: string := "waf-managed-ruleset"
  const NANOS_PER_SECOND: real := 1000000000.0

  datatype BucketData = BucketData(tokens: real, last: Time)

  datatype Counters = Counters(total: nat, deny: nat, rate: nat, waf: nat)

  /** The whole state of the engine at one moment. */
  datatype State = State(policies: map<string, Policy>, buckets: map<string, BucketData>, counters: Counters)

  const INITIAL: State := State(map[], map[], Counters(0, 0, 0, 0))

  /** What became of one event. The engine itself reports only whether it was blocked. */
  datatype Decision = Denied | Throttled | WafBlocked | RateAdmitted | Unlimited
  {
    predicate Blocked() { Denied? || Throttled? || WafBlocked? }
  }

  // ---- policies ----

  function Normalized(p: Policy): Policy {
    p.(ratePerSec := if p.ratePerSec <= 0.0 then DEFAULT_RATE else p.ratePerSec,
       burst := if p.burst <= 0 then DEFAULT_BURST else p.burst)
  }

  function InstallNext(s: State, p: Policy): State {
    if p.sourceID == "" then s
    else s.(policies := s.policies[p.sourceID := Normalized(p)])
  }

  function RemoveNext(s: State, sourceID: string): State {
    s.(policies := s.policies - {sourceID},
       buckets := if sourceID == WAF_SOURCE_ID then map[] else s.buckets)
  }

  predicate Expired(p: Policy, now: Time) {
    p.expiresAt.Some? && now > p.expiresAt.value
  }

  predicate Applies(p: Policy, kind: Kind, ip: string, now: Time) {
    p.kind == kind && !Expired(p, now) && (p.targetIP == "" || p.targetIP == ip)
  }

  /** `pick` is an answer that some iteration order of the policy map gives. */
  ghost predicate ValidPick(policies: map<string, Policy>, kind: Kind, ip: string, now: Time, pick: Option<Policy>) {
    match pick
    case Some(p) => Applies(p, kind, ip, now) && exists id :: id in policies && policies[id] == p
    case None => forall id | id in policies :: !Applies(policies[id], kind, ip, now)
  }

  /** The rate policy matters only when no deny policy applies. */
  ghost predicate LegalRate(policies: map<string, Policy>, ip: string, now: Time, rate: Option<Policy>) {
    HasMatch(policies, Deny, ip, now) || ValidPick(policies, RateLimit, ip, now, rate)
  }

  ghost predicate HasMatch(policies: map<string, Policy>, kind: Kind, ip: string, now: Time) {
    exists id :: id in policies && Applies(policies[id], kind, ip, now)
  }

  // ---- buckets ----

  /** Tokens gained between two moments. */
  function Gain(rate: real, from: Time, to: Time): real {
    ((to - from) as real / NANOS_PER_SECOND) * rate
  }

  function Refill(b: BucketData, p: Policy, now: Time): BucketData {
    if now > b.last then
      BucketData(Min(p.burst as real, b.tokens + Gain(p.ratePerSec, b.last, now)), now)
    else b
  }

  function Fetch(b: Option<BucketData>, p: Policy, now: Time): BucketData {
    match b
    case Some(v) => v
    case None => BucketData(p.burst as real, now)
  }

  /** One rate-limit question: the verdict and the bucket it leaves. */
  function Allow(b: Option<BucketData>, p: Policy, now: Time): (bool, BucketData) {
    var r := Refill(Fetch(b, p, now), p, now);
    if r.tokens >= 1.0 then (true, r.(tokens := r.tokens - 1.0)) else (false, r)
  }

  lemma FetchAllow(b: Option<BucketData>, p: Policy, now: Time)
    ensures Allow(Some(Fetch(b, p, now)), p, now) == Allow(b, p, now)
  {
  }

  // ---- evaluation ----

  predicate AttackTag(t: string) {
    t == TAG_SQLI || t == TAG_WEBSHELL || t == TAG_BRUTE_FORCE || t == TAG_SCAN || t == TAG_AUTH_FAILURE
  }

  predicate IsAttack(tags: seq<string>) {
    exists t :: t in tags && AttackTag(t)
  }

  function LevelOf(buckets: map<string, BucketData>, ip: string): Option<BucketData> {
    if ip in buckets then Some(buckets[ip]) else None
  }

  function BucketOf(s: State, ip: string): Option<BucketData> { LevelOf(s.buckets, ip) }

  /** The decision for an event, given the rate policy the map iteration came upon. */
  ghost function Decide(s: State, ip: string, tags: seq<string>, now: Time, rate: Option<Policy>): Decision {
    if HasMatch(s.policies, Deny, ip, now) then Denied
    else Unbarred(s.policies, BucketOf(s, ip), tags, now, rate)
  }

  /** The decision when no deny policy applies. */
  ghost function Unbarred(policies: map<string, Policy>, level: Option<BucketData>, tags: seq<string>, now: Time,
                          rate: Option<Policy>): Decision {
    if rate.Some? then
      if Allow(level, rate.value, now).0 then RateAdmitted else Throttled
    else if HasMatch(policies, Waf, "", now) && IsAttack(tags) then WafBlocked
    else Unlimited
  }

  /** The buckets after the question a rate policy asks, if there is one. */
  function Drawn(buckets: map<string, BucketData>, ip: string, now: Time, rate: Option<Policy>): map<string, BucketData> {
    match rate
    case Some(p) => buckets[ip := Allow(LevelOf(buckets, ip), p, now).1]
    case None => buckets
  }

  function Count(c: Counters, d: Decision): Counters {
    match d
    case Denied => c.(total := c.total + 1, deny := c.deny + 1)
    case Throttled => c.(total := c.total + 1, rate := c.rate + 1)
    case WafBlocked => c.(total := c.total + 1, waf := c.waf + 1)
    case _ => c
  }

  /** Only a rate-limit question touches a bucket. */
  function BucketsNext(s: State, ip: string, now: Time, rate: Option<Policy>, d: Decision): map<string, BucketData> {
    if d.Throttled? || d.RateAdmitted? then Drawn(s.buckets, ip, now, rate) else s.buckets
  }

  ghost function EvalNext(s: State, ip: string, tags: seq<string>, now: Time, rate: Option<Policy>): State {
    var d := Decide(s, ip, tags, now, rate);
    State(s.policies, BucketsNext(s, ip, now, rate, d), Count(s.counters, d))
  }

  function ReasonName(d: Decision): string
    requires d.Blocked()
  {
    match d
    case Denied => "deny"
    case Throttled => "rate_limit"
    case WafBlocked => "waf"
  }

  /** What a blocked event is marked with. */
  function Marked(e: EventData, d: Decision): EventData {
    if !d.Blocked() then e
    else e.(status := if d.Throttled? then 429 else 403,
            tags := e.tags + [TAG_WAF_BLOCK, "contained:" + ReasonName(d)])
  }

  function ReasonIndex(k: Kind): nat {
    match k
    case Deny => 0
    case RateLimit => 1
    case Waf => 2
  }

  class Bucket {
    var tokens: real
    var last: Time

    constructor (tokens: real, last: Time)
      ensures Data() == BucketData(tokens, last)
    {
      this.tokens, this.last := tokens, last;
    }

    function Data(): BucketData
      reads this
    {
      BucketData(tokens, last)
    }

    /** Refills the bucket up to now and takes a token if there is one. */
    method Draw(p: Policy, now: Time) returns (ok: bool)
      modifies this
      ensures (ok, Data()) == Allow(Some(old(Data())), p, now)
    {
      if now > last {
        tokens := Min(p.burst as real, tokens + Gain(p.ratePerSec, last, now));
        last := now;
      }
      ok := tokens >= 1.0;
      if ok {
        tokens := tokens - 1.0;
      }
    }
  }

  class Engine {
    var policies: map<string, Policy>
    var buckets: map<string, Bucket>
    var blocked: nat
    const byReason: array<nat>

    ghost function Repr(): set<object>
      reads this
    {
      {this, byReason} + set ip | ip in buckets :: buckets[ip]
    }

    /** Every address has a bucket of its own. */
    ghost predicate Valid()
      reads this
    {
      && byReason.Length == 3
      && forall ip, jp | ip in buckets && jp in buckets && ip != jp :: buckets[ip] != buckets[jp]
    }

    /** At most one bucket is new, and it is the address's own. */
    twostate predicate Grown(ip: string)
      reads this
    {
      || buckets == old(buckets)
      || (ip !in old(buckets) && ip in buckets && fresh(buckets[ip]) && buckets == old(buckets)[ip := buckets[ip]])
    }

    ghost function Levels(): map<string, BucketData>
      reads this, Repr()
    {
      map ip | ip in buckets :: buckets[ip].Data()
    }

    ghost function Tally(): Counters
      requires Valid()
      reads this, byReason
    {
      Counters(blocked, byReason[0], byReason[1], byReason[2])
    }

    ghost function Model(): State
      requires Valid()
      reads this, Repr()
    {
      State(policies, Levels(), Tally())
    }

    /** The engine is what it was if nothing of it was written. */
    twostate lemma Untouched()
      requires unchanged(this) && unchanged(byReason) && forall ip | ip in buckets :: unchanged(buckets[ip])
      requires old(Valid())
      ensures Valid() && Model() == old(Model())
    {
    }

    constructor ()
      ensures Valid() && fresh(Repr()) && Model() == INITIAL
    {
      policies, buckets, blocked := map[], map[], 0;
      byReason := new nat[3](_ => 0);
    }

    method Install(p: Policy)
      requires Valid()
      modifies this`policies
      ensures Valid() && Model() == InstallNext(old(Model()), p)
      ensures Repr() == old(Repr())
    {
      if p.sourceID == "" {
        return;
      }
      var q := p;
      if q.ratePerSec <= 0.0 {
        q := q.(ratePerSec := DEFAULT_RATE);
      }
      if q.burst <= 0 {
        q := q.(burst := DEFAULT_BURST);
      }
      policies := policies[q.sourceID := q];
    }

    method Remove(sourceID: string)
      requires Valid()
      modifies this`policies, this`buckets
      ensures Valid() && Model() == RemoveNext(old(Model()), sourceID)
      ensures policies == old(policies) - {sourceID}
      ensures sourceID != WAF_SOURCE_ID ==> buckets == old(buckets)
      ensures Repr() <= old(Repr())
    {
      policies := policies - {sourceID};
      if sourceID == WAF_SOURCE_ID {
        DropBuckets();
      }
    }

    method DropBuckets()
      requires Valid()
      modifies this`buckets
      ensures Valid() && buckets == map[]
      ensures Repr() <= old(Repr())
    {
      var todo := buckets.Keys;
      while todo != {}
        invariant todo == buckets.Keys
        invariant forall ip | ip in buckets :: ip in old(buckets) && buckets[ip] == old(buckets[ip])
        decreases |todo|
      {
        var ip :| ip in todo;
        todo := todo - {ip};
        buckets := buckets - {ip};
      }
    }

    method MatchLocked(kind: Kind, ip: string, now: Time) returns (r: Option<Policy>)
      ensures ValidPick(policies, kind, ip, now, r)
      ensures r.Some? <==> HasMatch(policies, kind, ip, now)
    {
      var todo := policies.Keys;
      while todo != {}
        invariant todo <= policies.Keys
        invariant forall id | id in policies.Keys - todo :: !Applies(policies[id], kind, ip, now)
        decreases |todo|
      {
        var id :| id in todo;
        var p := policies[id];
        todo := todo - {id};
        if p.kind != kind {
          continue;
        }
        if p.expiresAt.Some? && now > p.expiresAt.value {
          continue;
        }
        if p.targetIP == "" || p.targetIP == ip {
          return Some(p);
        }
      }
      return None;
    }

    method FetchBucket(p: Policy, ip: string, now: Time) returns (b: Bucket)
      requires Valid()
      modifies this`buckets
      ensures Valid() && ip in buckets && buckets[ip] == b
      ensures buckets == old(buckets)[ip := b]
      ensures b.Data() == Fetch(LevelOf(old(Levels()), ip), p, now)
      ensures if ip in old(buckets) then b == old(buckets)[ip] else fresh(b)
    {
      if ip in buckets {
        b := buckets[ip];
      } else {
        b := new Bucket(p.burst as real, now);
        buckets := buckets[ip := b];
      }
    }

    method AllowLocked(p: Policy, ip: string, now: Time) returns (ok: bool)
      requires Valid()
      modifies this`buckets, set jp | jp in buckets :: buckets[jp]
      ensures Valid() && Grown(ip)
      ensures ok == Allow(LevelOf(old(Levels()), ip), p, now).0
      ensures Levels() == old(Levels())[ip := Allow(LevelOf(old(Levels()), ip), p, now).1]
    {
      ghost var level := LevelOf(Levels(), ip);
      var b := FetchBucket(p, ip, now);
      ok := b.Draw(p, now);
      FetchAllow(level, p, now);
    }

    static method HasAttackTag(tags: seq<string>) returns (r: bool)
      ensures r == IsAttack(tags)
    {
      for i := 0 to |tags|
        invariant forall j | 0 <= j < i :: !AttackTag(tags[j])
      {
        if AttackTag(tags[i]) {
          return true;
        }
      }
      return false;
    }

    /** Which reason blocks an event, if any. `rate` is the rate policy the iteration came upon. */
    method Reason(ip: string, tags: seq<string>, now: Time) returns (d: Decision, ghost rate: Option<Policy>)
      requires Valid()
      modifies this`buckets, set jp | jp in buckets :: buckets[jp]
      ensures Valid() && Grown(ip)
      ensures LegalRate(policies, ip, now, rate)
      ensures d == Decide(old(Model()), ip, tags, now, rate)
      ensures Levels() == BucketsNext(old(Model()), ip, now, rate, d)
    {
      rate := None;
      ghost var before := Model();
      var deny := MatchLocked(Deny, ip, now);
      assert Model() == before;
      if deny.Some? {
        return Denied, rate;
      }
      d, rate := ReasonUnlessDenied(ip, tags, now);
    }

    method ReasonUnlessDenied(ip: string, tags: seq<string>, now: Time) returns (d: Decision, ghost rate: Option<Policy>)
      requires Valid() && !HasMatch(policies, Deny, ip, now)
      modifies this`buckets, set jp | jp in buckets :: buckets[jp]
      ensures Valid() && Grown(ip)
      ensures ValidPick(policies, RateLimit, ip, now, rate)
      ensures d == Unbarred(policies, LevelOf(old(Levels()), ip), tags, now, rate)
      ensures Levels() == Drawn(old(Levels()), ip, now, rate)
    {
      ghost var levels := Levels();
      var limit := MatchLocked(RateLimit, ip, now);
      rate := limit;
      assert Levels() == levels;
      if limit.Some? {
        d := Throttle(limit.value, ip, now);
      } else {
        d := Screen(tags, now);
      }
    }

    /** The answer of a rate limit that applies; one that admits skips the attack check. */
    method Throttle(p: Policy, ip: string, now: Time) returns (d: Decision)
      requires Valid()
      modifies this`buckets, set jp | jp in buckets :: buckets[jp]
      ensures Valid() && Grown(ip)
      ensures d == if Allow(LevelOf(old(Levels()), ip), p, now).0 then RateAdmitted else Throttled
      ensures Levels() == old(Levels())[ip := Allow(LevelOf(old(Levels()), ip), p, now).1]
    {
      var ok := AllowLocked(p, ip, now);
      d := if ok then RateAdmitted else Throttled;
    }

    /** The attack check, which asks for firewall policies of the empty address. */
    method Screen(tags: seq<string>, now: Time) returns (d: Decision)
      ensures d == if HasMatch(policies, Waf, "", now) && IsAttack(tags) then WafBlocked else Unlimited
    {
      var waf := MatchLocked(Waf, "", now);
      if waf.None? {
        return Unlimited;
      }
      var attack := HasAttackTag(tags);
      d := if attack then WafBlocked else Unlimited;
    }

    static method Mark(ev: NormalizedEvent, d: Decision)
      requires d.Blocked()
      modifies ev
      ensures ev.View() == Marked(old(ev.View()), d)
    {
      if d.Throttled? {
        ev.status := 429;
      } else {
        ev.status := 403;
      }
      ev.tags := ev.tags + [TAG_WAF_BLOCK, "contained:" + ReasonName(d)];
    }

    method Record(d: Decision)
      requires Valid() && d.Blocked()
      modifies this`blocked, byReason
      ensures Tally() == Count(old(Tally()), d)
    {
      blocked := blocked + 1;
      var slot := ReasonIndex(if d.Denied? then Deny else if d.Throttled? then RateLimit else Waf);
      byReason[slot] := byReason[slot] + 1;
    }

    method Punish(ev: NormalizedEvent, d: Decision)
      requires Valid() && d.Blocked()
      modifies this`blocked, byReason, ev
      ensures Levels() == old(Levels()) && Tally() == Count(old(Tally()), d)
      ensures ev.View() == Marked(old(ev.View()), d)
    {
      Mark(ev, d);
      Record(d);
    }

    /** Evaluates one event, marking and counting it when it is blocked. */
    method Eval(ev: NormalizedEvent, now: Time) returns (block: bool, ghost rate: Option<Policy>)
      requires Valid()
      modifies this`buckets, this`blocked, byReason, (set jp | jp in buckets :: buckets[jp]), ev
      ensures Valid() && Grown(ev.srcIP)
      ensures LegalRate(policies, ev.srcIP, now, rate)
      ensures Model() == EvalNext(old(Model()), ev.srcIP, old(ev.tags), now, rate)
      ensures block == Decide(old(Model()), ev.srcIP, old(ev.tags), now, rate).Blocked()
      ensures ev.View() == Marked(old(ev.View()), Decide(old(Model()), ev.srcIP, old(ev.tags), now, rate))
    {
      var d: Decision;
      d, rate := Reason(ev.srcIP, ev.tags, now);
      if !d.Blocked() {
        return false, rate;
      }
      Punish(ev, d);
      return true, rate;
    }

    /** The policies still in force; `out` lists their map keys and the policies themselves. */
    method ActivePolicies(now: Time) returns (out: map<string, Policy>)
      ensures out == ActiveAt(policies, now)
      ensures forall id :: id in out <==> id in policies && (policies[id].expiresAt.None? || now <= policies[id].expiresAt.value)
    {
      out := map[];
      var todo := policies.Keys;
      while todo != {}
        invariant todo <= policies.Keys
        invariant out == map id | id in policies.Keys - todo && !Expired(policies[id], now) :: policies[id]
        decreases |todo|
      {
        var id :| id in todo;
        todo := todo - {id};
        if !Expired(policies[id], now) {
          out := out[id := policies[id]];
        }
      }
    }
  }

  /** The policies that enforce anything at a moment. */
  function ActiveAt(policies: map<string, Policy>, now: Time): map<string, Policy> {
    map id | id in policies && !Expired(policies[id], now) :: policies[id]
  }
}
