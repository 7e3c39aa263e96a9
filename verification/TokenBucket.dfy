/** The lazily refilled bucket decides what the declarative all-windows check decides. */
module TokenBucket {
  import opened Common
  import opened Edge

  /** A visit to one address's bucket: a question, or a refill that asks nothing. */
  datatype Visit = Ask(at: Time) | Touch(at: Time)

  /** The bucket and the moments at which a question was admitted. */
  datatype Log = Log(bucket: Option<BucketData>, admitted: seq<Time>)

  predicate Usable(p: Policy) { p.burst >= 1 && p.ratePerSec > 0.0 }

  function VisitNext(l: Log, p: Policy, v: Visit): Log {
    match v
    case Ask(t) =>
      var (ok, b) := Allow(l.bucket, p, t);
      Log(Some(b), if ok then l.admitted + [t] else l.admitted)
    case Touch(t) =>
      if l.bucket.None? then l else l.(bucket := Some(Refill(l.bucket.value, p, t)))
  }

  function Visits(p: Policy, vs: seq<Visit>): Log {
    if vs == [] then Log(None, [])
    else VisitNext(Visits(p, vs[..|vs| - 1]), p, vs[|vs| - 1])
  }

  predicate InOrder(vs: seq<Visit>) {
    forall i, j | 0 <= i < j < |vs| :: vs[i].at <= vs[j].at
  }

  function IsAsk(): Visit -> bool { (v: Visit) => v.Ask? }

  /** Every window from an earlier admission up to `now` has room for one more. */
  ghost predicate RoomInEveryWindow(p: Policy, admitted: seq<Time>, now: Time) {
    forall j | 0 <= j < |admitted| ::
      (|admitted| - j) as real + 1.0 <= p.burst as real + Gain(p.ratePerSec, admitted[j], now)
  }

  /** The tightest of the windows: what a bucket fed by these admissions must hold. */
  ghost function Level(p: Policy, admitted: seq<Time>, now: Time): real {
    if admitted == [] then p.burst as real
    else Min(Level(p, admitted[1..], now),
             p.burst as real + Gain(p.ratePerSec, admitted[0], now) - |admitted| as real)
  }

  lemma GainAdds(rate: real, a: Time, b: Time, c: Time)
    ensures Gain(rate, a, b) + Gain(rate, b, c) == Gain(rate, a, c)
  {
    var x, y := (b - a) as real / NANOS_PER_SECOND, (c - b) as real / NANOS_PER_SECOND;
    assert (c - a) as real == (b - a) as real + (c - b) as real;
    assert x * rate + y * rate == (x + y) * rate;
  }

  /** In a second, which is 1000000000 nanoseconds, the rate is gained; with `GainAdds` that says what any time gains. */
  lemma GainIsPerSecond(rate: real, t: Time)
    ensures Gain(rate, t, t + 1000000000) == rate
  {
    assert (t + 1000000000 - t) as real / 1000000000.0 == 1.0;
  }

  lemma GainNonNegative(rate: real, a: Time, b: Time)
    requires rate >= 0.0 && a <= b
    ensures Gain(rate, a, b) >= 0.0
  {
  }

  lemma {:induction false} LevelIsRoom(p: Policy, admitted: seq<Time>, now: Time)
    requires Usable(p)
    ensures Level(p, admitted, now) >= 1.0 <==> RoomInEveryWindow(p, admitted, now)
  {
    if admitted != [] {
      var rest := admitted[1..];
      LevelIsRoom(p, rest, now);
      if RoomInEveryWindow(p, rest, now) {
        forall j | 1 <= j < |admitted|
          ensures (|admitted| - j) as real + 1.0 <= p.burst as real + Gain(p.ratePerSec, admitted[j], now)
        {
          assert rest[j - 1] == admitted[j];
        }
      }
      if RoomInEveryWindow(p, admitted, now) {
        forall j | 0 <= j < |rest|
          ensures (|rest| - j) as real + 1.0 <= p.burst as real + Gain(p.ratePerSec, rest[j], now)
        {
          assert rest[j] == admitted[j + 1];
        }
      }
    }
  }

  lemma {:induction false} LevelLater(p: Policy, admitted: seq<Time>, now: Time, later: Time)
    requires Usable(p) && now <= later
    ensures Min(p.burst as real, Level(p, admitted, now) + Gain(p.ratePerSec, now, later)) == Level(p, admitted, later)
  {
    GainNonNegative(p.ratePerSec, now, later);
    if admitted != [] {
      LevelLater(p, admitted[1..], now, later);
      GainAdds(p.ratePerSec, admitted[0], now, later);
    }
  }

  lemma {:induction false} LevelAdmit(p: Policy, admitted: seq<Time>, now: Time)
    requires Usable(p)
    ensures Level(p, admitted + [now], now) == Level(p, admitted, now) - 1.0
  {
    if admitted == [] {
      assert [now][1..] == [];
      assert Gain(p.ratePerSec, now, now) == 0.0;
      assert Level(p, [now], now) == Min(Level(p, [now][1..], now), p.burst as real - 1.0);
    } else {
      LevelAdmit(p, admitted[1..], now);
      assert (admitted + [now])[1..] == admitted[1..] + [now];
      LevelAtMostBurst(p, admitted, now);
    }
  }

  lemma {:induction false} LevelAtMostBurst(p: Policy, admitted: seq<Time>, now: Time)
    ensures Level(p, admitted, now) <= p.burst as real
  {
    if admitted != [] {
      LevelAtMostBurst(p, admitted[1..], now);
    }
  }

  /** The bucket holds exactly the tightest window, as of its last visit. */
  ghost predicate Faithful(p: Policy, l: Log, clock: Time) {
    match l.bucket
    case None => l.admitted == []
    case Some(b) => b.last <= clock && b.tokens == Level(p, l.admitted, b.last)
  }

  lemma FetchedLevel(p: Policy, l: Log, now: Time, clock: Time)
    requires Usable(p) && Faithful(p, l, clock) && clock <= now
    ensures var b := Refill(Fetch(l.bucket, p, now), p, now);
            b.last == now && b.tokens == Level(p, l.admitted, now)
  {
    if l.bucket.Some? {
      LevelLater(p, l.admitted, l.bucket.value.last, now);
    }
  }

  lemma VisitKeepsFaith(p: Policy, l: Log, v: Visit, clock: Time)
    requires Usable(p) && Faithful(p, l, clock) && clock <= v.at
    ensures Faithful(p, VisitNext(l, p, v), v.at)
  {
    FetchedLevel(p, l, v.at, clock);
    if v.Ask? {
      LevelAdmit(p, l.admitted, v.at);
    }
  }

  lemma {:induction false} VisitsAreFaithful(p: Policy, vs: seq<Visit>)
    requires Usable(p) && InOrder(vs)
    ensures Faithful(p, Visits(p, vs), if vs == [] then 0 else vs[|vs| - 1].at)
  {
    if vs != [] {
      var front := vs[..|vs| - 1];
      VisitsAreFaithful(p, front);
      if front == [] {
        assert Faithful(p, Visits(p, front), vs[|vs| - 1].at);
      } else {
        assert front[|front| - 1].at <= vs[|vs| - 1].at;
      }
      VisitKeepsFaith(p, Visits(p, front), vs[|vs| - 1],
                      if front == [] then vs[|vs| - 1].at else front[|front| - 1].at);
    }
  }

  /** After any visits in clock order, the lazy bucket admits a question exactly when
      every window from an earlier admission has room for it. */
  lemma AdmitsExactlyWhenWindowsHaveRoom(p: Policy, vs: seq<Visit>, now: Time)
    requires Usable(p) && InOrder(vs + [Ask(now)])
    ensures Allow(Visits(p, vs).bucket, p, now).0 <==> RoomInEveryWindow(p, Visits(p, vs).admitted, now)
  {
    assert forall i | 0 <= i < |vs| :: vs[i] == (vs + [Ask(now)])[i];
    assert (vs + [Ask(now)])[|vs|] == Ask(now);
    VisitsAreFaithful(p, vs);
    var l := Visits(p, vs);
    FetchedLevel(p, l, now, if vs == [] then now else vs[|vs| - 1].at);
    LevelIsRoom(p, l.admitted, now);
  }

  /** Refilling at further moments changes no verdict: the admissions are those of the questions alone. */
  lemma {:induction false} ExtraRefillsChangeNothing(p: Policy, vs: seq<Visit>)
    requires Usable(p) && InOrder(vs)
    ensures Visits(p, vs).admitted == Visits(p, Filter(vs, IsAsk())).admitted
    ensures InOrder(Filter(vs, IsAsk()))
    ensures forall v | v in Filter(vs, IsAsk()) :: v in vs
  {
    if vs != [] {
      var front, v := vs[..|vs| - 1], vs[|vs| - 1];
      ExtraRefillsChangeNothing(p, front);
      FilterSnoc(front, v, IsAsk());
      assert vs == front + [v];
      var asks := Filter(front, IsAsk());
      if v.Ask? {
        forall i | 0 <= i < |asks| ensures asks[i].at <= v.at {
          assert asks[i] in front;
        }
        var us := asks + [v];
        assert Filter(vs, IsAsk()) == us && us[..|us| - 1] == asks && us[|us| - 1] == v;
        AdmitsExactlyWhenWindowsHaveRoom(p, front, v.at);
        AdmitsExactlyWhenWindowsHaveRoom(p, asks, v.at);
        assert Visits(p, us) == VisitNext(Visits(p, asks), p, v);
      } else {
        assert Filter(vs, IsAsk()) == asks;
      }
    }
  }

  /** The first moment at which a refused question would be admitted again is not later than
      the time the refill needs for one token, so a throttled address is never locked out. */
  lemma RefusalEnds(p: Policy, vs: seq<Visit>, now: Time, later: Time)
    requires Usable(p) && InOrder(vs + [Ask(now)]) && now <= later
    requires !Allow(Visits(p, vs).bucket, p, now).0
    requires Gain(p.ratePerSec, now, later) >= 1.0
    ensures Allow(Visits(p, vs + [Ask(now)]).bucket, p, later).0
  {
    var us := vs + [Ask(now)];
    assert us[..|us| - 1] == vs && us[|us| - 1] == Ask(now);
    VisitsAreFaithful(p, us);
    assert forall i | 0 <= i < |vs| :: vs[i] == us[i];
    VisitsAreFaithful(p, vs);
    var l := Visits(p, us);
    LevelNonNegative(p, us);
    BucketAfterAsk(p, vs, now);
    LevelLater(p, l.admitted, now, later);
    FetchedLevel(p, l, later, now);
  }

  lemma AllowStamps(b: Option<BucketData>, p: Policy, now: Time)
    requires b.Some? ==> b.value.last <= now
    ensures Allow(b, p, now).1.last == now
  {
  }

  lemma LastVisitBefore(p: Policy, vs: seq<Visit>, now: Time)
    requires Usable(p) && InOrder(vs) && (vs != [] ==> vs[|vs| - 1].at <= now)
    ensures Visits(p, vs).bucket.Some? ==> Visits(p, vs).bucket.value.last <= now
  {
    VisitsAreFaithful(p, vs);
  }

  /** A question leaves a bucket that was refilled to its moment. */
  lemma BucketAfterAsk(p: Policy, vs: seq<Visit>, now: Time)
    requires Usable(p) && InOrder(vs + [Ask(now)])
    ensures Visits(p, vs + [Ask(now)]).bucket.Some? && Visits(p, vs + [Ask(now)]).bucket.value.last == now
  {
    var us := vs + [Ask(now)];
    assert us[..|us| - 1] == vs && us[|us| - 1] == Ask(now);
    assert forall i | 0 <= i < |vs| :: vs[i] == us[i];
    LastVisitBefore(p, vs, now);
    AllowStamps(Visits(p, vs).bucket, p, now);
    assert Visits(p, us) == VisitNext(Visits(p, vs), p, Ask(now));
  }

  lemma {:induction false} LevelNonNegative(p: Policy, vs: seq<Visit>)
    requires Usable(p) && InOrder(vs)
    ensures Visits(p, vs).bucket.Some? ==> Visits(p, vs).bucket.value.tokens >= 0.0
  {
    if vs != [] {
      var front, v := vs[..|vs| - 1], vs[|vs| - 1];
      LevelNonNegative(p, front);
      VisitsAreFaithful(p, front);
      var b := Visits(p, front).bucket;
      if b.Some? && v.at > b.value.last {
        GainNonNegative(p.ratePerSec, b.value.last, v.at);
      }
    }
  }
}
