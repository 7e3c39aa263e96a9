/** The ring of recent events: a circular buffer read as the tail of the whole history. */
module Ring {
  import opened Common
  import opened Events

  const DEFAULT_CAPACITY: nat := 4096

  function InAsset(asset: string): NormalizedEvent -> bool { (e: NormalizedEvent) => e.asset == asset }

  function OfAsset(all: seq<NormalizedEvent>, asset: string): seq<NormalizedEvent> {
    if asset == "" then all else Filter(all, InAsset(asset))
  }

  /** The page that skips the `offset` newest entries and holds the `limit` newest of the rest. */
  function PageBack<T>(all: seq<T>, limit: int, offset: nat): seq<T> {
    var upto := all[..|all| - (if offset > |all| then |all| else offset)];
    if limit > 0 then LastN(upto, limit) else upto
  }

  function NextIndex(at: nat, cap: nat): nat {
    if at + 1 == cap then 0 else at + 1
  }

  lemma Successor(at: nat, cap: nat)
    requires at < cap
    ensures (at + 1) % cap == NextIndex(at, cap)
  {
  }

  class Ring {
    const cap: nat
    const buf: array<NormalizedEvent?>
    var next: nat
    var full: bool
    ghost var history: seq<NormalizedEvent>

    /** The buffer holds the last `cap` events ever appended, the oldest at `next` once it is full. */
    ghost predicate Valid()
      reads this, buf
    {
      && 0 < cap == buf.Length && next < cap
      && (full <==> |history| >= cap)
      && (!full ==> |history| == next && buf[..next] == history)
      && (full ==> buf[next..] + buf[..next] == history[|history| - cap..])
    }

    constructor (capacity: int)
      ensures Valid() && fresh(buf) && history == []
      ensures cap == if capacity <= 0 then DEFAULT_CAPACITY else capacity
    {
      var c := if capacity <= 0 then DEFAULT_CAPACITY else capacity;
      cap := c;
      buf := new NormalizedEvent?[c](_ => null);
      next, full, history := 0, false, [];
      new;
      assert buf[..0] == [];
    }

    /** The ring is in order if neither it nor its buffer was written. */
    twostate lemma Untouched()
      requires unchanged(this) && unchanged(buf) && old(Valid())
      ensures Valid()
    {
    }

    method Append(ev: NormalizedEvent)
      requires Valid()
      modifies this`next, this`full, this`history, buf
      ensures Valid() && history == old(history) + [ev]
    {
      ghost var before := buf[..];
      buf[next] := ev;
      assert buf[..] == before[next := ev];
      next := (next + 1) % cap;
      Successor(old(next), cap);
      if next == 0 {
        full := true;
      }
      history := history + [ev];
      Advanced(before, old(next), ev);
    }

    /** The bookkeeping of one append, in sequences. */
    lemma Advanced(before: seq<NormalizedEvent?>, at: nat, ev: NormalizedEvent)
      requires 0 < cap == buf.Length == |before| && at < cap && |history| > 0 && history[|history| - 1] == ev
      requires buf[..] == before[at := ev] && next == NextIndex(at, cap)
      requires var h := history[..|history| - 1];
        if |h| < cap then |h| == at && before[..at] == h else before[at..] + before[..at] == h[|h| - cap..]
      requires full <==> |history| >= cap
      ensures Valid()
    {
      if |history| <= cap {
        AdvancedFilling(before, at, ev);
      } else {
        AdvancedFull(before, at, ev);
      }
    }

    lemma AdvancedFilling(before: seq<NormalizedEvent?>, at: nat, ev: NormalizedEvent)
      requires 0 < cap == buf.Length == |before| && at < cap && |history| == at + 1 && history[at] == ev
      requires buf[..] == before[at := ev] && next == NextIndex(at, cap)
      requires before[..at] == history[..at] && (full <==> |history| >= cap)
      ensures Valid()
    {
      assert buf[..at + 1] == before[..at] + [ev] == history;
      if at + 1 == cap {
        assert next == 0 && buf[0..] + buf[..0] == history;
      }
    }

    lemma AdvancedFull(before: seq<NormalizedEvent?>, at: nat, ev: NormalizedEvent)
      requires 0 < cap == buf.Length == |before| && at < cap && |history| > cap && history[|history| - 1] == ev && full
      requires buf[..] == before[at := ev] && next == NextIndex(at, cap)
      requires before[at..] + before[..at] == history[|history| - 1 - cap..|history| - 1]
      ensures Valid()
    {
      var held := before[at..] + before[..at];
      var after := buf[..];
      var n := |history|;
      assert history[n - cap..] == history[n - 1 - cap..n - 1][1..] + [ev];
      Rotated(before, at, ev);
      assert after[next..] == buf[next..] && after[..next] == buf[..next];
    }

    function Len(): nat
      reads this
    {
      if full then cap else next
    }

    /** The events still held, oldest first. */
    method Snapshot() returns (out: seq<NormalizedEvent>)
      requires Valid()
      ensures out == LastN(history, cap)
    {
      out := [];
      var start := if full then next else 0;
      ghost var held := LastN(history, cap);
      for i := 0 to Len()
        invariant out == held[..i]
      {
        var at := (start + i) % cap;
        assert buf[at] == held[i] by {
          if full {
            assert held == buf[next..] + buf[..next];
            Wraps(start, i, cap);
          } else {
            assert at == i && held == buf[..next];
          }
        }
        out := out + [buf[at]];
      }
    }

    /** A page of the held events of one asset, newest page first. */
    method Recent(asset: string, limit: int, offset: nat) returns (out: seq<NormalizedEvent>)
      requires Valid()
      ensures out == PageBack(OfAsset(LastN(history, cap), asset), limit, offset)
    {
      var all := Snapshot();
      if asset != "" {
        var filtered: seq<NormalizedEvent> := [];
        for i := 0 to |all|
          invariant filtered == Filter(all[..i], InAsset(asset))
        {
          assert all[..i + 1] == all[..i] + [all[i]];
          FilterSnoc(all[..i], all[i], InAsset(asset));
          if all[i].asset == asset {
            filtered := filtered + [all[i]];
          }
        }
        assert all[..|all|] == all;
        all := filtered;
      }
      var skip := if offset > |all| then |all| else offset;
      all := all[..|all| - skip];
      if limit > 0 && |all| > limit {
        all := all[|all| - limit..];
      }
      return all;
    }
  }

  /** Overwriting the oldest entry of a full buffer: read from the next position on, the rest moves up and
      the new entry comes last. */
  lemma Rotated<T>(before: seq<T>, at: nat, x: T)
    requires at < |before|
    ensures var next := NextIndex(at, |before|);
            before[at := x][next..] + before[at := x][..next] == (before[at..] + before[..at])[1..] + [x]
  {
    var after := before[at := x];
    if at + 1 < |before| {
      assert after[at + 1..] == before[at + 1..];
      assert after[..at + 1] == before[..at] + [x];
      assert (before[at..] + before[..at])[1..] == before[at + 1..] + before[..at];
    } else {
      assert after[0..] + after[..0] == before[..at] + [x];
      assert (before[at..] + before[..at])[1..] == before[..at];
    }
  }

  lemma Wraps(start: nat, i: nat, cap: nat)
    requires start < cap && i < cap
    ensures (start + i) % cap == if start + i < cap then start + i else start + i - cap
  {
    if start + i >= cap {
      assert (start + i) == cap + (start + i - cap);
    }
  }

  /** Pages of one positive size at successive offsets, oldest page first. */
  function PagesBack<T>(all: seq<T>, size: nat, offset: nat): seq<seq<T>>
    requires size > 0
    decreases |all| - offset
  {
    if offset >= |all| then [] else PagesBack(all, size, offset + size) + [PageBack(all, size, offset)]
  }

  lemma OlderThenPage<T>(all: seq<T>, size: nat, offset: nat)
    requires size > 0 && offset < |all|
    ensures all[..|all| - (if offset + size > |all| then |all| else offset + size)] + PageBack(all, size, offset)
            == all[..|all| - offset]
  {
  }

  /** Taken from the oldest page to the newest, the pages put the events of an asset together again. */
  lemma {:induction false} PagesReassemble<T>(all: seq<T>, size: nat, offset: nat)
    requires size > 0
    ensures Flatten(PagesBack(all, size, offset)) == all[..|all| - (if offset > |all| then |all| else offset)]
    decreases |all| - offset
  {
    if offset < |all| {
      PagesReassemble(all, size, offset + size);
      FlattenSnoc(PagesBack(all, size, offset + size), PageBack(all, size, offset));
      OlderThenPage(all, size, offset);
    } else {
      assert Flatten(PagesBack(all, size, offset)) == [];
    }
  }

  /** The events of an asset: those of the history that name it, or all of them when none is asked for. */
  lemma AssetsEvents(all: seq<NormalizedEvent>, asset: string)
    ensures asset == "" ==> OfAsset(all, asset) == all
    ensures asset != "" ==> forall e :: e in OfAsset(all, asset) <==> e in all && e.asset == asset
    ensures asset != "" ==> |OfAsset(all, asset)| == |Where(all, (e: NormalizedEvent) => e.asset == asset)|
  {
    if asset != "" {
      forall e ensures e in OfAsset(all, asset) <==> e in all && e.asset == asset {
        FilterMember(all, InAsset(asset), e);
      }
      FilterCounts(all, InAsset(asset));
      assert Where(all, InAsset(asset)) == Where(all, (e: NormalizedEvent) => e.asset == asset);
    }
  }

  /** From the newest page on, nothing of the history still held is skipped or shown twice. */
  lemma PagesCoverHistory(history: seq<NormalizedEvent>, cap: nat, asset: string, size: nat)
    requires size > 0
    ensures Flatten(PagesBack(OfAsset(LastN(history, cap), asset), size, 0)) == OfAsset(LastN(history, cap), asset)
  {
    var all := OfAsset(LastN(history, cap), asset);
    PagesReassemble(all, size, 0);
    assert all[..|all|] == all;
  }
}
