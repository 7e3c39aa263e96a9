/** Sliding-window detection: one window per rule and key, compacted in place. */
module Detect {
  import opened Common
  import opened Events
  import opened Rules

  /** An event and the timestamp it entered its window with. */
  datatype Entry = Entry(ts: Time, ev: EventData)

  type Windows = map<string, map<string, seq<Entry>>>

  datatype Emission = Emission(rule: Rule, evs: seq<EventData>, outcome: Outcome)

  function At(ws: Windows, ruleID: string, key: string): seq<Entry> {
    if ruleID in ws && key in ws[ruleID] then ws[ruleID][key] else []
  }

  function LaterThan(cut: Time): Entry -> bool { (e: Entry) => e.ts > cut }

  /** A window after one more event: what the cut leaves, and the event. */
  function Slid(entries: seq<Entry>, e: EventData, window: Time): seq<Entry> {
    Filter(entries, LaterThan(e.timestamp - window)) + [Entry(e.timestamp, e)]
  }

  function EventsOf(entries: seq<Entry>): seq<EventData> {
    seq(|entries|, i requires 0 <= i < |entries| => entries[i].ev)
  }

  predicate Concerns(r: Rule, e: EventData) {
    r.matches(e) && r.key(e) != ""
  }

  function Put(ws: Windows, ruleID: string, key: string, entries: seq<Entry>): Windows {
    ws[ruleID := (if ruleID in ws then ws[ruleID] else map[])[key := entries]]
  }

  function Emitted(r: Rule, entries: seq<Entry>): seq<Emission> {
    match r.ShouldAlert(EventsOf(entries))
    case None => []
    case Some(o) => [Emission(r, EventsOf(entries), o)]
  }

  function RuleNext(ws: Windows, r: Rule, e: EventData): (Windows, seq<Emission>) {
    if !Concerns(r, e) then (ws, [])
    else
      var entries := Slid(At(ws, r.id, r.key(e)), e, r.window);
      (Put(ws, r.id, r.key(e), entries), Emitted(r, entries))
  }

  function ProcessNext(ws: Windows, rules: seq<Rule>, e: EventData): (Windows, seq<Emission>) {
    if rules == [] then (ws, [])
    else
      var (before, out) := ProcessNext(ws, rules[..|rules| - 1], e);
      var (after, more) := RuleNext(before, rules[|rules| - 1], e);
      (after, out + more)
  }

  // ---- the engine ----

  /** A window entry as the engine holds it: the event itself is shared. */
  datatype Slot = Slot(ts: Time, ev: NormalizedEvent)

  function SlotLaterThan(cut: Time): Slot -> bool { (s: Slot) => s.ts > cut }

  ghost function Views(slots: seq<Slot>): seq<Entry>
    reads set s | s in slots :: s.ev
  {
    if slots == [] then []
    else
      [Entry(slots[0].ts, slots[0].ev.View())] + Views(slots[1..])
  }

  ghost function ViewsByKey(byKey: map<string, seq<Slot>>): map<string, seq<Entry>>
    reads set k, s | k in byKey && s in byKey[k] :: s.ev
  {
    map k | k in byKey :: Views(byKey[k])
  }

  lemma {:induction false} ViewsConcat(a: seq<Slot>, b: seq<Slot>)
    ensures Views(a + b) == Views(a) + Views(b)
  {
    if a == [] {
      assert a + b == b;
    } else {
      ViewsConcat(a[1..], b);
      assert (a + b)[1..] == a[1..] + b && (a + b)[0] == a[0];
    }
  }

  lemma {:induction false} ViewsLength(slots: seq<Slot>)
    ensures |Views(slots)| == |slots|
    ensures forall i | 0 <= i < |slots| :: Views(slots)[i] == Entry(slots[i].ts, slots[i].ev.View())
  {
    if slots != [] {
      ViewsLength(slots[1..]);
    }
  }

  lemma {:induction false} ViewsFilter(slots: seq<Slot>, cut: Time)
    ensures Views(Filter(slots, SlotLaterThan(cut))) == Filter(Views(slots), LaterThan(cut))
  {
    if slots != [] {
      var rest := slots[1..];
      ViewsFilter(rest, cut);
      var head := if slots[0].ts > cut then [slots[0]] else [];
      assert Filter(slots, SlotLaterThan(cut)) == head + Filter(rest, SlotLaterThan(cut));
      ViewsConcat(head, Filter(rest, SlotLaterThan(cut)));
      var e := Entry(slots[0].ts, slots[0].ev.View());
      assert Views(slots)[0] == e && Views(slots)[1..] == Views(rest);
      if slots[0].ts > cut {
        assert head[1..] == [];
        assert Views(head) == [e];
      }
    }
  }

  twostate lemma {:induction false} ViewsUnchanged(slots: seq<Slot>)
    requires forall s | s in slots :: unchanged(s.ev)
    ensures Views(slots) == old(Views(slots))
  {
    if slots != [] {
      ViewsUnchanged(slots[1..]);
    }
  }

  twostate lemma RowUnchanged(byKey: map<string, seq<Slot>>)
    requires forall k, s | k in byKey && s in byKey[k] :: unchanged(s.ev)
    ensures ViewsByKey(byKey) == old(ViewsByKey(byKey))
  {
    forall k | k in byKey ensures Views(byKey[k]) == old(Views(byKey[k])) {
      ViewsUnchanged(byKey[k]);
    }
  }

  ghost function EventsIn(windows: map<string, map<string, seq<Slot>>>): set<NormalizedEvent> {
    set r, k, s | r in windows && k in windows[r] && s in windows[r][k] :: s.ev
  }

  ghost function ModelOf(windows: map<string, map<string, seq<Slot>>>): Windows
    reads EventsIn(windows)
  {
    map r | r in windows :: ViewsByKey(windows[r])
  }

  twostate lemma ModelUnchanged(windows: map<string, map<string, seq<Slot>>>)
    requires forall e | e in EventsIn(windows) :: unchanged(e)
    ensures ModelOf(windows) == old(ModelOf(windows))
  {
    forall r | r in windows ensures ViewsByKey(windows[r]) == old(ViewsByKey(windows[r])) {
      forall k, s | k in windows[r] && s in windows[r][k] ensures unchanged(s.ev) {
        assert s.ev in EventsIn(windows);
      }
      RowUnchanged(windows[r]);
    }
  }

  function RowOf(windows: map<string, map<string, seq<Slot>>>, ruleID: string): map<string, seq<Slot>> {
    if ruleID in windows then windows[ruleID] else map[]
  }

  function SlotsAt(windows: map<string, map<string, seq<Slot>>>, ruleID: string, key: string): seq<Slot> {
    var row := RowOf(windows, ruleID);
    if key in row then row[key] else []
  }

  lemma ModelAt(windows: map<string, map<string, seq<Slot>>>, ruleID: string, key: string)
    ensures At(ModelOf(windows), ruleID, key) == Views(SlotsAt(windows, ruleID, key))
  {
  }

  lemma RowPut(row: map<string, seq<Slot>>, key: string, kept: seq<Slot>)
    ensures ViewsByKey(row[key := kept]) == ViewsByKey(row)[key := Views(kept)]
  {
  }

  lemma TablePut(windows: map<string, map<string, seq<Slot>>>, ruleID: string, row: map<string, seq<Slot>>)
    ensures ModelOf(windows[ruleID := row]) == ModelOf(windows)[ruleID := ViewsByKey(row)]
  {
  }

  lemma ModelPut(windows: map<string, map<string, seq<Slot>>>, ruleID: string, key: string, kept: seq<Slot>)
    ensures ModelOf(windows[ruleID := RowOf(windows, ruleID)[key := kept]]) == Put(ModelOf(windows), ruleID, key, Views(kept))
  {
    var row := RowOf(windows, ruleID);
    RowPut(row, key, kept);
    TablePut(windows, ruleID, row[key := kept]);
    assert ViewsByKey(map[]) == map[];
  }

  /** What compaction and the appended slot hold, in values. */
  lemma SlideViews(entries: seq<Slot>, ev: NormalizedEvent, window: Time)
    ensures Views(Filter(entries, SlotLaterThan(ev.timestamp - window)) + [Slot(ev.timestamp, ev)])
            == Slid(Views(entries), ev.View(), window)
  {
    var cut := ev.timestamp - window;
    ViewsFilter(entries, cut);
    ViewsConcat(Filter(entries, SlotLaterThan(cut)), [Slot(ev.timestamp, ev)]);
    assert [Slot(ev.timestamp, ev)][1..] == [];
  }

  lemma HeldAfter(windows: map<string, map<string, seq<Slot>>>, ruleID: string, key: string, kept: seq<Slot>, ev: NormalizedEvent)
    requires forall s | s in kept :: s.ev == ev || s in SlotsAt(windows, ruleID, key)
    ensures EventsIn(windows[ruleID := RowOf(windows, ruleID)[key := kept]]) <= EventsIn(windows) + {ev}
  {
  }

  /** Keeps the slots later than the cut by moving them to the front of the same buffer. */
  method Compact(entries: seq<Slot>, cut: Time) returns (kept: seq<Slot>)
    ensures kept == Filter(entries, SlotLaterThan(cut))
  {
    var buf := entries;
    var w := 0;
    for i := 0 to |entries|
      invariant w <= i && |buf| == |entries|
      invariant forall j | i <= j < |entries| :: buf[j] == entries[j]
      invariant buf[..w] == Filter(entries[..i], SlotLaterThan(cut))
    {
      assert entries[..i + 1] == entries[..i] + [entries[i]];
      FilterSnoc(entries[..i], entries[i], SlotLaterThan(cut));
      if buf[i].ts > cut {
        TakeUpdated(buf, w, buf[i]);
        buf := buf[w := buf[i]];
        w := w + 1;
      }
    }
    assert entries[..|entries|] == entries;
    kept := buf[..w];
  }

  lemma TakeUpdated<T>(s: seq<T>, w: nat, x: T)
    requires w < |s|
    ensures s[w := x][..w + 1] == s[..w] + [x]
  {
  }

  class Engine {
    const rules: seq<Rule>
    var windows: map<string, map<string, seq<Slot>>>

    ghost function Held(): set<NormalizedEvent>
      reads this
    {
      EventsIn(windows)
    }

    ghost function Model(): Windows
      reads this, Held()
    {
      ModelOf(windows)
    }

    constructor (rules: seq<Rule>)
      ensures Model() == map[] && this.rules == rules && Held() == {}
    {
      this.rules := rules;
      windows := map[];
    }

    /** Runs every rule over the event. Without an emitter nothing is looked at. */
    method Process(ev: NormalizedEvent, listening: bool) returns (emitted: seq<Emission>)
      modifies this
      ensures (Model(), emitted) == if listening then ProcessNext(old(Model()), rules, ev.View()) else (old(Model()), [])
      ensures Held() <= old(Held()) + {ev}
    {
      emitted := [];
      if !listening {
        return;
      }
      for i := 0 to |rules|
        invariant (Model(), emitted) == ProcessNext(old(Model()), rules[..i], ev.View())
        invariant Held() <= old(Held()) + {ev}
      {
        var more := ProcessRule(rules[i], ev);
        assert rules[..i + 1][..i] == rules[..i];
        emitted := emitted + more;
      }
      assert rules[..|rules|] == rules;
    }

    method ProcessRule(r: Rule, ev: NormalizedEvent) returns (emitted: seq<Emission>)
      modifies this
      ensures (Model(), emitted) == RuleNext(old(Model()), r, ev.View())
      ensures Held() <= old(Held()) + {ev}
    {
      if !r.matches(ev.View()) {
        return [];
      }
      var key := r.key(ev.View());
      if key == "" {
        return [];
      }
      var kept := Slide(r, key, ev);
      var evs := Snapshot(kept);
      match r.ShouldAlert(evs)
      case Some(o) => return [Emission(r, evs, o)];
      case None => return [];
    }

    /** The slots a window keeps, and the new one. */
    method Advance(entries: seq<Slot>, ev: NormalizedEvent, window: Time) returns (kept: seq<Slot>)
      ensures Views(kept) == Slid(Views(entries), ev.View(), window)
      ensures forall s | s in kept :: s.ev == ev || s in entries
    {
      var cut := ev.timestamp - window;
      kept := Compact(entries, cut);
      forall s | s in kept ensures s in entries {
        FilterMember(entries, SlotLaterThan(cut), s);
      }
      kept := kept + [Slot(ev.timestamp, ev)];
      SlideViews(entries, ev, window);
    }

    /** Slides the window of one rule and key. */
    method Slide(r: Rule, key: string, ev: NormalizedEvent) returns (kept: seq<Slot>)
      modifies this
      ensures Views(kept) == Slid(old(At(Model(), r.id, key)), ev.View(), r.window)
      ensures Model() == Put(old(Model()), r.id, key, Views(kept))
      ensures Held() <= old(Held()) + {ev}
    {
      kept := Advance(SlotsAt(windows, r.id, key), ev, r.window);
      ModelAt(windows, r.id, key);
      ModelPut(windows, r.id, key, kept);
      HeldAfter(windows, r.id, key, kept, ev);
      var after := windows[r.id := RowOf(windows, r.id)[key := kept]];
      SetWindows(after, kept);
    }

    method SetWindows(after: map<string, map<string, seq<Slot>>>, ghost kept: seq<Slot>)
      modifies this
      ensures windows == after && ModelOf(after) == old(ModelOf(after))
      ensures Views(kept) == old(Views(kept))
    {
      windows := after;
      ViewsUnchanged(kept);
      ModelUnchanged(after);
    }

    method Snapshot(kept: seq<Slot>) returns (evs: seq<EventData>)
      ensures evs == EventsOf(Views(kept))
    {
      ViewsLength(kept);
      evs := [];
      for i := 0 to |kept|
        invariant |evs| == i && forall j | 0 <= j < i :: evs[j] == kept[j].ev.View()
      {
        evs := evs + [kept[i].ev.View()];
      }
    }

    method Drain()
      modifies this
      ensures Model() == map[] && Held() == {}
    {
      windows := map[];
    }
  }
}
