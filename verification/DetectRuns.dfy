/** Whole runs of detection: windows against the event history, and isolation between keys. */
module DetectRuns {
  import opened Common
  import opened Events
  import opened Rules
  import opened Detect

  /** The windows and all emissions after a run of events. */
  ghost function Run(rules: seq<Rule>, evs: seq<EventData>): (Windows, seq<Emission>) {
    if evs == [] then (map[], [])
    else
      var (ws, log) := Run(rules, evs[..|evs| - 1]);
      var (after, more) := ProcessNext(ws, rules, evs[|evs| - 1]);
      (after, log + more)
  }

  /** The event belongs in the window of the rule and the key: the rule matches it, and its key is that one and not empty. */
  predicate Fits(r: Rule, key: string, e: EventData) {
    r.matches(e) && r.key(e) == key && key != ""
  }

  function ForWindow(r: Rule, key: string): EventData -> bool { (e: EventData) => Fits(r, key, e) }

  /** The events of a run that belong in one window. */
  function History(r: Rule, key: string, evs: seq<EventData>): seq<EventData> {
    Filter(evs, ForWindow(r, key))
  }

  // ---- the window as a function of the history ----

  ghost predicate Survives(h: seq<EventData>, i: nat, window: Time)
    requires i < |h|
  {
    forall j | i < j < |h| :: h[i].timestamp > h[j].timestamp - window
  }

  /** The events from position `i` on that every later event of the history left in the window. */
  ghost function Survivors(h: seq<EventData>, i: nat, window: Time): seq<EventData>
    requires i <= |h|
    decreases |h| - i
  {
    if i == |h| then []
    else (if Survives(h, i, window) then [h[i]] else []) + Survivors(h, i + 1, window)
  }

  function NewerThan(cut: Time): EventData -> bool { (e: EventData) => e.timestamp > cut }

  ghost function WindowAfter(r: Rule, h: seq<EventData>): seq<Entry> {
    if h == [] then []
    else Slid(WindowAfter(r, h[..|h| - 1]), h[|h| - 1], r.window)
  }

  lemma SurvivesSnoc(h: seq<EventData>, e: EventData, i: nat, window: Time)
    requires i < |h|
    ensures Survives(h + [e], i, window) <==> Survives(h, i, window) && h[i].timestamp > e.timestamp - window
  {
    var all := h + [e];
    assert all[|h|] == e && forall j | 0 <= j < |h| :: all[j] == h[j];
  }

  lemma {:induction false} SurvivorsSnoc(h: seq<EventData>, e: EventData, i: nat, window: Time)
    requires i <= |h|
    ensures Survivors(h + [e], i, window) == Filter(Survivors(h, i, window), NewerThan(e.timestamp - window)) + [e]
    decreases |h| - i
  {
    var all := h + [e];
    if i == |h| {
      assert Survives(all, i, window) && all[i] == e;
      assert Survivors(all, i + 1, window) == [];
    } else {
      var keep := NewerThan(e.timestamp - window);
      SurvivorsSnoc(h, e, i + 1, window);
      SurvivesSnoc(h, e, i, window);
      FilterFront(h[i], Survives(h, i, window), Survivors(h, i + 1, window), keep);
      assert all[i] == h[i];
    }
  }

  lemma FilterFront<T>(x: T, there: bool, rest: seq<T>, p: T -> bool)
    ensures Filter((if there then [x] else []) + rest, p) == (if there && p(x) then [x] else []) + Filter(rest, p)
  {
    if there {
      FilterHead([x] + rest, p);
      assert ([x] + rest)[1..] == rest;
    } else {
      assert [] + rest == rest;
    }
  }

  lemma {:induction false} EventsOfFilter(entries: seq<Entry>, cut: Time)
    requires forall x | x in entries :: x.ts == x.ev.timestamp
    ensures EventsOf(Filter(entries, LaterThan(cut))) == Filter(EventsOf(entries), NewerThan(cut))
  {
    if entries != [] {
      EventsOfFilter(entries[1..], cut);
      assert EventsOf(entries)[1..] == EventsOf(entries[1..]);
      var head := if entries[0].ts > cut then [entries[0]] else [];
      assert EventsOf(head + Filter(entries[1..], LaterThan(cut)))
             == EventsOf(head) + EventsOf(Filter(entries[1..], LaterThan(cut)));
    }
  }

  /** Entries carry the timestamps of their events, which are from the history. */
  lemma {:induction false} EntriesAreStamped(r: Rule, h: seq<EventData>)
    ensures forall x | x in WindowAfter(r, h) :: x.ts == x.ev.timestamp && x.ev in h
  {
    if h != [] {
      var front, e := h[..|h| - 1], h[|h| - 1];
      EntriesAreStamped(r, front);
      forall x | x in WindowAfter(r, h) ensures x.ts == x.ev.timestamp && x.ev in h {
        if x != Entry(e.timestamp, e) {
          FilterMember(WindowAfter(r, front), LaterThan(e.timestamp - r.window), x);
          assert x.ev in front;
        }
      }
    }
  }

  lemma EventsOfSnoc(entries: seq<Entry>, x: Entry)
    ensures EventsOf(entries + [x]) == EventsOf(entries) + [x.ev]
  {
  }

  /** What one more event leaves of a window that holds the survivors. */
  lemma SlidHoldsSurvivors(before: seq<Entry>, front: seq<EventData>, e: EventData, window: Time)
    requires EventsOf(before) == Survivors(front, 0, window)
    requires forall x | x in before :: x.ts == x.ev.timestamp
    ensures EventsOf(Slid(before, e, window)) == Survivors(front + [e], 0, window)
  {
    var cut := e.timestamp - window;
    SurvivorsSnoc(front, e, 0, window);
    EventsOfFilter(before, cut);
    EventsOfSnoc(Filter(before, LaterThan(cut)), Entry(e.timestamp, e));
  }

  /** The compacted window holds exactly the survivors of its history, in arrival order,
      whatever order the timestamps came in. */
  lemma {:induction false} WindowHoldsSurvivors(r: Rule, h: seq<EventData>)
    ensures EventsOf(WindowAfter(r, h)) == Survivors(h, 0, r.window)
  {
    if h != [] {
      var front, e := h[..|h| - 1], h[|h| - 1];
      WindowHoldsSurvivors(r, front);
      EntriesAreStamped(r, front);
      SlidHoldsSurvivors(WindowAfter(r, front), front, e, r.window);
      assert h == front + [e];
    }
  }

  ghost predicate InOrder(h: seq<EventData>) {
    forall i, j | 0 <= i < j < |h| :: h[i].timestamp <= h[j].timestamp
  }

  lemma {:induction false} SurvivorsInOrder(h: seq<EventData>, i: nat, window: Time)
    requires h != [] && InOrder(h) && window > 0 && i <= |h|
    ensures Survivors(h, i, window) == Filter(h[i..], NewerThan(h[|h| - 1].timestamp - window))
    decreases |h| - i
  {
    if i < |h| {
      SurvivorsInOrder(h, i + 1, window);
      var last := h[|h| - 1].timestamp;
      assert h[i..][0] == h[i] && h[i..][1..] == h[i + 1..];
      assert Survives(h, i, window) <==> h[i].timestamp > last - window by {
        if i + 1 < |h| && Survives(h, i, window) {
          assert h[i].timestamp > h[|h| - 1].timestamp - window;
        }
      }
    }
  }

  /** With a clock that never runs backwards, a window that was just updated holds exactly the
      events of its history that are later than now minus the window. */
  lemma WindowIsRecentHistory(r: Rule, h: seq<EventData>)
    requires h != [] && InOrder(h) && r.window > 0
    ensures EventsOf(WindowAfter(r, h)) == Filter(h, NewerThan(h[|h| - 1].timestamp - r.window))
  {
    WindowHoldsSurvivors(r, h);
    SurvivorsInOrder(h, 0, r.window);
    assert h[0..] == h;
  }

  // ---- isolation ----

  ghost function Of(r: Rule, key: string): Emission -> bool {
    (m: Emission) => m.rule.id == r.id && m.evs != [] && r.key(m.evs[|m.evs| - 1]) == key
  }

  /** What one rule emits for one key when it sees only that history. */
  ghost function EmissionsAlone(r: Rule, h: seq<EventData>): seq<Emission> {
    if h == [] then [] else EmissionsAlone(r, h[..|h| - 1]) + Emitted(r, WindowAfter(r, h))
  }

  lemma RuleStepAt(ws: Windows, q: Rule, e: EventData, r: Rule, key: string)
    requires q.id == r.id ==> q == r
    ensures At(RuleNext(ws, q, e).0, r.id, key)
            == if q == r && ForWindow(r, key)(e) then Slid(At(ws, r.id, key), e, r.window) else At(ws, r.id, key)
    ensures Filter(RuleNext(ws, q, e).1, Of(r, key))
            == if q == r && ForWindow(r, key)(e) then Emitted(r, Slid(At(ws, r.id, key), e, r.window)) else []
  {
    if Concerns(q, e) {
      var entries := Slid(At(ws, q.id, q.key(e)), e, q.window);
      var evs := EventsOf(entries);
      assert evs[|evs| - 1] == e;
      var out := Emitted(q, entries);
      assert forall m | m in out :: Of(r, key)(m) <==> q == r && q.key(e) == key;
      if q == r && q.key(e) == key {
        FilterAll(out, Of(r, key));
      } else {
        FilterNone(out, Of(r, key));
      }
    }
  }

  lemma {:induction false} StepElsewhere(ws: Windows, rules: seq<Rule>, e: EventData, r: Rule, key: string)
    requires forall q | q in rules :: q.id != r.id
    ensures At(ProcessNext(ws, rules, e).0, r.id, key) == At(ws, r.id, key)
    ensures Filter(ProcessNext(ws, rules, e).1, Of(r, key)) == []
  {
    if rules != [] {
      var front, q := rules[..|rules| - 1], rules[|rules| - 1];
      StepElsewhere(ws, front, e, r, key);
      var (before, out) := ProcessNext(ws, front, e);
      RuleStepAt(before, q, e, r, key);
      FilterConcat(out, RuleNext(before, q, e).1, Of(r, key));
    }
  }

  /** Whether a step did to the window of `r` and `key` what the event asks, and emitted accordingly. */
  ghost predicate DidAt(ws: Windows, after: (Windows, seq<Emission>), e: EventData, r: Rule, key: string) {
    && At(after.0, r.id, key) == (if ForWindow(r, key)(e) then Slid(At(ws, r.id, key), e, r.window) else At(ws, r.id, key))
    && Filter(after.1, Of(r, key)) == (if ForWindow(r, key)(e) then Emitted(r, Slid(At(ws, r.id, key), e, r.window)) else [])
  }

  lemma ProcessSnoc(ws: Windows, front: seq<Rule>, q: Rule, e: EventData)
    ensures var (before, out) := ProcessNext(ws, front, e);
            ProcessNext(ws, front + [q], e) == (RuleNext(before, q, e).0, out + RuleNext(before, q, e).1)
  {
    assert (front + [q])[..|front|] == front;
  }

  /** A further rule of another identifier leaves things as they are. */
  lemma OtherRuleAfter(ws: Windows, before: Windows, out: seq<Emission>, q: Rule, e: EventData, r: Rule, key: string)
    requires q.id != r.id && DidAt(ws, (before, out), e, r, key)
    ensures DidAt(ws, (RuleNext(before, q, e).0, out + RuleNext(before, q, e).1), e, r, key)
  {
    RuleStepAt(before, q, e, r, key);
    FilterConcat(out, RuleNext(before, q, e).1, Of(r, key));
  }

  /** The rule itself, after others that left its window alone. */
  lemma OwnRuleLast(ws: Windows, before: Windows, out: seq<Emission>, e: EventData, r: Rule, key: string)
    requires At(before, r.id, key) == At(ws, r.id, key) && Filter(out, Of(r, key)) == []
    ensures DidAt(ws, (RuleNext(before, r, e).0, out + RuleNext(before, r, e).1), e, r, key)
  {
    RuleStepAt(before, r, e, r, key);
    FilterConcat(out, RuleNext(before, r, e).1, Of(r, key));
  }

  /** One event changes the window of `r` and `key`, and emits for it, only if it concerns both. */
  lemma {:induction false} StepAt(ws: Windows, rules: seq<Rule>, e: EventData, i: nat, key: string)
    requires WellFormed(rules) && i < |rules|
    ensures DidAt(ws, ProcessNext(ws, rules, e), e, rules[i], key)
  {
    var front, q, r := rules[..|rules| - 1], rules[|rules| - 1], rules[i];
    assert rules == front + [q];
    ProcessSnoc(ws, front, q, e);
    var (before, out) := ProcessNext(ws, front, e);
    if i == |rules| - 1 {
      StepElsewhere(ws, front, e, r, key);
      OwnRuleLast(ws, before, out, e, r, key);
    } else {
      StepAt(ws, front, e, i, key);
      OtherRuleAfter(ws, before, out, q, e, r, key);
    }
  }

  lemma HistorySnoc(r: Rule, key: string, evs: seq<EventData>, e: EventData)
    ensures History(r, key, evs + [e]) == Longer(r, key, History(r, key, evs), e)
  {
    FilterSnoc(evs, e, ForWindow(r, key));
  }

  lemma AloneSnoc(r: Rule, h: seq<EventData>, e: EventData)
    ensures WindowAfter(r, h + [e]) == Slid(WindowAfter(r, h), e, r.window)
    ensures EmissionsAlone(r, h + [e]) == EmissionsAlone(r, h) + Emitted(r, Slid(WindowAfter(r, h), e, r.window))
  {
    assert (h + [e])[..|h|] == h;
  }

  lemma RunSnoc(rules: seq<Rule>, evs: seq<EventData>, e: EventData)
    ensures var (after, more) := ProcessNext(Run(rules, evs).0, rules, e);
            Run(rules, evs + [e]) == (after, Run(rules, evs).1 + more)
  {
    assert (evs + [e])[..|evs|] == evs;
  }

  /** A history with one more event, if it belongs. */
  function Longer(r: Rule, key: string, h: seq<EventData>, e: EventData): seq<EventData> {
    if ForWindow(r, key)(e) then h + [e] else h
  }

  /** What one more event does to a window and to its emissions, told by the history. */
  lemma RunStepAt(ws: Windows, rules: seq<Rule>, e: EventData, i: nat, key: string, h: seq<EventData>)
    requires WellFormed(rules) && i < |rules|
    requires At(ws, rules[i].id, key) == WindowAfter(rules[i], h)
    ensures At(ProcessNext(ws, rules, e).0, rules[i].id, key) == WindowAfter(rules[i], Longer(rules[i], key, h, e))
    ensures Filter(ProcessNext(ws, rules, e).1, Of(rules[i], key))
            == if ForWindow(rules[i], key)(e) then Emitted(rules[i], WindowAfter(rules[i], Longer(rules[i], key, h, e))) else []
    ensures EmissionsAlone(rules[i], Longer(rules[i], key, h, e))
            == EmissionsAlone(rules[i], h) + Filter(ProcessNext(ws, rules, e).1, Of(rules[i], key))
  {
    var r := rules[i];
    StepAt(ws, rules, e, i, key);
    if ForWindow(r, key)(e) {
      AloneSnoc(r, h, e);
    } else {
      assert EmissionsAlone(r, h) + [] == EmissionsAlone(r, h);
    }
  }

  /** After any run, a window is a function of its own history, and so is what it emitted. */
  lemma {:induction false} RunAt(rules: seq<Rule>, evs: seq<EventData>, i: nat, key: string)
    requires WellFormed(rules) && i < |rules|
    ensures At(Run(rules, evs).0, rules[i].id, key) == WindowAfter(rules[i], History(rules[i], key, evs))
    ensures Filter(Run(rules, evs).1, Of(rules[i], key)) == EmissionsAlone(rules[i], History(rules[i], key, evs))
  {
    if evs != [] {
      var front, e := evs[..|evs| - 1], evs[|evs| - 1];
      assert evs == front + [e];
      RunAt(rules, front, i, key);
      HistorySnoc(rules[i], key, front, e);
      RunStepAt(Run(rules, front).0, rules, e, i, key, History(rules[i], key, front));
      RunSnoc(rules, front, e);
      FilterConcat(Run(rules, front).1, ProcessNext(Run(rules, front).0, rules, e).1, Of(rules[i], key));
    }
  }

  lemma HistoryOfHistory(r: Rule, key: string, evs: seq<EventData>)
    ensures History(r, key, History(r, key, evs)) == History(r, key, evs)
  {
    forall e | e in History(r, key, evs) ensures ForWindow(r, key)(e) {
      FilterMember(evs, ForWindow(r, key), e);
    }
    FilterAll(History(r, key, evs), ForWindow(r, key));
  }

  /** Isolation: other keys and other events change nothing that a rule emits for a key. */
  lemma KeysAreIsolated(rules: seq<Rule>, evs: seq<EventData>, i: nat, key: string)
    requires WellFormed(rules) && i < |rules|
    ensures Filter(Run(rules, evs).1, Of(rules[i], key))
            == Filter(Run(rules, History(rules[i], key, evs)).1, Of(rules[i], key))
    ensures At(Run(rules, evs).0, rules[i].id, key)
            == At(Run(rules, History(rules[i], key, evs)).0, rules[i].id, key)
  {
    RunAt(rules, evs, i, key);
    RunAt(rules, History(rules[i], key, evs), i, key);
    HistoryOfHistory(rules[i], key, evs);
  }

  /** An event makes a rule emit for a key exactly when it concerns both and the survivors of the
      whole history meet the threshold and the rule's own condition; what is emitted is those survivors. */
  lemma EmitsExactlyWhenHistorySays(rules: seq<Rule>, evs: seq<EventData>, e: EventData, i: nat, key: string)
    requires WellFormed(rules) && i < |rules|
    ensures var r := rules[i];
            var s := Survivors(History(r, key, evs + [e]), 0, r.window);
            var out := Filter(ProcessNext(Run(rules, evs).0, rules, e).1, Of(r, key));
            out == if r.matches(e) && r.key(e) == key && key != "" && |s| >= r.threshold && r.alert(s).Some?
                   then [Emission(r, s, r.alert(s).value)] else []
  {
    RunAt(rules, evs, i, key);
    HistorySnoc(rules[i], key, evs, e);
    RunStepAt(Run(rules, evs).0, rules, e, i, key, History(rules[i], key, evs));
    WindowHoldsSurvivors(rules[i], History(rules[i], key, evs + [e]));
  }

  /** All events of a window share its key, so the first one names it. */
  lemma WindowSharesKey(rules: seq<Rule>, evs: seq<EventData>, i: nat, key: string)
    requires WellFormed(rules) && i < |rules|
    ensures forall x | x in At(Run(rules, evs).0, rules[i].id, key) :: rules[i].key(x.ev) == key && x.ev in evs
  {
    var r := rules[i];
    RunAt(rules, evs, i, key);
    EntriesAreStamped(r, History(r, key, evs));
    forall x | x in At(Run(rules, evs).0, r.id, key) ensures r.key(x.ev) == key && x.ev in evs {
      FilterMember(evs, ForWindow(r, key), x.ev);
    }
  }

  // ---- what gets into windows and emissions at all ----

  /** Every windowed event belongs in its window. */
  ghost predicate WindowsFit(ws: Windows, rules: seq<Rule>) {
    forall i, key, x | 0 <= i < |rules| && x in At(ws, rules[i].id, key) :: Fits(rules[i], key, x.ev)
  }

  /** An emission is by a rule of the table, and that rule matches all its events, which share one key. */
  ghost predicate EmissionFits(rules: seq<Rule>, m: Emission) {
    m.rule in rules && m.evs != [] && forall e | e in m.evs :: Fits(m.rule, m.rule.key(m.evs[0]), e)
  }

  lemma SlidFits(r: Rule, key: string, entries: seq<Entry>, e: EventData)
    requires Fits(r, key, e) && forall x | x in entries :: Fits(r, key, x.ev)
    ensures forall x | x in Slid(entries, e, r.window) :: Fits(r, key, x.ev)
  {
    forall x | x in Slid(entries, e, r.window) ensures Fits(r, key, x.ev) {
      if x != Entry(e.timestamp, e) {
        FilterMember(entries, LaterThan(e.timestamp - r.window), x);
      }
    }
  }

  lemma EmittedFits(rules: seq<Rule>, r: Rule, key: string, entries: seq<Entry>)
    requires r in rules && entries != [] && forall x | x in entries :: Fits(r, key, x.ev)
    ensures forall m | m in Emitted(r, entries) :: EmissionFits(rules, m)
  {
    var evs := EventsOf(entries);
    forall e | e in evs ensures Fits(r, key, e) {
      var k :| 0 <= k < |evs| && evs[k] == e;
      assert entries[k] in entries;
    }
    assert evs[0] in evs;
  }

  lemma RuleFits(ws: Windows, rules: seq<Rule>, j: nat, e: EventData)
    requires WellFormed(rules) && WindowsFit(ws, rules) && j < |rules|
    ensures WindowsFit(RuleNext(ws, rules[j], e).0, rules)
    ensures forall m | m in RuleNext(ws, rules[j], e).1 :: EmissionFits(rules, m)
  {
    var r := rules[j];
    if Concerns(r, e) {
      var key := r.key(e);
      SlidFits(r, key, At(ws, r.id, key), e);
      EmittedFits(rules, r, key, Slid(At(ws, r.id, key), e, r.window));
      var after := RuleNext(ws, r, e).0;
      forall i, k, x | 0 <= i < |rules| && x in At(after, rules[i].id, k) ensures Fits(rules[i], k, x.ev) {
        RuleStepAt(ws, r, e, rules[i], k);
        if i != j {
          assert At(after, rules[i].id, k) == At(ws, rules[i].id, k);
        }
      }
    }
  }

  lemma {:induction false} ProcessFits(ws: Windows, rules: seq<Rule>, n: nat, e: EventData)
    requires WellFormed(rules) && WindowsFit(ws, rules) && n <= |rules|
    ensures WindowsFit(ProcessNext(ws, rules[..n], e).0, rules)
    ensures forall m | m in ProcessNext(ws, rules[..n], e).1 :: EmissionFits(rules, m)
  {
    if n > 0 {
      ProcessFits(ws, rules, n - 1, e);
      assert rules[..n] == rules[..n - 1] + [rules[n - 1]];
      ProcessSnoc(ws, rules[..n - 1], rules[n - 1], e);
      RuleFits(ProcessNext(ws, rules[..n - 1], e).0, rules, n - 1, e);
    }
  }

  /** Over every run, no rule ever holds or emits an event that it does not match, or whose key is not the
      one of its window. */
  lemma {:induction false} OnlyMatchedEventsFire(rules: seq<Rule>, evs: seq<EventData>)
    requires WellFormed(rules)
    ensures WindowsFit(Run(rules, evs).0, rules)
    ensures forall m | m in Run(rules, evs).1 :: EmissionFits(rules, m)
  {
    if evs != [] {
      var front, e := evs[..|evs| - 1], evs[|evs| - 1];
      OnlyMatchedEventsFire(rules, front);
      ProcessFits(Run(rules, front).0, rules, |rules|, e);
      assert rules[..|rules|] == rules;
    }
  }

  /** And every event that a rule matches, with a key, enters: it is then the last entry of its window. One that
      it does not match, or without a key, changes none of its windows and makes it emit nothing. */
  lemma MatchedEventEnters(rules: seq<Rule>, evs: seq<EventData>, e: EventData, i: nat)
    requires WellFormed(rules) && i < |rules|
    ensures var r := rules[i];
            var (before, (after, out)) := (Run(rules, evs).0, ProcessNext(Run(rules, evs).0, rules, e));
            if r.matches(e) && r.key(e) != "" then
              var w := At(after, r.id, r.key(e));
              w != [] && w[|w| - 1] == Entry(e.timestamp, e)
            else
              && (forall key :: At(after, r.id, key) == At(before, r.id, key))
              && (forall m | m in out :: m.rule.id != r.id)
  {
    var r, before := rules[i], Run(rules, evs).0;
    StepAt(before, rules, e, i, r.key(e));
    if !(r.matches(e) && r.key(e) != "") {
      var (after, out) := ProcessNext(before, rules, e);
      forall key ensures At(after, r.id, key) == At(before, r.id, key) {
        StepAt(before, rules, e, i, key);
      }
      forall m | m in out ensures m.rule.id != r.id {
        OnlyMatchedEventsFire(rules, evs);
        ProcessFits(before, rules, |rules|, e);
        assert rules[..|rules|] == rules;
        var key := r.key(m.evs[|m.evs| - 1]);
        StepAt(before, rules, e, i, key);
        FilterMember(out, Of(r, key), m);
      }
    }
  }

  // ---- the order of emissions ----

  /** The emissions of one event come in the order of the rules, at most one a rule. */
  ghost predicate InRuleOrder(ms: seq<Emission>, rules: seq<Rule>, at: seq<nat>) {
    && |at| == |ms| && (forall n | 0 <= n < |ms| :: at[n] < |rules| && ms[n].rule == rules[at[n]])
    && forall n, p | 0 <= n < p < |ms| :: at[n] < at[p]
  }

  lemma {:induction false} EmissionsInRuleOrder(ws: Windows, rules: seq<Rule>, e: EventData) returns (at: seq<nat>)
    ensures InRuleOrder(ProcessNext(ws, rules, e).1, rules, at)
  {
    if rules == [] {
      at := [];
    } else {
      var front, q := rules[..|rules| - 1], rules[|rules| - 1];
      at := EmissionsInRuleOrder(ws, front, e);
      var (before, out) := ProcessNext(ws, front, e);
      if RuleNext(before, q, e).1 != [] {
        at := at + [|rules| - 1];
      }
    }
  }
}
