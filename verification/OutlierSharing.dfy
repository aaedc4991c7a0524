/** Reports from several goroutines: a report first looks its window up, creating it if need be, and records
    into it afterwards; a reap or clear may take the window out of the store in between. A channel-wide
    report does this for its own window, then walks over the store and records into every other window of
    the channel it meets. Window numbers stand for the references kept in the store. */
module OutlierSharing {
  import opened OutlierWindow

  /** One window of one report. */
  datatype Ticket = Ticket(report: int, key: WindowKey)

  /** `holding` are the windows that reports have looked up or met and not yet recorded into. */
  datatype Shared = Shared(
    store: map<WindowKey, nat>, windows: map<nat, seq<Sample>>, next: nat, holding: map<Ticket, nat>)

  datatype Step =
    | Get(ticket: Ticket)                   // getOrCreate
    | Meet(ticket: Ticket)                  // the walk of a channel-wide report comes to the key
    | Record(ticket: Ticket, sample: Sample)
    | ReapOne(key: WindowKey, id: nat, cutoff: int)  // the walk met window `id` there; deletes under its lock
    | Clear(key: WindowKey)

  ghost predicate Sound(s: Shared) {
    && (forall k :: k in s.store ==> s.store[k] < s.next && s.store[k] in s.windows)
    && (forall j, k :: j in s.store && k in s.store && s.store[j] == s.store[k] ==> j == k)
    && (forall r :: r in s.holding ==> s.holding[r] < s.next && s.holding[r] in s.windows)
  }

  function Next(s: Shared, step: Step): Shared {
    match step
    case Get(t) =>
      if t.key in s.store then s.(holding := s.holding[t := s.store[t.key]])
      else Shared(s.store[t.key := s.next], s.windows[s.next := []], s.next + 1, s.holding[t := s.next])
    case Meet(t) => if t.key in s.store then s.(holding := s.holding[t := s.store[t.key]]) else s
    case Record(t, sample) =>
      if t in s.holding && s.holding[t] in s.windows then
        s.(windows := s.windows[s.holding[t] := s.windows[s.holding[t]] + [sample]], holding := s.holding - {t})
      else s
    case ReapOne(k, id, cutoff) =>
      if id in s.windows && Idle(s.windows[id], cutoff) then s.(store := s.store - {k}) else s
    case Clear(k) => s.(store := s.store - {k})
  }

  function Run(s: Shared, steps: seq<Step>): Shared {
    if steps == [] then s else Next(Run(s, steps[..|steps| - 1]), steps[|steps| - 1])
  }

  lemma {:induction false} RunIsSound(s: Shared, steps: seq<Step>)
    requires Sound(s)
    ensures Sound(Run(s, steps))
  {
    if steps != [] {
      RunIsSound(s, steps[..|steps| - 1]);
      StepIsSound(Run(s, steps[..|steps| - 1]), steps[|steps| - 1]);
    }
  }

  lemma StepIsSound(s: Shared, step: Step)
    requires Sound(s)
    ensures Sound(Next(s, step))
  {
    match step
    case Get(_) =>
    case Meet(_) =>
    case Record(_, _) =>
    case ReapOne(_, _, _) =>
    case Clear(_) =>
  }

  /** A reader of key k sees window `id`. */
  predicate Linked(s: Shared, k: WindowKey, id: nat) {
    k in s.store && s.store[k] == id
  }

  /** No reader will ever see window `id` again: numbers are not used twice. */
  ghost predicate Orphan(s: Shared, id: nat) {
    id < s.next && forall k :: k in s.store ==> s.store[k] != id
  }

  lemma StepLinks(s: Shared, step: Step, k: WindowKey, id: nat)
    requires Sound(s)
    ensures Linked(s, k, id) ==> if k in Next(s, step).store then Linked(Next(s, step), k, id)
            else Orphan(Next(s, step), id)
    ensures Orphan(s, id) ==> Orphan(Next(s, step), id)
  {
    match step
    case Get(_) =>
    case Meet(_) =>
    case Record(_, _) =>
    case ReapOne(_, _, _) =>
    case Clear(_) =>
  }

  /** Some step of the run took k out of the store. */
  predicate Removed(s: Shared, steps: seq<Step>, k: WindowKey) {
    steps != [] &&
    (Removed(s, steps[..|steps| - 1], k) || (k in Run(s, steps[..|steps| - 1]).store && k !in Run(s, steps).store))
  }

  lemma {:induction false} LinkedUntilRemoved(s: Shared, steps: seq<Step>, k: WindowKey, id: nat)
    requires Sound(s) && Linked(s, k, id)
    ensures if Removed(s, steps, k) then Orphan(Run(s, steps), id) else Linked(Run(s, steps), k, id)
  {
    if steps != [] {
      var prefix := steps[..|steps| - 1];
      LinkedUntilRemoved(s, prefix, k, id);
      RunIsSound(s, prefix);
      StepLinks(Run(s, prefix), steps[|steps| - 1], k, id);
    }
  }

  lemma {:induction false} OrphansStay(s: Shared, steps: seq<Step>, id: nat)
    requires Sound(s) && Orphan(s, id)
    ensures Orphan(Run(s, steps), id)
  {
    if steps != [] {
      var prefix := steps[..|steps| - 1];
      OrphansStay(s, prefix, id);
      RunIsSound(s, prefix);
      StepLinks(Run(s, prefix), steps[|steps| - 1], WindowKey(0, ""), id);
    }
  }

  predicate Foreign(steps: seq<Step>, ticket: Ticket) {
    forall x :: x in steps && (x.Get? || x.Meet? || x.Record?) ==> x.ticket != ticket
  }

  lemma {:induction false} KeepsHolding(s: Shared, steps: seq<Step>, ticket: Ticket)
    requires Foreign(steps, ticket)
    ensures ticket in Run(s, steps).holding <==> ticket in s.holding
    ensures ticket in s.holding ==> Run(s, steps).holding[ticket] == s.holding[ticket]
  {
    if steps != [] {
      var prefix, last := steps[..|steps| - 1], steps[|steps| - 1];
      assert last in steps && forall x :: x in prefix ==> x in steps;
      KeepsHolding(s, prefix, ticket);
    }
  }

  lemma {:induction false} WindowsGrow(s: Shared, steps: seq<Step>, id: nat)
    requires Sound(s) && id in s.windows && id < s.next
    ensures var t := Run(s, steps); id in t.windows && id < t.next && s.windows[id] <= t.windows[id]
  {
    if steps != [] {
      WindowsGrow(s, steps[..|steps| - 1], id);
    }
  }

  /** The sample stands at position n of window `id`. */
  predicate HasSample(s: Shared, id: nat, n: nat, sample: Sample) {
    id in s.windows && n < |s.windows[id]| && s.windows[id][n] == sample
  }

  /** Removals in one part of a run or the other. */
  lemma {:induction false} RemovedSplits(s: Shared, a: seq<Step>, b: seq<Step>, k: WindowKey)
    ensures Run(s, a + b) == Run(Run(s, a), b)
    ensures Removed(s, a + b, k) <==> Removed(s, a, k) || Removed(Run(s, a), b, k)
  {
    if b == [] {
      assert a + b == a;
    } else {
      assert (a + b)[..|a + b| - 1] == a + b[..|b| - 1];
      RemovedSplits(s, a, b[..|b| - 1], k);
    }
  }

  lemma RunOne(s: Shared, step: Step)
    ensures Run(s, [step]) == Next(s, step)
  {
    assert [step][..0] == [];
  }

  /** From looking a window up to the end of the run: the sample is in the window that readers of the key see
      if and only if the key was never taken out of the store meanwhile, and otherwise in one that nobody
      sees. */
  lemma HeldWindowGetsSample(s: Shared, t: Ticket, sample: Sample, between: seq<Step>, after: seq<Step>)
    requires Sound(s) && t in s.holding && Linked(s, t.key, s.holding[t]) && Foreign(between, t)
    ensures var id := s.holding[t];
            var steps := between + ([Record(t, sample)] + after);
            && id in Run(s, between).windows && HasSample(Run(s, steps), id, |Run(s, between).windows[id]|, sample)
            && if Removed(s, steps, t.key) then Orphan(Run(s, steps), id) else Linked(Run(s, steps), t.key, id)
  {
    var id := s.holding[t];
    var record := Record(t, sample);
    RunIsSound(s, between);
    KeepsHolding(s, between, t);
    WindowsGrow(s, between, id);
    var before := Run(s, between);
    var recorded := Next(before, record);
    StepIsSound(before, record);
    WindowsGrow(recorded, after, id);
    RunOne(before, record);
    RemovedSplits(before, [record], after, t.key);
    RemovedSplits(s, between, [record] + after, t.key);
    assert Run(s, between + ([record] + after)) == Run(recorded, after);
    LinkedUntilRemoved(s, between + ([record] + after), t.key, id);
  }

  /** A report's sample is seen by readers of its key if and only if the key was not taken out of the store
      between the report's look-up and the end of the run, whatever else ran; otherwise it lands in an orphan
      window or is lost with its window, for good. */
  lemma ReportCountsExactlyWhen(s: Shared, t: Ticket, sample: Sample, between: seq<Step>, after: seq<Step>)
    requires Sound(s) && Foreign(between, t)
    ensures var got := Next(s, Get(t));
            var steps := between + ([Record(t, sample)] + after);
            && t in got.holding && got.holding[t] in Run(got, between).windows
            && var id, n := got.holding[t], |Run(got, between).windows[got.holding[t]]|;
               HasSample(Run(got, steps), id, n, sample)
               && if Removed(got, steps, t.key) then Orphan(Run(got, steps), id) else Linked(Run(got, steps), t.key, id)
  {
    StepIsSound(s, Get(t));
    HeldWindowGetsSample(Next(s, Get(t)), t, sample, between, after);
  }

  /** A channel-wide report that comes to a key adds its sample as a single report would, and to nothing if
      the key is not there when it comes; it creates no window. */
  lemma FanOutReaches(s: Shared, t: Ticket, sample: Sample, between: seq<Step>, after: seq<Step>)
    requires Sound(s) && Foreign(between, t) && t !in s.holding
    ensures var met := Next(s, Meet(t));
            var steps := between + ([Record(t, sample)] + after);
            if t.key !in s.store then met == s && Run(met, steps) == Run(s, between + after)
            else
              && t in met.holding && met.holding[t] in Run(met, between).windows
              && var id, n := met.holding[t], |Run(met, between).windows[met.holding[t]]|;
                 HasSample(Run(met, steps), id, n, sample)
                 && if Removed(met, steps, t.key) then Orphan(Run(met, steps), id)
                     else Linked(Run(met, steps), t.key, id)
  {
    var met, record := Next(s, Meet(t)), Record(t, sample);
    if t.key in s.store {
      StepIsSound(s, Meet(t));
      HeldWindowGetsSample(met, t, sample, between, after);
    } else {
      KeepsHolding(s, between, t);
      RunOne(Run(s, between), record);
      RemovedSplits(s, between, [record] + after, t.key);
      RemovedSplits(Run(s, between), [record], after, t.key);
      RemovedSplits(s, between, after, t.key);
    }
  }

  /** The walk meets every key that is there from its start to its end (so sync.Map promises): such a key's
      window, the same all along, has the sample, wherever the walk met it. */
  lemma KnownWindowGetsSample(s: Shared, t: Ticket, sample: Sample, before: seq<Step>, between: seq<Step>,
                              after: seq<Step>)
    requires Sound(s) && t.key in s.store && Foreign(before, t) && Foreign(between, t)
    requires !Removed(s, before + ([Meet(t)] + (between + ([Record(t, sample)] + after))), t.key)
    ensures var end := Run(s, before + ([Meet(t)] + (between + ([Record(t, sample)] + after))));
            && Linked(end, t.key, s.store[t.key])
            && exists n :: HasSample(end, s.store[t.key], n, sample)
  {
    var id, rest := s.store[t.key], between + ([Record(t, sample)] + after);
    var reached := Run(s, before);
    RemovedSplits(s, before, [Meet(t)] + rest, t.key);
    RunIsSound(s, before);
    LinkedUntilRemoved(s, before, t.key, id);
    RunOne(reached, Meet(t));
    var met := Next(reached, Meet(t));
    RemovedSplits(reached, [Meet(t)], rest, t.key);
    StepIsSound(reached, Meet(t));
    HeldWindowGetsSample(met, t, sample, between, after);
  }

  /** A window just created has not been seen yet, so any reap takes it: the first report of a key is the
      one most easily lost. */
  lemma FirstReportIsReaped(s: Shared, t: Ticket, cutoff: int)
    requires Sound(s) && t.key !in s.store && cutoff > 0
    ensures Removed(Next(s, Get(t)), [ReapOne(t.key, s.next, cutoff)], t.key)
  {
    var got := Next(s, Get(t));
    assert [ReapOne(t.key, s.next, cutoff)][..0] == [];
    assert Run(got, []) == got;
    RunOne(got, ReapOne(t.key, s.next, cutoff));
  }
}
