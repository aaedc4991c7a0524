/** Reading the active policy: what a stored revision tells about the current tables, and what a reader
    gets who runs one statement after the other while others write. */
module PolicyReads {
  import opened PolicyRevisions
  import opened Wrappers

  // ----- what is read back -----

  /** The policy of revision r: of revision 0 the tables themselves, else what its commit projected. */
  function Content(s: State, r: nat): Payload
    requires r <= |s.commits| && (r > 0 ==> Readable(s.history, s.commits[r - 1].seen))
  {
    if r == 0 then Projection(s.db.tables)
    else Projection(Projected(s.commits[r - 1].write, s.history, s.commits[r - 1].seen))
  }

  lemma StoredContent(s: State, r: nat, codec: Codec)
    requires Faithful(codec) && Chain(s, codec) && 1 <= r <= s.db.active
    ensures Readable(s.history, s.commits[r - 1].seen)
    ensures PolicyGet(s.db.(active := r), codec) == Ok(PolicyState(r, Content(s, r)))
  {
    var c := s.commits[r - 1];
    assert Stored(s.db.revisions[r - 1 + 1], c, r - 1, s.history, codec);
    var p := Projected(c.write, s.history, c.seen);
    assert codec.decode(codec.encode(Projection(p))) == Some(Projection(p));
    NormalizeIsIdempotent(Payload(1, ConfigFromModel(p.config), Channels(p.profiles, p.overrides), p.groups,
                                  p.presets));
  }

  /** In every reachable state the policy read back is the one the winning commit projected. */
  lemma ReadBackIsProjection(t0: Tables, steps: seq<Step>, codec: Codec)
    requires Faithful(codec)
    ensures var s := Run(Initial(t0), steps, codec);
            && 0 <= s.db.active == |s.commits|
            && (s.db.active > 0 ==> Readable(s.history, s.commits[s.db.active - 1].seen))
            && PolicyGet(s.db, codec) == Ok(PolicyState(s.db.active, Content(s, s.db.active)))
  {
    var s := Run(Initial(t0), steps, codec);
    RevisionsAreLinear(t0, steps, codec);
    if s.db.active > 0 {
      StoredContent(s, s.db.active, codec);
      assert s.db.(active := s.db.active) == s.db;
    }
  }

  // ----- when the policy read back is that of the current tables -----

  /** A reader gets the projection of the tables as they are. */
  predicate UpToDate(s: State, codec: Codec) {
    PolicyGet(s.db, codec) == Ok(PolicyState(s.db.active, Projection(s.db.tables)))
  }

  /** A write from outside is harmless before the first commit, or when it leaves the projection as it is; a
      winning commit, when its five statements saw what it leaves. */
  predicate Harmless(s: State, step: Step, codec: Codec) {
    match step
    case Outside(change) => s.db.active == 0 || Projection(change(s.db.tables)) == Projection(s.db.tables)
    case TryCommit(id, ok) =>
      Ready(s, id) && Wins(s.db, s.txs[id].expected, ok) ==>
        var phase := s.txs[id].phase;
        Projection(Projected(phase.write, s.history, phase.seen)) == Projection(phase.write(s.db.tables))
    case _ => true
  }

  predicate AllHarmless(t0: Tables, steps: seq<Step>, codec: Codec) {
    steps == [] ||
    (AllHarmless(t0, steps[..|steps| - 1], codec)
     && Harmless(Run(Initial(t0), steps[..|steps| - 1], codec), steps[|steps| - 1], codec))
  }

  predicate AlwaysUpToDate(t0: Tables, steps: seq<Step>, codec: Codec) {
    UpToDate(Run(Initial(t0), steps, codec), codec)
    && (steps != [] ==> AlwaysUpToDate(t0, steps[..|steps| - 1], codec))
  }

  lemma WinStores(s: State, id: int, codec: Codec)
    requires Faithful(codec) && Invariant(s, codec) && Ready(s, id) && Wins(s.db, s.txs[id].expected, true)
    ensures var phase := s.txs[id].phase;
            PolicyGet(Committed(s, id, codec).db, codec)
            == Ok(PolicyState(s.db.active + 1, Projection(Projected(phase.write, s.history, phase.seen))))
  {
    var t, c := Committed(s, id, codec), CommitOf(s, id);
    CommitKeepsInvariant(s, id, codec);
    StoredContent(t, t.db.active, codec);
    LaterProjected(c.write, s.history, t.history[|s.history|], c.seen);
    assert t.db.(active := t.db.active) == t.db;
    assert t.commits[t.db.active - 1] == c;
  }

  lemma StepUpToDate(s: State, step: Step, codec: Codec)
    requires Faithful(codec) && Invariant(s, codec) && UpToDate(s, codec)
    ensures UpToDate(Next(s, step, codec), codec) <==> Harmless(s, step, codec)
  {
    match step
    case Outside(change) => OutsideUpToDate(s, change, codec);
    case TryCommit(id, ok) =>
      if Ready(s, id) && Wins(s.db, s.txs[id].expected, ok) {
        WinStores(s, id, codec);
      } else {
        assert Next(s, step, codec).db == s.db;
      }
    case _ => assert Next(s, step, codec).db == s.db;
  }

  lemma StoredAlike(db: Db, tables: Tables, codec: Codec)
    ensures PolicyGet(db.(tables := tables), codec)
            == if db.active == 0 then Ok(PolicyState(0, Projection(tables))) else PolicyGet(db, codec)
  {
  }

  lemma OutsideUpToDate(s: State, change: Tables -> Tables, codec: Codec)
    requires UpToDate(s, codec)
    ensures UpToDate(Next(s, Outside(change), codec), codec) <==> Harmless(s, Outside(change), codec)
  {
    StoredAlike(s.db, change(s.db.tables), codec);
  }

  /** A reader gets the projection of the current tables at every moment of a run if and only if every step
      of it was harmless. */
  lemma {:induction false} UpToDateExactlyWhen(t0: Tables, steps: seq<Step>, codec: Codec)
    requires Faithful(codec)
    ensures AlwaysUpToDate(t0, steps, codec) <==> AllHarmless(t0, steps, codec)
  {
    if steps != [] {
      var prefix := steps[..|steps| - 1];
      UpToDateExactlyWhen(t0, prefix, codec);
      RevisionsAreLinear(t0, prefix, codec);
      if AlwaysUpToDate(t0, prefix, codec) {
        StepUpToDate(Run(Initial(t0), prefix, codec), steps[|steps| - 1], codec);
      }
    }
  }

  /** Five statements that saw the version the commit changes project exactly the tables it leaves: nothing
      written from outside between the first of them and the commit. */
  lemma QuietCommitIsHarmless(s: State, id: int, ok: bool, codec: Codec)
    requires Tracked(s) && Ready(s, id)
    requires forall n :: 0 <= n < STATEMENTS ==> s.txs[id].phase.seen[n] == |s.history| - 1
    ensures Harmless(s, TryCommit(id, ok), codec)
  {
    OneVersionProjected(s.txs[id].phase.write, s.history, s.txs[id].phase.seen, |s.history| - 1);
  }

  /** GroupCreate after a commit: the policy read back does not know the group until the next commit. */
  lemma NewGroupIsUnread(t0: Tables, steps: seq<Step>, g: GroupRow, codec: Codec)
    requires Faithful(codec) && Run(Initial(t0), steps, codec).db.active > 0
    ensures var s := Run(Initial(t0), steps, codec);
            var t := Next(s, Outside((tables: Tables) => tables.(groups := tables.groups + [g])), codec);
            && PolicyGet(t.db, codec) == PolicyGet(s.db, codec)
            && (UpToDate(s, codec) ==> !UpToDate(t, codec))
  {
    var s := Run(Initial(t0), steps, codec);
    var change := (tables: Tables) => tables.(groups := tables.groups + [g]);
    StoredAlike(s.db, change(s.db.tables), codec);
    assert Projection(change(s.db.tables)).groups != Projection(s.db.tables).groups;
  }

  // ----- a read in several statements -----

  const UNCHANGED: Tables -> Tables := (t: Tables) => t

  /** protocolPolicyGetDB reads the config row first; `active` is what it saw. Then it reads the revision row
      from the database as it is `later`, or, at revision 0, the five tables one by one. */
  function ReadRest(active: int, later: State, seen: seq<nat>, codec: Codec): ReadResult
    requires Readable(later.history, seen)
  {
    if active == 0 then Ok(PolicyState(0, Projection(Projected(UNCHANGED, later.history, seen))))
    else PolicyGet(later.db.(active := active), codec)
  }

  /** The projection of tables, part by part as it is read. */
  predicate SamePolicy(a: Tables, b: Tables) {
    && Normalize(Payload(1, ConfigFromModel(a.config), [], [], []))
       == Normalize(Payload(1, ConfigFromModel(b.config), [], [], []))
    && Channels(a.profiles, a.overrides) == Channels(b.profiles, b.overrides)
    && a.groups == b.groups && a.presets == b.presets
  }

  lemma SamePolicyMeans(a: Tables, b: Tables)
    ensures Projection(a) == Projection(b) <==> SamePolicy(a, b)
  {
  }

  lemma {:induction false} RunConcat(s: State, a: seq<Step>, b: seq<Step>, codec: Codec)
    ensures Run(s, a + b, codec) == Run(Run(s, a, codec), b, codec)
  {
    if b == [] {
      assert a + b == a;
    } else {
      assert (a + b)[..|a + b| - 1] == a + b[..|b| - 1];
      RunConcat(s, a, b[..|b| - 1], codec);
    }
  }

  lemma {:induction false} HistoryOnlyGrows(s: State, steps: seq<Step>, codec: Codec)
    ensures s.commits <= Run(s, steps, codec).commits && s.history <= Run(s, steps, codec).history
  {
    if steps != [] {
      HistoryOnlyGrows(s, steps[..|steps| - 1], codec);
    }
  }

  /** Positions of statements that ran between `first` and `later`. */
  predicate ReadSince(first: State, later: State, seen: seq<nat>) {
    && Readable(later.history, seen) && first.history != []
    && forall n :: 0 <= n < STATEMENTS ==> seen[n] >= |first.history| - 1
  }

  /** The state at the last statement: everything committed by the first one is still there. */
  lemma LaterState(t0: Tables, before: seq<Step>, between: seq<Step>, codec: Codec)
    ensures var first := Run(Initial(t0), before, codec);
            var later := Run(first, between, codec);
            && Invariant(first, codec) && Invariant(later, codec)
            && first.commits <= later.commits && first.history <= later.history
  {
    RevisionsAreLinear(t0, before, codec);
    RunKeepsInvariant(Run(Initial(t0), before, codec), between, codec);
    HistoryOnlyGrows(Run(Initial(t0), before, codec), between, codec);
  }

  lemma SameContent(first: State, later: State, r: nat, codec: Codec)
    requires Chain(first, codec) && first.commits <= later.commits && first.history <= later.history
    requires 1 <= r <= first.db.active
    ensures Readable(first.history, first.commits[r - 1].seen) && Readable(later.history, later.commits[r - 1].seen)
    ensures Content(later, r) == Content(first, r)
  {
    var c := first.commits[r - 1];
    assert Stored(first.db.revisions[r - 1 + 1], c, r - 1, first.history, codec);
    assert later.commits[r - 1] == c;
    assert forall n :: 0 <= n < STATEMENTS ==> later.history[c.seen[n]] == first.history[c.seen[n]];
  }

  /** Whatever is committed or written from outside between the statements, an active revision above 0 is
      read as its own policy, because revisions never change. At 0 the tables themselves are read one by one,
      and the answer is the policy of the first statement's tables exactly when each statement read the same
      as it would have then. */
  lemma SplitRead(t0: Tables, before: seq<Step>, between: seq<Step>, seen: seq<nat>, codec: Codec)
    requires Faithful(codec)
    requires ReadSince(Run(Initial(t0), before, codec), Run(Run(Initial(t0), before, codec), between, codec), seen)
    ensures var first := Run(Initial(t0), before, codec);
            var later := Run(first, between, codec);
            var active, got := first.db.active, ReadRest(first.db.active, later, seen, codec);
            if active > 0 then got == PolicyGet(first.db, codec)
            else
              (got == PolicyGet(first.db, codec)
               <==> SamePolicy(Projected(UNCHANGED, later.history, seen), first.db.tables))
  {
    var first := Run(Initial(t0), before, codec);
    var later := Run(first, between, codec);
    LaterState(t0, before, between, codec);
    if first.db.active > 0 {
      StoredContent(first, first.db.active, codec);
      StoredContent(later, first.db.active, codec);
      SameContent(first, later, first.db.active, codec);
      assert first.db.(active := first.db.active) == first.db;
    } else {
      SamePolicyMeans(Projected(UNCHANGED, later.history, seen), first.db.tables);
    }
  }

  /** Statements that all saw one version give that version's policy. */
  lemma OneVersionIsRead(later: State, seen: seq<nat>, v: nat, codec: Codec)
    requires Readable(later.history, seen) && forall n :: 0 <= n < STATEMENTS ==> seen[n] == v
    ensures v < |later.history|
    ensures ReadRest(0, later, seen, codec) == Ok(PolicyState(0, Projection(later.history[v].tables)))
  {
    OneVersionProjected(UNCHANGED, later.history, seen, v);
  }

  /** GroupDel between the statement that reads the groups and the one that reads the presets: the answer is
      the policy of no version at all. */
  lemma TornRead(t0: Tables, codec: Codec)
    requires t0.groups != [] && t0.presets != []
    ensures var delete := (t: Tables) => t.(groups := [], presets := []);
            var later := Next(Initial(t0), Outside(delete), codec);
            && Readable(later.history, [0, 0, 0, 0, 1])
            && forall v :: 0 <= v < |later.history| ==>
                 ReadRest(0, later, [0, 0, 0, 0, 1], codec) != Ok(PolicyState(0, Projection(later.history[v].tables)))
  {
    var delete := (t: Tables) => t.(groups := [], presets := []);
    var later := Next(Initial(t0), Outside(delete), codec);
    assert later.history == [Version(0, t0), Version(0, delete(t0))];
    var torn := Projected(UNCHANGED, later.history, [0, 0, 0, 0, 1]);
    assert torn.groups == t0.groups && torn.presets == [];
    OtherRows(torn, t0);
    OtherRows(torn, delete(t0));
  }

  lemma OtherRows(a: Tables, b: Tables)
    requires a.groups != b.groups || a.presets != b.presets
    ensures Projection(a) != Projection(b)
  {
    assert Projection(a).groups == a.groups && Projection(b).groups == b.groups;
    assert Projection(a).presets == a.presets && Projection(b).presets == b.presets;
  }

  lemma RunMore(s: State, steps: seq<Step>, step: Step, codec: Codec)
    ensures Run(s, steps + [step], codec) == Next(Run(s, steps, codec), step, codec)
  {
    assert (steps + [step])[..|steps|] == steps;
  }

  function Replacing(tables: Tables): Tables -> Tables {
    (t: Tables) => tables
  }

  /** Nothing has happened but that transaction 1 has got to `phase`. */
  function FirstAt(t0: Tables, phase: Phase): State {
    Initial(t0).(txs := map[1 := Tx(0, phase)])
  }

  lemma FirstStages(t0: Tables, t1: Tables, codec: Codec)
    ensures Next(Initial(t0), Begin(1, 0), codec) == FirstAt(t0, Begun)
    ensures Next(FirstAt(t0, Begun), Load(1), codec) == FirstAt(t0, Loaded(0))
    ensures Next(FirstAt(t0, Loaded(0)), Stage(1, (versions: seq<Version>) => Some(Replacing(t1))), codec)
            == FirstAt(t0, Projecting(0, Replacing(t1), []))
  {
  }

  lemma FirstReads(t0: Tables, t1: Tables, seen: seq<nat>, codec: Codec)
    requires |seen| < STATEMENTS
    ensures Next(FirstAt(t0, Projecting(0, Replacing(t1), seen)), Read(1, 0), codec)
            == FirstAt(t0, Projecting(0, Replacing(t1), seen + [0]))
  {
  }

  function Zeros(n: nat): seq<nat> {
    if n == 0 then [] else Zeros(n - 1) + [0]
  }

  lemma {:induction false} FirstReading(t0: Tables, t1: Tables, n: nat, codec: Codec) returns (steps: seq<Step>)
    requires n <= STATEMENTS
    ensures |Zeros(n)| == n && Run(Initial(t0), steps, codec) == FirstAt(t0, Projecting(0, Replacing(t1), Zeros(n)))
  {
    if n == 0 {
      var stage := Stage(1, (versions: seq<Version>) => Some(Replacing(t1)));
      FirstStages(t0, t1, codec);
      RunMore(Initial(t0), [], Begin(1, 0), codec);
      RunMore(Initial(t0), [] + [Begin(1, 0)], Load(1), codec);
      RunMore(Initial(t0), [] + [Begin(1, 0)] + [Load(1)], stage, codec);
      steps := [] + [Begin(1, 0)] + [Load(1)] + [stage];
    } else {
      var fewer := FirstReading(t0, t1, n - 1, codec);
      RunMore(Initial(t0), fewer, Read(1, 0), codec);
      FirstReads(t0, t1, Zeros(n - 1), codec);
      steps := fewer + [Read(1, 0)];
    }
  }

  lemma FirstCommits(t0: Tables, t1: Tables, codec: Codec)
    ensures var s := FirstAt(t0, Projecting(0, Replacing(t1), Zeros(STATEMENTS)));
            var later := Next(s, TryCommit(1, true), codec);
            later.db.active == 1 && |later.history| == 2 && later.history[1].tables == t1
  {
    assert Zeros(STATEMENTS) == [0, 0, 0, 0, 0];
    assert Ready(FirstAt(t0, Projecting(0, Replacing(t1), Zeros(STATEMENTS))), 1);
  }

  /** The first commit between the config row and the tables: the answer says revision 0 and shows revision 1. */
  lemma FirstCommitShowsThrough(t0: Tables, t1: Tables, codec: Codec) returns (steps: seq<Step>)
    ensures var s := Run(Initial(t0), steps, codec);
            var later := Next(s, TryCommit(1, true), codec);
            && s.db.active == 0 && later.db.active == 1 && Readable(later.history, [1, 1, 1, 1, 1])
            && ReadRest(0, later, [1, 1, 1, 1, 1], codec) == Ok(PolicyState(0, Projection(t1)))
  {
    steps := FirstReading(t0, t1, STATEMENTS, codec);
    var later := Next(Run(Initial(t0), steps, codec), TryCommit(1, true), codec);
    FirstCommits(t0, t1, codec);
    OneVersionIsRead(later, [1, 1, 1, 1, 1], 1, codec);
  }

  /** What a winner reads back after its commit is its own revision or a later one, complete in itself. */
  lemma ReReadAfterWin(t0: Tables, steps: seq<Step>, between: seq<Step>, id: int, seen: seq<nat>, codec: Codec)
    requires Faithful(codec)
    requires var s := Run(Initial(t0), steps, codec);
             id in s.txs && s.txs[id].phase == Finished(true) && ReadSince(s, Run(s, between, codec), seen)
    ensures var s := Run(Initial(t0), steps, codec);
            && 0 < s.txs[id].expected + 1 <= s.db.active == |s.commits|
            && ReadRest(s.db.active, Run(s, between, codec), seen, codec) == PolicyGet(s.db, codec)
            && Readable(s.history, s.commits[s.db.active - 1].seen)
            && PolicyGet(s.db, codec) == Ok(PolicyState(s.db.active, Content(s, s.db.active)))
  {
    RevisionsAreLinear(t0, steps, codec);
    SplitRead(t0, steps, between, seen, codec);
    ReadBackIsProjection(t0, steps, codec);
  }
}
