/** Policy revisions: transactions that check the active revision, change the policy tables, append a
    revision holding the projected payload, and advance the active revision. */
module PolicyRevisions {
  import opened Selecting
  import opened Wrappers

  // ----- tables and payload -----

  datatype ConfigRow = ConfigRow(
    routingEnabled: bool, mode: string, fallbackEnabled: bool, learningRead: bool, learningWrite: bool,
    conversionEnabled: bool, allowlist: seq<int>, rankingOrder: seq<string>, legacyLearning: bool)

  datatype Profile = Profile(channelId: int, protocol: string, enabled: bool, settings: string)

  datatype Override = Override(
    channelId: int, channelKeyId: int, upstreamModel: string, mode: string, preferred: seq<string>, enabled: bool)

  datatype GroupRow = GroupRow(id: int, mode: string, preferred: seq<string>)

  /** The policy tables, each in the order its query returns the rows. */
  datatype Tables = Tables(
    config: ConfigRow, profiles: seq<Profile>, overrides: seq<Override>, groups: seq<GroupRow>, presets: seq<GroupRow>)

  /** `allowlist` is None where the source has a nil slice. */
  datatype ConfigPolicy = ConfigPolicy(
    routingEnabled: bool, mode: string, fallbackEnabled: bool, learningRead: bool, learningWrite: bool,
    conversionEnabled: bool, allowlist: Option<seq<int>>, rankingOrder: seq<string>, legacyLearning: bool)

  datatype ChannelPolicy = ChannelPolicy(channelId: int, profiles: seq<Profile>, overrides: seq<Override>)

  datatype Payload = Payload(
    schemaVersion: int, config: ConfigPolicy, channels: seq<ChannelPolicy>, groups: seq<GroupRow>,
    presets: seq<GroupRow>)

  const DEFAULT_SIGNALS :=
    ["ingress", "group_prefer", "evidence", "key_model_prefer", "channel_model_prefer", "channel_type", "metadata_hint"]

  function ConfigFromModel(c: ConfigRow): ConfigPolicy {
    ConfigPolicy(c.routingEnabled, c.mode, c.fallbackEnabled, c.learningRead, c.learningWrite, c.conversionEnabled,
                 if c.allowlist == [] then None else Some(c.allowlist), c.rankingOrder, c.legacyLearning)
  }

  function Normalize(p: Payload): Payload {
    p.(config := p.config.(
         allowlist := if p.config.allowlist.None? then Some([]) else p.config.allowlist,
         rankingOrder := if p.config.rankingOrder == [] then DEFAULT_SIGNALS else p.config.rankingOrder))
  }

  // ----- grouping rows by channel -----

  function ProfileOf(channelId: int): Profile -> bool {
    (p: Profile) => p.channelId == channelId
  }

  function OverrideOf(channelId: int): Override -> bool {
    (o: Override) => o.channelId == channelId
  }

  function ProfilesOf(rows: seq<Profile>, channelId: int): seq<Profile> {
    Select(rows, ProfileOf(channelId))
  }

  function OverridesOf(rows: seq<Override>, channelId: int): seq<Override> {
    Select(rows, OverrideOf(channelId))
  }

  /** Where the channel stands in the list, or the length if it does not. */
  function Position(channels: seq<ChannelPolicy>, channelId: int): (i: nat)
    ensures i <= |channels| && (i < |channels| ==> channels[i].channelId == channelId)
    ensures i == |channels| ==> forall c :: c in channels ==> c.channelId != channelId
  {
    if channels == [] then 0
    else
      var i := Position(channels[..|channels| - 1], channelId);
      if i < |channels| - 1 then i
      else if channels[|channels| - 1].channelId == channelId then |channels| - 1
      else
        assert channels == channels[..|channels| - 1] + [channels[|channels| - 1]];
        |channels|
  }

  function Ensured(channels: seq<ChannelPolicy>, channelId: int): seq<ChannelPolicy> {
    if Position(channels, channelId) < |channels| then channels else channels + [ChannelPolicy(channelId, [], [])]
  }

  function WithProfile(channels: seq<ChannelPolicy>, p: Profile): seq<ChannelPolicy> {
    var c := Ensured(channels, p.channelId);
    var i := Position(channels, p.channelId);
    c[i := c[i].(profiles := c[i].profiles + [p])]
  }

  function WithOverride(channels: seq<ChannelPolicy>, o: Override): seq<ChannelPolicy> {
    var c := Ensured(channels, o.channelId);
    var i := Position(channels, o.channelId);
    c[i := c[i].(overrides := c[i].overrides + [o])]
  }

  function Channels(profiles: seq<Profile>, overrides: seq<Override>): seq<ChannelPolicy> {
    if overrides != [] then WithOverride(Channels(profiles, overrides[..|overrides| - 1]), overrides[|overrides| - 1])
    else if profiles != [] then WithProfile(Channels(profiles[..|profiles| - 1], []), profiles[|profiles| - 1])
    else []
  }

  predicate HasChannel(channels: seq<ChannelPolicy>, id: int) {
    exists i :: 0 <= i < |channels| && channels[i].channelId == id
  }

  ghost predicate Distinct(channels: seq<ChannelPolicy>) {
    forall i, j :: 0 <= i < j < |channels| ==> channels[i].channelId != channels[j].channelId
  }

  predicate Own(c: ChannelPolicy, profiles: seq<Profile>, overrides: seq<Override>) {
    c.profiles == ProfilesOf(profiles, c.channelId) && c.overrides == OverridesOf(overrides, c.channelId)
  }

  /** Each channel appears once, exactly if it has a row, with all its rows in query order. */
  ghost predicate Grouped(channels: seq<ChannelPolicy>, profiles: seq<Profile>, overrides: seq<Override>) {
    && Distinct(channels)
    && (forall i :: 0 <= i < |channels| ==> Own(channels[i], profiles, overrides))
    && (forall id :: HasChannel(channels, id) <==> ProfilesOf(profiles, id) != [] || OverridesOf(overrides, id) != [])
  }

  lemma RowsAppend(profiles: seq<Profile>, p: Profile, overrides: seq<Override>, o: Override, id: int)
    ensures ProfilesOf(profiles + [p], id) == ProfilesOf(profiles, id) + (if p.channelId == id then [p] else [])
    ensures OverridesOf(overrides + [o], id) == OverridesOf(overrides, id) + (if o.channelId == id then [o] else [])
  {
    SelectAppend(profiles, p, ProfileOf(id));
    SelectAppend(overrides, o, OverrideOf(id));
  }

  lemma PositionIsMembership(channels: seq<ChannelPolicy>, id: int)
    ensures HasChannel(channels, id) <==> Position(channels, id) < |channels|
  {
    if HasChannel(channels, id) {
      var i :| 0 <= i < |channels| && channels[i].channelId == id;
      assert channels[i] in channels;
    }
  }

  /** Making sure of a channel keeps the others and adds at most an empty one. */
  lemma EnsuredShape(channels: seq<ChannelPolicy>, id: int)
    requires Distinct(channels)
    ensures var c := Ensured(channels, id);
            var i := Position(channels, id);
            && Distinct(c) && i < |c| && c[i].channelId == id && c[..|channels|] == channels
            && (if HasChannel(channels, id) then c == channels
                else i == |channels| && c[i] == ChannelPolicy(id, [], []))
            && forall x :: HasChannel(c, x) <==> HasChannel(channels, x) || x == id
  {
    PositionIsMembership(channels, id);
    var c := Ensured(channels, id);
    assert c[Position(channels, id)].channelId == id;
    assert HasChannel(c, id);
    forall x ensures HasChannel(c, x) <==> HasChannel(channels, x) || x == id {
      if HasChannel(channels, x) {
        var k :| 0 <= k < |channels| && channels[k].channelId == x;
        assert c[k].channelId == x;
      }
    }
  }

  lemma UpdateShape(c: seq<ChannelPolicy>, i: nat, u: ChannelPolicy)
    requires Distinct(c) && i < |c| && u.channelId == c[i].channelId
    ensures Distinct(c[i := u]) && forall x :: HasChannel(c[i := u], x) <==> HasChannel(c, x)
  {
    var r := c[i := u];
    assert forall k :: 0 <= k < |c| ==> r[k].channelId == c[k].channelId;
  }

  /** An ensured channel still owns exactly its rows: a channel without an entry has none. */
  lemma EnsuredOwns(channels: seq<ChannelPolicy>, profiles: seq<Profile>, overrides: seq<Override>, id: int)
    requires forall i :: 0 <= i < |channels| ==> Own(channels[i], profiles, overrides)
    requires !HasChannel(channels, id) ==> ProfilesOf(profiles, id) == [] && OverridesOf(overrides, id) == []
    ensures forall i :: 0 <= i < |Ensured(channels, id)| ==> Own(Ensured(channels, id)[i], profiles, overrides)
  {
    PositionIsMembership(channels, id);
    if !HasChannel(channels, id) {
      assert Own(ChannelPolicy(id, [], []), profiles, overrides);
    }
  }

  lemma AddProfileGroups(channels: seq<ChannelPolicy>, profiles: seq<Profile>, p: Profile)
    requires Grouped(channels, profiles, [])
    ensures Grouped(WithProfile(channels, p), profiles + [p], [])
  {
    var c, i, r := Ensured(channels, p.channelId), Position(channels, p.channelId), WithProfile(channels, p);
    EnsuredShape(channels, p.channelId);
    EnsuredOwns(channels, profiles, [], p.channelId);
    UpdateShape(c, i, r[i]);
    var o: Override := Override(0, 0, "", "", [], false);
    forall k | 0 <= k < |r| ensures Own(r[k], profiles + [p], []) {
      RowsAppend(profiles, p, [], o, c[k].channelId);
      assert Own(c[k], profiles, []);
      assert c[k].channelId == p.channelId ==> k == i;
    }
    forall id ensures HasChannel(r, id) <==> ProfilesOf(profiles + [p], id) != [] || OverridesOf([], id) != [] {
      RowsAppend(profiles, p, [], o, id);
    }
  }

  lemma AddOverrideGroups(channels: seq<ChannelPolicy>, profiles: seq<Profile>, overrides: seq<Override>, o: Override)
    requires Grouped(channels, profiles, overrides)
    ensures Grouped(WithOverride(channels, o), profiles, overrides + [o])
  {
    var c, i, r := Ensured(channels, o.channelId), Position(channels, o.channelId), WithOverride(channels, o);
    EnsuredShape(channels, o.channelId);
    EnsuredOwns(channels, profiles, overrides, o.channelId);
    UpdateShape(c, i, r[i]);
    var p: Profile := Profile(0, "", false, "");
    forall k | 0 <= k < |r| ensures Own(r[k], profiles, overrides + [o]) {
      RowsAppend([], p, overrides, o, c[k].channelId);
      assert Own(c[k], profiles, overrides);
      assert c[k].channelId == o.channelId ==> k == i;
    }
    forall id ensures HasChannel(r, id) <==> ProfilesOf(profiles, id) != [] || OverridesOf(overrides + [o], id) != [] {
      RowsAppend([], p, overrides, o, id);
    }
  }

  lemma Append<T>(s: seq<T>)
    requires s != []
    ensures s == s[..|s| - 1] + [s[|s| - 1]]
  {
  }

  /** The projection regroups the rows without losing, repeating or reordering any. */
  lemma {:induction false} ChannelsAreGrouped(profiles: seq<Profile>, overrides: seq<Override>)
    ensures Grouped(Channels(profiles, overrides), profiles, overrides)
    decreases |overrides|, |profiles|
  {
    if overrides != [] {
      var prefix, last := overrides[..|overrides| - 1], overrides[|overrides| - 1];
      ChannelsAreGrouped(profiles, prefix);
      AddOverrideGroups(Channels(profiles, prefix), profiles, prefix, last);
      Append(overrides);
      assert Channels(profiles, overrides) == WithOverride(Channels(profiles, prefix), last);
    } else if profiles != [] {
      var prefix, last := profiles[..|profiles| - 1], profiles[|profiles| - 1];
      ChannelsAreGrouped(prefix, []);
      AddProfileGroups(Channels(prefix, []), prefix, last);
      Append(profiles);
      assert Channels(profiles, []) == WithProfile(Channels(prefix, []), last);
    } else {
      assert Channels([], []) == [];
    }
  }

  /** An index map remembers each channel's position. */
  ghost predicate Indexes(index: map<int, nat>, channels: seq<ChannelPolicy>) {
    forall id :: if id in index then index[id] < |channels| && index[id] == Position(channels, id)
                 else Position(channels, id) == |channels|
  }

  method EnsureChannel(channels: seq<ChannelPolicy>, index: map<int, nat>, channelId: int)
    returns (r: seq<ChannelPolicy>, newIndex: map<int, nat>, at: nat)
    requires Indexes(index, channels)
    ensures r == Ensured(channels, channelId) && at == Position(channels, channelId) && at < |r|
    ensures Indexes(newIndex, r)
  {
    if channelId in index {
      return channels, index, index[channelId];
    }
    r := channels + [ChannelPolicy(channelId, [], [])];
    assert r[..|r| - 1] == channels;
    newIndex := index[channelId := |r| - 1];
    at := |r| - 1;
  }

  lemma {:induction false} PositionAfterUpdate(channels: seq<ChannelPolicy>, i: nat, c: ChannelPolicy, id: int)
    requires i < |channels| && c.channelId == channels[i].channelId
    ensures Position(channels[i := c], id) == Position(channels, id)
  {
    var r := channels[i := c];
    if i < |channels| - 1 {
      assert r[..|r| - 1] == channels[..|r| - 1][i := c];
      PositionAfterUpdate(channels[..|r| - 1], i, c, id);
    } else {
      assert r[..|r| - 1] == channels[..|r| - 1];
    }
  }

  method BuildChannels(profiles: seq<Profile>, overrides: seq<Override>) returns (channels: seq<ChannelPolicy>)
    ensures channels == Channels(profiles, overrides)
  {
    channels := [];
    var index: map<int, nat> := map[];
    for n := 0 to |profiles|
      invariant channels == Channels(profiles[..n], []) && Indexes(index, channels)
    {
      assert profiles[..n + 1][..n] == profiles[..n];
      var c, newIndex, at := EnsureChannel(channels, index, profiles[n].channelId);
      var updated := c[at].(profiles := c[at].profiles + [profiles[n]]);
      forall id ensures Position(c[at := updated], id) == Position(c, id) {
        PositionAfterUpdate(c, at, updated, id);
      }
      channels, index := c[at := updated], newIndex;
    }
    assert profiles[..|profiles|] == profiles;
    for n := 0 to |overrides|
      invariant channels == Channels(profiles, overrides[..n]) && Indexes(index, channels)
    {
      assert overrides[..n + 1][..n] == overrides[..n];
      var c, newIndex, at := EnsureChannel(channels, index, overrides[n].channelId);
      var updated := c[at].(overrides := c[at].overrides + [overrides[n]]);
      forall id ensures Position(c[at := updated], id) == Position(c, id) {
        PositionAfterUpdate(c, at, updated, id);
      }
      channels, index := c[at := updated], newIndex;
    }
    assert overrides[..|overrides|] == overrides;
  }

  function Projection(t: Tables): Payload {
    Normalize(Payload(1, ConfigFromModel(t.config), Channels(t.profiles, t.overrides), t.groups, t.presets))
  }

  /** A payload holds the policy of the tables, field by field. */
  ghost predicate Holds(p: Payload, t: Tables) {
    && p.schemaVersion == 1
    && p.config.routingEnabled == t.config.routingEnabled && p.config.mode == t.config.mode
    && p.config.fallbackEnabled == t.config.fallbackEnabled
    && p.config.learningRead == t.config.learningRead && p.config.learningWrite == t.config.learningWrite
    && p.config.conversionEnabled == t.config.conversionEnabled && p.config.legacyLearning == t.config.legacyLearning
    && p.config.allowlist == Some(t.config.allowlist)
    && p.config.rankingOrder
       == (if t.config.rankingOrder != [] then t.config.rankingOrder
           else ["ingress", "group_prefer", "evidence", "key_model_prefer", "channel_model_prefer", "channel_type",
                 "metadata_hint"])
    && p.groups == t.groups && p.presets == t.presets
    && Grouped(p.channels, t.profiles, t.overrides)
  }

  lemma ProjectionHolds(t: Tables)
    ensures Holds(Projection(t), t)
  {
    ChannelsAreGrouped(t.profiles, t.overrides);
  }

  // ----- revisions and transactions -----

  /** The JSON codec and the SHA-256 digest, as given by their libraries. */
  datatype Codec = Codec(encode: Payload -> string, decode: string -> Option<Payload>, digest: string -> string)

  ghost predicate Faithful(codec: Codec) {
    forall p :: codec.decode(codec.encode(p)) == Some(p)
  }

  datatype Revision = Revision(revision: int, parent: int, schemaVersion: int, payloadJson: string, payloadSha: string)

  datatype Db = Db(active: int, tables: Tables, revisions: map<int, Revision>)

  /** What a statement can see: the active revision and the tables between two commits to the database. */
  datatype Version = Version(active: int, tables: Tables)

  /** A committer locks the config row, writes its own rows, reads the projection in five statements, and
      tries to commit. What it writes is a change to whatever the tables are at its commit; nobody else
      sees it before. `since` and `seen` are positions in the history of versions. */
  datatype Phase =
    | Begun
    | Loaded(since: nat)
    | Projecting(since: nat, write: Tables -> Tables, seen: seq<nat>)
    | Finished(won: bool)

  datatype Tx = Tx(expected: int, phase: Phase)

  /** A won commit: who, since which version, what it wrote, what its statements read, and the version it changed. */
  datatype Commit = Commit(tx: int, since: nat, write: Tables -> Tables, seen: seq<nat>, at: nat)

  /** `history` holds every version there has been, the current one last; `commits` is history too. */
  datatype State = State(db: Db, txs: map<int, Tx>, commits: seq<Commit>, history: seq<Version>)

  /** `mutate` may depend on any version since the load; None is a rejected request. A statement reads some
      version since the load, as its isolation level has it. Groups and presets are also written outside of
      policy commits. */
  datatype Step =
    | Begin(tx: int, expected: int)
    | Load(tx: int)
    | Stage(tx: int, mutate: seq<Version> -> Option<Tables -> Tables>)
    | Read(tx: int, version: nat)
    | TryCommit(tx: int, ok: bool)
    | Outside(change: Tables -> Tables)

  const STATEMENTS := 5

  predicate Readable(history: seq<Version>, seen: seq<nat>) {
    |seen| == STATEMENTS && forall n :: 0 <= n < |seen| ==> seen[n] < |history|
  }

  /** What the five statements of loadProtocolPolicyProjection put together, own writes included. */
  function Projected(write: Tables -> Tables, history: seq<Version>, seen: seq<nat>): Tables
    requires Readable(history, seen)
  {
    Tables(write(history[seen[0]].tables).config, write(history[seen[1]].tables).profiles,
           write(history[seen[2]].tables).overrides, write(history[seen[3]].tables).groups,
           write(history[seen[4]].tables).presets)
  }

  function NewRevision(expected: int, projected: Tables, codec: Codec): Revision {
    var json := codec.encode(Projection(projected));
    Revision(expected + 1, expected, 1, json, codec.digest(json))
  }

  /** The unique revision number and the guarded update of active_revision; `ok` is false for a database failure. */
  predicate Wins(db: Db, expected: int, ok: bool) {
    ok && expected + 1 !in db.revisions && db.active == expected
  }

  function CommitOf(s: State, id: int): Commit
    requires id in s.txs && s.txs[id].phase.Projecting? && s.history != []
  {
    var phase := s.txs[id].phase;
    Commit(id, phase.since, phase.write, phase.seen, |s.history| - 1)
  }

  function Committed(s: State, id: int, codec: Codec): State
    requires id in s.txs && s.txs[id].phase.Projecting? && s.history != [] && Readable(s.history, s.txs[id].phase.seen)
  {
    var tx, c := s.txs[id], CommitOf(s, id);
    var tables := c.write(s.db.tables);
    State(
      Db(tx.expected + 1, tables,
         s.db.revisions[tx.expected + 1 := NewRevision(tx.expected, Projected(c.write, s.history, c.seen), codec)]),
      s.txs[id := tx.(phase := Finished(true))],
      s.commits + [c],
      s.history + [Version(tx.expected + 1, tables)])
  }

  function Moved(s: State, id: int, phase: Phase): State
    requires id in s.txs
  {
    s.(txs := s.txs[id := s.txs[id].(phase := phase)])
  }

  function Changed(s: State, tables: Tables): State {
    s.(db := s.db.(tables := tables), history := s.history + [Version(s.db.active, tables)])
  }

  /** The transaction has read its projection and nothing is left but to commit. */
  predicate Ready(s: State, id: int) {
    id in s.txs && s.txs[id].phase.Projecting? && s.history != [] && Readable(s.history, s.txs[id].phase.seen)
  }

  function Next(s: State, step: Step, codec: Codec): State {
    match step
    case Begin(id, expected) =>
      if id in s.txs then s else s.(txs := s.txs[id := Tx(expected, Begun)])
    case Load(id) =>
      if id !in s.txs || !s.txs[id].phase.Begun? || s.history == [] then s
      else Moved(s, id, if s.db.active != s.txs[id].expected then Finished(false) else Loaded(|s.history| - 1))
    case Stage(id, mutate) =>
      if id !in s.txs || !s.txs[id].phase.Loaded? || s.txs[id].phase.since >= |s.history| then s
      else
        var result := mutate(s.history[s.txs[id].phase.since..]);
        Moved(s, id, if result.None? then Finished(false) else Projecting(s.txs[id].phase.since, result.value, []))
    case Read(id, v) =>
      if id !in s.txs || !s.txs[id].phase.Projecting? then s
      else
        var phase := s.txs[id].phase;
        if |phase.seen| < STATEMENTS && phase.since <= v < |s.history| then
          Moved(s, id, phase.(seen := phase.seen + [v]))
        else s
    case TryCommit(id, ok) =>
      if !Ready(s, id) then s
      else if Wins(s.db, s.txs[id].expected, ok) then Committed(s, id, codec)
      else Moved(s, id, Finished(false))
    case Outside(change) => Changed(s, change(s.db.tables))
  }

  function Run(s: State, steps: seq<Step>, codec: Codec): State {
    if steps == [] then s else Next(Run(s, steps[..|steps| - 1], codec), steps[|steps| - 1], codec)
  }

  function Initial(t: Tables): State {
    State(Db(0, t, map[]), map[], [], [Version(0, t)])
  }

  /** The last version is the current one, and the active revision never goes back. */
  ghost predicate Tracked(s: State) {
    && s.history != [] && s.history[|s.history| - 1] == Version(s.db.active, s.db.tables)
    && forall i, j :: 0 <= i <= j < |s.history| ==> s.history[i].active <= s.history[j].active
  }

  /** The i-th commit worked on versions of revision i alone: no other commit came between its load and its
      own effect, which is its write on the version it changed. */
  ghost predicate Serialized(c: Commit, i: nat, history: seq<Version>) {
    && c.since <= c.at && c.at + 1 < |history|
    && history[c.since].active == i == history[c.at].active
    && history[c.at + 1] == Version(i + 1, c.write(history[c.at].tables))
    && |c.seen| == STATEMENTS && forall n :: 0 <= n < |c.seen| ==> c.since <= c.seen[n] <= c.at
  }

  /** A revision holds the projection its commit read. */
  ghost predicate Stored(r: Revision, c: Commit, i: nat, history: seq<Version>, codec: Codec) {
    Serialized(c, i, history) && r == NewRevision(i, Projected(c.write, history, c.seen), codec)
  }

  ghost predicate Numbered(revisions: map<int, Revision>, n: nat) {
    forall r :: r in revisions <==> 1 <= r <= n
  }

  /** One revision per won commit, numbered without a gap. */
  ghost predicate Recorded(revisions: map<int, Revision>, commits: seq<Commit>, history: seq<Version>, codec: Codec) {
    && Numbered(revisions, |commits|)
    && (forall i :: 0 <= i < |commits| ==> Stored(revisions[i + 1], commits[i], i, history, codec))
  }

  /** The revisions form a gapless chain up to the active one. */
  ghost predicate Chain(s: State, codec: Codec) {
    && s.db.active == |s.commits|
    && Recorded(s.db.revisions, s.commits, s.history, codec)
  }

  /** An unfinished transaction has seen versions of its expected revision and later ones only. */
  ghost predicate TxSound(history: seq<Version>, tx: Tx) {
    !tx.phase.Begun? && !tx.phase.Finished? ==>
      && tx.phase.since < |history| && history[tx.phase.since].active == tx.expected
      && (tx.phase.Projecting? ==>
            forall n :: 0 <= n < |tx.phase.seen| ==> tx.phase.since <= tx.phase.seen[n] < |history|)
  }

  ghost predicate Sound(s: State) {
    forall id :: id in s.txs ==> TxSound(s.history, s.txs[id])
  }

  /** The winner of an expected revision is the transaction recorded for it, and no other. */
  ghost predicate Winners(s: State) {
    && (forall id :: id in s.txs && s.txs[id].phase == Finished(true) ==>
          0 <= s.txs[id].expected < |s.commits| && s.commits[s.txs[id].expected].tx == id)
    && (forall i :: 0 <= i < |s.commits| ==>
          s.commits[i].tx in s.txs && s.txs[s.commits[i].tx] == Tx(i, Finished(true)))
  }

  ghost predicate Invariant(s: State, codec: Codec) {
    Tracked(s) && Chain(s, codec) && Sound(s) && Winners(s)
  }

  lemma LaterProjected(write: Tables -> Tables, history: seq<Version>, v: Version, seen: seq<nat>)
    requires Readable(history, seen)
    ensures Readable(history + [v], seen) && Projected(write, history + [v], seen) == Projected(write, history, seen)
  {
  }

  lemma LaterStored(r: Revision, c: Commit, i: nat, history: seq<Version>, v: Version, codec: Codec)
    requires Stored(r, c, i, history, codec)
    ensures Stored(r, c, i, history + [v], codec)
  {
    LaterProjected(c.write, history, v, c.seen);
  }

  lemma LaterVersion(revisions: map<int, Revision>, commits: seq<Commit>, history: seq<Version>, v: Version,
                     codec: Codec)
    requires Recorded(revisions, commits, history, codec)
    ensures Recorded(revisions, commits, history + [v], codec)
  {
    forall i | 0 <= i < |commits| ensures Stored(revisions[i + 1], commits[i], i, history + [v], codec) {
      LaterStored(revisions[i + 1], commits[i], i, history, v, codec);
    }
  }

  lemma ChangeKeepsInvariant(s: State, tables: Tables, codec: Codec)
    requires Invariant(s, codec)
    ensures Invariant(Changed(s, tables), codec)
  {
    LaterVersion(s.db.revisions, s.commits, s.history, Version(s.db.active, tables), codec);
  }

  lemma OneMoreCommit(revisions: map<int, Revision>, commits: seq<Commit>, history: seq<Version>, c: Commit,
                      r: Revision,
                      codec: Codec)
    requires Recorded(revisions, commits, history, codec) && Stored(r, c, |commits|, history, codec)
    ensures Recorded(revisions[|commits| + 1 := r], commits + [c], history, codec)
  {
    var more, all := revisions[|commits| + 1 := r], commits + [c];
    assert Numbered(more, |all|);
    forall i | 0 <= i < |all| ensures Stored(more[i + 1], all[i], i, history, codec) {
      if i < |commits| {
        assert all[i] == commits[i];
      }
    }
  }

  lemma WinIsSerialized(s: State, id: int, codec: Codec)
    requires Invariant(s, codec) && Ready(s, id) && s.db.active == s.txs[id].expected
    ensures Serialized(CommitOf(s, id), |s.commits|, Committed(s, id, codec).history)
  {
    assert TxSound(s.history, s.txs[id]);
  }

  lemma WinKeepsChain(s: State, id: int, codec: Codec)
    requires Invariant(s, codec) && Ready(s, id) && Wins(s.db, s.txs[id].expected, true)
    ensures Chain(Committed(s, id, codec), codec)
  {
    var c, t := CommitOf(s, id), Committed(s, id, codec);
    var v := t.history[|s.history|];
    LaterVersion(s.db.revisions, s.commits, s.history, v, codec);
    LaterProjected(c.write, s.history, v, c.seen);
    WinIsSerialized(s, id, codec);
    OneMoreCommit(s.db.revisions, s.commits, t.history, c,
                  NewRevision(s.db.active, Projected(c.write, s.history, c.seen), codec), codec);
  }

  lemma WinKeepsOthers(s: State, id: int, codec: Codec)
    requires Invariant(s, codec) && Ready(s, id) && Wins(s.db, s.txs[id].expected, true)
    ensures Tracked(Committed(s, id, codec)) && Sound(Committed(s, id, codec)) && Winners(Committed(s, id, codec))
  {
    WinKeepsTracked(s, id, codec);
    WinKeepsSound(s, id, codec);
    WinKeepsWinners(s, id, codec);
  }

  lemma WinKeepsTracked(s: State, id: int, codec: Codec)
    requires Tracked(s) && Ready(s, id) && s.db.active == s.txs[id].expected
    ensures Tracked(Committed(s, id, codec))
  {
  }

  lemma WinKeepsSound(s: State, id: int, codec: Codec)
    requires Sound(s) && Ready(s, id)
    ensures Sound(Committed(s, id, codec))
  {
    var t := Committed(s, id, codec);
    forall other | other in t.txs ensures TxSound(t.history, t.txs[other]) {
      if other != id {
        assert TxSound(s.history, s.txs[other]);
      }
    }
  }

  lemma WinKeepsWinners(s: State, id: int, codec: Codec)
    requires Winners(s) && Ready(s, id) && s.db.active == s.txs[id].expected == |s.commits|
    ensures Winners(Committed(s, id, codec))
  {
  }

  lemma CommitKeepsInvariant(s: State, id: int, codec: Codec)
    requires Invariant(s, codec) && Ready(s, id) && Wins(s.db, s.txs[id].expected, true)
    ensures Invariant(Committed(s, id, codec), codec)
  {
    WinKeepsChain(s, id, codec);
    WinKeepsOthers(s, id, codec);
  }

  lemma MoveKeepsWinners(s: State, id: int, tx: Tx)
    requires Winners(s) && (id in s.txs ==> !s.txs[id].phase.Finished?) && tx.phase != Finished(true)
    ensures Winners(s.(txs := s.txs[id := tx]))
  {
    var t := s.(txs := s.txs[id := tx]);
    forall i | 0 <= i < |s.commits|
      ensures s.commits[i].tx in t.txs && t.txs[s.commits[i].tx] == Tx(i, Finished(true)) {
      assert s.commits[i].tx in s.txs;
    }
  }

  /** A transaction may move on or lose without anybody else noticing. */
  lemma MoveKeepsInvariant(s: State, id: int, tx: Tx, codec: Codec)
    requires Invariant(s, codec) && (id in s.txs ==> !s.txs[id].phase.Finished?) && tx.phase != Finished(true)
    requires TxSound(s.history, tx)
    ensures Invariant(s.(txs := s.txs[id := tx]), codec)
  {
    MoveKeepsWinners(s, id, tx);
  }

  lemma StepKeepsInvariant(s: State, step: Step, codec: Codec)
    requires Invariant(s, codec)
    ensures Invariant(Next(s, step, codec), codec)
  {
    match step
    case Begin(id, expected) =>
      if id !in s.txs {
        MoveKeepsInvariant(s, id, Tx(expected, Begun), codec);
      }
    case Load(id) =>
      if id in s.txs && s.txs[id].phase.Begun? {
        MoveKeepsInvariant(s, id, Next(s, step, codec).txs[id], codec);
      }
    case Stage(id, mutate) =>
      if id in s.txs && s.txs[id].phase.Loaded? {
        MoveKeepsInvariant(s, id, Next(s, step, codec).txs[id], codec);
      }
    case Read(id, v) =>
      if id in s.txs && s.txs[id].phase.Projecting? && Next(s, step, codec) != s {
        MoveKeepsInvariant(s, id, Next(s, step, codec).txs[id], codec);
      }
    case TryCommit(id, ok) =>
      if Ready(s, id) {
        if Wins(s.db, s.txs[id].expected, ok) {
          CommitKeepsInvariant(s, id, codec);
        } else {
          MoveKeepsInvariant(s, id, s.txs[id].(phase := Finished(false)), codec);
        }
      }
    case Outside(change) => ChangeKeepsInvariant(s, change(s.db.tables), codec);
  }

  /** A transaction that is ready wins if and only if the database does not fail, nobody has committed since its
      load, and its revision number is free; then the revision advances by one, else nothing changes. */
  lemma WinsExactlyWhen(s: State, id: int, ok: bool, codec: Codec)
    requires Ready(s, id)
    ensures var t, expected := Next(s, TryCommit(id, ok), codec), s.txs[id].expected;
            && id in t.txs && t.txs[id].phase.Finished?
            && (t.txs[id].phase.won <==> ok && s.db.active == expected && expected + 1 !in s.db.revisions)
            && t.db == if t.txs[id].phase.won then
                         Db(expected + 1, s.txs[id].phase.write(s.db.tables), t.db.revisions)
                       else s.db
  {
  }

  /** A commit whose statements all saw the version it changes does what PolicyStore.CommitMutation does. */
  lemma QuietCommit(s: State, id: int, codec: Codec)
    requires Invariant(s, codec) && Ready(s, id) && Wins(s.db, s.txs[id].expected, true)
    requires forall n :: 0 <= n < STATEMENTS ==> s.txs[id].phase.seen[n] == |s.history| - 1
    ensures var t := s.txs[id].phase.write(s.db.tables);
            Committed(s, id, codec).db
            == Db(s.db.active + 1, t, s.db.revisions[s.db.active + 1 := NewRevision(s.db.active, t, codec)])
  {
    OneVersionProjected(s.txs[id].phase.write, s.history, s.txs[id].phase.seen, |s.history| - 1);
  }

  lemma OneVersionProjected(write: Tables -> Tables, history: seq<Version>, seen: seq<nat>, v: nat)
    requires Readable(history, seen) && forall n :: 0 <= n < STATEMENTS ==> seen[n] == v
    ensures v < |history| && Projected(write, history, seen) == write(history[v].tables)
  {
    assert seen[0] == v;
  }

  lemma {:induction false} RunKeepsInvariant(s: State, steps: seq<Step>, codec: Codec)
    requires Invariant(s, codec)
    ensures Invariant(Run(s, steps, codec), codec)
  {
    if steps != [] {
      RunKeepsInvariant(s, steps[..|steps| - 1], codec);
      StepKeepsInvariant(Run(s, steps[..|steps| - 1], codec), steps[|steps| - 1], codec);
    }
  }

  /** For any number of committers interleaved with any writes from outside. */
  lemma RevisionsAreLinear(t0: Tables, steps: seq<Step>, codec: Codec)
    ensures Invariant(Run(Initial(t0), steps, codec), codec)
  {
    RunKeepsInvariant(Initial(t0), steps, codec);
  }

  /** Every version a commit could have looked at, from its load to its effect, is of its own revision. */
  lemma SawOneRevision(t0: Tables, steps: seq<Step>, codec: Codec, i: nat, v: nat)
    requires var s := Run(Initial(t0), steps, codec);
             i < |s.commits| && s.commits[i].since <= v <= s.commits[i].at
    ensures var s := Run(Initial(t0), steps, codec);
            v < |s.history| && s.history[v].active == i
  {
    RevisionsAreLinear(t0, steps, codec);
    var s := Run(Initial(t0), steps, codec);
    assert Serialized(s.commits[i], i, s.history);
  }

  /** At most one committer wins an expected revision. */
  lemma OneWinner(t0: Tables, steps: seq<Step>, codec: Codec, a: int, b: int)
    requires var s := Run(Initial(t0), steps, codec);
             a in s.txs && b in s.txs && s.txs[a].phase == Finished(true) && s.txs[b].phase == Finished(true)
             && s.txs[a].expected == s.txs[b].expected
    ensures a == b
  {
    RevisionsAreLinear(t0, steps, codec);
  }

  /** Only a winning commit and a write from outside touch the database; losers, and everyone before
      committing, change nothing, and a write from outside changes the tables alone. */
  lemma LosersChangeNothing(s: State, step: Step, codec: Codec)
    ensures var t := Next(s, step, codec);
            t.db != s.db ==>
              if step.Outside? then t.db == s.db.(tables := step.change(s.db.tables))
              else step.TryCommit? && Ready(s, step.tx) && t.txs[step.tx].phase == Finished(true)
                   && t.db.active == s.db.active + 1
  {
  }

  /** The uniqueness of the revision number never refuses a commit that the revision check accepts. */
  lemma RevisionNumberIsFree(t0: Tables, steps: seq<Step>, codec: Codec)
    ensures var db := Run(Initial(t0), steps, codec).db; db.active + 1 !in db.revisions
  {
    RevisionsAreLinear(t0, steps, codec);
  }

  // ----- reading the active policy -----

  datatype PolicyState = PolicyState(activeRevision: int, payload: Payload)

  datatype ReadError = MissingRevision | HashMismatch | Undecodable | UnsupportedSchema

  datatype ReadResult = Ok(state: PolicyState) | Failed(error: ReadError)

  function PolicyGet(db: Db, codec: Codec): ReadResult {
    if db.active == 0 then Ok(PolicyState(0, Projection(db.tables)))
    else if db.active !in db.revisions then Failed(MissingRevision)
    else
      var r := db.revisions[db.active];
      if r.payloadSha != codec.digest(r.payloadJson) then Failed(HashMismatch)
      else
        var decoded := codec.decode(r.payloadJson);
        if decoded.None? then Failed(Undecodable)
        else if decoded.value.schemaVersion != 1 then Failed(UnsupportedSchema)
        else Ok(PolicyState(db.active, Normalize(decoded.value)))
  }

  lemma NormalizeIsIdempotent(p: Payload)
    ensures Normalize(Normalize(p)) == Normalize(p)
  {
  }

  // ----- one transaction run to its end -----

  datatype CommitError = Conflict(expected: int, actual: int) | Rejected | DatabaseError

  datatype CommitResult = Won(state: PolicyState) | Lost(error: CommitError)

  lemma NewRevisionReads(expected: nat, t: Tables, revisions: map<int, Revision>, codec: Codec)
    requires Faithful(codec)
    ensures PolicyGet(Db(expected + 1, t, revisions[expected + 1 := NewRevision(expected, t, codec)]), codec)
            == Ok(PolicyState(expected + 1, Projection(t)))
  {
    assert codec.decode(codec.encode(Projection(t))) == Some(Projection(t));
    NormalizeIsIdempotent(Payload(1, ConfigFromModel(t.config), Channels(t.profiles, t.overrides), t.groups, t.presets));
  }

  class PolicyStore {
    var active: int
    var tables: Tables
    var revisions: map<int, Revision>

    ghost function Model(): Db
      reads this
    {
      Db(active, tables, revisions)
    }

    constructor (t: Tables)
      ensures Model() == Db(0, t, map[])
    {
      active, tables, revisions := 0, t, map[];
    }

    /** commitProtocolPolicyMutation with nobody interfering; `committed` is the outcome of the database. */
    method CommitMutation(expected: int, mutate: Tables -> Option<Tables>, codec: Codec, committed: bool)
      returns (result: CommitResult)
      requires Faithful(codec) && active >= 0
      requires forall r :: r in revisions <==> 1 <= r <= active
      modifies this
      ensures forall r :: r in revisions <==> 1 <= r <= active
      ensures result.Won? <==> old(active) == expected && mutate(old(tables)).Some? && committed
      ensures result.Lost? ==> Model() == old(Model())
      ensures old(active) != expected ==> result == Lost(Conflict(expected, old(active)))
      ensures result.Won? ==>
                var t := mutate(old(tables)).value;
                && Model() == Db(expected + 1, t, old(revisions)[expected + 1 := NewRevision(expected, t, codec)])
                && result.state == PolicyState(expected + 1, Projection(t))
                && PolicyGet(Model(), codec) == Ok(result.state)
      ensures result.Won? ==> Holds(result.state.payload, mutate(old(tables)).value)
    {
      if active != expected {
        return Lost(Conflict(expected, active));
      }
      var staged := mutate(tables);
      if staged.None? {
        return Lost(Rejected);
      }
      var channels := BuildChannels(staged.value.profiles, staged.value.overrides);
      var config := ConfigFromModel(staged.value.config);
      var payload := Normalize(Payload(1, config, channels, staged.value.groups, staged.value.presets));
      var json := codec.encode(payload);
      var revision := Revision(expected + 1, expected, payload.schemaVersion, json, codec.digest(json));
      if !committed {
        return Lost(DatabaseError);
      }
      assert expected + 1 !in revisions;
      revisions := revisions[expected + 1 := revision];
      tables := staged.value;
      active := expected + 1;
      NewRevisionReads(expected, tables, old(revisions), codec);
      ProjectionHolds(tables);
      return Won(PolicyState(active, payload));
    }
  }
}
