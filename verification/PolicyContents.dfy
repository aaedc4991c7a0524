/** What stored revisions and policy reads contain, in the fields of the tables and of the revision rows. */
module PolicyContents {
  import opened PolicyRevisions
  import opened PolicyReads
  import opened Selecting
  import opened Wrappers

  // ----- stored revisions -----

  /** The row of revision r: numbered r, following r - 1, with the digest of a payload that holds the policy its
      commit read. */
  lemma RevisionRow(t0: Tables, steps: seq<Step>, codec: Codec, r: nat)
    requires Faithful(codec) && 1 <= r <= Run(Initial(t0), steps, codec).db.active
    ensures var s := Run(Initial(t0), steps, codec);
            && r in s.db.revisions && r <= |s.commits| && Readable(s.history, s.commits[r - 1].seen)
            && var row, c := s.db.revisions[r], s.commits[r - 1];
               && row.revision == r && row.parent == r - 1 && row.schemaVersion == 1
               && row.payloadSha == codec.digest(row.payloadJson)
               && codec.decode(row.payloadJson).Some?
               && Holds(codec.decode(row.payloadJson).value, Projected(c.write, s.history, c.seen))
  {
    RevisionsAreLinear(t0, steps, codec);
    var s := Run(Initial(t0), steps, codec);
    var c := s.commits[r - 1];
    assert Stored(s.db.revisions[r - 1 + 1], c, r - 1, s.history, codec);
    var t := Projected(c.write, s.history, c.seen);
    ProjectionHolds(t);
    assert codec.decode(codec.encode(Projection(t))) == Some(Projection(t));
  }

  /** A read succeeds and returns the active revision with the policy its commit read, or, at revision 0, that
      of the tables. */
  ghost predicate ReadsPolicy(s: State, codec: Codec) {
    && PolicyGet(s.db, codec).Ok?
    && var state := PolicyGet(s.db, codec).state;
       && state.activeRevision == s.db.active == |s.commits|
       && (s.db.active == 0 ==> Holds(state.payload, s.db.tables))
       && (s.db.active > 0 ==>
             && Readable(s.history, s.commits[s.db.active - 1].seen)
             && var c := s.commits[s.db.active - 1];
                Holds(state.payload, Projected(c.write, s.history, c.seen)))
  }

  /** In every reachable state. */
  lemma ReadBackHolds(t0: Tables, steps: seq<Step>, codec: Codec)
    requires Faithful(codec)
    ensures ReadsPolicy(Run(Initial(t0), steps, codec), codec)
  {
    ReadBackIsProjection(t0, steps, codec);
    ContentIsRead(Run(Initial(t0), steps, codec), codec);
  }

  lemma ContentIsRead(s: State, codec: Codec)
    requires 0 <= s.db.active == |s.commits|
    requires s.db.active > 0 ==> Readable(s.history, s.commits[s.db.active - 1].seen)
    requires PolicyGet(s.db, codec) == Ok(PolicyState(s.db.active, Content(s, s.db.active)))
    ensures ReadsPolicy(s, codec)
  {
    ContentHolds(s, s.db.active);
  }

  lemma ContentHolds(s: State, r: nat)
    requires r <= |s.commits| && (r > 0 ==> Readable(s.history, s.commits[r - 1].seen))
    ensures r == 0 ==> Holds(Content(s, r), s.db.tables)
    ensures r > 0 ==> Holds(Content(s, r), Projected(s.commits[r - 1].write, s.history, s.commits[r - 1].seen))
  {
    if r == 0 {
      ProjectionHolds(s.db.tables);
    } else {
      ProjectionHolds(Projected(s.commits[r - 1].write, s.history, s.commits[r - 1].seen));
    }
  }

  // ----- reading any database -----

  /** A stored payload is returned as it is, but for a missing allowlist, which is empty, and an empty ranking
      order, which is the default one. */
  predicate Returned(p: Payload, q: Payload) {
    && q.schemaVersion == p.schemaVersion && q.channels == p.channels && q.groups == p.groups && q.presets == p.presets
    && q.config == p.config.(allowlist := q.config.allowlist, rankingOrder := q.config.rankingOrder)
    && q.config.allowlist == Some(if p.config.allowlist.Some? then p.config.allowlist.value else [])
    && (|p.config.rankingOrder| > 0 ==> q.config.rankingOrder == p.config.rankingOrder)
    && (|p.config.rankingOrder| == 0 ==>
          q.config.rankingOrder == ["ingress", "group_prefer", "evidence", "key_model_prefer", "channel_model_prefer",
                                    "channel_type", "metadata_hint"])
  }

  /** A damaged revision is refused for the first thing wrong with it, and any other is returned. */
  lemma ReadMeans(db: Db, codec: Codec)
    requires db.active > 0
    ensures db.active !in db.revisions ==> PolicyGet(db, codec) == Failed(MissingRevision)
    ensures db.active in db.revisions ==>
              var row, got := db.revisions[db.active], PolicyGet(db, codec);
              var p := codec.decode(row.payloadJson);
              if codec.digest(row.payloadJson) != row.payloadSha then got == Failed(HashMismatch)
              else if p.None? then got == Failed(Undecodable)
              else if p.value.schemaVersion != 1 then got == Failed(UnsupportedSchema)
              else got.Ok? && got.state.activeRevision == db.active && Returned(p.value, got.state.payload)
  {
  }

  // ----- the channels -----

  /** A listed channel has exactly its own rows, in query order, and a channel with a row is listed. */
  lemma ChannelRows(profiles: seq<Profile>, overrides: seq<Override>, id: int)
    ensures var channels := Channels(profiles, overrides);
            && (forall i :: 0 <= i < |channels| && channels[i].channelId == id ==>
                  && channels[i].profiles == Select(profiles, (p: Profile) => p.channelId == id)
                  && channels[i].overrides == Select(overrides, (o: Override) => o.channelId == id))
            && ((exists p :: p in profiles && p.channelId == id)
                || (exists o :: o in overrides && o.channelId == id) ==>
                  exists i :: 0 <= i < |channels| && channels[i].channelId == id)
  {
    ChannelsAreGrouped(profiles, overrides);
    SelectAlike(profiles, ProfileOf(id), (p: Profile) => p.channelId == id);
    SelectAlike(overrides, OverrideOf(id), (o: Override) => o.channelId == id);
    SelectElements(profiles, ProfileOf(id));
    SelectElements(overrides, OverrideOf(id));
    var channels := Channels(profiles, overrides);
    forall i | 0 <= i < |channels| && channels[i].channelId == id
      ensures channels[i].profiles == ProfilesOf(profiles, id) && channels[i].overrides == OverridesOf(overrides, id)
    {
      assert Own(channels[i], profiles, overrides);
    }
    if (exists p :: p in profiles && p.channelId == id) || (exists o :: o in overrides && o.channelId == id) {
      assert ProfilesOf(profiles, id) != [] || OverridesOf(overrides, id) != [];
      assert HasChannel(channels, id);
      var i :| 0 <= i < |channels| && channels[i].channelId == id;
    }
  }

  /** The channel ids of the rows in query order, profiles before overrides. */
  function RowIds(profiles: seq<Profile>, overrides: seq<Override>): seq<int> {
    seq(|profiles|, i requires 0 <= i < |profiles| => profiles[i].channelId)
    + seq(|overrides|, i requires 0 <= i < |overrides| => overrides[i].channelId)
  }

  function AddId(ids: seq<int>, id: int): seq<int> {
    if id in ids then ids else ids + [id]
  }

  /** Each id once, where it first appears. */
  function FirstAppearances(ids: seq<int>): seq<int> {
    if ids == [] then [] else AddId(FirstAppearances(ids[..|ids| - 1]), ids[|ids| - 1])
  }

  function ChannelIds(channels: seq<ChannelPolicy>): seq<int> {
    seq(|channels|, i requires 0 <= i < |channels| => channels[i].channelId)
  }

  lemma EnsuredIds(channels: seq<ChannelPolicy>, id: int)
    ensures ChannelIds(Ensured(channels, id)) == AddId(ChannelIds(channels), id)
  {
    var i := Position(channels, id);
    if i < |channels| {
      assert ChannelIds(channels)[i] == id;
    } else {
      forall j | 0 <= j < |channels| ensures ChannelIds(channels)[j] != id {
        assert channels[j] in channels;
      }
    }
  }

  lemma UpdateKeepsIds(channels: seq<ChannelPolicy>, i: nat, c: ChannelPolicy)
    requires i < |channels| && c.channelId == channels[i].channelId
    ensures ChannelIds(channels[i := c]) == ChannelIds(channels)
  {
  }

  lemma PositionInEnsured(channels: seq<ChannelPolicy>, id: int)
    ensures var c, i := Ensured(channels, id), Position(channels, id); i < |c| && c[i].channelId == id
  {
  }

  lemma RowAddsId(channels: seq<ChannelPolicy>, p: Profile, o: Override)
    ensures ChannelIds(WithProfile(channels, p)) == AddId(ChannelIds(channels), p.channelId)
    ensures ChannelIds(WithOverride(channels, o)) == AddId(ChannelIds(channels), o.channelId)
  {
    PositionInEnsured(channels, p.channelId);
    PositionInEnsured(channels, o.channelId);
    EnsuredIds(channels, p.channelId);
    EnsuredIds(channels, o.channelId);
    var a, i := Ensured(channels, p.channelId), Position(channels, p.channelId);
    UpdateKeepsIds(a, i, a[i].(profiles := a[i].profiles + [p]));
    var b, j := Ensured(channels, o.channelId), Position(channels, o.channelId);
    UpdateKeepsIds(b, j, b[j].(overrides := b[j].overrides + [o]));
  }

  lemma RowIdsMore(profiles: seq<Profile>, overrides: seq<Override>)
    ensures overrides != [] ==>
              var before, last := RowIds(profiles, overrides[..|overrides| - 1]), overrides[|overrides| - 1].channelId;
              FirstAppearances(RowIds(profiles, overrides)) == AddId(FirstAppearances(before), last)
    ensures overrides == [] && profiles != [] ==>
              var before, last := RowIds(profiles[..|profiles| - 1], []), profiles[|profiles| - 1].channelId;
              FirstAppearances(RowIds(profiles, overrides)) == AddId(FirstAppearances(before), last)
  {
    var ids := RowIds(profiles, overrides);
    if overrides != [] {
      assert ids[..|ids| - 1] == RowIds(profiles, overrides[..|overrides| - 1]);
    } else if profiles != [] {
      assert ids[..|ids| - 1] == RowIds(profiles[..|profiles| - 1], []);
    }
  }

  /** The projection lists the channels in the order in which their rows first appear. */
  lemma {:induction false} ChannelsInOrder(profiles: seq<Profile>, overrides: seq<Override>)
    ensures ChannelIds(Channels(profiles, overrides)) == FirstAppearances(RowIds(profiles, overrides))
    decreases |profiles| + |overrides|
  {
    RowIdsMore(profiles, overrides);
    if overrides != [] {
      var before, o := overrides[..|overrides| - 1], overrides[|overrides| - 1];
      ChannelsInOrder(profiles, before);
      RowAddsId(Channels(profiles, before), Profile(0, "", false, ""), o);
    } else if profiles != [] {
      var before, p := profiles[..|profiles| - 1], profiles[|profiles| - 1];
      ChannelsInOrder(before, []);
      RowAddsId(Channels(before, []), p, Override(0, 0, "", "", [], false));
    }
  }
}
