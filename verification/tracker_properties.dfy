/** Properties of whole runs of voice-state updates: per-member accumulation,
    independence of members, no double counting, and the weekly clear. */
module TrackerProperties {
  import opened Wrappers
  import opened Floor
  import opened Tracker

  /** One visit of a member to voice: a join into one channel and the
      matching leave, possibly from another channel after moves. A join makes
      no store call, so its store outcome `joinStore` is immaterial. */
  datatype Visit = Visit(
    joinedInto: ChannelId, joinedAt: Instant, joinStore: StoreIo,
    leftFrom: ChannelId, leftAt: Instant)

  /** The updates a member produces by joining and leaving once per visit,
      with the store answering every leave's read. */
  function VisitUpdates(u: UserId, vs: seq<Visit>): (es: seq<VoiceUpdate>)
    ensures |es| == 2 * |vs|
    ensures forall i | 0 <= i < |es| :: es[i].user == u
    decreases |vs|
  {
    if vs == [] then []
    else
      [VoiceUpdate(u, None, Some(vs[0].joinedInto), vs[0].joinedAt, vs[0].joinStore),
       VoiceUpdate(u, Some(vs[0].leftFrom), None, vs[0].leftAt, Healthy)]
      + VisitUpdates(u, vs[1..])
  }

  /** The seconds the visits are worth, each floored on its own. */
  function VisitSeconds(vs: seq<Visit>): int
    decreases |vs|
  {
    if vs == [] then 0 else Duration(vs[0].joinedAt, vs[0].leftAt) + VisitSeconds(vs[1..])
  }

  lemma RunTwoThenRest(s: State, a: VoiceUpdate, b: VoiceUpdate, rest: seq<VoiceUpdate>)
    ensures Run(s, [a, b] + rest) == Run(Step(Step(s, a), b), rest)
  {
    assert ([a, b] + rest)[1..] == [b] + rest;
    assert ([b] + rest)[1..] == rest;
  }

  /** A member's non-overlapping visits add up: the run ends with no open
      session for them, their total raised by the floored length of every
      visit, and every other member untouched. Join instants must not be 0,
      because the leave handler reads a join at 0 as no join. */
  lemma {:induction false} Accumulation(s: State, u: UserId, vs: seq<Visit>)
    requires forall i | 0 <= i < |vs| :: vs[i].joinedAt != 0
    ensures var r := Run(s, VisitUpdates(u, vs));
      && r.sessions - {u} == s.sessions - {u}
      && r.totals - {u} == s.totals - {u}
      && (vs == [] ==> r == s)
      && (vs != [] ==>
            u !in r.sessions && u in r.totals
            && r.totals[u] == Stored(s.totals, u) + VisitSeconds(vs))
    decreases |vs|
  {
    if vs != [] {
      var join := VoiceUpdate(u, None, Some(vs[0].joinedInto), vs[0].joinedAt, vs[0].joinStore);
      var leave := VoiceUpdate(u, Some(vs[0].leftFrom), None, vs[0].leftAt, Healthy);
      RunTwoThenRest(s, join, leave, VisitUpdates(u, vs[1..]));
      var s1 := Step(s, join);
      var s2 := Step(s1, leave);
      assert HasJoin(s1, u);
      var d := Duration(vs[0].joinedAt, vs[0].leftAt);
      FloorDivUnique(vs[0].leftAt - vs[0].joinedAt, 1000, s2.totals[u] - Stored(s.totals, u));
      assert s2.totals[u] == Stored(s.totals, u) + d;
      Accumulation(s2, u, vs[1..]);
    }
  }

  /** From a state where the member has no row, the visits leave exactly
      their total as the member's row. */
  lemma AccumulationFromNoRow(s: State, u: UserId, vs: seq<Visit>)
    requires u !in s.totals
    requires vs != []
    requires forall i | 0 <= i < |vs| :: vs[i].joinedAt != 0
    ensures var r := Run(s, VisitUpdates(u, vs));
      u in r.totals && r.totals[u] == VisitSeconds(vs)
  {
    Accumulation(s, u, vs);
  }

  /** From the bot's start, with no session and an empty table, one member's
      visits leave a table holding just that member's row with the visits'
      seconds, and no open session. */
  lemma AccumulationFromInitial(u: UserId, vs: seq<Visit>)
    requires vs != []
    requires forall i | 0 <= i < |vs| :: vs[i].joinedAt != 0
    ensures var r := Run(Initial, VisitUpdates(u, vs));
      r.sessions == map[] && r.totals == map[u := VisitSeconds(vs)]
  {
    Accumulation(Initial, u, vs);
    var r := Run(Initial, VisitUpdates(u, vs));
    assert r.sessions - {u} == map[];
    assert r.sessions.Keys == {} by {
      assert u !in r.sessions;
      assert r.sessions.Keys == (r.sessions - {u}).Keys;
    }
    assert r.totals - {u} == map[];
    assert r.totals.Keys == {u} by {
      assert r.totals.Keys - {u} == (r.totals - {u}).Keys;
    }
  }

  /** What the model knows about one member: the open session, if any, and
      the row, if any. */
  datatype MemberView = MemberView(session: Option<Instant>, total: Option<int>)

  function View(s: State, u: UserId): MemberView {
    MemberView(
      if u in s.sessions then Some(s.sessions[u]) else None,
      if u in s.totals then Some(s.totals[u]) else None)
  }

  /** The updates of one member, in their original order. */
  function UpdatesOf(es: seq<VoiceUpdate>, u: UserId): (fs: seq<VoiceUpdate>)
    ensures |fs| <= |es|
    ensures forall i | 0 <= i < |fs| :: fs[i].user == u
    decreases |es|
  {
    if es == [] then []
    else if es[0].user == u then [es[0]] + UpdatesOf(es[1..], u)
    else UpdatesOf(es[1..], u)
  }

  /** An update never changes what is known about a different member. */
  lemma StepIsolated(s: State, e: VoiceUpdate, v: UserId)
    requires e.user != v
    ensures View(Step(s, e), v) == View(s, v)
  {
  }

  /** What an update does to its own member depends only on that member. */
  lemma StepLocal(s1: State, s2: State, e: VoiceUpdate)
    requires View(s1, e.user) == View(s2, e.user)
    ensures View(Step(s1, e), e.user) == View(Step(s2, e), e.user)
  {
  }

  /** Members are independent: interleaving other members' updates, in any
      order, changes nothing about a member compared with a run of that
      member's updates alone, from any state that agrees on that member. */
  lemma {:induction false} MembersIndependent(s1: State, s2: State, es: seq<VoiceUpdate>, u: UserId)
    requires View(s1, u) == View(s2, u)
    ensures View(Run(s1, es), u) == View(Run(s2, UpdatesOf(es, u)), u)
    decreases |es|
  {
    if es != [] {
      if es[0].user == u {
        StepLocal(s1, s2, es[0]);
        assert ([es[0]] + UpdatesOf(es[1..], u))[1..] == UpdatesOf(es[1..], u);
        MembersIndependent(Step(s1, es[0]), Step(s2, es[0]), es[1..], u);
      } else {
        StepIsolated(s1, es[0], u);
        MembersIndependent(Step(s1, es[0]), s2, es[1..], u);
      }
    }
  }

  /** The updates that start or end a session: those the handler does not
      ignore as a move, a mute or a deafen. */
  function WithoutOther(es: seq<VoiceUpdate>): (fs: seq<VoiceUpdate>)
    ensures |fs| <= |es|
    ensures forall i | 0 <= i < |fs| :: Classify(fs[i]) != Other
    decreases |es|
  {
    if es == [] then []
    else if Classify(es[0]) == Other then WithoutOther(es[1..])
    else [es[0]] + WithoutOther(es[1..])
  }

  /** Moves between channels and mute, deafen or stream toggles never change
      the state, so a run is the run of its joins and leaves alone. */
  lemma {:induction false} RunSkipsOther(s: State, es: seq<VoiceUpdate>)
    ensures Run(s, es) == Run(s, WithoutOther(es))
    decreases |es|
  {
    if es != [] {
      RunSkipsOther(Step(s, es[0]), es[1..]);
      if Classify(es[0]) != Other {
        assert ([es[0]] + WithoutOther(es[1..]))[1..] == WithoutOther(es[1..]);
      }
    }
  }

  /** Accumulation survives interleaving: whatever other members do, and
      however often the member moves or toggles mute in between, a member
      whose joins and leaves are non-overlapping visits ends with the sum of
      those visits added to their row. */
  lemma {:induction false} InterleavedAccumulation(s: State, es: seq<VoiceUpdate>, u: UserId, vs: seq<Visit>)
    requires UpdatesOf(WithoutOther(es), u) == VisitUpdates(u, vs)
    requires vs != []
    requires forall i | 0 <= i < |vs| :: vs[i].joinedAt != 0
    ensures var r := Run(s, es);
      u !in r.sessions && u in r.totals
      && r.totals[u] == Stored(s.totals, u) + VisitSeconds(vs)
  {
    RunSkipsOther(s, es);
    MembersIndependent(s, s, WithoutOther(es), u);
    Accumulation(s, u, vs);
  }

  /** No double counting: once a leave has closed a session, a repeated leave
      for the same member, at any time and whatever the store does, is
      ignored. */
  lemma RepeatedLeaveIgnored(s: State, first: VoiceUpdate, again: VoiceUpdate)
    requires Classify(first) == Left && Classify(again) == Left
    requires again.user == first.user
    requires HasJoin(s, first.user)
    ensures Step(Step(s, first), again) == Step(s, first)
  {
  }

  /** Clearing the table again after a successful clear changes nothing,
      whether the second clear succeeds or fails. */
  lemma ResetIdempotent(s: State, second: bool)
    ensures Reset(Reset(s, true), second) == Reset(s, true)
  {
  }
}
