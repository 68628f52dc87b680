/** The voice-time state machine of index.js: an in-memory map from member to
    the instant they joined (`userJoinTimes`, index.js:18) and the `voice_time`
    table from member to accumulated seconds (index.js:22-25), driven by
    voice-state updates (index.js:36-67) and the weekly clear (index.js:28-33). */
module Tracker {
  import opened Wrappers
  import opened Floor

  /** Discord user and channel ids are snowflake strings. */
  type UserId = string
  type ChannelId = string

  /** `Date.now()`: whole milliseconds since the Unix epoch. */
  type Instant = int

  /** sessions: when each connected member joined; totals: the rows of the
      `voice_time` table, `user_id` to `total_seconds`. */
  datatype State = State(sessions: map<UserId, Instant>, totals: map<UserId, int>)

  /** How the read of the member's row that a leave triggers turns out: it
      can fail, and then the handler logs the error and stops (index.js:55-56).
      The upsert that follows a successful read is taken to succeed. */
  datatype StoreIo = Healthy | ReadFails

  /** One `voiceStateUpdate`: the member, the channel before and after, the
      clock reading when the handler runs, and how the store behaves. */
  datatype VoiceUpdate = VoiceUpdate(
    user: UserId,
    oldChannel: Option<ChannelId>,
    newChannel: Option<ChannelId>,
    now: Instant,
    store: StoreIo)

  /** The three cases the handler distinguishes (index.js:42, 48). */
  datatype Transition = Joined | Left | Other

  function Classify(e: VoiceUpdate): (k: Transition)
    ensures k == Joined <==> e.oldChannel.None? && e.newChannel.Some?
    ensures k == Left <==> e.oldChannel.Some? && e.newChannel.None?
  {
    if e.oldChannel.None? && e.newChannel.Some? then Joined
    else if e.oldChannel.Some? && e.newChannel.None? then Left
    else Other
  }

  const Initial: State := State(map[], map[])

  /** Whole seconds between two instants, floored (index.js:52). Not clamped:
      a clock that went backwards gives a negative duration. */
  function Duration(joinedAt: Instant, now: Instant): (d: int)
    ensures IsFloorDiv(now - joinedAt, 1000, d)
    ensures now >= joinedAt ==> d >= 0
  {
    (now - joinedAt) / 1000
  }

  /** The member's current `total_seconds`, or 0 when there is no row
      (`row ? row.total_seconds + duration : duration`). */
  function Stored(t: map<UserId, int>, u: UserId): int {
    if u in t then t[u] else 0
  }

  /** The leave handler goes on only when `userJoinTimes.get(userId)` is
      truthy: an entry exists and is not the instant 0 (index.js:49-50). */
  predicate HasJoin(s: State, u: UserId) {
    u in s.sessions && s.sessions[u] != 0
  }

  /** The `voiceStateUpdate` handler as one atomic step. */
  function Step(s: State, e: VoiceUpdate): (r: State)
    // no event touches another member's session or row
    ensures r.sessions - {e.user} == s.sessions - {e.user}
    ensures r.totals - {e.user} == s.totals - {e.user}
    // a join (re)starts the session at `now` and leaves every total alone
    ensures Classify(e) == Joined ==>
      e.user in r.sessions && r.sessions[e.user] == e.now && r.totals == s.totals
    // a move between channels, or an update with no channel either side, does nothing
    ensures Classify(e) == Other ==> r == s
    // a leave without a recorded join does nothing
    ensures Classify(e) == Left && !HasJoin(s, e.user) ==> r == s
    // a leave with a recorded join always ends the session ...
    ensures Classify(e) == Left && HasJoin(s, e.user) ==> e.user !in r.sessions
    // ... adds the floored seconds since the join when the store works ...
    ensures Classify(e) == Left && HasJoin(s, e.user) && e.store == Healthy ==>
      e.user in r.totals &&
      IsFloorDiv(e.now - s.sessions[e.user], 1000, r.totals[e.user] - Stored(s.totals, e.user))
    // ... and loses the session's time when the read fails
    ensures Classify(e) == Left && HasJoin(s, e.user) && e.store == ReadFails ==>
      r.totals == s.totals
  {
    var u := e.user;
    match Classify(e)
    case Joined =>
      State(s.sessions[u := e.now], s.totals)
    case Left =>
      if !HasJoin(s, u) then s
      else
        var duration := Duration(s.sessions[u], e.now);
        var sessions := s.sessions - {u};
        if e.store == ReadFails then State(sessions, s.totals)
        else State(sessions, s.totals[u := Stored(s.totals, u) + duration])
    case Other =>
      s
  }

  /** The updates applied one after the other. */
  function Run(s: State, es: seq<VoiceUpdate>): State
    decreases |es|
  {
    if es == [] then s else Run(Step(s, es[0]), es[1..])
  }

  /** The weekly `DELETE FROM voice_time` (index.js:28-33). When the delete
      fails the error is logged and the table keeps its rows. */
  function Reset(s: State, deleted: bool): (r: State)
    ensures r.sessions == s.sessions
    ensures deleted ==> r.totals == map[]
    ensures !deleted ==> r.totals == s.totals
  {
    if deleted then State(s.sessions, map[]) else s
  }
}
