/** The event handlers of index.js routed over one state: voice-state updates
    (index.js:36-67), the weekly cron clear (index.js:28-33) and chat messages,
    of which only the exact text `!voicetime` is answered (index.js:69-94). */
module Bot {
  import opened Wrappers
  import opened Tracker
  import opened Report

  datatype Event =
    | VoiceStateUpdate(update: VoiceUpdate)
      /** The cron tick; `deleted` is whether `DELETE FROM voice_time` succeeded. */
    | WeeklyReset(deleted: bool)
      /** A chat message; `queryFails` is whether the ordered query errs, and
          `lookup` is what `client.users.fetch` resolves each member to. */
    | MessageCreate(content: string, queryFails: bool, lookup: UserId -> Option<string>)

  const Command: string := "!voicetime"

  /** Handles one event: the new state and the text sent back, if any. */
  method Handle(s: State, e: Event) returns (r: State, reply: Option<string>)
    ensures e.VoiceStateUpdate? ==> r == Step(s, e.update) && reply == None
    ensures e.WeeklyReset? ==> r == Reset(s, e.deleted) && reply == None
    // messages never change the state; only the exact command gets an answer
    ensures e.MessageCreate? ==> r == s
    ensures e.MessageCreate? ==> (reply.Some? <==> e.content == Command)
    ensures e.MessageCreate? && e.content == Command && e.queryFails ==>
      reply == Some(ErrorText)
    ensures e.MessageCreate? && e.content == Command && !e.queryFails ==>
      reply.Some? && (reply.value == NoDataText <==> s.totals == map[])
    ensures e.MessageCreate? && e.content == Command && !e.queryFails && s.totals != map[] ==>
      exists rows :: IsOrderedListing(rows, s.totals)
        && reply == Some(Render(BuildReport(Success(rows), e.lookup)))
  {
    match e
    case VoiceStateUpdate(update) =>
      r, reply := Step(s, update), None;
    case WeeklyReset(deleted) =>
      r, reply := Reset(s, deleted), None;
    case MessageCreate(content, queryFails, lookup) =>
      r := s;
      if content != Command {
        reply := None;
      } else if queryFails {
        reply := Some(Render(BuildReport(Failure(StoreError), lookup)));
      } else {
        var rows := SelectByTotalDesc(s.totals);
        ReportOfTable(s.totals, rows, lookup);
        reply := Some(Render(BuildReport(Success(rows), lookup)));
      }
  }
}
