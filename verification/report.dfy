/** The `!voicetime` report (index.js:69-94): the table's rows by descending
    total, each resolved to a username, rendered one line per resolved row
    under a fixed header. */
module Report {
  import opened Wrappers
  import opened Tracker
  import opened TimeFormat

  /** One row of `SELECT user_id, total_seconds FROM voice_time`. */
  datatype Row = Row(user: UserId, seconds: int)

  /** The store could not answer the query. */
  datatype StoreError = StoreError

  /** One report line: the member it is about, the username the directory
      gave for them, and their time. */
  datatype Line = Line(user: UserId, name: string, time: TimeParts)

  /** What the bot answers: the error message, the no-data message, or the
      header followed by the lines. */
  datatype Reply = FetchFailed | NoData | Ranking(lines: seq<Line>)

  predicate SortedDesc(rows: seq<Row>) {
    forall i, j | 0 <= i < j < |rows| :: rows[i].seconds >= rows[j].seconds
  }

  predicate DistinctUsers(rows: seq<Row>) {
    forall i, j | 0 <= i < j < |rows| :: rows[i].user != rows[j].user
  }

  function Users(rows: seq<Row>): set<UserId> {
    set x | x in rows :: x.user
  }

  /** rows is what `SELECT user_id, total_seconds FROM voice_time ORDER BY
      total_seconds DESC` returns for table t: every row of t exactly once,
      highest total first. The order among equal totals is left open. */
  predicate IsOrderedListing(rows: seq<Row>, t: map<UserId, int>) {
    && SortedDesc(rows)
    && DistinctUsers(rows)
    && Users(rows) == t.Keys
    && (forall x | x in rows :: x.user in t && t[x.user] == x.seconds)
  }

  lemma SortedCons(a: Row, tail: seq<Row>)
    requires SortedDesc(tail)
    requires forall x | x in tail :: x.seconds <= a.seconds
    ensures SortedDesc([a] + tail)
  {
    var rows := [a] + tail;
    forall i, j | 0 <= i < j < |rows| ensures rows[i].seconds >= rows[j].seconds {
      assert rows[j] == tail[j - 1];
      if i > 0 { assert rows[i] == tail[i - 1]; }
    }
  }

  lemma DistinctCons(a: Row, tail: seq<Row>)
    requires DistinctUsers(tail)
    requires a.user !in Users(tail)
    ensures DistinctUsers([a] + tail)
  {
    var rows := [a] + tail;
    forall i, j | 0 <= i < j < |rows| ensures rows[i].user != rows[j].user {
      assert rows[j] == tail[j - 1];
      if i > 0 { assert rows[i] == tail[i - 1]; }
    }
  }

  lemma DistinctTail(rows: seq<Row>)
    requires rows != [] && DistinctUsers(rows)
    ensures DistinctUsers(rows[1..])
    ensures rows[0].user !in Users(rows[1..])
  {
    forall x | x in rows[1..] ensures x.user != rows[0].user {
      var k :| 0 <= k < |rows[1..]| && rows[1..][k] == x;
      assert rows[k + 1] == x;
    }
  }

  lemma UsersEmpty(rows: seq<Row>)
    ensures Users(rows) == {} <==> rows == []
  {
    if rows != [] {
      assert rows[0] in rows;
      assert rows[0].user in Users(rows);
    }
  }

  /** Places a row before the first row with a smaller total. */
  function Insert(rows: seq<Row>, r: Row): (res: seq<Row>)
    requires SortedDesc(rows)
    ensures SortedDesc(res)
    ensures |res| == |rows| + 1
    ensures forall x :: x in res <==> x == r || x in rows
    ensures multiset(res) == multiset(rows) + multiset{r}
    decreases |rows|
  {
    if rows == [] || r.seconds >= rows[0].seconds then
      SortedCons(r, rows);
      [r] + rows
    else
      var tail := Insert(rows[1..], r);
      SortedCons(rows[0], tail);
      assert rows == [rows[0]] + rows[1..];
      [rows[0]] + tail
  }

  /** Inserting a member not yet listed keeps every member listed once. */
  lemma {:induction false} InsertDistinct(rows: seq<Row>, r: Row)
    requires SortedDesc(rows) && DistinctUsers(rows)
    requires r.user !in Users(rows)
    ensures DistinctUsers(Insert(rows, r))
    ensures Users(Insert(rows, r)) == Users(rows) + {r.user}
    decreases |rows|
  {
    if rows == [] || r.seconds >= rows[0].seconds {
      DistinctCons(r, rows);
    } else {
      DistinctTail(rows);
      assert Users(rows[1..]) <= Users(rows);
      InsertDistinct(rows[1..], r);
      var tail := Insert(rows[1..], r);
      DistinctCons(rows[0], tail);
    }
  }

  /** The ordered query over table t. Any order of equal totals is possible,
      so the rows are taken from the table in an unspecified order. */
  method SelectByTotalDesc(t: map<UserId, int>) returns (rows: seq<Row>)
    ensures IsOrderedListing(rows, t)
  {
    rows := [];
    var pending := t.Keys;
    while pending != {}
      invariant pending <= t.Keys
      invariant SortedDesc(rows)
      invariant DistinctUsers(rows)
      invariant Users(rows) == t.Keys - pending
      invariant forall x | x in rows :: x.user in t && t[x.user] == x.seconds
      decreases pending
    {
      var u :| u in pending;
      InsertDistinct(rows, Row(u, t[u]));
      rows := Insert(rows, Row(u, t[u]));
      pending := pending - {u};
    }
  }

  function LineUsers(lines: seq<Line>): set<UserId> {
    set l | l in lines :: l.user
  }

  /** The members of the rows that the directory resolves. */
  function ResolvedUsers(rows: seq<Row>, lookup: UserId -> Option<string>): set<UserId> {
    set x | x in rows && lookup(x.user).Some? :: x.user
  }

  /** The lines of the rows whose member the directory resolves, in row
      order; a row whose lookup fails is skipped (index.js:80-89). */
  function ResolveLines(rows: seq<Row>, lookup: UserId -> Option<string>): (lines: seq<Line>)
    ensures |lines| <= |rows|
    // every line is a resolved row, with its name and its formatted total
    ensures forall l | l in lines ::
      && Row(l.user, l.time.seconds) in rows
      && lookup(l.user) == Some(l.name)
      && l.time == FormatTime(l.time.seconds)
    // every resolved row has a line, and no other member does
    ensures LineUsers(lines) == ResolvedUsers(rows, lookup)
    decreases |rows|
  {
    if rows == [] then []
    else
      var rest := ResolveLines(rows[1..], lookup);
      assert ResolvedUsers(rows, lookup)
          == (if lookup(rows[0].user).Some? then {rows[0].user} else {})
             + ResolvedUsers(rows[1..], lookup)
      by {
        assert forall x | x in rows :: x == rows[0] || x in rows[1..];
      }
      match lookup(rows[0].user)
      case None => rest
      case Some(name) =>
        [Line(rows[0].user, name, FormatTime(rows[0].seconds))] + rest
  }

  /** The lines of rows that start with a resolved row. */
  lemma ResolveLinesCons(rows: seq<Row>, lookup: UserId -> Option<string>)
    requires rows != []
    ensures var rest := ResolveLines(rows[1..], lookup);
      ResolveLines(rows, lookup)
        == if lookup(rows[0].user).Some?
           then [Line(rows[0].user, lookup(rows[0].user).value, FormatTime(rows[0].seconds))] + rest
           else rest
  {
  }

  predicate LinesDesc(lines: seq<Line>) {
    forall j, k | 0 <= j < k < |lines| :: lines[j].time.seconds >= lines[k].time.seconds
  }

  lemma LinesDescCons(h: Line, rest: seq<Line>)
    requires LinesDesc(rest)
    requires forall l | l in rest :: l.time.seconds <= h.time.seconds
    ensures LinesDesc([h] + rest)
  {
    var lines := [h] + rest;
    forall j, k | 0 <= j < k < |lines| ensures lines[j].time.seconds >= lines[k].time.seconds {
      assert lines[k] == rest[k - 1];
      if j > 0 { assert lines[j] == rest[j - 1]; }
    }
  }

  /** Every later row of a sorted listing is at most its first total. */
  lemma SortedHeadBounds(rows: seq<Row>)
    requires rows != [] && SortedDesc(rows)
    ensures SortedDesc(rows[1..])
    ensures forall x | x in rows[1..] :: x.seconds <= rows[0].seconds
  {
    forall x | x in rows[1..] ensures x.seconds <= rows[0].seconds {
      var k :| 0 <= k < |rows[1..]| && rows[1..][k] == x;
      assert rows[k + 1] == x;
    }
  }

  /** Rows by non-increasing total give lines by non-increasing total. */
  lemma {:induction false} ResolveLinesOrdered(rows: seq<Row>, lookup: UserId -> Option<string>)
    requires SortedDesc(rows)
    ensures LinesDesc(ResolveLines(rows, lookup))
    decreases |rows|
  {
    if rows != [] {
      var rest := ResolveLines(rows[1..], lookup);
      ResolveLinesCons(rows, lookup);
      SortedHeadBounds(rows);
      ResolveLinesOrdered(rows[1..], lookup);
      if lookup(rows[0].user).Some? {
        var h := Line(rows[0].user, lookup(rows[0].user).value, FormatTime(rows[0].seconds));
        forall l | l in rest ensures l.time.seconds <= h.time.seconds {
          assert Row(l.user, l.time.seconds) in rows[1..];
        }
        LinesDescCons(h, rest);
      }
    }
  }

  /** A member listed once gets at most one line. */
  lemma {:induction false} ResolveLinesDistinct(rows: seq<Row>, lookup: UserId -> Option<string>)
    requires DistinctUsers(rows)
    ensures var lines := ResolveLines(rows, lookup);
      forall j, k | 0 <= j < k < |lines| :: lines[j].user != lines[k].user
    decreases |rows|
  {
    if rows != [] {
      var rest := ResolveLines(rows[1..], lookup);
      var lines := ResolveLines(rows, lookup);
      ResolveLinesCons(rows, lookup);
      DistinctTail(rows);
      ResolveLinesDistinct(rows[1..], lookup);
      if lookup(rows[0].user).Some? {
        forall l | l in rest ensures l.user != rows[0].user {
          assert Row(l.user, l.time.seconds) in rows[1..];
        }
        forall j, k | 0 <= j < k < |lines| ensures lines[j].user != lines[k].user {
          assert lines[k] == rest[k - 1];
          assert lines[k] in rest;
          if j > 0 { assert lines[j] == rest[j - 1]; }
        }
      }
    }
  }

  /** The report for the outcome of the ordered query: the error message when
      the query failed, the no-data message when it returned no row, and the
      resolved lines otherwise (the header alone when no row resolves). */
  function BuildReport(query: Result<seq<Row>, StoreError>, lookup: UserId -> Option<string>): (r: Reply)
    ensures r == FetchFailed <==> query.Failure?
    ensures r == NoData <==> query.Success? && query.value == []
    ensures r.Ranking? ==> query.Success? && r.lines == ResolveLines(query.value, lookup)
  {
    match query
    case Failure(_) => FetchFailed
    case Success(rows) => if |rows| == 0 then NoData else Ranking(ResolveLines(rows, lookup))
  }

  /** The members with a line are the table's members the directory resolves. */
  lemma ResolvedMembersOfTable(t: map<UserId, int>, rows: seq<Row>, lookup: UserId -> Option<string>)
    requires IsOrderedListing(rows, t)
    ensures LineUsers(ResolveLines(rows, lookup)) == (set u | u in t && lookup(u).Some?)
  {
  }

  /** Each line of a report over table t shows the member's stored total. */
  lemma LinesShowStoredTotals(t: map<UserId, int>, rows: seq<Row>, lookup: UserId -> Option<string>)
    requires IsOrderedListing(rows, t)
    ensures forall l | l in ResolveLines(rows, lookup) :: l.user in t && l.time == FormatTime(t[l.user])
  {
  }

  /** The report over table t, read without error: no data exactly when the
      table is empty; otherwise one line per member whose lookup succeeds,
      showing their stored total, by non-increasing total, each member once. */
  lemma ReportOfTable(t: map<UserId, int>, rows: seq<Row>, lookup: UserId -> Option<string>)
    requires IsOrderedListing(rows, t)
    ensures BuildReport(Success(rows), lookup) == NoData <==> t == map[]
    ensures t != map[] ==>
      var r := BuildReport(Success(rows), lookup);
      && r.Ranking?
      && LineUsers(r.lines) == (set u | u in t && lookup(u).Some?)
      && (forall l | l in r.lines :: lookup(l.user) == Some(l.name) && l.time == FormatTime(t[l.user]))
      && LinesDesc(r.lines)
      && (forall j, k | 0 <= j < k < |r.lines| :: r.lines[j].user != r.lines[k].user)
  {
    if rows == [] {
      assert t.Keys == Users(rows) == {};
    } else {
      assert rows[0] in rows;
      assert t != map[];
    }
    ResolveLinesOrdered(rows, lookup);
    ResolveLinesDistinct(rows, lookup);
    ResolvedMembersOfTable(t, rows, lookup);
    LinesShowStoredTotals(t, rows, lookup);
  }

  /** After the weekly clear the query returns no row, so the report is the
      no-data message. */
  lemma ReportAfterReset(s: State, rows: seq<Row>, lookup: UserId -> Option<string>)
    requires IsOrderedListing(rows, Reset(s, true).totals)
    ensures rows == []
    ensures BuildReport(Success(rows), lookup) == NoData
  {
    UsersEmpty(rows);
  }

  const ErrorText: string := "Hubo un error al obtener los datos."
  const NoDataText: string := "Aún no hay datos registrados."
  const Header: string := "**Tiempos en voice esta semana:**\n"

  /** `**<username>**: <formatTime(total)>` and a line break. */
  function LineText(l: Line): string {
    "**" + l.name + "**: " + TimeText(l.time) + "\n"
  }

  function LinesText(lines: seq<Line>): (s: string)
    ensures lines == [] <==> s == []
    decreases |lines|
  {
    if lines == [] then [] else LineText(lines[0]) + LinesText(lines[1..])
  }

  /** The text sent to the channel. A ranking always starts with the header,
      so it never reads as either fixed message. */
  function Render(r: Reply): (text: string)
    ensures r == FetchFailed ==> text == ErrorText
    ensures r == NoData ==> text == NoDataText
    ensures r.Ranking? ==> Header <= text && (r.lines == [] <==> text == Header)
    ensures r.Ranking? ==> text != ErrorText && text != NoDataText
  {
    match r
    case FetchFailed => ErrorText
    case NoData => NoDataText
    case Ranking(lines) =>
      assert (Header + LinesText(lines))[..|Header|] == Header;
      Header + LinesText(lines)
  }
}
