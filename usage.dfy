/** The usage-time aggregator: one forward pass over the log rows of enrolled
    students, ordered by (userid, timecreated), that rebuilds sessions and adds
    their durations into a (course, turn) table, and the serialiser that turns
    the table into the `course|turn|minutes` lines sent as the "use" report.

    Durations are kept in whole seconds; the source keeps `seconds / 60` as a
    float and rounds the sum up at the end, which for whole seconds is the
    same as rounding `total seconds / 60` up (CeilMinutes). */
module Usage {
  import opened Wrappers
  import opened Text

  /** Course id that marks "no course open" (the site course). */
  const Sentinel: int := 1
  /** Action of the logout event. */
  const LoggedOut: string := "loggedout"
  /** Longest session taken at its measured length, in seconds. */
  const MaxSession: int := 3600
  /** What a longer session is counted as instead, in seconds. */
  const CappedSession: int := 1200

  /** One row of the usage query; `turn` is the query's `hora` column. */
  datatype LogRow = LogRow(userid: int, action: string, courseid: int, timecreated: int, turn: int)

  /** The query's CASE on the hour of `timecreated`: 0 for 07-14 h,
      1 for 15-22 h, 2 otherwise. */
  function TurnOfHour(hour: int): (t: int)
    requires 0 <= hour < 24
    ensures 0 <= t <= 2
    ensures t == 0 <==> 7 <= hour <= 14
    ensures t == 1 <==> 15 <= hour <= 22
    ensures t == 2 <==> hour < 7 || hour == 23
  {
    if 7 <= hour <= 14 then 0 else if 15 <= hour <= 22 then 1 else 2
  }

  // ------------------------------------------------------------ the table

  /** Accumulated seconds of one turn of one course. */
  datatype TurnStat = TurnStat(turn: int, seconds: int)
  /** The turns of one course, in the order they were first touched. */
  datatype CourseStat = CourseStat(courseid: int, turns: seq<TurnStat>)
  /** The source's `$time[$courseid][$turn]`: courses in the order they were
      first touched. */
  type Table = seq<CourseStat>

  function TurnSeconds(ts: seq<TurnStat>, turn: int): (r: Option<int>)
    ensures r.None? <==> forall j :: 0 <= j < |ts| ==> ts[j].turn != turn
    ensures r.Some? ==> exists j :: 0 <= j < |ts| && ts[j] == TurnStat(turn, r.value)
  {
    if ts == [] then None
    else if ts[0].turn == turn then Some(ts[0].seconds)
    else TurnSeconds(ts[1..], turn)
  }

  /** Seconds accumulated for (course, turn), if that entry exists. */
  function Seconds(t: Table, courseid: int, turn: int): Option<int>
  {
    if t == [] then None
    else if t[0].courseid == courseid then TurnSeconds(t[0].turns, turn)
    else Seconds(t[1..], courseid, turn)
  }

  predicate DistinctTurns(ts: seq<TurnStat>)
  {
    forall i, j :: 0 <= i < j < |ts| ==> ts[i].turn != ts[j].turn
  }

  /** Every (course, turn) key occurs once, as in the source's nested array. */
  predicate WellFormed(t: Table)
  {
    && (forall i, j :: 0 <= i < j < |t| ==> t[i].courseid != t[j].courseid)
    && (forall i :: 0 <= i < |t| ==> DistinctTurns(t[i].turns))
  }

  /** Some entry of the table is for this course. */
  predicate HasCourse(t: Table, courseid: int)
  {
    t != [] && (t[0].courseid == courseid || HasCourse(t[1..], courseid))
  }

  lemma {:induction false} HasCourseAt(t: Table, courseid: int)
    ensures HasCourse(t, courseid) <==> exists i :: 0 <= i < |t| && t[i].courseid == courseid
  {
    if t != [] {
      HasCourseAt(t[1..], courseid);
      if HasCourse(t[1..], courseid) {
        var i :| 0 <= i < |t[1..]| && t[1..][i].courseid == courseid;
        assert t[i + 1].courseid == courseid;
      }
      if exists i :: 0 <= i < |t| && t[i].courseid == courseid {
        var i :| 0 <= i < |t| && t[i].courseid == courseid;
        if i > 0 {
          assert t[1..][i - 1].courseid == courseid;
        }
      }
    }
  }

  /** Adds `d` seconds to `turn`, creating the entry at the end on first touch. */
  function AddTurn(ts: seq<TurnStat>, turn: int, d: int): (r: seq<TurnStat>)
  {
    if ts == [] then [TurnStat(turn, d)]
    else if ts[0].turn == turn then [ts[0].(seconds := ts[0].seconds + d)] + ts[1..]
    else [ts[0]] + AddTurn(ts[1..], turn, d)
  }

  /** Only the touched turn changes, and it gains `d`; a first touch starts from 0. */
  lemma {:induction false} AddTurnSeconds(ts: seq<TurnStat>, turn: int, d: int, tu: int)
    ensures TurnSeconds(AddTurn(ts, turn, d), tu) ==
      (if tu == turn then Some(TurnSeconds(ts, turn).GetOr(0) + d) else TurnSeconds(ts, tu))
  {
    if ts != [] && ts[0].turn != turn {
      AddTurnSeconds(ts[1..], turn, d, tu);
      assert AddTurn(ts, turn, d)[1..] == AddTurn(ts[1..], turn, d);
    }
  }

  /** Existing turns keep their place and a new one is appended at the end. */
  lemma {:induction false} AddTurnShape(ts: seq<TurnStat>, turn: int, d: int)
    ensures |AddTurn(ts, turn, d)| == (if TurnSeconds(ts, turn).None? then |ts| + 1 else |ts|)
    ensures forall j :: 0 <= j < |ts| ==> AddTurn(ts, turn, d)[j].turn == ts[j].turn
    ensures AddTurn(ts, turn, d)[|AddTurn(ts, turn, d)| - 1].turn == turn || TurnSeconds(ts, turn).Some?
  {
    if ts != [] && ts[0].turn != turn {
      AddTurnShape(ts[1..], turn, d);
      var r' := AddTurn(ts[1..], turn, d);
      assert AddTurn(ts, turn, d) == [ts[0]] + r';
      forall j | 0 <= j < |ts| ensures AddTurn(ts, turn, d)[j].turn == ts[j].turn {
        if j > 0 {
          assert AddTurn(ts, turn, d)[j] == r'[j - 1];
        }
      }
    }
  }

  /** Adding never makes two entries for one turn. */
  lemma {:induction false} AddTurnDistinct(ts: seq<TurnStat>, turn: int, d: int)
    requires DistinctTurns(ts)
    ensures DistinctTurns(AddTurn(ts, turn, d))
  {
    var r := AddTurn(ts, turn, d);
    AddTurnShape(ts, turn, d);
    if TurnSeconds(ts, turn).None? {
      forall i, j | 0 <= i < j < |r| ensures r[i].turn != r[j].turn {
        if j == |ts| {
          assert r[i].turn == ts[i].turn;
        }
      }
    } else {
      assert forall j :: 0 <= j < |r| ==> r[j].turn == ts[j].turn;
    }
  }

  /** Adds `d` seconds to (course, turn), creating the course entry at the
      end of the table on first touch. */
  function AddCourse(t: Table, courseid: int, turn: int, d: int): (r: Table)
  {
    if t == [] then [CourseStat(courseid, [TurnStat(turn, d)])]
    else if t[0].courseid == courseid then [t[0].(turns := AddTurn(t[0].turns, turn, d))] + t[1..]
    else [t[0]] + AddCourse(t[1..], courseid, turn, d)
  }

  /** Only the (course, turn) key changes, and it gains `d`. */
  lemma {:induction false} AddCourseSeconds(t: Table, courseid: int, turn: int, d: int, c: int, tu: int)
    ensures Seconds(AddCourse(t, courseid, turn, d), c, tu) ==
      (if c == courseid && tu == turn then Some(Seconds(t, courseid, turn).GetOr(0) + d)
       else Seconds(t, c, tu))
  {
    var r := AddCourse(t, courseid, turn, d);
    if t == [] {
      assert r[1..] == [];
    } else if t[0].courseid == courseid {
      AddTurnSeconds(t[0].turns, turn, d, tu);
      assert r[1..] == t[1..];
    } else {
      AddCourseSeconds(t[1..], courseid, turn, d, c, tu);
      assert r[1..] == AddCourse(t[1..], courseid, turn, d);
    }
  }

  /** Existing courses keep their place, a new one is appended at the end,
      and an existing course either keeps its turns or gets `d` added to them. */
  lemma {:induction false} AddCourseShape(t: Table, courseid: int, turn: int, d: int)
    ensures |AddCourse(t, courseid, turn, d)| == (if HasCourse(t, courseid) then |t| else |t| + 1)
    ensures forall i :: 0 <= i < |t| ==>
      (AddCourse(t, courseid, turn, d)[i] == t[i] ||
       AddCourse(t, courseid, turn, d)[i] == t[i].(turns := AddTurn(t[i].turns, turn, d)))
    ensures |t| < |AddCourse(t, courseid, turn, d)| ==> AddCourse(t, courseid, turn, d)[|t|] == CourseStat(courseid, [TurnStat(turn, d)])
    ensures forall i :: 0 <= i < |t| ==> AddCourse(t, courseid, turn, d)[i].courseid == t[i].courseid
  {
    if t != [] && t[0].courseid != courseid {
      AddCourseShape(t[1..], courseid, turn, d);
      var r' := AddCourse(t[1..], courseid, turn, d);
      assert AddCourse(t, courseid, turn, d) == [t[0]] + r';
      forall i | 1 <= i < |AddCourse(t, courseid, turn, d)| ensures AddCourse(t, courseid, turn, d)[i] == r'[i - 1] {
      }
    }
  }
  /** Adding never makes two entries for one course or one turn. */
  lemma {:induction false} AddCourseWellFormed(t: Table, courseid: int, turn: int, d: int)
    ensures WellFormed(t) ==> WellFormed(AddCourse(t, courseid, turn, d))
  {
    if !WellFormed(t) {
      return;
    }
    var r := AddCourse(t, courseid, turn, d);
    AddCourseShape(t, courseid, turn, d);
    HasCourseAt(t, courseid);
    forall i, j | 0 <= i < j < |r| ensures r[i].courseid != r[j].courseid {
      if j == |t| {
        assert r[i].courseid == t[i].courseid;
      }
    }
    forall i | 0 <= i < |r| ensures DistinctTurns(r[i].turns) {
      if i < |t| {
        if r[i] != t[i] {
          AddTurnDistinct(t[i].turns, turn, d);
        }
      }
    }
  }

  /** Length credited to a session from `start` to `end`: nothing when no end
      was seen, the measured length up to an hour, 1200 s beyond that. */
  function Spent(start: int, end: int): (d: int)
    ensures d <= MaxSession
    ensures end <= 0 || start <= end ==> 0 <= d
  {
    var measured := if end > 0 then end - start else 0;
    if measured > MaxSession then CappedSession else measured
  }

  /** accumulate_time_spent: with `start <= 0` the table is unchanged;
      otherwise only the (course, turn) key changes and gains Spent seconds,
      the first touch creating it. */
  function Accumulate(time: Table, courseid: int, start: int, end: int, turn: int): (r: Table)
    ensures forall c, tu {:trigger Seconds(r, c, tu)} :: (Seconds(r, c, tu) ==
      if start > 0 && c == courseid && tu == turn
      then Some(Seconds(time, courseid, turn).GetOr(0) + Spent(start, end))
      else Seconds(time, c, tu))
    ensures WellFormed(time) ==> WellFormed(r)
  {
    if start > 0 then
      AccumulateSeconds(time, courseid, turn, Spent(start, end));
      AddCourseWellFormed(time, courseid, turn, Spent(start, end));
      AddCourse(time, courseid, turn, Spent(start, end))
    else time
  }

  lemma AccumulateSeconds(time: Table, courseid: int, turn: int, d: int)
    ensures forall c, tu {:trigger Seconds(AddCourse(time, courseid, turn, d), c, tu)} ::
      Seconds(AddCourse(time, courseid, turn, d), c, tu) ==
      (if c == courseid && tu == turn then Some(Seconds(time, courseid, turn).GetOr(0) + d)
       else Seconds(time, c, tu))
  {
    forall c, tu {
      AddCourseSeconds(time, courseid, turn, d, c, tu);
    }
  }

  /** The cap: a session longer than an hour counts as 1200 s. */
  lemma CapExample()
    ensures Seconds(Accumulate([], 5, 1000, 6000, 0), 5, 0) == Some(CappedSession)
    ensures Accumulate([], 5, 0, 5000, 0) == []
  {
  }

  // ------------------------------------------------------------ the scan

  /** The scan's variables: currentuser, currentcourse, currentturn,
      starttime, endtime and the table. */
  datatype Scan = Scan(user: int, course: int, turn: int, start: int, end: int, time: Table)

  /** Before the first row: user 0, course 0 (not the sentinel), no times.
      The source's initial turn is the empty string; it never reaches the
      table because no session is open with a positive start. */
  const Initial: Scan := Scan(0, 0, 0, 0, 0, [])

  /** Flushes the open session into the table. */
  function Flush(s: Scan, end: int): Table
  {
    Accumulate(s.time, s.course, s.start, end, s.turn)
  }

  /** One iteration of the loop over rows. */
  function Step(s: Scan, row: LogRow): (r: Scan)
    ensures r.user == row.userid
    ensures row.courseid != Sentinel ==> r.course == row.courseid && r.turn == row.turn && r.start == row.timecreated
    ensures row.courseid == Sentinel ==> r.course == Sentinel || (r.course == s.course && row.userid == s.user)
  {
    // A new user: close the previous user's session and reset.
    var s1 :=
      if row.userid != s.user then
        Scan(row.userid, Sentinel, 0, 0, 0,
             if s.course != Sentinel && s.user != 0 then Flush(s, s.end) else s.time)
      else s;
    // A pending logout: close the session at the logout time.
    var s2 :=
      if s1.end > 0 && s1.course != Sentinel then s1.(time := Flush(s1, s1.end), course := Sentinel)
      else s1;
    // Remember a logout seen while a course is open.
    var s3 := s2.(end := if row.action == LoggedOut && s2.course != Sentinel then row.timecreated else 0);
    // A course row closes the open session at this row's time and opens a new one.
    if row.courseid != Sentinel then
      Scan(s3.user, row.courseid, row.turn, row.timecreated,
           if s3.course != Sentinel then 0 else s3.end,
           if s3.course != Sentinel then Flush(s3, row.timecreated) else s3.time)
    else s3
  }

  /** The state after the given rows. */
  function Run(rows: seq<LogRow>): Scan
  {
    if rows == [] then Initial else Step(Run(rows[..|rows| - 1]), rows[|rows| - 1])
  }

  /** After the last row the open session is flushed with the pending end time. */
  function Close(s: Scan): Table
  {
    if s.course != Sentinel then Flush(s, s.end) else s.time
  }

  /** prepare_usage_data's result: false (None) on no rows, the table otherwise. */
  function Aggregate(rows: seq<LogRow>): (r: Option<Table>)
    ensures r.None? <==> rows == []
  {
    if rows == [] then None else Some(Close(Run(rows)))
  }

  /** prepare_usage_data, as the source runs it: one loop over the rows. */
  method PrepareUsageData(rows: seq<LogRow>) returns (r: Option<Table>)
    ensures r == Aggregate(rows)
  {
    if |rows| == 0 {
      return None;
    }
    var time: Table := [];
    var currentuser, currentcourse, currentturn, starttime, endtime := 0, 0, 0, 0, 0;
    var i := 0;
    while i < |rows|
      invariant 0 <= i <= |rows|
      invariant Scan(currentuser, currentcourse, currentturn, starttime, endtime, time) == Run(rows[..i])
    {
      var row := rows[i];
      if row.userid != currentuser {
        if currentcourse != Sentinel && currentuser != 0 {
          time := Accumulate(time, currentcourse, starttime, endtime, currentturn);
        }
        currentcourse := Sentinel;
        currentturn := 0;
        starttime := 0;
        endtime := 0;
        currentuser := row.userid;
      }
      if endtime > 0 && currentcourse != Sentinel {
        time := Accumulate(time, currentcourse, starttime, endtime, currentturn);
        currentcourse := Sentinel;
      }
      if row.action == LoggedOut && currentcourse != Sentinel {
        endtime := row.timecreated;
      } else {
        endtime := 0;
      }
      if row.courseid != Sentinel {
        if currentcourse != Sentinel {
          time := Accumulate(time, currentcourse, starttime, row.timecreated, currentturn);
          endtime := 0;
        }
        starttime := row.timecreated;
        currentcourse := row.courseid;
        currentturn := row.turn;
      }
      assert rows[..i + 1][..i] == rows[..i];
      i := i + 1;
    }
    assert rows[..i] == rows;
    if currentcourse != Sentinel {
      time := Accumulate(time, currentcourse, starttime, endtime, currentturn);
    }
    r := Some(time);
  }

  // ------------------------------------------------- properties of the scan

  /** Some row names this course with this turn. */
  ghost predicate RowFor(rows: seq<LogRow>, c: int, tu: int)
  {
    exists j :: 0 <= j < |rows| && rows[j].courseid == c && rows[j].turn == tu
  }

  /** Every key of the table is a non-sentinel (course, turn) pair of some
      row, and so is the open session once it has a positive start. */
  ghost predicate KeysFromRows(s: Scan, rows: seq<LogRow>)
  {
    && WellFormed(s.time)
    && (forall c, tu {:trigger Seconds(s.time, c, tu)} :: Seconds(s.time, c, tu).Some? ==>
          c != Sentinel && RowFor(rows, c, tu))
    && (s.start > 0 && s.course != Sentinel ==> RowFor(rows, s.course, s.turn))
  }

  lemma {:induction false} FlushKeepsKeys(s: Scan, end: int, rows: seq<LogRow>)
    requires KeysFromRows(s, rows) && s.course != Sentinel
    ensures WellFormed(Flush(s, end))
    ensures forall c, tu {:trigger Seconds(Flush(s, end), c, tu)} :: Seconds(Flush(s, end), c, tu).Some? ==>
          c != Sentinel && RowFor(rows, c, tu)
  {
  }

  lemma {:induction false} RowForGrows(rows: seq<LogRow>, row: LogRow, c: int, tu: int)
    requires RowFor(rows, c, tu)
    ensures RowFor(rows + [row], c, tu)
  {
    var j :| 0 <= j < |rows| && rows[j].courseid == c && rows[j].turn == tu;
    assert (rows + [row])[j] == rows[j];
  }

  lemma {:induction false} StepKeepsKeys(s: Scan, rows: seq<LogRow>, row: LogRow)
    requires KeysFromRows(s, rows)
    ensures KeysFromRows(Step(s, row), rows + [row])
  {
    var rows' := rows + [row];
    assert rows'[|rows|] == row;
    forall c, tu | RowFor(rows, c, tu) ensures RowFor(rows', c, tu) {
      RowForGrows(rows, row, c, tu);
    }
    var s1 :=
      if row.userid != s.user then
        Scan(row.userid, Sentinel, 0, 0, 0,
             if s.course != Sentinel && s.user != 0 then Flush(s, s.end) else s.time)
      else s;
    if row.userid != s.user && s.course != Sentinel && s.user != 0 {
      FlushKeepsKeys(s, s.end, rows);
    }
    assert KeysFromRows(s1, rows);
    var s2 :=
      if s1.end > 0 && s1.course != Sentinel then s1.(time := Flush(s1, s1.end), course := Sentinel)
      else s1;
    if s1.end > 0 && s1.course != Sentinel {
      FlushKeepsKeys(s1, s1.end, rows);
    }
    assert KeysFromRows(s2, rows);
    var s3 := s2.(end := if row.action == LoggedOut && s2.course != Sentinel then row.timecreated else 0);
    assert KeysFromRows(s3, rows);
    if row.courseid != Sentinel {
      if s3.course != Sentinel {
        FlushKeepsKeys(s3, row.timecreated, rows);
      }
      assert RowFor(rows', row.courseid, row.turn);
    }
  }

  lemma {:induction false} RunKeepsKeys(rows: seq<LogRow>)
    ensures KeysFromRows(Run(rows), rows)
  {
    if rows != [] {
      var prefix := rows[..|rows| - 1];
      RunKeepsKeys(prefix);
      StepKeepsKeys(Run(prefix), prefix, rows[|rows| - 1]);
      assert prefix + [rows[|rows| - 1]] == rows;
    }
  }

  /** The aggregated table has one entry per key, never an entry for the
      sentinel course, and only keys some row opened a session for. */
  lemma AggregateKeys(rows: seq<LogRow>)
    requires rows != []
    ensures WellFormed(Aggregate(rows).value)
    ensures forall c, tu {:trigger Seconds(Aggregate(rows).value, c, tu)} ::
      Seconds(Aggregate(rows).value, c, tu).Some? ==> c != Sentinel && RowFor(rows, c, tu)
  {
    RunKeepsKeys(rows);
    var s := Run(rows);
    if s.course != Sentinel {
      FlushKeepsKeys(s, s.end, rows);
    }
  }

  /** The order the query guarantees: within one user, rows come by time. */
  predicate TimeOrderedPerUser(rows: seq<LogRow>)
  {
    forall i :: 0 < i < |rows| && rows[i - 1].userid == rows[i].userid ==>
      rows[i - 1].timecreated <= rows[i].timecreated
  }

  /** With ordered rows: every total is non-negative, an open session started
      no later than the last row of its user, and a pending end is not
      before its start. */
  ghost predicate Ordered(s: Scan, rows: seq<LogRow>)
  {
    && (forall c, tu {:trigger Seconds(s.time, c, tu)} :: Seconds(s.time, c, tu).Some? ==>
          Seconds(s.time, c, tu).value >= 0)
    && (s.start > 0 ==> |rows| > 0 && s.user == rows[|rows| - 1].userid &&
                        s.start <= rows[|rows| - 1].timecreated)
    && (s.start > 0 && s.end > 0 ==> s.start <= s.end)
  }

  lemma {:induction false} FlushNonNegative(s: Scan, end: int)
    requires forall c, tu {:trigger Seconds(s.time, c, tu)} :: Seconds(s.time, c, tu).Some? ==>
      Seconds(s.time, c, tu).value >= 0
    requires s.start > 0 ==> end <= 0 || s.start <= end
    ensures forall c, tu {:trigger Seconds(Flush(s, end), c, tu)} :: Seconds(Flush(s, end), c, tu).Some? ==>
      Seconds(Flush(s, end), c, tu).value >= 0
  {
  }

  lemma {:induction false} StepKeepsOrder(s: Scan, rows: seq<LogRow>, row: LogRow)
    requires Ordered(s, rows)
    requires |rows| > 0 && rows[|rows| - 1].userid == row.userid ==>
      rows[|rows| - 1].timecreated <= row.timecreated
    ensures Ordered(Step(s, row), rows + [row])
  {
    var rows' := rows + [row];
    assert rows'[|rows'| - 1] == row;
    var s1 :=
      if row.userid != s.user then
        Scan(row.userid, Sentinel, 0, 0, 0,
             if s.course != Sentinel && s.user != 0 then Flush(s, s.end) else s.time)
      else s;
    if row.userid != s.user && s.course != Sentinel && s.user != 0 {
      FlushNonNegative(s, s.end);
    }
    assert s1.user == row.userid;
    assert s1.start > 0 ==> s1.start <= row.timecreated;
    var s2 :=
      if s1.end > 0 && s1.course != Sentinel then s1.(time := Flush(s1, s1.end), course := Sentinel)
      else s1;
    if s1.end > 0 && s1.course != Sentinel {
      FlushNonNegative(s1, s1.end);
    }
    var s3 := s2.(end := if row.action == LoggedOut && s2.course != Sentinel then row.timecreated else 0);
    assert s3.start > 0 && s3.end > 0 ==> s3.start <= s3.end;
    if row.courseid != Sentinel && s3.course != Sentinel {
      FlushNonNegative(s3, row.timecreated);
    }
  }

  lemma {:induction false} RunKeepsOrder(rows: seq<LogRow>)
    requires TimeOrderedPerUser(rows)
    ensures Ordered(Run(rows), rows)
  {
    if rows != [] {
      var prefix := rows[..|rows| - 1];
      assert TimeOrderedPerUser(prefix) by {
        forall i | 0 < i < |prefix| && prefix[i - 1].userid == prefix[i].userid
          ensures prefix[i - 1].timecreated <= prefix[i].timecreated
        {
          assert prefix[i - 1] == rows[i - 1] && prefix[i] == rows[i];
        }
      }
      RunKeepsOrder(prefix);
      if |prefix| > 0 {
        assert prefix[|prefix| - 1] == rows[|rows| - 2];
      }
      StepKeepsOrder(Run(prefix), prefix, rows[|rows| - 1]);
      assert prefix + [rows[|rows| - 1]] == rows;
    }
  }

  /** Rows ordered by time within each user give no negative total. */
  lemma AggregateNonNegative(rows: seq<LogRow>)
    requires rows != [] && TimeOrderedPerUser(rows)
    ensures forall c, tu {:trigger Seconds(Aggregate(rows).value, c, tu)} ::
      Seconds(Aggregate(rows).value, c, tu).Some? ==> Seconds(Aggregate(rows).value, c, tu).value >= 0
  {
    RunKeepsOrder(rows);
    var s := Run(rows);
    if s.course != Sentinel {
      FlushNonNegative(s, s.end);
    }
  }

  // ------------------------------------------------------------ the report

  /** One (course, turn) total of the table, in table order. */
  datatype UsageEntry = UsageEntry(courseid: int, turn: int, seconds: int)

  function CourseEntries(c: CourseStat): (r: seq<UsageEntry>)
    ensures |r| == |c.turns|
  {
    seq(|c.turns|, j requires 0 <= j < |c.turns| => UsageEntry(c.courseid, c.turns[j].turn, c.turns[j].seconds))
  }

  /** The table flattened in the order the source's nested foreach visits it. */
  function Entries(t: Table): seq<UsageEntry>
  {
    if t == [] then [] else CourseEntries(t[0]) + Entries(t[1..])
  }

  lemma {:induction false} EntriesAppend(t: Table, c: CourseStat)
    ensures Entries(t + [c]) == Entries(t) + CourseEntries(c)
  {
    if t == [] {
      assert [c][1..] == [];
    } else {
      assert (t + [c])[1..] == t[1..] + [c];
      EntriesAppend(t[1..], c);
    }
  }

  /** Every entry names a course of the table. */
  lemma {:induction false} EntriesHaveCourse(t: Table, e: UsageEntry)
    ensures e in Entries(t) ==> HasCourse(t, e.courseid)
  {
    if t != [] && e !in CourseEntries(t[0]) {
      EntriesHaveCourse(t[1..], e);
    }
  }

  lemma {:induction false} TurnSecondsIn(ts: seq<TurnStat>, tu: int, s: int)
    requires DistinctTurns(ts)
    ensures TurnStat(tu, s) in ts <==> TurnSeconds(ts, tu) == Some(s)
  {
    if ts != [] {
      assert DistinctTurns(ts[1..]);
      TurnSecondsIn(ts[1..], tu, s);
      if ts[0].turn == tu {
        forall j | 1 <= j < |ts| ensures ts[j] != TurnStat(tu, s) {
          assert ts[0].turn != ts[j].turn;
        }
      }
      assert ts == [ts[0]] + ts[1..];
    }
  }

  /** The flattened entries are exactly the table's totals: an entry is
      listed if and only if the table holds that total for its key. */
  lemma {:induction false} EntriesAreTotals(t: Table, c: int, tu: int, s: int)
    requires WellFormed(t)
    ensures UsageEntry(c, tu, s) in Entries(t) <==> Seconds(t, c, tu) == Some(s)
  {
    if t != [] {
      var e := UsageEntry(c, tu, s);
      var rest := t[1..];
      assert WellFormed(rest) by {
        assert forall i :: 0 <= i < |rest| ==> rest[i] == t[i + 1];
      }
      EntriesAreTotals(rest, c, tu, s);
      if c == t[0].courseid {
        HasCourseAt(rest, c);
        forall i | 0 <= i < |rest| ensures rest[i].courseid != c {
          assert rest[i] == t[i + 1];
        }
        EntriesHaveCourse(rest, e);
      }
      TurnSecondsIn(t[0].turns, tu, s);
      var head := CourseEntries(t[0]);
      assert e in head <==> c == t[0].courseid && TurnStat(tu, s) in t[0].turns by {
        if e in head {
          var j :| 0 <= j < |head| && head[j] == e;
          assert t[0].turns[j] == TurnStat(tu, s);
        }
        if c == t[0].courseid && TurnStat(tu, s) in t[0].turns {
          var j :| 0 <= j < |t[0].turns| && t[0].turns[j] == TurnStat(tu, s);
          assert head[j] == e;
        }
      }
    }
  }

  /** PHP's `ceil` of the accumulated minutes, on whole seconds. */
  function CeilMinutes(s: int): (m: int)
    ensures 60 * (m - 1) < s <= 60 * m
  {
    if s % 60 == 0 then s / 60 else s / 60 + 1
  }

  /** `specialtyid|turn|minutes`, the specialty id being the course id. */
  function UsageLine(e: UsageEntry): string
  {
    Join([IntToString(e.courseid), IntToString(e.turn), IntToString(CeilMinutes(e.seconds))], '|')
  }

  function UsageLines(es: seq<UsageEntry>): (r: seq<string>)
    ensures |r| == |es|
  {
    seq(|es|, k requires 0 <= k < |es| => UsageLine(es[k]))
  }

  /** The lines of one more entry of a course. */
  lemma UsageLinesStep(es: seq<UsageEntry>, c: CourseStat, j: nat)
    requires j < |c.turns|
    ensures UsageLines(es + CourseEntries(c)[..j + 1]) ==
      UsageLines(es + CourseEntries(c)[..j]) + [UsageLine(UsageEntry(c.courseid, c.turns[j].turn, c.turns[j].seconds))]
  {
    assert es + CourseEntries(c)[..j + 1] == es + CourseEntries(c)[..j] + [CourseEntries(c)[j]];
  }

  /** The report text of a table: its lines joined by newlines. */
  function Render(t: Table): string
  {
    GuardedJoin(UsageLines(Entries(t)), '\n')
  }

  /** get_usage_data: false (None) when prepare_usage_data gives false or an
      empty table (both are false to PHP's loose comparison), the rendered
      table otherwise. */
  function UsageReport(rows: seq<LogRow>): (r: Option<string>)
    ensures r.Some? ==> rows != [] && Aggregate(rows).value != []
  {
    match Aggregate(rows)
    case None => None
    case Some(t) => if t == [] then None else Some(Render(t))
  }

  /** get_usage_data, as the source runs it: no report for false or an
      empty table, otherwise the table rendered line by line. */
  method GetUsageData(rows: seq<LogRow>) returns (r: Option<string>)
    ensures r == UsageReport(rows)
  {
    var time := PrepareUsageData(rows);
    if time.None? || time.value == [] {
      return None;
    }
    var result := RenderTable(time.value);
    r := Some(result);
  }

  /** The outer loop of get_usage_data, over the courses in table order. */
  method RenderTable(t: Table) returns (result: string)
    ensures result == Render(t)
  {
    result := "";
    ghost var es: seq<UsageEntry> := [];
    var i := 0;
    while i < |t|
      invariant 0 <= i <= |t|
      invariant es == Entries(t[..i])
      invariant result == GuardedJoin(UsageLines(es), '\n')
    {
      result := AppendCourseLines(result, es, t[i]);
      EntriesPrefix(t, i);
      es := es + CourseEntries(t[i]);
      i := i + 1;
    }
    assert t[..i] == t;
  }

  lemma EntriesPrefix(t: Table, i: nat)
    requires i < |t|
    ensures Entries(t[..i + 1]) == Entries(t[..i]) + CourseEntries(t[i])
  {
    assert t[..i + 1] == t[..i] + [t[i]];
    EntriesAppend(t[..i], t[i]);
  }

  /** The inner loop of get_usage_data: one line per turn of a course,
      each after a newline unless the text so far is empty. */
  method AppendCourseLines(prefix: string, ghost es: seq<UsageEntry>, course: CourseStat) returns (result: string)
    requires prefix == GuardedJoin(UsageLines(es), '\n')
    ensures result == GuardedJoin(UsageLines(es + CourseEntries(course)), '\n')
  {
    result := prefix;
    var j := 0;
    assert es + CourseEntries(course)[..0] == es;
    while j < |course.turns|
      invariant 0 <= j <= |course.turns|
      invariant result == GuardedJoin(UsageLines(es + CourseEntries(course)[..j]), '\n')
    {
      var stat := course.turns[j];
      var line := UsageLine(UsageEntry(course.courseid, stat.turn, stat.seconds));
      GuardedJoinSnoc(UsageLines(es + CourseEntries(course)[..j]), line, '\n');
      UsageLinesStep(es, course, j);
      if result != "" {
        result := result + "\n";
      }
      result := result + line;
      j := j + 1;
    }
    assert CourseEntries(course)[..j] == CourseEntries(course);
  }

  // ------------------------------------------------ properties of the report

  /** What the receiving side reads back from one line. */
  datatype UsageRecord = UsageRecord(courseid: int, turn: int, minutes: int)

  function ParseLine(line: string): (r: Option<UsageRecord>)
    ensures r.Some? <==> |Split(line, '|')| == 3
  {
    var f := Split(line, '|');
    if |f| == 3 then Some(UsageRecord(ParseInt(f[0]), ParseInt(f[1]), ParseInt(f[2]))) else None
  }

  function ParseReport(s: string): (r: seq<Option<UsageRecord>>)
    ensures |r| == |Split(s, '\n')|
  {
    var lines := Split(s, '\n');
    seq(|lines|, k requires 0 <= k < |lines| => ParseLine(lines[k]))
  }

  /** What an entry is reported as: its key and its minutes rounded up. */
  function Reported(e: UsageEntry): UsageRecord
  {
    UsageRecord(e.courseid, e.turn, CeilMinutes(e.seconds))
  }

  lemma UsageLineParses(e: UsageEntry)
    ensures UsageLine(e) != "" && '\n' !in UsageLine(e)
    ensures ParseLine(UsageLine(e)) == Some(Reported(e))
  {
    var parts := [IntToString(e.courseid), IntToString(e.turn), IntToString(CeilMinutes(e.seconds))];
    IntToStringPlain(e.courseid);
    IntToStringPlain(e.turn);
    IntToStringPlain(CeilMinutes(e.seconds));
    JoinNonEmpty(parts, '|');
    JoinFree(parts, '|', '\n');
    SplitJoin(parts, '|');
    ParseIntToString(e.courseid);
    ParseIntToString(e.turn);
    ParseIntToString(CeilMinutes(e.seconds));
  }

  /** Every rendered line is non-empty, holds no newline and reads back as
      its entry. */
  lemma UsageLinesParse(es: seq<UsageEntry>)
    ensures forall k :: 0 <= k < |es| ==>
      UsageLines(es)[k] != "" && '\n' !in UsageLines(es)[k] && ParseLine(UsageLines(es)[k]) == Some(Reported(es[k]))
  {
    forall k | 0 <= k < |es|
      ensures UsageLines(es)[k] != "" && '\n' !in UsageLines(es)[k] && ParseLine(UsageLines(es)[k]) == Some(Reported(es[k]))
    {
      UsageLineParses(es[k]);
    }
  }

  /** Round trip: the report of a non-empty table reads back, line by line,
      as the table's entries in table order with their minutes rounded up. */
  lemma RenderRoundTrip(t: Table)
    requires Entries(t) != []
    ensures ParseReport(Render(t)) == seq(|Entries(t)|, k requires 0 <= k < |Entries(t)| => Some(Reported(Entries(t)[k])))
  {
    var es := Entries(t);
    var lines := UsageLines(es);
    UsageLinesParse(es);
    GuardedJoinNoEmpty(lines, '\n');
    SplitJoin(lines, '\n');
    assert Split(Render(t), '\n') == lines;
  }

  /** Two sessions of one user: course 5 from 1000 s to a logout at 1500 s,
      which (the logout row naming course 5) reopens course 5 until the view
      of course 7 at 1600 s; course 7 is never closed. (5, morning) gets
      600 s, reported as 10 minutes, and (7, afternoon) an entry of 0. */
  lemma TwoSessionsExample()
    ensures UsageReport([LogRow(2, "viewed", 5, 1000, 0), LogRow(2, LoggedOut, 5, 1500, 0),
                         LogRow(2, "viewed", 7, 1600, 1)]) == Some("5|0|10\n7|1|0")
  {
    TwoSessionsTable();
    TwoSessionsRender();
  }

  /** The table of the two sessions: 600 s for (5, morning) and an entry of
      0 s for (7, afternoon), in that order. */
  lemma TwoSessionsTable()
    ensures Aggregate([LogRow(2, "viewed", 5, 1000, 0), LogRow(2, LoggedOut, 5, 1500, 0),
                       LogRow(2, "viewed", 7, 1600, 1)]) ==
            Some([CourseStat(5, [TurnStat(0, 600)]), CourseStat(7, [TurnStat(1, 0)])])
  {
    var rows := [LogRow(2, "viewed", 5, 1000, 0), LogRow(2, LoggedOut, 5, 1500, 0),
                 LogRow(2, "viewed", 7, 1600, 1)];
    assert rows[..2][..1] == rows[..1];
    assert rows[..2] == rows[..3][..2];
    assert rows[..3] == rows;
    var t := [CourseStat(5, [TurnStat(0, 600)]), CourseStat(7, [TurnStat(1, 0)])];
    assert Run(rows[..1]) == Scan(2, 5, 0, 1000, 0, []);
    assert Run(rows[..2]) == Scan(2, 5, 0, 1500, 0, [CourseStat(5, [TurnStat(0, 500)])]);
    assert [TurnStat(0, 500)][1..] == [];
    assert AddTurn([TurnStat(0, 500)], 0, 100) == [TurnStat(0, 600)];
    assert [CourseStat(5, [TurnStat(0, 500)])][1..] == [];
    assert AddCourse([CourseStat(5, [TurnStat(0, 500)])], 5, 0, 100) == [CourseStat(5, [TurnStat(0, 600)])];
    assert Run(rows) == Scan(2, 7, 1, 1600, 0, [CourseStat(5, [TurnStat(0, 600)])]);
    assert [CourseStat(5, [TurnStat(0, 600)])][1..] == [];
    assert AddCourse([CourseStat(5, [TurnStat(0, 600)])], 7, 1, 0) == t;
  }

  /** The two lines of that table. */
  lemma TwoSessionsLines()
    ensures UsageLine(UsageEntry(5, 0, 600)) == "5|0|10"
    ensures UsageLine(UsageEntry(7, 1, 0)) == "7|1|0"
  {
    assert CeilMinutes(600) == 10 && NatToString(10) == "10";
    assert IntToString(5) == "5" && IntToString(0) == "0" && IntToString(1) == "1" && IntToString(7) == "7";
  }

  /** The report text of that table. */
  lemma {:induction false} TwoSessionsRender()
    ensures Render([CourseStat(5, [TurnStat(0, 600)]), CourseStat(7, [TurnStat(1, 0)])]) == "5|0|10\n7|1|0"
  {
    var t := [CourseStat(5, [TurnStat(0, 600)]), CourseStat(7, [TurnStat(1, 0)])];
    assert t[1..][1..] == [];
    assert Entries(t) == [UsageEntry(5, 0, 600), UsageEntry(7, 1, 0)];
    TwoSessionsLines();
    var lines := UsageLines(Entries(t));
    assert lines == ["5|0|10", "7|1|0"];
    assert lines[..1] == ["5|0|10"] && lines[..1][..0] == [];
    assert GuardedJoin(lines[..1], '\n') == "5|0|10";
    assert GuardedJoin(lines, '\n') == "5|0|10" + ['\n'] + "7|1|0" == "5|0|10\n7|1|0";
  }
}
