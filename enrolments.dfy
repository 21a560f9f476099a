/** The enrolment reconciler: samie_enrol_user for one pending enrolment and
    the loop of sync_enrolments over all of them, which looks a course up
    only when the course id changes from the previous row's. */
module Enrolments {
  import opened Links
  import opened Platform

  /** A pending enrolment: Moodle user id, Moodle course id, SAMIE type tag,
      SAMIE enrolment id and role (per_id_lms, aes_id_lms, TIPO,
      samieenrolid, rolid). */
  datatype EnrolRow = EnrolRow(userid: int, courseid: int, tag: string, samieenrolid: int, roleid: int)

  /** What the three course lookups of a new course id give: the course is
      missing, a lookup threw, or the course exists with its manual
      enrolment instance (0 when it has none). */
  datatype Resolution = Missing | Failed | Found(enrolid: int)

  /** What Moodle and SAMIE do in samie_enrol_user: whether enrol_user
      throws, whether the user enrolment lookup after it throws, the user
      enrolment id that lookup finds (0 for none) and whether the link write
      succeeds. */
  datatype Attempt = Attempt(enrolThrows: bool, lookupThrows: bool, ueid: int, linkOk: bool)

  /** samie_enrol_user's return: the user enrolment id (0 standing for
      false) or the caught exception object. */
  datatype EnrolReturn = UserEnrolment(id: int) | Thrown

  /** PHP truthiness of the return: an object is true, an id is true unless 0. */
  predicate Truthy(r: EnrolReturn)
  {
    match r
    case UserEnrolment(id) => id != 0
    case Thrown => true
  }

  datatype EnrolResult = EnrolResult(ret: EnrolReturn, lms: Lms, db: SamieDb, errors: nat)

  /** samie_enrol_user: enrol the user; when the user enrolment is then
      found, write the SAMIE link (SEPE rows to the SEPE table, the rest to
      their tag's column) and count one error if that write fails. An
      exception from either call is caught and returned. */
  function SamieEnrolUser(lms: Lms, db: SamieDb, row: EnrolRow, enrolid: int, a: Attempt): EnrolResult
  {
    if a.enrolThrows then EnrolResult(Thrown, lms, db, 0)
    else
      var lms' := lms.(enrolments := lms.enrolments + [EnrolCall(row.userid, row.courseid, enrolid, row.roleid)]);
      if a.lookupThrows then EnrolResult(Thrown, lms', db, 0)
      else if a.ueid == 0 then EnrolResult(UserEnrolment(0), lms', db, 0)
      else
        var (ok, db') := LinkEnrolment(db, row.tag, row.userid, row.courseid, row.roleid, a.ueid, row.samieenrolid, a.linkOk);
        EnrolResult(UserEnrolment(a.ueid), lms', db', if ok then 0 else 1)
  }

  /** What one call does: the value is truthy exactly when a call threw or a
      user enrolment was found; enrol_user's enrolment stays made whatever
      happens after it; the link is written, and a failed write counted as
      one error, only when the user enrolment was found. */
  lemma SamieEnrolUserOutcome(lms: Lms, db: SamieDb, row: EnrolRow, enrolid: int, a: Attempt)
    ensures var r := SamieEnrolUser(lms, db, row, enrolid, a);
      && (Truthy(r.ret) <==> a.enrolThrows || a.lookupThrows || a.ueid != 0)
      && (r.ret == Thrown <==> a.enrolThrows || a.lookupThrows)
    ensures var r := SamieEnrolUser(lms, db, row, enrolid, a);
      && (a.enrolThrows ==> r.lms == lms)
      && (!a.enrolThrows ==>
            r.lms == lms.(enrolments := lms.enrolments + [EnrolCall(row.userid, row.courseid, enrolid, row.roleid)]))
    ensures var r := SamieEnrolUser(lms, db, row, enrolid, a);
      && (a.enrolThrows || a.lookupThrows || a.ueid == 0 ==> r.db == db && r.errors == 0)
      && (!a.enrolThrows && !a.lookupThrows && a.ueid != 0 ==>
            var (ok, db') := LinkEnrolment(db, row.tag, row.userid, row.courseid, row.roleid, a.ueid, row.samieenrolid, a.linkOk);
            r.db == db' && r.errors == if ok then 0 else 1)
  {
  }

  /** A failed enrol_user is still a truthy return, so the caller counts it
      as enrolled. */
  lemma ThrownCountsAsEnrolled(lms: Lms, db: SamieDb, row: EnrolRow, enrolid: int, lookupThrows: bool, ueid: int, linkOk: bool)
    ensures Truthy(SamieEnrolUser(lms, db, row, enrolid, Attempt(true, lookupThrows, ueid, linkOk)).ret)
    ensures SamieEnrolUser(lms, db, row, enrolid, Attempt(true, lookupThrows, ueid, linkOk)).lms.enrolments == lms.enrolments
  {
  }

  /** A lookup that throws after a successful enrol_user leaves the user
      enrolled with no link written, and the return is still truthy. */
  lemma LookupThrowLeavesUnlinked(lms: Lms, db: SamieDb, row: EnrolRow, enrolid: int, ueid: int, linkOk: bool)
    ensures var r := SamieEnrolUser(lms, db, row, enrolid, Attempt(false, true, ueid, linkOk));
      && Truthy(r.ret)
      && r.lms.enrolments == lms.enrolments + [EnrolCall(row.userid, row.courseid, enrolid, row.roleid)]
      && r.db == db && r.errors == 0
  {
  }

  // ---------------------------------------------------------- the loop

  /** The loop's variables: lastcourse, coursecontext (as its truthiness),
      enrolid, counter and enrolmentscount (`pending`), plus what the model
      observes: the value of every samie_enrol_user call in order, the
      course ids looked up in order, and the two databases and the error
      count. */
  datatype Reconcile = Reconcile(
    lastcourse: int, context: bool, enrolid: int, counter: nat, pending: int,
    calls: seq<EnrolReturn>, resolved: seq<int>, lms: Lms, db: SamieDb, errors: nat)

  function Start(n: int, lms: Lms, db: SamieDb): Reconcile
  {
    Reconcile(-1, false, 0, 0, n, [], [], lms, db, 0)
  }

  /** How many of the calls returned a truthy value. */
  function TruthyCount(rets: seq<EnrolReturn>): (n: nat)
    ensures n <= |rets|
  {
    if rets == [] then 0
    else TruthyCount(rets[..|rets| - 1]) + (if Truthy(rets[|rets| - 1]) then 1 else 0)
  }

  /** One row of the loop. A row whose course id differs from the previous
      row's looks the course up: a missing course skips the row and leaves
      context and enrolid as they were. Then, with a context, the user is
      enrolled and counted when the return is truthy; without one the row
      is skipped. */
  function Step(st: Reconcile, row: EnrolRow, res: Resolution, a: Attempt): (r: Reconcile)
    ensures r.resolved == st.resolved + (if row.courseid != st.lastcourse then [row.courseid] else [])
    ensures r.lastcourse == row.courseid
  {
    var st1 :=
      if row.courseid != st.lastcourse
      then st.(lastcourse := row.courseid, resolved := st.resolved + [row.courseid])
      else st;
    if row.courseid != st.lastcourse && res == Missing then st1.(pending := st1.pending - 1)
    else
      var st2 :=
        if row.courseid != st.lastcourse then
          match res
          case Failed => st1.(context := false)
          case Found(e) => st1.(context := true, enrolid := e)
          case Missing => st1
        else st1;
      if st2.context then
        var e := SamieEnrolUser(st2.lms, st2.db, row, st2.enrolid, a);
        st2.(counter := st2.counter + (if Truthy(e.ret) then 1 else 0), calls := st2.calls + [e.ret],
             lms := e.lms, db := e.db, errors := st2.errors + e.errors)
      else st2.(pending := st2.pending - 1)
  }

  /** What one row does to the counters: the row is dropped from `pending`
      exactly when its course is missing or the context after the lookup is
      false, `counter` rises exactly when samie_enrol_user ran and its value
      was truthy, and a missing course keeps the previous context and
      enrolid. */
  lemma StepOutcome(st: Reconcile, row: EnrolRow, res: Resolution, a: Attempt)
    ensures var r := Step(st, row, res, a);
      var newCourse := row.courseid != st.lastcourse;
      && r.context == (if newCourse && res != Missing then res.Found? else st.context)
      && r.enrolid == (if newCourse && res.Found? then res.enrolid else st.enrolid)
    ensures var r := Step(st, row, res, a);
      var newCourse := row.courseid != st.lastcourse;
      var skipped := (newCourse && !res.Found?) || (!newCourse && !st.context);
      && r.pending == st.pending - (if skipped then 1 else 0)
      && |r.calls| == |st.calls| + (if skipped then 0 else 1)
      && r.counter == st.counter + (if !skipped && (a.enrolThrows || a.lookupThrows || a.ueid != 0) then 1 else 0)
    ensures var r := Step(st, row, res, a);
      && r.calls[..|st.calls|] == st.calls
      && (|r.calls| > |st.calls| ==> r.calls[|st.calls|] == SamieEnrolUser(st.lms, st.db, row, r.enrolid, a).ret)
  {
  }

  /** The state after the given rows, each with its lookup and enrolment
      outcomes. */
  function Run(init: Reconcile, rows: seq<EnrolRow>, res: seq<Resolution>, atts: seq<Attempt>): Reconcile
    requires |res| == |rows| && |atts| == |rows|
  {
    if |rows| == 0 then init
    else
      var n := |rows| - 1;
      Step(Run(init, rows[..n], res[..n], atts[..n]), rows[n], res[n], atts[n])
  }

  /** One more row extends the run by one step. */
  lemma RunSnoc(init: Reconcile, rows: seq<EnrolRow>, res: seq<Resolution>, atts: seq<Attempt>, i: nat)
    requires |res| == |rows| && |atts| == |rows| && i < |rows|
    ensures Run(init, rows[..i + 1], res[..i + 1], atts[..i + 1]) ==
            Step(Run(init, rows[..i], res[..i], atts[..i]), rows[i], res[i], atts[i])
  {
    assert rows[..i + 1][..i] == rows[..i];
    assert res[..i + 1][..i] == res[..i];
    assert atts[..i + 1][..i] == atts[..i];
  }

  function CourseIds(rows: seq<EnrolRow>): (ids: seq<int>)
    ensures |ids| == |rows|
  {
    seq(|rows|, i requires 0 <= i < |rows| => rows[i].courseid)
  }

  /** The first id of every run of equal neighbours, the run before the
      first element being `-1`. */
  function RunHeads(ids: seq<int>): seq<int>
  {
    if |ids| == 0 then []
    else
      var n := |ids| - 1;
      RunHeads(ids[..n]) + (if ids[n] != (if n == 0 then -1 else ids[n - 1]) then [ids[n]] else [])
  }

  /** A course is looked up exactly at the rows where the course id differs
      from the previous row's, and the count of samie_enrol_user calls plus
      the rows dropped from enrolmentscount is the number of rows. */
  lemma {:induction false} RunLookups(lms: Lms, db: SamieDb, rows: seq<EnrolRow>, res: seq<Resolution>, atts: seq<Attempt>)
    requires |res| == |rows| && |atts| == |rows|
    ensures Run(Start(|rows|, lms, db), rows, res, atts).resolved == RunHeads(CourseIds(rows))
    ensures |rows| > 0 ==> Run(Start(|rows|, lms, db), rows, res, atts).lastcourse == rows[|rows| - 1].courseid
    ensures |Run(Start(|rows|, lms, db), rows, res, atts).calls| + (|rows| - Run(Start(|rows|, lms, db), rows, res, atts).pending) == |rows|
    ensures Run(Start(|rows|, lms, db), rows, res, atts).counter == TruthyCount(Run(Start(|rows|, lms, db), rows, res, atts).calls)
  {
    RunLookupsFrom(Start(|rows|, lms, db), rows, res, atts);
  }

  lemma {:induction false} RunLookupsFrom(init: Reconcile, rows: seq<EnrolRow>, res: seq<Resolution>, atts: seq<Attempt>)
    requires |res| == |rows| && |atts| == |rows|
    requires init.lastcourse == -1 && init.resolved == [] && init.calls == [] && init.counter == 0
    ensures Run(init, rows, res, atts).resolved == RunHeads(CourseIds(rows))
    ensures |rows| > 0 ==> Run(init, rows, res, atts).lastcourse == rows[|rows| - 1].courseid
    ensures |Run(init, rows, res, atts).calls| + (init.pending - Run(init, rows, res, atts).pending) == |rows|
    ensures Run(init, rows, res, atts).counter == TruthyCount(Run(init, rows, res, atts).calls)
  {
    RunHeadsFrom(init, rows, res, atts);
    RunCountsFrom(init, rows, res, atts);
  }

  /** The lookups of a run from a fresh state are the run heads. */
  lemma {:induction false} RunHeadsFrom(init: Reconcile, rows: seq<EnrolRow>, res: seq<Resolution>, atts: seq<Attempt>)
    requires |res| == |rows| && |atts| == |rows|
    requires init.lastcourse == -1 && init.resolved == []
    ensures Run(init, rows, res, atts).resolved == RunHeads(CourseIds(rows))
    ensures |rows| > 0 ==> Run(init, rows, res, atts).lastcourse == rows[|rows| - 1].courseid
  {
    if |rows| > 0 {
      var n := |rows| - 1;
      RunHeadsFrom(init, rows[..n], res[..n], atts[..n]);
      assert CourseIds(rows)[..n] == CourseIds(rows[..n]);
      if n > 0 {
        assert rows[..n][n - 1] == rows[n - 1];
      }
    }
  }

  /** Every row of a run either calls samie_enrol_user or is dropped from
      `pending`, and `counter` counts the truthy calls. */
  lemma {:induction false} RunCountsFrom(init: Reconcile, rows: seq<EnrolRow>, res: seq<Resolution>, atts: seq<Attempt>)
    requires |res| == |rows| && |atts| == |rows|
    requires init.calls == [] && init.counter == 0
    ensures |Run(init, rows, res, atts).calls| + (init.pending - Run(init, rows, res, atts).pending) == |rows|
    ensures Run(init, rows, res, atts).counter == TruthyCount(Run(init, rows, res, atts).calls)
  {
    if |rows| > 0 {
      var n := |rows| - 1;
      RunCountsFrom(init, rows[..n], res[..n], atts[..n]);
      StepTruthyCount(Run(init, rows[..n], res[..n], atts[..n]), rows[n], res[n], atts[n]);
    }
  }

  /** One step either calls samie_enrol_user or drops the row from
      `pending`, and raises `counter` by exactly the truthy calls it adds. */
  lemma StepTruthyCount(st: Reconcile, row: EnrolRow, res: Resolution, a: Attempt)
    ensures TruthyCount(Step(st, row, res, a).calls) + st.counter == TruthyCount(st.calls) + Step(st, row, res, a).counter
    ensures |Step(st, row, res, a).calls| - |st.calls| + (st.pending - Step(st, row, res, a).pending) == 1
  {
    StepOutcome(st, row, res, a);
    var r := Step(st, row, res, a);
    var newCourse := row.courseid != st.lastcourse;
    var skipped := (newCourse && !res.Found?) || (!newCourse && !st.context);
    assert r.pending == st.pending - (if skipped then 1 else 0);
    assert |r.calls| == |st.calls| + (if skipped then 0 else 1);
    if |r.calls| > |st.calls| {
      var e := SamieEnrolUser(st.lms, st.db, row, r.enrolid, a);
      SamieEnrolUserOutcome(st.lms, st.db, row, r.enrolid, a);
      assert r.calls == st.calls + [e.ret];
      assert r.calls[..|r.calls| - 1] == st.calls;
    } else {
      assert r.calls == st.calls;
    }
  }

  predicate SortedIds(ids: seq<int>)
  {
    forall i, j :: 0 <= i < j < |ids| ==> ids[i] <= ids[j]
  }

  /** With ids sorted (the query orders by course id) the run heads are the
      distinct ids, each once and in increasing order. */
  lemma RunHeadsOfSorted(ids: seq<int>)
    requires SortedIds(ids) && -1 !in ids
    ensures forall i, j :: 0 <= i < j < |RunHeads(ids)| ==> RunHeads(ids)[i] < RunHeads(ids)[j]
    ensures forall x :: x in RunHeads(ids) <==> x in ids
  {
    RunHeadsCover(ids);
    RunHeadsIncreasing(ids);
  }

  /** Every id starts a run or follows an equal id, so the heads cover the ids. */
  lemma {:induction false} RunHeadsCover(ids: seq<int>)
    requires -1 !in ids
    ensures forall x :: x in RunHeads(ids) <==> x in ids
  {
    if |ids| > 0 {
      var n := |ids| - 1;
      RunHeadsCover(ids[..n]);
      assert ids == ids[..n] + [ids[n]];
      if n > 0 {
        assert ids[n - 1] in ids[..n];
      }
    }
  }

  /** Over sorted ids a new head exceeds every earlier head. */
  lemma {:induction false} RunHeadsIncreasing(ids: seq<int>)
    requires SortedIds(ids) && -1 !in ids
    ensures forall i, j :: 0 <= i < j < |RunHeads(ids)| ==> RunHeads(ids)[i] < RunHeads(ids)[j]
  {
    if |ids| > 0 {
      var n := |ids| - 1;
      assert SortedIds(ids[..n]);
      RunHeadsIncreasing(ids[..n]);
      RunHeadsCover(ids[..n]);
      var h := RunHeads(ids[..n]);
      if ids[n] != (if n == 0 then -1 else ids[n - 1]) {
        forall x | x in h ensures x < ids[n] {
          var i :| 0 <= i < n && ids[..n][i] == x;
          assert ids[i] <= ids[n - 1] <= ids[n];
        }
        var h' := h + [ids[n]];
        assert RunHeads(ids) == h';
        forall i, j | 0 <= i < j < |h'| ensures h'[i] < h'[j] {
          if j == |h| {
            assert h'[i] == h[i] && h[i] in h;
          }
        }
      }
    }
  }

  /** A strictly increasing sequence has as many elements as values. */
  lemma {:induction false} IncreasingCard(s: seq<int>)
    requires forall i, j :: 0 <= i < j < |s| ==> s[i] < s[j]
    ensures |set x | x in s| == |s|
  {
    if |s| > 0 {
      var n := |s| - 1;
      IncreasingCard(s[..n]);
      assert s == s[..n] + [s[n]];
      assert (set x | x in s) == (set x | x in s[..n]) + {s[n]};
      assert s[n] !in s[..n];
    }
  }

  /** For rows ordered by course id, each distinct course is looked up once. */
  lemma OneLookupPerCourse(lms: Lms, db: SamieDb, rows: seq<EnrolRow>, res: seq<Resolution>, atts: seq<Attempt>)
    requires |res| == |rows| && |atts| == |rows|
    requires SortedIds(CourseIds(rows)) && -1 !in CourseIds(rows)
    ensures |Run(Start(|rows|, lms, db), rows, res, atts).resolved| == |set i | 0 <= i < |rows| :: rows[i].courseid|
  {
    RunLookups(lms, db, rows, res, atts);
    var ids := CourseIds(rows);
    RunHeadsOfSorted(ids);
    IncreasingCard(RunHeads(ids));
    assert (set x | x in RunHeads(ids)) == (set i | 0 <= i < |rows| :: rows[i].courseid) by {
      forall x | x in (set i | 0 <= i < |rows| :: rows[i].courseid) ensures x in RunHeads(ids) {
        var i :| 0 <= i < |rows| && rows[i].courseid == x;
        assert ids[i] == x;
      }
    }
  }

  /** The missing-course path keeps the previous course's context and
      enrolid: a second row of a missing course is enrolled through the
      manual instance of the course before it. */
  lemma StaleContextExample(lms: Lms, db: SamieDb)
    ensures
      var rows := [EnrolRow(31, 10, "CNCP", 0, 5), EnrolRow(32, 20, "CNCP", 0, 5), EnrolRow(33, 20, "CNCP", 0, 5)];
      var res := [Found(7), Missing, Missing];
      var atts := [Attempt(false, false, 0, true), Attempt(false, false, 0, true), Attempt(false, false, 0, true)];
      Run(Start(3, lms, db), rows, res, atts).lms.enrolments ==
        lms.enrolments + [EnrolCall(31, 10, 7, 5), EnrolCall(33, 20, 7, 5)]
  {
    var rows := [EnrolRow(31, 10, "CNCP", 0, 5), EnrolRow(32, 20, "CNCP", 0, 5), EnrolRow(33, 20, "CNCP", 0, 5)];
    var res := [Found(7), Missing, Missing];
    var atts := [Attempt(false, false, 0, true), Attempt(false, false, 0, true), Attempt(false, false, 0, true)];
    assert rows[..2][..1] == rows[..1] && res[..2][..1] == res[..1] && atts[..2][..1] == atts[..1];
    assert rows[..3] == rows && res[..3] == res && atts[..3] == atts;
    assert rows[..1][..0] == [] && res[..1][..0] == [] && atts[..1][..0] == [];
    var s1 := Run(Start(3, lms, db), rows[..1], res[..1], atts[..1]);
    assert Run(Start(3, lms, db), rows[..1][..0], res[..1][..0], atts[..1][..0]) == Start(3, lms, db);
    assert s1 == Step(Start(3, lms, db), rows[0], Found(7), atts[0]);
    assert s1.lms.enrolments == lms.enrolments + [EnrolCall(31, 10, 7, 5)];
    var s2 := Run(Start(3, lms, db), rows[..2], res[..2], atts[..2]);
    assert s2 == s1.(lastcourse := 20, resolved := s1.resolved + [20], pending := s1.pending - 1);
  }
}
