/** The enrolment plugin object: its fields, updated in place across a
    synchronisation run, and the methods that create courses, enrol users
    and send the reports. The Moodle and SAMIE databases are held as the
    `lms` and `samie` values; every outcome those systems decide on their
    own is an argument. */
module Plugin {
  import opened Wrappers
  import opened Text
  import opened Links
  import opened Platform
  import opened Courses
  import opened Enrolments
  import opened Accounts
  import opened Report
  import opened Sync
  import Usage

  /** Plugin settings shared by the SAMIE packages (`package_samie`). */
  const BaseUrlSetting: string := "baseurl"
  const CategorySetting: string := "professionalcertificatecategory"

  /** What the platform decides when a training group is created: the new
      course or category id, the write of section 0, and the link UPDATE. */
  datatype GroupJob = GroupJob(group: TrainingGroup, newid: int, section0: SectionWrite, linkOk: bool)

  /** The same for a module: its specialties, one write per specialty, the
      final test's write and the link UPDATE. */
  datatype ModuleJob = ModuleJob(aes: Module, newid: int, specs: seq<Specialty>, writes: seq<SectionWrite>,
                                 finalWrite: SectionWrite, linkOk: bool)

  predicate ValidModuleJobs(jobs: seq<ModuleJob>)
  {
    forall i :: 0 <= i < |jobs| ==> |jobs[i].writes| == |jobs[i].specs|
  }

  /** Everything a run reads from outside: the connection, the SAMIE mode,
      the rows of each query and what each write and transfer does. */
  datatype RunInputs = RunInputs(
    connected: bool, mode: string, sepeWrites: seq<UserWrite>,
    groups: seq<GroupJob>, modules: seq<ModuleJob>, users: seq<(Person, UserWrite)>,
    enrolRows: seq<EnrolRow>, resolutions: seq<Resolution>, attempts: seq<Attempt>,
    accessRows: seq<Datum>, accessExec: CurlExec, participantRows: seq<Datum>, participantExec: CurlExec,
    usageRows: seq<Usage.LogRow>, usageExec: CurlExec, now: string)

  predicate ValidInputs(inp: RunInputs)
  {
    && |inp.sepeWrites| == 3
    && ValidModuleJobs(inp.modules)
    && |inp.resolutions| == |inp.enrolRows| && |inp.attempts| == |inp.enrolRows|
  }

  class EnrolPlugin {
    var errorsfound: int
    var samiemode: string
    var baseurl: string
    var sepeIds: SepeIds
    /** The plugin's own settings (`enrol_samieintegration`): the marks. */
    var marks: map<string, string>
    /** The shared settings (`package_samie`). */
    var settings: map<string, string>
    var lms: Lms
    var samie: SamieDb

    constructor(settings: map<string, string>, marks: map<string, string>, lms: Lms, samie: SamieDb)
      ensures this.settings == settings && this.marks == marks && this.lms == lms && this.samie == samie
      ensures errorsfound == 0 && baseurl == "" && samiemode == ""
    {
      this.settings := settings;
      this.marks := marks;
      this.lms := lms;
      this.samie := samie;
      errorsfound := 0;
      samiemode := "";
      baseurl := "";
      sepeIds := SepeIds(0, 0, 0);
    }

    /** get_config on the shared settings: an absent setting reads as "". */
    function Setting(name: string): string
      reads this
    {
      if name in settings then settings[name] else ""
    }

    /** The closing status line of the run. */
    function Status(): (s: string)
      reads this
      ensures s == SuccessStatus <==> errorsfound <= 0
    {
      FinalStatus(errorsfound)
    }

    // -------------------------------------------------------------- courses

    /** create_standard_course: unless the shortname is taken, create the
        course `name (id)` in category 1, name its section 0 after the
        group and link the group to it; a taken shortname counts one error
        and creates nothing. */
    method CreateStandardCourse(job: GroupJob)
      modifies this
      ensures var name := GroupCourseName(job.group);
        if ShortnameTaken(old(lms), name) then
          errorsfound == old(errorsfound) + 1 && lms == old(lms) && samie == old(samie)
        else
          && errorsfound == old(errorsfound)
          && lms == old(lms).(courses := old(lms).courses + [InsertCourseSection(
                NewCourse(job.newid, name, name, "", 1, job.group.info),
                Section(job.group.denominacion, ""), 0, job.section0).1])
          && samie == UpdateLink(old(samie), GroupCourse, job.group.afgId, job.newid, job.linkOk).1
      ensures marks == old(marks) && settings == old(settings) && baseurl == old(baseurl)
        && samiemode == old(samiemode) && sepeIds == old(sepeIds)
    {
      var shortname := GroupCourseName(job.group);
      if !ShortnameTaken(lms, shortname) {
        var course := NewCourse(job.newid, shortname, shortname, "", 1, job.group.info);
        var named := InsertCourseSection(course, Section(job.group.denominacion, ""), 0, job.section0);
        lms := lms.(courses := lms.courses + [named.1]);
        samie := UpdateLink(samie, GroupCourse, job.group.afgId, job.newid, job.linkOk).1;
      } else {
        errorsfound := errorsfound + 1;
      }
    }

    /** create_course_cat: create the category under the configured parent
        and link the group to it; a failed link counts one error. */
    method CreateCourseCat(job: GroupJob)
      modifies this
      ensures lms == old(lms).(categories := old(lms).categories +
        [Category(job.newid, job.group.denominacion, "", "", old(Setting(CategorySetting)), 2)])
      ensures samie == UpdateLink(old(samie), GroupCourse, job.group.afgId, job.newid, job.linkOk).1
      ensures errorsfound == old(errorsfound) + (if job.linkOk then 0 else 1)
      ensures marks == old(marks) && settings == old(settings) && baseurl == old(baseurl)
        && samiemode == old(samiemode) && sepeIds == old(sepeIds)
    {
      var category := Category(job.newid, job.group.denominacion, "", "", Setting(CategorySetting), 2);
      lms := lms.(categories := lms.categories + [category]);
      var linked := UpdateLink(samie, GroupCourse, job.group.afgId, job.newid, job.linkOk);
      samie := linked.1;
      if !linked.0 {
        errorsfound := errorsfound + 1;
      }
    }

    /** create_moodle_course: a category for a professional certificate, a
        standard course otherwise. */
    method CreateMoodleCourse(job: GroupJob)
      modifies this
      ensures ContainerFor(job.group) == StandardCourse ==>
        var name := GroupCourseName(job.group);
        if ShortnameTaken(old(lms), name) then
          errorsfound == old(errorsfound) + 1 && lms == old(lms) && samie == old(samie)
        else
          && errorsfound == old(errorsfound)
          && lms == old(lms).(courses := old(lms).courses + [InsertCourseSection(
                NewCourse(job.newid, name, name, "", 1, job.group.info),
                Section(job.group.denominacion, ""), 0, job.section0).1])
          && samie == UpdateLink(old(samie), GroupCourse, job.group.afgId, job.newid, job.linkOk).1
      ensures ContainerFor(job.group) == CourseCategory ==>
        && lms == old(lms).(categories := old(lms).categories +
             [Category(job.newid, job.group.denominacion, "", "", old(Setting(CategorySetting)), 2)])
        && samie == UpdateLink(old(samie), GroupCourse, job.group.afgId, job.newid, job.linkOk).1
        && errorsfound == old(errorsfound) + (if job.linkOk then 0 else 1)
      ensures marks == old(marks) && settings == old(settings) && baseurl == old(baseurl)
        && samiemode == old(samiemode) && sepeIds == old(sepeIds)
    {
      if ContainerFor(job.group) == StandardCourse {
        CreateStandardCourse(job);
      } else {
        CreateCourseCat(job);
      }
    }

    /** create_module: unless the code is taken as a shortname or `AES_id`
        as an idnumber, create the module course in its group's category,
        link the specialty action to it and lay out its sections; otherwise
        count one error and create nothing. */
    method CreateModule(job: ModuleJob)
      requires |job.writes| == |job.specs|
      modifies this
      ensures var m := job.aes;
        if ShortnameTaken(old(lms), m.codigo) || IdnumberTaken(old(lms), ModuleIdnumber(m)) then
          errorsfound == old(errorsfound) + 1 && lms == old(lms) && samie == old(samie)
        else
          var course := NewCourse(job.newid, m.cerCodigo + " " + m.descripcion, m.codigo,
                                  ModuleIdnumber(m), m.afgIdLms, m.info);
          && errorsfound == old(errorsfound)
          && lms == old(lms).(courses := old(lms).courses +
               [Layout(course, job.specs, job.writes, m.aesId, m.codigo, job.finalWrite).0])
          && samie == UpdateLink(old(samie), SpecialtyCourse, m.aesId, job.newid, job.linkOk).1
      ensures marks == old(marks) && settings == old(settings) && baseurl == old(baseurl)
        && samiemode == old(samiemode) && sepeIds == old(sepeIds)
    {
      var m := job.aes;
      var shortname := m.codigo;
      var idnumber := ModuleIdnumber(m);
      var existscourseshortname := ShortnameTaken(lms, shortname);
      var existscourseidnumber := IdnumberTaken(lms, idnumber);
      if !existscourseshortname && !existscourseidnumber {
        var course := NewCourse(job.newid, m.cerCodigo + " " + m.descripcion, shortname, idnumber, m.afgIdLms, m.info);
        samie := UpdateLink(samie, SpecialtyCourse, m.aesId, job.newid, job.linkOk).1;
        var laidOut, counter := AddSections(course, job.specs, job.writes, m.aesId, m.codigo, job.finalWrite);
        lms := lms.(courses := lms.courses + [laidOut]);
      } else {
        errorsfound := errorsfound + 1;
      }
    }

    /** sync_courses: every pending training group, then every pending
        module. */
    method SyncCourses(groups: seq<GroupJob>, modules: seq<ModuleJob>)
      requires ValidModuleJobs(modules)
      modifies this
      ensures errorsfound >= old(errorsfound)
      ensures marks == old(marks) && settings == old(settings) && baseurl == old(baseurl)
        && samiemode == old(samiemode) && sepeIds == old(sepeIds)
    {
      for i := 0 to |groups|
        invariant errorsfound >= old(errorsfound)
        invariant marks == old(marks) && settings == old(settings) && baseurl == old(baseurl)
        && samiemode == old(samiemode) && sepeIds == old(sepeIds)
      {
        CreateMoodleCourse(groups[i]);
      }
      for i := 0 to |modules|
        invariant errorsfound >= old(errorsfound)
        invariant marks == old(marks) && settings == old(settings) && baseurl == old(baseurl)
        && samiemode == old(samiemode) && sepeIds == old(sepeIds)
      {
        CreateModule(modules[i]);
      }
    }

    // ---------------------------------------------------------------- users

    /** sync_users: sync_user for every person not yet linked. */
    method SyncUsers(users: seq<(Person, UserWrite)>)
      modifies this
      ensures errorsfound == old(errorsfound)
      ensures marks == old(marks) && settings == old(settings) && baseurl == old(baseurl)
        && samiemode == old(samiemode) && sepeIds == old(sepeIds)
    {
      for i := 0 to |users|
        invariant errorsfound == old(errorsfound)
        invariant marks == old(marks) && settings == old(settings) && baseurl == old(baseurl)
        && samiemode == old(samiemode) && sepeIds == old(sepeIds)
      {
        var synced := SyncUser(lms, samie, users[i].0, users[i].1);
        lms := synced.1;
        samie := synced.2;
      }
    }

    /** prepare_sepe_users: find or create the three auxiliary accounts and
        remember their ids. */
    method PrepareSepe(alu: UserWrite, tut: UserWrite, adm: UserWrite)
      modifies this
      ensures (sepeIds, lms) == PrepareSepeUsers(old(lms), old(samie), alu, tut, adm)
      ensures samie == old(samie) && errorsfound == old(errorsfound)
      ensures marks == old(marks) && settings == old(settings) && baseurl == old(baseurl)
        && samiemode == old(samiemode)
    {
      var prepared := PrepareSepeUsers(lms, samie, alu, tut, adm);
      sepeIds := prepared.0;
      lms := prepared.1;
    }

    // ----------------------------------------------------------- enrolments

    /** samie_enrol_user on the plugin's state: a failed link write counts
        one error. */
    method SamieEnrolUser(row: EnrolRow, enrolid: int, a: Attempt) returns (ret: EnrolReturn)
      modifies this
      ensures var r := Enrolments.SamieEnrolUser(old(lms), old(samie), row, enrolid, a);
        ret == r.ret && lms == r.lms && samie == r.db && errorsfound == old(errorsfound) + r.errors
      ensures marks == old(marks) && settings == old(settings) && baseurl == old(baseurl)
        && samiemode == old(samiemode) && sepeIds == old(sepeIds)
    {
      var r := Enrolments.SamieEnrolUser(lms, samie, row, enrolid, a);
      ret := r.ret;
      lms := r.lms;
      samie := r.db;
      errorsfound := errorsfound + r.errors;
    }

    /** sync_enrolments, as the source runs it: one pass over the pending
        enrolments ordered by course, looking a course up only when its id
        differs from the previous row's. Returns `counter` and
        `enrolmentscount`. */
    method SyncEnrolments(rows: seq<EnrolRow>, res: seq<Resolution>, atts: seq<Attempt>)
      returns (counter: nat, enrolmentscount: int)
      requires |res| == |rows| && |atts| == |rows|
      modifies this
      ensures var st := Run(Start(|rows|, old(lms), old(samie)), rows, res, atts);
        && counter == st.counter && enrolmentscount == st.pending
        && lms == st.lms && samie == st.db && errorsfound == old(errorsfound) + st.errors
      ensures marks == old(marks) && settings == old(settings) && baseurl == old(baseurl)
        && samiemode == old(samiemode) && sepeIds == old(sepeIds)
    {
      counter := 0;
      enrolmentscount := |rows|;
      var lastcourse := -1;
      var coursecontext := false;
      var enrolid := 0;
      ghost var calls: seq<EnrolReturn> := [];
      ghost var resolved: seq<int> := [];
      ghost var init := Start(|rows|, lms, samie);
      var i := 0;
      while i < |rows|
        invariant 0 <= i <= |rows|
        invariant errorsfound >= old(errorsfound)
        invariant Reconcile(lastcourse, coursecontext, enrolid, counter, enrolmentscount, calls, resolved,
                            lms, samie, errorsfound - old(errorsfound)) == Run(init, rows[..i], res[..i], atts[..i])
        invariant marks == old(marks) && settings == old(settings) && baseurl == old(baseurl)
        && samiemode == old(samiemode) && sepeIds == old(sepeIds)
      {
        ghost var before := Reconcile(lastcourse, coursecontext, enrolid, counter, enrolmentscount, calls, resolved,
                                      lms, samie, errorsfound - old(errorsfound));
        RunSnoc(init, rows, res, atts, i);
        var enrol := rows[i];
        var skipped := false;
        if lastcourse != enrol.courseid {
          lastcourse := enrol.courseid;
          resolved := resolved + [enrol.courseid];
          match res[i]
          case Missing =>
            enrolmentscount := enrolmentscount - 1;
            skipped := true;
          case Failed =>
            coursecontext := false;
          case Found(e) =>
            coursecontext := true;
            enrolid := e;
        }
        if !skipped {
          if coursecontext {
            var lmsid := SamieEnrolUser(enrol, enrolid, atts[i]);
            calls := calls + [lmsid];
            if Truthy(lmsid) {
              counter := counter + 1;
            }
          } else {
            enrolmentscount := enrolmentscount - 1;
          }
        }
        assert Reconcile(lastcourse, coursecontext, enrolid, counter, enrolmentscount, calls, resolved,
                         lms, samie, errorsfound - old(errorsfound)) == Step(before, rows[i], res[i], atts[i]);
        i := i + 1;
      }
      assert rows[..i] == rows && res[..i] == res && atts[..i] == atts;
    }

    // -------------------------------------------------------------- reports

    /** send_access_data_to_samie / send_participants_data_to_samie: send the
        rows and, when the send reports success, set the action's mark. */
    method SendSqlReport(action: string, rows: seq<Datum>, exec: CurlExec, now: string) returns (sent: Option<Post>)
      modifies this
      ensures rows == [] ==> sent == None && marks == AfterSend(old(marks), action, true, now)
      ensures rows != [] ==> sent == Some(Post(ImporterUrl(baseurl), action, Payload(rows))) &&
                             marks == AfterSend(old(marks), action, CallCurl(exec), now)
      ensures lms == old(lms) && samie == old(samie) && errorsfound == old(errorsfound)
      ensures settings == old(settings) && baseurl == old(baseurl) && samiemode == old(samiemode)
        && sepeIds == old(sepeIds)
    {
      var ok;
      ok, sent := SendSqlData(baseurl, action, rows, exec);
      marks := AfterSend(marks, action, ok, now);
    }

    /** send_usage_data_to_samie: when get_usage_data gives a report, post it
        and set the mark on success; with no report nothing is sent and no
        mark moves. */
    method SendUsageData(rows: seq<Usage.LogRow>, exec: CurlExec, now: string) returns (sent: Option<Post>)
      modifies this
      ensures Usage.UsageReport(rows).None? ==> sent == None && marks == old(marks)
      ensures Usage.UsageReport(rows).Some? ==>
        sent == Some(Post(ImporterUrl(baseurl), "use", Usage.UsageReport(rows).value)) &&
        marks == AfterSend(old(marks), "use", CallCurl(exec), now)
      ensures lms == old(lms) && samie == old(samie) && errorsfound == old(errorsfound)
      ensures settings == old(settings) && baseurl == old(baseurl) && samiemode == old(samiemode)
        && sepeIds == old(sepeIds)
    {
      var action := "use";
      var usedata := Usage.GetUsageData(rows);
      sent := None;
      if usedata.Some? {
        sent := Some(Post(ImporterUrl(baseurl), action, usedata.value));
        var ok := CallCurl(exec);
        marks := AfterSend(marks, action, ok, now);
      }
    }

    // ------------------------------------------------------------ the run

    /** start_sync: reset the error count; without a connection count one
        error and stop; otherwise prepare the SEPE users in SEPE mode,
        synchronise courses, users and enrolments, and send the three reports
        when a base URL is configured. Returns the status line. */
    method StartSync(inp: RunInputs) returns (status: string)
      requires ValidInputs(inp)
      modifies this
      ensures status == FinalStatus(errorsfound) && status == Status()
      ensures !inp.connected ==> errorsfound == 1 && lms == old(lms) && samie == old(samie) && marks == old(marks)
      ensures inp.connected ==> errorsfound >= 0 && samiemode == inp.mode
      ensures inp.connected && IsSepeMode(inp.mode) ==>
        sepeIds == PrepareSepeUsers(old(lms), old(samie), inp.sepeWrites[0], inp.sepeWrites[1], inp.sepeWrites[2]).0
      ensures !(inp.connected && IsSepeMode(inp.mode)) ==> sepeIds == old(sepeIds)
      ensures inp.connected && old(Setting(BaseUrlSetting)) == "" ==> marks == old(marks)
      ensures inp.connected && old(Setting(BaseUrlSetting)) != "" ==>
        Some(baseurl) == NormalizeBaseUrl(old(Setting(BaseUrlSetting)))
    {
      errorsfound := 0;
      if inp.connected {
        samiemode := inp.mode;
        if IsSepeMode(samiemode) {
          PrepareSepe(inp.sepeWrites[0], inp.sepeWrites[1], inp.sepeWrites[2]);
        }
        SyncCourses(inp.groups, inp.modules);
        SyncUsers(inp.users);
        var counter, pending := SyncEnrolments(inp.enrolRows, inp.resolutions, inp.attempts);
        var url := NormalizeBaseUrl(Setting(BaseUrlSetting));
        baseurl := Setting(BaseUrlSetting);
        if url.Some? {
          baseurl := url.value;
          var access := SendSqlReport("access", inp.accessRows, inp.accessExec, inp.now);
          var participants := SendSqlReport("participantes", inp.participantRows, inp.participantExec, inp.now);
          var usage := SendUsageData(inp.usageRows, inp.usageExec, inp.now);
        }
      } else {
        errorsfound := errorsfound + 1;
      }
      status := FinalStatus(errorsfound);
    }
  }
}
