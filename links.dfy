/** The links the plugin writes back into the SAMIE database: for each kind of
    SAMIE record, the id of the Moodle object it was materialised as, and the
    table of SEPE auxiliary enrolments. Each write is one SQL statement whose
    success is decided by the database, passed in as `ok`. */
module Links {
  import opened Wrappers

  /** The link columns, one per (table, column) pair the plugin updates. */
  datatype Column =
    | GroupCourse        // st_accionesformativas_grupos.afg_id_lms
    | SpecialtyCourse    // st_acciones_especialidades.aes_id_lms
    | PersonAccount      // st_personas.per_id_lms
    | StudentCncp        // st_acciones_alumnos_especialidades.aae_id_lms
    | StudentPropia      // st_acciones_alumnos.aal_id_lms
    | TeacherCncp        // st_acciones_especialidades_profesores.aep_id_lms
    | GroupTutor         // st_tutores_afg.tag_id_lms
    | SpecialtyTrainer   // st_acciones_especialidades.aes_id_formador_lms
    | GroupTrainer       // st_accionesformativas_grupos.afg_id_formador_lms

  /** A row of st_matriculas_sepe. */
  datatype SepeEnrolment = SepeEnrolment(userid: int, courseid: int, roleid: int)

  /** The SAMIE side: link values by (column, record id), and the SEPE rows. */
  datatype SamieDb = SamieDb(links: map<(Column, int), int>, sepe: seq<SepeEnrolment>)

  /** An UPDATE of one link: written when the statement succeeds. */
  function UpdateLink(db: SamieDb, col: Column, id: int, value: int, ok: bool): (r: (bool, SamieDb))
    ensures r.0 == ok && r.1.sepe == db.sepe
    ensures ok ==> (col, id) in r.1.links && r.1.links[(col, id)] == value
    ensures forall k :: k != (col, id) ==> (k in r.1.links <==> k in db.links)
    ensures forall k :: k in db.links && k != (col, id) ==> r.1.links[k] == db.links[k]
    ensures !ok ==> r.1 == db
  {
    if ok then (true, db.(links := db.links[(col, id) := value])) else (false, db)
  }

  /** The column an enrolment type tag links through; SEPE and unknown tags
      have none. */
  function TagColumn(tag: string): (c: Option<Column>)
  {
    if tag == "CNCP" then Some(StudentCncp)
    else if tag == "PROPIA" then Some(StudentPropia)
    else if tag == "CNCP_T" then Some(TeacherCncp)
    else if tag == "TUTOR" then Some(GroupTutor)
    else if tag == "FORMADOR_ESPECIALIDADES" then Some(SpecialtyTrainer)
    else if tag == "FORMADOR_PROPIAS" then Some(GroupTrainer)
    else None
  }

  /** The six tags of the switch, and only they, have a column, and no two
      share one. */
  lemma TagColumnInjective(a: string, b: string)
    ensures TagColumn(a).Some? <==>
      a in ["CNCP", "PROPIA", "CNCP_T", "TUTOR", "FORMADOR_ESPECIALIDADES", "FORMADOR_PROPIAS"]
    ensures TagColumn(a).Some? && TagColumn(a) == TagColumn(b) ==> a == b
    ensures TagColumn(a).Some? ==> TagColumn(a).value !in {GroupCourse, SpecialtyCourse, PersonAccount}
  {
  }

  /** update_samieenrol_link: a non-positive SAMIE enrolment id writes nothing
      and reports success; otherwise the tag's own column is set for that id.
      A tag outside the switch leaves the statement empty, which the
      database rejects. */
  function UpdateSamieEnrolLink(db: SamieDb, samieenrolid: int, lmsid: int, tag: string, ok: bool): (r: (bool, SamieDb))
    ensures samieenrolid <= 0 ==> r == (true, db)
    ensures r.1.sepe == db.sepe
    ensures samieenrolid > 0 && TagColumn(tag).None? ==> r == (false, db)
    ensures samieenrolid > 0 && TagColumn(tag).Some? ==>
      r == UpdateLink(db, TagColumn(tag).value, samieenrolid, lmsid, ok)
  {
    if samieenrolid > 0 then
      match TagColumn(tag)
      case None => (false, db)
      case Some(col) => UpdateLink(db, col, samieenrolid, lmsid, ok)
    else (true, db)
  }

  /** Only the tag's own link of that enrolment can change. */
  lemma UpdateSamieEnrolLinkFrame(db: SamieDb, samieenrolid: int, lmsid: int, tag: string, ok: bool, k: (Column, int))
    requires k in db.links
    requires TagColumn(tag).None? || k != (TagColumn(tag).value, samieenrolid)
    ensures k in UpdateSamieEnrolLink(db, samieenrolid, lmsid, tag, ok).1.links
    ensures UpdateSamieEnrolLink(db, samieenrolid, lmsid, tag, ok).1.links[k] == db.links[k]
  {
  }

  /** update_sepe_enrol_link: one more SEPE row when the INSERT succeeds. */
  function InsertSepeLink(db: SamieDb, userid: int, courseid: int, roleid: int, ok: bool): (r: (bool, SamieDb))
    ensures r.0 == ok && r.1.links == db.links
    ensures r.1.sepe == if ok then db.sepe + [SepeEnrolment(userid, courseid, roleid)] else db.sepe
  {
    if ok then (true, db.(sepe := db.sepe + [SepeEnrolment(userid, courseid, roleid)])) else (false, db)
  }

  /** The write-back of samie_enrol_user: SEPE enrolments go to the SEPE
      table, every other tag through update_samieenrol_link. */
  function LinkEnrolment(db: SamieDb, tag: string, userid: int, courseid: int, roleid: int,
                         lmsid: int, samieenrolid: int, ok: bool): (r: (bool, SamieDb))
    ensures !ok ==> r.1 == db
    ensures !r.0 ==> r.1 == db
  {
    if tag == "SEPE" then InsertSepeLink(db, userid, courseid, roleid, ok)
    else UpdateSamieEnrolLink(db, samieenrolid, lmsid, tag, ok)
  }

  /** SEPE enrolments never touch a link column; other tags never add a SEPE
      row. */
  lemma LinkEnrolmentRouting(db: SamieDb, tag: string, userid: int, courseid: int, roleid: int,
                             lmsid: int, samieenrolid: int, ok: bool)
    ensures tag == "SEPE" ==>
      LinkEnrolment(db, tag, userid, courseid, roleid, lmsid, samieenrolid, ok).1.links == db.links
    ensures tag == "SEPE" && ok ==>
      LinkEnrolment(db, tag, userid, courseid, roleid, lmsid, samieenrolid, ok).1.sepe ==
      db.sepe + [SepeEnrolment(userid, courseid, roleid)]
    ensures tag != "SEPE" ==>
      LinkEnrolment(db, tag, userid, courseid, roleid, lmsid, samieenrolid, ok).1.sepe == db.sepe
  {
  }
}
