/** User synchronisation: the find-or-create of sync_user and the three SEPE
    auxiliary accounts prepared before a SEPE-mode run. */
module Accounts {
  import opened Wrappers
  import opened Links
  import opened Platform

  /** A st_personas record as sync_user reads it. `perId` and `password` are
      absent on the SEPE profiles, which have neither field. */
  datatype Person = Person(perId: Option<int>, username: string, password: Option<string>,
                           nombre: string, apellido1: string, apellido2: string, email: string)

  /** What the databases decide in sync_user: the id insert_record gives the
      new account, whether the insert goes through, and whether the link
      UPDATE succeeds. */
  datatype UserWrite = UserWrite(newid: int, insertOk: bool, linkOk: bool)

  /** update_user_link: a person without an id yields a malformed statement
      and writes nothing. */
  function LinkUser(db: SamieDb, perId: Option<int>, lmsid: int, ok: bool): (db': SamieDb)
    ensures perId.None? || !ok ==> db' == db
    ensures perId.Some? && ok ==> db' == db.(links := db.links[(PersonAccount, perId.value) := lmsid])
  {
    match perId
    case None => db
    case Some(id) => UpdateLink(db, PersonAccount, id, lmsid, ok).1
  }

  /** The account sync_user creates for a person. */
  function NewAccount(p: Person, id: int): Account
  {
    Account(id, p.password, p.nombre, p.apellido1 + " " + p.apellido2, p.email)
  }

  /** sync_user: an existing account with the username is linked and its id
      returned; otherwise a new account is inserted and linked. When the
      insert throws, the result stays false (0) and nothing is written. */
  function SyncUser(lms: Lms, db: SamieDb, p: Person, w: UserWrite): (r: (int, Lms, SamieDb))
    ensures LmsUserId(lms, p.username) != 0 ==>
      r == (LmsUserId(lms, p.username), lms, LinkUser(db, p.perId, LmsUserId(lms, p.username), w.linkOk))
    ensures LmsUserId(lms, p.username) == 0 && !w.insertOk ==> r == (0, lms, db)
    ensures LmsUserId(lms, p.username) == 0 && w.insertOk ==>
      r == (w.newid, lms.(accounts := lms.accounts[p.username := NewAccount(p, w.newid)]),
            LinkUser(db, p.perId, w.newid, w.linkOk))
  {
    var found := LmsUserId(lms, p.username);
    if found != 0 then (found, lms, LinkUser(db, p.perId, found, w.linkOk))
    else if !w.insertOk then (0, lms, db)
    else
      (w.newid, lms.(accounts := lms.accounts[p.username := NewAccount(p, w.newid)]),
       LinkUser(db, p.perId, w.newid, w.linkOk))
  }

  /** Find-or-create: a non-zero result is the id of the account now held
      under the username; other usernames keep their accounts, and only
      this person's link can change. */
  lemma SyncUserFindsOrCreates(lms: Lms, db: SamieDb, p: Person, w: UserWrite)
    ensures var (id, lms', _) := SyncUser(lms, db, p, w);
      id != 0 ==> LmsUserId(lms', p.username) == id
    ensures var (_, lms', _) := SyncUser(lms, db, p, w);
      forall u :: u != p.username ==> (u in lms'.accounts <==> u in lms.accounts)
    ensures var (_, lms', _) := SyncUser(lms, db, p, w);
      forall u :: u in lms.accounts && (u != p.username || LmsUserId(lms, p.username) != 0) ==>
        u in lms'.accounts && lms'.accounts[u] == lms.accounts[u]
    ensures var (_, _, db') := SyncUser(lms, db, p, w);
      db'.sepe == db.sepe &&
      forall k :: k in db.links && (p.perId.None? || k != (PersonAccount, p.perId.value)) ==>
        k in db'.links && db'.links[k] == db.links[k]
  {
  }

  /** Running sync_user again for the same person finds the account the
      first run created and creates nothing more. */
  lemma {:induction false} SyncUserIdempotent(lms: Lms, db: SamieDb, p: Person, w1: UserWrite, w2: UserWrite)
    requires w1.newid != 0
    ensures var (id1, lms1, db1) := SyncUser(lms, db, p, w1);
      var (id2, lms2, _) := SyncUser(lms1, db1, p, w2);
      id1 != 0 ==> id2 == id1 && lms2 == lms1
  {
    var (id1, lms1, db1) := SyncUser(lms, db, p, w1);
    if id1 != 0 {
      SyncUserFindsOrCreates(lms, db, p, w1);
      assert LmsUserId(lms1, p.username) == id1;
    }
  }

  // ------------------------------------------------------------- SEPE users

  const SepeStudent: string := "sepe_alu"
  const SepeTutor: string := "sepe_tut"
  const SepeAdmin: string := "sepe_adm"

  /** create_sepe_user's profile for each auxiliary username. */
  function SepeProfile(username: string): (p: Person)
    requires username in {SepeStudent, SepeTutor, SepeAdmin}
    ensures p.username == username && p.perId.None? && p.password.None?
    ensures p.apellido1 == "Sepe" && p.apellido2 == "" && p.email == "example@email.com"
  {
    var nombre := if username == SepeStudent then "Alumno" else if username == SepeTutor then "Tutor" else "Admin";
    Person(None, username, None, nombre, "Sepe", "", "example@email.com")
  }

  /** The ids of the three auxiliary accounts. */
  datatype SepeIds = SepeIds(alu: int, tut: int, adm: int)

  /** One create-if-missing step of prepare_sepe_users: keep a found id,
      otherwise create the account through sync_user. */
  function EnsureSepeUser(lms: Lms, db: SamieDb, username: string, found: int, w: UserWrite): (r: (int, Lms))
    requires username in {SepeStudent, SepeTutor, SepeAdmin}
    ensures found != 0 ==> r == (found, lms)
  {
    if found != 0 then (found, lms)
    else var (id, lms', _) := SyncUser(lms, db, SepeProfile(username), w); (id, lms')
  }

  /** prepare_sepe_users: look the three usernames up, then create each one
      that is missing, in the order student, tutor, admin. */
  function PrepareSepeUsers(lms: Lms, db: SamieDb, alu: UserWrite, tut: UserWrite, adm: UserWrite): (r: (SepeIds, Lms))
    ensures LmsUserId(lms, SepeStudent) != 0 ==> r.0.alu == LmsUserId(lms, SepeStudent)
    ensures LmsUserId(lms, SepeTutor) != 0 ==> r.0.tut == LmsUserId(lms, SepeTutor)
    ensures LmsUserId(lms, SepeAdmin) != 0 ==> r.0.adm == LmsUserId(lms, SepeAdmin)
  {
    var a0, t0, d0 := LmsUserId(lms, SepeStudent), LmsUserId(lms, SepeTutor), LmsUserId(lms, SepeAdmin);
    var (a, lms1) := EnsureSepeUser(lms, db, SepeStudent, a0, alu);
    var (t, lms2) := EnsureSepeUser(lms1, db, SepeTutor, t0, tut);
    var (d, lms3) := EnsureSepeUser(lms2, db, SepeAdmin, d0, adm);
    (SepeIds(a, t, d), lms3)
  }

  /** One create-if-missing step: a non-zero id is the account's, and every
      other username, and this one when it was found, keeps its account. */
  lemma EnsureSepeUserEnsures(lms: Lms, db: SamieDb, username: string, w: UserWrite)
    requires username in {SepeStudent, SepeTutor, SepeAdmin}
    ensures var (id, lms') := EnsureSepeUser(lms, db, username, LmsUserId(lms, username), w);
      && (id != 0 ==> LmsUserId(lms', username) == id)
      && (forall u :: u != username ==> LmsUserId(lms', u) == LmsUserId(lms, u))
      && (forall u :: u in lms.accounts && (u != username || LmsUserId(lms, u) != 0) ==>
            u in lms'.accounts && lms'.accounts[u] == lms.accounts[u])
  {
    SyncUserFindsOrCreates(lms, db, SepeProfile(username), w);
  }

  /** After preparation every auxiliary id that is non-zero is the id of the
      account under that username; existing auxiliary accounts are kept, and
      no other account changes. The SEPE profiles have no SAMIE id, so no
      link is written. */
  lemma PrepareSepeUsersEnsures(lms: Lms, db: SamieDb, alu: UserWrite, tut: UserWrite, adm: UserWrite)
    ensures var (ids, lms') := PrepareSepeUsers(lms, db, alu, tut, adm);
      && (ids.alu != 0 ==> LmsUserId(lms', SepeStudent) == ids.alu)
      && (ids.tut != 0 ==> LmsUserId(lms', SepeTutor) == ids.tut)
      && (ids.adm != 0 ==> LmsUserId(lms', SepeAdmin) == ids.adm)
    ensures var (ids, lms') := PrepareSepeUsers(lms, db, alu, tut, adm);
      forall u :: u in lms.accounts && (u !in {SepeStudent, SepeTutor, SepeAdmin} || LmsUserId(lms, u) != 0) ==>
        u in lms'.accounts && lms'.accounts[u] == lms.accounts[u]
  {
    var (a, lms1) := EnsureSepeUser(lms, db, SepeStudent, LmsUserId(lms, SepeStudent), alu);
    EnsureSepeUserEnsures(lms, db, SepeStudent, alu);
    var (t, lms2) := EnsureSepeUser(lms1, db, SepeTutor, LmsUserId(lms1, SepeTutor), tut);
    EnsureSepeUserEnsures(lms1, db, SepeTutor, tut);
    var (d, lms3) := EnsureSepeUser(lms2, db, SepeAdmin, LmsUserId(lms2, SepeAdmin), adm);
    EnsureSepeUserEnsures(lms2, db, SepeAdmin, adm);
    assert PrepareSepeUsers(lms, db, alu, tut, adm) == (SepeIds(a, t, d), lms3);
  }
}
