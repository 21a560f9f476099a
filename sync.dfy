/** The small decisions of a synchronisation run: SEPE mode, manual
    unenrolment, the importer base URL and the closing status line. */
module Sync {
  import opened Wrappers
  import opened Text

  /** is_sepe_mode: the SAMIE mode `GEN_MODALIDAD` is "A" or "S"; no other
      value, the empty default of an unset mode included, selects SEPE. */
  function IsSepeMode(mode: string): (sepe: bool)
    ensures sepe ==> |mode| == 1
    ensures |mode| == 1 ==> (sepe <==> mode[0] in {'A', 'S'})
  {
    mode == "A" || mode == "S"
  }

  /** Moodle's ENROL_USER_SUSPENDED status. */
  const EnrolUserSuspended: int := 1

  /** allow_unenrol_user: only a suspended user enrolment may be removed by
      hand. */
  function AllowUnenrolUser(status: int): (allowed: bool)
    ensures allowed <==> status == EnrolUserSuspended
  {
    if status == EnrolUserSuspended then true else false
  }

  /** The base URL start_sync works with: none when the setting is empty
      (the reports are then not sent), otherwise the setting with a `/`
      appended unless it already ends in one. */
  function NormalizeBaseUrl(setting: string): (r: Option<string>)
    ensures setting == "" <==> r.None?
    ensures r.Some? ==> EndsWith(r.value, '/')
    ensures r.Some? ==> |setting| <= |r.value| <= |setting| + 1 && r.value[..|setting|] == setting
  {
    if setting == "" then None
    else if setting[|setting| - 1] != '/' then Some(setting + "/")
    else Some(setting)
  }

  /** Normalising a normalised URL changes nothing. */
  lemma NormalizeBaseUrlIdempotent(setting: string)
    requires setting != ""
    ensures NormalizeBaseUrl(NormalizeBaseUrl(setting).value) == NormalizeBaseUrl(setting)
  {
  }

  const SuccessStatus: string := "Process completed successfully."

  /** The line start_sync ends with: success exactly when no error was
      counted, otherwise the number of errors. */
  function FinalStatus(errorsfound: int): (s: string)
    ensures s == SuccessStatus <==> errorsfound <= 0
    ensures errorsfound > 0 ==> s == "There were " + IntToString(errorsfound) + " error(s) found."
  {
    if errorsfound > 0 then
      var s := "There were " + IntToString(errorsfound) + " error(s) found.";
      assert s[0] != SuccessStatus[0];
      s
    else SuccessStatus
  }
}
