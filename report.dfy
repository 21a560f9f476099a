/** The report serialiser: database records flattened to `|`-separated lines,
    rows joined by newlines, the POST that carries them, and the per-action
    high-water mark kept in the plugin configuration. */
module Report {
  import opened Wrappers
  import opened Text

  /** A record as the database layer returns it: an object whose field
      values are read in declaration order, or a bare value. Field values
      are already rendered as text. */
  datatype Datum = Object(fields: seq<string>) | Scalar(text: string)

  /** What object2string produces: the guarded `|`-join of the field values,
      or the value itself. */
  function Flatten(d: Datum): string
  {
    match d
    case Object(fields) => GuardedJoin(fields, '|')
    case Scalar(text) => text
  }

  /** object2string, as the source runs it: one pass over the fields, adding
      a `|` before a value only when the text so far is non-empty. */
  method ObjectToString(d: Datum) returns (s: string)
    ensures s == Flatten(d)
  {
    if d.Scalar? {
      return d.text;
    }
    var fields := d.fields;
    s := "";
    var i := 0;
    while i < |fields|
      invariant 0 <= i <= |fields|
      invariant s == GuardedJoin(fields[..i], '|')
    {
      if s != "" {
        s := s + "|";
      }
      s := s + fields[i];
      assert fields[..i + 1][..i] == fields[..i];
      i := i + 1;
    }
    assert fields[..i] == fields;
  }

  /** The fields come back from a line: when no value is empty and none
      holds a `|`, splitting the flattened object at `|` gives the fields. */
  lemma FlattenSplit(fields: seq<string>)
    requires |fields| >= 1 && NoSep(fields, '|')
    requires forall i :: 0 <= i < |fields| ==> fields[i] != ""
    ensures Split(Flatten(Object(fields)), '|') == fields
  {
    GuardedJoinNoEmpty(fields, '|');
    SplitJoin(fields, '|');
  }

  /** An empty first value adds no separator: the leading empty values
      vanish from the line. */
  lemma FlattenDropsLeadingEmpty(fields: seq<string>)
    ensures Flatten(Object(fields)) == Join(DropLeadingEmpty(fields), '|')
  {
    GuardedJoinIsJoin(fields, '|');
  }

  function Lines(rows: seq<Datum>): (r: seq<string>)
    ensures |r| == |rows|
  {
    seq(|rows|, i requires 0 <= i < |rows| => Flatten(rows[i]))
  }

  /** The data posted for a set of rows: their lines, newline-separated. */
  function Payload(rows: seq<Datum>): string
  {
    GuardedJoin(Lines(rows), '\n')
  }

  /** Each row comes back from the payload: when every line is non-empty and
      free of newlines, splitting the payload gives the rows' lines. */
  lemma PayloadSplit(rows: seq<Datum>)
    requires |rows| >= 1
    requires forall i :: 0 <= i < |rows| ==> Flatten(rows[i]) != "" && '\n' !in Flatten(rows[i])
    ensures Split(Payload(rows), '\n') == Lines(rows)
  {
    GuardedJoinNoEmpty(Lines(rows), '\n');
    SplitJoin(Lines(rows), '\n');
  }

  /** What curl_exec gave back: a response body or false. */
  datatype CurlExec = Response(body: string) | ExecFalse

  /** One POST to the importer. */
  datatype Post = Post(url: string, action: string, data: string)

  /** The importer's address under the base URL. */
  function ImporterUrl(baseurl: string): (u: string)
    ensures |u| == |baseurl| + |"reportdataimporter.php"| && u[..|baseurl|] == baseurl
  {
    baseurl + "reportdataimporter.php"
  }

  /** call_curl's result as written: `isset` of curl_exec's value, which is
      set whether curl_exec gave a body or false. */
  function CallCurlAsWritten(exec: CurlExec): (ok: bool)
  {
    match exec
    case Response(_) => true
    case ExecFalse => true
  }

  /** The failed transfer is reported as a success. */
  lemma CallCurlAsWrittenIgnoresFailure()
    ensures CallCurlAsWritten(ExecFalse)
  {
  }

  /** call_curl's result as evidently intended: success exactly when
      curl_exec did not give false. */
  function CallCurl(exec: CurlExec): (ok: bool)
    ensures ok <==> exec.Response?
  {
    exec != ExecFalse
  }

  /** Where the reading matters: after a failed transfer of a non-empty
      report, the code as written still sets the action's mark to `now`,
      while the corrected reading leaves the configuration as it was. */
  lemma FailedSendMovesMarkAsWritten(config: map<string, string>, action: string, now: string)
    ensures MarkKey(action) in AfterSend(config, action, CallCurlAsWritten(ExecFalse), now)
    ensures AfterSend(config, action, CallCurlAsWritten(ExecFalse), now)[MarkKey(action)] == now
    ensures AfterSend(config, action, CallCurl(ExecFalse), now) == config
  {
    CallCurlAsWrittenIgnoresFailure();
  }

  /** The two agree on every transfer except the failed one. */
  lemma CallCurlDiffersOnlyOnFailure(exec: CurlExec)
    ensures CallCurl(exec) == CallCurlAsWritten(exec) <==> exec.Response?
  {
  }

  /** send_sql_data_to_samie: with no rows nothing is posted and the result
      is true; otherwise the rows' payload is posted to the importer and the
      result is the transfer's. `exec` is what the transfer would give. */
  method SendSqlData(baseurl: string, action: string, rows: seq<Datum>, exec: CurlExec)
    returns (ok: bool, sent: Option<Post>)
    ensures rows == [] ==> ok && sent == None
    ensures rows != [] ==> sent == Some(Post(ImporterUrl(baseurl), action, Payload(rows))) && ok == CallCurl(exec)
  {
    if |rows| == 0 {
      return true, None;
    }
    var datatosend := "";
    var i := 0;
    while i < |rows|
      invariant 0 <= i <= |rows|
      invariant datatosend == GuardedJoin(Lines(rows)[..i], '\n')
    {
      var data := ObjectToString(rows[i]);
      if datatosend != "" {
        datatosend := datatosend + "\n";
      }
      datatosend := datatosend + data;
      assert Lines(rows)[..i + 1][..i] == Lines(rows)[..i];
      i := i + 1;
    }
    assert Lines(rows)[..i] == Lines(rows);
    sent := Some(Post(ImporterUrl(baseurl), action, datatosend));
    ok := CallCurl(exec);
  }

  // ------------------------------------------------------ high-water marks

  /** Configuration key of an action's last successful send. */
  function MarkKey(action: string): (k: string)
    ensures |k| == |action| + 20
    ensures k[11..11 + |action|] == action
  {
    "jobLastSend" + action + "DataOKRun"
  }

  /** Different actions keep their marks under different keys. */
  lemma MarkKeyInjective(a: string, b: string)
    requires MarkKey(a) == MarkKey(b)
    ensures a == b
  {
    assert |a| == |b|;
    assert a == MarkKey(a)[11..11 + |a|] == MarkKey(b)[11..11 + |b|] == b;
  }

  /** The configuration after a send: the action's mark is set to `now`
      when the send succeeded, and nothing changes otherwise. */
  function AfterSend(config: map<string, string>, action: string, ok: bool, now: string): (c: map<string, string>)
    ensures ok ==> MarkKey(action) in c && c[MarkKey(action)] == now
    ensures !ok ==> c == config
    ensures forall k :: k != MarkKey(action) ==> (k in c <==> k in config)
    ensures forall k :: k in config && k != MarkKey(action) ==> c[k] == config[k]
  {
    if ok then config[MarkKey(action) := now] else config
  }

  /** A failed send never moves any action's mark; a successful one moves
      only its own. */
  lemma AfterSendOtherAction(config: map<string, string>, action: string, other: string, ok: bool, now: string)
    requires other != action && MarkKey(other) in config
    ensures MarkKey(other) in AfterSend(config, action, ok, now)
    ensures AfterSend(config, action, ok, now)[MarkKey(other)] == config[MarkKey(other)]
  {
    if MarkKey(other) == MarkKey(action) {
      MarkKeyInjective(other, action);
    }
  }
}
