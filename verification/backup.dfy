/** `main` after its preflight checks: scan the config lines, build the
    client configuration, then upload every directory. */
module Backup {
  import opened Results
  import opened ConfigScan
  import opened Credentials
  import opened Dispatch

  /** What one run leaves behind: the client configuration it wrote (if it
      got that far), the upload commands it issued, the lines it appended to
      the blob-root log, and the fatal error that ended it, if any. */
  datatype Report = Report(
    client: Option<SimpleConfig>,
    commands: seq<seq<string>>,
    log: seq<string>,
    error: Option<Fatal>)

  /** A run over the already-split config lines, with the upload tool given
      by `oracle`. Missing credentials stop it before the client
      configuration is written or anything is uploaded; otherwise the
      configuration carries the scanned credentials and the uploads follow
      the loop's reference description. */
  function RunBackup(lines: seq<string>, oracle: Oracle): (r: Report)
    ensures var c := Scan(lines);
            (c.user == "" || c.password == "" || c.server == "") <==> r.client.None?
    ensures r.client.None? ==> r.error == Some(MissingCredentials) && r.commands == [] && r.log == []
    ensures r.client.Some? ==>
              var c := Scan(lines);
              && r.client.value.server == c.server
              && r.client.value.auth == FormatAuth(c.user, c.password)
              && (':' !in c.user ==> SplitAuth(r.client.value.auth) == Some((c.user, c.password)))
              && Conforms(c.dirs, oracle, r.commands, r.log, r.error)
  {
    var c := Scan(lines);
    match GenCamputConfig(c.user, c.password, c.server)
    case Err(e) => Report(None, [], [], Some(e))
    case Ok(client) =>
      var m := Upload(c.dirs, oracle);
      Report(Some(client), m.commands, m.log, m.halted)
  }

  /** A config file with exactly one line per credential, in any order and
      any case, yields exactly those (normalised) values, and the other
      lines, verbatim and in order, as directories. */
  lemma WellFormedConfig(lines: seq<string>, iu: nat, ip: nat, iserver: nat)
    requires iu < |lines| && Sets(lines[iu], User)
    requires ip < |lines| && Sets(lines[ip], Password)
    requires iserver < |lines| && Sets(lines[iserver], Server)
    requires forall j :: 0 <= j < |lines| && j != iu ==> !Sets(lines[j], User)
    requires forall j :: 0 <= j < |lines| && j != ip ==> !Sets(lines[j], Password)
    requires forall j :: 0 <= j < |lines| && j != iserver ==> !Sets(lines[j], Server)
    ensures Scan(lines).user == Classify(lines[iu]).value
    ensures Scan(lines).password == Classify(lines[ip]).value
    ensures Scan(lines).server == Classify(lines[iserver]).value
    ensures Scan(lines).dirs == NonDirectives(lines)
  {
    LastDirectiveWins(lines, User, iu);
    LastDirectiveWins(lines, Password, ip);
    LastDirectiveWins(lines, Server, iserver);
    ScanDirs(lines);
  }

  /** A config file with no `server=` line never reaches the upload tool. */
  lemma NoServerNoUpload(lines: seq<string>, oracle: Oracle)
    requires forall i :: 0 <= i < |lines| ==> !Sets(lines[i], Server)
    ensures RunBackup(lines, oracle).error == Some(MissingCredentials)
    ensures RunBackup(lines, oracle).commands == []
  {
    UnsetFieldStaysEmpty(lines, Server);
    var c := Scan(lines);
    assert c.server == c.Field(Server) == "";
    assert GenCamputConfig(c.user, c.password, c.server).Err?;
  }
}
