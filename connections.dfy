/**
 * The two pure pieces of the connection-check script: hiding the
 * credentials of a connection string before it is logged, and reading
 * the server version out of the text of Redis's INFO reply.
 */
module Connections {
  import opened Wrappers
  import opened Text

  const CredentialsMarker: string := "://[credentials-hidden]@"

  /**
   * `maskConnectionString`: when the text before the first "@" holds a
   * scheme separator "://", keep the scheme, replace the credentials by a
   * marker and keep the host up to the next "@"; otherwise leave the text
   * alone.
   */
  function MaskConnectionString(uri: string): (masked: string)
    ensures !Contains(uri, "@") ==> masked == uri
  {
    if Contains(uri, "@") then
      var parts := Split(uri, "@");
      if |parts| >= 2 then
        var authParts := Split(parts[0], "://");
        if |authParts| >= 2 then authParts[0] + CredentialsMarker + parts[1] else uri
      else uri
    else uri
  }

  /** The `len(parts) >= 2` guard always holds once "@" occurs. */
  lemma {:induction false} MaskGuardHolds(uri: string)
    requires Contains(uri, "@")
    ensures |Split(uri, "@")| >= 2
  {
    SplitAtFirst(uri, "@");
  }

  /**
   * With "@" first at position i: if the text before it holds "://", the
   * result is the scheme before the first "://", the marker, and the text
   * after the first "@" up to the next "@" (anything after a second "@" is
   * dropped); if not, the result is the input.
   */
  lemma {:induction false} MaskShape(uri: string, i: nat)
    requires Index(uri, "@") == Some(i)
    ensures var userInfo := uri[..i];
      var host := Before(uri[i + 1..], "@");
      && (Contains(userInfo, "://") ==>
            MaskConnectionString(uri) == Before(userInfo, "://") + CredentialsMarker + host)
      && (!Contains(userInfo, "://") ==> MaskConnectionString(uri) == uri)
  {
    var userInfo := uri[..i];
    SplitAtFirst(uri, "@");
    var parts := Split(uri, "@");
    assert |parts| >= 2 && parts[0] == userInfo && parts[1] == Before(uri[i + 1..], "@");
    SplitAtFirst(userInfo, "://");
    var authParts := Split(userInfo, "://");
    assert |authParts| >= 2 <==> Contains(userInfo, "://");
    assert authParts[0] == Before(userInfo, "://");
  }

  /**
   * When masking applies, the result keeps no "@" of its own: the scheme
   * and the host part both lack one, so the only "@" is the marker's, and
   * the text before the first "@" is gone. The host part is the text
   * between the first and second "@", so a password holding an unescaped
   * "@" (`mongodb://u:p@ss@host`) leaves its tail (`ss`) in the result.
   */
  lemma {:induction false} MaskLeavesSingleAt(uri: string, i: nat)
    requires Index(uri, "@") == Some(i) && Contains(uri[..i], "://")
    ensures exists scheme, host ::
      && MaskConnectionString(uri) == scheme + CredentialsMarker + host
      && !Contains(scheme, "@") && !Contains(host, "@")
      && HasPrefix(uri, scheme + "://")
  {
    MaskShape(uri, i);
    var userInfo := uri[..i];
    var scheme, host := Before(userInfo, "://"), Before(uri[i + 1..], "@");
    NothingBeforeFirst(uri, "@", i);
    PrefixKeepsAbsence(userInfo, scheme, "@");
    var j := Index(userInfo, "://").value;
    assert scheme == userInfo[..j];
    assert userInfo[j..j + 3] == "://";
    assert scheme + "://" == uri[..j + 3];
    assert MaskConnectionString(uri) == scheme + CredentialsMarker + host;
  }

  /** A prefix of a text without `sep` has no `sep` either. */
  lemma {:induction false} PrefixKeepsAbsence(s: string, t: string, sep: string)
    requires HasPrefix(s, t) && !Contains(s, sep)
    ensures !Contains(t, sep)
  {
    forall k | 0 <= k <= |t|
      ensures !OccursAt(t, sep, k)
    {
      if k + |sep| <= |t| {
        assert t[k..k + |sep|] == s[k..k + |sep|];
        AbsentAt(s, sep, k);
      }
    }
  }

  lemma {:induction false} AbsentAt(s: string, sep: string, k: int)
    requires !Contains(s, sep) && 0 <= k <= |s|
    ensures !OccursAt(s, sep, k)
  {
  }

  const VersionPrefix: string := "redis_version:"

  /**
   * The version the scan reports for these lines: the first line that
   * starts with "redis_version:" and splits on ":" into more than one
   * piece gives its second piece, trimmed of white space.
   */
  function VersionFromLines(lines: seq<string>): (version: Option<string>)
    ensures version.Some? ==> exists k :: 0 <= k < |lines| && HasPrefix(lines[k], VersionPrefix)
  {
    if lines == [] then None
    else if HasPrefix(lines[0], VersionPrefix) && |Split(lines[0], ":")| > 1 then
      Some(TrimSpace(Split(lines[0], ":")[1]))
    else VersionFromLines(lines[1..])
  }

  /** The line scan of `testRedisConnection`: split INFO on newlines and stop at the version line. */
  method RedisVersion(info: string) returns (version: Option<string>)
    ensures version == VersionFromLines(Split(info, "\n"))
  {
    var lines := Split(info, "\n");
    version := None;
    var n := 0;
    while n < |lines|
      invariant 0 <= n <= |lines|
      invariant VersionFromLines(lines[n..]) == VersionFromLines(lines)
    {
      var line := lines[n];
      if HasPrefix(line, VersionPrefix) {
        var parts := Split(line, ":");
        if |parts| > 1 {
          version := Some(TrimSpace(parts[1]));
          return;
        }
      }
      n := n + 1;
    }
  }

  /**
   * A line that starts with "redis_version:" always splits into more than
   * one piece, and its second piece is the text after the prefix up to
   * the next ":".
   */
  lemma {:induction false} VersionLineSplits(line: string)
    requires HasPrefix(line, VersionPrefix)
    ensures |Split(line, ":")| > 1
    ensures Split(line, ":")[1] == Before(line[|VersionPrefix|..], ":")
  {
    assert OccursAt(line, ":", 13);
    forall j | 0 <= j < 13
      ensures !OccursAt(line, ":", j)
    {
      assert line[j] == VersionPrefix[j];
    }
    assert Index(line, ":") == Some(13);
    SplitAtFirst(line, ":");
  }

  /**
   * The first line that starts with "redis_version:" decides the version:
   * it is the trimmed text after the prefix up to the next ":".
   */
  lemma {:induction false} VersionFromFirstVersionLine(lines: seq<string>, k: nat)
    requires k < |lines| && HasPrefix(lines[k], VersionPrefix)
    requires forall j :: 0 <= j < k ==> !HasPrefix(lines[j], VersionPrefix)
    ensures VersionFromLines(lines) == Some(TrimSpace(Before(lines[k][|VersionPrefix|..], ":")))
    decreases k
  {
    VersionLineSplits(lines[k]);
    if k > 0 {
      VersionFromFirstVersionLine(lines[1..], k - 1);
    }
  }

  /** No version is reported exactly when no line starts with "redis_version:". */
  lemma {:induction false} NoVersionLine(lines: seq<string>)
    ensures VersionFromLines(lines).None? <==> forall j :: 0 <= j < |lines| ==> !HasPrefix(lines[j], VersionPrefix)
    decreases |lines|
  {
    if lines != [] {
      NoVersionLine(lines[1..]);
      if HasPrefix(lines[0], VersionPrefix) {
        VersionLineSplits(lines[0]);
      }
      assert forall j :: 1 <= j < |lines| ==> lines[j] == lines[1..][j - 1];
    }
  }
}
