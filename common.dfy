/**
 * `get_root_url` (app/utils/common.py): the scheme, host and optional port of
 * a request URL, as `scheme://host[:port]`. The URL is taken already split by
 * `urlparse`; splitting the text is not part of this model.
 */
module Common {
  import opened Wrappers
  import opened Decimal

  /** What `urlparse` yields: `hostname` is None without a network location, `port` None without an explicit port. */
  datatype ParsedUrl = ParsedUrl(
    scheme: string, hostname: Option<string>, port: Option<nat>, path: string, query: string, fragment: string)

  /** `"{}".format(hostname)`: a missing host prints as "None". */
  function HostText(h: Option<string>): string {
    match h
    case Some(s) => s
    case None => "None"
  }

  /** The part every root URL starts with. */
  function Origin(u: ParsedUrl): string {
    u.scheme + "://" + HostText(u.hostname)
  }

  /** `get_root_url`: the origin, followed by ":" and the port when the URL names one. */
  function GetRootUrl(u: ParsedUrl): (r: string)
    ensures |r| >= |Origin(u)| && r[..|Origin(u)|] == Origin(u)
    ensures u.port.None? <==> r == Origin(u)
  {
    match u.port
    case None => Origin(u)
    case Some(p) => Origin(u) + ":" + NatToString(p)
  }

  /** Path, query and fragment never reach the root URL. */
  lemma RootUrlIgnoresPath(u: ParsedUrl, path: string, query: string, fragment: string)
    ensures GetRootUrl(u.(path := path, query := query, fragment := fragment)) == GetRootUrl(u)
  {
  }

  /**
   * For a host without ':' the root URL shows a ':' after its "://" exactly
   * when the URL had an explicit port, and the digits after it read back as
   * that port.
   */
  lemma {:induction false} RootUrlPortIff(u: ParsedUrl)
    requires ':' !in HostText(u.hostname)
    ensures var r := GetRootUrl(u);
      ':' in r[|u.scheme| + 3..] <==> u.port.Some?
    ensures u.port.Some? ==> ParseNat(GetRootUrl(u)[|Origin(u)| + 1..]) == Some(u.port.value)
  {
    var r := GetRootUrl(u);
    var host := HostText(u.hostname);
    assert Origin(u)[|u.scheme| + 3..] == host;
    match u.port
    case None =>
      assert r[|u.scheme| + 3..] == host;
    case Some(p) =>
      var digits := NatToString(p);
      assert r == Origin(u) + ":" + digits;
      assert r[|u.scheme| + 3..] == host + ":" + digits;
      assert r[|u.scheme| + 3..][|host|] == ':';
      assert r[|Origin(u)| + 1..] == digits;
      ParseNatToString(p);
  }
}
