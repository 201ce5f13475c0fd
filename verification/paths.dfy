/**
 * The string and path derivations of the gateway: the URL prefixes the
 * handlers trim, the split of a proxy path into session id and rest,
 * the overlay directory layout, the guest directory and the container name.
 */
module Paths {
  import opened Wrappers

  const SessionPrefix: string := "/session/"
  const ProxyPrefix: string := "/proxy/"
  const PingPrefix: string := "/ping/"
  const LogoutPrefix: string := "/logout/"

  /** Parent of the guest overlay directories. */
  const OverlayRoot: string := "/srv/overlays"
  /** The shared read-only base root filesystem, the lower layer of every mount. */
  const BaseOverlay: string := "/srv/overlays/base"

  predicate HasPrefix(s: string, prefix: string) {
    |prefix| <= |s| && s[..|prefix|] == prefix
  }

  predicate HasSuffix(s: string, suffix: string) {
    |suffix| <= |s| && s[|s| - |suffix|..] == suffix
  }

  /** strings.TrimPrefix: s without a leading prefix, or s itself when it does not start with it. */
  function TrimPrefix(s: string, prefix: string): (r: string)
    ensures HasPrefix(s, prefix) ==> prefix + r == s
    ensures !HasPrefix(s, prefix) ==> r == s
  {
    if HasPrefix(s, prefix) then s[|prefix|..] else s
  }

  /** Trimming undoes prepending: the id a handler extracts from prefix + id is id. */
  lemma TrimPrefixOfConcat(prefix: string, id: string)
    ensures TrimPrefix(prefix + id, prefix) == id
  {
    assert (prefix + id)[..|prefix|] == prefix;
  }

  /** The position of the first c in s, if any. */
  function IndexOf(s: string, c: char): (r: Option<nat>)
    ensures r.None? ==> c !in s
    ensures r.Some? ==> r.value < |s| && s[r.value] == c && c !in s[..r.value]
  {
    if |s| == 0 then None
    else if s[0] == c then Some(0)
    else match IndexOf(s[1..], c)
      case None => None
      case Some(i) =>
        assert s[..i + 1] == [s[0]] + s[1..][..i];
        Some(i + 1)
  }

  /**
   * strings.SplitN(s, "/", 2) seen through its length: None when s holds no
   * '/', which yields a single part, otherwise the text before the first '/'
   * and everything after it.
   */
  function SplitAtSlash(s: string): (r: Option<(string, string)>)
    ensures r.None? <==> '/' !in s
    ensures r.Some? ==> r.value.0 + "/" + r.value.1 == s && '/' !in r.value.0
  {
    match IndexOf(s, '/')
    case None => None
    case Some(i) =>
      assert s[..i] + "/" + s[i + 1..] == s;
      Some((s[..i], s[i + 1..]))
  }

  /** Splitting is the inverse of joining an id free of '/' to any rest. */
  lemma SplitAtSlashOfJoin(id: string, rest: string)
    requires '/' !in id
    ensures SplitAtSlash(id + "/" + rest) == Some((id, rest))
  {
    var s := id + "/" + rest;
    assert s[|id|] == '/';
    var i := IndexOf(s, '/').value;
    assert i == |id|;
    assert s[..i] == id;
    assert s[i + 1..] == rest;
  }

  /** The two parts of a well-formed proxy path. */
  datatype ProxyTarget = ProxyTarget(id: string, rest: string)

  /** The session id and the rest of a request path under /proxy/; None is the 400 case. */
  function ParseProxyPath(path: string): (r: Option<ProxyTarget>)
    ensures r.None? <==> '/' !in TrimPrefix(path, ProxyPrefix)
    ensures r.Some? ==> r.value.id + "/" + r.value.rest == TrimPrefix(path, ProxyPrefix)
    ensures r.Some? ==> '/' !in r.value.id
  {
    match SplitAtSlash(TrimPrefix(path, ProxyPrefix))
    case None => None
    case Some((id, rest)) => Some(ProxyTarget(id, rest))
  }

  /** The path the request carries when it is forwarded to the container. */
  function ForwardPath(t: ProxyTarget): (p: string)
    ensures |p| > 0 && p[0] == '/' && p[1..] == t.rest
  {
    "/" + t.rest
  }

  /** Round trip of the proxy router: /proxy/<id>/<rest> is routed to session id with rest. */
  lemma ProxyPathRoundTrip(id: string, rest: string)
    requires '/' !in id
    ensures ParseProxyPath(ProxyPrefix + id + "/" + rest) == Some(ProxyTarget(id, rest))
  {
    var tail := id + "/" + rest;
    assert ProxyPrefix + id + "/" + rest == ProxyPrefix + tail;
    TrimPrefixOfConcat(ProxyPrefix, tail);
    SplitAtSlashOfJoin(id, rest);
  }

  /**
   * The forwarded path is the request path with /proxy/<id> removed: putting
   * the prefix and the parsed id back in front of it gives the request path.
   */
  lemma ForwardPathDropsId(path: string)
    requires HasPrefix(path, ProxyPrefix) && ParseProxyPath(path).Some?
    ensures ProxyPrefix + ParseProxyPath(path).value.id + ForwardPath(ParseProxyPath(path).value) == path
  {
    var t := ParseProxyPath(path).value;
    assert ProxyPrefix + (t.id + "/" + t.rest) == path;
  }

  /**
   * filepath.Join(dir, elem) for a single path element: an empty dir
   * contributes nothing, otherwise exactly one '/' separates the two.
   */
  function Join(dir: string, elem: string): (r: string)
    requires elem != "" && '/' !in elem
    ensures HasSuffix(r, elem) && HasPrefix(r, dir)
    ensures dir == "" <==> r == elem
    ensures dir != "" ==> r[|r| - |elem| - 1] == '/'
    ensures dir != "" ==> |r| == |dir| + |elem| + (if dir[|dir| - 1] == '/' then 0 else 1)
  {
    if dir == "" then elem
    else if dir[|dir| - 1] == '/' then dir + elem
    else dir + "/" + elem
  }

  /** Two elements joined under the same directory give the same path exactly when they are equal. */
  lemma JoinInjective(dir: string, a: string, b: string)
    requires a != "" && '/' !in a && b != "" && '/' !in b
    ensures Join(dir, a) == Join(dir, b) <==> a == b
  {
    var p := if dir == "" then "" else if dir[|dir| - 1] == '/' then dir else dir + "/";
    assert Join(dir, a) == p + a;
    assert Join(dir, b) == p + b;
    assert (p + a)[|p|..] == a;
    assert (p + b)[|p|..] == b;
  }

  /** The three directories of an overlay: writable layer, scratch area and mountpoint. */
  datatype Layout = Layout(upper: string, work: string, merged: string)

  function OverlayLayout(dir: string): (l: Layout)
    ensures l.upper != l.work && l.work != l.merged && l.upper != l.merged
    ensures HasSuffix(l.upper, "upper") && HasSuffix(l.work, "work") && HasSuffix(l.merged, "merged")
    ensures HasPrefix(l.upper, dir) && HasPrefix(l.work, dir) && HasPrefix(l.merged, dir)
  {
    var l := Layout(Join(dir, "upper"), Join(dir, "work"), Join(dir, "merged"));
    JoinInjective(dir, "upper", "work");
    JoinInjective(dir, "work", "merged");
    JoinInjective(dir, "upper", "merged");
    l
  }

  /** The mountpoint that is mounted at login and unmounted at logout. */
  function MergedDir(dir: string): (m: string)
    ensures m == OverlayLayout(dir).merged
  {
    Join(dir, "merged")
  }

  /** The overlay directory of a guest session, named by a random token. */
  function GuestDir(token: string): (d: string)
    requires '/' !in token
    ensures d == OverlayRoot + "/guest-" + token
    ensures HasPrefix(d, OverlayRoot + "/guest-") && |d| == |OverlayRoot + "/guest-"| + |token|
  {
    Join(OverlayRoot, "guest-" + token)
  }

  /** Docker container name of a session. */
  function ContainerName(username: string, id: string): (n: string)
    ensures HasPrefix(n, "desktop-") && HasSuffix(n, "-" + id)
    ensures |n| == |"desktop-"| + |username| + 1 + |id|
    ensures n[|"desktop-"|..|"desktop-"| + |username|] == username
  {
    var n := "desktop-" + username + "-" + id;
    assert n[..|"desktop-"|] == "desktop-";
    assert n[|n| - |"-" + id|..] == "-" + id;
    n
  }

  /**
   * Ids of one length give distinct sessions distinct containers, so removing
   * one session's container never removes another's.
   */
  lemma ContainerNameInjective(u1: string, id1: string, u2: string, id2: string)
    requires |id1| == |id2|
    requires ContainerName(u1, id1) == ContainerName(u2, id2)
    ensures u1 == u2 && id1 == id2
  {
    var n := ContainerName(u1, id1);
    var k := |"desktop-"|;
    assert |u1| == |u2|;
    assert n == "desktop-" + u1 + "-" + id1;
    assert ContainerName(u2, id2) == "desktop-" + u2 + "-" + id2;
    assert n[k..k + |u1|] == u1;
    assert n[k..k + |u2|] == u2;
    assert n[|n| - |id1|..] == id1;
    assert n[|n| - |id2|..] == id2;
  }
}
