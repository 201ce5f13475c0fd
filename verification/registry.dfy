/**
 * The gateway's mutable state: the sessions map and the handlers that change
 * it. sessionsMu is abstracted away, so each handler is one atomic step.
 * The commands issued to the host are recorded in a ghost log; the outcome
 * of each command the gateway inspects is an input.
 */
module Gateway {
  import opened Wrappers
  import opened Paths
  import opened Allocator
  import opened Sessions

  const StatusOK: int := 200
  const StatusFound: int := 302
  const BadRequest: int := 400
  const Unauthorized: int := 401
  const NotFound: int := 404
  const InternalError: int := 500

  /** What login learns from users/<username>.conf. */
  datatype UserConf =
    | NoSuchUser                               // the file does not exist
    | Unreadable                               // the file exists but does not load
    | Conf(password: string, overlay: string)  // the [user] password and overlay keys

  /** The outcomes of the host operations login depends on. */
  datatype Host = Host(
    formOk: bool,              // the request form parses
    mkdirFails: set<string>,   // the directories os.MkdirAll cannot create
    mountOk: bool,             // mount -t overlay succeeds
    dockerOk: bool)            // docker run succeeds

  /** The outcome of a request to /proxy/. */
  datatype ProxyReply =
    | BadPath                          // 400: no '/' after the session id
    | SessionNotFound                  // 404: no such session, nothing forwarded
    | Forward(port: int, path: string) // forwarded to 127.0.0.1:port with this path

  /** The overlay directory login chooses for an overlay setting. */
  function OverlayDirFor(overlay: string, guestDraws: seq<int>): (d: string)
    requires IsDraws(guestDraws, GuestTokenLength)
    ensures overlay == "ephemeral" ==> d == OverlayRoot + "/guest-" + Spell(guestDraws)
    ensures overlay != "ephemeral" ==> d == overlay
  {
    if overlay == "ephemeral" then
      TokenHasNoSlash(Spell(guestDraws), GuestTokenLength);
      GuestDir(Spell(guestDraws))
    else overlay
  }

  /** The directories login creates, in the order it creates them. */
  function Dirs(l: Layout): seq<string> {
    [l.upper, l.work, l.merged]
  }

  function MakeDirs(ds: seq<string>): seq<Effect> {
    seq(|ds|, i requires 0 <= i < |ds| => MakeDir(ds[i]))
  }

  /** The position of the first directory that cannot be created, or |ds| when all can. */
  function FirstFailure(ds: seq<string>, fails: set<string>): (k: nat)
    ensures k <= |ds|
    ensures forall j :: 0 <= j < k ==> ds[j] !in fails
    ensures k < |ds| ==> ds[k] in fails
  {
    if ds == [] || ds[0] in fails then 0 else 1 + FirstFailure(ds[1..], fails)
  }

  /**
   * The commands login issues once the credentials are accepted: mkdir up to
   * the first failure; then the mount; then, if it succeeded, docker run, and
   * an unmount of merged if that failed.
   */
  function ProvisionLog(l: Layout, host: Host, run: Effect): seq<Effect> {
    var mount := MountOverlay(BaseOverlay, l.upper, l.work, l.merged);
    var k := FirstFailure(Dirs(l), host.mkdirFails);
    if k < 3 then MakeDirs(Dirs(l)[..k + 1])
    else if !host.mountOk then MakeDirs(Dirs(l)) + [mount]
    else if !host.dockerOk then MakeDirs(Dirs(l)) + [mount, run, Unmount(l.merged)]
    else MakeDirs(Dirs(l)) + [mount, run]
  }

  /** Whether login gets past the form and the credential check. */
  predicate Accepted(host: Host, conf: UserConf, password: string) {
    host.formOk && conf.Conf? && conf.password == password
  }

  /**
   * What starting a desktop does, from the overlay setting onwards: the
   * status, the registry entry it adds and the commands it issues.
   */
  ghost predicate Started(before: RegistryState, after: RegistryState, username: string, overlay: string,
                          host: Host, guestDraws: seq<int>, idDraws: seq<int>, portDraw: int, now: int,
                          status: int, sid: Option<string>)
    requires IsDraws(guestDraws, GuestTokenLength) && IsDraws(idDraws, SessionIdLength)
    requires 0 <= portDraw < PortSpan
  {
    var l := OverlayLayout(OverlayDirFor(overlay, guestDraws));
    var run := RunContainer(ContainerName(username, Spell(idDraws)), RandomPort(portDraw), l.merged);
    && status in {StatusFound, InternalError}
    && (status == StatusFound <==>
          FirstFailure(Dirs(l), host.mkdirFails) == 3 && host.mountOk && host.dockerOk)
    && (sid.Some? <==> status == StatusFound)
    // no entry unless every step succeeded
    && (status != StatusFound ==> after.sessions == before.sessions)
    // on success exactly the new entry is added, with these fields
    && (status == StatusFound ==>
          && sid.Some? && sid.value in after.sessions
          && var s := after.sessions[sid.value];
          && sid.value == Spell(idDraws)
          && after.sessions == before.sessions[sid.value := s]
          && s.username == username
          && s.containerName == "desktop-" + username + "-" + sid.value
          && s.port == RandomPort(portDraw)
          && s.lastActive == now
          && s.ephemeral == (overlay == "ephemeral")
          && (s.ephemeral ==> s.overlayDir == OverlayRoot + "/guest-" + Spell(guestDraws))
          && (!s.ephemeral ==> s.overlayDir == overlay))
    // mkdir until the first failure, mount, run, and unmount if the run failed
    && after.log == before.log + ProvisionLog(l, host, run)
  }

  /** The overlay directory and the ephemeral flag login derives from the overlay setting. */
  method ChooseOverlay(overlay: string, guestDraws: seq<int>) returns (dir: string, ephemeral: bool)
    requires IsDraws(guestDraws, GuestTokenLength)
    ensures ephemeral <==> overlay == "ephemeral"
    ensures dir == OverlayDirFor(overlay, guestDraws)
  {
    if overlay == "ephemeral" {
      var token := RandSeq(GuestTokenLength, guestDraws);
      TokenHasNoSlash(token, GuestTokenLength);
      dir := GuestDir(token);
      ephemeral := true;
    } else {
      dir := overlay;
      ephemeral := false;
    }
  }

  class Registry {
    var sessions: map<string, Session>
    ghost var log: seq<Effect>

    ghost predicate Valid()
      reads this
    {
      WellFormedRegistry(sessions)
    }

    ghost function State(): RegistryState
      reads this
    {
      RegistryState(sessions, log)
    }

    constructor ()
      ensures Valid() && sessions == map[] && log == []
    {
      sessions := map[];
      log := [];
    }

    /**
     * login: check the form and the credentials, then start the desktop.
     * Nothing is issued to the host and nothing is registered unless the
     * password matches.
     */
    method Login(username: string, password: string, conf: UserConf, host: Host,
                 guestDraws: seq<int>, idDraws: seq<int>, portDraw: int, now: int)
      returns (status: int, sid: Option<string>)
      requires Valid()
      requires IsDraws(guestDraws, GuestTokenLength) && IsDraws(idDraws, SessionIdLength)
      requires 0 <= portDraw < PortSpan
      modifies this
      ensures Valid()
      ensures status in {StatusFound, BadRequest, Unauthorized, InternalError}
      ensures status == BadRequest <==> !host.formOk
      ensures status == Unauthorized <==>
                host.formOk && (conf.NoSuchUser? || (conf.Conf? && conf.password != password))
      ensures sid.Some? <==> status == StatusFound
      ensures !Accepted(host, conf, password) ==>
                sessions == old(sessions) && log == old(log) && status != StatusFound
      ensures Accepted(host, conf, password) ==>
                Started(old(State()), State(), username, conf.overlay, host, guestDraws, idDraws, portDraw, now, status, sid)
    {
      if !host.formOk {
        return BadRequest, None;
      }
      if conf.NoSuchUser? {
        return Unauthorized, None;
      }
      if conf.Unreadable? {
        return InternalError, None;
      }
      if conf.password != password {
        return Unauthorized, None;
      }
      status, sid := StartDesktop(username, conf.overlay, host, guestDraws, idDraws, portDraw, now);
    }

    /**
     * The rest of login: choose the overlay directory, create its three
     * directories, mount the overlay, start the container, and register the
     * session only when all of these succeed. A failed container start
     * unmounts the overlay again. The new entry overwrites any entry with the
     * same id.
     */
    method StartDesktop(username: string, overlay: string, host: Host,
                        guestDraws: seq<int>, idDraws: seq<int>, portDraw: int, now: int)
      returns (status: int, sid: Option<string>)
      requires Valid()
      requires IsDraws(guestDraws, GuestTokenLength) && IsDraws(idDraws, SessionIdLength)
      requires 0 <= portDraw < PortSpan
      modifies this
      ensures Valid()
      ensures Started(old(State()), State(), username, overlay, host, guestDraws, idDraws, portDraw, now, status, sid)
    {
      var overlayDir, ephemeral := ChooseOverlay(overlay, guestDraws);
      var l := OverlayLayout(overlayDir);
      ghost var run := RunContainer(ContainerName(username, Spell(idDraws)), RandomPort(portDraw), l.merged);
      ghost var mount := MountOverlay(BaseOverlay, l.upper, l.work, l.merged);
      var created := MakeOverlayDirs(l, host.mkdirFails);
      if !created {
        return InternalError, None;
      }

      log := log + [mount];
      assert log == old(log) + (MakeDirs(Dirs(l)) + [mount]);
      if !host.mountOk {
        return InternalError, None;
      }

      var id := RandSeq(SessionIdLength, idDraws);
      var port := RandomPort(portDraw);
      var name := ContainerName(username, id);
      log := log + [RunContainer(name, port, l.merged)];
      if !host.dockerOk {
        log := log + [Unmount(l.merged)];
        assert log == old(log) + (MakeDirs(Dirs(l)) + [mount, run, Unmount(l.merged)]);
        return InternalError, None;
      }
      assert log == old(log) + (MakeDirs(Dirs(l)) + [mount, run]);

      var s := Session(username, name, overlayDir, port, now, ephemeral);
      assert WellFormed(id, s);
      sessions := sessions[id := s];
      return StatusFound, Some(id);
    }

    /** os.MkdirAll on upper, work and merged in turn, stopping at the first failure. */
    method MakeOverlayDirs(l: Layout, mkdirFails: set<string>) returns (created: bool)
      modifies this`log
      ensures created <==> FirstFailure(Dirs(l), mkdirFails) == 3
      ensures created ==> log == old(log) + MakeDirs(Dirs(l))
      ensures !created ==> log == old(log) + MakeDirs(Dirs(l)[..FirstFailure(Dirs(l), mkdirFails) + 1])
    {
      var dirs := Dirs(l);
      for i := 0 to |dirs|
        invariant i <= FirstFailure(dirs, mkdirFails)
        invariant log == old(log) + MakeDirs(dirs[..i])
      {
        assert MakeDirs(dirs[..i + 1]) == MakeDirs(dirs[..i]) + [MakeDir(dirs[i])];
        log := log + [MakeDir(dirs[i])];
        if dirs[i] in mkdirFails {
          return false;
        }
      }
      assert dirs[..|dirs|] == dirs;
      return true;
    }

    /** Fetch the entry for id and refresh its lastActive to now, if it exists. */
    method Touch(id: string, now: int) returns (found: Option<Session>)
      requires Valid()
      modifies this
      ensures Valid() && log == old(log)
      ensures sessions == Touched(old(sessions), id, now)
      ensures found.Some? <==> id in old(sessions)
      ensures found.Some? ==> found.value == sessions[id]
    {
      TouchWellFormed(sessions, id, now);
      if id in sessions {
        var s := sessions[id];
        s := s.(lastActive := now);
        sessions := sessions[id := s];
        found := Some(s);
      } else {
        found := None;
      }
    }

    /** GET /session/<id>: 200 and a touch for a live session, 404 otherwise. */
    method SessionPage(path: string, now: int) returns (status: int)
      requires Valid()
      modifies this
      ensures Valid() && log == old(log)
      ensures sessions == Touched(old(sessions), TrimPrefix(path, SessionPrefix), now)
      ensures status == if TrimPrefix(path, SessionPrefix) in old(sessions) then StatusOK else NotFound
    {
      var id := TrimPrefix(path, SessionPrefix);
      var found := Touch(id, now);
      status := if found.Some? then StatusOK else NotFound;
    }

    /**
     * /proxy/<id>/<rest>: a path without a second '/' is rejected before any
     * lookup; an unknown id is not forwarded; otherwise the session is
     * touched and the request goes to its port with path "/" + rest.
     */
    method Proxy(path: string, now: int) returns (reply: ProxyReply)
      requires Valid()
      modifies this
      ensures Valid() && log == old(log)
      ensures ParseProxyPath(path).None? ==> reply == BadPath && sessions == old(sessions)
      ensures ParseProxyPath(path).Some? ==>
                var t := ParseProxyPath(path).value;
                && sessions == Touched(old(sessions), t.id, now)
                && reply == if t.id in old(sessions)
                            then Forward(old(sessions)[t.id].port, ForwardPath(t))
                            else SessionNotFound
    {
      match ParseProxyPath(path)
      case None =>
        reply := BadPath;
      case Some(t) =>
        var found := Touch(t.id, now);
        if found.None? {
          reply := SessionNotFound;
        } else {
          reply := Forward(found.value.port, ForwardPath(t));
        }
    }

    /** GET /ping/<id>: always 200; touches the session if it exists. */
    method Ping(path: string, now: int) returns (status: int)
      requires Valid()
      modifies this
      ensures Valid() && log == old(log)
      ensures sessions == Touched(old(sessions), TrimPrefix(path, PingPrefix), now)
      ensures status == StatusOK
    {
      var _ := Touch(TrimPrefix(path, PingPrefix), now);
      status := StatusOK;
    }

    /**
     * stopSession: for a live session remove its container, unmount its
     * merged directory, delete its overlay directory if it is a guest's,
     * then drop the entry. An unknown id is a no-op.
     */
    method Stop(id: string)
      requires Valid()
      modifies this
      ensures Valid()
      ensures State() == Stopped(old(State()), id)
      ensures id !in sessions
      ensures id !in old(sessions) ==> sessions == old(sessions) && log == old(log)
    {
      if id in sessions {
        var s := sessions[id];
        log := log + [RemoveContainer(s.containerName)];
        var merged := MergedDir(s.overlayDir);
        log := log + [Unmount(merged)];
        if s.ephemeral {
          log := log + [RemoveTree(s.overlayDir)];
        }
        sessions := sessions - {id};
      }
    }

    /** GET /logout/<id>: stop the session if it exists, and redirect either way. */
    method Logout(path: string) returns (status: int)
      requires Valid()
      modifies this
      ensures Valid()
      ensures State() == Stopped(old(State()), TrimPrefix(path, LogoutPrefix))
      ensures status == StatusFound
    {
      Stop(TrimPrefix(path, LogoutPrefix));
      status := StatusFound;
    }

    /**
     * One pass of cleanupLoop at time now: visit every registered id once,
     * in an unspecified order, and stop those idle for more than
     * sessionExpiry. The order taken is returned.
     */
    method Reap(now: int) returns (ghost order: seq<string>)
      requires Valid()
      modifies this
      ensures Valid()
      ensures (set id | id in order) == old(sessions).Keys
      ensures State() == ReapAlong(old(State()), now, order)
      ensures forall id :: id in sessions ==> now - sessions[id].lastActive <= SessionExpiry
      ensures forall id :: id in old(sessions) && !Expired(old(sessions)[id], now) ==>
                id in sessions && sessions[id] == old(sessions)[id]
    {
      var pending := sessions.Keys;
      order := [];
      while pending != {}
        invariant Valid()
        invariant pending + (set id | id in order) == old(sessions).Keys
        invariant pending !! (set id | id in order)
        invariant forall id :: id in pending ==> id in sessions && sessions[id] == old(sessions)[id]
        invariant State() == ReapAlong(old(State()), now, order)
        decreases pending
      {
        var id :| id in pending;
        var s := sessions[id];
        assert (order + [id])[..|order|] == order;
        if now - s.lastActive > SessionExpiry {
          Stop(id);
        }
        pending := pending - {id};
        order := order + [id];
      }
      ReapKeepsOnlyActive(old(State()), now, order);
    }
  }
}
