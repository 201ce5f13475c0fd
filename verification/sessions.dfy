/**
 * The session registry as values: the Session record, the commands the
 * gateway issues to the host, and the specification of the registry's
 * transitions (touch, stop, reap) with the properties they keep.
 */
module Sessions {
  import opened Wrappers
  import opened Paths
  import opened Allocator

  /** sessionExpiry: ten minutes of idleness, with time counted in seconds. */
  const SessionExpiry: int := 600

  /** A running desktop: who owns it, its container, its overlay, its port and its activity. */
  datatype Session = Session(
    username: string,
    containerName: string,
    overlayDir: string,
    port: int,
    lastActive: int,
    ephemeral: bool)

  /**
   * A command the gateway issues to the host (mkdir, mount, docker run,
   * docker rm, umount, rm -r). Whether it succeeded is not recorded: where
   * the gateway looks at the outcome, the outcome is an input.
   */
  datatype Effect =
    | MakeDir(path: string)
    | MountOverlay(lower: string, upper: string, work: string, merged: string)
    | RunContainer(name: string, port: int, merged: string)
    | RemoveContainer(name: string)
    | Unmount(path: string)
    | RemoveTree(path: string)

  /** The registry map together with the commands issued so far. */
  datatype RegistryState = RegistryState(sessions: map<string, Session>, log: seq<Effect>)

  /** The idle test of the reaper: strictly more than sessionExpiry since the last activity. */
  predicate Expired(s: Session, now: int) {
    now - s.lastActive > SessionExpiry
  }

  /** The shape every registered session has: what login builds from its id. */
  predicate WellFormed(id: string, s: Session) {
    && IsToken(id, SessionIdLength)
    && s.containerName == ContainerName(s.username, id)
    && PortBase <= s.port < PortBase + PortSpan
    && (s.ephemeral ==>
          HasPrefix(s.overlayDir, OverlayRoot + "/guest-") &&
          |s.overlayDir| == |OverlayRoot + "/guest-"| + GuestTokenLength)
  }

  predicate WellFormedRegistry(m: map<string, Session>) {
    forall id :: id in m ==> WellFormed(id, m[id])
  }

  /** In a well-formed registry no two sessions share a container name. */
  lemma DistinctContainers(m: map<string, Session>, id1: string, id2: string)
    requires WellFormedRegistry(m)
    requires id1 in m && id2 in m && id1 != id2
    ensures m[id1].containerName != m[id2].containerName
  {
    if m[id1].containerName == m[id2].containerName {
      ContainerNameInjective(m[id1].username, id1, m[id2].username, id2);
    }
  }

  // ---------------------------------------------------------------------
  // Touch: the session page, the proxy and the heartbeat refresh activity

  /** The registry after an activity touch of id at time now. */
  function Touched(m: map<string, Session>, id: string, now: int): map<string, Session> {
    if id in m then m[id := m[id].(lastActive := now)] else m
  }

  /**
   * A touch changes nothing but the lastActive of an existing entry, which
   * becomes now; an unknown id leaves the registry as it was.
   */
  lemma TouchFrame(m: map<string, Session>, id: string, now: int)
    ensures Touched(m, id, now).Keys == m.Keys
    ensures id !in m ==> Touched(m, id, now) == m
    ensures id in m ==> Touched(m, id, now)[id].lastActive == now
    ensures id in m ==> Touched(m, id, now)[id].(lastActive := m[id].lastActive) == m[id]
    ensures forall k :: k in m && k != id ==> Touched(m, id, now)[k] == m[k]
  {
  }

  /** With a clock that does not run backwards, a touch never decreases lastActive. */
  lemma TouchMonotone(m: map<string, Session>, id: string, now: int)
    requires forall k :: k in m ==> m[k].lastActive <= now
    ensures forall k :: k in m ==> m[k].lastActive <= Touched(m, id, now)[k].lastActive <= now
  {
  }

  /** Touching preserves the shape of every entry. */
  lemma TouchWellFormed(m: map<string, Session>, id: string, now: int)
    requires WellFormedRegistry(m)
    ensures WellFormedRegistry(Touched(m, id, now))
  {
  }

  // ---------------------------------------------------------------------
  // Stop: the teardown of one session

  /**
   * What stopSession issues for a live session: remove its container,
   * lazily unmount the merged directory, and for a guest session delete
   * the whole overlay directory.
   */
  function Teardown(s: Session): seq<Effect> {
    [RemoveContainer(s.containerName), Unmount(MergedDir(s.overlayDir))]
      + (if s.ephemeral then [RemoveTree(s.overlayDir)] else [])
  }

  /**
   * Teardown order: the container goes first, then the mountpoint login
   * mounted, then (only for a guest) the directory.
   */
  lemma TeardownOrder(s: Session)
    ensures |Teardown(s)| == if s.ephemeral then 3 else 2
    ensures Teardown(s)[0] == RemoveContainer(s.containerName)
    ensures Teardown(s)[1] == Unmount(OverlayLayout(s.overlayDir).merged)
    ensures s.ephemeral ==> Teardown(s)[2] == RemoveTree(s.overlayDir)
  {
  }

  /**
   * Only a guest session's directory is deleted; a persistent session's
   * directory, and so its writable layer, survives the teardown.
   */
  lemma TeardownRemovesOnlyGuestDirs(s: Session, e: Effect)
    requires e in Teardown(s) && e.RemoveTree?
    ensures s.ephemeral && e == RemoveTree(s.overlayDir)
  {
  }

  /** The registry after stopSession(id). */
  function Stopped(st: RegistryState, id: string): RegistryState {
    if id in st.sessions then
      RegistryState(st.sessions - {id}, st.log + Teardown(st.sessions[id]))
    else
      st
  }

  /**
   * stopSession removes exactly id: afterwards id is absent, every other
   * entry is as it was, an absent id changes nothing, and a present one
   * appends its teardown to the log.
   */
  lemma StopFrame(st: RegistryState, id: string)
    ensures id !in Stopped(st, id).sessions
    ensures Stopped(st, id).sessions.Keys == st.sessions.Keys - {id}
    ensures forall k :: k in st.sessions && k != id ==> Stopped(st, id).sessions[k] == st.sessions[k]
    ensures id !in st.sessions ==> Stopped(st, id) == st
    ensures id in st.sessions ==> Stopped(st, id).log == st.log + Teardown(st.sessions[id])
  {
  }

  /** stopSession is idempotent: a second stop of the same id issues nothing and changes nothing. */
  lemma StopIdempotent(st: RegistryState, id: string)
    ensures Stopped(Stopped(st, id), id) == Stopped(st, id)
  {
  }

  // ---------------------------------------------------------------------
  // Reap: the idle scan of cleanupLoop

  /** One step of the scan: stop id if it is still registered and idle too long. */
  function ReapStep(st: RegistryState, now: int, id: string): RegistryState {
    if id in st.sessions && Expired(st.sessions[id], now) then Stopped(st, id) else st
  }

  /** The scan visiting the ids of order, in that order. */
  function ReapAlong(st: RegistryState, now: int, order: seq<string>): RegistryState
    decreases |order|
  {
    if order == [] then st
    else ReapStep(ReapAlong(st, now, order[..|order| - 1]), now, order[|order| - 1])
  }

  /** The entries of m that a scan visiting the ids in visited keeps. */
  function Survivors(m: map<string, Session>, now: int, visited: set<string>): map<string, Session> {
    map id | id in m && (id !in visited || !Expired(m[id], now)) :: m[id]
  }

  /** Visiting an idle entry drops it from the survivors. */
  lemma SurvivorsVisitIdle(m: map<string, Session>, now: int, seen: set<string>, id: string)
    requires id in m && Expired(m[id], now)
    ensures Survivors(m, now, seen + {id}) == Survivors(m, now, seen) - {id}
  {
    var a := Survivors(m, now, seen + {id});
    var b := Survivors(m, now, seen) - {id};
    assert a.Keys == b.Keys;
  }

  /** Visiting an id that is absent, active, or already visited keeps the survivors as they were. */
  lemma SurvivorsVisitOther(m: map<string, Session>, now: int, seen: set<string>, id: string)
    requires id in m && Expired(m[id], now) ==> id in seen
    ensures Survivors(m, now, seen + {id}) == Survivors(m, now, seen)
  {
    var a := Survivors(m, now, seen + {id});
    var b := Survivors(m, now, seen);
    assert a.Keys == b.Keys;
  }

  /** Whatever the order, the scan keeps exactly the visited entries that are not idle, unchanged. */
  lemma {:induction false} ReapAlongSurvivors(st: RegistryState, now: int, order: seq<string>)
    ensures ReapAlong(st, now, order).sessions == Survivors(st.sessions, now, set id | id in order)
    decreases |order|
  {
    var visited := set id | id in order;
    var m := st.sessions;
    if order == [] {
      assert visited == {};
      assert Survivors(m, now, visited).Keys == m.Keys;
    } else {
      var pre := order[..|order| - 1];
      var id := order[|order| - 1];
      var seen := set x | x in pre;
      assert order == pre + [id];
      assert visited == seen + {id};
      ReapAlongSurvivors(st, now, pre);
      var mid := ReapAlong(st, now, pre).sessions;
      if id in mid && Expired(mid[id], now) {
        SurvivorsVisitIdle(m, now, seen, id);
      } else {
        SurvivorsVisitOther(m, now, seen, id);
      }
    }
  }

  /** The scan only appends to the log. */
  lemma {:induction false} ReapAlongExtendsLog(st: RegistryState, now: int, order: seq<string>)
    ensures st.log <= ReapAlong(st, now, order).log
    decreases |order|
  {
    if order != [] {
      ReapAlongExtendsLog(st, now, order[..|order| - 1]);
    }
  }

  /**
   * After a scan over all registered ids at time now, every remaining session
   * has been idle at most sessionExpiry, every session within the threshold
   * is still there unchanged, and every idle one is gone.
   */
  lemma ReapKeepsOnlyActive(st: RegistryState, now: int, order: seq<string>)
    requires (set id | id in order) == st.sessions.Keys
    ensures forall id :: id in ReapAlong(st, now, order).sessions ==>
              now - ReapAlong(st, now, order).sessions[id].lastActive <= SessionExpiry
    ensures forall id :: id in st.sessions ==>
              (id in ReapAlong(st, now, order).sessions <==> !Expired(st.sessions[id], now))
    ensures forall id :: id in ReapAlong(st, now, order).sessions ==>
              id in st.sessions && ReapAlong(st, now, order).sessions[id] == st.sessions[id]
  {
    ReapAlongSurvivors(st, now, order);
  }

  // ---------------------------------------------------------------------
  // The reaper as written: it never gets past the first idle session

  /** Whether a goroutine gets past a step or waits there forever. */
  datatype Progress = Finished | Blocked

  /** sessionsMu: whether some goroutine holds it. */
  datatype Mutex = Mutex(held: bool)

  /**
   * sync.Mutex.Lock: takes a free mutex; on a held one it waits (None), and
   * since Go mutexes are not reentrant, a goroutine that already holds the
   * mutex waits forever.
   */
  function Lock(mu: Mutex): Option<Mutex> {
    if mu.held then None else Some(Mutex(true))
  }

  /**
   * One pass of cleanupLoop as written, starting from the state of
   * sessionsMu: the pass locks it, then scans the registry while holding it.
   */
  function CleanupAsWritten(mu: Mutex, m: map<string, Session>, now: int, order: seq<string>): Progress {
    match Lock(mu)
    case None => Blocked
    case Some(held) => CleanupScan(held, m, now, order)
  }

  /**
   * The scan over the ids in map iteration order, with sessionsMu in state
   * mu. stopSession, called for an idle entry, locks sessionsMu itself
   * before stopping anything, and unlocks it when it returns.
   */
  function CleanupScan(mu: Mutex, m: map<string, Session>, now: int, order: seq<string>): Progress
    decreases |order|
  {
    if order == [] then Finished
    else if order[0] in m && Expired(m[order[0]], now) then
      match Lock(mu)
      case None => Blocked
      case Some(_) => CleanupScan(Mutex(false), m - {order[0]}, now, order[1..])
    else CleanupScan(mu, m, now, order[1..])
  }

  /**
   * Started while no handler holds sessionsMu, the pass as written blocks
   * (and with it every handler that needs sessionsMu) exactly when some
   * session is idle, which is exactly when the reaper was meant to stop one.
   */
  lemma CleanupAsWrittenDeadlocks(mu: Mutex, m: map<string, Session>, now: int, order: seq<string>)
    requires !mu.held
    requires (set id | id in order) == m.Keys
    ensures CleanupAsWritten(mu, m, now, order) == Blocked <==> exists id :: id in m && Expired(m[id], now)
  {
    assert Lock(mu) == Some(Mutex(true));
    CleanupScanBlocksAt(Mutex(true), m, now, order);
  }

  /** Holding sessionsMu, the scan blocks exactly when it reaches an idle entry. */
  lemma {:induction false} CleanupScanBlocksAt(mu: Mutex, m: map<string, Session>, now: int, order: seq<string>)
    requires mu.held
    ensures CleanupScan(mu, m, now, order) == Blocked <==>
              exists i :: 0 <= i < |order| && order[i] in m && Expired(m[order[i]], now)
  {
    if order != [] && !(order[0] in m && Expired(m[order[0]], now)) {
      CleanupScanBlocksAt(mu, m, now, order[1..]);
      if exists i :: 0 <= i < |order| && order[i] in m && Expired(m[order[i]], now) {
        var i :| 0 <= i < |order| && order[i] in m && Expired(m[order[i]], now);
        assert order[1..][i - 1] == order[i];
      }
      if exists j :: 0 <= j < |order[1..]| && order[1..][j] in m && Expired(m[order[1..][j]], now) {
        var j :| 0 <= j < |order[1..]| && order[1..][j] in m && Expired(m[order[1..][j]], now);
        assert order[j + 1] == order[1..][j];
      }
    }
  }
}
