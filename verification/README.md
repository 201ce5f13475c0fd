# LookingGlass session registry, in Dafny

LookingGlass is an HTTP gateway (`main.go`) that logs a user in, builds an
OverlayFS root for them over a shared base image, starts a privileged
`ubuntu-xfce-novnc` container on a random port, and reverse-proxies the
browser's noVNC traffic to it through one external port. Idle sessions are
meant to be reaped after ten minutes of idleness, by a scan that runs once a
minute (see "## Findings": as written, the scan blocks at the first idle
session); logout tears a session down at once.

This project models the state machine under that I/O: the global `sessions`
map and the handlers that change it, plus the string and path derivations
the handlers rely on.

- `wrappers.dfy` (`Wrappers`): the `Option` datatype.
- `paths.dfy` (`Paths`): `strings.TrimPrefix`, `strings.SplitN(…, "/", 2)`,
  the proxy path split, the forwarded path `"/" + rest`, `filepath.Join` for
  one element, the `upper`/`work`/`merged` layout, the guest directory and
  the container name.
- `allocator.dfy` (`Allocator`): the `letters` alphabet, `randomPort` and
  `randSeq`. `randSeq` fills a character buffer in a loop, as the Go code does.
- `sessions.dfy` (`Sessions`): the `Session` record, the log of host
  commands (`Effect`), the registry transitions as functions (`Touched`,
  `Stopped`, `ReapAlong`), the lemmas about them, and the reaper as written.
- `registry.dfy` (`Gateway`): the class `Registry`. Its field `sessions` is
  the map and its ghost field `log` records the commands issued to the host.
  Its methods are the handlers `Login`, `SessionPage`, `Proxy`, `Ping`,
  `Logout`, and also `Stop` (`stopSession`) and `Reap` (one pass of
  `cleanupLoop`). `Login` checks the credentials and hands the rest of
  `login`, from the overlay choice on, to `StartDesktop`.

How the environment is modelled:

- Time is an integer number of seconds, and `sessionExpiry` is 600.
- Each random choice is supplied as a draw: an index into `letters`, or an
  offset into the port span. Preconditions bound each draw's range.
- The outcomes of the form parse, `os.MkdirAll`, `mount` and `docker run`
  are inputs. The user's configuration file is also an input: missing,
  unreadable, or a loaded password and overlay setting.
- Every command the gateway issues is appended to the ghost log, in order,
  whether or not it succeeds. This lets the contracts state the teardown
  order, the rollback after a failed container start, and "directory
  removed only for guests".
- Each handler is one atomic step. `sessionsMu` appears only in the reaper
  as written, as a held-or-free state that its two `Lock` calls go through.

`Registry.Valid()` says that every entry has the shape login gives it: an
8-character id over `letters`, container name `desktop-<user>-<id>`, a port in
[10000, 15000), and, for a guest, a directory `/srv/overlays/guest-` followed
by 6 characters. Every method keeps this invariant. From it,
`Sessions.DistinctContainers` proves that no two live sessions share a
container name. So `docker rm -f` on one session's container never removes
another session's container.

Login does not check for collisions. `sessions[sessionID] = …` replaces any
entry that already has the drawn id, and the contract of `StartDesktop` says exactly
that. Neither id uniqueness nor port uniqueness is claimed. Two sessions can
also share a persistent overlay directory when the same user logs in twice.
Stopping either one then unmounts the `merged` directory the other still uses.

Behaviours of the code worth stating plainly:

- Teardown unmounts `<OverlayDir>/merged` for every session, guest or
  persistent, and deletes the directory only for a guest.
- A persistent session's directory is the overlay setting used verbatim.
- A port is drawn without checking whether it is in use, so login never
  reports that the ports are exhausted.
- A failed mount after the directories were created leaves them in place.

## Model

| member | source | states |
|---|---|---|
| `Paths.TrimPrefix` | main.go:189 | the id is the path minus a leading prefix (prefix + id == path), or the path itself when the prefix is absent |
| `Paths.TrimPrefixOfConcat` | main.go:251 | trimming the handler prefix off prefix + id gives back exactly id |
| `Paths.IndexOf` | main.go:211 | finds the first occurrence of a character: it is there, and nothing before it matches; None only when the character is absent |
| `Paths.SplitAtSlash` | main.go:211-212 | SplitN at "/" into two parts exactly when the text holds a '/'; the parts rejoin with "/" to the input and the first holds no '/' |
| `Paths.SplitAtSlashOfJoin` | main.go:211-216 | split inverts join: id + "/" + rest splits into (id, rest) for any id free of '/' |
| `Paths.ParseProxyPath` | main.go:211-216 | the proxy path after /proxy/ is rejected (the 400 case) exactly when it holds no '/'; otherwise it gives id and rest, which rejoin with "/" to it |
| `Paths.ForwardPath` | main.go:232 | the forwarded path is "/" followed by exactly the rest |
| `Paths.ProxyPathRoundTrip` | main.go:211-216 | /proxy/<id>/<rest> is routed to session id with rest, for any id free of '/' |
| `Paths.ForwardPathDropsId` | main.go:211-232 | for every request path under /proxy/ that parses, /proxy/ + the parsed id + the forwarded path is the request path, so the forwarded path is the request path with /proxy/<id> removed |
| `Paths.Join` | main.go:129-131 | filepath.Join of a directory and one element: ends in the element, starts with the directory, just the element for an empty directory; otherwise exactly one '/' before the element, with no '/' added when the directory already ends in one (the length says so) |
| `Paths.JoinInjective` | main.go:129-131 | two elements joined under one directory give one path exactly when they are equal |
| `Paths.OverlayLayout` | main.go:129-131 | upper, work and merged are three distinct paths under the overlay directory, ending in their names |
| `Paths.MergedDir` | main.go:279 | the directory stopSession unmounts is the merged directory of the layout login mounted |
| `Paths.GuestDir` | main.go:123 | a guest overlay is /srv/overlays/guest-<token>, with nothing else in the name |
| `Paths.ContainerName` | main.go:153 | the container name is "desktop-", then the username, then "-" + id: it starts with "desktop-", the username sits right after it, it ends with "-" + id, and it has the length of its parts |
| `Paths.ContainerNameInjective` | main.go:151-153 | with ids of one length, equal container names mean equal user and equal id |
| `Allocator.RandomPort` | main.go:307-309 | randomPort lies in [10000, 15000) and is 10000 plus the draw |
| `Allocator.Spell` | main.go:297-304 | the token has one character per draw, and each is the letter the draw selects |
| `Allocator.TokenHasNoSlash` | main.go:294 | a token over letters holds no '/', so a guest token is one path element |
| `Allocator.RandSeq` | main.go:297-304 | randSeq(n) returns exactly n characters, all from the 36-letter alphabet, namely the ones the draws select |
| `Sessions.Expired` | main.go:262 | the idle test: more than sessionExpiry (600 seconds) since lastActive, strictly; `ReapKeepsOnlyActive` states what the scan does with it |
| `Sessions.Touched` | main.go:191-197 | the registry after a touch, as a function of the old map; its properties are stated by `TouchFrame`, `TouchMonotone` and `TouchWellFormed`, and `Registry.Touch` is proved equal to it |
| `Sessions.Teardown` | main.go:276-285 | the host commands of one stop; its properties are stated by `TeardownOrder` and `TeardownRemovesOnlyGuestDirs` |
| `Sessions.Stopped` | main.go:272-290 | the registry state after stopSession; its properties are stated by `StopFrame` and `StopIdempotent`, and `Registry.Stop` is proved equal to it |
| `Sessions.ReapStep` | main.go:262-264 | one visit of the scan: stop the id when it is registered and idle; its properties are stated by `SurvivorsVisitIdle` and `SurvivorsVisitOther` |
| `Sessions.ReapAlong` | main.go:261-266 | the scan visiting the ids of an order in turn; its properties are stated by `ReapAlongSurvivors`, `ReapAlongExtendsLog` and `ReapKeepsOnlyActive`, and `Registry.Reap` is proved equal to it for its order |
| `Sessions.DistinctContainers` | main.go:151-153 | in a well-formed registry, distinct ids have distinct container names |
| `Sessions.TouchFrame` | main.go:191-197 | a touch keeps the set of ids; only the touched entry's lastActive changes, and it becomes now; other entries are unchanged; an unknown id changes nothing |
| `Sessions.TouchMonotone` | main.go:240-245 | if no lastActive lies after now, a touch never decreases any lastActive |
| `Sessions.TouchWellFormed` | main.go:218-224 | a touch keeps every entry well-formed |
| `Sessions.TeardownOrder` | main.go:274-287 | teardown removes the container first, then unmounts the merged directory login mounted, then, for an ephemeral session, deletes the overlay directory |
| `Sessions.TeardownRemovesOnlyGuestDirs` | main.go:282-285 | a directory removal in a teardown belongs to an ephemeral session and targets its own overlay directory, so a persistent session's writable layer survives |
| `Sessions.StopFrame` | main.go:272-290 | stop removes exactly the id: it is absent afterwards and every other entry is unchanged; an absent id changes nothing; a present one appends its teardown to the log |
| `Sessions.StopIdempotent` | main.go:272-290 | stopping an id twice has the same effect on map and log as stopping it once |
| `Sessions.SurvivorsVisitIdle` | main.go:262-264 | visiting an idle entry drops exactly that entry from what the scan keeps |
| `Sessions.SurvivorsVisitOther` | main.go:262 | visiting an absent, active or already visited id changes nothing the scan keeps |
| `Sessions.ReapAlongSurvivors` | main.go:261-266 | in any visiting order, the scan keeps exactly the unvisited entries and the visited ones that are not idle, with their values unchanged |
| `Sessions.ReapAlongExtendsLog` | main.go:261-266 | the scan only appends to the log of host commands |
| `Sessions.ReapKeepsOnlyActive` | main.go:257-269 | after a full scan at time now, every remaining session has now - lastActive <= sessionExpiry; a session stays exactly when it is not idle, and it stays unchanged |
| `Sessions.CleanupAsWritten` | main.go:257-268 | one pass as written: it locks sessionsMu (the `Lock` of main.go:260) and scans while holding it; its properties are stated by `CleanupAsWrittenDeadlocks` |
| `Sessions.CleanupScan` | main.go:261-268 | the scan as written, with the mutex state threaded through: an idle entry calls stopSession, whose `Lock` (main.go:273) waits on the held mutex; its properties are stated by `CleanupScanBlocksAt` |
| `Sessions.CleanupScanBlocksAt` | main.go:261-273 | holding sessionsMu, the scan blocks exactly when it reaches an idle entry in its order |
| `Sessions.CleanupAsWrittenDeadlocks` | main.go:257-273 | started with sessionsMu free and over all registered ids, the pass as written blocks on its second lock exactly when some session is idle |
| `Gateway.OverlayDirFor` | main.go:119-127 | the "ephemeral" setting gives /srv/overlays/guest-<6 drawn letters>; any other setting is the directory itself |
| `Gateway.ProvisionLog` | main.go:133-169 | the host commands login issues after choosing the overlay: mkdir up to the first failure, then the mount, then docker run, then the rollback unmount; the `Started` predicate uses it and `Registry.StartDesktop` is proved to issue it |
| `Gateway.FirstFailure` | main.go:134-139 | the position of the first directory that cannot be created: all before it can be created, and it cannot |
| `Gateway.ChooseOverlay` | main.go:119-127 | ephemeral holds exactly for the "ephemeral" setting, and the directory is the one for that setting |
| `Gateway.Registry.constructor` | main.go:55 | the registry starts empty, with no commands issued |
| `Gateway.Registry.MakeOverlayDirs` | main.go:133-139 | creates upper, work and merged in turn; succeeds exactly when none fails; otherwise stops after the first failure |
| `Gateway.Registry.Login` | main.go:93-115 | 400 for a bad form, 401 for an unknown user or a wrong password, 500 for an unreadable configuration; in each of these nothing is issued to the host and nothing is registered; once the password matches, the outcome is that of starting the desktop (the `Started` predicate) |
| `Gateway.Registry.StartDesktop` | main.go:116-184 | 302 and a new entry exactly when mkdir, mount and docker run all succeed, otherwise 500 and no entry; the commands are mkdir up to the first failure, then the mount, then docker run, then an unmount of merged if the run failed; the entry has the user, "desktop-" + user + "-" + id, a port in range, lastActive = now, ephemeral exactly for the "ephemeral" setting, and the guest directory or the setting as OverlayDir; an existing entry with the same id is replaced |
| `Gateway.Registry.Touch` | main.go:191-197 | fetches the entry and refreshes its lastActive, as Touched specifies; nothing else changes, and an unknown id changes nothing |
| `Gateway.Registry.SessionPage` | main.go:188-207 | 200 and a touch for a live id, 404 and no change otherwise |
| `Gateway.Registry.Proxy` | main.go:210-235 | a path with no '/' after the id gets 400 with no lookup and no touch; an unknown id gets 404 and nothing is forwarded; otherwise the session is touched and the request goes to its port with path "/" + rest |
| `Gateway.Registry.Ping` | main.go:238-247 | always 200; touches the session if it exists |
| `Gateway.Registry.Stop` | main.go:272-290 | the new state is Stopped(old state, id): container removed, merged unmounted, a guest directory deleted, entry gone; an absent id changes nothing |
| `Gateway.Registry.Logout` | main.go:250-254 | stops the session named in the path and redirects with 302 either way |
| `Gateway.Registry.Reap` | main.go:257-269 | visits every registered id once, in some order, and stops the idle ones; afterwards every session has been idle at most sessionExpiry, and every session within the threshold is kept unchanged |

## Findings

| source | as written | input that shows it | evidently intended | confidence | as-written member | corrected member |
|---|---|---|---|---|---|---|
| main.go:257-273 | `cleanupLoop` holds `sessionsMu` during its scan and calls `stopSession`, which locks `sessionsMu` again; Go mutexes are not reentrant | a registry holding one session whose lastActive is more than 600 seconds before the scan | stop each idle session and release the lock, so the gateway keeps serving | high; not executed | `Sessions.CleanupAsWrittenDeadlocks` | `Gateway.Registry.Reap` |

## Left out

- HTTP plumbing is not modelled: response bodies, redirect targets, `http.Error` texts. Only the status codes remain.
- Template rendering is not modelled (main.go:77-90). So the session page's 500 for a template error is not modelled.
- INI configuration loading (main.go:101-111) is replaced by the `UserConf` input. That input is missing, unreadable, or a password and overlay setting.
- Running `mount`, `docker` and `umount` is not modelled, nor are `os.MkdirAll` and `os.RemoveAll`. Each is an entry in the ghost log. Where login inspects an outcome, that outcome is a boolean input.
- The reverse proxy's streaming (main.go:230-234) is foreign and unbounded I/O. The model stops at the target port and the rewritten path.
- `sync.Mutex`, the cleanup goroutine and `time.Sleep` are not modelled. Each handler is one atomic step, and `Reap` is one pass of the loop.
- The random generator and its reseeding on every call (main.go:298) are not modelled. The draws are inputs.
- The written contents of the overlay layers are not modelled. For a persistent session, the model shows only that no directory removal is issued.
- Gateway.Registry.Reap: uses one time `now` for the whole pass. `time.Since` reads the clock again for each entry.
- Strings are sequences of characters, while Go's `strings.TrimPrefix` and `strings.SplitN` work on bytes. For the ASCII prefixes and the '/' separator used here, both give the same split of any valid UTF-8 path.
- Paths.Join: does not model `filepath.Clean`. It is exact only for directories without `.` or `..` elements and without repeated '/'.
- Gateway.Registry.Login: gives no id or port uniqueness guarantee, because the code never checks for a collision.
