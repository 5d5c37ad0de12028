# Session cache of the Twitch audio relay server

The server answers `GET /view/{username}` with a local port on which an
audio-only relay of that user's live stream can be fetched. The part modelled
here is the session cache behind that answer (`server.go`): the map from user
name to running relay, the decision to reuse or rebuild a session, the choice
of the stream variant to relay, and the port counter.

The model is functional. The global map and counter become an immutable
`Cache`; one lookup is the pure function `Sessions.Resolve`, whose inputs
stand for everything the Go code obtains from its environment:

- `now`: the wall clock as the staleness test reads it (`server.go:100`), an
  integer count of nanoseconds;
- `probeOk`: what `os.FindProcess` on the relay's process id reports
  (`server.go:104-108`): true when it returns a process and no error;
- `qual`: the answer of the upstream lookup, no source or the selected
  variant. `Variants.GetStreamData` computes it from the upstream response,
  which is either a failed request or the list of variants the JSON decoder
  produced. `Runs` composes the two;
- `stamp`: the wall clock as read again after the upstream request, the time
  stored in a new or refreshed session (`server.go:86`).

The relay process launched is returned as a `Relay` value. It records the
variant it pulls and the port it was told to serve on, and it is stored in the
session as its process handle.

Modules:

- `Wrappers`: the `Option` type standing for a possibly-nil pointer.
- `Variants`: quality variants, the lowest-bitrate scan, the 5000 ceiling and the upstream lookup.
- `Sessions`: session records, the refresh predicate, the lookup step and the port invariant.
- `Runs`: sequences of lookups served one after another.

One behaviour of the code is reproduced as written rather than corrected. On a
refresh, the relay is launched on the session's *previous* port (`server.go:83`).
The session, however, stores the newly allocated counter value (`server.go:86`),
and that value is what the caller receives. `Sessions.RefreshHandsOutUnservedPort`
proves the consequence: after a refresh, no relay in the cache was launched on
the port the caller is told to use.

Two further points of the code that the model keeps:

- The reuse path (`server.go:95`) leaves `LastAccess` unchanged. A session's
  time is set only when it is created or refreshed, so
  `Sessions.ReuseAfterSuccess` is stated with the recorded timestamp.
- `maxPorts` (`server.go:43`) is declared and never read, so the counter grows
  without bound.

## Model

| member | source | states |
|---|---|---|
| `Variants.ScanFrom` | server.go:137-146 | The scan never ends above its start value or above any variant's bitrate. It keeps its start state if no variant is strictly lower. Otherwise it holds a variant of the list that carries the final lowest bitrate and is strictly below every earlier variant, i.e. the first minimum. |
| `Variants.Select` | server.go:136-150 | No variant is chosen exactly when every variant is above 5000, which includes the empty list. A minimum of exactly 5000 is accepted. A chosen variant is the first one holding the minimum bitrate, and its bitrate is at most 5000. |
| `Variants.GetStreamData` | server.go:117-151 | A failed request or an empty decoded list yields no source. A source, when there is one, is the first listed variant holding the minimum bitrate, and that bitrate is at most 5000. Whenever some variant is at or below 5000, a source is returned. |
| `Variants.AllAboveCeilingExample` | server.go:147-149 | Variants at 6000 and 8000 are both rejected, so no source is returned. |
| `Variants.LowestOfThreeExample` | server.go:140-146 | Among variants at 4000, 2000 and 4999, the 2000 variant is chosen. |
| `Variants.TieKeepsFirstExample` | server.go:142 | Of two variants with equal bitrate the first is chosen, because only a strictly lower bitrate replaces the choice. |
| `Sessions.ShouldRefresh` | server.go:99-110 | A session is rebuilt if and only if the process probe failed or more than 600 minutes have elapsed. The elapsed time is measured as real-valued minutes, as the clock library reports it, while the body compares integer nanoseconds. |
| `Sessions.ExactlyPeriodKeeps` | server.go:100 | A session exactly 600 minutes old whose process is alive is not rebuilt. |
| `Sessions.Resolve` | server.go:71-97 | Reuse: a present session that need not be refreshed is returned with its port, and nothing changes. Failure: the call returns (-1, false), changes nothing and launches nothing, exactly when the session is missing or stale and there is no source. Otherwise one relay is launched from the selected variant. The counter goes up by one and the returned port is the new counter value. The user's session becomes (second clock reading, relay, new port) and no other key changes. A new user's relay gets the new port; a refreshed user's relay gets the previous port. |
| `Sessions.OverCeilingCreatesNothing` | server.go:74-91 | A new user whose variants (6000 and 8000) are all above the ceiling gets (-1, false), and no session is created. |
| `Sessions.InitValid` | server.go:47-48 | The starting state (no sessions, counter at 6000) satisfies the port invariant. |
| `Sessions.InstallPreservesValid` | server.go:77-87 | The invariant survives installing a session under the next counter value whose relay is on that port or on the user's previous port. The invariant says: stored ports lie in (6000, curPort] and differ between users; relays sit in (6000, own port], differ between users, and never sit on another user's port. |
| `Sessions.ResolvePreservesValid` | server.go:71-97 | Every lookup preserves the port invariant. |
| `Sessions.RefreshHandsOutUnservedPort` | server.go:82-88 | On a refresh the relay is launched on the session's previous port, which differs from the port stored and returned. No relay in the cache is on the returned port. |
| `Sessions.CreateServesReturnedPort` | server.go:79-80 | For a new user with a source available, the lookup succeeds and returns the old counter plus one. The new relay is launched on that same port. |
| `Sessions.ReuseAfterSuccess` | server.go:72-95 | After a successful lookup, asking again returns the same port, changes nothing and launches nothing, whatever the upstream says. This holds while the process is alive and no more than 600 minutes have passed since the session's recorded time. |
| `Sessions.DeadProcessRefreshes` | server.go:104-109 | When the process probe fails and a source exists, the lookup launches exactly one relay and advances the counter by one. |
| `Sessions.FailedRefreshKeepsSession` | server.go:89-91 | A stale session whose refresh finds no source stays in the map unchanged, and the call returns (-1, false). |
| `Runs.Run` | server.go:71-97 | Lookups are served one after another against the shared map and counter. Each request's step is the lookup, fed the upstream answer through variant selection, applied to the cache the previous step left. The run ends in the cache the last step left. |
| `Runs.RunPreservesValid` | server.go:71-97 | Any sequence of lookups from a state satisfying the port invariant ends in a state satisfying it. |
| `Runs.RunAllocatesConsecutively` | server.go:77-88 | In any sequence of lookups, the k-th call that launches a relay returns the starting counter plus k+1. The counter ends advanced by the number of such calls. |
| `Runs.FromInit` | server.go:42-48 | Starting from the fresh server, successive creations and refreshes return 6001, 6002, ... in strictly increasing order. The final state satisfies the port invariant: every stored port lies in (6000, curPort] and no two users share one. |

## Left out

- The HTTP handler, `main`, the listener and the JSON response (`server.go:30-68`): transport plumbing around the cache.
- The upstream request and body read (`server.go:117-134`): their failure is the `FetchFailed` input. The decoded list is an input too; a body that does not decode arrives as whatever the decoder left, usually an empty list.
- Building and spawning the relay command (`server.go:153-174`): the launch is modelled only by the `Relay` value (source variant and port).
- `os.FindProcess` and the process id (`server.go:104-105`): replaced by the boolean `probeOk`. On Unix, Go's `os.FindProcess` always returns a process and no error, whether or not the process exists; the relay is a `bash -c` pipeline (`server.go:168`), so the server runs on Unix. There `probeOk` is always true, and a dead relay is replaced only once 600 minutes have passed. The free boolean covers both outcomes, so `Sessions.DeadProcessRefreshes` describes a branch the deployed server never takes.
- A nil `Command.Process`, which would panic in the Go code, is not modelled.
- Clock resolution and floating point: time is an integer nanosecond count and the staleness test is exact. The rounding of `Minutes()` to a `float64` is not modelled.
- Bitrates are `real`, since the code only compares them. NaN and other float64 corner cases are not modelled.
- The 64-bit width of Go's `int` for the port counter is not modelled; it would take over 10^18 lookups to overflow.
- Concurrent requests: the map is unsynchronised in the code, and the model serves lookups strictly one after another.
- Port exhaustion and port reuse: `maxPorts` is never checked and reuse is only a comment in the code (`server.go:43`, `server.go:76`), so neither is modelled.
- Termination of a replaced relay: the code drops the old handle without stopping the process. The model keeps no record of dropped relays.
