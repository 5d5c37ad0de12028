/**
 * The session cache: a map from user name to the relay serving that user's
 * stream, plus the counter ports are allocated from. `Resolve` is one call of
 * the lookup; the wall clock, the process-table probe and the upstream
 * directory are its inputs, and the relay it launches is part of its output.
 */
module Sessions {
  import opened Wrappers
  import opened Variants

  /** The first port is `StartPort + 1`. */
  const StartPort: int := 6000

  /** Declared as the size of the port range; no code path consults it. */
  const MaxPorts: int := 1000

  /** Refresh period, in minutes. */
  const RefreshPeriod: int := 600

  /** Timestamps are nanosecond counts, the resolution of the clock. */
  const NanosPerMinute: int := 60_000_000_000

  /** The relay process handle: the variant it pulls and the port its HTTP
      sink was told to bind. */
  datatype Relay = Relay(source: QualityType, port: int)

  /** One cached session: when it was (re)created, its relay, and the port
      handed out to callers. */
  datatype StreamInfo = StreamInfo(lastAccess: int, command: Relay, port: int)

  /** The process-wide state: the session map and the last allocated port. */
  datatype Cache = Cache(streams: map<string, StreamInfo>, curPort: int)

  /** The result of one lookup: the port and success flag returned to the
      caller, the cache afterwards, and the relay launched, if any. */
  datatype Step = Step(port: int, found: bool, next: Cache, launched: Option<Relay>)

  /** The state the server starts in: no sessions, counter at `StartPort`. */
  const Init := Cache(map[], StartPort)

  /** Time since `since`, in minutes, as the clock library reports it. */
  function ElapsedMinutes(since: int, now: int): (m: real)
    ensures since <= now ==> m >= 0.0
  {
    (now - since) as real / NanosPerMinute as real
  }

  /** Whether a cached session must be rebuilt: it is older than the refresh
      period (strictly), or the probe for its process failed. `probeOk` is
      what the process lookup by id reports: true when it returns a process
      and no error. */
  function ShouldRefresh(info: StreamInfo, now: int, probeOk: bool): (r: bool)
    ensures r <==> !probeOk || ElapsedMinutes(info.lastAccess, now) > RefreshPeriod as real
  {
    !probeOk || now - info.lastAccess > RefreshPeriod * NanosPerMinute
  }

  /** A session exactly one refresh period old, with a live process, is kept. */
  lemma ExactlyPeriodKeeps(info: StreamInfo)
    ensures !ShouldRefresh(info, info.lastAccess + RefreshPeriod * NanosPerMinute, true)
  {
  }

  /** One lookup for `user`. The clock is read twice: `now` for the
      staleness test, and `stamp`, after the upstream request, for the time
      recorded in a new or refreshed session. `qual` is what the upstream
      lookup (`Variants.GetStreamData`) answers for this user; it matters
      only when the session is missing or stale.

      An existing session that need not be refreshed is returned as is.
      Otherwise, without a usable variant the call fails with port -1 and
      leaves everything in place; with one, the counter is bumped, a relay
      is launched, and the session is (re)installed under the new counter
      value. A new user's relay is launched on that new port; a refreshed
      user's relay is launched on the session's previous port. */
  function Resolve(c: Cache, user: string, now: int, probeOk: bool, qual: Option<QualityType>,
                   stamp: int): (r: Step)
    // reuse: an existing, fresh, live session is returned untouched
    ensures user in c.streams && !ShouldRefresh(c.streams[user], now, probeOk) ==>
      r == Step(c.streams[user].port, true, c, None)
    // failure: nothing changes and nothing is launched
    ensures !r.found ==> r.port == -1 && r.next == c && r.launched.None?
    ensures !r.found <==> (user !in c.streams || ShouldRefresh(c.streams[user], now, probeOk))
                          && qual.None?
    // a relay is launched exactly when the session is missing or stale and a source exists
    ensures r.launched.Some? <==> (user !in c.streams || ShouldRefresh(c.streams[user], now, probeOk))
                                  && qual.Some?
    ensures r.launched.None? ==> r.next == c
    // creation or refresh: one new port, the session installed under it
    ensures r.launched.Some? ==>
      && r.found
      && r.next.curPort == c.curPort + 1
      && r.port == r.next.curPort
      && r.next.streams == c.streams[user := StreamInfo(stamp, r.launched.value, r.port)]
      && r.launched.value.source == qual.value
    // the port the relay is launched on
    ensures r.launched.Some? && user !in c.streams ==> r.launched.value.port == r.port
    ensures r.launched.Some? && user in c.streams ==> r.launched.value.port == c.streams[user].port
    // on success the caller gets the port stored for the user
    ensures r.found ==> user in r.next.streams && r.next.streams[user].port == r.port
  {
    var existing := user in c.streams;
    if existing && !ShouldRefresh(c.streams[user], now, probeOk) then
      Step(c.streams[user].port, true, c, None)
    else
      match qual
      case None => Step(-1, false, c, None)
      case Some(q) =>
        var port := c.curPort + 1;
        var relay := Relay(q, if existing then c.streams[user].port else port);
        Step(port, true, Cache(c.streams[user := StreamInfo(stamp, relay, port)], port), Some(relay))
  }

  /** The port invariant. Every stored port lies in `(StartPort, curPort]` and
      no two users share one. Every relay was launched on a port in
      `(StartPort, port]` of its own session, no two users' relays share a
      port, and no relay sits on another user's stored port. */
  ghost predicate Valid(c: Cache)
  {
    && c.curPort >= StartPort
    && (forall u :: u in c.streams ==> StartPort < c.streams[u].port <= c.curPort)
    && (forall u :: u in c.streams ==> StartPort < c.streams[u].command.port <= c.streams[u].port)
    && (forall u, v :: u in c.streams && v in c.streams && u != v ==>
          c.streams[u].port != c.streams[v].port)
    && (forall u, v :: u in c.streams && v in c.streams && u != v ==>
          c.streams[u].command.port != c.streams[v].command.port)
    && (forall u, v :: u in c.streams && v in c.streams && u != v ==>
          c.streams[u].command.port != c.streams[v].port)
  }

  lemma InitValid()
    ensures Valid(Init)
  {
  }

  /** Installing a session under a freshly allocated port, whose relay is on
      that port or on the user's previous port, keeps the invariant. */
  lemma InstallPreservesValid(c: Cache, user: string, info: StreamInfo)
    requires Valid(c)
    requires info.port == c.curPort + 1
    requires info.command.port == info.port
             || (user in c.streams && info.command.port == c.streams[user].port)
    ensures Valid(Cache(c.streams[user := info], c.curPort + 1))
  {
    var m := c.streams[user := info];
    forall u | u in m
      ensures StartPort < m[u].port <= c.curPort + 1
      ensures StartPort < m[u].command.port <= m[u].port
    {
    }
    forall u, v | u in m && v in m && u != v
      ensures m[u].port != m[v].port
      ensures m[u].command.port != m[v].command.port
      ensures m[u].command.port != m[v].port
    {
      if u == user {
        assert m[v] == c.streams[v];
      } else if v == user {
        assert m[u] == c.streams[u];
      } else {
        assert m[u] == c.streams[u] && m[v] == c.streams[v];
      }
    }
  }

  /** Every lookup preserves the port invariant. */
  lemma ResolvePreservesValid(c: Cache, user: string, now: int, probeOk: bool, qual: Option<QualityType>,
                              stamp: int)
    requires Valid(c)
    ensures Valid(Resolve(c, user, now, probeOk, qual, stamp).next)
  {
    var r := Resolve(c, user, now, probeOk, qual, stamp);
    if r.launched.Some? {
      InstallPreservesValid(c, user, StreamInfo(stamp, r.launched.value, r.port));
    }
  }

  /** After a refresh the caller is handed a port no relay of the cache was
      launched on: the new relay went to the session's previous port, while
      the session now records the freshly allocated one. */
  lemma RefreshHandsOutUnservedPort(c: Cache, user: string, now: int, probeOk: bool, qual: Option<QualityType>,
                                    stamp: int)
    requires Valid(c)
    requires user in c.streams
    requires ShouldRefresh(c.streams[user], now, probeOk)
    requires qual.Some?
    ensures var r := Resolve(c, user, now, probeOk, qual, stamp);
      && r.launched.value.port == c.streams[user].port
      && r.launched.value.port != r.port
      && forall u :: u in r.next.streams ==> r.next.streams[u].command.port != r.port
  {
    var r := Resolve(c, user, now, probeOk, qual, stamp);
    assert forall u :: u in r.next.streams && u != user ==> r.next.streams[u] == c.streams[u];
  }

  /** A newly created session's relay is launched on the very port returned. */
  lemma CreateServesReturnedPort(c: Cache, user: string, now: int, probeOk: bool, qual: Option<QualityType>,
                                 stamp: int)
    requires user !in c.streams
    requires qual.Some?
    ensures var r := Resolve(c, user, now, probeOk, qual, stamp);
      && r.found && r.launched.Some?
      && r.port == c.curPort + 1
      && r.next.streams[user].command.port == r.port
  {
  }

  /** Idempotent reuse: once a lookup succeeds, asking again while the
      session is within the refresh period and its process is alive returns
      the same port, changes nothing and launches nothing, whatever the
      upstream answers. The session's timestamp is the one set when it was
      last (re)created; a reuse does not move it. */
  lemma ReuseAfterSuccess(c: Cache, user: string, now: int, probeOk: bool, qual: Option<QualityType>,
                          stamp: int, later: int, qual2: Option<QualityType>, stamp2: int)
    requires Resolve(c, user, now, probeOk, qual, stamp).found
    requires later - Resolve(c, user, now, probeOk, qual, stamp).next.streams[user].lastAccess
             <= RefreshPeriod * NanosPerMinute
    ensures var r := Resolve(c, user, now, probeOk, qual, stamp);
      Resolve(r.next, user, later, true, qual2, stamp2) == Step(r.port, true, r.next, None)
  {
  }

  /** A session whose process probe fails is rebuilt on the next lookup if a
      source is available: exactly one relay is launched. */
  lemma DeadProcessRefreshes(c: Cache, user: string, now: int, qual: Option<QualityType>, stamp: int)
    requires user in c.streams
    requires qual.Some?
    ensures var r := Resolve(c, user, now, false, qual, stamp);
      r.launched.Some? && r.found && r.next.curPort == c.curPort + 1
  {
  }

  /** A failed refresh leaves the stale session in place, so the next lookup
      retries. */
  lemma FailedRefreshKeepsSession(c: Cache, user: string, now: int, probeOk: bool, qual: Option<QualityType>,
                                  stamp: int)
    requires user in c.streams
    requires ShouldRefresh(c.streams[user], now, probeOk)
    requires qual.None?
    ensures var r := Resolve(c, user, now, probeOk, qual, stamp);
      r == Step(-1, false, c, None) && r.next.streams[user] == c.streams[user]
  {
  }

  /** A user whose variants are all above the ceiling gets (-1, false) and no
      session is created. */
  lemma OverCeilingCreatesNothing(c: Cache, user: string, now: int, probeOk: bool, stamp: int)
    requires user !in c.streams
    ensures var vs := [QualityType("a", "t", "c", 6000.0), QualityType("b", "t", "c", 8000.0)];
      var r := Resolve(c, user, now, probeOk, GetStreamData(Fetched(vs)), stamp);
      r == Step(-1, false, c, None) && user !in r.next.streams
  {
    AllAboveCeilingExample();
  }
}
