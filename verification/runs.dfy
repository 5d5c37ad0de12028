/**
 * Sequences of lookups, served one after another from a starting cache:
 * the port invariant holds throughout, and the ports handed out by the
 * calls that launch a relay are consecutive.
 */
module Runs {
  import opened Wrappers
  import opened Variants
  import opened Sessions

  /** One inbound lookup with the environment it meets: the clock as the
      staleness test reads it, the process probe for the user's relay, the
      upstream answer, and the clock as read again after the upstream
      request. */
  datatype Request = Request(user: string, now: int, probeOk: bool, up: Upstream, stamp: int)

  /** The step `q` takes from cache `c`: the upstream answer goes through
      the variant selection, and its result drives the lookup. */
  function Serve(c: Cache, q: Request): Step
  {
    Resolve(c, q.user, q.now, q.probeOk, GetStreamData(q.up), q.stamp)
  }

  /** The cache the `i`-th step of a run starts from. */
  function Before(c: Cache, steps: seq<Step>, i: nat): Cache
    requires i <= |steps|
  {
    if i == 0 then c else steps[i - 1].next
  }

  /** The cache after a run and the step taken for each request. */
  datatype Trace = Trace(final: Cache, steps: seq<Step>)

  /** Serve `reqs` in order, starting from `c`: one step per request, each
      taken from the cache the previous one left behind, and the run ends in
      the cache the last step left. */
  function Run(c: Cache, reqs: seq<Request>): (t: Trace)
    ensures |t.steps| == |reqs|
    ensures forall i :: 0 <= i < |reqs| ==> t.steps[i] == Serve(Before(c, t.steps, i), reqs[i])
    ensures t.final == Before(c, t.steps, |reqs|)
    decreases |reqs|
  {
    if |reqs| == 0 then Trace(c, [])
    else
      var s := Serve(c, reqs[0]);
      var rest := Run(s.next, reqs[1..]);
      var steps := [s] + rest.steps;
      assert forall i :: 0 < i <= |reqs| ==> Before(c, steps, i) == Before(s.next, rest.steps, i - 1);
      Trace(rest.final, steps)
  }

  /** The ports returned by the steps that launched a relay, in order. */
  function Allocated(steps: seq<Step>): (ports: seq<int>)
    ensures |ports| <= |steps|
    decreases |steps|
  {
    if |steps| == 0 then []
    else (if steps[0].launched.Some? then [steps[0].port] else []) + Allocated(steps[1..])
  }

  /** A run keeps the port invariant. */
  lemma {:induction false} RunPreservesValid(c: Cache, reqs: seq<Request>)
    requires Valid(c)
    ensures Valid(Run(c, reqs).final)
    decreases |reqs|
  {
    if |reqs| > 0 {
      var q := reqs[0];
      ResolvePreservesValid(c, q.user, q.now, q.probeOk, GetStreamData(q.up), q.stamp);
      RunPreservesValid(Serve(c, q).next, reqs[1..]);
    }
  }

  /** One step advances the counter by one exactly when it launches a
      relay, and then returns the new counter value. */
  lemma StepCounter(c: Cache, q: Request)
    ensures var s := Serve(c, q);
      && (s.launched.Some? ==> s.port == c.curPort + 1 && s.next.curPort == c.curPort + 1)
      && (s.launched.None? ==> s.next.curPort == c.curPort)
  {
  }

  lemma AllocatedCons(s: Step, rest: seq<Step>)
    ensures Allocated([s] + rest) == (if s.launched.Some? then [s.port] else []) + Allocated(rest)
  {
    assert ([s] + rest)[1..] == rest;
  }

  /** The k-th relay-launching step of a run returns `c.curPort + k + 1`, and
      the counter ends advanced by the number of such steps. */
  lemma {:induction false} RunAllocatesConsecutively(c: Cache, reqs: seq<Request>)
    ensures var t := Run(c, reqs);
      && t.final.curPort == c.curPort + |Allocated(t.steps)|
      && forall k :: 0 <= k < |Allocated(t.steps)| ==> Allocated(t.steps)[k] == c.curPort + k + 1
    decreases |reqs|
  {
    if |reqs| > 0 {
      var s := Serve(c, reqs[0]);
      var rest := Run(s.next, reqs[1..]);
      RunAllocatesConsecutively(s.next, reqs[1..]);
      StepCounter(c, reqs[0]);
      AllocatedCons(s, rest.steps);
      var t := Run(c, reqs);
      assert t == Trace(rest.final, [s] + rest.steps);
      var ports := Allocated(t.steps);
      var tail := Allocated(rest.steps);
      if s.launched.Some? {
        assert ports == [s.port] + tail;
        forall k | 0 <= k < |ports|
          ensures ports[k] == c.curPort + k + 1
        {
          if k > 0 { assert ports[k] == tail[k - 1]; }
        }
      } else {
        assert ports == tail;
      }
    }
  }

  /** From a fresh server: the ports handed out by successive creations and
      refreshes are `StartPort + 1`, `StartPort + 2`, ... in strictly
      increasing order, and the final cache satisfies the port invariant, so
      every stored port lies in `(StartPort, curPort]` and no two users share
      one. */
  lemma FromInit(reqs: seq<Request>)
    ensures var t := Run(Init, reqs);
      && Valid(t.final)
      && t.final.curPort == StartPort + |Allocated(t.steps)|
      && (forall k :: 0 <= k < |Allocated(t.steps)| ==> Allocated(t.steps)[k] == StartPort + k + 1)
      && (forall i, j :: 0 <= i < j < |Allocated(t.steps)| ==> Allocated(t.steps)[i] < Allocated(t.steps)[j])
  {
    InitValid();
    RunPreservesValid(Init, reqs);
    RunAllocatesConsecutively(Init, reqs);
  }
}
