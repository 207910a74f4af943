/**
  The clusterer client (services/api/src/pipeline/cluster-client.ts): one result per
  message on every path, and a circuit breaker that calls interleave on.
*/
module ClusterClient {
  import opened Base

  datatype ClusterResult = ClusterResult(templateId: string, templateText: string, isNewTemplate: bool)

  const UNCLUSTERED := "0"

  function FallbackResult(): ClusterResult { ClusterResult(UNCLUSTERED, "[unclustered]", false) }

  function Fallbacks(count: nat): (results: seq<ClusterResult>)
    ensures |results| == count
    ensures forall r :: r in results ==> r.templateId == UNCLUSTERED && !r.isNewTemplate
  {
    seq(count, i => FallbackResult())
  }

  /** What the network gives back: an exception (a timeout among them), or a status with
      a well-formed body, if it has one. */
  datatype Body = Malformed | Results(results: seq<ClusterResult>)
  datatype Reply = Threw | Status(code: nat, body: Body)

  /** A reply that has a result for each of `n` messages. */
  predicate Usable(reply: Reply, n: nat) {
    reply.Status? && 200 <= reply.code < 300 && reply.body.Results? && |reply.body.results| == n
  }

  /** The calls of `cluster` and `embed` interleave at their awaits; each method below is
      what runs without one. */
  class ClusterClient {
    const circuitThreshold: nat
    const probeInterval: nat
    var failures: nat
    var circuitOpen: bool
    var callsSinceOpen: nat
    ghost var begun: nat      // calls since the circuit opened
    ghost var reached: nat    // of these, those that went to the network

    constructor (circuitThreshold: nat, probeInterval: nat)
      requires circuitThreshold >= 1 && probeInterval >= 2
      ensures Valid() && this.circuitThreshold == circuitThreshold && this.probeInterval == probeInterval
              && !circuitOpen
    {
      this.circuitThreshold, this.probeInterval := circuitThreshold, probeInterval;
      failures, circuitOpen, callsSinceOpen := 0, false, 0;
      begun, reached := 0, 0;
    }

    /** The circuit is open exactly when failures in a row have reached the threshold;
        and of the calls made since it opened, every `probeInterval`-th has gone out. */
    ghost predicate Valid()
      reads this
    {
      && circuitThreshold >= 1 && probeInterval >= 2
      && (circuitOpen <==> failures >= circuitThreshold)
      && (circuitOpen ==> callsSinceOpen == begun && reached == begun / probeInterval)
    }

    /** The next call goes to the network. */
    predicate GoesOut()
      requires probeInterval >= 2
      reads this
    {
      !circuitOpen || (callsSinceOpen + 1) % probeInterval == 0
    }

    /** The start of a call: whether it goes to the network. */
    method Begin() returns (goes: bool)
      requires Valid()
      modifies this`callsSinceOpen, this`begun, this`reached
      ensures Valid()
      ensures !circuitOpen ==> goes && begun == old(begun)
      ensures circuitOpen ==> begun == old(begun) + 1 && (goes <==> begun % probeInterval == 0)
      ensures goes <==> old(GoesOut())
    {
      goes := true;
      if circuitOpen {
        NextMultiple(begun, probeInterval);
        callsSinceOpen := callsSinceOpen + 1;
        begun := begun + 1;
        goes := callsSinceOpen % probeInterval == 0;
        reached := reached + if goes then 1 else 0;
      }
    }

    method OnFailure()
      requires Valid()
      modifies this
      ensures Valid() && failures == old(failures) + 1
      ensures circuitOpen <==> old(failures) + 1 >= circuitThreshold
      ensures old(circuitOpen) ==> begun == old(begun)
      ensures circuitOpen && !old(circuitOpen) ==> begun == 0 && reached == 0
    {
      failures := failures + 1;
      if !circuitOpen && failures >= circuitThreshold {
        circuitOpen, callsSinceOpen := true, 0;
        begun, reached := 0, 0;
      }
    }

    method OnSuccess()
      requires Valid()
      modifies this
      ensures Valid() && failures == 0 && !circuitOpen
    {
      failures := 0;
      if circuitOpen {
        circuitOpen, callsSinceOpen := false, 0;
      }
    }

    method Fallback(count: nat) returns (results: seq<ClusterResult>)
      ensures results == Fallbacks(count)
    {
      results := seq(count, i => FallbackResult());
    }

    /** The end of a call of `cluster`: a result for every message, on every path, and
        those of the clusterer exactly when its reply is a 2xx with one for each. */
    method Finish(messages: seq<string>, reply: Reply) returns (results: seq<ClusterResult>)
      requires Valid()
      modifies this
      ensures Valid() && |results| == |messages|
      ensures if && reply.Status? && 200 <= reply.code <= 299 && reply.body.Results?
                 && |reply.body.results| == |messages|
              then results == reply.body.results && failures == 0 && !circuitOpen
              else results == Fallbacks(|messages|) && failures == old(failures) + 1
    {
      if reply.Threw? || reply.code == 422 || !(200 <= reply.code < 300) || reply.body.Malformed?
         || |reply.body.results| != |messages| {
        OnFailure();
        results := Fallback(|messages|);
      } else {
        OnSuccess();
        results := reply.body.results;
      }
    }

    /** A call of `cluster` whose reply comes before any other call goes on. */
    method Cluster(messages: seq<string>, reply: Reply) returns (results: seq<ClusterResult>)
      requires Valid()
      modifies this
      ensures Valid() && |results| == |messages|
      ensures results == if old(GoesOut()) && Usable(reply, |messages|) then reply.body.results
                         else Fallbacks(|messages|)
      ensures !old(GoesOut()) ==> failures == old(failures)
    {
      var goes := Begin();
      if goes {
        results := Finish(messages, reply);
      } else {
        results := Fallback(|messages|);
      }
    }
  }

  /** How a quotient grows by one. */
  lemma NextMultiple(n: nat, m: nat)
    requires m >= 2
    ensures (n + 1) / m == n / m + if (n + 1) % m == 0 then 1 else 0
  {
    var q, r := n / m, n % m;
    assert n == q * m + r;
    if r + 1 == m {
      Division(n + 1, m, q + 1, 0);
    } else {
      Division(n + 1, m, q, r + 1);
    }
  }
}
