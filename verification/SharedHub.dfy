/**
 The shared-Hub benchmark: every route echoes one payload at a time, the echo arrives in arbitrary
 fragments, and callbacks of all routes interleave in any order on the owner loop.
 */
module SharedHub {
  import opened Totals

  datatype RouteState = RouteState(identity: nat, partialBytes: nat, completed: nat)

  function CompletedOf(): RouteState -> nat { (r: RouteState) => r.completed }
  function PartialOf(): RouteState -> nat { (r: RouteState) => r.partialBytes }

  /** A route and the echoed bytes still under way to it: while it has round trips left, exactly one
      payload is unanswered; afterwards nothing is under way. */
  predicate RouteOk(route: RouteState, inFlight: nat, roundTrips: nat, payloadBytes: nat) {
    if route.completed < roundTrips then
      route.partialBytes < payloadBytes && inFlight + route.partialBytes == payloadBytes
    else
      route.completed == roundTrips && route.partialBytes == 0 && inFlight == 0
  }

  class Benchmark {
    const connections: nat
    const roundTrips: nat       // per connection
    const payloadBytes: nat

    var routes: seq<RouteState>
    var completed: nat
    var latencyUs: seq<int>
    var ownerFailure: bool
    var stops: nat              // calls of hub.stop()
    var inFlight: seq<nat>      // environment: echoed bytes the peer owes each route

    ghost predicate Shape()
      reads this
    {
      && connections >= 1 && roundTrips >= 1 && payloadBytes >= 1
      && |routes| == |inFlight| == connections
      && completed == Total(CompletedOf(), routes) && |latencyUs| == completed
    }

    /** Holds as long as every send is accepted and the peer only echoes. */
    ghost predicate Valid()
      reads this
    {
      && Shape() && !ownerFailure
      && (forall i :: 0 <= i < |routes| ==> RouteOk(routes[i], inFlight[i], roundTrips, payloadBytes))
      && stops == (if completed == roundTrips * connections then 1 else 0)
    }

    /** Registers the routes and sends the first payload on each. */
    constructor (connections: nat, roundTrips: nat, payloadBytes: nat)
      requires connections >= 1 && roundTrips >= 1 && payloadBytes >= 1
      ensures Valid() && completed == 0
      ensures this.connections == connections && this.roundTrips == roundTrips && this.payloadBytes == payloadBytes
    {
      this.connections, this.roundTrips, this.payloadBytes := connections, roundTrips, payloadBytes;
      routes := seq(connections, i requires 0 <= i < connections => RouteState(i, 0, 0));
      inFlight := seq(connections, _ => payloadBytes);
      completed, latencyUs, ownerFailure, stops := 0, [], false, 0;
      new;
      TotalUniform(CompletedOf(), routes, 0);
      assert roundTrips * connections >= 1;
    }

    /** hub.stop(): true on the first call only. */
    method StopHub() returns (first: bool)
      modifies this`stops
      ensures first == (old(stops) == 0) && stops == old(stops) + 1
    {
      first := stops == 0;
      stops := stops + 1;
    }

    /** The message callback of route `index`. `accepted` is the hub's answer to the next send. */
    method OnMessage(index: nat, identity: nat, size: nat, accepted: bool, elapsedUs: int)
      requires Shape() && index < connections
      requires routes[index].partialBytes <= payloadBytes
      modifies this`routes, this`completed, this`latencyUs, this`ownerFailure, this`stops
      ensures var route := old(routes[index]); var done := route.completed + 1;
        if identity != route.identity || size == 0 || size > payloadBytes - route.partialBytes then
          && ownerFailure && stops == old(stops) + 1
          && unchanged(`routes) && unchanged(`completed) && unchanged(`latencyUs)
        else if route.partialBytes + size != payloadBytes then
          && routes == old(routes)[index := route.(partialBytes := route.partialBytes + size)]
          && unchanged(`completed) && unchanged(`latencyUs) && unchanged(`ownerFailure) && unchanged(`stops)
        else
          && routes == old(routes)[index := route.(partialBytes := 0, completed := done)]
          && completed == old(completed) + 1 && latencyUs == old(latencyUs) + [elapsedUs]
          && (if done < roundTrips then
                && ownerFailure == (old(ownerFailure) || !accepted)
                && stops == old(stops) + (if accepted then 0 else 1)
              else if completed == roundTrips * connections then
                && ownerFailure == (old(ownerFailure) || old(stops) != 0)
                && stops == old(stops) + 1
              else
                unchanged(`ownerFailure) && unchanged(`stops))
      ensures Shape()
    {
      var route := routes[index];
      if identity != route.identity || size == 0 || size > payloadBytes - route.partialBytes {
        ownerFailure := true;
        var _ := StopHub();
        return;
      }
      TotalUpdate(CompletedOf(), routes, index, route.(partialBytes := route.partialBytes + size));
      TotalUpdate(CompletedOf(), routes, index, route.(partialBytes := 0, completed := route.completed + 1));
      if route.partialBytes + size != payloadBytes {
        routes := routes[index := route.(partialBytes := route.partialBytes + size)];
        return;
      }
      latencyUs := latencyUs + [elapsedUs];
      routes := routes[index := route.(partialBytes := 0, completed := route.completed + 1)];
      completed := completed + 1;
      if route.completed + 1 < roundTrips {
        if !accepted {
          ownerFailure := true;
          var _ := StopHub();
        }
        return;
      }
      if completed == roundTrips * connections {
        var first := StopHub();
        if !first { ownerFailure := true; }
      }
    }

    /** One fragment of the echo reaches route `index`: nothing but a rejected send can fail. */
    method Deliver(index: nat, size: nat, accepted: bool, elapsedUs: int)
      requires Valid() && index < connections && 1 <= size <= inFlight[index]
      modifies this
      ensures Shape() && (ownerFailure ==> !accepted)
      ensures !ownerFailure ==> Valid()
      ensures completed > old(completed) || (completed == old(completed)
                && Total(PartialOf(), routes) == old(Total(PartialOf(), routes)) + size)
    {
      var route := routes[index];
      assert RouteOk(route, inFlight[index], roundTrips, payloadBytes);
      StopOnce(index);
      TotalUpdate(PartialOf(), routes, index, route.(partialBytes := route.partialBytes + size));
      ghost var oldRoutes, oldFlight := routes, inFlight;
      OnMessage(index, route.identity, size, accepted, elapsedUs);
      inFlight := inFlight[index := inFlight[index] - size];
      if route.partialBytes + size == payloadBytes && route.completed + 1 < roundTrips && accepted {
        inFlight := inFlight[index := inFlight[index] + payloadBytes];
      }
      if !ownerFailure {
        forall i | 0 <= i < |routes| ensures RouteOk(routes[i], inFlight[i], roundTrips, payloadBytes) {
          assert RouteOk(oldRoutes[i], oldFlight[i], roundTrips, payloadBytes);
        }
        StopOnce(index);
      }
    }

    /** A route with round trips left keeps the total below the end, so the stop comes last. */
    lemma StopOnce(index: nat)
      requires Shape() && index < connections
      requires forall i :: 0 <= i < |routes| ==> RouteOk(routes[i], inFlight[i], roundTrips, payloadBytes)
      ensures completed <= roundTrips * connections && Total(PartialOf(), routes) <= payloadBytes * connections
      ensures completed == roundTrips * connections ==> routes[index].completed == roundTrips
    {
      forall k | 0 <= k < |routes|
        ensures CompletedOf()(routes[k]) <= roundTrips && PartialOf()(routes[k]) <= payloadBytes
      {
        assert RouteOk(routes[k], inFlight[k], roundTrips, payloadBytes);
      }
      TotalCapped(CompletedOf(), routes, roundTrips);
      TotalCapped(PartialOf(), routes, payloadBytes);
      assert CompletedOf()(routes[index]) <= roundTrips;
    }

    /** An unfinished run always has a route the peer still owes bytes. */
    lemma SomeoneIsOwed() returns (index: nat)
      requires Valid() && completed < roundTrips * connections
      ensures index < connections && inFlight[index] > 0
    {
      if forall k :: 0 <= k < |routes| ==> CompletedOf()(routes[k]) == roundTrips {
        TotalUniform(CompletedOf(), routes, roundTrips);
      }
      index :| 0 <= index < |routes| && routes[index].completed != roundTrips;
      assert RouteOk(routes[index], inFlight[index], roundTrips, payloadBytes);
    }

    /** The whole run, for every fragmentation and interleaving. It can end early only by its timer
        or because the hub rejected a send. */
    method Run() returns (timedOut: bool, rejected: bool)
      requires Valid() && completed == 0
      modifies this
      ensures !timedOut && !rejected ==>
                && !ownerFailure && stops == 1
                && completed == |latencyUs| == roundTrips * connections
                && forall i :: 0 <= i < |routes| ==> routes[i].completed == roundTrips && routes[i].partialBytes == 0
      ensures rejected <==> ownerFailure
    {
      timedOut, rejected := false, false;
      while completed < roundTrips * connections && !timedOut && !rejected
        invariant Shape() && (rejected <==> ownerFailure)
        invariant !rejected ==> Valid()
        decreases !timedOut, !rejected, roundTrips * connections - completed,
                  payloadBytes * connections - Total(PartialOf(), routes)
      {
        timedOut := *;
        if !timedOut {
          ghost var owed := SomeoneIsOwed();
          StopOnce(owed);
          var index: nat :| index < connections && inFlight[index] > 0;
          var size: nat :| 1 <= size <= inFlight[index];
          var accepted: bool, elapsedUs: int := *, *;
          Deliver(index, size, accepted, elapsedUs);
          rejected := ownerFailure;
          if !rejected { StopOnce(index); }
        }
      }
      if !timedOut && !rejected {
        forall i | 0 <= i < |routes|
          ensures routes[i].completed == roundTrips && routes[i].partialBytes == 0
        {
          StopOnce(i);
          assert RouteOk(routes[i], inFlight[i], roundTrips, payloadBytes);
        }
        StopOnce(0);
      }
    }
  }
}
