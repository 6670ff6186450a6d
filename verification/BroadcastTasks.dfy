/** How many owner tasks one broadcast iteration schedules. */
module BroadcastTasks {
  import opened Arithmetic
  import opened Striding

  /** The validator's closed form, summed over the first n owners. */
  function TasksOfOwners(n: nat, fanout: nat, threads: nat, batch: nat): nat
    requires threads > 0 && batch > 0
  {
    if n == 0 then 0
    else
      var base, extra := fanout / threads, fanout % threads;
      var share := base + (if n - 1 < extra then 1 else 0);
      TasksOfOwners(n - 1, fanout, threads, batch) + (if share > 0 then (share + batch - 1) / batch else 0)
  }

  function TasksPerBroadcastIteration(fanout: nat, threads: nat, batch: nat): nat
    requires threads > 0 && batch > 0
  {
    TasksOfOwners(threads, fanout, threads, batch)
  }

  /** Deal the endpoints to the owners one by one and cut every share into batches. */
  function ChunksOfOwners(n: nat, fanout: nat, threads: nat, batch: nat): nat
    requires threads > 0 && batch > 0
  {
    if n == 0 then 0
    else ChunksOfOwners(n - 1, fanout, threads, batch) + BatchesFor(Share(n - 1, threads, fanout), batch)
  }

  lemma {:induction false} ClosedFormSoFar(n: nat, fanout: nat, threads: nat, batch: nat)
    requires batch > 0 && 0 < threads && n <= threads
    ensures TasksOfOwners(n, fanout, threads, batch) == ChunksOfOwners(n, fanout, threads, batch)
  {
    if n > 0 {
      ClosedFormSoFar(n - 1, fanout, threads, batch);
      ShareIsEvenSplit(n - 1, threads, fanout);
      BatchesIsCeiling(Share(n - 1, threads, fanout), batch);
    }
  }

  function NonEmptyOwners(n: nat, fanout: nat): nat { if n < fanout then n else fanout }

  lemma {:induction false} BoundsSoFar(n: nat, fanout: nat, threads: nat, batch: nat)
    requires batch > 0 && 0 < threads && n <= threads
    ensures var chunks := ChunksOfOwners(n, fanout, threads, batch) * batch;
      DealtTo(n, threads, fanout) <= chunks <= DealtTo(n, threads, fanout) + NonEmptyOwners(n, fanout) * (batch - 1)
  {
    if n > 0 {
      BoundsSoFar(n - 1, fanout, threads, batch);
      var share := Share(n - 1, threads, fanout);
      OwnerIsServed(n - 1, threads, fanout);
      BatchesIsCeiling(share, batch);
      CeilBounds(share, batch);
      Distribute(ChunksOfOwners(n - 1, fanout, threads, batch), BatchesFor(share, batch), batch);
      Distribute(NonEmptyOwners(n - 1, fanout), NonEmptyOwners(n, fanout) - NonEmptyOwners(n - 1, fanout), batch - 1);
    }
  }

  lemma Distribute(a: nat, b: nat, c: nat)
    ensures (a + b) * c == a * c + b * c
  {
  }

  lemma OwnerIsServed(w: nat, threads: nat, fanout: nat)
    requires w < threads
    ensures Share(w, threads, fanout) > 0 <==> w < fanout
  {
    ShareIndices(w, threads, fanout, 0);
  }

  /** The closed form counts exactly the chunks of an even deal, and lies between the fewest batches
      the fanout needs and one partial batch per owner that holds an endpoint. */
  lemma TaskCountIsExact(fanout: nat, threads: nat, batch: nat)
    requires threads > 0 && batch > 0
    ensures var tasks := TasksPerBroadcastIteration(fanout, threads, batch);
      && tasks == ChunksOfOwners(threads, fanout, threads, batch)
      && CeilDiv(fanout, batch) <= tasks
      && tasks <= (fanout + NonEmptyOwners(threads, fanout) * (batch - 1)) / batch
  {
    var tasks := TasksPerBroadcastIteration(fanout, threads, batch);
    ClosedFormSoFar(threads, fanout, threads, batch);
    BoundsSoFar(threads, fanout, threads, batch);
    SharesCoverAll(threads, fanout);
    CeilIsLeast(fanout, batch, tasks);
    FloorIsGreatest(fanout + NonEmptyOwners(threads, fanout) * (batch - 1), batch, tasks);
  }
}
