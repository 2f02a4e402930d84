/** CompletionSwitch: tasks that wait for a main task to complete. A task
    handed over before completion is queued; once the switch completes the
    queue is run in order and emptied; after cancellation tasks are
    dropped.

    Running a task is a call into code outside this model; it is recorded
    by appending the task to `ran`, the log of the tasks run so far. */
module CompletionSwitches {

  /** A Runnable, known by an identity. */
  datatype Runnable = Runnable(id: nat)

  class CompletionSwitch {
    var isCancelled: bool
    var isComplete: bool
    var runOnComplete: seq<Runnable>
    var ran: seq<Runnable>

    /** Once the switch is complete or cancelled nothing waits in the
        queue. */
    predicate Valid()
      reads this
    {
      (isCancelled || isComplete) ==> runOnComplete == []
    }

    constructor ()
      ensures Valid()
      ensures !isCancelled && !isComplete && runOnComplete == [] && ran == []
    {
      isCancelled := false;
      isComplete := false;
      runOnComplete := [];
      ran := [];
    }

    /** runOnComplete(task): dropped when cancelled, queued while the main
        task is incomplete, run at once when it is complete. */
    method RunOnComplete(task: Runnable)
      requires Valid()
      modifies this
      ensures Valid()
      ensures isCancelled == old(isCancelled) && isComplete == old(isComplete)
      ensures old(isCancelled) ==> runOnComplete == old(runOnComplete) && ran == old(ran)
      ensures !old(isCancelled) && !old(isComplete) ==>
        runOnComplete == old(runOnComplete) + [task] && ran == old(ran)
      ensures !old(isCancelled) && old(isComplete) ==>
        runOnComplete == old(runOnComplete) && ran == old(ran) + [task]
    {
      if isCancelled {
        return;
      }
      if !isComplete {
        runOnComplete := runOnComplete + [task];
      } else {
        ran := ran + [task];
      }
    }

    /** setComplete(b): records the flag, and on true runs the queue. */
    method SetComplete(b: bool)
      requires Valid()
      modifies this
      ensures Valid()
      ensures isComplete == b && isCancelled == old(isCancelled)
      ensures b ==> runOnComplete == [] && ran == old(ran) + old(runOnComplete)
      ensures !b ==> runOnComplete == old(runOnComplete) && ran == old(ran)
    {
      isComplete := b;
      if b {
        PingComplete();
      }
    }

    /** pingComplete(): runs the queued tasks from the front, removing each
        one after it has run. */
    method PingComplete()
      modifies this
      ensures runOnComplete == [] && ran == old(ran) + old(runOnComplete)
      ensures isComplete == old(isComplete) && isCancelled == old(isCancelled)
    {
      while runOnComplete != []
        invariant ran + runOnComplete == old(ran) + old(runOnComplete)
        invariant isComplete == old(isComplete) && isCancelled == old(isCancelled)
        decreases |runOnComplete|
      {
        ran := ran + [runOnComplete[0]];
        runOnComplete := runOnComplete[1..];
      }
    }

    /** setCancelled(b): records the flag, and on true clears the queue
        without running it. */
    method SetCancelled(b: bool)
      requires Valid()
      modifies this
      ensures Valid()
      ensures isCancelled == b && isComplete == old(isComplete) && ran == old(ran)
      ensures b ==> runOnComplete == []
      ensures !b ==> runOnComplete == old(runOnComplete)
    {
      isCancelled := b;
      if b {
        runOnComplete := [];
      }
    }
  }

  /** The tasks of a sequence of submissions, in order, that a switch left
      incomplete and not cancelled queues; completing it afterwards runs
      them all in that order. */
  method QueueThenComplete(tasks: seq<Runnable>) returns (ran: seq<Runnable>)
    ensures ran == tasks
  {
    var sw := new CompletionSwitch();
    for i := 0 to |tasks|
      invariant sw.Valid() && !sw.isCancelled && !sw.isComplete
      invariant sw.runOnComplete == tasks[..i] && sw.ran == []
    {
      sw.RunOnComplete(tasks[i]);
      assert tasks[..i + 1] == tasks[..i] + [tasks[i]];
    }
    sw.SetComplete(true);
    assert tasks[..|tasks|] == tasks;
    ran := sw.ran;
  }

  /** Tasks queued before a cancellation and tasks handed over after it
      never run, even when the switch later completes. */
  method CancelledNeverRuns(before: seq<Runnable>, after: seq<Runnable>) returns (ran: seq<Runnable>)
    ensures ran == []
  {
    var sw := new CompletionSwitch();
    for i := 0 to |before|
      invariant sw.Valid() && !sw.isCancelled && !sw.isComplete && sw.ran == []
    {
      sw.RunOnComplete(before[i]);
    }
    sw.SetCancelled(true);
    for i := 0 to |after|
      invariant sw.Valid() && sw.isCancelled && !sw.isComplete
      invariant sw.runOnComplete == [] && sw.ran == []
    {
      sw.RunOnComplete(after[i]);
    }
    sw.SetComplete(true);
    ran := sw.ran;
  }
}
