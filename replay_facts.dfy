/** Properties of the rebuild loop: where it stops, and how it extends by one event. */
module ReplayFacts {
  import opened Wrappers
  import opened Events
  import opened Projection

  /** Once an event of a prefix has raised, no later event is projected: the replay stops there. */
  lemma {:induction false} ReplayStopsAtError(t: Tables, log: seq<Event>, n: nat)
    requires n <= |log|
    requires Replay(t, log[..n]).error.Some?
    ensures Replay(t, log) == Replay(t, log[..n])
    decreases |log| - n
  {
    if n == |log| {
      assert log[..n] == log;
    } else {
      var init := log[..|log| - 1];
      assert init[..n] == log[..n];
      ReplayStopsAtError(t, init, n);
    }
  }

  /** Replaying one more event after a clean prefix projects exactly that event. */
  lemma ReplayStep(t: Tables, log: seq<Event>, n: nat)
    requires n < |log|
    requires Replay(t, log[..n]).error == None
    ensures Replay(t, log[..n + 1]) ==
      match Project(Replay(t, log[..n]).tables, log[n])
      case Success(t1) => Replayed(t1, n + 1, None)
      case Failure(err) => Replayed(Replay(t, log[..n]).tables, n, Some(err))
  {
    assert log[..n + 1][..n] == log[..n];
  }

  /**
   * The loop step of the rebuild: after a clean prefix that reached `before`, the outcome of
   * projecting the next event either extends the prefix by one or is the outcome of the
   * whole replay.
   */
  lemma ReplayExtends(t: Tables, log: seq<Event>, n: nat, before: Tables, outcome: Result<Tables, Error>)
    requires n < |log|
    requires Replay(t, log[..n]) == Replayed(before, n, None)
    requires outcome == Project(before, log[n])
    ensures outcome.Success? ==> Replay(t, log[..n + 1]) == Replayed(outcome.value, n + 1, None)
    ensures outcome.Failure? ==> Replay(t, log) == Replayed(before, n, Some(outcome.error))
  {
    ReplayStep(t, log, n);
    if outcome.Failure? {
      ReplayStopsAtError(t, log, n + 1);
    }
  }
}
