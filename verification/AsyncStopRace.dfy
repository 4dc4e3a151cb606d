// The false alarm `StopVerdictExact` leaves room for does occur: a barrier loads `flushed`
// and `stopped` one after the other, so a shutdown in between is reported as having come
// first.

module AsyncStopRace {
  import opened Basics
  import opened Facade
  import opened AsyncShared
  import opened AsyncProtocol
  import opened AsyncTheorems
  import opened AsyncStopVerdict
  import opened AsyncStopRun

  ghost predicate StoppedThoughFlushed(s: State, id: nat) {
    && id in s.barriers && SaysStopped(s.barriers[id])
    && 0 < s.barriers[id].target <= s.sh.flushed
    && NoFailure(s.hist, s.barriers[id].target) && SuccessfulFlushAfter(s.hist, s.barriers[id].target)
  }

  ghost predicate Reaches(s: State, capacity: nat, overflow: OverflowPolicy) {
    exists acts: seq<Action> :: Reachable(s, capacity, overflow, acts)
  }

  // Being reachable is handed on by every step.
  lemma ReachingIsClosed(capacity: nat, overflow: OverflowPolicy) returns (reach: State -> bool)
    ensures StepClosed(reach) && reach(Init(capacity, overflow))
    ensures forall s | reach(s) :: Reaches(s, capacity, overflow)
  {
    reach := s => Reaches(s, capacity, overflow);
    assert Reachable(Init(capacity, overflow), capacity, overflow, []);
    forall s, a | reach(s) && Step(s, a).Some? ensures reach(Step(s, a).value) {
      var acts: seq<Action> :| Reachable(s, capacity, overflow, acts);
      assert (acts + [a])[..|acts|] == acts;
      assert Reachable(Step(s, a).value, capacity, overflow, acts + [a]);
    }
  }

  // For every record and waker there is a run in which the barrier reports that the
  // worker stopped first, although its record was written and flushed without error.
  lemma StopCanHideASuccess(overflow: OverflowPolicy, event: OwnedEvent, id: nat, waker: nat)
    ensures exists s: State :: Reaches(s, 1, overflow) && StoppedThoughFlushed(s, id)
  {
    var reach := ReachingIsClosed(1, overflow);
    var s := StoppedBehindThePoll(reach, overflow, event, id, waker);
    s := Take(reach, s, BarrierStep(id));
    assert WritesPrecede(s.hist, 1, 1);
    assert StoppedThoughFlushed(s, id);
  }
}
