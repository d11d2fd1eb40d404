/** A batch dealt with in order while there is room for more work: the moments between its steps. */
module BatchRuns {

  function Last<M>(run: seq<M>): M
    requires run != []
  {
    run[|run| - 1]
  }

  ghost predicate StepAt<U, M>(batch: seq<U>, run: seq<M>, j: int, step: (U, M, M) -> bool)
    requires 0 <= j < |batch| && j + 1 < |run|
  {
    step(batch[j], run[j], run[j + 1])
  }

  /**
   The first k entries of a batch: a step was made for each entry, in order, for as long as there was room,
   and for none after that.
   */
  ghost predicate IsRun<U, M>(batch: seq<U>, k: nat, room: M -> bool, step: (U, M, M) -> bool, run: seq<M>)
    requires k <= |batch|
  {
    && 0 < |run| <= k + 1
    && (forall j :: 0 <= j < |run| - 1 ==> room(run[j]))
    && (forall j :: 0 <= j < |run| - 1 ==> StepAt(batch, run, j, step))
    && (|run| <= k ==> !room(Last(run)))
  }

  ghost predicate IsRunTo<U, M>(batch: seq<U>, k: nat, room: M -> bool, step: (U, M, M) -> bool, first: M, now: M, done: nat,
                                run: seq<M>)
    requires k <= |batch|
  {
    IsRun(batch, k, room, step, run) && run[0] == first && Last(run) == now && |run| == done + 1
  }

  /** A run of the first k entries leads from `first` to `now` in so many steps. */
  ghost predicate Midway<U(!new), M(!new)>(batch: seq<U>, k: nat, room: M -> bool, step: (U, M, M) -> bool,
                                           first: M, now: M, done: nat)
    requires k <= |batch|
  {
    exists run: seq<M> :: IsRunTo(batch, k, room, step, first, now, done, run)
  }

  lemma MidwayFirst<U(!new), M(!new)>(batch: seq<U>, room: M -> bool, step: (U, M, M) -> bool, first: M)
    ensures Midway(batch, 0, room, step, first, first, 0)
  {
    assert IsRunTo(batch, 0, room, step, first, first, 0, [first]);
  }

  lemma MidwayNext<U(!new), M(!new)>(batch: seq<U>, k: nat, room: M -> bool, step: (U, M, M) -> bool,
                                     first: M, now: M, done: nat, next: M)
    requires k < |batch| && Midway(batch, k, room, step, first, now, done)
    requires if room(now) then step(batch[k], now, next) else next == now
    ensures room(now) ==> done == k
    ensures done <= k
    ensures Midway(batch, k + 1, room, step, first, next, if room(now) then k + 1 else done)
  {
    var run :| IsRunTo(batch, k, room, step, first, now, done, run);
    if room(now) {
      forall j | 0 <= j < |run|
        ensures StepAt(batch, run + [next], j, step)
      {
        assert j < |run| - 1 ==> StepAt(batch, run, j, step);
      }
      assert IsRunTo(batch, k + 1, room, step, first, next, k + 1, run + [next]);
    } else {
      assert IsRunTo(batch, k + 1, room, step, first, next, done, run);
    }
  }

  /** What every step keeps holds at the end. */
  lemma {:induction false} KeptOverRun<U(!new), M(!new)>(batch: seq<U>, room: M -> bool, step: (U, M, M) -> bool, run: seq<M>,
                                                         kept: M -> bool, k: nat)
    requires IsRun(batch, |batch|, room, step, run) && kept(run[0]) && k < |run|
    requires forall u, m, n :: u in batch && step(u, m, n) && kept(m) ==> kept(n)
    ensures kept(run[k])
  {
    if k > 0 {
      KeptOverRun(batch, room, step, run, kept, k - 1);
      assert StepAt(batch, run, k - 1, step);
    }
  }
}
