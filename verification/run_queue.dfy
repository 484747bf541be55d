/** A worker's run queue: FIFO for its owner, "take the oldest half" for thieves. */
module RunQueues {
  import opened Basics

  /** How many tasks a thief takes from a queue of the given length. */
  function StealCount(len: nat): (n: nat)
    ensures n <= len
  {
    if len <= 1 then 0 else len / 2
  }

  function Stolen<T>(q: seq<T>): seq<T> {
    q[..StealCount(|q|)]
  }

  function Kept<T>(q: seq<T>): seq<T> {
    q[StealCount(|q|)..]
  }

  /** Stealing splits the queue, never takes the larger part, and never empties
      its victim; it takes nothing only from a queue of at most one task. */
  lemma StealSplits<T>(q: seq<T>)
    ensures Stolen(q) + Kept(q) == q
    ensures |Stolen(q)| <= |Kept(q)| <= |Stolen(q)| + 1
    ensures q != [] ==> Kept(q) != []
    ensures Stolen(q) == [] <==> |q| <= 1
    ensures Stolen(q) == [] <==> Kept(q) == q
  {
    assert |Stolen(q)| == StealCount(|q|);
    if |q| > 1 {
      assert |q| / 2 >= 1;
    }
  }

  class RunQueue<T> {
    var queue: seq<T>

    constructor ()
      ensures queue == []
    {
      queue := [];
    }

    method Push(task: T)
      modifies this
      ensures queue == old(queue) + [task]
    {
      queue := queue + [task];
    }

    method Pop() returns (task: Option<T>)
      modifies this
      ensures old(queue) == [] ==> task == None && queue == []
      ensures old(queue) != [] ==> task.Some? && [task.value] + queue == old(queue)
    {
      if queue == [] {
        task := None;
      } else {
        task := Some(queue[0]);
        queue := queue[1..];
      }
    }

    method StealHalf() returns (stolen: seq<T>)
      modifies this
      ensures stolen == Stolen(old(queue)) && queue == Kept(old(queue))
      ensures stolen + queue == old(queue)
    {
      StealSplits(queue);
      var len := |queue|;
      if len <= 1 {
        return [];
      }
      var stealCount := len / 2;
      stolen := queue[..stealCount];
      queue := queue[stealCount..];
    }
  }
}
