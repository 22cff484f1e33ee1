/** ThreadPool (fr.jazer.thread_manager.ThreadPool): an unbounded list of slaves,
    each a worker thread holding at most one task. The threads themselves are not
    modelled: a slave is its name, its live time and its task slot. The static pool
    counter shared by all pools is the `PoolCounter` object the constructors take. */
module ThreadPools {
  import opened Common

  const DefaultLiveTime: int := 20000

  /** The static `currentPool` counter of the class. */
  class PoolCounter {
    var currentPool: int32

    constructor ()
      ensures currentPool == 0
    {
      currentPool := 0;
    }
  }

  class Slave {
    const name: string
    const liveTime: int
    var alwaysServing: bool
    var task: Option<Runnable>

    /** A serving slave without task, whose worker thread carries `name`. */
    constructor (name: string, liveTime: int)
      ensures this.name == name && this.liveTime == liveTime
      ensures alwaysServing && task == None
    {
      this.name := name;
      this.liveTime := liveTime;
      alwaysServing := true;
      task := None;
    }

    /** Takes `t` only when free: a task already held is never overwritten. */
    method WorkOn(t: Runnable)
      modifies this`task
      ensures old(task).None? ==> task == Some(t)
      ensures old(task).Some? ==> task == old(task)
    {
      if task.Some? {
        return;
      }
      task := Some(t);
    }

    predicate IsFree()
      reads this
      ensures IsFree() <==> task.None?
    {
      task.None?
    }

    predicate IsWorking()
      reads this
      ensures IsWorking() <==> !IsFree()
    {
      task.Some?
    }
  }

  class ThreadPool {
    var slaves: seq<Slave>
    const poolNb: int32
    const liveTime: int

    /** A slave occurs at most once in the list. */
    ghost predicate Valid()
      reads this
    {
      Distinct(slaves)
    }

    /** The task slot of each slave, in list order. */
    ghost function Tasks(): (ts: seq<Option<Runnable>>)
      reads this, slaves
      ensures |ts| == |slaves|
      ensures forall k :: 0 <= k < |slaves| ==> ts[k] == slaves[k].task
    {
      seq(|slaves|, k requires 0 <= k < |slaves| reads this, slaves => slaves[k].task)
    }

    /** An empty pool numbered by the counter, which then moves on by one. */
    constructor (counter: PoolCounter, liveTime: int)
      modifies counter
      ensures Valid() && slaves == [] && this.liveTime == liveTime
      ensures poolNb == old(counter.currentPool)
      ensures counter.currentPool == Int32Increment(old(counter.currentPool))
    {
      slaves := [];
      this.liveTime := liveTime;
      poolNb := counter.currentPool;
      new;
      counter.currentPool := Int32Increment(counter.currentPool);
    }

    /** The pool with the default live time of 20000 ms. */
    constructor WithDefaultLiveTime(counter: PoolCounter)
      modifies counter
      ensures Valid() && slaves == [] && liveTime == DefaultLiveTime
      ensures poolNb == old(counter.currentPool)
      ensures counter.currentPool == Int32Increment(old(counter.currentPool))
    {
      slaves := [];
      liveTime := DefaultLiveTime;
      poolNb := counter.currentPool;
      new;
      counter.currentPool := Int32Increment(counter.currentPool);
    }

    /** Hands `r` to the first free slave in list order, the list unchanged; when
        every slave is working, appends one new slave named "Slave <old size>"
        and hands it `r`. Returns the slave that took the task. */
    method Exe(r: Runnable) returns (chosen: Slave)
      requires Valid()
      modifies this`slaves, slaves`task
      ensures Valid()
      ensures old(FirstNone(Tasks())).Some? ==>
                var i := old(FirstNone(Tasks())).value;
                slaves == old(slaves) && chosen == slaves[i] &&
                Tasks() == old(Tasks())[i := Some(r)]
      ensures old(FirstNone(Tasks())).None? ==>
                slaves == old(slaves) + [chosen] && fresh(chosen) &&
                chosen.name == "Slave " + NatToString(|old(slaves)|) &&
                chosen.liveTime == liveTime && chosen.alwaysServing &&
                Tasks() == old(Tasks()) + [Some(r)]
    {
      var i := 0;
      while i < |slaves|
        invariant 0 <= i <= |slaves|
        invariant forall k :: 0 <= k < i ==> slaves[k].task.Some?
      {
        if slaves[i].IsFree() {
          chosen := slaves[i];
          chosen.WorkOn(r);
          return;
        }
        i := i + 1;
      }
      chosen := new Slave("Slave " + NatToString(|slaves|), liveTime);
      slaves := slaves + [chosen];
      chosen.WorkOn(r);
    }

    /** A slave's request to be released: refused while it holds a task; otherwise
        its first occurrence is removed from the list (if it is there at all) and
        the answer is yes. */
    method FreeSlave(slave: Slave) returns (removed: bool)
      requires Valid()
      modifies this`slaves
      ensures Valid()
      ensures slave.task.Some? ==> !removed && slaves == old(slaves)
      ensures slave.task.None? ==> removed && slaves == RemoveFirst(old(slaves), slave)
    {
      if slave.task.Some? {
        return false;
      }
      RemoveFirstDistinct(slaves, slave);
      slaves := RemoveFirst(slaves, slave);
      return true;
    }
  }
}
