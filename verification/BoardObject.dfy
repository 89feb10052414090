/** The shared object itself. Each method is one locked section of tools/check-guards-fire.py's
    `Board`, proved to do what `Boards` says of its value. */
module BoardObject {
  import opened Prelude
  import opened Boards

  class Board {
    var queues: seq<seq<Task>>
    const steal: bool
    var restores: Option<seq<seq<Build>>>
    var running: map<Build, int>
    var done: map<Key, seq<Value>>
    var error: bool
    // How many workers haven't left.
    var left: int

    function State(): State
      reads this
    {
      Boards.State(queues, steal, restores, running, done, error, left)
    }

    constructor (queues: seq<seq<Task>>, steal: bool, restores: Option<seq<seq<Build>>>)
      ensures State() == Boards.State(queues, steal, restores, map[], map[], false, |queues|)
    {
      this.queues, this.steal, this.restores := queues, steal, restores;
      running, done, error, left := map[], map[], false, |queues|;
    }

    method AnyQueued(build: Build) returns (found: bool)
      ensures found <==> Queued(queues, build)
    {
      for i := 0 to |queues|
        invariant forall k :: 0 <= k < i ==> !QueuedIn(queues[k], build)
      {
        for j := 0 to |queues[i]|
          invariant forall k :: 0 <= k < j ==> queues[i][k].build != Some(build)
        {
          if queues[i][j].build == Some(build) {
            assert QueuedIn(queues[i], build);
            return true;
          }
        }
      }
      return false;
    }

    /** The first build the worker owes that no task of any queue seeds and none runs on. */
    method Ready(number: nat) returns (build: Option<Build>)
      requires Workers(State(), |queues|) && number < |queues|
      ensures build == FirstSettled(State(), Owed(State(), number))
    {
      var owed := Owed(State(), number);
      for i := 0 to |owed|
        invariant FirstSettled(State(), owed) == FirstSettled(State(), owed[i..])
      {
        var queued := AnyQueued(owed[i]);
        if !queued && Count(running, owed[i]) == 0 {
          return Some(owed[i]);
        }
        assert owed[i..][1..] == owed[i + 1..];
      }
      return None;
    }

    method Pop(number: nat) returns (task: Option<Task>)
      requires number < |queues|
      modifies this`queues
      ensures match PopSlot(old(State()), number)
              case None => task == None && queues == old(queues)
              case Some(Slot(v, at)) =>
                && task == Some(old(queues)[v][at])
                && queues == old(queues)[v := Without(old(queues)[v], at)]
    {
      if queues[number] != [] {
        task := Some(queues[number][0]);
        queues := queues[number := queues[number][1..]];
        assert queues[number] == Without(old(queues)[number], 0);
        return;
      }
      if !steal {
        return None;
      }
      VictimsInRange(queues);
      var slot := FindVictim(queues, Victims(queues));
      if slot.None? {
        return None;
      }
      var Slot(v, at) := slot.value;
      task := Some(queues[v][at]);
      queues := queues[v := Without(queues[v], at)];
    }

    /** The first queue in `order` with a task that isn't pinned, scanned from its back. */
    static method FindVictim(queues: seq<seq<Task>>, order: seq<nat>) returns (slot: Option<Slot>)
      requires forall i :: 0 <= i < |order| ==> order[i] < |queues|
      ensures slot == Steal(queues, order)
    {
      for k := 0 to |order|
        invariant Steal(queues, order) == Steal(queues, order[k..])
      {
        var queue := queues[order[k]];
        var index: nat := |queue|;
        while index > 0
          invariant index <= |queue|
          invariant LastFree(queue) == LastFree(queue[..index])
        {
          index := index - 1;
          if !queue[index].pinned {
            return Some(Slot(order[k], index));
          }
          assert queue[..index + 1][..index] == queue[..index];
        }
        assert order[k..][1..] == order[k + 1..];
      }
      return None;
    }

    /** One decision: a restored run that is due comes before any task, and waiting before leaving. */
    method NextTask(number: nat) returns (answer: Answer)
      requires Workers(State(), |queues|) && number < |queues|
      modifies this`queues, this`running, this`restores
      ensures answer == Next(old(State()), number)
      ensures State() == AfterNext(old(State()), number)
    {
      var build := Ready(number);
      if build.Some? {
        restores := Some(restores.value[number := WithoutValue(restores.value[number], build.value)]);
        return Take(Task(Restore(build.value), true, None));
      }
      var task := Pop(number);
      if task.Some? {
        if task.value.build.Some? {
          Claim(number, task.value.build.value);
        }
        return Take(task.value);
      }
      var owed := restores.Some? && restores.value[number] != [];
      return if owed || exists b :: b in running && running[b] != 0 then Wait else Nothing;
    }

    /** Count the build as running, and have the worker owe it a restored run. */
    method Claim(number: nat, build: Build)
      requires Workers(State(), |queues|) && number < |queues|
      modifies this`running, this`restores
      ensures running == old(running)[build := Count(old(running), build) + 1]
      ensures restores == match old(restores)
                          case None => None
                          case Some(owed) => Some(owed[number := SetDefault(owed[number], build)])
    {
      running := running[build := Count(running, build) + 1];
      if restores.Some? {
        restores := Some(restores.value[number := SetDefault(restores.value[number], build)]);
      }
    }

    /** One pass of `take`'s loop: a run that is ending gives out nothing more. */
    method Attempt(number: nat) returns (answer: Answer)
      requires Workers(State(), |queues|) && number < |queues|
      modifies this`queues, this`running, this`restores
      ensures answer == if old(error) then Nothing else Next(old(State()), number)
      ensures State() == if old(error) then old(State()) else AfterNext(old(State()), number)
    {
      if error {
        return Nothing;
      }
      answer := NextTask(number);
    }

    /** A task ends in one step: its results, then its fallbacks ahead of the worker's other tasks,
        then its build's count. */
    method Finish(number: nat, task: Task, entries: seq<Entry>, follow: seq<Task>)
      requires number < |queues|
      modifies this`done, this`queues, this`running
      ensures State() == AfterFinish(old(State()), number, task, entries, follow)
      ensures Filed(old(done), entries, done)
      ensures queues == old(queues)[number := follow + old(queues)[number]]
      ensures task.build.Some? ==> (forall b :: Count(running, b) ==
                                                Count(old(running), b) - if b == task.build.value then 1 else 0)
      ensures task.build.None? ==> running == old(running)
    {
      for i := 0 to |entries|
        invariant queues == old(queues) && running == old(running)
        invariant Put(done, entries[i..]) == Put(old(done), entries)
      {
        done := done[entries[i].key := Results(done, entries[i].key) + [entries[i].value]];
        assert entries[i..][1..] == entries[i + 1..];
      }
      queues := queues[number := follow + queues[number]];
      if task.build.Some? {
        running := running[task.build.value := Count(running, task.build.value) - 1];
      }
      PutFiled(old(done), entries);
    }

    method Fail()
      modifies this`error
      ensures error
    {
      error := true;
    }

    method Leave()
      modifies this`left
      ensures left == old(left) - 1
    {
      left := left - 1;
    }

    /** One pass of `get`: the results, that the main thread waits, or that it raises, which it
        does for an error and for a count no worker is left to reach. */
    method Get(key: Key, count: nat) returns (got: Option<Result<seq<Value>, bool>>)
      ensures got == if |Results(done, key)| >= count then Some(Ok(Results(done, key)))
                     else if error then Some(Err(true))
                     else if left == 0 then Some(Err(false))
                     else None
    {
      if |Results(done, key)| < count {
        if error {
          return Some(Err(true));
        }
        return if left == 0 then Some(Err(false)) else None;
      }
      return Some(Ok(Results(done, key)));
    }
  }
}
