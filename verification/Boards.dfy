/** `Board`, the guard runner's work-stealing scheduler (tools/check-guards-fire.py): what each
    locked method answers, and the whole board after it, as values. */
module Boards {
  import opened Prelude
  import opened Sorting

  // Builds and commands are compared for equality and nothing else.
  type Build = nat
  type Command = nat

  /** What a task or a result is filed under. */
  datatype Key =
    | Fault(index: nat)
    | LintBatch(command: Command)
    | ScriptBatch(command: Command, group: nat)
    | Restore(build: Build)
    | Run(command: Command)

  datatype Task = Task(key: Key, pinned: bool, build: Option<Build>)

  datatype Value =
    | Verdict(failed: bool)
    | Report(ran: bool, proven: seq<nat>, alone: seq<nat>)
    | Ran(code: int, worker: nat)

  datatype Entry = Entry(key: Key, value: Value)

  datatype State = State(
    queues: seq<seq<Task>>,
    steal: bool,
    restores: Option<seq<seq<Build>>>,
    running: map<Build, int>,
    done: map<Key, seq<Value>>,
    error: bool,
    left: int)

  /** What `next` answers a worker. */
  datatype Answer = Take(task: Task) | Wait | Nothing

  ghost predicate Workers(s: State, n: nat) {
    |s.queues| == n && (s.restores.Some? ==> |s.restores.value| == n)
  }

  // ── ready ──────────────────────────────────────────────────────────────────

  predicate QueuedIn(queue: seq<Task>, build: Build) {
    exists j :: 0 <= j < |queue| && queue[j].build == Some(build)
  }

  predicate Queued(queues: seq<seq<Task>>, build: Build) {
    exists i :: 0 <= i < |queues| && QueuedIn(queues[i], build)
  }

  function Count(running: map<Build, int>, build: Build): int {
    if build in running then running[build] else 0
  }

  /** No fault in `build` can start any more: no queue holds a task of it, and none is counted. */
  predicate Settled(s: State, build: Build) {
    !Queued(s.queues, build) && Count(s.running, build) == 0
  }

  function Owed(s: State, w: nat): seq<Build>
    requires s.restores.Some? ==> w < |s.restores.value|
  {
    if s.restores.Some? then s.restores.value[w] else []
  }

  /** At this place, and at none before it, stands a settled build. */
  predicate FirstSettledAt(s: State, owed: seq<Build>, k: nat) {
    k < |owed| && Settled(s, owed[k]) && forall j :: 0 <= j < k ==> !Settled(s, owed[j])
  }

  /** The first build of `owed` that is settled. */
  function FirstSettled(s: State, owed: seq<Build>): (r: Option<Build>)
    ensures r.Some? ==> r.value in owed && Settled(s, r.value)
    ensures r.None? ==> forall b :: b in owed ==> !Settled(s, b)
  {
    if owed == [] then None
    else if Settled(s, owed[0]) then Some(owed[0])
    else FirstSettled(s, owed[1..])
  }

  lemma {:induction false} FirstSettledIsFirst(s: State, owed: seq<Build>) returns (k: nat)
    requires FirstSettled(s, owed).Some?
    ensures FirstSettledAt(s, owed, k) && owed[k] == FirstSettled(s, owed).value
  {
    k := 0;
    if !Settled(s, owed[0]) {
      k := FirstSettledIsFirst(s, owed[1..]);
      assert forall j :: 0 < j <= k + 1 ==> owed[j] == owed[1..][j - 1];
      k := k + 1;
    }
  }

  // ── pop ────────────────────────────────────────────────────────────────────

  /** The last task of `queue` that isn't pinned, or none. */
  function LastFree(queue: seq<Task>): (r: Option<nat>)
    ensures r.Some? ==> r.value < |queue| && !queue[r.value].pinned
    ensures forall j :: (if r.Some? then r.value < j else 0 <= j) && j < |queue| ==> queue[j].pinned
  {
    if queue == [] then None
    else if !queue[|queue| - 1].pinned then Some(|queue| - 1)
    else LastFree(queue[..|queue| - 1])
  }

  /** Longest queue first; of two as long, the lower worker's (a stable sort, reversed). */
  predicate LongerFirst(queues: seq<seq<Task>>, a: nat, b: nat) {
    var (m, n) := (Length(queues, a), Length(queues, b));
    m > n || (m == n && a <= b)
  }

  function Length(queues: seq<seq<Task>>, v: nat): nat {
    if v < |queues| then |queues[v]| else 0
  }

  /** The workers in the order a thief looks at their queues. */
  function Victims(queues: seq<seq<Task>>): (r: seq<nat>)
    ensures multiset(r) == multiset(Range(|queues|))
    ensures forall i, j :: 0 <= i < j < |r| ==> LongerFirst(queues, r[i], r[j])
  {
    SortBy((a: nat, b: nat) => LongerFirst(queues, a, b), Range(|queues|))
  }

  /** A worker and a place in its queue. */
  datatype Slot = Slot(worker: nat, at: nat)

  /** The first queue in `order` that has a free task, and its last free task. */
  function Steal(queues: seq<seq<Task>>, order: seq<nat>): (r: Option<Slot>)
    requires forall i :: 0 <= i < |order| ==> order[i] < |queues|
    ensures r.Some? ==> r.value.worker in order && LastFree(queues[r.value.worker]) == Some(r.value.at)
    ensures r.None? ==> forall v :: v in order ==> LastFree(queues[v]).None?
  {
    if order == [] then None
    else match LastFree(queues[order[0]])
      case Some(at) => Some(Slot(order[0], at))
      case None => Steal(queues, order[1..])
  }

  /** Where `pop` takes from: the front of the worker's own queue, or a stolen place. */
  function PopSlot(s: State, w: nat): (r: Option<Slot>)
    requires w < |s.queues|
    ensures r.Some? ==> r.value.worker < |s.queues| && r.value.at < |s.queues[r.value.worker]|
  {
    if s.queues[w] != [] then Some(Slot(w, 0))
    else if !s.steal then None
    else
      VictimsInRange(s.queues);
      Steal(s.queues, Victims(s.queues))
  }

  lemma VictimsInRange(queues: seq<seq<Task>>)
    ensures forall i :: 0 <= i < |Victims(queues)| ==> Victims(queues)[i] < |queues|
    ensures forall v :: 0 <= v < |queues| ==> v in Victims(queues)
  {
    var r := Victims(queues);
    forall i | 0 <= i < |r| ensures r[i] < |queues| {
      assert r[i] in multiset(r);
      assert r[i] in multiset(Range(|queues|));
    }
    forall v | 0 <= v < |queues| ensures v in r {
      assert Range(|queues|)[v] == v;
      assert v in multiset(Range(|queues|));
      assert v in multiset(r);
    }
  }

  /** A worker with a queue of its own takes its front. One without takes, when it may steal,
      the last free task of the longest queue that has one, and it finds nothing only when
      every task anywhere is pinned. */
  lemma PopChoosesWell(s: State, w: nat)
    requires w < |s.queues|
    ensures s.queues[w] != [] ==> PopSlot(s, w) == Some(Slot(w, 0))
    ensures s.queues[w] == [] && !s.steal ==> PopSlot(s, w) == None
    ensures s.queues[w] == [] && s.steal ==>
              match PopSlot(s, w)
              case None => forall v, j :: 0 <= v < |s.queues| && 0 <= j < |s.queues[v]| ==> s.queues[v][j].pinned
              case Some(Slot(v, i)) =>
                && v != w && !s.queues[v][i].pinned
                && (forall j :: i < j < |s.queues[v]| ==> s.queues[v][j].pinned)
                && forall u, j :: 0 <= u < |s.queues| && 0 <= j < |s.queues[u]| && !s.queues[u][j].pinned ==>
                                    |s.queues[v]| > |s.queues[u]| || (|s.queues[v]| == |s.queues[u]| && v <= u)
  {
    if s.queues[w] == [] && s.steal {
      var order := Victims(s.queues);
      VictimsInRange(s.queues);
      match PopSlot(s, w)
      case None =>
        forall v, j | 0 <= v < |s.queues| && 0 <= j < |s.queues[v]|
          ensures s.queues[v][j].pinned
        {
          assert LastFree(s.queues[v]).None?;
        }
      case Some(Slot(v, i)) =>
        forall u, j | 0 <= u < |s.queues| && 0 <= j < |s.queues[u]| && !s.queues[u][j].pinned
          ensures LongerFirst(s.queues, v, u)
        {
          StealPrefersEarlier(s.queues, order, u);
        }
    }
  }

  lemma {:induction false} StealPrefersEarlier(queues: seq<seq<Task>>, order: seq<nat>, u: nat)
    requires forall i :: 0 <= i < |order| ==> order[i] < |queues|
    requires forall i, j :: 0 <= i < j < |order| ==> LongerFirst(queues, order[i], order[j])
    requires u in order && LastFree(queues[u]).Some?
    ensures Steal(queues, order).Some? && LongerFirst(queues, Steal(queues, order).value.worker, u)
  {
    if LastFree(queues[order[0]]).None? {
      StealPrefersEarlier(queues, order[1..], u);
    }
  }

  // ── next, finish, leave, fail ──────────────────────────────────────────────

  function Without<T>(xs: seq<T>, i: nat): seq<T>
    requires i < |xs|
  {
    xs[..i] + xs[i + 1..]
  }

  function WithoutValue<T(==)>(xs: seq<T>, x: T): (r: seq<T>)
    ensures forall y :: y in r ==> y in xs && y != x
    ensures forall y :: y in xs && y != x ==> y in r
  {
    if xs == [] then [] else (if xs[0] == x then [] else [xs[0]]) + WithoutValue(xs[1..], x)
  }

  /** `dict.setdefault(x)`, a dict's keys being an ordered list without repeats. */
  function SetDefault<T(==)>(xs: seq<T>, x: T): seq<T> {
    if x in xs then xs else xs + [x]
  }

  /** What `next(w)` answers. */
  function Next(s: State, w: nat): Answer
    requires Workers(s, |s.queues|) && w < |s.queues|
  {
    match FirstSettled(s, Owed(s, w))
    case Some(build) => Take(Task(Restore(build), true, None))
    case None =>
      match PopSlot(s, w)
      case Some(Slot(v, at)) => Take(s.queues[v][at])
      case None =>
        if Owed(s, w) != [] || exists b :: b in s.running && s.running[b] != 0 then Wait else Nothing
  }

  /** Nothing a worker may take: its own queue is empty, and what it could steal is pinned. */
  predicate NothingFree(s: State, w: nat)
    requires w < |s.queues|
  {
    && s.queues[w] == []
    && (s.steal ==> forall v, j :: 0 <= v < |s.queues| && 0 <= j < |s.queues[v]| ==> s.queues[v][j].pinned)
  }

  /** A restored run that is due comes first: that of the first owed build that is settled. */
  lemma NextRestores(s: State, w: nat) returns (k: nat)
    requires Workers(s, |s.queues|) && w < |s.queues| && exists b :: b in Owed(s, w) && Settled(s, b)
    ensures FirstSettledAt(s, Owed(s, w), k) && Next(s, w) == Take(Task(Restore(Owed(s, w)[k]), true, None))
  {
    k := FirstSettledIsFirst(s, Owed(s, w));
  }

  /** Then a task. With none it may take, a worker waits while it owes a restored run or any build
      is running, and leaves only when it owes none and none is. */
  lemma NextWaits(s: State, w: nat)
    requires Workers(s, |s.queues|) && w < |s.queues| && forall b :: b in Owed(s, w) ==> !Settled(s, b)
    ensures !NothingFree(s, w) ==> Next(s, w).Take? && PopSlot(s, w).Some?
    ensures NothingFree(s, w) ==>
              Next(s, w) == if Owed(s, w) != [] || exists b :: Count(s.running, b) != 0 then Wait else Nothing
  {
    PopChoosesWell(s, w);
    assert forall b :: Count(s.running, b) != 0 <==> b in s.running && s.running[b] != 0;
  }

  /** The board once worker `w` has taken what `next(w)` answered. */
  function AfterNext(s: State, w: nat): State
    requires Workers(s, |s.queues|) && w < |s.queues|
  {
    match FirstSettled(s, Owed(s, w))
    case Some(build) => s.(restores := Some(s.restores.value[w := WithoutValue(Owed(s, w), build)]))
    case None =>
      match PopSlot(s, w)
      case None => s
      case Some(Slot(v, at)) =>
        var popped := s.(queues := s.queues[v := Without(s.queues[v], at)]);
        match s.queues[v][at].build
        case None => popped
        case Some(build) =>
          popped.(running := s.running[build := Count(s.running, build) + 1],
                  restores := if s.restores.Some?
                              then Some(s.restores.value[w := SetDefault(Owed(s, w), build)])
                              else None)
  }

  function Results(done: map<Key, seq<Value>>, key: Key): seq<Value> {
    if key in done then done[key] else []
  }

  /** The results with each of `entries` appended under its key. */
  function Put(done: map<Key, seq<Value>>, entries: seq<Entry>): map<Key, seq<Value>>
    decreases |entries|
  {
    if entries == [] then done
    else Put(done[entries[0].key := Results(done, entries[0].key) + [entries[0].value]], entries[1..])
  }

  /** The values some entries file under a key, in order. */
  function ValuesUnder(entries: seq<Entry>, key: Key): seq<Value> {
    if entries == [] then []
    else (if entries[0].key == key then [entries[0].value] else []) + ValuesUnder(entries[1..], key)
  }

  /** Putting entries loses and changes no result, and files each value under its own key. */
  lemma {:induction false} PutFiles(done: map<Key, seq<Value>>, entries: seq<Entry>, key: Key)
    ensures Results(Put(done, entries), key) == Results(done, key) + ValuesUnder(entries, key)
    decreases |entries|
  {
    if entries != [] {
      PutFiles(done[entries[0].key := Results(done, entries[0].key) + [entries[0].value]], entries[1..], key);
    }
  }

  /** Each entry's value stands behind those of the entries before it that are filed under its key. */
  lemma {:induction false} ValueStands(entries: seq<Entry>, i: nat)
    requires i < |entries|
    ensures var (all, ahead) := (ValuesUnder(entries, entries[i].key), |ValuesUnder(entries[..i], entries[i].key)|);
            ahead < |all| && all[ahead] == entries[i].value
    decreases i
  {
    if i > 0 {
      ValueStands(entries[1..], i - 1);
      assert entries[1..][..i - 1] == entries[..i][1..];
    }
  }

  /** `now` has what `was` had, and then each entry's value, under the entry's key, in order. */
  ghost predicate Filed(was: map<Key, seq<Value>>, entries: seq<Entry>, now: map<Key, seq<Value>>) {
    && (forall key :: Results(now, key) == Results(was, key) + ValuesUnder(entries, key))
    && forall i :: 0 <= i < |entries| ==> StandsAt(was, entries, now, i)
  }

  /** Entry `i`'s value stands behind the results there were and those of the entries before it. */
  ghost predicate StandsAt(was: map<Key, seq<Value>>, entries: seq<Entry>, now: map<Key, seq<Value>>, i: nat)
    requires i < |entries|
  {
    var key := entries[i].key;
    var at := |Results(was, key)| + |ValuesUnder(entries[..i], key)|;
    at < |Results(now, key)| && Results(now, key)[at] == entries[i].value
  }

  lemma PutFiled(done: map<Key, seq<Value>>, entries: seq<Entry>)
    ensures Filed(done, entries, Put(done, entries))
  {
    forall key ensures Results(Put(done, entries), key) == Results(done, key) + ValuesUnder(entries, key) {
      PutFiles(done, entries, key);
    }
    forall i | 0 <= i < |entries| ensures StandsAt(done, entries, Put(done, entries), i) {
      ValueStands(entries, i);
    }
  }

  function AfterFinish(s: State, w: nat, task: Task, entries: seq<Entry>, follow: seq<Task>): State
    requires w < |s.queues|
  {
    s.(done := Put(s.done, entries),
       queues := s.queues[w := follow + s.queues[w]],
       running := if task.build.Some?
                  then s.running[task.build.value := Count(s.running, task.build.value) - 1]
                  else s.running)
  }
}
