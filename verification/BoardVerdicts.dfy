/** What the board has under a key: the answers of the tasks that finished, in the order they did. */
module BoardVerdicts {
  import opened Boards
  import opened BoardRuns
  import opened BoardTheorems
  import opened FaultPhase
  import opened FaultQueues

  /** Result `k` of the task that ends at step `j` is filed under this key. */
  ghost predicate Answered(steps: seq<Step>, j: nat, k: nat, key: Key) {
    && j < |steps| && steps[j].FinishStep?
    && k < |steps[j].entries| && steps[j].entries[k].key == key
  }

  ghost function AnsweredAt(step: Step, key: Key): seq<Value> {
    if step.FinishStep? then ValuesUnder(step.entries, key) else []
  }

  /** What the tasks that ended answered under this key, one after another. */
  ghost function Posted(steps: seq<Step>, key: Key): seq<Value> {
    if steps == [] then []
    else Posted(steps[..|steps| - 1], key) + AnsweredAt(steps[|steps| - 1], key)
  }

  /** At every point of every run, the results under a key are what tasks answered under it. */
  lemma {:induction false} ResultsArePosted(cfg: Config, states: seq<System>, steps: seq<Step>, n: nat, key: Key)
    requires IsRun(cfg, states, steps) && n <= |steps|
    ensures Results(states[n].board.done, key) == Posted(steps[..n], key)
  {
    if n > 0 {
      ResultsArePosted(cfg, states, steps, n - 1, key);
      assert Moves(cfg, states, steps, n - 1);
      assert steps[..n][..n - 1] == steps[..n - 1];
      StepPosts(cfg, states[n - 1], steps[n - 1], key);
    }
  }

  lemma StepPosts(cfg: Config, s: System, step: Step, key: Key)
    requires Enabled(cfg, s, step)
    ensures Results(After(cfg, s, step).board.done, key) == Results(s.board.done, key) + AnsweredAt(step, key)
  {
    if step.FinishStep? {
      PutFiles(s.board.done, step.entries, key);
    }
  }

  lemma {:induction false} NoneUnder(entries: seq<Entry>, key: Key)
    requires ValuesUnder(entries, key) == []
    ensures forall k :: 0 <= k < |entries| ==> entries[k].key != key
  {
    if entries != [] {
      NoneUnder(entries[1..], key);
      assert forall k :: 0 < k < |entries| ==> entries[k] == entries[1..][k - 1];
    }
  }

  lemma {:induction false} OneUnder(entries: seq<Entry>, key: Key) returns (k: nat)
    requires |ValuesUnder(entries, key)| == 1
    ensures k < |entries| && entries[k].key == key && ValuesUnder(entries, key) == [entries[k].value]
    ensures forall m :: 0 <= m < |entries| && entries[m].key == key ==> m == k
  {
    assert forall m :: 0 < m < |entries| ==> entries[m] == entries[1..][m - 1];
    if entries[0].key == key {
      k := 0;
      NoneUnder(entries[1..], key);
    } else {
      k := OneUnder(entries[1..], key);
      k := k + 1;
    }
  }

  lemma {:induction false} NonePosted(steps: seq<Step>, key: Key, j: nat, k: nat)
    requires Posted(steps, key) == []
    ensures !Answered(steps, j, k, key)
  {
    if steps != [] {
      var n := |steps| - 1;
      NonePosted(steps[..n], key, j, k);
      if steps[n].FinishStep? {
        NoneUnder(steps[n].entries, key);
      }
    }
  }

  /** One result in all is the answer of one task. */
  lemma {:induction false} OnePosted(steps: seq<Step>, key: Key) returns (j: nat, k: nat)
    requires |Posted(steps, key)| == 1
    ensures Answered(steps, j, k, key) && Posted(steps, key) == [steps[j].entries[k].value]
    ensures forall i: nat, m: nat :: Answered(steps, i, m, key) ==> i == j && m == k
  {
    var n := |steps| - 1;
    if Posted(steps[..n], key) == [] {
      j := n;
      k := OneUnder(steps[n].entries, key);
      forall i: nat, m: nat | Answered(steps, i, m, key) ensures i == j && m == k {
        if i < n {
          NonePosted(steps[..n], key, i, m);
        }
      }
    } else {
      j, k := OnePosted(steps[..n], key);
      if steps[n].FinishStep? {
        NoneUnder(steps[n].entries, key);
      }
      forall i: nat, m: nat | Answered(steps, i, m, key) ensures i == j && m == k {
        assert i < n;
        assert Answered(steps[..n], i, m, key);
      }
    }
  }

  /** So the one verdict each selected fault and each batch has, at the end of any run without an
      error, is what the one task that answered for it said. */
  lemma VerdictIsTheAnswer(cfg: Config, selected: seq<Registered>, states: seq<System>, steps: seq<Step>, key: Key)
    returns (j: nat, k: nat)
    requires Describes(cfg, selected) && QueuesFor(cfg, selected, cfg.queues, |selected|)
    requires IsRun(cfg, states, steps)
    requires var last := states[|steps|];
             Sized(last) && !last.board.error && forall w :: 0 <= w < |last.phase| ==> last.phase[w].Gone?
    requires (key.Fault? && key.index < |selected|) || RealBatch(cfg, key)
    ensures Answered(steps, j, k, key)
    ensures Results(states[|steps|].board.done, key) == [steps[j].entries[k].value]
    ensures forall i: nat, m: nat :: Answered(steps, i, m, key) ==> i == j && m == k
  {
    ExactlyOneVerdict(cfg, selected, states, steps, key);
    ResultsArePosted(cfg, states, steps, |steps|, key);
    assert steps[..|steps|] == steps;
    j, k := OnePosted(steps, key);
  }
}
