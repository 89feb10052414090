/** `spread`, `assign` and `shard` of tools/check-guards-fire.py: commands over workers and over CI
    shards, heaviest first onto the lightest. */
module Sharding {
  import opened Prelude
  import opened Sorting
  import opened Greedy

  // A command, as its place in the registry's order.
  type Command = nat

  // ── the lightest bin ───────────────────────────────────────────────────────

  /** The bin with the least load, the lowest of two as light. */
  function Lightest(load: seq<nat>): (b: nat)
    requires load != []
    ensures b < |load|
    ensures forall c :: 0 <= c < |load| ==> load[b] <= load[c]
    ensures forall c :: 0 <= c < b ==> load[b] < load[c]
  {
    var n := |load| - 1;
    if n == 0 then 0
    else
      var b := Lightest(load[..n]);
      if load[n] < load[b] then n else b
  }

  datatype Filled = Filled(place: seq<nat>, load: seq<nat>)

  /** Where each weight goes, and the loads once it has. */
  function Fill(from: seq<nat>, ws: seq<nat>): (r: Filled)
    requires from != []
    ensures |r.place| == |ws| && |r.load| == |from| && Fits(r.place, |from|)
  {
    if ws == [] then Filled([], from)
    else
      var n := |ws| - 1;
      var before := Fill(from, ws[..n]);
      var b := Lightest(before.load);
      Filled(before.place + [b], before.load[b := before.load[b] + ws[n]])
  }

  lemma {:induction false} FillLoads(from: seq<nat>, ws: seq<nat>)
    requires from != []
    ensures var r := Fill(from, ws);
            forall b :: 0 <= b < |from| ==> r.load[b] == from[b] + LoadOf(ws, r.place, b)
  {
    if ws != [] {
      var n := |ws| - 1;
      FillLoads(from, ws[..n]);
      assert Fill(from, ws).place[..n] == Fill(from, ws[..n]).place;
    }
  }

  lemma {:induction false} FillIsGreedy(from: seq<nat>, ws: seq<nat>)
    requires from != []
    ensures IsGreedy(from, ws, Fill(from, ws).place)
  {
    if ws != [] {
      var n := |ws| - 1;
      FillIsGreedy(from, ws[..n]);
      FillLoads(from, ws[..n]);
      var (place, before) := (Fill(from, ws).place, Fill(from, ws[..n]));
      assert place[..n] == before.place;
      forall j | 0 <= j < |ws| ensures OnLightest(from, ws, place, j) {
        if j < n {
          assert OnLightest(from, ws[..n], before.place, j);
          assert ws[..n][..j] == ws[..j] && before.place[..j] == place[..j];
        }
      }
    }
  }

  // ── spread ─────────────────────────────────────────────────────────────────

  function WeightOf(weight: seq<nat>, k: Command): nat {
    if k < |weight| then weight[k] else 0
  }

  /** By weight, the heavier before the lighter, and at one weight by number. */
  predicate HeavierFirst(weight: seq<nat>, a: Command, b: Command) {
    var (v, w) := (WeightOf(weight, a), WeightOf(weight, b));
    v > w || (v == w && a <= b)
  }

  function Order(weight: seq<nat>, keys: seq<Command>): (r: seq<Command>)
    ensures multiset(r) == multiset(keys)
    ensures |r| == |keys|
    ensures forall i, j :: 0 <= i < j < |r| ==> HeavierFirst(weight, r[i], r[j])
  {
    var r := SortBy((a: nat, b: nat) => HeavierFirst(weight, a, b), keys);
    assert |multiset(r)| == |multiset(keys)|;
    r
  }

  function Weights(weight: seq<nat>, order: seq<Command>): (ws: seq<nat>)
    ensures |ws| == |order| && forall i :: 0 <= i < |ws| ==> ws[i] == WeightOf(weight, order[i])
  {
    seq(|order|, i requires 0 <= i < |order| => WeightOf(weight, order[i]))
  }

  /** The keys of `order` placed on bin `b`, in order. */
  function Chosen(order: seq<Command>, place: seq<nat>, b: nat): seq<Command>
    requires |order| == |place|
  {
    if order == [] then []
    else
      var n := |order| - 1;
      var rest := Chosen(order[..n], place[..n], b);
      if place[n] == b then rest + [order[n]] else rest
  }

  lemma {:induction false} ChosenMembers(order: seq<Command>, place: seq<nat>, b: nat)
    requires |order| == |place|
    ensures forall k :: k in Chosen(order, place, b) <==> exists i :: 0 <= i < |order| && order[i] == k && place[i] == b
  {
    if order != [] {
      var n := |order| - 1;
      ChosenMembers(order[..n], place[..n], b);
      assert forall i :: 0 <= i < n ==> order[..n][i] == order[i] && place[..n][i] == place[i];
    }
  }

  /** The keys placed on each of the first `n` bins. */
  function ChosenAll(order: seq<Command>, place: seq<nat>, n: nat): (out: seq<seq<Command>>)
    requires |order| == |place|
    ensures |out| == n && forall b :: 0 <= b < n ==> out[b] == Chosen(order, place, b)
  {
    if n == 0 then [] else ChosenAll(order, place, n - 1) + [Chosen(order, place, n - 1)]
  }

  /** What `spread` answers: each bin's keys. */
  function Bins(weight: seq<nat>, keys: seq<Command>, from: seq<nat>): (out: seq<seq<Command>>)
    requires from != []
    ensures |out| == |from|
  {
    var order := Order(weight, keys);
    ChosenAll(order, Fill(from, Weights(weight, order)).place, |from|)
  }

  method Spread(weight: seq<nat>, keys: seq<Command>, from: seq<nat>) returns (out: seq<seq<Command>>)
    requires from != []
    ensures out == Bins(weight, keys, from)
  {
    var order := Order(weight, keys);
    out := Deal(from, order, Weights(weight, order));
  }

  /** `spread`'s loop: each key in turn onto the bin that is lightest by then. */
  method Deal(from: seq<nat>, order: seq<Command>, ws: seq<nat>) returns (out: seq<seq<Command>>)
    requires from != [] && |ws| == |order|
    ensures out == ChosenAll(order, Fill(from, ws).place, |from|)
  {
    var load: seq<nat> := from;
    out := ChosenAll([], [], |from|);
    ghost var fills := Fills(from, ws);
    assert order[..0] == [];
    for i := 0 to |order|
      invariant load == fills[i].load
      invariant out == ChosenAll(order[..i], fills[i].place, |from|)
    {
      var lightest := Lightest(load);
      assert Placed(fills[i], fills[i + 1], ws[i]);
      ChooseOneMore(order, fills[i + 1].place, i, |from|);
      out := out[lightest := out[lightest] + [order[i]]];
      load := load[lightest := load[lightest] + ws[i]];
    }
    assert order[..|order|] == order;
  }

  /** One weight is put onto the lightest bin. */
  ghost predicate Placed(was: Filled, now: Filled, w: nat)
    requires was.load != []
  {
    var b := Lightest(was.load);
    now == Filled(was.place + [b], was.load[b := was.load[b] + w])
  }

  lemma FillPlaces(from: seq<nat>, ws: seq<nat>, was: Filled, now: Filled)
    requires from != [] && ws != [] && was == Fill(from, ws[..|ws| - 1]) && now == Fill(from, ws)
    ensures was.load != [] && Placed(was, now, ws[|ws| - 1])
  {
  }

  /** The bins after each weight. */
  lemma {:induction false} Fills(from: seq<nat>, ws: seq<nat>) returns (fills: seq<Filled>)
    requires from != []
    ensures |fills| == |ws| + 1 && fills[0] == Filled([], from) && fills[|ws|] == Fill(from, ws)
    ensures forall i :: 0 <= i <= |ws| ==> |fills[i].load| == |from| && |fills[i].place| == i
    ensures forall i :: 0 <= i < |ws| ==> Placed(fills[i], fills[i + 1], ws[i])
    decreases |ws|
  {
    if ws == [] {
      fills := [Filled([], from)];
    } else {
      var before := Fills(from, ws[..|ws| - 1]);
      FillPlaces(from, ws, before[|ws| - 1], Fill(from, ws));
      fills := before + [Fill(from, ws)];
    }
  }

  lemma ChooseOneMore(order: seq<Command>, place: seq<nat>, i: nat, n: nat)
    requires |place| == i + 1 && i < |order| && place[i] < n
    ensures var was := ChosenAll(order[..i], place[..i], n);
            ChosenAll(order[..i + 1], place, n) == was[place[i] := was[place[i]] + [order[i]]]
  {
    assert order[..i + 1][..i] == order[..i];
  }

  // ── every key in one bin ───────────────────────────────────────────────────

  lemma DistinctByCount<T(!new)>(xs: seq<T>)
    requires forall x :: multiset(xs)[x] <= 1
    ensures NoDuplicates(xs)
  {
    forall i, j | 0 <= i < j < |xs| ensures xs[i] != xs[j] {
      if xs[i] == xs[j] {
        RepeatCountsTwice(xs, i, j);
      }
    }
  }

  lemma {:induction false} CountDistinct<T(!new)>(xs: seq<T>, x: T)
    requires NoDuplicates(xs)
    ensures multiset(xs)[x] <= 1
  {
    if xs != [] {
      assert xs == [xs[0]] + xs[1..];
      CountDistinct(xs[1..], x);
      assert xs[0] !in xs[1..];
    }
  }

  lemma OrderDistinct(weight: seq<nat>, keys: seq<Command>)
    requires NoDuplicates(keys)
    ensures NoDuplicates(Order(weight, keys))
    ensures forall k :: k in keys <==> k in Order(weight, keys)
  {
    forall k ensures multiset(Order(weight, keys))[k] <= 1 {
      CountDistinct(keys, k);
    }
    DistinctByCount(Order(weight, keys));
    assert forall k :: k in keys <==> k in multiset(keys);
    assert forall k :: k in Order(weight, keys) <==> k in multiset(Order(weight, keys));
  }

  lemma {:induction false} ChosenDistinct(order: seq<Command>, place: seq<nat>, b: nat)
    requires |order| == |place| && NoDuplicates(order)
    ensures NoDuplicates(Chosen(order, place, b))
  {
    if order != [] {
      var n := |order| - 1;
      ChosenDistinct(order[..n], place[..n], b);
      ChosenMembers(order[..n], place[..n], b);
      assert order[n] !in Chosen(order[..n], place[..n], b);
    }
  }

  ghost predicate PlacedOn(order: seq<Command>, place: seq<nat>, k: Command, b: nat)
    requires |order| == |place|
  {
    exists i :: 0 <= i < |order| && order[i] == k && place[i] == b
  }

  lemma BinHolds(weight: seq<nat>, keys: seq<Command>, from: seq<nat>, b: nat, k: Command)
    requires b < |from| && NoDuplicates(keys)
    ensures NoDuplicates(Bins(weight, keys, from)[b])
    ensures var order := Order(weight, keys);
            k in Bins(weight, keys, from)[b] <==> PlacedOn(order, Fill(from, Weights(weight, order)).place, k, b)
  {
    var order := Order(weight, keys);
    var place := Fill(from, Weights(weight, order)).place;
    OrderDistinct(weight, keys);
    ChosenDistinct(order, place, b);
    ChosenMembers(order, place, b);
  }

  lemma PlacedOnce(order: seq<Command>, place: seq<nat>, k: Command)
    requires |order| == |place| && NoDuplicates(order)
    ensures forall b, c :: PlacedOn(order, place, k, b) && PlacedOn(order, place, k, c) ==> b == c
    ensures k in order <==> exists i :: 0 <= i < |order| && PlacedOn(order, place, k, place[i])
  {
    if k in order {
      var i :| 0 <= i < |order| && order[i] == k;
      assert PlacedOn(order, place, k, place[i]);
    }
  }

  /** The bins partition the keys: each key is in exactly one, once. */
  lemma BinsPartition(weight: seq<nat>, keys: seq<Command>, from: seq<nat>, k: Command)
    requires from != [] && NoDuplicates(keys)
    ensures var out := Bins(weight, keys, from);
            && (forall b :: 0 <= b < |out| ==> NoDuplicates(out[b]))
            && (k in keys <==> exists b :: 0 <= b < |out| && k in out[b])
            && (forall b, c :: 0 <= b < |out| && 0 <= c < |out| && k in out[b] && k in out[c] ==> b == c)
  {
    var order := Order(weight, keys);
    var place := Fill(from, Weights(weight, order)).place;
    var out := Bins(weight, keys, from);
    OrderDistinct(weight, keys);
    forall b: nat | b < |out| ensures NoDuplicates(out[b]) && (k in out[b] <==> PlacedOn(order, place, k, b)) {
      BinHolds(weight, keys, from, b, k);
    }
    PlacedOnce(order, place, k);
    if k in keys {
      var i :| 0 <= i < |order| && PlacedOn(order, place, k, place[i]);
      assert k in out[place[i]];
    }
  }

  ghost function Weighing(weight: seq<nat>): Command -> nat {
    (k: Command) => WeightOf(weight, k)
  }

  lemma {:induction false} ChosenWeighs(weight: seq<nat>, order: seq<Command>, place: seq<nat>, b: nat)
    requires |order| == |place|
    ensures Over(Chosen(order, place, b), Weighing(weight)) == LoadOf(Weights(weight, order), place, b)
  {
    if order != [] {
      var n := |order| - 1;
      ChosenWeighs(weight, order[..n], place[..n], b);
      assert Weights(weight, order)[..n] == Weights(weight, order[..n]);
      assert Over([order[n]], Weighing(weight)) == WeightOf(weight, order[n]);
      OverConcat(Chosen(order[..n], place[..n], b), [order[n]], Weighing(weight));
    }
  }

  /** What another placement, `bin` of each key, puts on bin `b`. */
  ghost function OnBin(weight: seq<nat>, bin: Command -> nat, b: nat): Command -> nat {
    (k: Command) => if bin(k) == b then WeightOf(weight, k) else 0
  }

  ghost function Along(order: seq<Command>, bin: Command -> nat): (r: seq<nat>)
    ensures |r| == |order| && forall i :: 0 <= i < |r| ==> r[i] == bin(order[i])
  {
    seq(|order|, i requires 0 <= i < |order| => bin(order[i]))
  }

  lemma {:induction false} AlongWeighs(weight: seq<nat>, order: seq<Command>, bin: Command -> nat, b: nat)
    ensures LoadOf(Weights(weight, order), Along(order, bin), b) == Over(order, OnBin(weight, bin, b))
  {
    if order != [] {
      var n := |order| - 1;
      AlongWeighs(weight, order[..n], bin, b);
      assert Weights(weight, order)[..n] == Weights(weight, order[..n]);
      assert Along(order, bin)[..n] == Along(order[..n], bin);
      assert order == order[..n] + [order[n]];
      OverConcat(order[..n], [order[n]], OnBin(weight, bin, b));
    }
  }

  /** What bin `b` of an even spread weighs. */
  ghost function BinWeight(weight: seq<nat>, keys: seq<Command>, n: nat, b: nat): nat
    requires b < n
  {
    Over(Bins(weight, keys, Empty(n))[b], Weighing(weight))
  }

  lemma BinWeightIsLoad(weight: seq<nat>, keys: seq<Command>, n: nat, b: nat)
    requires b < n
    ensures var ws := Weights(weight, Order(weight, keys));
            BinWeight(weight, keys, n, b) == LoadOf(ws, Fill(Empty(n), ws).place, b)
  {
    var order := Order(weight, keys);
    ChosenWeighs(weight, order, Fill(Empty(n), Weights(weight, order)).place, b);
  }

  lemma OrderKeys(weight: seq<nat>, keys: seq<Command>)
    ensures forall i :: 0 <= i < |keys| ==> Order(weight, keys)[i] in keys
  {
    var order := Order(weight, keys);
    forall i | 0 <= i < |order| ensures order[i] in keys {
      assert order[i] in multiset(order);
    }
  }

  /** From empty bins, no two bins' weights differ by more than the heaviest command's. */
  lemma SpreadGap(weight: seq<nat>, keys: seq<Command>, n: nat, b: nat, c: nat, heaviest: nat)
    requires b < n && c < n && forall k :: k in keys ==> WeightOf(weight, k) <= heaviest
    ensures BinWeight(weight, keys, n, b) <= BinWeight(weight, keys, n, c) + heaviest
  {
    var ws := Weights(weight, Order(weight, keys));
    var place := Fill(Empty(n), ws).place;
    FillIsGreedy(Empty(n), ws);
    OrderKeys(weight, keys);
    BinWeightIsLoad(weight, keys, n, b);
    BinWeightIsLoad(weight, keys, n, c);
    assert ws[..|ws|] == ws && place[..|ws|] == place;
    GapAtMostHeaviest(n, ws, place, |ws|, heaviest, b, c);
  }

  /** Another placement of the keys in `n` bins, none of them over `most`. */
  ghost predicate Rivals(weight: seq<nat>, keys: seq<Command>, n: nat, bin: Command -> nat, most: nat) {
    && (forall k :: k in keys ==> bin(k) < n)
    && (forall a :: 0 <= a < n ==> Over(keys, OnBin(weight, bin, a)) <= most)
  }

  lemma RivalWithin(weight: seq<nat>, keys: seq<Command>, n: nat, bin: Command -> nat, most: nat)
    requires Rivals(weight, keys, n, bin, most)
    ensures var order := Order(weight, keys); Within(Weights(weight, order), Along(order, bin), n, most)
  {
    var order := Order(weight, keys);
    OrderKeys(weight, keys);
    forall a | 0 <= a < n ensures LoadOf(Weights(weight, order), Along(order, bin), a) <= most {
      AlongWeighs(weight, order, bin, a);
      OverPermuted(order, keys, OnBin(weight, bin, a));
    }
  }

  /** The heaviest bin is within 2 - 1/n of the heaviest bin of any other placement. */
  lemma SpreadWithinTwice(weight: seq<nat>, keys: seq<Command>, n: nat, b: nat, bin: Command -> nat, most: nat)
    requires b < n && Rivals(weight, keys, n, bin, most)
    ensures n * BinWeight(weight, keys, n, b) <= (2 * n - 1) * most
  {
    var order := Order(weight, keys);
    var ws := Weights(weight, order);
    FillIsGreedy(Empty(n), ws);
    RivalWithin(weight, keys, n, bin, most);
    BinWeightIsLoad(weight, keys, n, b);
    WithinTwice(n, ws, Fill(Empty(n), ws).place, Along(order, bin), most, b);
  }

  /** And within 4/3 - 1/(3n) of it: the order is heaviest first. */
  lemma SpreadWithinFourThirds(weight: seq<nat>, keys: seq<Command>, n: nat, b: nat, bin: Command -> nat, most: nat)
    requires b < n && Rivals(weight, keys, n, bin, most)
    ensures 3 * n * BinWeight(weight, keys, n, b) <= (4 * n - 1) * most
  {
    var order := Order(weight, keys);
    var ws := Weights(weight, order);
    FillIsGreedy(Empty(n), ws);
    RivalWithin(weight, keys, n, bin, most);
    BinWeightIsLoad(weight, keys, n, b);
    OrderDescends(weight, keys);
    WithinFourThirds(n, ws, Fill(Empty(n), ws).place, Along(order, bin), most, b);
  }

  lemma OrderDescends(weight: seq<nat>, keys: seq<Command>)
    ensures HeaviestFirst(Weights(weight, Order(weight, keys)))
  {
    var order := Order(weight, keys);
    forall i, j | 0 <= i < j < |order| ensures WeightOf(weight, order[i]) >= WeightOf(weight, order[j]) {
      assert HeavierFirst(weight, order[i], order[j]);
    }
  }

  // ── assign ─────────────────────────────────────────────────────────────────

  function Sort(keys: seq<Command>): (r: seq<Command>)
    ensures multiset(r) == multiset(keys)
    ensures forall i, j :: 0 <= i < j < |r| ==> r[i] <= r[j]
  {
    SortBy((a: nat, b: nat) => a <= b, keys)
  }

  function Total(weight: seq<nat>, keys: seq<Command>): nat {
    if keys == [] then 0 else WeightOf(weight, keys[0]) + Total(weight, keys[1..])
  }

  function SortAll(queues: seq<seq<Command>>): (r: seq<seq<Command>>)
    ensures |r| == |queues| && forall w :: 0 <= w < |r| ==> r[w] == Sort(queues[w])
  {
    seq(|queues|, w requires 0 <= w < |queues| => Sort(queues[w]))
  }

  function Queues(weight: seq<nat>, pinned: seq<Command>, free: seq<Command>, jobs: nat): (queues: seq<seq<Command>>)
    requires jobs > 0
    ensures |queues| == jobs
  {
    var bins := Bins(weight, free, [Total(weight, pinned)] + Empty(jobs - 1));
    SortAll(bins[0 := pinned + bins[0]])
  }

  /** `assign`: the pinned commands weigh on the first worker before the others are spread, and
      every queue is sorted by number. */
  method Assign(weight: seq<nat>, pinned: seq<Command>, free: seq<Command>, jobs: nat)
    returns (queues: seq<seq<Command>>)
    requires jobs > 0
    ensures queues == Queues(weight, pinned, free, jobs)
  {
    var out := Spread(weight, free, [Total(weight, pinned)] + Empty(jobs - 1));
    out := out[0 := pinned + out[0]];
    queues := SortAll(out);
  }

  /** Every command is in exactly one worker's queue, every pinned one in the first worker's, and
      each queue is in registry order. */
  lemma AssignPartitions(weight: seq<nat>, pinned: seq<Command>, free: seq<Command>, jobs: nat, k: Command)
    requires jobs > 0 && NoDuplicates(pinned) && NoDuplicates(free)
    requires forall j :: j in pinned ==> j !in free
    ensures var queues := Queues(weight, pinned, free, jobs);
            && (k in pinned ==> k in queues[0])
            && (k in pinned || k in free <==> exists w :: 0 <= w < jobs && k in queues[w])
            && (forall v, w :: 0 <= v < jobs && 0 <= w < jobs && k in queues[v] && k in queues[w] ==> v == w)
            && forall w :: 0 <= w < jobs ==> Increasing(queues[w])
  {
    AssignedOnce(weight, pinned, free, jobs, k);
    forall w: nat | w < jobs ensures Increasing(Queues(weight, pinned, free, jobs)[w]) {
      QueueHolds(weight, pinned, free, jobs, w);
    }
  }

  lemma AssignedOnce(weight: seq<nat>, pinned: seq<Command>, free: seq<Command>, jobs: nat, k: Command)
    requires jobs > 0 && NoDuplicates(pinned) && NoDuplicates(free)
    requires forall j :: j in pinned ==> j !in free
    ensures var queues := Queues(weight, pinned, free, jobs);
            && (k in pinned ==> k in queues[0])
            && (k in pinned || k in free <==> exists w :: 0 <= w < jobs && k in queues[w])
            && (forall v, w :: 0 <= v < jobs && 0 <= w < jobs && k in queues[v] && k in queues[w] ==> v == w)
  {
    var from := [Total(weight, pinned)] + Empty(jobs - 1);
    var (queues, bins) := (Queues(weight, pinned, free, jobs), Bins(weight, free, from));
    OneBin(weight, free, from, k, bins);
    forall w: nat | w < jobs ensures k in queues[w] <==> (w == 0 && k in pinned) || k in bins[w] {
      QueueHolds(weight, pinned, free, jobs, w);
    }
    InOneQueue(queues, bins, k in pinned, k in free, k);
  }

  /** `k` is in one of the bins if it is wanted at all, and in no two. */
  ghost predicate InOne(bins: seq<seq<Command>>, wanted: bool, k: Command) {
    && (wanted <==> exists b :: 0 <= b < |bins| && k in bins[b])
    && (forall b, c :: 0 <= b < |bins| && 0 <= c < |bins| && k in bins[b] && k in bins[c] ==> b == c)
  }

  lemma OneBin(weight: seq<nat>, keys: seq<Command>, from: seq<nat>, k: Command, bins: seq<seq<Command>>)
    requires from != [] && NoDuplicates(keys) && bins == Bins(weight, keys, from)
    ensures InOne(bins, k in keys, k)
  {
    BinsPartition(weight, keys, from, k);
  }

  lemma InOneQueue(queues: seq<seq<Command>>, bins: seq<seq<Command>>, pinned: bool, free: bool, k: Command)
    requires |queues| == |bins| > 0 && !(pinned && free)
    requires forall w: nat :: w < |queues| ==> (k in queues[w] <==> (w == 0 && pinned) || k in bins[w])
    requires InOne(bins, free, k)
    ensures InOne(queues, pinned || free, k) && (pinned ==> k in queues[0])
  {
    if pinned {
      assert k in queues[0];
    } else if free {
      var b :| 0 <= b < |bins| && k in bins[b];
      assert k in queues[b];
    }
  }

  lemma QueueHolds(weight: seq<nat>, pinned: seq<Command>, free: seq<Command>, jobs: nat, w: nat)
    requires w < jobs && NoDuplicates(pinned) && NoDuplicates(free)
    requires forall j :: j in pinned ==> j !in free
    ensures var bins := Bins(weight, free, [Total(weight, pinned)] + Empty(jobs - 1));
            forall k :: k in Queues(weight, pinned, free, jobs)[w] <==> (w == 0 && k in pinned) || k in bins[w]
    ensures Increasing(Queues(weight, pinned, free, jobs)[w])
  {
    var from := [Total(weight, pinned)] + Empty(jobs - 1);
    var bins := Bins(weight, free, from);
    forall j | j in bins[0] ensures j in free {
      BinsPartition(weight, free, from, j);
    }
    BinsPartition(weight, free, from, 0);
    if w == 0 {
      BothDistinct(pinned, bins[0]);
      SortedQueue(pinned + bins[0]);
    } else {
      SortedQueue(bins[w]);
    }
  }

  lemma BothDistinct(a: seq<Command>, b: seq<Command>)
    requires NoDuplicates(a) && NoDuplicates(b) && forall k :: k in a ==> k !in b
    ensures NoDuplicates(a + b)
  {
    forall i, j | 0 <= i < j < |a + b| ensures (a + b)[i] != (a + b)[j] {
      if i < |a| <= j {
        assert a[i] in a && b[j - |a|] in b;
      }
    }
  }

  lemma SortedQueue(keys: seq<Command>)
    requires NoDuplicates(keys)
    ensures forall k :: k in Sort(keys) <==> k in keys
    ensures Increasing(Sort(keys))
  {
    forall k ensures multiset(Sort(keys))[k] <= 1 {
      CountDistinct(keys, k);
    }
    DistinctByCount(Sort(keys));
    assert forall k :: k in keys <==> k in multiset(keys);
    assert forall k :: k in Sort(keys) <==> k in multiset(Sort(keys));
  }

  lemma {:induction false} TotalIs(weight: seq<nat>, keys: seq<Command>)
    ensures Total(weight, keys) == Over(keys, (k: Command) => WeightOf(weight, k))
  {
    if keys != [] {
      TotalIs(weight, keys[1..]);
    }
  }

  /** Heaviest first, each command that isn't pinned goes to a worker no other is lighter than then, the
      first having been given the pinned ones' whole weight. */
  lemma AssignIsGreedy(weight: seq<nat>, pinned: seq<Command>, free: seq<Command>, jobs: nat) returns (place: seq<nat>)
    requires jobs > 0 && NoDuplicates(pinned) && NoDuplicates(free) && forall k :: k in pinned ==> k !in free
    ensures var (order, load) := (Order(weight, free), Over(pinned, (k: Command) => WeightOf(weight, k)));
            && IsGreedy([load] + Empty(jobs - 1), Weights(weight, order), place)
            && forall i :: 0 <= i < |order| ==>
                             place[i] < jobs && order[i] in Queues(weight, pinned, free, jobs)[place[i]]
  {
    var (order, from) := (Order(weight, free), [Total(weight, pinned)] + Empty(jobs - 1));
    TotalIs(weight, pinned);
    place := Fill(from, Weights(weight, order)).place;
    FillIsGreedy(from, Weights(weight, order));
    forall i | 0 <= i < |order|
      ensures place[i] < jobs && order[i] in Queues(weight, pinned, free, jobs)[place[i]]
    {
      ChosenMembers(order, place, place[i]);
      QueueHolds(weight, pinned, free, jobs, place[i]);
      assert order[i] in Bins(weight, free, from)[place[i]];
    }
  }

  // ── shard ──────────────────────────────────────────────────────────────────

  /** A selected entry: its command, its cost, and its command's clean and restored runs' cost. */
  datatype Selected = Selected(command: Command, cost: nat, overhead: nat)

  /** A command's weight in a split: its entries' costs and its first entry's overhead. */
  function ShardWeight(selected: seq<Selected>, c: Command): nat {
    if selected == [] then 0
    else
      var n := |selected| - 1;
      var before := ShardWeight(selected[..n], c);
      if selected[n].command != c then before
      else if Names(selected[..n], c) then before + selected[n].cost
      else selected[n].cost + selected[n].overhead
  }

  /** A command weighs what its entries cost, and its first entry's overhead. */
  lemma {:induction false} ShardWeightIs(selected: seq<Selected>, c: Command) returns (first: nat)
    ensures !Names(selected, c) ==> ShardWeight(selected, c) == 0
    ensures Names(selected, c) ==>
              && first < |selected| && selected[first].command == c
              && (forall i :: 0 <= i < first ==> selected[i].command != c)
              && ShardWeight(selected, c) ==
                 Over(selected, (e: Selected) => if e.command == c then e.cost else 0) + selected[first].overhead
  {
    first := 0;
    var costs := (e: Selected) => if e.command == c then e.cost else 0;
    if selected != [] {
      var n := |selected| - 1;
      var before := ShardWeightIs(selected[..n], c);
      assert selected == selected[..n] + [selected[n]];
      OverConcat(selected[..n], [selected[n]], costs);
      first := if Names(selected[..n], c) then before else n;
      if !Names(selected[..n], c) {
        forall i | 0 <= i < n ensures selected[i].command != c {
          assert selected[..n][i] == selected[i];
        }
        OverZero(selected[..n], costs);
      } else {
        assert selected[..n][before] == selected[before];
        assert forall i :: 0 <= i < before ==> selected[..n][i] == selected[i];
      }
    }
  }

  predicate Names(selected: seq<Selected>, c: Command) {
    exists i :: 0 <= i < |selected| && selected[i].command == c
  }

  /** The commands of the selection in registry order, given that there are `count`. */
  function CommandsOf(selected: seq<Selected>, count: nat): (r: seq<Command>)
    ensures Increasing(r)
    ensures forall c: nat :: c in r <==> c < count && Names(selected, c)
  {
    if count == 0 then []
    else
      var rest := CommandsOf(selected, count - 1);
      assert forall i :: 0 <= i < |rest| ==> rest[i] in rest;
      if Names(selected, count - 1) then rest + [count - 1] else rest
  }

  function ShardWeights(selected: seq<Selected>, count: nat): seq<nat> {
    seq(count, (c: nat) => ShardWeight(selected, c))
  }

  function ShardBins(selected: seq<Selected>, count: nat, n: nat): (out: seq<seq<Command>>)
    requires n > 0
    ensures |out| == n
  {
    Bins(ShardWeights(selected, count), CommandsOf(selected, count), Empty(n))
  }

  /** The positions of the entries whose command is one of `keep`, among the first `upto`. */
  function Kept(selected: seq<Selected>, keep: seq<Command>, upto: nat): (r: seq<nat>)
    requires upto <= |selected|
    ensures Increasing(r)
    ensures forall i: nat :: i in r <==> i < upto && selected[i].command in keep
  {
    if upto == 0 then []
    else
      var rest := Kept(selected, keep, upto - 1);
      assert forall k :: 0 <= k < |rest| ==> rest[k] in rest;
      if selected[upto - 1].command in keep then rest + [upto - 1] else rest
  }

  /** Shard `k` of `n`: the positions of its entries, whole commands, in registry order. */
  method Shard(selected: seq<Selected>, count: nat, k: nat, n: nat) returns (mine: seq<nat>)
    requires k < n && forall i :: 0 <= i < |selected| ==> selected[i].command < count
    ensures mine == Kept(selected, ShardBins(selected, count, n)[k], |selected|)
  {
    var out := Spread(ShardWeights(selected, count), CommandsOf(selected, count), Empty(n));
    mine := [];
    for i := 0 to |selected|
      invariant mine == Kept(selected, out[k], i)
    {
      if selected[i].command in out[k] {
        mine := mine + [i];
      }
    }
  }

  /** No entry is lost, none is in two shards, and a command's entries stay together. */
  lemma ShardsPartition(selected: seq<Selected>, count: nat, n: nat, i: nat)
    requires n > 0 && i < |selected| && forall j :: 0 <= j < |selected| ==> selected[j].command < count
    ensures exists k :: 0 <= k < n && i in Kept(selected, ShardBins(selected, count, n)[k], |selected|)
    ensures forall k, l, j: nat ::
              (0 <= k < n && 0 <= l < n && j < |selected| && selected[i].command == selected[j].command
               && i in Kept(selected, ShardBins(selected, count, n)[k], |selected|)
               && j in Kept(selected, ShardBins(selected, count, n)[l], |selected|)) ==> k == l
  {
    var keys := CommandsOf(selected, count);
    assert Names(selected, selected[i].command);
    BinsPartition(ShardWeights(selected, count), keys, Empty(n), selected[i].command);
    var out := ShardBins(selected, count, n);
    var k :| 0 <= k < n && selected[i].command in out[k];
    assert i in Kept(selected, out[k], |selected|);
  }
}
