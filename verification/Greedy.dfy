/** Greedy placement: each weight in turn onto a lightest bin.

    From empty bins, no two bins differ by more than the heaviest weight, so the fullest is within
    2 - 1/n of the fullest bin of any other placement. When the weights come heaviest first it is
    within 4/3 - 1/(3n): a weight that is over a third of the other placement's fullest bin never
    takes its own bin past that, by counting how many such weights any bin has room for. */
module Greedy {
  import opened Prelude

  /** What the first |place| weights put on bin `b`. */
  ghost function LoadOf(ws: seq<nat>, place: seq<nat>, b: nat): nat
    requires |place| == |ws|
  {
    if ws == [] then 0
    else
      var n := |ws| - 1;
      LoadOf(ws[..n], place[..n], b) + (if place[n] == b then ws[n] else 0)
  }

  ghost predicate Fits(place: seq<nat>, n: nat) {
    forall j :: 0 <= j < |place| ==> place[j] < n
  }

  /** Each weight went onto a bin no other was lighter than, from the loads `from`. */
  ghost predicate IsGreedy(from: seq<nat>, ws: seq<nat>, place: seq<nat>) {
    |place| == |ws| && Fits(place, |from|) && forall j :: 0 <= j < |ws| ==> OnLightest(from, ws, place, j)
  }

  ghost predicate OnLightest(from: seq<nat>, ws: seq<nat>, place: seq<nat>, j: nat)
    requires |place| == |ws| && j < |ws|
  {
    place[j] < |from| &&
    forall b :: 0 <= b < |from| ==>
                  from[place[j]] + LoadOf(ws[..j], place[..j], place[j]) <= from[b] + LoadOf(ws[..j], place[..j], b)
  }

  lemma LightestOf(n: nat, ws: seq<nat>, place: seq<nat>, j: nat, b: nat)
    requires IsGreedy(Empty(n), ws, place) && j < |ws| && b < n
    ensures LoadOf(ws[..j], place[..j], place[j]) <= LoadOf(ws[..j], place[..j], b)
  {
    assert OnLightest(Empty(n), ws, place, j);
    assert Empty(n)[b] == 0 && Empty(n)[place[j]] == 0;
  }

  /** No weight on any of `n` bins. */
  function Empty(n: nat): (r: seq<nat>)
    ensures |r| == n && forall b :: 0 <= b < n ==> r[b] == 0
  {
    seq(n, _ => 0)
  }

  lemma LoadGrows(ws: seq<nat>, place: seq<nat>, j: nat, b: nat)
    requires |place| == |ws| && j < |ws|
    ensures LoadOf(ws[..j + 1], place[..j + 1], b) ==
            LoadOf(ws[..j], place[..j], b) + (if place[j] == b then ws[j] else 0)
  {
    assert ws[..j + 1][..j] == ws[..j] && place[..j + 1][..j] == place[..j];
  }

  lemma {:induction false} LoadMonotone(ws: seq<nat>, place: seq<nat>, i: nat, j: nat, b: nat)
    requires |place| == |ws| && i <= j <= |ws|
    ensures LoadOf(ws[..i], place[..i], b) <= LoadOf(ws[..j], place[..j], b)
  {
    if i < j {
      LoadMonotone(ws, place, i, j - 1, b);
      LoadGrows(ws, place, j - 1, b);
    }
  }

  // ── the fullest and the emptiest ───────────────────────────────────────────

  /** No two bins of a greedy placement from empty differ by more than the heaviest weight. */
  lemma {:induction false} GapAtMostHeaviest(n: nat, ws: seq<nat>, place: seq<nat>, j: nat, heaviest: nat, b: nat,
                                             c: nat)
    requires IsGreedy(Empty(n), ws, place) && j <= |ws| && b < n && c < n
    requires forall i :: 0 <= i < |ws| ==> ws[i] <= heaviest
    ensures LoadOf(ws[..j], place[..j], b) <= LoadOf(ws[..j], place[..j], c) + heaviest
  {
    if j > 0 {
      LoadGrows(ws, place, j - 1, b);
      LoadGrows(ws, place, j - 1, c);
      GapAtMostHeaviest(n, ws, place, j - 1, heaviest, b, c);
      LightestOf(n, ws, place, j - 1, c);
    }
  }

  // ── all the bins together ──────────────────────────────────────────────────

  ghost function Loads(ws: seq<nat>, place: seq<nat>): nat -> nat
    requires |place| == |ws|
  {
    (b: nat) => LoadOf(ws, place, b)
  }

  ghost function Sum(ws: seq<nat>): nat {
    if ws == [] then 0 else Sum(ws[..|ws| - 1]) + ws[|ws| - 1]
  }

  lemma {:induction false} LoadsAddUp(ws: seq<nat>, place: seq<nat>, n: nat)
    requires |place| == |ws| && Fits(place, n)
    ensures Over(Range(n), Loads(ws, place)) == Sum(ws)
  {
    if ws == [] {
      OverZero(Range(n), Loads(ws, place));
    } else {
      var k := |ws| - 1;
      LoadsAddUp(ws[..k], place[..k], n);
      OverChangeAt(Range(n), place[k], Loads(ws[..k], place[..k]), Loads(ws, place));
    }
  }

  lemma {:induction false} OverAtLeast<T>(xs: seq<T>, f: T -> nat, each: nat)
    requires forall i :: 0 <= i < |xs| ==> f(xs[i]) >= each
    ensures Over(xs, f) >= each * |xs|
  {
    if xs != [] {
      assert forall i :: 0 <= i < |xs| - 1 ==> xs[1..][i] == xs[i + 1];
      OverAtLeast(xs[1..], f, each);
    }
  }

  lemma {:induction false} SumSplit(ws: seq<nat>, j: nat)
    requires j < |ws|
    ensures Sum(ws[..j]) + ws[j] <= Sum(ws)
  {
    if j < |ws| - 1 {
      SumSplit(ws[..|ws| - 1], j);
      assert ws[..|ws| - 1][..j] == ws[..j];
    }
  }

  // ── against any other placement ────────────────────────────────────────────

  ghost predicate HeaviestFirst(ws: seq<nat>) {
    forall i, j :: 0 <= i <= j < |ws| ==> ws[i] >= ws[j]
  }

  /** Every bin of `other` holds at most `most`. */
  ghost predicate Within(ws: seq<nat>, other: seq<nat>, n: nat, most: nat) {
    |other| == |ws| && Fits(other, n) && forall b :: 0 <= b < n ==> LoadOf(ws, other, b) <= most
  }

  /** What a weight counts for beside one of weight `p`: two when the two don't fit one bin. */
  ghost function Credit(w: nat, p: nat, most: nat): nat {
    if w + p > most then 2 else 1
  }

  ghost function Credits(ws: seq<nat>, p: nat, most: nat): seq<nat> {
    seq(|ws|, i requires 0 <= i < |ws| => Credit(ws[i], p, most))
  }

  /** A bin with fewer than two credits still has room for `p`. */
  lemma {:induction false} FewCreditsLeaveRoom(ws: seq<nat>, place: seq<nat>, j: nat, b: nat, p: nat, most: nat)
    requires |place| == |ws| && j <= |ws| && p <= most
    ensures var cs := Credits(ws, p, most);
            var credit := LoadOf(cs[..j], place[..j], b);
            && (credit == 0 ==> LoadOf(ws[..j], place[..j], b) == 0)
            && (credit <= 1 ==> LoadOf(ws[..j], place[..j], b) + p <= most)
  {
    if j > 0 {
      FewCreditsLeaveRoom(ws, place, j - 1, b, p, most);
      LoadGrows(ws, place, j - 1, b);
      LoadGrows(Credits(ws, p, most), place, j - 1, b);
    }
  }

  /** A bin of three or more credits, of weights no lighter than `p` and `p` over a third of
      `most`, holds more than `most`. */
  lemma {:induction false} CreditsFillBin(ws: seq<nat>, place: seq<nat>, j: nat, b: nat, p: nat, most: nat)
    requires |place| == |ws| && j <= |ws| && 3 * p > most
    requires forall i :: 0 <= i < j ==> ws[i] >= p
    requires LoadOf(ws[..j], place[..j], b) <= most
    ensures var load := LoadOf(ws[..j], place[..j], b);
            var credit := LoadOf(Credits(ws, p, most)[..j], place[..j], b);
            && credit <= 2
            && (credit == 1 ==> load >= p)
            && (credit == 2 ==> load >= 2 * p || load + p > most)
  {
    if j > 0 {
      LoadGrows(ws, place, j - 1, b);
      LoadGrows(Credits(ws, p, most), place, j - 1, b);
      CreditsFillBin(ws, place, j - 1, b, p, most);
    }
  }

  lemma WeightWithin(ws: seq<nat>, other: seq<nat>, n: nat, most: nat, j: nat)
    requires Within(ws, other, n, most) && j < |ws|
    ensures ws[j] <= most
  {
    LoadGrows(ws, other, j, other[j]);
    LoadMonotone(ws, other, j + 1, |ws|, other[j]);
    assert ws[..|ws|] == ws && other[..|ws|] == other;
  }

  /** A weight over a third of the best bin never takes its own bin past it: before it each bin
      would have two credits, and with it that is one more than any placement has room for. */
  lemma BigWeightFits(n: nat, ws: seq<nat>, place: seq<nat>, other: seq<nat>, most: nat, j: nat)
    requires IsGreedy(Empty(n), ws, place) && HeaviestFirst(ws) && Within(ws, other, n, most)
    requires j < |ws| && 3 * ws[j] > most
    ensures LoadOf(ws[..j], place[..j], place[j]) + ws[j] <= most
  {
    var p := ws[j];
    WeightWithin(ws, other, n, most, j);
    if LoadOf(ws[..j], place[..j], place[j]) + p > most {
      var cs := Credits(ws, p, most);
      assert cs[..j + 1][..j] == cs[..j];
      assert Sum(cs[..j + 1]) == Sum(cs[..j]) + cs[j];
      forall b: nat | b < n ensures LoadOf(cs[..j], place[..j], b) >= 2 {
        FewCreditsLeaveRoom(ws, place, j, b, p, most);
        LightestOf(n, ws, place, j, b);
      }
      OverAtLeast(Range(n), Loads(cs[..j], place[..j]), 2);
      LoadsAddUp(cs[..j], place[..j], n);
      var (next, prefix) := (cs[..j + 1], other[..j + 1]);
      forall b: nat | b < n ensures LoadOf(next, prefix, b) <= 2 {
        LoadMonotone(ws, other, j + 1, |ws|, b);
        assert ws[..|ws|] == ws && other[..|ws|] == other;
        CreditsFillBin(ws, other, j + 1, b, p, most);
      }
      OverBounded(Range(n), Loads(cs[..j + 1], other[..j + 1]), 2);
      LoadsAddUp(cs[..j + 1], other[..j + 1], n);
    }
  }

  /** The lightest bin holds no more than its share of what is placed. */
  lemma LightestAtMostMean(n: nat, ws: seq<nat>, place: seq<nat>, j: nat)
    requires IsGreedy(Empty(n), ws, place) && j < |ws|
    ensures n * LoadOf(ws[..j], place[..j], place[j]) <= Sum(ws[..j])
  {
    var least := LoadOf(ws[..j], place[..j], place[j]);
    forall b: nat | b < n ensures LoadOf(ws[..j], place[..j], b) >= least {
      LightestOf(n, ws, place, j, b);
    }
    OverAtLeast(Range(n), Loads(ws[..j], place[..j]), least);
    LoadsAddUp(ws[..j], place[..j], n);
  }

  lemma {:induction false} LastOnBin(ws: seq<nat>, place: seq<nat>, b: nat) returns (j: nat)
    requires |place| == |ws| && LoadOf(ws, place, b) > 0
    ensures j < |ws| && place[j] == b
    ensures LoadOf(ws, place, b) == LoadOf(ws[..j], place[..j], b) + ws[j]
  {
    var n := |ws| - 1;
    if place[n] == b {
      j := n;
    } else {
      j := LastOnBin(ws[..n], place[..n], b);
      assert ws[..n][..j] == ws[..j] && place[..n][..j] == place[..j];
    }
  }

  /** Before the last weight `p` on bin `b`, the bin holds no more than its share of the rest. */
  lemma LastWeight(n: nat, ws: seq<nat>, place: seq<nat>, other: seq<nat>, most: nat, b: nat)
    returns (j: nat, before: nat, p: nat)
    requires IsGreedy(Empty(n), ws, place) && Within(ws, other, n, most) && b < n && LoadOf(ws, place, b) > 0
    ensures j < |ws| && place[j] == b && p == ws[j] && before == LoadOf(ws[..j], place[..j], b)
    ensures LoadOf(ws, place, b) == before + p
    ensures n * before + p <= n * most && p <= most
  {
    j := LastOnBin(ws, place, b);
    before, p := LoadOf(ws[..j], place[..j], b), ws[j];
    LightestAtMostMean(n, ws, place, j);
    SumSplit(ws, j);
    WeightWithin(ws, other, n, most, j);
    OverBounded(Range(n), Loads(ws, other), most);
    LoadsAddUp(ws, other, n);
  }

  /** In heaviest-first order, the fullest of n bins holds at most 4/3 - 1/(3n) times what the
      fullest bin of any other placement does. */
  lemma WithinFourThirds(n: nat, ws: seq<nat>, place: seq<nat>, other: seq<nat>, most: nat, b: nat)
    requires IsGreedy(Empty(n), ws, place) && HeaviestFirst(ws) && Within(ws, other, n, most) && b < n
    ensures 3 * n * LoadOf(ws, place, b) <= (4 * n - 1) * most
  {
    var load := LoadOf(ws, place, b);
    if load <= most {
      NoMoreThan(n, load, most);
    } else {
      var before, p := OverMost(n, ws, place, other, most, b);
      FourThirds(n, before, p, most);
    }
  }

  /** Only a weight no more than a third of `most` can be the last on a bin past it. */
  lemma OverMost(n: nat, ws: seq<nat>, place: seq<nat>, other: seq<nat>, most: nat, b: nat)
    returns (before: nat, p: nat)
    requires IsGreedy(Empty(n), ws, place) && HeaviestFirst(ws) && Within(ws, other, n, most) && b < n
    requires LoadOf(ws, place, b) > most
    ensures LoadOf(ws, place, b) == before + p && n * before + p <= n * most && 3 * p <= most
  {
    var j;
    j, before, p := LastWeight(n, ws, place, other, most, b);
    if 3 * p > most {
      BigWeightFits(n, ws, place, other, most, j);
    }
  }

  lemma Distribute(a: int, b: int, c: int)
    ensures a * (b + c) == a * b + a * c && (b + c) * a == a * b + a * c
  {
  }

  lemma Scaled(n: nat, a: nat, b: nat)
    requires a <= b
    ensures n * a <= n * b
  {
  }

  /** (k n - 1) m, multiplied out. */
  lemma Bound(k: nat, n: nat, most: nat)
    ensures (k * n - 1) * most == k * (n * most) - most
  {
    Distribute(most, k * n, -1);
    assert k * n * most == k * (n * most);
  }

  lemma NoMoreThan(n: nat, load: nat, most: nat)
    requires n > 0 && load <= most
    ensures 3 * n * load <= (4 * n - 1) * most
  {
    Bound(4, n, most);
    Scaled(n, load, most);
    Scaled(most, 1, n);
    assert 3 * n * load == 3 * (n * load);
  }

  lemma FourThirds(n: nat, before: nat, p: nat, most: nat)
    requires n > 0 && n * before + p <= n * most && 3 * p <= most
    ensures 3 * n * (before + p) <= (4 * n - 1) * most
  {
    Bound(4, n, most);
    Distribute(n, before, p);
    assert 3 * n * (before + p) == 3 * (n * (before + p));
    Scaled(n - 1, 3 * p, most);
    Distribute(3 * p, n, -1);
    Distribute(most, n, -1);
    assert 3 * p * n == 3 * (n * p);
  }

  /** And at most 2 - 1/n times, whatever the order the weights come in. */
  lemma WithinTwice(n: nat, ws: seq<nat>, place: seq<nat>, other: seq<nat>, most: nat, b: nat)
    requires IsGreedy(Empty(n), ws, place) && Within(ws, other, n, most) && b < n
    ensures n * LoadOf(ws, place, b) <= (2 * n - 1) * most
  {
    var load := LoadOf(ws, place, b);
    if load <= most {
      NoMoreThanTwice(n, load, most);
    } else {
      var _, before, p := LastWeight(n, ws, place, other, most, b);
      Twice(n, before, p, most);
    }
  }

  lemma NoMoreThanTwice(n: nat, load: nat, most: nat)
    requires n > 0 && load <= most
    ensures n * load <= (2 * n - 1) * most
  {
    Bound(2, n, most);
    Scaled(n, load, most);
    Scaled(most, 1, n);
  }

  lemma Twice(n: nat, before: nat, p: nat, most: nat)
    requires n > 0 && n * before + p <= n * most && p <= most
    ensures n * (before + p) <= (2 * n - 1) * most
  {
    Bound(2, n, most);
    Distribute(n, before, p);
    Scaled(n - 1, p, most);
    Distribute(p, n, -1);
    Distribute(most, n, -1);
  }
}
