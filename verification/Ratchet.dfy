/** The list of unregistered notes may only shrink: `grown` of tools/check-guards-fire.py. */
module Ratchet {
  import opened Prelude

  // A note's key, `path::item`.
  type Key = string

  /** `str.partition("::")`: what comes before the first separator, and what comes after it. */
  function PathOf(key: Key): string {
    if key == "" || "::" <= key then "" else [key[0]] + PathOf(key[1..])
  }

  function ItemOf(key: Key): string {
    if key == "" then "" else if "::" <= key then key[2..] else ItemOf(key[1..])
  }

  /** A rename keeps the path, a move keeps the item. */
  predicate Shares(a: Key, b: Key) {
    PathOf(a) == PathOf(b) || ItemOf(a) == ItemOf(b)
  }

  lemma {:induction false} PartitionIsWhole(key: Key)
    ensures key == PathOf(key) || key == PathOf(key) + "::" + ItemOf(key)
  {
    if key != "" && !("::" <= key) {
      PartitionIsWhole(key[1..]);
    }
  }

  /** No separator starts inside what comes before the first one. */
  lemma {:induction false} PartitionIsFirst(key: Key, i: nat)
    requires i < |PathOf(key)|
    ensures i < |key| && !("::" <= key[i..])
  {
    if i > 0 {
      PartitionIsFirst(key[1..], i - 1);
      assert key[i..] == key[1..][i - 1..];
    }
  }

  // ── the keys that stand for themselves ─────────────────────────────────────

  function Without<T(==)>(xs: seq<T>, gone: seq<T>): seq<T> {
    if xs == [] then []
    else (if xs[0] in gone then [] else [xs[0]]) + Without(xs[1..], gone)
  }

  function Vacated(base: seq<Key>, listed: seq<Key>, notes: set<Key>): seq<Key> {
    if base == [] then []
    else (if base[0] !in listed && base[0] !in notes then [base[0]] else []) + Vacated(base[1..], listed, notes)
  }

  lemma {:induction false} WithoutHolds<T(!new)>(xs: seq<T>, gone: seq<T>)
    requires NoDuplicates(xs)
    ensures NoDuplicates(Without(xs, gone))
    ensures forall x :: x in Without(xs, gone) <==> x in xs && x !in gone
  {
    if xs != [] {
      WithoutHolds(xs[1..], gone);
    }
  }

  lemma {:induction false} VacatedHolds(base: seq<Key>, listed: seq<Key>, notes: set<Key>)
    requires NoDuplicates(base)
    ensures NoDuplicates(Vacated(base, listed, notes))
    ensures forall k :: k in Vacated(base, listed, notes) <==> k in base && k !in listed && k !in notes
  {
    if base != [] {
      VacatedHolds(base[1..], listed, notes);
    }
  }

  // ── each new key takes the first vacated key it shares something with ──────

  function Partner(vacated: seq<Key>, key: Key): (i: nat)
    ensures i <= |vacated| && (i < |vacated| ==> Shares(vacated[i], key))
    ensures forall j :: 0 <= j < i ==> !Shares(vacated[j], key)
  {
    if vacated == [] || Shares(vacated[0], key) then 0 else 1 + Partner(vacated[1..], key)
  }

  function Drop<T>(xs: seq<T>, i: nat): seq<T>
    requires i < |xs|
  {
    xs[..i] + xs[i + 1..]
  }

  function Unpaired(keys: seq<Key>, vacated: seq<Key>): seq<Key>
    decreases |keys|
  {
    if keys == [] then []
    else
      var i := Partner(vacated, keys[0]);
      if i == |vacated| then [keys[0]] + Unpaired(keys[1..], vacated) else Unpaired(keys[1..], Drop(vacated, i))
  }

  ghost function Moves(keys: seq<Key>, vacated: seq<Key>): map<Key, Key>
    decreases |keys|
  {
    if keys == [] then map[]
    else
      var i := Partner(vacated, keys[0]);
      if i == |vacated| then Moves(keys[1..], vacated) else Moves(keys[1..], Drop(vacated, i))[keys[0] := vacated[i]]
  }

  method FindPartner(vacated: seq<Key>, key: Key) returns (i: nat)
    ensures i == Partner(vacated, key)
  {
    i := 0;
    while i < |vacated| && !Shares(vacated[i], key)
      invariant i <= |vacated| && Partner(vacated, key) == i + Partner(vacated[i..], key)
    {
      assert vacated[i..][1..] == vacated[i + 1..];
      i := i + 1;
    }
  }

  function Growth(listed: seq<Key>, base: seq<Key>, notes: set<Key>): seq<Key> {
    Unpaired(Without(listed, base), Vacated(base, listed, notes))
  }

  method FindVacated(base: seq<Key>, listed: seq<Key>, notes: set<Key>) returns (vacated: seq<Key>)
    ensures vacated == Vacated(base, listed, notes)
  {
    vacated := [];
    for i := 0 to |base|
      invariant Vacated(base, listed, notes) == vacated + Vacated(base[i..], listed, notes)
    {
      VacatedStep(base, listed, notes, i);
      if base[i] !in listed && base[i] !in notes {
        Regroup(vacated, base[i], Vacated(base[i + 1..], listed, notes));
        vacated := vacated + [base[i]];
      }
    }
  }

  lemma VacatedStep(base: seq<Key>, listed: seq<Key>, notes: set<Key>, i: nat)
    requires i < |base|
    ensures var (here, next) := (Vacated(base[i..], listed, notes), Vacated(base[i + 1..], listed, notes));
      if base[i] !in listed && base[i] !in notes then here == [base[i]] + next else here == next
  {
    assert base[i..][1..] == base[i + 1..];
  }

  lemma WithoutStep(listed: seq<Key>, base: seq<Key>, i: nat)
    requires i < |listed|
    ensures var (here, next) := (Without(listed[i..], base), Without(listed[i + 1..], base));
      if listed[i] in base then here == next else here == [listed[i]] + next
  {
    assert listed[i..][1..] == listed[i + 1..];
  }

  lemma UnpairedStep(key: Key, keys: seq<Key>, vacated: seq<Key>)
    ensures var i := Partner(vacated, key);
      Unpaired([key] + keys, vacated)
      == if i == |vacated| then [key] + Unpaired(keys, vacated) else Unpaired(keys, Drop(vacated, i))
  {
    assert ([key] + keys)[1..] == keys;
  }

  lemma Regroup<T>(out: seq<T>, x: T, rest: seq<T>)
    ensures out + ([x] + rest) == out + [x] + rest
  {
  }

  /** `grown`: each new key takes a vacated one while it can; the keys that can't are the growth. */
  method Grown(listed: seq<Key>, base: seq<Key>, notes: set<Key>) returns (out: seq<Key>)
    ensures out == Growth(listed, base, notes)
  {
    var vacated := FindVacated(base, listed, notes);
    out := [];
    for i := 0 to |listed|
      invariant Growth(listed, base, notes) == out + Unpaired(Without(listed[i..], base), vacated)
    {
      var key := listed[i];
      WithoutStep(listed, base, i);
      if key !in base {
        UnpairedStep(key, Without(listed[i + 1..], base), vacated);
        var pair := FindPartner(vacated, key);
        if pair == |vacated| {
          Regroup(out, key, Unpaired(Without(listed[i + 1..], base), vacated));
          out := out + [key];
        } else {
          vacated := Drop(vacated, pair);
        }
      }
    }
  }

  // ── what the pairing is ────────────────────────────────────────────────────

  /** Each key is paired with one vacated key of its own that it shares its path or item with. */
  ghost predicate Matching(moves: map<Key, Key>, keys: seq<Key>, vacated: seq<Key>) {
    && (forall k :: k in moves ==> k in keys && moves[k] in vacated && Shares(moves[k], k))
    && (forall j, k :: j in moves && k in moves && j != k ==> moves[j] != moves[k])
  }

  /** No key left over shares anything with a vacated key left over. */
  ghost predicate Maximal(moves: map<Key, Key>, keys: seq<Key>, vacated: seq<Key>) {
    forall k, v :: k in keys && k !in moves && v in vacated && v !in moves.Values ==> !Shares(v, k)
  }

  lemma DropHolds<T(!new)>(xs: seq<T>, i: nat)
    requires i < |xs| && NoDuplicates(xs)
    ensures NoDuplicates(Drop(xs, i))
    ensures forall x :: x in Drop(xs, i) <==> x in xs && x != xs[i]
  {
    forall x | x in xs && x != xs[i] ensures x in Drop(xs, i) {
      var j :| 0 <= j < |xs| && xs[j] == x;
      assert j < i ==> Drop(xs, i)[j] == x;
      assert j > i ==> Drop(xs, i)[j - 1] == x;
    }
  }

  lemma {:induction false} MovesMatch(keys: seq<Key>, vacated: seq<Key>)
    requires NoDuplicates(keys) && NoDuplicates(vacated)
    ensures Matching(Moves(keys, vacated), keys, vacated)
    ensures forall k :: k in Unpaired(keys, vacated) <==> k in keys && k !in Moves(keys, vacated)
    ensures NoDuplicates(Unpaired(keys, vacated))
    decreases |keys|
  {
    if keys != [] {
      var i := Partner(vacated, keys[0]);
      if i == |vacated| {
        MovesMatch(keys[1..], vacated);
        assert keys[0] !in Unpaired(keys[1..], vacated);
      } else {
        DropHolds(vacated, i);
        MovesMatch(keys[1..], Drop(vacated, i));
      }
    }
  }

  lemma {:induction false} MovesMaximal(keys: seq<Key>, vacated: seq<Key>)
    requires NoDuplicates(keys) && NoDuplicates(vacated)
    ensures Maximal(Moves(keys, vacated), keys, vacated)
    decreases |keys|
  {
    if keys != [] {
      var (i, moves) := (Partner(vacated, keys[0]), Moves(keys, vacated));
      if i == |vacated| {
        MovesMatch(keys[1..], vacated);
        MovesMaximal(keys[1..], vacated);
      } else {
        DropHolds(vacated, i);
        var rest := Moves(keys[1..], Drop(vacated, i));
        MovesMatch(keys[1..], Drop(vacated, i));
        MovesMaximal(keys[1..], Drop(vacated, i));
        assert moves[keys[0]] == vacated[i];
        forall k, v | k in keys && k !in moves && v in vacated && v !in moves.Values ensures !Shares(v, k) {
          assert v != vacated[i] && k in keys[1..] && k !in rest;
          assert forall j :: j in rest ==> j in moves && moves[j] == rest[j];
        }
      }
    }
  }

  // ── the ratchet ────────────────────────────────────────────────────────────

  ghost function Elements<T>(xs: seq<T>): set<T> {
    set x | x in xs
  }

  lemma {:induction false} ElementsSize<T(!new)>(xs: seq<T>)
    requires NoDuplicates(xs)
    ensures |Elements(xs)| == |xs|
  {
    if xs != [] {
      ElementsSize(xs[1..]);
      assert Elements(xs) == Elements(xs[1..]) + {xs[0]};
    }
  }

  lemma {:induction false} ImageSize(moves: map<Key, Key>, keys: set<Key>, values: set<Key>)
    requires keys <= moves.Keys && forall k :: k in keys ==> moves[k] in values
    requires forall j, k :: j in keys && k in keys && j != k ==> moves[j] != moves[k]
    ensures |keys| <= |values|
    decreases keys
  {
    if k :| k in keys {
      ImageSize(moves, keys - {k}, values - {moves[k]});
    }
  }

  /** Every new key but those returned is paid for by a base key, and no two by the same one. */
  lemma GrownIsBounded(listed: seq<Key>, base: seq<Key>, notes: set<Key>)
    requires NoDuplicates(listed) && NoDuplicates(base)
    ensures |listed| <= |base| + |Growth(listed, base, notes)|
  {
    var (fresh', vacated) := (Without(listed, base), Vacated(base, listed, notes));
    WithoutHolds(listed, base);
    VacatedHolds(base, listed, notes);
    MovesMatch(fresh', vacated);
    var (moves, out) := (Moves(fresh', vacated), Growth(listed, base, notes));
    var (l, b) := (Elements(listed), Elements(base));
    ElementsSize(listed);
    ElementsSize(base);
    ElementsSize(out);
    ImageSize(moves, moves.Keys, b - l);
    ThreeParts(l, b, Elements(out), moves.Keys);
  }

  lemma ThreeParts<T>(l: set<T>, b: set<T>, out: set<T>, moved: set<T>)
    requires forall k :: k in l && k !in b ==> k in out || k in moved
    requires |moved| <= |b - l|
    ensures |l| <= |b| + |out|
  {
    SubsetSize(l - b, out + moved);
    assert l == l * b + (l - b);
    assert b == l * b + (b - l);
  }

  predicate Passes(listed: seq<Key>, base: seq<Key>, notes: set<Key>) {
    Growth(listed, base, notes) == []
  }

  /** The list after each of some merges, each compared with the one before it. */
  ghost predicate Merges(lists: seq<seq<Key>>, notes: seq<set<Key>>) {
    && |notes| == |lists|
    && (forall i :: 0 <= i < |lists| ==> NoDuplicates(lists[i]))
    && (forall i :: 0 < i < |lists| ==> Passes(lists[i], lists[i - 1], notes[i]))
  }

  /** Over any merges that pass, the list never gets longer. */
  lemma {:induction false} NeverLonger(lists: seq<seq<Key>>, notes: seq<set<Key>>, i: nat, j: nat)
    requires Merges(lists, notes) && i <= j < |lists|
    ensures |lists[j]| <= |lists[i]|
  {
    if i < j {
      NeverLonger(lists, notes, i, j - 1);
      assert Passes(lists[j], lists[j - 1], notes[j]);
      GrownIsBounded(lists[j], lists[j - 1], notes[j]);
    }
  }

  /** A key is passed just when it was listed before or some base key that is gone, note and all,
      stands for it and for no other. */
  lemma PassedOnlyByMove(listed: seq<Key>, base: seq<Key>, notes: set<Key>) returns (moves: map<Key, Key>)
    requires NoDuplicates(listed) && NoDuplicates(base)
    ensures forall k :: k in listed && k !in Growth(listed, base, notes) <==> k in listed && (k in base || k in moves)
    ensures forall k :: k in moves ==>
      k in listed && k !in base && moves[k] in base && moves[k] !in listed && moves[k] !in notes && Shares(moves[k], k)
    ensures forall j, k :: j in moves && k in moves && j != k ==> moves[j] != moves[k]
    ensures forall k, v ::
      (k in Growth(listed, base, notes) && v in base && v !in listed && v !in notes && v !in moves.Values) ==>
        !Shares(v, k)
  {
    var (fresh', vacated) := (Without(listed, base), Vacated(base, listed, notes));
    WithoutHolds(listed, base);
    VacatedHolds(base, listed, notes);
    MovesMatch(fresh', vacated);
    MovesMaximal(fresh', vacated);
    moves := Moves(fresh', vacated);
  }

  /** However the new keys could have been paired, taking the first partner pairs half as many. */
  lemma PairsAtLeastHalf(keys: seq<Key>, vacated: seq<Key>, best: map<Key, Key>)
    requires NoDuplicates(keys) && NoDuplicates(vacated) && Matching(best, keys, vacated)
    ensures |best| <= 2 * |Moves(keys, vacated)|
  {
    MovesMatch(keys, vacated);
    MovesMaximal(keys, vacated);
    var moves := Moves(keys, vacated);
    var (both, others) := (best.Keys * moves.Keys, best.Keys - moves.Keys);
    forall k | k in others ensures best[k] in moves.Values {
      assert Shares(best[k], k);
    }
    ImageSize(best, others, moves.Values);
    ValuesSize(moves);
    SubsetSize(both, moves.Keys);
    assert best.Keys == both + others;
  }

  lemma {:induction false} SubsetSize<T>(a: set<T>, b: set<T>)
    requires a <= b
    ensures |a| <= |b|
  {
    assert b == a + (b - a);
  }

  lemma {:induction false} ValuesSize(moves: map<Key, Key>)
    ensures |moves.Values| <= |moves|
    decreases |moves|
  {
    if k :| k in moves {
      var rest := moves - {k};
      ValuesSize(rest);
      forall v | v in moves.Values ensures v in rest.Values + {moves[k]} {
        var j :| j in moves && moves[j] == v;
        assert j != k ==> j in rest && rest[j] == v;
      }
      assert moves.Values <= rest.Values + {moves[k]};
      SubsetSize(moves.Values, rest.Values + {moves[k]});
      assert moves.Keys == rest.Keys + {k};
    }
  }
}
