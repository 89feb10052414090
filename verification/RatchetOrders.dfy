/** When `grown` passes a change of moves alone: in the order it is given, and in every order. */
module RatchetOrders {
  import opened Prelude
  import opened Ratchet

  /** Every new key is a move: each can be paired with a vacated key of its own. */
  ghost predicate AllMoves(keys: seq<Key>, vacated: seq<Key>) {
    exists best :: Matching(best, keys, vacated) && best.Keys == Elements(keys)
  }

  lemma NoneLeftAreMoves(keys: seq<Key>, vacated: seq<Key>)
    requires NoDuplicates(keys) && NoDuplicates(vacated) && Unpaired(keys, vacated) == []
    ensures AllMoves(keys, vacated)
  {
    MovesMatch(keys, vacated);
    forall k | k in keys ensures k in Moves(keys, vacated) {
      assert k !in Unpaired(keys, vacated);
    }
    assert Moves(keys, vacated).Keys == Elements(keys);
  }

  // ── in the order given ─────────────────────────────────────────────────────

  ghost predicate HasPartner(vacated: seq<Key>, k: Key) {
    exists v :: v in vacated && Shares(v, k)
  }

  ghost predicate AllHavePartners(keys: seq<Key>, vacated: seq<Key>) {
    forall k :: k in keys ==> HasPartner(vacated, k)
  }

  /** No key takes the last partner a later key has. */
  ghost predicate Spares(keys: seq<Key>, vacated: seq<Key>)
    decreases |keys|
  {
    keys == [] ||
    var i := Partner(vacated, keys[0]);
    var left := if i < |vacated| then Drop(vacated, i) else vacated;
    AllHavePartners(keys[1..], left) && Spares(keys[1..], left)
  }

  lemma PartnerFound(vacated: seq<Key>, k: Key)
    ensures Partner(vacated, k) < |vacated| <==> HasPartner(vacated, k)
  {
    if v :| v in vacated && Shares(v, k) {
      var j :| 0 <= j < |vacated| && vacated[j] == v;
    }
  }

  /** Nothing is left over exactly when every key has a partner to begin with and none takes the
      last one of another. */
  lemma {:induction false} NoneLeftOver(keys: seq<Key>, vacated: seq<Key>)
    ensures Unpaired(keys, vacated) == [] <==> AllHavePartners(keys, vacated) && Spares(keys, vacated)
    decreases |keys|
  {
    if keys != [] {
      var i := Partner(vacated, keys[0]);
      PartnerFound(vacated, keys[0]);
      if i < |vacated| {
        NoneLeftOver(keys[1..], Drop(vacated, i));
        if Unpaired(keys, vacated) == [] {
          FewerPartners(keys[1..], vacated, i);
        }
      }
    }
  }

  lemma FewerPartners(keys: seq<Key>, vacated: seq<Key>, i: nat)
    requires i < |vacated| && AllHavePartners(keys, Drop(vacated, i))
    ensures AllHavePartners(keys, vacated)
  {
    forall k | k in keys ensures HasPartner(vacated, k) {
      var v :| v in Drop(vacated, i) && Shares(v, k);
      assert v in vacated;
    }
  }

  lemma MovesHavePartners(keys: seq<Key>, vacated: seq<Key>)
    requires AllMoves(keys, vacated)
    ensures AllHavePartners(keys, vacated)
  {
    var best :| Matching(best, keys, vacated) && best.Keys == Elements(keys);
    forall k | k in keys ensures HasPartner(vacated, k) {
      assert k in best.Keys && best[k] in vacated;
    }
  }

  /** A change passes exactly when each of its new keys is a move and none of them, taking the first
      partner it has, takes the last one a later key had. */
  lemma PassesIff(listed: seq<Key>, base: seq<Key>, notes: set<Key>)
    requires NoDuplicates(listed) && NoDuplicates(base)
    ensures var (keys, vacated) := (Without(listed, base), Vacated(base, listed, notes));
            Passes(listed, base, notes) <==> AllMoves(keys, vacated) && Spares(keys, vacated)
  {
    var (keys, vacated) := (Without(listed, base), Vacated(base, listed, notes));
    WithoutHolds(listed, base);
    VacatedHolds(base, listed, notes);
    NoneLeftOver(keys, vacated);
    if AllMoves(keys, vacated) {
      MovesHavePartners(keys, vacated);
    } else if Passes(listed, base, notes) {
      NoneLeftAreMoves(keys, vacated);
    }
  }

  /** No new key has a choice of partner. */
  ghost predicate NoChoice(keys: seq<Key>, vacated: seq<Key>) {
    forall k, v, w :: k in keys && v in vacated && w in vacated && Shares(v, k) && Shares(w, k) ==> v == w
  }

  /** Where none has, a change passes exactly when each of its new keys is a move. */
  lemma PassesWithoutChoice(listed: seq<Key>, base: seq<Key>, notes: set<Key>)
    requires NoDuplicates(listed) && NoDuplicates(base)
    requires NoChoice(Without(listed, base), Vacated(base, listed, notes))
    ensures Passes(listed, base, notes) <==> AllMoves(Without(listed, base), Vacated(base, listed, notes))
  {
    var (keys, vacated) := (Without(listed, base), Vacated(base, listed, notes));
    WithoutHolds(listed, base);
    VacatedHolds(base, listed, notes);
    if Unpaired(keys, vacated) == [] {
      NoneLeftAreMoves(keys, vacated);
    } else if AllMoves(keys, vacated) {
      var best :| Matching(best, keys, vacated) && best.Keys == Elements(keys);
      var u := Unpaired(keys, vacated)[0];
      MovesMatch(keys, vacated);
      assert u in keys && u in Unpaired(keys, vacated);
      TakesItsOwn(keys, vacated, best, u);
    }
  }

  /** Without a choice a key can only take the partner it has in any pairing. */
  lemma TakesItsOwn(keys: seq<Key>, vacated: seq<Key>, best: map<Key, Key>, u: Key)
    requires NoDuplicates(keys) && NoDuplicates(vacated) && NoChoice(keys, vacated)
    requires Matching(best, keys, vacated) && best.Keys == Elements(keys) && u in keys
    ensures u !in Unpaired(keys, vacated)
  {
    MovesMatch(keys, vacated);
    MovesMaximal(keys, vacated);
    var moves := Moves(keys, vacated);
    assert u in best.Keys && Shares(best[u], u);
    if best[u] in moves.Values {
      var k :| k in moves && moves[k] == best[u];
      assert k in best.Keys && Shares(best[k], k) && Shares(moves[k], k);
    }
  }

  /** Two keys for two places, and the first takes the only one the second has. */
  lemma FirstTakesTheOnlyOne(first: Key, second: Key, left: Key, right: Key)
    requires first != second && left != right && first != left && first != right && second != left && second != right
    requires Shares(left, first) && Shares(right, first) && Shares(left, second) && !Shares(right, second)
    ensures Growth([first, second], [left, right], {}) == [second]
    ensures AllMoves([first, second], [left, right]) && !Spares([first, second], [left, right])
    ensures !NoChoice([first, second], [left, right])
  {
    var (listed, base) := ([first, second], [left, right]);
    GrowthOfTwo(first, second, left, right);
    var best := map[first := right, second := left];
    assert best.Keys == Elements(listed) && Matching(best, listed, base);
    assert first in listed && left in base && right in base;
    NoneLeftOver(listed, base);
    MovesHavePartners(listed, base);
  }

  lemma GrowthOfTwo(first: Key, second: Key, left: Key, right: Key)
    requires first != second && left != right && first != left && first != right && second != left && second != right
    requires Shares(left, first) && !Shares(right, second)
    ensures Unpaired([first, second], [left, right]) == [second]
    ensures Growth([first, second], [left, right], {}) == [second]
  {
    var (listed, base) := ([first, second], [left, right]);
    assert listed[1..] == [second] && base[1..] == [right];
    assert left !in listed && right !in listed && first !in base && second !in base;
    assert Without(listed[1..], base) == [second];
    assert Without(listed, base) == [first] + [second];
    assert Vacated(base[1..], listed, {}) == [right];
    assert Vacated(base, listed, {}) == [left] + [right];
    assert Partner(base, first) == 0 && Drop(base, 0) == [right];
    assert Partner([right], second) == 1 && Unpaired([second], [right]) == [second];
  }

  /** There are such keys. */
  lemma FirstPartnerCanTakeTheOnlyOne()
    ensures Growth(["a::x", "b::y"], ["a::y", "a::z"], {}) == ["b::y"]
    ensures AllMoves(["a::x", "b::y"], ["a::y", "a::z"]) && !Spares(["a::x", "b::y"], ["a::y", "a::z"])
    ensures !NoChoice(["a::x", "b::y"], ["a::y", "a::z"])
  {
    HalvesOf("a::x", "a", "x");
    HalvesOf("b::y", "b", "y");
    HalvesOf("a::y", "a", "y");
    HalvesOf("a::z", "a", "z");
    FirstTakesTheOnlyOne("a::x", "b::y", "a::y", "a::z");
  }

  lemma HalvesOf(key: Key, path: string, item: string)
    requires |path| == 1 && path != ":" && key == path + "::" + item
    ensures PathOf(key) == path && ItemOf(key) == item
  {
    assert key[1..] == "::" + item && key[1..][2..] == item;
  }

  // ── in every order ─────────────────────────────────────────────────────────

  /** Those of `keys` that share something with one of `vacated`. */
  ghost function Sharing(vacated: set<Key>, keys: set<Key>): set<Key> {
    set k, v | k in keys && v in vacated && Shares(v, k) :: k
  }

  /** Some of `u`'s own partners, no fewer than the keys that could take them. */
  ghost predicate Secure(u: Key, keys: set<Key>, vacated: set<Key>) {
    exists some :: some != {} && some <= vacated && SharedBy(some, u) && |Sharing(some, keys)| <= |some|
  }

  ghost predicate SharedBy(some: set<Key>, u: Key) {
    forall v :: v in some ==> Shares(v, u)
  }

  ghost predicate Orders(xs: seq<Key>, all: set<Key>) {
    NoDuplicates(xs) && Elements(xs) == all
  }

  ghost predicate Enough(vacated: set<Key>, keys: set<Key>) {
    forall some :: some != {} && some <= vacated ==> |some| <= |Sharing(some, keys)|
  }

  /** Each vacated key is given a key of its own that shares something with it. */
  ghost predicate Married(to: map<Key, Key>, vacated: set<Key>, keys: set<Key>) {
    && to.Keys == vacated
    && (forall v :: v in to ==> to[v] in keys && Shares(v, to[v]))
    && (forall v, w :: v in to && w in to && v != w ==> to[v] != to[w])
  }

  /** Hall's theorem: with enough keys for every set of vacated ones, each can be given its own. */
  lemma {:induction false} Marry(vacated: set<Key>, keys: set<Key>) returns (to: map<Key, Key>)
    requires Enough(vacated, keys)
    ensures Married(to, vacated, keys)
    decreases |vacated|, 1
  {
    if vacated == {} {
      to := map[];
    } else if some :| some != {} && some < vacated && |Sharing(some, keys)| == |some| {
      to := MarryApart(vacated, keys, some);
    } else {
      to := MarryOne(vacated, keys);
    }
  }

  /** A set with just enough keys is given them, and leaves enough for the others. */
  lemma {:induction false} MarryApart(vacated: set<Key>, keys: set<Key>, some: set<Key>) returns (to: map<Key, Key>)
    requires Enough(vacated, keys) && some != {} && some < vacated && |Sharing(some, keys)| == |some|
    ensures Married(to, vacated, keys)
    decreases |vacated|, 0
  {
    var (others, rest) := (vacated - some, keys - Sharing(some, keys));
    Apart(vacated, some);
    EnoughWithin(vacated, keys, some);
    var near := Marry(some, keys);
    EnoughLeft(vacated, keys, some);
    var far := Marry(others, rest);
    MarriedBoth(near, far, some, others, keys);
    to := near + far;
  }

  lemma Apart(vacated: set<Key>, some: set<Key>)
    requires some != {} && some < vacated
    ensures |some| < |vacated| && |vacated - some| < |vacated| && some + (vacated - some) == vacated
  {
    SubsetSmaller(some, vacated);
    SubsetSmaller(vacated - some, vacated);
  }

  lemma EnoughWithin(vacated: set<Key>, keys: set<Key>, some: set<Key>)
    requires Enough(vacated, keys) && some <= vacated
    ensures Enough(some, keys)
  {
  }

  lemma EnoughLeft(vacated: set<Key>, keys: set<Key>, some: set<Key>)
    requires Enough(vacated, keys) && some != {} && some < vacated && |Sharing(some, keys)| == |some|
    ensures Enough(vacated - some, keys - Sharing(some, keys))
  {
    forall more | more != {} && more <= vacated - some ensures |more| <= |Sharing(more, keys - Sharing(some, keys))| {
      assert some + more != {} && some + more <= vacated;
      SharingSplits(some, more, keys);
    }
  }

  lemma MarriedBoth(near: map<Key, Key>, far: map<Key, Key>, some: set<Key>, others: set<Key>, keys: set<Key>)
    requires Married(near, some, keys) && Married(far, others, keys - Sharing(some, keys)) && some !! others
    ensures Married(near + far, some + others, keys)
  {
    var to := near + far;
    assert to.Keys == some + others;
    forall v | v in near ensures near[v] in Sharing(some, keys) && to[v] == near[v] {
      assert Shares(v, near[v]);
    }
    forall v | v in far ensures far[v] !in Sharing(some, keys) && to[v] == far[v] {
    }
  }

  /** When every smaller set has a key to spare, one can be given any of its own. */
  lemma {:induction false} MarryOne(vacated: set<Key>, keys: set<Key>) returns (to: map<Key, Key>)
    requires Enough(vacated, keys) && vacated != {}
    requires forall some :: some != {} && some < vacated ==> |Sharing(some, keys)| != |some|
    ensures Married(to, vacated, keys)
    decreases |vacated|, 0
  {
    var v :| v in vacated;
    assert {v} != {} && {v} <= vacated;
    assert |Sharing({v}, keys)| >= |{v}|;
    var k :| k in Sharing({v}, keys);
    SubsetSmaller(vacated - {v}, vacated);
    forall more | more != {} && more <= vacated - {v} ensures |more| <= |Sharing(more, keys - {k})| {
      assert more < vacated && |more| <= |Sharing(more, keys)|;
      assert Sharing(more, keys - {k}) == Sharing(more, keys) - {k};
    }
    var rest := Marry(vacated - {v}, keys - {k});
    to := rest[v := k];
  }

  lemma SubsetSmaller<T>(a: set<T>, b: set<T>)
    requires a < b
    ensures |a| < |b|
  {
    assert b == a + (b - a) && b - a != {};
  }

  lemma SharingSplits(some: set<Key>, more: set<Key>, keys: set<Key>)
    requires some !! more && |Sharing(some, keys)| == |some|
    requires |some + more| <= |Sharing(some + more, keys)|
    ensures |more| <= |Sharing(more, keys - Sharing(some, keys))|
  {
    var (near, far) := (Sharing(some, keys), Sharing(more, keys - Sharing(some, keys)));
    assert Sharing(some + more, keys) == near + far;
    assert |some + more| == |some| + |more| && |near + far| == |near| + |far|;
  }

  lemma {:induction false} CoverSize(moves: map<Key, Key>, some: set<Key>)
    requires some <= moves.Values
    ensures |some| <= |set k | k in moves && moves[k] in some|
    decreases some
  {
    var takers := set k | k in moves && moves[k] in some;
    if v :| v in some {
      var k :| k in moves && moves[k] == v;
      CoverSize(moves, some - {v});
      var rest := set j | j in moves && moves[j] in some - {v};
      assert k in takers && k !in rest && rest <= takers;
      SubsetSmaller(rest, takers);
    }
  }

  /** A secure key is never left over: its partners would all be taken, by too few keys. */
  lemma SecureIsPaired(keys: seq<Key>, vacated: seq<Key>, u: Key)
    requires NoDuplicates(keys) && NoDuplicates(vacated) && u in keys
    requires Secure(u, Elements(keys), Elements(vacated))
    ensures u !in Unpaired(keys, vacated)
  {
    MovesMatch(keys, vacated);
    MovesMaximal(keys, vacated);
    var moves := Moves(keys, vacated);
    if u !in moves {
      var some :| some != {} && some <= Elements(vacated) && SharedBy(some, u)
                  && |Sharing(some, Elements(keys))| <= |some|;
      forall v | v in some ensures v in moves.Values {
        assert v in vacated && Shares(v, u);
      }
      CoverSize(moves, some);
      var takers := set k | k in moves && moves[k] in some;
      var all := Sharing(some, Elements(keys));
      var v :| v in some;
      assert u in all && u !in takers && takers <= all;
      SubsetSmaller(takers, all);
      assert false;
    }
  }

  /** Keys that each stand first for the vacated key they are given take them all. */
  lemma {:induction false} Taken(first: seq<Key>, to: map<Key, Key>, keys: seq<Key>, vacated: seq<Key>)
    requires forall v :: v in first ==> v in to && Shares(v, to[v])
    ensures Unpaired(Images(first, to) + keys, first + vacated) == Unpaired(keys, vacated)
  {
    if first == [] {
      assert [] + keys == keys && [] + vacated == vacated;
    } else {
      var (all, places) := (Images(first, to) + keys, first + vacated);
      assert all[1..] == Images(first[1..], to) + keys && places[1..] == first[1..] + vacated;
      assert Partner(places, all[0]) == 0 && Drop(places, 0) == places[1..];
      Taken(first[1..], to, keys, vacated);
    }
  }

  ghost function Images(first: seq<Key>, to: map<Key, Key>): (r: seq<Key>)
    requires forall v :: v in first ==> v in to
    ensures |r| == |first| && forall i :: 0 <= i < |r| ==> r[i] == to[first[i]]
  {
    if first == [] then [] else [to[first[0]]] + Images(first[1..], to)
  }

  lemma {:induction false} InSomeOrder(all: set<Key>) returns (xs: seq<Key>)
    ensures Orders(xs, all)
    decreases all
  {
    xs := [];
    if x :| x in all {
      var rest := InSomeOrder(all - {x});
      assert forall y :: y in rest ==> y in Elements(rest);
      xs := [x] + rest;
      assert Elements(xs) == {x} + Elements(rest);
    }
  }

  /** A key that isn't secure is left over in some order. */
  lemma InsecureIsLeftOver(keys: set<Key>, vacated: set<Key>, u: Key) returns (ks: seq<Key>, vs: seq<Key>)
    requires u in keys && !Secure(u, keys, vacated)
    ensures Orders(ks, keys) && Orders(vs, vacated) && u in Unpaired(ks, vs)
  {
    var mine := set v | v in vacated && Shares(v, u);
    forall some | some != {} && some <= mine ensures |some| <= |Sharing(some, keys - {u})| {
      assert SharedBy(some, u) && some <= vacated;
      assert |Sharing(some, keys)| > |some|;
      assert Sharing(some, keys - {u}) == Sharing(some, keys) - {u};
    }
    var to := Marry(mine, keys - {u});
    var first := InSomeOrder(mine);
    assert forall v :: v in first ==> v in Elements(first);
    var taken := Images(first, to);
    var rest := InSomeOrder(keys - Elements(taken));
    var others := InSomeOrder(vacated - mine);
    ks, vs := taken + rest, first + others;
    Taken(first, to, rest, others);
    ImagesApart(first, to, keys - {u});
    assert u in Elements(rest) && u in rest;
    MovesMatch(rest, others);
    forall v | v in others ensures !Shares(v, u) {
      assert v in Elements(others);
    }
    Both(taken, rest, keys);
    Both(first, others, vacated);
  }

  lemma ImagesApart(first: seq<Key>, to: map<Key, Key>, keys: set<Key>)
    requires NoDuplicates(first) && forall v :: v in first ==> v in to && to[v] in keys
    requires forall v, w :: v in to && w in to && v != w ==> to[v] != to[w]
    ensures NoDuplicates(Images(first, to)) && Elements(Images(first, to)) <= keys
  {
  }

  lemma Both(a: seq<Key>, b: seq<Key>, all: set<Key>)
    requires NoDuplicates(a) && Elements(a) <= all && Orders(b, all - Elements(a))
    ensures Orders(a + b, all)
  {
    forall i, j | 0 <= i < j < |a + b| ensures (a + b)[i] != (a + b)[j] {
      assert (a + b)[i] in Elements(if i < |a| then a else b) && (a + b)[j] in Elements(if j < |a| then a else b);
    }
    forall x | x in all ensures x in a + b {
      assert x in Elements(a) || x in Elements(b);
    }
    forall x | x in a + b ensures x in all {
      assert x in Elements(a) || x in Elements(b);
    }
  }

  /** However the new keys and the vacated ones are listed nothing is left over, exactly when each
      new key has some partners no more keys than they could take. */
  lemma PassesInEveryOrderIff(keys: set<Key>, vacated: set<Key>)
    ensures (forall ks, vs :: Orders(ks, keys) && Orders(vs, vacated) ==> Unpaired(ks, vs) == []) <==>
            (forall u :: u in keys ==> Secure(u, keys, vacated))
  {
    if u :| u in keys && !Secure(u, keys, vacated) {
      var ks, vs := InsecureIsLeftOver(keys, vacated, u);
      assert Unpaired(ks, vs) != [];
    } else {
      forall ks, vs | Orders(ks, keys) && Orders(vs, vacated) ensures Unpaired(ks, vs) == [] {
        MovesMatch(ks, vs);
        if Unpaired(ks, vs) != [] {
          var u := Unpaired(ks, vs)[0];
          assert u in ks && u in Elements(ks);
          SecureIsPaired(ks, vs, u);
        }
      }
    }
  }
}
