/** The order in which a loop happens to visit a map's keys or a set. */
module Orders {
  /** `order` gives each key once and nothing else. */
  predicate Lists<K(==)>(order: seq<K>, keys: set<K>) {
    && (forall i, j | 0 <= i < |order| && i < j < |order| :: order[i] != order[j])
    && (forall i | 0 <= i < |order| :: order[i] in keys)
    && (forall k | k in keys :: k in order)
  }

  lemma EmptySet<K(!new)>(s: set<K>)
    requires forall k :: k !in s
    ensures s == {}
  {
  }

  /** A set of integers without members is empty. */
  lemma NoMembers(s: set<int>)
    requires forall k: int :: k !in s
    ensures s == {}
  {
    if forall k: int :: k !in s {
      EmptySet(s);
    }
  }

  // ----- a loop over such an order

  /** The keys seen in the first rounds. */
  ghost function Seen(order: seq<int>): set<int> {
    if order == [] then {} else Seen(order[..|order| - 1]) + {order[|order| - 1]}
  }

  lemma {:induction false} SeenHas(order: seq<int>, k: int)
    ensures k in Seen(order) <==> k in order
  {
    if order != [] {
      SeenHas(order[..|order| - 1], k);
    }
  }

  /** Round i sees a key of its own, not seen before. */
  ghost predicate Round(order: seq<int>, keys: set<int>, i: nat)
    requires i < |order|
  {
    order[i] in keys && order[i] !in Seen(order[..i]) && Seen(order[..i + 1]) == Seen(order[..i]) + {order[i]}
  }

  lemma OneRound(order: seq<int>, keys: set<int>, i: nat)
    requires Lists(order, keys) && i < |order|
    ensures Round(order, keys, i)
  {
    assert order[..i + 1][..i] == order[..i];
    SeenHas(order[..i], order[i]);
  }

  /** All rounds see all keys. */
  lemma AllRounds(order: seq<int>, keys: set<int>)
    requires Lists(order, keys)
    ensures Seen(order[..|order|]) == keys
  {
    assert order[..|order|] == order;
    forall k: int ensures k !in Seen(order) - keys && k !in keys - Seen(order) {
      SeenHas(order, k);
    }
    NoMembers(Seen(order) - keys);
    NoMembers(keys - Seen(order));
  }
}
