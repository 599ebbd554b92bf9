/**
 * `HashMap` and `HashSet` iterate in an order the Java library leaves
 * unspecified. Code that iterates one is modelled with that order passed in as
 * a sequence that lists every key exactly once, so no property may depend on it.
 */
module HashOrder {

  /** `order` lists each element of `keys` exactly once and nothing else. */
  predicate IsEnumeration<T(==)>(order: seq<T>, keys: set<T>) {
    && (forall i :: 0 <= i < |order| ==> order[i] in keys)
    && (forall k :: k in keys ==> k in order)
    && (forall i, j :: 0 <= i < j < |order| ==> order[i] != order[j])
  }

  /** An enumeration has one position per key. */
  lemma {:induction false} EnumerationLength<T>(order: seq<T>, keys: set<T>)
    requires IsEnumeration(order, keys)
    ensures |order| == |keys|
    decreases |order|
  {
    if order != [] {
      var last := order[|order| - 1];
      var init := order[..|order| - 1];
      assert last !in init by {
        forall j | 0 <= j < |init| ensures init[j] != last {
          assert init[j] == order[j];
        }
      }
      assert IsEnumeration(init, keys - {last}) by {
        forall k | k in keys - {last} ensures k in init {
          var j :| 0 <= j < |order| && order[j] == k;
          assert j < |order| - 1;
          assert init[j] == k;
        }
      }
      EnumerationLength(init, keys - {last});
    }
  }
}
