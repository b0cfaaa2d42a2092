/** Why an integer key stands for any comparator: on finitely many elements, every strict weak order is the order of a key. */
module WeakOrders {
  import opened Sorting

  ghost predicate StrictWeakOrder<T(!new)>(less: (T, T) -> bool) {
    && (forall x :: !less(x, x))
    && (forall x, y, z :: less(x, y) && less(y, z) ==> less(x, z))
    && (forall x, y, z :: less(x, y) ==> less(x, z) || less(z, y))
  }

  ghost function Smaller<T>(all: set<T>, less: (T, T) -> bool, x: T): set<T> {
    set y | y in all && less(y, x)
  }

  /** The key: how many elements are smaller. */
  ghost function KeyOf<T>(all: set<T>, less: (T, T) -> bool, x: T): nat {
    |Smaller(all, less, x)|
  }

  lemma KeyOrders<T(!new)>(all: set<T>, less: (T, T) -> bool, x: T, y: T)
    requires StrictWeakOrder(less) && x in all && y in all
    ensures less(x, y) <==> KeyOf(all, less, x) < KeyOf(all, less, y)
  {
    var a, b := Smaller(all, less, x), Smaller(all, less, y);
    if less(x, y) {
      assert x in b && x !in a;
      assert a <= b - {x};
      SubsetSize(a, b - {x});
    } else {
      assert b <= a;
      SubsetSize(b, a);
    }
  }
}
