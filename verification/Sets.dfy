/** Picking elements of finite sets, which stands for advancing an iterator over a map's keys. */
module Sets {

  ghost function AnyOf<T>(s: set<T>): (x: T)
    requires s != {}
    ensures x in s
  {
    var x :| x in s;
    x
  }

  method PickOne<T(==)>(s: set<T>) returns (x: T)
    requires s != {}
    ensures x in s
  {
    x :| x in s;
  }

  /** The first key in map order. */
  method Smallest(keys: set<int>) returns (a: int)
    requires keys != {}
    ensures a in keys && forall b | b in keys :: a <= b
  {
    a := PickOne(keys);
    var rest := keys - {a};
    while rest != {}
      invariant rest <= keys && a in keys
      invariant forall b | b in keys && b !in rest :: a <= b
      decreases rest
    {
      var b := PickOne(rest);
      if b < a {
        a := b;
      }
      rest := rest - {b};
    }
  }
}
