/** The greatest of a set of numbers. */
module Numbers {
  predicate IsGreatest(v: int, values: set<int>) {
    v in values && forall w | w in values :: w <= v
  }

  /** SQL's COALESCE(MAX(v), 0), for values that are never negative. */
  function Greatest(values: set<int>): (v: int)
    ensures v >= 0 && forall w | w in values :: w <= v
    ensures v == 0 || v in values
  {
    if values == {} then 0 else
      MaximumExists(values);
      var most :| IsGreatest(most, values);
      if most < 0 then 0 else most
  }

  lemma MaximumExists(values: set<int>)
    requires values != {}
    ensures exists most :: IsGreatest(most, values)
  {
    var one := SomeMember(values);
    var most := Climb(values, one);
  }

  lemma SomeMember<T>(values: set<T>) returns (one: T)
    requires values != {}
    ensures one in values
  {
    one :| one in values;
  }

  lemma {:induction false} Climb(values: set<int>, from: int) returns (most: int)
    requires from in values
    ensures IsGreatest(most, values)
  {
    if IsGreatest(from, values) {
      return from;
    }
    var more :| more in values && more > from;
    var rest := values - {from};
    most := Climb(rest, more);
    forall w | w in values
      ensures w <= most
    {
      if w != from { assert w in rest; }
    }
  }
}
