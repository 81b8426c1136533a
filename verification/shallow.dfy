/** `shallow(objA, objB)` of src/shallow.ts: equality of two records key by
    key, comparing the values by identity. */
module Shallow {
  import opened Values

  /** The specification: identical values, or two non-null objects with the
      same number of own keys where every key of `a` is an own key of `b`
      holding an identical value. */
  predicate ShallowEqual(a: Value, b: Value) {
    SameValue(a, b) ||
    (a.Obj? && b.Obj? && |a.props| == |b.props| &&
     forall k :: k in a.props ==> k in b.props && SameValue(a.props[k], b.props[k]))
  }

  /** `Object.keys(o)`: every own key exactly once, in some order. */
  method KeysOf(props: map<string, Value>) returns (keys: seq<string>)
    ensures Distinct(keys)
    ensures |keys| == |props|
    ensures forall k :: k in props <==> k in keys
  {
    keys := [];
    var rest := props.Keys;
    while rest != {}
      invariant Distinct(keys)
      invariant forall k :: k in props <==> (k in rest || k in keys)
      invariant forall k :: k in rest ==> k !in keys
      invariant |keys| + |rest| == |props|
      decreases |rest|
    {
      var k :| k in rest;
      keys := keys + [k];
      rest := rest - {k};
    }
  }

  /** The loop of src/shallow.ts, with its early returns. */
  method Shallow(a: Value, b: Value) returns (equal: bool)
    ensures equal == ShallowEqual(a, b)
  {
    if SameValue(a, b) {
      return true;
    }
    if !a.Obj? || !b.Obj? {
      return false;
    }
    var keysA := KeysOf(a.props);
    var keysB := KeysOf(b.props);
    if |keysA| != |keysB| {
      return false;
    }
    for i := 0 to |keysA|
      invariant forall j :: 0 <= j < i ==> keysA[j] in b.props && SameValue(a.props[keysA[j]], b.props[keysA[j]])
    {
      if keysA[i] !in b.props || !SameValue(a.props[keysA[i]], b.props[keysA[i]]) {
        return false;
      }
    }
    return true;
  }

  /** Every value is shallow-equal to itself; values that are not both
      non-null objects are shallow-equal only when identical. */
  lemma ShallowIdentityCases(a: Value, b: Value)
    ensures ShallowEqual(a, a)
    ensures !SameValue(a, b) && (!a.Obj? || !b.Obj?) ==> !ShallowEqual(a, b)
  {
  }

  /** For two non-null objects each early return of the loop means "not
      equal": a key count that differs, a key of `a` that `b` lacks, or a key
      whose two values are not identical. */
  lemma ShallowRejects(a: Value, b: Value, k: string)
    requires a.Obj? && b.Obj? && a != b
    ensures |a.props| != |b.props| ==> !ShallowEqual(a, b)
    ensures k in a.props && k !in b.props ==> !ShallowEqual(a, b)
    ensures k in a.props && k in b.props && !SameValue(a.props[k], b.props[k]) ==> !ShallowEqual(a, b)
  {
  }

  lemma SubsetOfSameSize(x: set<string>, y: set<string>)
    requires x <= y && |x| == |y|
    ensures x == y
  {
    assert |y - x| == |y| - |x|;
  }

  /** Two non-null objects are shallow-equal exactly when they have the same
      own properties with identical values: the key-count check together with
      the one-way loop over `a`'s keys is enough. */
  lemma ShallowSameProps(a: Value, b: Value)
    requires a.Obj? && b.Obj?
    ensures ShallowEqual(a, b) <==> a.props == b.props
  {
    if ShallowEqual(a, b) && a != b {
      SubsetOfSameSize(a.props.Keys, b.props.Keys);
      assert a.props == b.props;
    }
  }

  /** `shallow` does not depend on the order of its arguments, although its
      loop only walks the keys of the first one. */
  lemma ShallowSymmetric(a: Value, b: Value)
    ensures ShallowEqual(a, b) == ShallowEqual(b, a)
  {
    if a.Obj? && b.Obj? {
      ShallowSameProps(a, b);
      ShallowSameProps(b, a);
    }
  }

  /** Shallow equality is transitive. */
  lemma ShallowTransitive(a: Value, b: Value, c: Value)
    requires ShallowEqual(a, b) && ShallowEqual(b, c)
    ensures ShallowEqual(a, c)
  {
  }
}
