/** The all-or-nothing maps of Source/Core/Utils: `Array.mapOrNil` and
    `Dictionary.mapValueOrNil`. */
module Collections {
  import opened Wrappers

  /** Every element of `a` maps to non-nil under `f`. */
  predicate AllMap<T, U>(a: seq<T>, f: T -> Option<U>) {
    forall i :: 0 <= i < |a| ==> f(a[i]).Some?
  }

  /** The reference result of `mapOrNil`, element by element from the front:
      nil as soon as one element maps to nil. */
  function MappedOrNil<T, U>(a: seq<T>, f: T -> Option<U>): (r: Option<seq<U>>)
    ensures r.None? <==> !AllMap(a, f)
    ensures r.Some? ==> |r.value| == |a| && forall i :: 0 <= i < |a| ==> f(a[i]) == Some(r.value[i])
    ensures |a| == 0 ==> r == Some([])
  {
    if |a| == 0 then Some([])
    else
      var head := f(a[0]);
      var tail := MappedOrNil(a[1..], f);
      if head.None? then None
      else if tail.None? then
        assert !AllMap(a[1..], f);
        var j :| 0 <= j < |a[1..]| && f(a[1..][j]).None?;
        assert f(a[j + 1]).None?;
        None
      else Some([head.value] + tail.value)
  }

  /** A non-nil map is determined by its elements: two results with the
      same length and the same elements are equal. */
  lemma MappedOrNilUnique<T, U>(a: seq<T>, f: T -> Option<U>, out: seq<U>)
    requires |out| == |a| && forall i :: 0 <= i < |a| ==> f(a[i]) == Some(out[i])
    ensures MappedOrNil(a, f) == Some(out)
  {
    var r := MappedOrNil(a, f);
    assert AllMap(a, f);
    assert r.value == out;
  }

  /** `mapOrNil`: the loop appends `f(a[i])` while it is non-nil and returns
      nil at the first element that maps to nil. */
  method MapOrNil<T, U>(a: seq<T>, f: T -> Option<U>) returns (r: Option<seq<U>>)
    ensures r == MappedOrNil(a, f)
    ensures r.None? <==> exists i :: 0 <= i < |a| && f(a[i]).None?
    ensures r.Some? ==> |r.value| == |a| && forall i :: 0 <= i < |a| ==> f(a[i]) == Some(r.value[i])
  {
    var output: seq<U> := [];
    var i := 0;
    while i < |a|
      invariant 0 <= i <= |a|
      invariant |output| == i
      invariant forall j :: 0 <= j < i ==> f(a[j]) == Some(output[j])
    {
      var mappedValue := f(a[i]);
      if mappedValue.None? {
        return None;
      }
      output := output + [mappedValue.value];
      i := i + 1;
    }
    MappedOrNilUnique(a, f, output);
    return Some(output);
  }

  /** The output built before the loop stops is the map of the prefix: if the
      whole map succeeds, so does every prefix, with the prefix of the result. */
  lemma {:induction false} MappedOrNilPrefix<T, U>(a: seq<T>, f: T -> Option<U>, n: nat)
    requires n <= |a| && MappedOrNil(a, f).Some?
    ensures MappedOrNil(a[..n], f) == Some(MappedOrNil(a, f).value[..n])
  {
    var out := MappedOrNil(a, f).value;
    assert forall i :: 0 <= i < n ==> a[..n][i] == a[i];
    MappedOrNilUnique(a[..n], f, out[..n]);
  }

  /** Every value of `m` maps to non-nil under `f`. */
  predicate AllValuesMap<K, V, W>(m: map<K, V>, f: V -> Option<W>) {
    forall k :: k in m ==> f(m[k]).Some?
  }

  /** The reference result of `mapValueOrNil`. */
  function MappedValuesOrNil<K, V, W>(m: map<K, V>, f: V -> Option<W>): (r: Option<map<K, W>>)
  {
    if AllValuesMap(m, f) then Some(map k | k in m :: f(m[k]).value) else None
  }

  /** `mapValueOrNil`: the loop visits the keys in some order, inserts the
      mapped value and returns nil at the first value that maps to nil. */
  method MapValueOrNil<K, V, W>(m: map<K, V>, f: V -> Option<W>) returns (r: Option<map<K, W>>)
    ensures r == MappedValuesOrNil(m, f)
    ensures r.None? <==> exists k :: k in m && f(m[k]).None?
    ensures r.Some? ==> r.value.Keys == m.Keys && forall k :: k in m ==> f(m[k]) == Some(r.value[k])
    ensures m == map[] ==> r == Some(map[])
  {
    var output: map<K, W> := map[];
    var remaining := m.Keys;
    while remaining != {}
      invariant remaining <= m.Keys
      invariant output.Keys == m.Keys - remaining
      invariant forall k :: k in output ==> f(m[k]) == Some(output[k])
      decreases remaining
    {
      var key :| key in remaining;
      var mappedValue := f(m[key]);
      if mappedValue.None? {
        return None;
      }
      output := output[key := mappedValue.value];
      remaining := remaining - {key};
    }
    assert output == map k | k in m :: f(m[k]).value;
    return Some(output);
  }
}
