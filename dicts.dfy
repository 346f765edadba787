/** A Python `dict` with string keys, as the ledger uses it: a finite map that
    also remembers the order in which its keys were first inserted. Iteration,
    `json.dump` and `json.load` all follow that order, so the order in which
    reminders list clients is the order in which they were added. */
module Dicts {

  datatype Dict<V> = Dict(keys: seq<string>, vals: map<string, V>) {

    /** Every key is listed once, and the listed keys are exactly the domain. */
    ghost predicate Valid() {
      && Distinct(keys)
      && (forall k :: k in vals <==> k in keys)
    }
  }

  ghost predicate Distinct(s: seq<string>) {
    forall i, j :: 0 <= i < j < |s| ==> s[i] != s[j]
  }

  /** `a` is listed before `b` in `s`. */
  ghost predicate Before(s: seq<string>, a: string, b: string) {
    exists i, j :: 0 <= i < j < |s| && s[i] == a && s[j] == b
  }

  /** `{}` */
  function Empty<V>(): (d: Dict<V>)
    ensures d.Valid() && d.vals == map[] && d.keys == []
  {
    Dict([], map[])
  }

  /** `d[k] = v`: an existing key keeps its place, a new key goes last. */
  function Put<V>(d: Dict<V>, k: string, v: V): (r: Dict<V>)
    requires d.Valid()
    ensures r.Valid()
    ensures k in r.vals && r.vals[k] == v
    ensures forall j :: j != k ==> (j in r.vals <==> j in d.vals)
    ensures forall j :: j != k && j in d.vals ==> r.vals[j] == d.vals[j]
    ensures k in d.vals ==> r.keys == d.keys
    ensures k !in d.vals ==> r.keys == d.keys + [k]
  {
    if k in d.vals then Dict(d.keys, d.vals[k := v]) else Dict(d.keys + [k], d.vals[k := v])
  }

  /** `del d[k]`: the other keys keep their values and their order. */
  function Remove<V>(d: Dict<V>, k: string): (r: Dict<V>)
    requires d.Valid()
    ensures r.Valid()
    ensures k !in r.vals
    ensures forall j :: j != k ==> (j in r.vals <==> j in d.vals)
    ensures forall j :: j != k && j in d.vals ==> r.vals[j] == d.vals[j]
    ensures k in d.vals ==> |r.keys| == |d.keys| - 1
    ensures k !in d.vals ==> r == d
    ensures r.keys == Without(d.keys, k)
  {
    Dict(Without(d.keys, k), d.vals - {k})
  }

  /** After `del d[k]` the remaining keys are iterated in their old order. */
  lemma RemoveKeepsOrder<V>(d: Dict<V>, k: string)
    requires d.Valid()
    ensures forall i, j :: 0 <= i < j < |Remove(d, k).keys| ==>
      Before(d.keys, Remove(d, k).keys[i], Remove(d, k).keys[j])
  {
    WithoutKeepsOrder(d.keys, k);
  }

  /** The sequence `s` with every occurrence of `k` dropped, order kept. */
  function Without(s: seq<string>, k: string): (r: seq<string>)
    ensures forall x :: x in r <==> x in s && x != k
    ensures |r| <= |s|
    ensures Distinct(s) ==> Distinct(r)
    ensures Distinct(s) && k in s ==> |r| == |s| - 1
    ensures k !in s ==> r == s
  {
    if s == [] then []
    else
      var init, last := s[..|s| - 1], s[|s| - 1];
      assert s == init + [last];
      var rest := Without(init, k);
      assert Distinct(s) ==> Distinct(init) && last !in init by {
        if Distinct(s) {
          forall i | 0 <= i < |init| ensures init[i] != last { assert init[i] == s[i]; }
        }
      }
      if last == k then rest else rest + [last]
  }

  /** Dropping a key keeps the relative order of the others. */
  lemma {:induction false} WithoutKeepsOrder(s: seq<string>, k: string)
    ensures forall i, j :: 0 <= i < j < |Without(s, k)| ==>
      Before(s, Without(s, k)[i], Without(s, k)[j])
  {
    if s != [] {
      var init, last := s[..|s| - 1], s[|s| - 1];
      assert s == init + [last];
      var rest := Without(init, k);
      WithoutKeepsOrder(init, k);
      var r := Without(s, k);
      forall i, j | 0 <= i < j < |r| ensures Before(s, r[i], r[j]) {
        if j < |rest| {
          assert r[i] == rest[i] && r[j] == rest[j];
          assert Before(init, rest[i], rest[j]);
          var i', j' :| 0 <= i' < j' < |init| && init[i'] == rest[i] && init[j'] == rest[j];
          assert s[i'] == r[i] && s[j'] == r[j];
        } else {
          assert r[j] == last && r[i] == rest[i];
          assert rest[i] in init;
          var i' :| 0 <= i' < |init| && init[i'] == rest[i];
          assert s[i'] == r[i] && s[|s| - 1] == r[j];
        }
      }
    }
  }
}
