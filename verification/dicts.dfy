/** Python's dict: keys in the order they were first set, and what each is set to. */
module Dicts {
  import opened Ordering

  datatype Dict<V> = Dict(order: seq<string>, at: map<string, V>)

  predicate NoRepeats(keys: seq<string>) {
    forall i, j | 0 <= i < j < |keys| :: keys[i] != keys[j]
  }

  ghost predicate Sound<V>(d: Dict<V>) {
    NoRepeats(d.order) && forall k :: k in d.order <==> k in d.at
  }

  function Put<V>(d: Dict<V>, k: string, v: V): Dict<V> {
    Dict(if k in d.at then d.order else d.order + [k], d.at[k := v])
  }

  lemma PutSound<V>(d: Dict<V>, k: string, v: V)
    requires Sound(d)
    ensures Sound(Put(d, k, v))
  {}

  /** The elements `keep` accepts, in their order. */
  function Kept<T>(keep: T -> bool, xs: seq<T>): seq<T> {
    if xs == [] then []
    else Kept(keep, xs[..|xs| - 1]) + if keep(xs[|xs| - 1]) then [xs[|xs| - 1]] else []
  }

  function Only<V>(keep: string -> bool, d: Dict<V>): Dict<V> {
    Dict(Kept(keep, d.order), map k | k in d.at && keep(k) :: d.at[k])
  }

  lemma {:induction false} KeptMembers(keep: string -> bool, keys: seq<string>)
    ensures forall k :: k in Kept(keep, keys) <==> k in keys && keep(k)
    ensures NoRepeats(keys) ==> NoRepeats(Kept(keep, keys))
  {
    if keys != [] {
      KeptMembers(keep, keys[..|keys| - 1]);
      assert keys == keys[..|keys| - 1] + [keys[|keys| - 1]];
    }
  }

  lemma OnlySound<V>(keep: string -> bool, d: Dict<V>)
    requires Sound(d)
    ensures Sound(Only(keep, d))
  {
    KeptMembers(keep, d.order);
  }

  /** `dict(sorted(d.items()))`. */
  function Sorted<V>(d: Dict<V>): Dict<V> { Dict(Sort(AtMost, d.order), d.at) }

  lemma SortedSound<V>(d: Dict<V>)
    requires Sound(d)
    ensures Sound(Sorted(d))
  {
    SortPermutes(AtMost, d.order);
    SameMembers(Sorted(d).order, d.order);
    NoRepeatsKept(d.order, Sorted(d).order);
  }

  lemma {:induction false} NoRepeatsCounts(keys: seq<string>)
    ensures NoRepeats(keys) <==> forall k :: multiset(keys)[k] <= 1
  {
    if keys != [] {
      var front, last := keys[..|keys| - 1], keys[|keys| - 1];
      NoRepeatsCounts(front);
      assert keys == front + [last];
      assert multiset(keys) == multiset(front) + multiset{last};
      if last in front {
        var i :| 0 <= i < |front| && front[i] == last;
        assert keys[i] == keys[|front|];
        assert multiset(keys)[last] >= 2;
      } else {
        assert multiset(front)[last] == 0;
        if !NoRepeats(front) {
          var k :| multiset(front)[k] > 1;
          assert multiset(keys)[k] > 1;
        }
      }
    }
  }

  lemma NoRepeatsKept(a: seq<string>, b: seq<string>)
    requires NoRepeats(a) && multiset(a) == multiset(b)
    ensures NoRepeats(b)
  {
    NoRepeatsCounts(a);
    NoRepeatsCounts(b);
  }

  lemma StringsTotal()
    ensures TotalOrder(AtMost)
  {
    forall a, b ensures AtMost(a, b) || AtMost(b, a) { AtMostTotal(a, b); }
    forall a, b, c | AtMost(a, b) && AtMost(b, c) ensures AtMost(a, c) { AtMostTransitive(a, b, c); }
  }

  /** Sorting forgets the order the keys came in. */
  lemma SortedKeysAgree(a: seq<string>, b: seq<string>)
    requires multiset(a) == multiset(b)
    ensures Sort(AtMost, a) == Sort(AtMost, b)
  {
    StringsTotal();
    SortPermutes(AtMost, a);
    SortPermutes(AtMost, b);
    SortSorts(AtMost, a);
    SortSorts(AtMost, b);
    var xs := Sort(AtMost, a);
    forall i, j | 0 <= i < |xs| && 0 <= j < |xs| && AtMost(xs[i], xs[j]) && AtMost(xs[j], xs[i])
      ensures xs[i] == xs[j]
    {
      AtMostTotal(xs[i], xs[j]);
    }
    SortedIsOnly(AtMost, xs, Sort(AtMost, b));
  }
}
