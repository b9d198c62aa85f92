/**
 * The dictionaries of lists that the pass fills (`statesToDos`, `statesToTransitions`,
 * `machineToFunList`, `monitorToEventList`, ...). A missing key reads as the empty
 * list, and appending under a key creates the list when it is absent.
 */
module Tables {

  /** The list held under `k`; the empty list when there is none. */
  function ListAt<T>(m: map<string, seq<T>>, k: string): seq<T>
  {
    if k in m then m[k] else []
  }

  /** Appends `x` to the list under `k`, creating the list when it is absent. */
  function Append<T>(m: map<string, seq<T>>, k: string, x: T): (r: map<string, seq<T>>)
    ensures ListAt(r, k) == ListAt(m, k) + [x]
    ensures r.Keys == m.Keys + {k}
    ensures forall k' :: k' != k ==> ListAt(r, k') == ListAt(m, k')
  {
    m[k := ListAt(m, k) + [x]]
  }

  /** Appends every item to the list under its key, in order. */
  function GroupAll<T>(m: map<string, seq<T>>, items: seq<(string, T)>): map<string, seq<T>>
    decreases |items|
  {
    if items == [] then m
    else
      var last := items[|items| - 1];
      Append(GroupAll(m, items[..|items| - 1]), last.0, last.1)
  }

  /** Reference definition: the items filed under `k`, in input order. */
  function Filter<T>(items: seq<(string, T)>, k: string): seq<T>
  {
    if items == [] then []
    else (if items[0].0 == k then [items[0].1] else []) + Filter(items[1..], k)
  }

  lemma {:induction false} FilterSnoc<T>(items: seq<(string, T)>, x: (string, T), k: string)
    ensures Filter(items + [x], k) == Filter(items, k) + (if x.0 == k then [x.1] else [])
    decreases |items|
  {
    if items == [] {
      assert ([] + [x])[1..] == [];
    } else {
      assert (items + [x])[1..] == items[1..] + [x];
      FilterSnoc(items[1..], x, k);
    }
  }

  /**
   * Grouping keeps every earlier list as a prefix and appends, under each key, exactly
   * the items filed under it, in input order.
   */
  lemma {:induction false} GroupAllSpec<T>(m: map<string, seq<T>>, items: seq<(string, T)>, k: string)
    ensures ListAt(GroupAll(m, items), k) == ListAt(m, k) + Filter(items, k)
    decreases |items|
  {
    if items == [] {
      assert ListAt(m, k) + [] == ListAt(m, k);
    } else {
      var front := items[..|items| - 1];
      var last := items[|items| - 1];
      assert items == front + [last];
      GroupAllSpec(m, front, k);
      FilterSnoc(front, last, k);
    }
  }

  /** Grouping two item lists one after the other is grouping their concatenation. */
  lemma {:induction false} GroupAllAppend<T>(m: map<string, seq<T>>, xs: seq<(string, T)>, ys: seq<(string, T)>)
    ensures GroupAll(m, xs + ys) == GroupAll(GroupAll(m, xs), ys)
    decreases |ys|
  {
    if ys == [] {
      assert xs + ys == xs;
    } else {
      var front, last := ys[..|ys| - 1], ys[|ys| - 1];
      assert (xs + ys)[..|xs + ys| - 1] == xs + front;
      assert (xs + ys)[|xs + ys| - 1] == last;
      GroupAllAppend(m, xs, front);
    }
  }

  /** Concatenation regroups. */
  lemma ConcatAssoc<T>(a: seq<T>, b: seq<T>, c: seq<T>)
    ensures a + b + c == a + (b + c)
  {
  }
}
