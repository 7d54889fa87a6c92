/**
 * Sequential semantics of the two lock-based containers the texture store
 * uses, rph::ConcurrentDeque and rph::ConcurrentMap. Their bodies are not part
 * of this model; the operations below are what the call sites in
 * TextureStore.cpp rely on:
 *   - push_back(x, true) appends x only when x is absent and reports whether it
 *     appended (lines 202 and 204);
 *   - contains(x) is a membership test (line 66);
 *   - erase(x) removes x (lines 83 and 186);
 *   - try_pop(k, out) removes and hands out the entry for k when there is one
 *     (lines 81 and 184).
 */
module Containers {

  datatype Option<T> = None | Some(value: T)

  /** No element occurs twice. */
  ghost predicate NoDup<T>(q: seq<T>) {
    forall i, j :: 0 <= i < j < |q| ==> q[i] != q[j]
  }

  /** ConcurrentDeque::push_back(x, true): append x unless it is already there. */
  function PushBack<T(==,!new)>(q: seq<T>, x: T): (r: (seq<T>, bool))
    ensures r.1 <==> x !in q
    ensures x in r.0
    ensures forall y :: y in r.0 <==> y in q || y == x
    ensures NoDup(q) ==> NoDup(r.0)
    ensures r.1 ==> r.0 == q + [x]
    ensures !r.1 ==> r.0 == q
  {
    if x in q then (q, false) else (q + [x], true)
  }

  /** ConcurrentDeque::erase(x): drop every occurrence of x, keep the rest in order. */
  function Erase<T(==,!new)>(q: seq<T>, x: T): (r: seq<T>)
    ensures forall y :: y in r <==> y in q && y != x
    ensures |r| <= |q|
    ensures x !in q ==> r == q
  {
    if q == [] then []
    else if q[0] == x then Erase(q[1..], x)
    else [q[0]] + Erase(q[1..], x)
  }

  /** ConcurrentMap::try_pop(k, out): the entry for k, and the map without it. */
  function TryPop<K, V>(m: map<K, V>, k: K): (r: (map<K, V>, Option<V>))
    ensures r.1.Some? <==> k in m
    ensures k in m ==> r.1.value == m[k]
    ensures r.0.Keys == m.Keys - {k}
    ensures forall j :: j in r.0 ==> r.0[j] == m[j]
    ensures |r.0| == if k in m then |m| - 1 else |m|
  {
    if k in m then
      var rest := m - {k};
      assert rest.Keys == m.Keys - {k};
      assert |rest.Keys| == |m.Keys| - 1;
      (rest, Some(m[k]))
    else
      assert m - {k} == m;
      (m, None)
  }
}
