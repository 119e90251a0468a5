/** JavaScript `Set` semantics: a duplicate-free collection that remembers
    insertion order. A set is modelled as a `seq` without repeated elements;
    `add` appends a new element at the end and `delete` removes it in place. */
module JsSet {

  /** No element occurs twice. */
  predicate NoDup<T(==)>(s: seq<T>) {
    forall i, j | 0 <= i < j < |s| :: s[i] != s[j]
  }

  /** `set.add(x)`: a new element goes last, an existing one keeps its place. */
  function Add<T(==,!new)>(s: seq<T>, x: T): (r: seq<T>)
    ensures forall y :: y in r <==> y in s || y == x
    ensures |r| == if x in s then |s| else |s| + 1
    ensures r[..|s|] == s
    ensures NoDup(s) ==> NoDup(r)
  {
    if x in s then s else s + [x]
  }

  /** `set.delete(x)`: removes `x` and keeps every other element. */
  function Delete<T(==,!new)>(s: seq<T>, x: T): (r: seq<T>)
    ensures forall y :: y in r <==> y in s && y != x
    ensures NoDup(s) ==> NoDup(r)
    ensures NoDup(s) && x in s ==> |r| == |s| - 1
    ensures x !in s ==> r == s
  {
    if s == [] then []
    else if s[0] == x then Delete(s[1..], x)
    else
      var t := Delete(s[1..], x);
      NoDupCons(s[0], s[1..]);
      NoDupCons(s[0], t);
      assert s == [s[0]] + s[1..];
      [s[0]] + t
  }

  lemma NoDupCons<T>(a: T, t: seq<T>)
    ensures NoDup([a] + t) <==> a !in t && NoDup(t)
  {
    var s := [a] + t;
    if a !in t && NoDup(t) {
      forall i, j | 0 <= i < j < |s| ensures s[i] != s[j] {
        if i == 0 {
          assert s[j] == t[j - 1];
        } else {
          assert s[i] == t[i - 1] && s[j] == t[j - 1];
        }
      }
    }
    if NoDup(s) {
      forall i, j | 0 <= i < j < |t| ensures t[i] != t[j] {
        assert t[i] == s[i + 1] && t[j] == s[j + 1];
      }
      forall k | 0 <= k < |t| ensures t[k] != a {
        assert t[k] == s[k + 1] && s[0] == a;
      }
    }
  }

  /** In a duplicate-free sequence every element occurs exactly once. */
  lemma {:induction false} NoDupCount<T>(s: seq<T>, x: T)
    requires NoDup(s)
    ensures multiset(s)[x] == if x in s then 1 else 0
  {
    if s != [] {
      assert s == [s[0]] + s[1..];
      NoDupCons(s[0], s[1..]);
      NoDupCount(s[1..], x);
    }
  }
}
