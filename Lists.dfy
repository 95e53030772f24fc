/** The array operations the handlers build new state from: `filter`, `map`
    with a per-element condition, and the facts the screens rely on. */
module Lists {

  /** `r` is obtained from `s` by deleting elements, without reordering. */
  predicate SubsequenceOf<T(==)>(r: seq<T>, s: seq<T>)
    decreases |s|
  {
    if r == [] then true
    else if s == [] then false
    else (r[0] == s[0] && SubsequenceOf(r[1..], s[1..])) || SubsequenceOf(r, s[1..])
  }

  /** No element occurs twice. */
  predicate NoDuplicates<T(==)>(s: seq<T>) {
    forall i, j :: 0 <= i < j < |s| ==> s[i] != s[j]
  }

  /** `s.filter(keep)`: the order-preserving subsequence of the elements `keep` accepts. */
  function Filter<T(==,!new)>(s: seq<T>, keep: T -> bool): (r: seq<T>)
    ensures |r| <= |s|
    ensures SubsequenceOf(r, s)
    ensures forall x :: x in r <==> x in s && keep(x)
    ensures forall x :: multiset(r)[x] == if keep(x) then multiset(s)[x] else 0
  {
    if s == [] then []
    else
      assert s == [s[0]] + s[1..];
      assert multiset(s) == multiset{s[0]} + multiset(s[1..]);
      if keep(s[0]) then
        var r := [s[0]] + Filter(s[1..], keep);
        assert multiset(r) == multiset{s[0]} + multiset(Filter(s[1..], keep));
        r
      else Filter(s[1..], keep)
  }

  /** How many elements of `s` satisfy `p`, counted one by one. */
  function CountWhere<T>(s: seq<T>, p: T -> bool): nat
  {
    if s == [] then 0 else (if p(s[0]) then 1 else 0) + CountWhere(s[1..], p)
  }

  /** The length of a filtered sequence is the number of elements it accepts. */
  lemma {:induction false} FilterCount<T(!new)>(s: seq<T>, keep: T -> bool)
    ensures |Filter(s, keep)| == CountWhere(s, keep)
  {
    if s != [] {
      FilterCount(s[1..], keep);
    }
  }

  /** Filtering keeps everything when every element is accepted. */
  lemma {:induction false} FilterAllKept<T(!new)>(s: seq<T>, keep: T -> bool)
    requires forall x :: x in s ==> keep(x)
    ensures Filter(s, keep) == s
  {
    if s != [] {
      FilterAllKept(s[1..], keep);
    }
  }

  /** Filtering with complementary conditions splits the length of `s`. */
  lemma {:induction false} FilterPartition<T(!new)>(s: seq<T>, keep: T -> bool, drop: T -> bool)
    requires forall x :: drop(x) <==> !keep(x)
    ensures |Filter(s, keep)| + |Filter(s, drop)| == |s|
  {
    if s != [] {
      FilterPartition(s[1..], keep, drop);
    }
  }

  /** Every element of a subsequence occurs in the sequence. */
  lemma {:induction false} SubsequenceMembers<T>(r: seq<T>, s: seq<T>)
    requires SubsequenceOf(r, s)
    ensures forall x :: x in r ==> x in s
    decreases |s|
  {
    if r != [] {
      if r[0] == s[0] && SubsequenceOf(r[1..], s[1..]) {
        SubsequenceMembers(r[1..], s[1..]);
        assert r == [r[0]] + r[1..];
      } else {
        SubsequenceMembers(r, s[1..]);
      }
    }
  }

  /** A subsequence of a duplicate-free sequence is duplicate-free. */
  lemma {:induction false} SubsequenceNoDuplicates<T>(r: seq<T>, s: seq<T>)
    requires SubsequenceOf(r, s) && NoDuplicates(s)
    ensures NoDuplicates(r)
    decreases |s|
  {
    if r != [] {
      assert NoDuplicates(s[1..]);
      if r[0] == s[0] && SubsequenceOf(r[1..], s[1..]) {
        SubsequenceNoDuplicates(r[1..], s[1..]);
        SubsequenceMembers(r[1..], s[1..]);
        assert s[0] !in s[1..];
        forall i, j | 0 <= i < j < |r| ensures r[i] != r[j] {
          if i == 0 {
            assert r[j] == r[1..][j - 1];
          } else {
            assert r[i] == r[1..][i - 1] && r[j] == r[1..][j - 1];
          }
        }
      } else {
        SubsequenceNoDuplicates(r, s[1..]);
      }
    }
  }

  /** Filtering a duplicate-free sequence leaves it duplicate-free. */
  lemma FilterNoDuplicates<T(!new)>(s: seq<T>, keep: T -> bool)
    ensures NoDuplicates(s) ==> NoDuplicates(Filter(s, keep))
  {
    if NoDuplicates(s) {
      SubsequenceNoDuplicates(Filter(s, keep), s);
    }
  }

  /** `s.map(x => hit(x) ? f(x) : x)`: the elements `hit` selects are replaced
      by their image under `f`, every other element stays where it is. */
  function UpdateWhere<T>(s: seq<T>, hit: T -> bool, f: T -> T): (r: seq<T>)
    ensures |r| == |s|
    ensures forall i :: 0 <= i < |s| ==> r[i] == if hit(s[i]) then f(s[i]) else s[i]
  {
    if s == [] then []
    else [if hit(s[0]) then f(s[0]) else s[0]] + UpdateWhere(s[1..], hit, f)
  }

  /** How many elements of `s` have key `k`. */
  function CountKey<T>(s: seq<T>, key: T -> string, k: string): (n: nat)
    ensures n <= |s|
    ensures n == 0 <==> forall x :: x in s ==> key(x) != k
  {
    if s == [] then 0
    else
      assert s == [s[0]] + s[1..];
      (if key(s[0]) == k then 1 else 0) + CountKey(s[1..], key, k)
  }

  /** Keys are pairwise distinct. */
  predicate UniqueKeys<T>(s: seq<T>, key: T -> string) {
    forall i, j :: 0 <= i < j < |s| ==> key(s[i]) != key(s[j])
  }

  /** `s.filter(x => key(x) !== k)`: removes exactly the elements with key `k`,
      keeps the others in order, and shrinks by the number removed. */
  function RemoveKey<T(==,!new)>(s: seq<T>, key: T -> string, k: string): (r: seq<T>)
    ensures SubsequenceOf(r, s)
    ensures forall x :: x in r <==> x in s && key(x) != k
    ensures |r| == |s| - CountKey(s, key, k)
  {
    RemoveKeyCount(s, key, k);
    Filter(s, x => key(x) != k)
  }

  lemma {:induction false} RemoveKeyCount<T(!new)>(s: seq<T>, key: T -> string, k: string)
    ensures |Filter(s, x => key(x) != k)| == |s| - CountKey(s, key, k)
  {
    if s != [] {
      RemoveKeyCount(s[1..], key, k);
    }
  }

  /** With distinct keys, a key that is present occurs exactly once. */
  lemma {:induction false} UniqueKeyCountsOnce<T>(s: seq<T>, key: T -> string, k: string)
    requires UniqueKeys(s, key)
    requires exists x :: x in s && key(x) == k
    ensures CountKey(s, key, k) == 1
  {
    assert s == [s[0]] + s[1..];
    assert UniqueKeys(s[1..], key);
    if key(s[0]) == k {
      forall x | x in s[1..] ensures key(x) != k {
        var j :| 0 <= j < |s[1..]| && s[1..][j] == x;
        assert s[j + 1] == x;
      }
    } else {
      UniqueKeyCountsOnce(s[1..], key, k);
    }
  }

  /** Removing a key that occurs once, among distinct keys, shrinks `s` by one
      and keeps the keys distinct. */
  lemma RemoveUniqueKey<T(!new)>(s: seq<T>, key: T -> string, k: string)
    requires UniqueKeys(s, key)
    requires exists x :: x in s && key(x) == k
    ensures |RemoveKey(s, key, k)| == |s| - 1
  {
    UniqueKeyCountsOnce(s, key, k);
  }

  /** `s.map(x => key(x) === k ? f(x) : x)`: only the elements with key `k` change. */
  function UpdateKey<T>(s: seq<T>, key: T -> string, k: string, f: T -> T): (r: seq<T>)
    ensures |r| == |s|
    ensures forall i :: 0 <= i < |s| && key(s[i]) != k ==> r[i] == s[i]
    ensures forall i :: 0 <= i < |s| && key(s[i]) == k ==> r[i] == f(s[i])
  {
    UpdateWhere(s, x => key(x) == k, f)
  }
}
