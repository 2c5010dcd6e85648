/** What the modules share: optional values, and a fact about counting in sequences. */
module Options {

  datatype Option<+T> = None | Some(value: T)

  lemma TwiceCounted<T>(a: seq<T>, i: nat, j: nat)
    requires i < |a| && j < |a| && i != j && a[i] == a[j]
    ensures multiset(a)[a[i]] >= 2
  {
    var lo, hi := if i < j then i else j, if i < j then j else i;
    assert a == a[..lo] + [a[lo]] + a[lo + 1..hi] + [a[hi]] + a[hi + 1..];
  }

  lemma OneBetween<T>(a: seq<T>, x: T, b: seq<T>)
    ensures multiset(a + [x] + b) == multiset(a + b) + multiset{x}
  {
  }
}
