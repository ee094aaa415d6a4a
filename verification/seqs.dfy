/** First-match search and removal by key, the list idiom the language server uses for its
    open documents and its request queues. */
module Seqs {

  /** Index of the first element whose key is `k`, -1 when none has it. */
  function FirstKey<T>(xs: seq<T>, key: T -> string, k: string): (i: int)
    ensures -1 <= i < |xs|
    ensures i == -1 <==> forall j :: 0 <= j < |xs| ==> key(xs[j]) != k
    ensures i >= 0 ==> key(xs[i]) == k && forall j :: 0 <= j < i ==> key(xs[j]) != k
  {
    if xs == [] then -1
    else if key(xs[0]) == k then 0
    else
      var i := FirstKey(xs[1..], key, k);
      assert forall j :: 1 <= j < |xs| ==> xs[j] == xs[1..][j - 1];
      if i == -1 then -1 else i + 1
  }

  /** The elements without the first one whose key is `k`. */
  function RemoveFirstKey<T>(xs: seq<T>, key: T -> string, k: string): seq<T> {
    var i := FirstKey(xs, key, k);
    if i == -1 then xs else xs[..i] + xs[i + 1..]
  }

  /** Removing a key no element has changes nothing; otherwise exactly the first element with
      the key goes, and the others keep their order. */
  lemma RemoveFirstKeySpec<T>(xs: seq<T>, key: T -> string, k: string)
    ensures var r := RemoveFirstKey(xs, key, k);
            var i := FirstKey(xs, key, k);
            && (i == -1 ==> r == xs)
            && (i >= 0 ==> |r| == |xs| - 1
                           && (forall j :: 0 <= j < i ==> r[j] == xs[j])
                           && (forall j :: i <= j < |r| ==> r[j] == xs[j + 1])
                           && multiset(r) + multiset{xs[i]} == multiset(xs))
  {
    var i := FirstKey(xs, key, k);
    if i >= 0 {
      RemoveAt(xs, i);
    }
  }

  /** Cutting out the element at `i` keeps the others in order. */
  lemma RemoveAt<T>(xs: seq<T>, i: nat)
    requires i < |xs|
    ensures var r := xs[..i] + xs[i + 1..];
            && |r| == |xs| - 1
            && (forall j :: 0 <= j < i ==> r[j] == xs[j])
            && (forall j :: i <= j < |r| ==> r[j] == xs[j + 1])
            && multiset(r) + multiset{xs[i]} == multiset(xs)
  {
    var a, b := xs[..i], xs[i + 1..];
    assert xs == a + [xs[i]] + b;
  }

  /** Appending an element whose key no element has, then removing that key, gives the
      original elements back. */
  lemma {:induction false} RemoveFirstKeyAppended<T>(xs: seq<T>, x: T, key: T -> string)
    requires forall j :: 0 <= j < |xs| ==> key(xs[j]) != key(x)
    ensures RemoveFirstKey(xs + [x], key, key(x)) == xs
  {
    var ys := xs + [x];
    assert forall j :: 0 <= j < |xs| ==> key(ys[j]) != key(x);
    assert key(ys[|xs|]) == key(x);
    assert FirstKey(ys, key, key(x)) == |xs|;
    assert ys[..|xs|] == xs;
  }
}
