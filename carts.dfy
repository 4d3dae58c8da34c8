/** The list operations the cart handlers perform on a cart's product ids:
    appending at the end and deleting the first occurrence. */
module Carts {

  /** The position of the first occurrence of `x` in `s`. */
  function FirstIndex(s: seq<int>, x: int): (i: nat)
    requires x in s
    ensures i < |s| && s[i] == x
    ensures x !in s[..i]
  {
    if s[0] == x then 0 else 1 + FirstIndex(s[1..], x)
  }

  /** Deletes the first occurrence of `x`, as a list's `remove` does. */
  function RemoveFirst(s: seq<int>, x: int): (r: seq<int>)
    requires x in s
    ensures |r| == |s| - 1
  {
    if s[0] == x then s[1..]
    else
      assert x in s[1..] by { assert s == [s[0]] + s[1..]; }
      [s[0]] + RemoveFirst(s[1..], x)
  }

  /** Removal cuts out exactly the element at the first position of `x`. */
  lemma {:induction false} RemoveFirstSplice(s: seq<int>, x: int)
    requires x in s
    ensures RemoveFirst(s, x) == s[..FirstIndex(s, x)] + s[FirstIndex(s, x) + 1..]
  {
    if s[0] != x {
      assert x in s[1..] by { assert s == [s[0]] + s[1..]; }
      var k := FirstIndex(s[1..], x);
      assert FirstIndex(s, x) == k + 1;
      RemoveFirstSplice(s[1..], x);
      assert s[..k + 1] == [s[0]] + s[1..][..k];
      assert s[k + 2..] == s[1..][k + 1..];
    }
  }

  /** Removal takes exactly one copy of `x` out of the cart's multiset of ids. */
  lemma RemoveFirstMultiset(s: seq<int>, x: int)
    requires x in s
    ensures multiset(RemoveFirst(s, x)) + multiset{x} == multiset(s)
  {
    RemoveFirstSplice(s, x);
    var i := FirstIndex(s, x);
    var before, after := s[..i], s[i + 1..];
    assert s == before + [x] + after;
    assert RemoveFirst(s, x) == before + after;
  }

  /** Removing an id that was just appended to a cart not holding it gives the cart back. */
  lemma {:induction false} AddThenRemoveFresh(s: seq<int>, x: int)
    requires x !in s
    ensures RemoveFirst(s + [x], x) == s
  {
    assert x in s + [x] by { assert (s + [x])[|s|] == x; }
    RemoveFirstSplice(s + [x], x);
    assert (s + [x])[..|s|] == s;
  }

  /** When the id is already in the cart, removal takes out the OLDER copy, so
      the appended copy stays behind at the end. */
  lemma {:induction false} AddThenRemoveDuplicate(s: seq<int>, x: int)
    requires x in s
    ensures RemoveFirst(s + [x], x) == RemoveFirst(s, x) + [x]
  {
    RemoveFirstSplice(s, x);
    RemoveFirstSplice(s + [x], x);
    var i := FirstIndex(s, x);
    var j := FirstIndex(s + [x], x);
    assert (s + [x])[i] == x;
    assert (s + [x])[..i] == s[..i];
    assert (s + [x])[i + 1..] == s[i + 1..] + [x];
  }

  /** Append-then-remove always restores the multiset of ids. */
  lemma AddThenRemoveMultiset(s: seq<int>, x: int)
    ensures multiset(RemoveFirst(s + [x], x)) == multiset(s)
  {
    assert x in s + [x] by { assert (s + [x])[|s|] == x; }
    RemoveFirstMultiset(s + [x], x);
    assert multiset(s + [x]) == multiset(s) + multiset{x};
    var r := RemoveFirst(s + [x], x);
    assert multiset(r) + multiset{x} == multiset(s) + multiset{x};
    forall y ensures multiset(r)[y] == multiset(s)[y] {
      assert (multiset(r) + multiset{x})[y] == (multiset(s) + multiset{x})[y];
    }
  }

  /** A list that is unchanged by dropping its head and appending `x` holds
      nothing but `x` from position `j` on. */
  lemma {:induction false} ShiftFixedAll(t: seq<int>, x: int, j: nat)
    requires |t| > 0 && t[1..] + [x] == t
    requires j < |t|
    ensures t[j] == x
    decreases |t| - j
  {
    if j < |t| - 1 {
      ShiftFixedAll(t, x, j + 1);
    }
    assert t[j] == (t[1..] + [x])[j];
  }

  /** Dropping the head and appending `x` leaves a non-empty list unchanged
      exactly when the list holds nothing but `x`. */
  lemma ShiftFixedIff(t: seq<int>, x: int)
    requires |t| > 0
    ensures t[1..] + [x] == t <==> forall j :: 0 <= j < |t| ==> t[j] == x
  {
    if t[1..] + [x] == t {
      forall j | 0 <= j < |t| ensures t[j] == x {
        ShiftFixedAll(t, x, j);
      }
    }
    if forall j :: 0 <= j < |t| ==> t[j] == x {
      assert forall j :: 0 <= j < |t| ==> (t[1..] + [x])[j] == t[j];
    }
  }

  /** Exactly when append-then-remove gives the cart back unchanged: the id
      was not in the cart, or every element from its first occurrence on is
      that id. */
  lemma {:induction false} AddThenRemoveRestores(s: seq<int>, x: int)
    ensures RemoveFirst(s + [x], x) == s <==>
      x !in s || forall j :: FirstIndex(s, x) <= j < |s| ==> s[j] == x
  {
    if x !in s {
      AddThenRemoveFresh(s, x);
    } else {
      RestoresWhenPresent(s, x);
    }
  }

  /** The case of `AddThenRemoveRestores` where the id is already in the cart. */
  lemma RestoresWhenPresent(s: seq<int>, x: int)
    requires x in s
    ensures RemoveFirst(s + [x], x) == s <==> forall j :: FirstIndex(s, x) <= j < |s| ==> s[j] == x
  {
    var i := FirstIndex(s, x);
    var head, tail := s[..i], s[i..];
    var r, rest := RemoveFirst(s + [x], x), tail[1..] + [x];
    assert r == head + rest by {
      AddThenRemoveDuplicate(s, x);
      RemoveFirstSplice(s, x);
      assert tail[1..] == s[i + 1..];
    }
    assert s == head + tail;
    PrefixCancel(head, rest, tail);
    ShiftFixedIff(tail, x);
    SuffixAll(s, i, x);
  }

  /** "Everything in `s[i..]` is `x`", stated on `s[i..]` and on `s`. */
  lemma SuffixAll(s: seq<int>, i: nat, x: int)
    requires i <= |s|
    ensures (forall j :: 0 <= j < |s[i..]| ==> s[i..][j] == x) <==> (forall j :: i <= j < |s| ==> s[j] == x)
  {
    if forall j :: 0 <= j < |s[i..]| ==> s[i..][j] == x {
      forall j | i <= j < |s| ensures s[j] == x {
        assert s[i..][j - i] == s[j];
      }
    }
  }

  /** Two lists with a common prefix are equal exactly when the rests are. */
  lemma PrefixCancel(p: seq<int>, a: seq<int>, b: seq<int>)
    ensures p + a == p + b <==> a == b
  {
    if p + a == p + b {
      assert a == (p + a)[|p|..];
      assert b == (p + b)[|p|..];
    }
  }

  /** An instance where the id is already in the cart and append-then-remove
      still gives the cart back, because the id's first copy is its last element. */
  lemma AddThenRemoveKeepsTrailingCopy()
    ensures RemoveFirst([1, 7] + [7], 7) == [1, 7]
  {
  }

  /** An instance where append-then-remove does not restore the order. */
  lemma AddThenRemoveReorders()
    ensures RemoveFirst([7, 8] + [7], 7) == [8, 7] != [7, 8]
  {
  }
}
