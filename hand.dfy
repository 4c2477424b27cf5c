/**
 * `Hand` of rust/game_core/src/lib.rs and its arithmetic: the total of the
 * cards, the bust test (total above 21) and the "Flip7" test, which asks
 * whether some sub-collection of the hand sums to exactly 7 by the recursive
 * search `can_sum_to_target`.
 */
module Hands {
  import opened Cards

  /** `Iterator::sum` over card values, in mathematical integers. */
  function Sum(values: seq<Card>): nat
  {
    if |values| == 0 then 0 else values[0] + Sum(values[1..])
  }

  /** The sequence without its element at position `k`. */
  function Remove(s: seq<Card>, k: nat): (r: seq<Card>)
    requires k < |s|
    ensures |r| == |s| - 1
  {
    s[..k] + s[k + 1..]
  }

  lemma {:induction false} SumAppend(a: seq<Card>, b: seq<Card>)
    ensures Sum(a + b) == Sum(a) + Sum(b)
  {
    if |a| > 0 {
      assert (a + b)[1..] == a[1..] + b;
      SumAppend(a[1..], b);
    } else {
      assert a + b == b;
    }
  }

  lemma {:induction false} SumRemove(s: seq<Card>, k: nat)
    requires k < |s|
    ensures Sum(s) == s[k] + Sum(Remove(s, k))
  {
    if k > 0 {
      assert Remove(s, k)[1..] == Remove(s[1..], k - 1);
      SumRemove(s[1..], k - 1);
    } else {
      assert Remove(s, 0) == s[1..];
    }
  }

  /** Some position of `s` holds `x` when `x` is in its multiset. */
  lemma IndexOf(s: seq<Card>, x: Card) returns (k: nat)
    requires x in multiset(s)
    ensures k < |s| && s[k] == x
  {
    assert x in s;
    k :| 0 <= k < |s| && s[k] == x;
  }

  /** Removing an element from both sides of a permutation keeps a permutation. */
  lemma RemovePermutation(a: seq<Card>, b: seq<Card>, k: nat)
    requires multiset(a) == multiset(b) && |a| > 0 && k < |b| && b[k] == a[0]
    ensures multiset(a[1..]) == multiset(Remove(b, k))
  {
    calc {
      multiset(a);
      { assert a == [a[0]] + a[1..]; }
      multiset{a[0]} + multiset(a[1..]);
    }
    calc {
      multiset(b);
      { assert b == b[..k] + ([b[k]] + b[k + 1..]); }
      multiset(b[..k]) + (multiset{b[k]} + multiset(b[k + 1..]));
      multiset{b[k]} + (multiset(b[..k]) + multiset(b[k + 1..]));
      multiset{b[k]} + multiset(Remove(b, k));
    }
    forall x: Card
      ensures multiset(a[1..])[x] == multiset(Remove(b, k))[x]
    {
      assert (multiset{a[0]} + multiset(a[1..]))[x] == (multiset{b[k]} + multiset(Remove(b, k)))[x];
    }
  }

  /** The total does not depend on the order of the cards. */
  lemma {:induction false} SumPermutation(a: seq<Card>, b: seq<Card>)
    requires multiset(a) == multiset(b)
    ensures Sum(a) == Sum(b)
    decreases |a|
  {
    if |a| == 0 {
      assert |multiset(b)| == 0;
    } else {
      assert a[0] in multiset(a);
      var k := IndexOf(b, a[0]);
      RemovePermutation(a, b, k);
      SumPermutation(a[1..], Remove(b, k));
      SumRemove(b, k);
    }
  }

  /**
   * The reference definition of "some sub-collection of `values` sums to
   * `t`": each card is either left out or taken.
   */
  predicate Reachable(values: seq<Card>, t: int)
  {
    if |values| == 0 then t == 0
    else Reachable(values[1..], t) || Reachable(values[1..], t - values[0])
  }

  /** The sub-collection that `mask` selects, in the order of `values`. */
  function Picked(values: seq<Card>, mask: seq<bool>): seq<Card>
    requires |mask| == |values|
  {
    if |values| == 0 then []
    else (if mask[0] then [values[0]] else []) + Picked(values[1..], mask[1..])
  }

  /** Some subsequence of `values` sums to exactly `t`. */
  ghost predicate SomeSubsequenceSums(values: seq<Card>, t: int)
  {
    exists mask: seq<bool> :: |mask| == |values| && Sum(Picked(values, mask)) == t
  }

  lemma {:induction false} PickedSum(values: seq<Card>, mask: seq<bool>)
    requires |mask| == |values| && |values| > 0
    ensures Sum(Picked(values, mask)) == (if mask[0] then values[0] else 0) + Sum(Picked(values[1..], mask[1..]))
  {
    SumAppend(if mask[0] then [values[0]] else [], Picked(values[1..], mask[1..]));
  }

  /** `Reachable` holds exactly when some subsequence has the target sum. */
  lemma {:induction false} ReachableIffSubsequence(values: seq<Card>, t: int)
    ensures Reachable(values, t) <==> SomeSubsequenceSums(values, t)
  {
    if Reachable(values, t) {
      var mask := ReachableWitness(values, t);
    }
    if SomeSubsequenceSums(values, t) {
      var mask: seq<bool> :| |mask| == |values| && Sum(Picked(values, mask)) == t;
      SubsequenceReachable(values, mask);
    }
  }

  lemma {:induction false} ReachableWitness(values: seq<Card>, t: int) returns (mask: seq<bool>)
    requires Reachable(values, t)
    ensures |mask| == |values| && Sum(Picked(values, mask)) == t
  {
    if |values| == 0 {
      mask := [];
    } else if Reachable(values[1..], t) {
      var rest := ReachableWitness(values[1..], t);
      mask := [false] + rest;
      assert mask[1..] == rest;
      PickedSum(values, mask);
    } else {
      var rest := ReachableWitness(values[1..], t - values[0]);
      mask := [true] + rest;
      assert mask[1..] == rest;
      PickedSum(values, mask);
    }
  }

  lemma {:induction false} SubsequenceReachable(values: seq<Card>, mask: seq<bool>)
    requires |mask| == |values|
    ensures Reachable(values, Sum(Picked(values, mask)))
  {
    if |values| > 0 {
      PickedSum(values, mask);
      SubsequenceReachable(values[1..], mask[1..]);
    }
  }

  /** The empty sub-collection always sums to 0. */
  lemma {:induction false} ReachableZero(values: seq<Card>)
    ensures Reachable(values, 0)
  {
    if |values| > 0 {
      ReachableZero(values[1..]);
    }
  }

  /** A reachable target lies between 0 and the total. */
  lemma {:induction false} ReachableBounds(values: seq<Card>, t: int)
    requires Reachable(values, t)
    ensures 0 <= t <= Sum(values)
  {
    if |values| > 0 {
      if Reachable(values[1..], t) {
        ReachableBounds(values[1..], t);
      } else {
        ReachableBounds(values[1..], t - values[0]);
      }
    }
  }

  /** Taking out one card: reachable iff reachable without it, or without it and with it taken. */
  lemma {:induction false} ReachableRemove(s: seq<Card>, k: nat, t: int)
    requires k < |s|
    ensures Reachable(s, t) <==> Reachable(Remove(s, k), t) || Reachable(Remove(s, k), t - s[k])
  {
    if k == 0 {
      assert Remove(s, 0) == s[1..];
    } else {
      var r := Remove(s, k);
      assert r[0] == s[0] && r[1..] == Remove(s[1..], k - 1);
      ReachableRemove(s[1..], k - 1, t);
      ReachableRemove(s[1..], k - 1, t - s[0]);
    }
  }

  /** Whether a target is reachable does not depend on the order of the cards. */
  lemma {:induction false} ReachablePermutation(a: seq<Card>, b: seq<Card>, t: int)
    requires multiset(a) == multiset(b)
    ensures Reachable(a, t) <==> Reachable(b, t)
    decreases |a|
  {
    if |a| == 0 {
      assert |multiset(b)| == 0;
    } else {
      assert a[0] in multiset(a);
      var k := IndexOf(b, a[0]);
      RemovePermutation(a, b, k);
      ReachablePermutation(a[1..], Remove(b, k), t);
      ReachablePermutation(a[1..], Remove(b, k), t - a[0]);
      ReachableRemove(b, k, t);
    }
  }

  /** A card added at the end never makes a reachable target unreachable. */
  lemma {:induction false} ReachableAppend(values: seq<Card>, c: Card, t: int)
    requires Reachable(values, t)
    ensures Reachable(values + [c], t)
  {
    if |values| > 0 {
      assert (values + [c])[1..] == values[1..] + [c];
      if Reachable(values[1..], t) {
        ReachableAppend(values[1..], c, t);
      } else {
        ReachableAppend(values[1..], c, t - values[0]);
      }
    } else {
      ReachableZero([c]);
    }
  }

  /** `ReachableBounds` as an implication, for the pruning steps where reachability is what is being decided. */
  lemma ReachableRange(values: seq<Card>, t: int)
    ensures Reachable(values, t) ==> 0 <= t <= Sum(values)
  {
    if Reachable(values, t) {
      ReachableBounds(values, t);
    }
  }

  /**
   * `Hand::can_sum_to_target`: true at once for target 0; false for no cards
   * or a target above the total; otherwise the scan below. It answers
   * exactly whether some sub-collection of the values reaches the target.
   */
  function CanSumToTarget(values: seq<Card>, target: nat): (r: bool)
    ensures r <==> Reachable(values, target)
    decreases |values|, 1
  {
    if target == 0 then
      ReachableZero(values);
      true
    else if |values| == 0 then false
    else if target > Sum(values) then
      ReachableRange(values, target);
      false
    else
      assert values[0..] == values;
      ScanFrom(values, target, 0)
  }

  /**
   * The `for (i, &value) in values.iter().enumerate()` loop of
   * `can_sum_to_target`, from position `i` on: return true on a card equal to
   * the target, or on a smaller card whose successors reach the rest. It
   * succeeds exactly when some sub-collection of the cards from `i` on
   * reaches the target.
   */
  function ScanFrom(values: seq<Card>, target: nat, i: nat): (r: bool)
    requires 0 < target && i <= |values|
    ensures r <==> Reachable(values[i..], target)
    decreases |values|, 0, |values| - i
  {
    if i == |values| then false
    else
      assert values[i..][1..] == values[i + 1..];
      if values[i] == target then
        ReachableZero(values[i + 1..]);
        true
      else if values[i] < target && CanSumToTarget(values[i + 1..], target - values[i]) then true
      else
        ReachableRange(values[i + 1..], target - values[i]);
        ScanFrom(values, target, i + 1)
  }

  /** `Hand { cards: Vec<Card> }`. */
  datatype Hand = Hand(cards: seq<Card>)
  {
    /** `Hand::add_card`: push at the end. */
    function AddCard(card: Card): (h: Hand)
      ensures h.cards == cards + [card]
      ensures h.TotalValue() == TotalValue() + card
    {
      SumAppend(cards, [card]);
      Hand(cards + [card])
    }

    /** `Hand::total_value`. */
    function TotalValue(): nat
    {
      Sum(cards)
    }

    /** `Hand::is_bust`: the total is above 21. */
    predicate IsBust()
    {
      TotalValue() > 21
    }

    /** `Hand::has_flip7`: some sub-collection sums to exactly 7, so the total is at least 7. */
    function HasFlip7(): (b: bool)
      ensures b <==> Reachable(cards, 7)
      ensures b ==> 7 <= TotalValue()
    {
      ReachableRange(cards, 7);
      CanSumToTarget(cards, 7)
    }
  }

  /** `has_flip7` holds exactly when some subsequence of the cards sums to 7. */
  lemma HasFlip7Spec(h: Hand)
    ensures h.HasFlip7() <==> SomeSubsequenceSums(h.cards, 7)
  {
    ReachableIffSubsequence(h.cards, 7);
  }

  /** The answer of `has_flip7` does not depend on the order of the cards. */
  lemma HasFlip7OrderIndependent(h1: Hand, h2: Hand)
    requires multiset(h1.cards) == multiset(h2.cards)
    ensures h1.HasFlip7() == h2.HasFlip7()
  {
    ReachablePermutation(h1.cards, h2.cards, 7);
  }

  /** Adding a card never turns `has_flip7` from true to false. */
  lemma HasFlip7Monotone(h: Hand, c: Card)
    requires h.HasFlip7()
    ensures h.AddCard(c).HasFlip7()
  {
    ReachableAppend(h.cards, c, 7);
  }

  /** The total and the bust test do not depend on the order of the cards. */
  lemma TotalOrderIndependent(h1: Hand, h2: Hand)
    requires multiset(h1.cards) == multiset(h2.cards)
    ensures h1.TotalValue() == h2.TotalValue() && h1.IsBust() == h2.IsBust()
  {
    SumPermutation(h1.cards, h2.cards);
  }

  /** The hands of the unit tests: [7], [3, 4] and [1, 2, 4] pass, [5, 6] does not; 10 + 12 is bust, 10 + 11 is not. */
  lemma SourceTestHands()
    ensures Hand([7]).HasFlip7() && Hand([3, 4]).HasFlip7() && Hand([1, 2, 4]).HasFlip7()
    ensures !Hand([5, 6]).HasFlip7()
    ensures Hand([10, 12]).IsBust() && !Hand([10, 11]).IsBust()
  {
    HasFlip7Spec(Hand([1, 2, 4]));
    assert Sum(Picked([1, 2, 4], [true, true, true])) == 7;
    HasFlip7Spec(Hand([5, 6]));
    forall mask: seq<bool> | |mask| == 2
      ensures Sum(Picked([5, 6], mask)) != 7
    {
      PickedSum([5, 6], mask);
      PickedSum([6], mask[1..]);
    }
  }
}
