/**
 * `shuffleArray` (a copy sorted with a random comparator) and `Math.random()` index draws,
 * with the randomness supplied by the caller. A shuffle is driven by a list of picks: each
 * pick chooses the position, among the elements left, of the next element to take out
 * (the first one when the pick is out of range).
 */
module Shuffles {

  /** The pick at position `k`, or 0 once the picks run out. */
  function PickAt(picks: seq<nat>, k: nat): nat
  {
    if k < |picks| then picks[k] else 0
  }

  /** `array[Math.floor(Math.random() * array.length)]`: the element at `pick`, or the first one when `pick` is out of range. */
  function Draw<T>(s: seq<T>, pick: nat): (x: T)
    requires s != []
    ensures x in s
  {
    if pick < |s| then s[pick] else s[0]
  }

  /** `shuffleArray(s)`: a rearrangement of `s` chosen by `picks`. */
  function Shuffle<T>(s: seq<T>, picks: seq<nat>): (r: seq<T>)
    ensures multiset(r) == multiset(s)
    ensures |r| == |s|
    decreases |s|
  {
    if s == [] then []
    else
      var k := if PickAt(picks, 0) < |s| then PickAt(picks, 0) else 0;
      var rest := s[..k] + s[k + 1..];
      assert s == s[..k] + [s[k]] + s[k + 1..];
      [s[k]] + Shuffle(rest, if picks == [] then [] else picks[1..])
  }

  /** Every rearrangement of `s` is the outcome of some list of picks. */
  lemma {:induction false} ShuffleReaches<T>(s: seq<T>, t: seq<T>) returns (picks: seq<nat>)
    requires multiset(t) == multiset(s)
    ensures Shuffle(s, picks) == t
    decreases |s|
  {
    if s == [] {
      picks := [];
      assert |t| == 0;
    } else {
      var k := FirstPick(s, t);
      var more := ShuffleReaches(s[..k] + s[k + 1..], t[1..]);
      picks := [k] + more;
      ShuffleCons(s, k, more);
      assert t == [t[0]] + t[1..];
    }
  }

  /** The pick that brings the first element of a rearrangement `t` of `s` to the front. */
  lemma FirstPick<T>(s: seq<T>, t: seq<T>) returns (k: nat)
    requires s != [] && multiset(t) == multiset(s)
    ensures t != [] && k < |s| && s[k] == t[0]
    ensures multiset(t[1..]) == multiset(s[..k] + s[k + 1..])
  {
    assert |t| == |s| by {
      assert |multiset(t)| == |t| && |multiset(s)| == |s|;
    }
    assert t[0] in multiset(s);
    k :| 0 <= k < |s| && s[k] == t[0];
    RemoveFirst(s, k, t);
  }

  /** A first pick `k` takes `s[k]` and shuffles the rest with the remaining picks. */
  lemma ShuffleCons<T>(s: seq<T>, k: nat, more: seq<nat>)
    requires k < |s|
    ensures Shuffle(s, [k] + more) == [s[k]] + Shuffle(s[..k] + s[k + 1..], more)
  {
    var picks := [k] + more;
    assert picks != [] && PickAt(picks, 0) == k && picks[1..] == more;
    var rest := s[..k] + s[k + 1..];
    assert Shuffle(s, picks) == [s[k]] + Shuffle(rest, picks[1..]);
  }

  lemma RemoveFirst<T>(s: seq<T>, k: nat, t: seq<T>)
    requires k < |s| && t != [] && s[k] == t[0] && multiset(t) == multiset(s)
    ensures multiset(t[1..]) == multiset(s[..k] + s[k + 1..])
  {
    assert t == [t[0]] + t[1..];
    assert s == s[..k] + [s[k]] + s[k + 1..];
    calc {
      multiset(t[1..]);
      multiset(t) - multiset{t[0]};
      multiset(s) - multiset{s[k]};
      multiset(s[..k] + s[k + 1..]);
    }
  }

  /** `s.slice(0, n)`. */
  function Take<T>(s: seq<T>, n: nat): (r: seq<T>)
    ensures |r| == (if n < |s| then n else |s|)
    ensures r == s[..|r|]
  {
    if n < |s| then s[..n] else s
  }
}
