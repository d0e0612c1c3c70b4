/**
 * The JavaScript string built-ins the core relies on: `trim`, `split` and its inverse `join`.
 * Strings are sequences of Unicode scalar values.
 */
module Strings {
  import opened Wrappers

  /** The characters `String.prototype.trim` removes: ECMAScript WhiteSpace and LineTerminator. */
  predicate IsSpace(c: char)
  {
    c in SpaceChars || '\U{2000}' <= c <= '\U{200A}'
  }

  const SpaceChars: set<char> := {
    ' ', '\t', '\n', '\r', '\U{B}', '\U{C}', '\U{A0}', '\U{1680}',
    '\U{2028}', '\U{2029}', '\U{202F}', '\U{205F}', '\U{3000}', '\U{FEFF}'
  }

  /** Every character of `s` is white space. */
  predicate AllSpace(s: string)
  {
    forall i :: 0 <= i < |s| ==> IsSpace(s[i])
  }

  /** `s` with its leading white space removed. */
  function TrimStart(s: string): string
  {
    if s != [] && IsSpace(s[0]) then TrimStart(s[1..]) else s
  }

  /** `s` with its trailing white space removed. */
  function TrimEnd(s: string): string
  {
    if s != [] && IsSpace(s[|s| - 1]) then TrimEnd(s[..|s| - 1]) else s
  }

  /** `s.trim()`: the text between the leading and the trailing white space. */
  function Trim(s: string): string
  {
    TrimEnd(TrimStart(s))
  }

  /** `TrimStart` drops a white-space prefix and stops at the first other character. */
  lemma {:induction false} TrimStartFacts(s: string)
    ensures |TrimStart(s)| <= |s| && s == s[..|s| - |TrimStart(s)|] + TrimStart(s)
    ensures AllSpace(s[..|s| - |TrimStart(s)|])
    ensures TrimStart(s) == [] || !IsSpace(TrimStart(s)[0])
  {
    if s != [] && IsSpace(s[0]) {
      var t := s[1..];
      TrimStartFacts(t);
      var r := TrimStart(t);
      assert TrimStart(s) == r;
      var n := |s| - |r|;
      assert s[..n] == [s[0]] + t[..|t| - |r|] && s == s[..n] + r by {
        assert s == [s[0]] + t;
      }
      assert AllSpace(s[..n]) by {
        AllSpaceAppend([s[0]], t[..|t| - |r|]);
      }
    }
  }

  lemma AllSpaceAppend(a: string, b: string)
    requires AllSpace(a) && AllSpace(b)
    ensures AllSpace(a + b)
  {
    forall i | 0 <= i < |a + b| ensures IsSpace((a + b)[i]) {
      if i < |a| {
        assert (a + b)[i] == a[i];
      } else {
        assert (a + b)[i] == b[i - |a|];
      }
    }
  }

  /** `TrimEnd` drops a white-space suffix and stops at the last other character. */
  lemma {:induction false} TrimEndFacts(s: string)
    ensures |TrimEnd(s)| <= |s| && s == TrimEnd(s) + s[|TrimEnd(s)|..]
    ensures AllSpace(s[|TrimEnd(s)|..])
    ensures TrimEnd(s) == [] || !IsSpace(TrimEnd(s)[|TrimEnd(s)| - 1])
  {
    if s != [] && IsSpace(s[|s| - 1]) {
      var p, last := s[..|s| - 1], s[|s| - 1];
      TrimEndFacts(p);
      var r := TrimEnd(p);
      assert TrimEnd(s) == r;
      assert s == p + [last];
      SnocSuffix(p, last, |r|);
      assert AllSpace(s[|r|..]) by {
        AllSpaceAppend(p[|r|..], [last]);
      }
    }
  }

  lemma SnocSuffix(p: string, last: char, n: nat)
    requires n <= |p|
    ensures (p + [last])[n..] == p[n..] + [last]
    ensures p[..n] + (p + [last])[n..] == p + [last]
  {
  }

  /** The result of `trim` neither starts nor ends with white space and is no longer than its input. */
  lemma TrimFacts(s: string)
    ensures |Trim(s)| <= |s|
    ensures Trim(s) == [] || (!IsSpace(Trim(s)[0]) && !IsSpace(Trim(s)[|Trim(s)| - 1]))
  {
    var t := TrimStart(s);
    TrimStartFacts(s);
    TrimEndFacts(t);
    if TrimEnd(t) != [] {
      assert t == TrimEnd(t) + t[|TrimEnd(t)|..];
      assert TrimEnd(t)[0] == t[0];
    }
  }

  /** `s.trim() === ''` exactly when `s` consists of white space only. */
  lemma TrimEmptyIffAllSpace(s: string)
    ensures Trim(s) == [] <==> AllSpace(s)
  {
    var t := TrimStart(s);
    TrimStartFacts(s);
    TrimEndFacts(t);
    if t != [] {
      assert !IsSpace(s[|s| - |t|]);
      assert TrimEnd(t) != [];
    }
  }

  /** Trimming twice is the same as trimming once. */
  lemma TrimIdempotent(s: string)
    ensures Trim(Trim(s)) == Trim(s)
  {
    var r := Trim(s);
    TrimFacts(s);
    assert TrimStart(r) == r;
    assert TrimEnd(r) == r;
  }

  /** `pieces.map(p => p.trim())`. */
  function TrimAll(pieces: seq<string>): (r: seq<string>)
    ensures |r| == |pieces|
    ensures forall i :: 0 <= i < |pieces| ==> r[i] == Trim(pieces[i])
  {
    seq(|pieces|, i requires 0 <= i < |pieces| => Trim(pieces[i]))
  }

  /** `sep` occurs in `s` starting at position `k`. */
  predicate OccursAt(s: string, sep: string, k: nat)
  {
    k + |sep| <= |s| && s[k..k + |sep|] == sep
  }

  /** The position of the first occurrence of `sep` in `s` at or after `from`. */
  function IndexOfFrom(s: string, sep: string, from: nat): (r: Option<nat>)
    requires sep != []
    ensures r.Some? ==> from <= r.value && OccursAt(s, sep, r.value)
    ensures r.Some? ==> forall k :: from <= k < r.value ==> !OccursAt(s, sep, k)
    ensures r.None? ==> forall k :: from <= k ==> !OccursAt(s, sep, k)
    decreases |s| - from
  {
    if from + |sep| > |s| then None
    else if s[from..from + |sep|] == sep then Some(from)
    else IndexOfFrom(s, sep, from + 1)
  }

  /**
   * `s.split(sep)`. An empty separator splits into single characters
   * (and the empty string into no pieces); otherwise the pieces are the
   * texts between non-overlapping occurrences of `sep`, left to right.
   */
  function Split(s: string, sep: string): (r: seq<string>)
    ensures sep != [] ==> |r| >= 1
    ensures sep == [] ==> |r| == |s| && forall i :: 0 <= i < |s| ==> r[i] == [s[i]]
    decreases |s|
  {
    if sep == [] then seq(|s|, i requires 0 <= i < |s| => [s[i]])
    else match IndexOfFrom(s, sep, 0)
      case None => [s]
      case Some(i) => [s[..i]] + Split(s[i + |sep|..], sep)
  }

  /** `pieces.join(sep)`. */
  function Join(pieces: seq<string>, sep: string): string
  {
    if pieces == [] then ""
    else if |pieces| == 1 then pieces[0]
    else pieces[0] + sep + Join(pieces[1..], sep)
  }

  /** Joining the pieces of a split with the same non-empty separator gives back the input. */
  lemma {:induction false} JoinSplit(s: string, sep: string)
    requires sep != []
    ensures Join(Split(s, sep), sep) == s
    decreases |s|
  {
    var found := IndexOfFrom(s, sep, 0);
    if found.None? {
      assert Split(s, sep) == [s];
    } else {
      var i := found.value;
      var rest := s[i + |sep|..];
      var tail := Split(rest, sep);
      JoinSplit(rest, sep);
      assert Split(s, sep) == [s[..i]] + tail;
      JoinCons(s[..i], tail, sep);
      SplitAround(s, i, |sep|);
    }
  }

  lemma SplitAround(s: string, i: nat, n: nat)
    requires i + n <= |s|
    ensures s == s[..i] + s[i..i + n] + s[i + n..]
  {
  }

  lemma JoinCons(head: string, tail: seq<string>, sep: string)
    requires tail != []
    ensures Join([head] + tail, sep) == head + sep + Join(tail, sep)
  {
    assert ([head] + tail)[1..] == tail;
  }

  /** No piece of a split contains the separator. */
  lemma {:induction false} SplitPiecesFree(s: string, sep: string, j: nat)
    requires sep != [] && j < |Split(s, sep)|
    ensures forall k :: !OccursAt(Split(s, sep)[j], sep, k)
    decreases |s|
  {
    match IndexOfFrom(s, sep, 0)
    case None =>
    case Some(i) =>
      if j > 0 {
        SplitPiecesFree(s[i + |sep|..], sep, j - 1);
      } else {
        forall k: nat ensures !OccursAt(s[..i], sep, k) {
          if k + |sep| <= i {
            assert s[..i][k..k + |sep|] == s[k..k + |sep|];
            assert !OccursAt(s, sep, k);
          }
        }
      }
  }

  /** A one-character separator occurs exactly where that character stands. */
  lemma OccursAtChar(s: string, c: char, k: nat)
    ensures OccursAt(s, [c], k) <==> k < |s| && s[k] == c
  {
    if k < |s| {
      assert s[k..k + 1] == [s[k]];
    }
  }

  /** `IndexOfFrom` is determined by its postconditions. */
  lemma IndexOfFromIs(s: string, sep: string, from: nat, o: Option<nat>)
    requires sep != []
    requires o.Some? ==> from <= o.value && OccursAt(s, sep, o.value)
    requires o.Some? ==> forall k :: from <= k < o.value ==> !OccursAt(s, sep, k)
    requires o.None? ==> forall k :: from <= k ==> !OccursAt(s, sep, k)
    ensures IndexOfFrom(s, sep, from) == o
  {
  }

  /** A first piece that holds no occurrence of the separator, followed by the separator, is split off whole. */
  lemma SplitCons(a: string, sep: string, b: string)
    requires sep != []
    requires forall k :: 0 <= k < |a| ==> !OccursAt(a + sep, sep, k)
    ensures Split(a + sep + b, sep) == [a] + Split(b, sep)
  {
    var s := a + sep + b;
    OccursEarlyAfterAppend(a + sep, sep, b, |a|);
    assert s[|a|..|a| + |sep|] == sep;
    IndexOfFromIs(s, sep, 0, Some(|a|));
    assert s[..|a|] == a;
    assert s[|a| + |sep|..] == b;
  }

  /** Appending text cannot create an occurrence that starts and ends inside the original. */
  lemma OccursEarlyAfterAppend(u: string, sep: string, b: string, n: nat)
    requires n + |sep| <= |u|
    requires forall k :: 0 <= k < n ==> !OccursAt(u, sep, k)
    ensures forall k :: 0 <= k < n ==> !OccursAt(u + b, sep, k)
  {
    forall k | 0 <= k < n ensures !OccursAt(u + b, sep, k) {
      assert !OccursAt(u, sep, k);
      assert (u + b)[k..k + |sep|] == u[k..k + |sep|];
    }
  }

  /** Splitting the join of pieces that avoid a one-character separator gives the pieces back. */
  lemma {:induction false} SplitJoin(pieces: seq<string>, c: char)
    requires pieces != [] && forall p :: p in pieces ==> c !in p
    ensures Split(Join(pieces, [c]), [c]) == pieces
    decreases |pieces|
  {
    var s := Join(pieces, [c]);
    var h := pieces[0];
    assert c !in h;
    if |pieces| == 1 {
      forall k: nat ensures !OccursAt(s, [c], k) {
        OccursAtChar(s, c, k);
        if k < |s| {
          assert s[k] in h;
        }
      }
      IndexOfFromIs(s, [c], 0, None);
    } else {
      var rest := Join(pieces[1..], [c]);
      assert s == h + [c] + rest;
      forall k: nat | k < |h| ensures !OccursAt(s, [c], k) {
        OccursAtChar(s, c, k);
        assert s[k] == h[k] && h[k] in h;
      }
      OccursAtChar(s, c, |h|);
      IndexOfFromIs(s, [c], 0, Some(|h|));
      assert s[..|h|] == h;
      assert s[|h| + 1..] == rest;
      SplitJoin(pieces[1..], c);
      assert pieces == [h] + pieces[1..];
    }
  }
}
