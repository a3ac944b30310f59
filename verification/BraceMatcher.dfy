/** Finding the innermost balanced `{...}` around an index (`scripts/config_fields_check.py`, `_enclosing_object`). */
module BraceMatcher {
  import opened Wrappers

  /** Opening minus closing braces in `s[a..b]`. */
  function Net(s: string, a: nat, b: nat): int
    requires a <= b <= |s|
    decreases b - a
  {
    if a == b then 0 else Net(s, a, b - 1) + if s[b - 1] == '{' then 1 else if s[b - 1] == '}' then -1 else 0
  }

  lemma {:induction false} NetSplit(s: string, a: nat, m: nat, b: nat)
    requires a <= m <= b <= |s|
    ensures Net(s, a, b) == Net(s, a, m) + Net(s, m, b)
    decreases b - m
  {
    if m < b {
      NetSplit(s, a, m, b - 1);
    }
  }

  /** `s[open..close + 1]` is a block: its first brace is closed by its last and not earlier. */
  ghost predicate IsBlock(s: string, open: nat, close: nat) {
    open < close < |s| && s[open] == '{' && s[close] == '}' &&
    Net(s, open, close + 1) == 0 &&
    forall k :: open < k <= close ==> Net(s, open, k) > 0
  }

  /** A block around an index: it opens at or before the index and closes after it. */
  ghost predicate Encloses(s: string, open: nat, close: nat, index: int) {
    IsBlock(s, open, close) && open <= index < close
  }

  ghost predicate Innermost(s: string, open: nat, close: nat, index: int) {
    Encloses(s, open, close, index) &&
    forall o: nat, c: nat :: Encloses(s, o, c, index) ==> o <= open && close <= c
  }

  /** No suffix of `s[..stop]` that starts after `open` has an excess of opening braces. */
  ghost predicate NoOpenAfter(s: string, open: int, stop: nat) {
    stop <= |s| && forall k: nat :: open < k <= stop ==> Net(s, k, stop) <= 0
  }

  /** The brace the first loop stops at: open when seen from just after the index, and the nearest such. */
  ghost predicate IsNearestOpen(s: string, open: nat, stop: nat) {
    open < stop <= |s| && s[open] == '{' && Net(s, open, stop) == 1 && NoOpenAfter(s, open, stop)
  }

  lemma EnclosingBlocksOpenEarlier(s: string, open: int, index: nat, o: nat, c: nat)
    requires NoOpenAfter(s, open, index + 1) && Encloses(s, o, c, index)
    ensures o <= open
  {
    var net := Net(s, o, index + 1);
    assert net > 0;
  }

  lemma OpenStaysOpen(s: string, open: nat, stop: nat, k: nat)
    requires IsNearestOpen(s, open, stop) && open < k <= stop
    ensures Net(s, open, k) > 0
  {
    NetSplit(s, open, k, stop);
  }

  /** When a block closes, everything opened inside it has been closed. */
  lemma ClosedInside(s: string, open: nat, o: nat, c: nat)
    requires IsBlock(s, o, c) && o <= open <= c
    ensures Net(s, open, c + 1) <= 0
  {
    NetSplit(s, o, open, c + 1);
  }

  /** If the nearest open brace is never closed, no block encloses the index. */
  lemma UnclosedMeansNone(s: string, open: nat, index: nat, o: nat, c: nat)
    requires IsNearestOpen(s, open, index + 1)
    requires forall k :: open < k <= |s| ==> Net(s, open, k) > 0
    ensures !Encloses(s, o, c, index)
  {
    if Encloses(s, o, c, index) {
      EnclosingBlocksOpenEarlier(s, open, index, o, c);
      ClosedInside(s, open, o, c);
    }
  }

  /** Blocks around the index nest: an earlier opening closes no earlier. */
  lemma NestedClosesLater(s: string, open: nat, close: nat, index: nat, o: nat, c: nat)
    requires Encloses(s, open, close, index) && Encloses(s, o, c, index) && o <= open
    ensures close <= c
  {
    if c < close {
      ClosedInside(s, open, o, c);
    }
  }

  /**
   The innermost block around the index, or `None` exactly when there is none.
   For an index on a closing brace the block it closes does not count as
   enclosing; for every other character "around" is the plain reading.
   */
  method EnclosingObject(source: string, index: int) returns (r: Option<string>, ghost open: nat, ghost close: nat)
    requires index < |source|
    ensures r.Some? ==> Innermost(source, open, close, index) && r.value == source[open..close + 1]
    ensures r.None? ==> forall o: nat, c: nat :: !Encloses(source, o, c, index)
  {
    r, open, close := None, 0, 0;
    var start: Option<nat> := None;
    var depth := 0;
    var i := index;
    while i >= 0
      invariant i <= index && start.None?
      invariant i >= 0 ==> depth == -Net(source, i + 1, index + 1)
      invariant depth >= 0
      invariant index >= 0 ==> i >= -1 && NoOpenAfter(source, i, index + 1)
    {
      var ch := source[i];
      NetSplit(source, i, i + 1, index + 1);
      assert Net(source, i, i + 1) == Net(source, i, i) + if ch == '{' then 1 else if ch == '}' then -1 else 0;
      if ch == '}' {
        depth := depth + 1;
      } else if ch == '{' {
        if depth == 0 {
          start := Some(i);
          break;
        }
        depth := depth - 1;
      }
      i := i - 1;
    }
    if start.None? {
      forall o: nat, c: nat
        ensures !Encloses(source, o, c, index)
      {
        if Encloses(source, o, c, index) {
          EnclosingBlocksOpenEarlier(source, -1, index, o, c);
        }
      }
      return;
    }
    open := start.value;
    assert IsNearestOpen(source, open, index + 1);
    depth := 0;
    for j := start.value to |source|
      invariant depth == Net(source, start.value, j)
      invariant forall k :: open < k <= j ==> Net(source, open, k) > 0
    {
      var ch := source[j];
      if ch == '{' {
        depth := depth + 1;
      } else if ch == '}' {
        depth := depth - 1;
        if depth == 0 {
          close := j;
          if close <= index {
            OpenStaysOpen(source, open, index + 1, close + 1);
          }
          forall o: nat, c: nat | Encloses(source, o, c, index)
            ensures o <= open && close <= c
          {
            EnclosingBlocksOpenEarlier(source, open, index, o, c);
            NestedClosesLater(source, open, close, index, o, c);
          }
          return Some(source[start.value..j + 1]), open, close;
        }
      }
    }
    forall o: nat, c: nat
      ensures !Encloses(source, o, c, index)
    {
      UnclosedMeansNone(source, open, index, o, c);
    }
  }
}
