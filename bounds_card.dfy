/** The bounds slider: one thumb per travel-time bound. When a thumb moves, the
    change handler keeps it at least `minBoundSize` minutes away from its
    neighbours, rewriting the slider's array of values in place. */
module BoundsCard {
  import opened Wrappers
  import opened Text
  import opened Config

  function Max(a: int, b: int): int { if a >= b then a else b }
  function Min(a: int, b: int): int { if a <= b then a else b }

  /** How the changed value is clamped: as the handler is written (the upper
      clamp starts again from the raw value) or with both clamps applied. */
  datatype Mode = AsWritten | Clamped

  /** Whether thumb `i` moved: `vals[i] !== newVal`, where a thumb past the end
      of `vals` reads `undefined` and so always counts as moved. */
  predicate Moved(vals: seq<int>, cur: seq<int>, i: nat)
    requires i < |cur|
  {
    i >= |vals| || vals[i] != cur[i]
  }

  /** The value the loop body writes at index `i`, given the array `cur` as the
      earlier iterations left it (only indices below `i` are rewritten yet). */
  function Adjusted(vals: seq<int>, cur: seq<int>, i: nat, mode: Mode): int
    requires i < |cur|
  {
    var newVal := cur[i];
    if !Moved(vals, cur, i) then newVal
    else
      var lower := if i > 0 then Max(cur[i - 1] + MinBoundSize, newVal) else newVal;
      if i < |cur| - 1 then Min(if mode == AsWritten then newVal else lower, cur[i + 1] - MinBoundSize)
      else lower
  }

  /** The array after the first `k` iterations of the loop. */
  function HandledUpTo(vals: seq<int>, nv: seq<int>, k: nat, mode: Mode): (cur: seq<int>)
    requires k <= |nv|
    ensures |cur| == |nv|
    ensures forall j :: k <= j < |nv| ==> cur[j] == nv[j]
    decreases k
  {
    if k == 0 then nv
    else
      var cur := HandledUpTo(vals, nv, k - 1, mode);
      cur[k - 1 := Adjusted(vals, cur, k - 1, mode)]
  }

  /** The array after the whole loop. */
  function Handled(vals: seq<int>, nv: seq<int>, mode: Mode): (r: seq<int>)
  {
    HandledUpTo(vals, nv, |nv|, mode)
  }

  /** `handleChange` as written: every moved thumb is first raised to its left
      neighbour plus the gap and then, unless it is the last, set to the smaller
      of its raw value and its right neighbour minus the gap. */
  method HandleChange(newVals: array<int>, vals: seq<int>)
    modifies newVals
    ensures newVals[..] == Handled(vals, old(newVals[..]), AsWritten)
  {
    ghost var nv := newVals[..];
    for i := 0 to newVals.Length
      invariant newVals[..] == HandledUpTo(vals, nv, i, AsWritten)
    {
      var newVal := newVals[i];
      if i >= |vals| || vals[i] != newVal {
        if i > 0 {
          newVals[i] := Max(newVals[i - 1] + MinBoundSize, newVal);
        }
        if i < newVals.Length - 1 {
          newVals[i] := Min(newVal, newVals[i + 1] - MinBoundSize);
        }
      }
    }
  }

  /** The handler with the upper clamp applied to the lower-clamped value. */
  method HandleChangeClamped(newVals: array<int>, vals: seq<int>)
    modifies newVals
    ensures newVals[..] == Handled(vals, old(newVals[..]), Clamped)
  {
    ghost var nv := newVals[..];
    for i := 0 to newVals.Length
      invariant newVals[..] == HandledUpTo(vals, nv, i, Clamped)
    {
      var newVal := newVals[i];
      if i >= |vals| || vals[i] != newVal {
        if i > 0 {
          newVals[i] := Max(newVals[i - 1] + MinBoundSize, newVal);
        }
        if i < newVals.Length - 1 {
          newVals[i] := Min(newVals[i], newVals[i + 1] - MinBoundSize);
        }
      }
    }
  }

  /** Later iterations leave the values already written alone. */
  lemma {:induction false} HandledUpToStable(vals: seq<int>, nv: seq<int>, k: nat, k': nat, mode: Mode)
    requires k <= k' <= |nv|
    ensures forall j :: 0 <= j < k ==> HandledUpTo(vals, nv, k', mode)[j] == HandledUpTo(vals, nv, k, mode)[j]
    decreases k' - k
  {
    if k < k' {
      HandledUpToStable(vals, nv, k, k' - 1, mode);
    }
  }

  /** What the handler as written leaves at each index: an unmoved thumb keeps
      its value; a moved thumb other than the last ends at the smaller of its
      raw value and its right neighbour minus the gap, whatever its left
      neighbour; the last moved thumb is raised to its left neighbour's final
      value plus the gap. */
  lemma HandleChangeResult(vals: seq<int>, nv: seq<int>, i: nat)
    requires i < |nv|
    ensures var r := Handled(vals, nv, AsWritten);
            r[i] == if !Moved(vals, nv, i) then nv[i]
                    else if i < |nv| - 1 then Min(nv[i], nv[i + 1] - MinBoundSize)
                    else if i > 0 then Max(r[i - 1] + MinBoundSize, nv[i])
                    else nv[i]
  {
    var cur := HandledUpTo(vals, nv, i, AsWritten);
    HandledUpToStable(vals, nv, i + 1, |nv|, AsWritten);
    if i > 0 {
      HandledUpToStable(vals, nv, i, |nv|, AsWritten);
    }
  }

  /** Neighbouring values are at least the gap apart. */
  predicate Spaced(vs: seq<int>)
  {
    forall k :: 0 < k < |vs| ==> vs[k - 1] + MinBoundSize <= vs[k]
  }

  /** One drag moves one thumb: the new values differ from the old at `i` only. */
  predicate OnlyMoved(vals: seq<int>, nv: seq<int>, i: nat)
  {
    |nv| == |vals| && i < |nv| && forall k :: 0 <= k < |nv| && k != i ==> nv[k] == vals[k]
  }

  /** With both clamps, dragging one thumb of well-spaced bounds leaves them
      well spaced. */
  lemma ClampedKeepsSpacing(vals: seq<int>, nv: seq<int>, i: nat)
    requires Spaced(vals) && OnlyMoved(vals, nv, i)
    ensures Spaced(Handled(vals, nv, Clamped))
  {
    var r := Handled(vals, nv, Clamped);
    var n := |nv|;
    var cur := HandledUpTo(vals, nv, i, Clamped);
    HandledUpToStable(vals, nv, i + 1, n, Clamped);
    forall k | 0 <= k <= i
      ensures HandledUpTo(vals, nv, k, Clamped) == nv
    {
      UntouchedPrefix(vals, nv, i, k);
    }
    assert cur == nv;
    if i > 0 && i < n - 1 {
      assert vals[i - 1] + MinBoundSize <= vals[i] && vals[i] + MinBoundSize <= vals[i + 1] by {
        assert 0 < i < |vals| && 0 < i + 1 < |vals|;
      }
    }
    forall k | i < k <= n
      ensures HandledUpTo(vals, nv, k, Clamped) == nv[i := r[i]]
    {
      UnmovedSuffix(vals, nv, i, r[i], k);
    }
    assert r == nv[i := r[i]];
  }

  /** Before the moved thumb, the loop rewrites nothing. */
  lemma {:induction false} UntouchedPrefix(vals: seq<int>, nv: seq<int>, i: nat, k: nat)
    requires OnlyMoved(vals, nv, i) && k <= i
    ensures HandledUpTo(vals, nv, k, Clamped) == nv
    decreases k
  {
    if k > 0 {
      UntouchedPrefix(vals, nv, i, k - 1);
    }
  }

  /** After the moved thumb, the loop rewrites nothing more. */
  lemma {:induction false} UnmovedSuffix(vals: seq<int>, nv: seq<int>, i: nat, v: int, k: nat)
    requires OnlyMoved(vals, nv, i) && i < k <= |nv|
    requires HandledUpTo(vals, nv, i + 1, Clamped) == nv[i := v]
    ensures HandledUpTo(vals, nv, k, Clamped) == nv[i := v]
    decreases k
  {
    if k > i + 1 {
      UnmovedSuffix(vals, nv, i, v, k - 1);
    }
  }

  /** As written, dragging the second of the default bounds down to 17 leaves
      it 2 minutes above the first, closer than the gap. */
  lemma InteriorLowerClampLost()
    ensures Spaced([15, 30, 45, 60]) && OnlyMoved([15, 30, 45, 60], [15, 17, 45, 60], 1)
    ensures Handled([15, 30, 45, 60], [15, 17, 45, 60], AsWritten) == [15, 17, 45, 60]
    ensures !Spaced(Handled([15, 30, 45, 60], [15, 17, 45, 60], AsWritten))
  {
    var vals := [15, 30, 45, 60];
    var nv := [15, 17, 45, 60];
    assert HandledUpTo(vals, nv, 1, AsWritten) == nv;
    assert HandledUpTo(vals, nv, 2, AsWritten) == nv;
    assert HandledUpTo(vals, nv, 3, AsWritten) == nv;
    assert HandledUpTo(vals, nv, 4, AsWritten) == nv;
    assert !(nv[0] + MinBoundSize <= nv[1]);
  }

  /** `valueLabelFormat`: "prev-val mins", where `prev` is "0" for the first thumb. */
  function ValueLabel(vals: seq<int>, val: int, i: nat): (caption: string)
    requires i > 0 ==> i - 1 < |vals|
    ensures |caption| > 7 && caption[|caption| - 5..] == " mins"
    ensures i == 0 ==> caption[..2] == "0-"
  {
    (if i == 0 then "0" else IntToString(vals[i - 1])) + "-" + IntToString(val) + " mins"
  }

  /** For non-negative values the label reads back: drop " mins" and split at
      '-' to get the previous bound (0 before the first) and the value. */
  lemma ValueLabelDecodes(vals: seq<int>, val: int, i: nat)
    requires i > 0 ==> i - 1 < |vals|
    requires val >= 0 && (i > 0 ==> vals[i - 1] >= 0)
    ensures var caption := ValueLabel(vals, val, i);
            var prev := if i == 0 then 0 else vals[i - 1];
            |caption| >= 5 && caption[|caption| - 5..] == " mins"
            && var parts := Split(caption[..|caption| - 5], '-');
            |parts| == 2 && ParseInt(parts[0]) == Some(prev) && ParseInt(parts[1]) == Some(val)
  {
    var prev := if i == 0 then 0 else vals[i - 1];
    var a := IntToString(prev);
    var b := IntToString(val);
    assert i == 0 ==> a == "0";
    var caption := ValueLabel(vals, val, i);
    assert caption == a + ['-'] + b + " mins";
    assert caption[..|caption| - 5] == a + ['-'] + b;
    assert '-' !in a && '-' !in b by {
      assert AllDigits(a) && AllDigits(b);
      DigitsAvoid(a, '-');
      DigitsAvoid(b, '-');
    }
    SplitJoin([a, b], '-');
    assert [a, b][1..] == [b];
    IntToStringRoundTrip(prev);
    IntToStringRoundTrip(val);
  }
}
