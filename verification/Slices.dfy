/** Array indexes and slices in 64-bit arithmetic, against section 2.3.4.2.2 of RFC 9535. */
module Slices {
  import opened Common
  import opened Syntax

  newtype int64 = x: int | -0x8000_0000_0000_0000 <= x < 0x8000_0000_0000_0000

  /** Up to this array length no intermediate result of the slice arithmetic leaves 64 bits: 2^63 - 2^53. */
  const MAX_LENGTH: int := 0x7FE0_0000_0000_0000

  // ---- The specification

  function Min(a: int, b: int): int {
    if a < b then a else b
  }

  function Max(a: int, b: int): int {
    if a < b then b else a
  }

  function Normalize(i: int, length: nat): int {
    if i >= 0 then i else length + i
  }

  /** The indexes `i`, `i + step`, `i + 2 * step`, ... that lie before `end`. */
  function Steps(i: int, end: int, step: int): seq<int>
    requires step != 0
    decreases if step > 0 then end - i else i - end
  {
    if (step > 0 && i < end) || (step < 0 && i > end) then [i] + Steps(i + step, end, step) else []
  }

  function ValueOr(x: Option<JsonInteger>, default: int): int {
    if x.Some? then x.value else default
  }

  /** The indexes a slice selects from an array, in order, as the RFC defines them. */
  function Selected(args: SliceArgs, length: nat): (s: seq<int>)
    ensures forall k | 0 <= k < |s| :: 0 <= s[k] < length
  {
    var step := ValueOr(args.step, 1);
    if step == 0 then []
    else if step > 0 then
      var start := Normalize(ValueOr(args.start, 0), length);
      var end := Normalize(ValueOr(args.end, length), length);
      StepsInside(Min(Max(start, 0), length), Min(Max(end, 0), length), step, 0, length);
      Steps(Min(Max(start, 0), length), Min(Max(end, 0), length), step)
    else
      var start := Normalize(ValueOr(args.start, length - 1), length);
      var end := Normalize(ValueOr(args.end, 0 - length - 1), length);
      StepsInside(Min(Max(start, -1), length - 1), Min(Max(end, -1), length - 1), step, 0, length);
      Steps(Min(Max(start, -1), length - 1), Min(Max(end, -1), length - 1), step)
  }

  lemma {:induction false} StepsInside(i: int, end: int, step: int, low: int, high: int)
    requires step > 0 ==> low <= i && end <= high
    requires step < 0 ==> i < high && low <= end + 1
    requires step != 0
    ensures forall k | 0 <= k < |Steps(i, end, step)| :: low <= Steps(i, end, step)[k] < high
    decreases if step > 0 then end - i else i - end
  {
    if (step > 0 && i < end) || (step < 0 && i > end) {
      StepsInside(i + step, end, step, low, high);
    }
  }

  /** The selected indexes form an arithmetic progression from the first one. */
  lemma {:induction false} StepsProgression(i: int, end: int, step: int, k: nat)
    requires step != 0 && k < |Steps(i, end, step)|
    ensures Steps(i, end, step)[k] == i + k * step
    decreases k
  {
    if k > 0 {
      StepsProgression(i + step, end, step, k - 1);
      assert (k - 1) * step == k * step - step;
    }
  }

  lemma StepsDistinct(i: int, end: int, step: int, j: nat, k: nat)
    requires step != 0 && j < k < |Steps(i, end, step)|
    ensures Steps(i, end, step)[j] != Steps(i, end, step)[k]
  {
    StepsProgression(i, end, step, j);
    StepsProgression(i, end, step, k);
    assert k * step - j * step == (k - j) * step;
    assert (k - j) * step != 0;
  }

  /** A slice never selects an index twice. */
  lemma SelectedDistinct(args: SliceArgs, length: nat)
    ensures forall j, k | 0 <= j < k < |Selected(args, length)| ::
            Selected(args, length)[j] != Selected(args, length)[k]
  {
    var step := ValueOr(args.step, 1);
    forall j, k | 0 <= j < k < |Selected(args, length)|
      ensures Selected(args, length)[j] != Selected(args, length)[k]
    {
      if step > 0 {
        var start := Normalize(ValueOr(args.start, 0), length);
        var end := Normalize(ValueOr(args.end, length), length);
        StepsDistinct(Min(Max(start, 0), length), Min(Max(end, 0), length), step, j, k);
      } else {
        var start := Normalize(ValueOr(args.start, length - 1), length);
        var end := Normalize(ValueOr(args.end, 0 - length - 1), length);
        StepsDistinct(Min(Max(start, -1), length - 1), Min(Max(end, -1), length - 1), step, j, k);
      }
    }
  }

  // ---- The indexes of a slice, without its loop

  /** The `n`-th term of an arithmetic progression. */
  function Term(first: int, step: int, n: nat): int {
    first + n * step
  }

  /** The place a bound names: from the front, or from the back if it is negative. */
  function Place(bound: JsonInteger, length: nat): int {
    if bound < 0 then bound + length else bound
  }

  /** Where a slice starts: its start bound, moved into the array from the side the step comes from. */
  function FirstIndex(args: SliceArgs, length: nat): int {
    if ValueOr(args.step, 1) > 0 then
      if args.start.None? || Place(args.start.value, length) < 0 then 0 else Place(args.start.value, length)
    else
      if args.start.None? || Place(args.start.value, length) >= length then length - 1
      else Place(args.start.value, length)
  }

  /** `k` lies before the end bound, in the direction of the step. */
  predicate BeforeEnd(args: SliceArgs, length: nat, k: int) {
    || args.end.None?
    || if ValueOr(args.step, 1) > 0 then k < Place(args.end.value, length) else k > Place(args.end.value, length)
  }

  lemma {:induction false} TermInSteps(i: int, end: int, step: int, n: nat)
    requires (step > 0 && Term(i, step, n) < end) || (step < 0 && Term(i, step, n) > end)
    ensures Term(i, step, n) in Steps(i, end, step)
    decreases n
  {
    TermMonotone(step, n);
    if n > 0 {
      TermShift(i, step, n - 1);
      TermInSteps(i + step, end, step, n - 1);
    }
  }

  lemma TermMonotone(step: int, n: nat)
    ensures step > 0 ==> n * step >= 0
    ensures step < 0 ==> n * step <= 0
  {
  }

  lemma TermShift(i: int, step: int, n: nat)
    ensures Term(i + step, step, n) == Term(i, step, n + 1)
  {
    assert (n + 1) * step == n * step + step;
  }

  lemma {:induction false} StepsBounded(i: int, end: int, step: int, k: nat)
    requires step != 0 && k < |Steps(i, end, step)|
    ensures if step > 0 then Steps(i, end, step)[k] < end else Steps(i, end, step)[k] > end
    decreases k
  {
    if k > 0 {
      StepsBounded(i + step, end, step, k - 1);
    }
  }

  lemma StepsMembers(i: int, end: int, step: int, k: int)
    requires step != 0
    ensures k in Steps(i, end, step)
            <==> (if step > 0 then k < end else k > end) && exists n: nat :: k == Term(i, step, n)
  {
    if k in Steps(i, end, step) {
      var n :| 0 <= n < |Steps(i, end, step)| && Steps(i, end, step)[n] == k;
      StepsProgression(i, end, step, n);
      StepsBounded(i, end, step, n);
      assert k == Term(i, step, n);
    }
    if (if step > 0 then k < end else k > end) && exists n: nat :: k == Term(i, step, n) {
      var n: nat :| k == Term(i, step, n);
      TermInSteps(i, end, step, n);
    }
  }

  /** A slice selects the terms from its first index on that lie inside the array and before its end bound. */
  lemma SelectedMembers(args: SliceArgs, length: nat, k: int)
    ensures k in Selected(args, length)
            <==> && args.step != Some(0) && 0 <= k < length && BeforeEnd(args, length, k)
                 && exists n: nat :: k == Term(FirstIndex(args, length), ValueOr(args.step, 1), n)
  {
    hide Steps, Term;
    var step := ValueOr(args.step, 1);
    if step > 0 {
      var start := Normalize(ValueOr(args.start, 0), length);
      var end := Normalize(ValueOr(args.end, length), length);
      StepsMembers(Min(Max(start, 0), length), Min(Max(end, 0), length), step, k);
      TermsFrom(FirstIndex(args, length), step, k);
      TermsFrom(Min(Max(start, 0), length), step, k);
    } else if step < 0 {
      var start := Normalize(ValueOr(args.start, length - 1), length);
      var end := Normalize(ValueOr(args.end, 0 - length - 1), length);
      StepsMembers(Min(Max(start, -1), length - 1), Min(Max(end, -1), length - 1), step, k);
      TermsFrom(FirstIndex(args, length), step, k);
      TermsFrom(Min(Max(start, -1), length - 1), step, k);
    }
  }

  /** No term lies behind the first, seen in the direction of the step. */
  lemma TermsFrom(first: int, step: int, k: int)
    requires step != 0
    ensures (exists n: nat :: k == Term(first, step, n)) ==> if step > 0 then first <= k else k <= first
  {
    if exists n: nat :: k == Term(first, step, n) {
      var n: nat :| k == Term(first, step, n);
      TermMonotone(step, n);
    }
  }

  /** The selected indexes ascend with a positive step and descend with a negative one. */
  lemma SelectedInOrder(args: SliceArgs, length: nat, i: nat, j: nat)
    requires i < j < |Selected(args, length)|
    ensures if ValueOr(args.step, 1) > 0 then Selected(args, length)[i] < Selected(args, length)[j]
            else Selected(args, length)[i] > Selected(args, length)[j]
  {
    hide Steps;
    var step := ValueOr(args.step, 1);
    if step > 0 {
      var start := Normalize(ValueOr(args.start, 0), length);
      var end := Normalize(ValueOr(args.end, length), length);
      StepsInOrder(Min(Max(start, 0), length), Min(Max(end, 0), length), step, i, j);
    } else if step < 0 {
      var start := Normalize(ValueOr(args.start, length - 1), length);
      var end := Normalize(ValueOr(args.end, 0 - length - 1), length);
      StepsInOrder(Min(Max(start, -1), length - 1), Min(Max(end, -1), length - 1), step, i, j);
    }
  }

  lemma StepsInOrder(i: int, end: int, step: int, j: nat, k: nat)
    requires step != 0 && j < k < |Steps(i, end, step)|
    ensures if step > 0 then Steps(i, end, step)[j] < Steps(i, end, step)[k]
            else Steps(i, end, step)[j] > Steps(i, end, step)[k]
  {
    hide Steps;
    StepsProgression(i, end, step, j);
    StepsProgression(i, end, step, k);
    TermMonotone(step, k - j - 1);
    assert k * step == j * step + (k - j - 1) * step + step;
  }

  // ---- The program

  datatype SliceBounds = SliceBounds(start: int64, end: int64, step: int64)

  /** Bounds as the resolver produces them for an array of this length. */
  predicate Resolved(b: SliceBounds, length: int64) {
    && 0 <= length as int <= MAX_LENGTH && b.step != 0
    && -MAX_JSON_INTEGER <= b.step as int <= MAX_JSON_INTEGER
    && (b.step > 0 ==> 0 <= b.start && b.end <= length && b.start as int <= MAX_LENGTH + MAX_JSON_INTEGER
                       && b.end as int >= -MAX_JSON_INTEGER - 1)
    && (b.step < 0 ==> b.start < length && -1 <= b.end && b.start as int >= -MAX_JSON_INTEGER)
  }

  method NormalizeIndex(index: JsonInteger, length: int64) returns (i: Option<nat>)
    requires 0 <= length as int <= MAX_LENGTH
    ensures i == var n := Normalize(index, length as int);
                 if 0 <= n < length as int then Some(n) else None
  {
    var n := index as int64;
    if n < 0 {
      n := n + length;
    }
    if n < 0 || n >= length {
      return None;
    }
    return Some(n as int);
  }

  method NormalizeSliceBounds(start0: int64, end0: int64, step: int64, length: int64) returns (start: int64, end: int64)
    requires 0 < length as int <= MAX_LENGTH && step != 0
    requires -MAX_JSON_INTEGER <= start0 as int <= MAX_LENGTH && -MAX_LENGTH - 1 <= end0 as int <= MAX_LENGTH
    requires step > 0 ==> end0 as int >= -MAX_JSON_INTEGER
    ensures step > 0 ==>
              && 0 <= start && end <= length && start as int <= MAX_LENGTH && end as int >= -MAX_JSON_INTEGER
              && Steps(start as int, end as int, step as int)
                 == Steps(Min(Max(Normalize(start0 as int, length as int), 0), length as int),
                          Min(Max(Normalize(end0 as int, length as int), 0), length as int), step as int)
    ensures step < 0 ==>
              && start < length && -1 <= end && start as int >= -MAX_JSON_INTEGER
              && Steps(start as int, end as int, step as int)
                 == Steps(Min(Max(Normalize(start0 as int, length as int), -1), length as int - 1),
                          Min(Max(Normalize(end0 as int, length as int), -1), length as int - 1), step as int)
  {
    start, end := start0, end0;
    if start < 0 {
      start := start + length;
      if start < 0 && step > 0 {
        start := 0;
      }
    } else if start >= length {
      if step < 0 {
        start := length - 1;
      }
    }

    if end < 0 {
      end := end + length;
      if end < 0 && step < 0 {
        end := -1;
      }
    } else if end > length {
      end := length;
    }
  }

  /** None for an empty array or step zero; otherwise bounds that step through exactly the selected indexes. */
  method ResolveSliceBounds(args: SliceArgs, length: int64) returns (b: Option<SliceBounds>)
    requires 0 <= length as int <= MAX_LENGTH
    ensures b.None? ==> Selected(args, length as int) == []
    ensures b.None? <==> length == 0 || args.step == Some(0)
    ensures b.Some? ==> Resolved(b.value, length)
                        && Steps(b.value.start as int, b.value.end as int, b.value.step as int)
                          == Selected(args, length as int)
  {
    if length == 0 {
      return None;
    }
    var step: int64 := 1;
    if args.step.Some? {
      step := args.step.value as int64;
    }
    if step == 0 {
      return None;
    }
    var start: int64, end: int64;
    if step > 0 {
      start := 0;
      if args.start.Some? {
        start := args.start.value as int64;
      }
      end := length;
      if args.end.Some? {
        end := args.end.value as int64;
      }
    } else {
      start := length - 1;
      if args.start.Some? {
        start := args.start.value as int64;
      }
      end := -length - 1;
      if args.end.Some? {
        end := args.end.value as int64;
      }
    }
    start, end := NormalizeSliceBounds(start, end, step, length);
    return Some(SliceBounds(start, end, step));
  }

  /** The number of indexes the bounds step through. */
  function Count(b: SliceBounds, length: int64): (n: int64)
    requires Resolved(b, length)
    ensures n as int == |Steps(b.start as int, b.end as int, b.step as int)|
  {
    StepsCount(b.start as int, b.end as int, b.step as int);
    if b.step > 0 then
      if b.end <= b.start then 0 else (b.end - b.start + b.step - 1) / b.step
    else if b.start <= b.end then 0
    else (b.start - b.end - b.step - 1) / -b.step
  }

  lemma DivideStep(x: int, d: int)
    requires d > 0
    ensures (x + d) / d == x / d + 1
  {
    var q, r := x / d, x % d;
    assert x == d * q + r;
    assert x + d == d * (q + 1) + r;
    DivideUnique(x + d, d, q + 1, r);
  }

  lemma SmallMultiple(d: int, k: int)
    requires d > 0 && -d < d * k < d
    ensures k == 0
  {
    MultipleOrder(d, k);
  }

  lemma MultipleOrder(d: int, k: int)
    requires d > 0
    ensures k >= 1 ==> d * k >= d
    ensures k <= -1 ==> d * k <= -d
  {
    if k >= 1 {
      assert d * (k - 1) >= 0;
    } else if k <= -1 {
      assert d * (-k - 1) >= 0;
    }
  }

  lemma DivideUnique(x: int, d: int, q: int, r: int)
    requires d > 0 && x == d * q + r && 0 <= r < d
    ensures x / d == q
  {
    var p, s := x / d, x % d;
    assert x == d * p + s;
    Distribute(d, p, q);
    SmallMultiple(d, p - q);
  }

  lemma Distribute(d: int, p: int, q: int)
    ensures d * (p - q) == d * p - d * q
  {
  }

  lemma {:induction false} StepsCount(i: int, end: int, step: int)
    requires step != 0
    ensures step > 0 ==> |Steps(i, end, step)| == if end <= i then 0 else (end - i + step - 1) / step
    ensures step < 0 ==> |Steps(i, end, step)| == if i <= end then 0 else (i - end - step - 1) / -step
    decreases if step > 0 then end - i else i - end
  {
    if step > 0 && i < end {
      StepsCount(i + step, end, step);
      DivideStep(end - i - 1, step);
      if end <= i + step {
        DivideUnique(end - i - 1, step, 0, end - i - 1);
      }
    } else if step < 0 && i > end {
      StepsCount(i + step, end, step);
      DivideStep(i - end - 1, -step);
      if i + step <= end {
        DivideUnique(i - end - 1, -step, 0, i - end - 1);
      }
    }
  }

  /** The loop over the selected indexes; the caller's callback sees them in this order. */
  method SliceIndexes(b: SliceBounds, length: int64) returns (indexes: seq<int>)
    requires Resolved(b, length)
    ensures indexes == Steps(b.start as int, b.end as int, b.step as int)
  {
    indexes := [];
    var i := b.start;
    if b.step > 0 {
      while i < b.end
        invariant 0 <= i && (i <= b.start || i as int < length as int + b.step as int)
        invariant indexes + Steps(i as int, b.end as int, b.step as int)
                  == Steps(b.start as int, b.end as int, b.step as int)
        decreases b.end as int - i as int
      {
        indexes := indexes + [i as int];
        i := i + b.step;
      }
    } else {
      while i > b.end
        invariant i < length && (i >= b.start || i as int > b.end as int + b.step as int)
        invariant indexes + Steps(i as int, b.end as int, b.step as int)
                  == Steps(b.start as int, b.end as int, b.step as int)
        decreases i as int - b.end as int
      {
        indexes := indexes + [i as int];
        i := i + b.step;
      }
    }
  }
}
