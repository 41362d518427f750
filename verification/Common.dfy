/** Small building blocks shared by every module of the model. */
module Common {

  datatype Option<+T> = None | Some(value: T)

  /** The outcome of a fallible call that reports the offset of its failure. */
  datatype Outcome<+T> = Ok(value: T) | Err(offset: nat)

  /** The sign of the three-way comparison of two integers, as Go's cmp.Compare returns it. */
  function CompareInt(a: int, b: int): (sign: int)
    ensures sign == 0 <==> a == b
    ensures sign < 0 <==> a < b
  {
    if a < b then -1 else if a > b then 1 else 0
  }

  /** `part` occurs in `whole` starting at index `i`. */
  predicate At<T(==)>(whole: seq<T>, i: nat, part: seq<T>) {
    i + |part| <= |whole| && whole[i..i + |part|] == part
  }

  lemma AtConcat<T>(whole: seq<T>, i: nat, a: seq<T>, b: seq<T>)
    ensures At(whole, i, a + b) <==> At(whole, i, a) && At(whole, i + |a|, b)
  {
    if At(whole, i, a + b) {
      assert whole[i..i + |a|] == (a + b)[..|a|];
      assert whole[i + |a|..i + |a| + |b|] == (a + b)[|a|..];
    }
    if At(whole, i, a) && At(whole, i + |a|, b) {
      assert whole[i..i + |a| + |b|] == whole[i..i + |a|] + whole[i + |a|..i + |a| + |b|];
    }
  }

  lemma AtIndex<T>(whole: seq<T>, i: nat, part: seq<T>, k: nat)
    requires At(whole, i, part) && k < |part|
    ensures whole[i + k] == part[k]
  {
    assert whole[i..i + |part|][k] == part[k];
  }
}
