/**
 * Real-valued matrices as sequences of rows, standing in for numpy 2-D
 * arrays (first index = time sample, second index = object), and the
 * elementwise operations the track applies to them.
 */
module Matrices {

  type Matrix = seq<seq<real>>

  /** `m` has `rows` rows of exactly `cols` cells each. */
  predicate IsMatrix(m: Matrix, rows: nat, cols: nat)
  {
    |m| == rows && forall r :: 0 <= r < |m| ==> |m[r]| == cols
  }

  /** Column `j` of `m` (numpy `m[:, j]`). */
  function Column(m: Matrix, j: nat): (c: seq<real>)
    requires forall r :: 0 <= r < |m| ==> j < |m[r]|
  {
    seq(|m|, r requires 0 <= r < |m| => m[r][j])
  }

  /** Every cell of `s` plus `d` (numpy `s + d`). */
  function Plus(s: seq<real>, d: real): (r: seq<real>)
  {
    seq(|s|, k requires 0 <= k < |s| => s[k] + d)
  }

  /** Every cell of `s` times `f` (numpy `s * f`). */
  function Times(s: seq<real>, f: real): (r: seq<real>)
  {
    seq(|s|, k requires 0 <= k < |s| => s[k] * f)
  }

  /** Shifting commutes with dropping the first cell. */
  lemma PlusTail(s: seq<real>, d: real)
    requires |s| > 0
    ensures Plus(s, d)[1..] == Plus(s[1..], d)
  {
    assert forall k :: 0 <= k < |s| - 1 ==> Plus(s, d)[1..][k] == Plus(s[1..], d)[k];
  }

  /** Scaling commutes with dropping the first cell. */
  lemma TimesTail(s: seq<real>, f: real)
    requires |s| > 0
    ensures Times(s, f)[1..] == Times(s[1..], f)
  {
    assert forall k :: 0 <= k < |s| - 1 ==> Times(s, f)[1..][k] == Times(s[1..], f)[k];
  }

  /** Every cell of `m` plus `d` (numpy `m += d`). */
  function AddToAll(m: Matrix, d: real): (r: Matrix)
  {
    seq(|m|, r requires 0 <= r < |m| => Plus(m[r], d))
  }

  /** Every cell of `m` times `f` (numpy `m *= f`). */
  function MultiplyAll(m: Matrix, f: real): (r: Matrix)
  {
    seq(|m|, r requires 0 <= r < |m| => Times(m[r], f))
  }

  /** Adding a constant keeps the shape and shifts every cell. */
  lemma AddToAllCells(m: Matrix, d: real, rows: nat, cols: nat)
    requires IsMatrix(m, rows, cols)
    ensures IsMatrix(AddToAll(m, d), rows, cols)
    ensures forall r, j :: 0 <= r < rows && 0 <= j < cols ==> AddToAll(m, d)[r][j] == m[r][j] + d
  {
  }

  /** Multiplying by a constant keeps the shape and scales every cell. */
  lemma MultiplyAllCells(m: Matrix, f: real, rows: nat, cols: nat)
    requires IsMatrix(m, rows, cols)
    ensures IsMatrix(MultiplyAll(m, f), rows, cols)
    ensures forall r, j :: 0 <= r < rows && 0 <= j < cols ==> MultiplyAll(m, f)[r][j] == m[r][j] * f
  {
  }

  /** Shifting by `d` and then by `-d` restores every cell. */
  lemma AddToAllInverse(m: Matrix, d: real)
    ensures AddToAll(AddToAll(m, d), -d) == m
  {
    forall r | 0 <= r < |m|
      ensures AddToAll(AddToAll(m, d), -d)[r] == m[r]
    {
      assert Plus(Plus(m[r], d), -d) == m[r];
    }
  }

  /** Two shifts add up to one shift by the sum. */
  lemma AddToAllComposes(m: Matrix, d: real, e: real)
    ensures AddToAll(AddToAll(m, d), e) == AddToAll(m, d + e)
  {
    forall r | 0 <= r < |m|
      ensures AddToAll(AddToAll(m, d), e)[r] == AddToAll(m, d + e)[r]
    {
      assert Plus(Plus(m[r], d), e) == Plus(m[r], d + e);
    }
  }

  /** Scaling by a non-zero `f` and then by `1/f` restores every cell. */
  lemma MultiplyAllInverse(m: Matrix, f: real)
    requires f != 0.0
    ensures MultiplyAll(MultiplyAll(m, f), 1.0 / f) == m
  {
    forall r | 0 <= r < |m|
      ensures MultiplyAll(MultiplyAll(m, f), 1.0 / f)[r] == m[r]
    {
      forall k | 0 <= k < |m[r]|
        ensures Times(Times(m[r], f), 1.0 / f)[k] == m[r][k]
      {
        calc {
          m[r][k] * f * (1.0 / f);
          m[r][k] * (f * (1.0 / f));
          m[r][k];
        }
      }
      assert Times(Times(m[r], f), 1.0 / f) == m[r];
    }
  }

  /** Scaling a shifted matrix equals shifting the scaled matrix by the scaled offset. */
  lemma MultiplyAllAfterAddToAll(m: Matrix, d: real, f: real)
    ensures MultiplyAll(AddToAll(m, d), f) == AddToAll(MultiplyAll(m, f), d * f)
  {
    forall r | 0 <= r < |m|
      ensures MultiplyAll(AddToAll(m, d), f)[r] == AddToAll(MultiplyAll(m, f), d * f)[r]
    {
      forall k | 0 <= k < |m[r]|
        ensures Times(Plus(m[r], d), f)[k] == Plus(Times(m[r], f), d * f)[k]
      {
        assert (m[r][k] + d) * f == m[r][k] * f + d * f;
      }
      assert Times(Plus(m[r], d), f) == Plus(Times(m[r], f), d * f);
    }
  }

  /** A column of the shifted matrix is the shifted column. */
  lemma ColumnOfAddToAll(m: Matrix, d: real, rows: nat, cols: nat, j: nat)
    requires IsMatrix(m, rows, cols) && j < cols
    ensures Column(AddToAll(m, d), j) == Plus(Column(m, j), d)
  {
  }

  /** A column of the scaled matrix is the scaled column. */
  lemma ColumnOfMultiplyAll(m: Matrix, f: real, rows: nat, cols: nat, j: nat)
    requires IsMatrix(m, rows, cols) && j < cols
    ensures Column(MultiplyAll(m, f), j) == Times(Column(m, j), f)
  {
    forall r | 0 <= r < rows
      ensures Column(MultiplyAll(m, f), j)[r] == Times(Column(m, j), f)[r]
    {
      assert MultiplyAll(m, f)[r] == Times(m[r], f);
    }
  }
}
