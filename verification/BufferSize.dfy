/** The overflow-checked byte size of a tensor. */
module BufferSize {

  const SIZE_MAX := 0xFFFF_FFFF_FFFF_FFFF

  /** The mathematical number of elements. */
  function Product(dims: seq<nat>): nat {
    if dims == [] then 1 else Product(dims[..|dims| - 1]) * dims[|dims| - 1]
  }

  /** size_t multiplication wraps around. */
  function TimesSize(a: nat, b: nat): nat {
    a * b % (SIZE_MAX + 1)
  }

  /** The division test is the test for overflow. */
  lemma DivisionTest(a: nat, b: nat)
    requires b >= 1
    ensures a > SIZE_MAX / b <==> a * b > SIZE_MAX
  {
    var q, r := SIZE_MAX / b, SIZE_MAX % b;
    assert SIZE_MAX == q * b + r;
    if a > q {
      assert a * b >= (q + 1) * b;
      assert (q + 1) * b == q * b + b;
    } else {
      assert a * b <= q * b;
    }
  }

  lemma TimesAtLeast(a: nat, b: nat)
    requires b >= 1
    ensures a * b >= a
  {}

  /** Later dimensions, being positive, never bring an overflowed product back in range. */
  lemma {:induction false} ProductGrows(dims: seq<nat>, i: nat)
    requires i <= |dims| && forall k :: 0 <= k < |dims| ==> dims[k] >= 1
    ensures Product(dims[..i]) <= Product(dims)
  {
    if i == |dims| {
      assert dims[..i] == dims;
    } else {
      var shorter := dims[..|dims| - 1];
      ProductGrows(shorter, i);
      assert shorter[..i] == dims[..i];
      TimesAtLeast(Product(shorter), dims[|dims| - 1]);
    }
  }

  /** The test and the multiplication of one step: it fails exactly on overflow. */
  method Multiply(size: nat, factor: nat) returns (ok: bool, product: nat)
    requires factor >= 1
    ensures ok <==> size * factor <= SIZE_MAX
    ensures product == if ok then size * factor else size
  {
    DivisionTest(size, factor);
    if size > SIZE_MAX / factor {
      return false, size;
    }
    ok, product := true, TimesSize(size, factor);
  }

  /**
   * Succeeds exactly when the number of bytes fits in size_t, with that number. Dimensions
   * and item size are positive: the function divides by them.
   */
  method ComputeExpectedBufferSize(shape: seq<nat>, itemSize: nat) returns (ok: bool, expectedBufferSize: nat)
    requires forall k :: 0 <= k < |shape| ==> 1 <= shape[k] <= SIZE_MAX
    requires 1 <= itemSize <= SIZE_MAX
    ensures ok <==> Product(shape) * itemSize < 0x1_0000_0000_0000_0000
    ensures ok ==> expectedBufferSize == Product(shape) * itemSize
  {
    expectedBufferSize := 1;
    for i := 0 to |shape|
      invariant expectedBufferSize == Product(shape[..i]) <= SIZE_MAX
    {
      assert shape[..i + 1][..i] == shape[..i];
      ok, expectedBufferSize := Multiply(expectedBufferSize, shape[i]);
      if !ok {
        ProductGrows(shape, i + 1);
        TimesAtLeast(Product(shape), itemSize);
        return;
      }
    }
    assert shape[..|shape|] == shape;
    ok, expectedBufferSize := Multiply(expectedBufferSize, itemSize);
  }
}
