/** The two reversal utilities of the Go benchmark: in place and copying. */
module Reversal {
  import opened Bytes

  /** Two indices walk towards each other and swap what they point at. */
  method ReverseBytesInPlace(data: array<byte>)
    modifies data
    ensures data[..] == Reversed(old(data[..]))
  {
    var i, j := 0, data.Length - 1;
    while i < j
      invariant 0 <= i && i + j == data.Length - 1 && i <= j + 1
      invariant forall k :: 0 <= k < i || j < k < data.Length ==> data[k] == old(data[data.Length - 1 - k])
      invariant forall k :: i <= k <= j ==> data[k] == old(data[k])
    {
      data[i], data[j] := data[j], data[i];
      i, j := i + 1, j - 1;
    }
  }

  /** A fresh slice holding the reversal; the argument is left as it was. */
  method GetReversedBytes(data: array<byte>) returns (reversed: array<byte>)
    ensures fresh(reversed)
    ensures reversed[..] == Reversed(data[..])
  {
    reversed := new byte[data.Length];
    forall k | 0 <= k < data.Length {
      reversed[k] := data[k];
    }
    assert reversed[..] == data[..];
    ReverseBytesInPlace(reversed);
  }
}
