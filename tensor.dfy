/** An abstraction of the multidimensional array engine (`core::Tensor`) that the
    image is built on: a tensor handle is a value (shape, dtype, device, a
    contiguity flag, and an offset into a storage array); the storage itself is a
    heap array, so two handles that hold the same array share memory. */
module Tensors {

  /** Element types of the engine. */
  datatype Dtype = Float32 | Float64 | Int32 | Int64 | UInt8 | UInt16 | Bool

  /** Size in bytes of one element of the given dtype. */
  function ByteSize(d: Dtype): nat {
    match d
    case Float32 => 4
    case Float64 => 8
    case Int32 => 4
    case Int64 => 8
    case UInt8 => 1
    case UInt16 => 2
    case Bool => 1
  }

  predicate IsFloat(d: Dtype) {
    d == Float32 || d == Float64
  }

  predicate IsUnsignedInt(d: Dtype) {
    d == UInt8 || d == UInt16
  }

  function Pow2(n: nat): (p: nat)
    ensures p >= 1
  {
    if n == 0 then 1 else 2 * Pow2(n - 1)
  }

  /** Largest value an unsigned integer dtype can hold: 2^(8 * bytes) - 1. */
  function MaxValue(d: Dtype): nat
    requires IsUnsignedInt(d)
  {
    Pow2(8 * ByteSize(d)) - 1
  }

  /** A storage location; the model treats it as an opaque tag such as "CPU:0". */
  datatype Device = Device(name: string)

  const CPU0: Device := Device("CPU:0")

  /** Number of elements of a tensor of the given shape (1 for a scalar). */
  function Volume(shape: seq<nat>): nat {
    if shape == [] then 1 else shape[0] * Volume(shape[1..])
  }

  lemma VolumeOf3(shape: seq<nat>)
    requires |shape| == 3
    ensures Volume(shape) == shape[0] * shape[1] * shape[2]
  {
    assert shape[1..][1..] == shape[2..];
    assert shape[2..][1..] == [];
    assert Volume(shape[2..]) == shape[2];
    assert Volume(shape[1..]) == shape[1] * shape[2];
  }

  /** A tensor handle. When `contiguous` holds, its elements are
      storage[offset .. offset + Volume(shape)] in row-major order. */
  datatype Tensor = Tensor(shape: seq<nat>, dtype: Dtype, device: Device,
                           contiguous: bool, storage: array<int>, offset: nat)

  /** The engine's invariant: a contiguous tensor's elements lie inside its storage. */
  predicate WellFormed(t: Tensor) {
    t.contiguous ==> t.offset + Volume(t.shape) <= t.storage.Length
  }

  /** The elements a contiguous tensor denotes, read from its storage. */
  function Elements(t: Tensor): (xs: seq<int>)
    reads t.storage
    requires t.contiguous && WellFormed(t)
    ensures |xs| == Volume(t.shape)
    ensures forall i :: 0 <= i < |xs| ==> xs[i] == t.storage[t.offset + i]
  {
    t.storage[t.offset .. t.offset + Volume(t.shape)]
  }

  /** Assignment into a contiguous tensor (the engine's `tensor = values`): the
      tensor's elements become `values`, and no other storage cell changes. */
  method Assign(t: Tensor, values: seq<int>)
    requires t.contiguous && WellFormed(t) && |values| == Volume(t.shape)
    modifies t.storage
    ensures Elements(t) == values
    ensures forall k :: 0 <= k < t.storage.Length && !(t.offset <= k < t.offset + |values|)
              ==> t.storage[k] == old(t.storage[k])
  {
    var i := 0;
    while i < |values|
      invariant 0 <= i <= |values|
      invariant forall j :: 0 <= j < i ==> t.storage[t.offset + j] == values[j]
      invariant forall k :: 0 <= k < t.storage.Length && !(t.offset <= k < t.offset + i)
                  ==> t.storage[k] == old(t.storage[k])
    {
      t.storage[t.offset + i] := values[i];
      i := i + 1;
    }
  }

  /** The engine's element-wise evaluation of `scale * x + offset`, rounded into
      the given dtype. It is code the model cannot see, so every operation that
      needs it takes it as a parameter. */
  type Kernel = (Dtype, real, real, int) -> int

  /** The engine's kernel, evaluated in dtype d, applied to every element. */
  function MapKernel(xs: seq<int>, kernel: Kernel, d: Dtype, scale: real, offset: real): seq<int> {
    seq(|xs|, i requires 0 <= i < |xs| => kernel(d, scale, offset, xs[i]))
  }

  /** An engine law: scale 1 and offset 0 leave every value of dtype d as it is. */
  ghost predicate UnitIsIdentity(kernel: Kernel, d: Dtype) {
    forall x :: kernel(d, 1.0, 0.0, x) == x
  }
}
