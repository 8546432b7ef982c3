/** The tensor-backed image: an image of rows x cols x channels elements held in
    one contiguous, row-major rank-3 tensor. Every geometric property is read
    back from that tensor; nothing is stored beside it. */
module Images {
  import opened Tensors

  datatype Error = InvalidArgument

  datatype Result<T> = Ok(value: T) | Err(error: Error)

  /** The geometry of an image. */
  datatype Shape = Shape(rows: nat, cols: nat, channels: nat)

  /** A (row, col, channel) coordinate. */
  datatype Index = Index(r: nat, c: nat, ch: nat)

  function Count(s: Shape): nat {
    s.rows * s.cols * s.channels
  }

  predicate InShape(s: Shape, i: Index) {
    i.r < s.rows && i.c < s.cols && i.ch < s.channels
  }

  /** A (row, col) pixel coordinate inside the image. */
  predicate IsPixel(s: Shape, r: int, c: int) {
    0 <= r < s.rows && 0 <= c < s.cols
  }

  // ---------------------------------------------------------------------------
  // Row-major layout

  /** Offset of element (r, c, ch) in row-major storage. */
  function Offset(s: Shape, i: Index): nat {
    (i.r * s.cols + i.c) * s.channels + i.ch
  }

  /** The coordinate stored at offset k: the inverse of Offset. */
  function Coords(s: Shape, k: nat): (i: Index)
    requires k < Count(s)
    ensures InShape(s, i) && Offset(s, i) == k
  {
    ProductPositive(s, k);
    var p := k / s.channels;
    DivBelow(k, s.channels, s.rows * s.cols);
    DivBelow(p, s.cols, s.rows);
    var i := Index(p / s.cols, p % s.cols, k % s.channels);
    assert p == i.r * s.cols + i.c;
    assert k == p * s.channels + i.ch;
    i
  }

  lemma ProductPositive(s: Shape, k: nat)
    requires k < Count(s)
    ensures s.rows > 0 && s.cols > 0 && s.channels > 0
  {
    EmptyIffZeroDim(s);
  }

  lemma DivBelow(k: nat, n: nat, m: nat)
    requires n > 0 && k < m * n
    ensures k / n < m
  {
    if k / n >= m {
      MulMono(m, k / n, n);
    }
  }

  lemma MulMono(a: nat, b: nat, n: nat)
    requires a <= b
    ensures a * n <= b * n
  {
  }

  /** Division by n undoes q * n + rem when rem < n. */
  lemma DivModOf(q: nat, n: nat, rem: nat)
    requires rem < n
    ensures (q * n + rem) / n == q && (q * n + rem) % n == rem
  {
    var x := q * n + rem;
    var d, m := x / n, x % n;
    assert x == d * n + m;
    if d > q {
      MulMono(q + 1, d, n);
      assert false;
    } else if d < q {
      MulMono(d + 1, q, n);
      assert false;
    }
  }

  /** Every in-shape coordinate lands inside the storage. */
  lemma OffsetInBounds(s: Shape, i: Index)
    requires InShape(s, i)
    ensures Offset(s, i) < Count(s)
  {
    PixelEnd(s, i.r, i.c);
  }

  /** The channels of pixel (r, c) end no later than the storage does. */
  lemma PixelEnd(s: Shape, r: nat, c: nat)
    requires IsPixel(s, r, c)
    ensures Offset(s, Index(r, c, 0)) + s.channels <= Count(s)
  {
    MulMono(r + 1, s.rows, s.cols);
    assert r * s.cols + c + 1 <= s.rows * s.cols;
    MulMono(r * s.cols + c + 1, s.rows * s.cols, s.channels);
    assert (r * s.cols + c + 1) * s.channels == (r * s.cols + c) * s.channels + s.channels;
  }

  /** Coords inverts Offset on in-shape coordinates. */
  lemma {:induction false} CoordsOfOffset(s: Shape, i: Index)
    requires InShape(s, i)
    ensures Offset(s, i) < Count(s) && Coords(s, Offset(s, i)) == i
  {
    OffsetInBounds(s, i);
    var p := i.r * s.cols + i.c;
    DivModOf(p, s.channels, i.ch);
    DivModOf(i.r, s.cols, i.c);
  }

  /** Two distinct in-shape coordinates never share a storage offset. */
  lemma OffsetInjective(s: Shape, i: Index, j: Index)
    requires InShape(s, i) && InShape(s, j) && i != j
    ensures Offset(s, i) != Offset(s, j)
  {
    CoordsOfOffset(s, i);
    CoordsOfOffset(s, j);
  }

  // ---------------------------------------------------------------------------
  // Construction checks

  /** The tensor constructor's requirements (contiguous, rank 2 or 3) and the
      image shape it reads off the tensor; rank 2 is one channel. */
  function CheckTensor(shape: seq<nat>, contiguous: bool): (r: Result<Shape>)
    ensures r.Ok? <==> contiguous && (|shape| == 2 || |shape| == 3)
    ensures r.Ok? ==> r.value.rows == shape[0] && r.value.cols == shape[1]
    ensures r.Ok? && |shape| == 2 ==> r.value.channels == 1
    ensures r.Ok? && |shape| == 3 ==> r.value.channels == shape[2]
    ensures r.Ok? ==> Count(r.value) == Volume(shape)
  {
    if !contiguous then Err(InvalidArgument)
    else if |shape| == 2 then
      VolumeOf2(shape);
      Ok(Shape(shape[0], shape[1], 1))
    else if |shape| == 3 then
      VolumeOf3(shape);
      Ok(Shape(shape[0], shape[1], shape[2]))
    else Err(InvalidArgument)
  }

  lemma VolumeOf2(shape: seq<nat>)
    requires |shape| == 2
    ensures Volume(shape) == shape[0] * shape[1]
  {
    assert shape[1..][1..] == [];
    assert Volume(shape[1..]) == shape[1];
  }

  /** A freshly constructed image is empty exactly when rows or cols is 0. */
  lemma FreshImageEmptyIff(rows: nat, cols: nat, channels: nat)
    requires channels > 0
    ensures Count(Shape(rows, cols, channels)) == 0 <==> rows == 0 || cols == 0
  {
    var s := Shape(rows, cols, channels);
    if rows > 0 && cols > 0 {
      ProductPositiveIff(s);
    }
  }

  lemma EmptyIffZeroDim(s: Shape)
    ensures Count(s) == 0 <==> s.rows == 0 || s.cols == 0 || s.channels == 0
  {
    if s.rows > 0 && s.cols > 0 && s.channels > 0 {
      ProductPositiveIff(s);
    }
  }

  lemma ProductPositiveIff(s: Shape)
    requires s.rows > 0 && s.cols > 0 && s.channels > 0
    ensures Count(s) > 0
  {
    MulMono(1, s.rows, s.cols);
    MulMono(1, s.rows * s.cols, s.channels);
  }

  // ---------------------------------------------------------------------------
  // Conversion scale

  /** The sentinel for "scale not given": the most negative finite double. */
  const ScaleDefault: real := -179769313486231570814527423731704356798070567525844996598917476803157260780028538760589558632766878171540458953514382464234321326889464182768467546703537516986049910576551282076245490090389328944075868508455133942304583236903222948165808559332123348274797826204144723168738177180919299881250404026184124858368.0

  /** The scale ConvertTo uses when none is given: an unsigned integer image
      converted to floating point is normalised so that its largest value
      becomes 1 (1/255 for UInt8, 1/65535 for UInt16); every other pair uses 1. */
  function DefaultScale(src: Dtype, dst: Dtype): (s: real)
    ensures IsUnsignedInt(src) && IsFloat(dst) ==> s * (MaxValue(src) as real) == 1.0
    ensures !(IsUnsignedInt(src) && IsFloat(dst)) ==> s == 1.0
  {
    MaxValues();
    if IsFloat(dst) && src == UInt8 then 1.0 / 255.0
    else if IsFloat(dst) && src == UInt16 then 1.0 / 65535.0
    else 1.0
  }

  lemma MaxValues()
    ensures MaxValue(UInt8) == 255 && MaxValue(UInt16) == 65535
  {
    assert Pow2(8) == 256;
    assert Pow2(16) == 256 * Pow2(8) by {
      assert Pow2(16) == 2 * 2 * 2 * 2 * 2 * 2 * 2 * 2 * Pow2(8);
    }
  }

  /** With scale and offset left at their defaults, converting to the image's
      own dtype applies scale 1; under an engine for which scale 1 and offset 0
      are the identity, the converted elements are the original ones, which is
      why the no-copy path may share storage. */
  lemma {:induction false} SameDtypeDefaultIsIdentity(xs: seq<int>, kernel: Kernel, d: Dtype)
    requires UnitIsIdentity(kernel, d)
    ensures DefaultScale(d, d) == 1.0
    ensures MapKernel(xs, kernel, d, DefaultScale(d, d), 0.0) == xs
  {
    var ys := MapKernel(xs, kernel, d, DefaultScale(d, d), 0.0);
    forall i | 0 <= i < |xs| ensures ys[i] == xs[i] {
      assert ys[i] == kernel(d, 1.0, 0.0, xs[i]);
    }
  }

  // ---------------------------------------------------------------------------
  // The image

  class Image {
    /** The backing tensor: contiguous, rank 3, shape {rows, cols, channels}. */
    var data: Tensor

    ghost predicate Valid()
      reads this
    {
      |data.shape| == 3 && data.contiguous && WellFormed(data)
    }

    /** Geometry constructor: fresh storage of shape {rows, cols, channels}. */
    constructor (rows: int := 0, cols: int := 0, channels: int := 1,
                 dtype: Dtype := Float32, device: Device := CPU0)
      requires rows >= 0 && cols >= 0 && channels > 0
      ensures Valid() && fresh(data.storage)
      ensures GetRows() == rows && GetCols() == cols && GetChannels() == channels
      ensures GetDtype() == dtype && GetDevice() == device
      ensures IsEmpty() <==> rows == 0 || cols == 0
    {
      var shape: seq<nat> := [rows, cols, channels];
      VolumeOf3(shape);
      var storage := new int[rows * cols * channels];
      data := Tensor(shape, dtype, device, true, storage, 0);
      new;
      FreshImageEmptyIff(rows, cols, channels);
    }

    /** Tensor constructor: wraps the tensor without copying; a rank-2 tensor
        is read as a single-channel image. */
    constructor FromTensor(t: Tensor)
      requires WellFormed(t) && CheckTensor(t.shape, t.contiguous).Ok?
      ensures Valid() && GetShape() == CheckTensor(t.shape, t.contiguous).value
      ensures GetDtype() == t.dtype && GetDevice() == t.device
      ensures data.storage == t.storage && data.offset == t.offset
      ensures Pixels() == Elements(t)
    {
      var s := CheckTensor(t.shape, t.contiguous).value;
      var shape: seq<nat> := [s.rows, s.cols, s.channels];
      VolumeOf3(shape);
      data := Tensor(shape, t.dtype, t.device, true, t.storage, t.offset);
    }

    /** Dimension 0 of the backing tensor. */
    function GetRows(): (n: nat)
      reads this
      requires Valid()
      ensures n == data.shape[0]
    {
      data.shape[0]
    }

    /** Dimension 1 of the backing tensor. */
    function GetCols(): (n: nat)
      reads this
      requires Valid()
      ensures n == data.shape[1]
    {
      data.shape[1]
    }

    /** Dimension 2 of the backing tensor. */
    function GetChannels(): (n: nat)
      reads this
      requires Valid()
      ensures n == data.shape[2]
    {
      data.shape[2]
    }

    /** The backing tensor's dtype. */
    function GetDtype(): (d: Dtype)
      reads this
      ensures d == data.dtype
    {
      data.dtype
    }

    /** The backing tensor's device. */
    function GetDevice(): (d: Device)
      reads this
      ensures d == data.device
    {
      data.device
    }

    /** The image geometry read from the tensor; it accounts for every element. */
    function GetShape(): (s: Shape)
      reads this
      requires Valid()
      ensures s.rows == GetRows() && s.cols == GetCols() && s.channels == GetChannels()
      ensures Count(s) == Volume(data.shape)
    {
      VolumeOf3(data.shape);
      Shape(GetRows(), GetCols(), GetChannels())
    }

    /** The image's elements in row-major order. */
    function Pixels(): (xs: seq<int>)
      reads this, data.storage
      requires Valid()
      ensures |xs| == Count(GetShape())
    {
      Elements(data)
    }

    /** Element (r, c, ch) of the image. */
    function Element(i: Index): int
      reads this, data.storage
      requires Valid() && InShape(GetShape(), i)
      ensures data.offset + Offset(GetShape(), i) < data.storage.Length
      ensures Element(i) == data.storage[data.offset + Offset(GetShape(), i)]
    {
      OffsetInBounds(GetShape(), i);
      Pixels()[Offset(GetShape(), i)]
    }

    /** True when the image holds no element. */
    function IsEmpty(): (empty: bool)
      reads this
      requires Valid()
      ensures empty <==> GetRows() == 0 || GetCols() == 0 || GetChannels() == 0
    {
      var s := GetShape();
      EmptyIffZeroDim(s);
      GetRows() * GetCols() * GetChannels() == 0
    }

    /** Resets rows and cols to 0 with fresh storage, keeping channels, dtype and
        device; returns the image itself. */
    method Clear() returns (r: Image)
      requires Valid()
      modifies this
      ensures r == this && Valid() && fresh(data.storage)
      ensures GetRows() == 0 && GetCols() == 0 && IsEmpty()
      ensures GetChannels() == old(GetChannels())
      ensures GetDtype() == old(GetDtype()) && GetDevice() == old(GetDevice())
    {
      var shape: seq<nat> := [0, 0, GetChannels()];
      VolumeOf3(shape);
      var storage := new int[0];
      data := Tensor(shape, GetDtype(), GetDevice(), true, storage, 0);
      r := this;
    }

    /** The pixel at (r, c) as a live view into the image's storage: a scalar
        when there is one channel, otherwise a vector of `channels` elements. */
    function At(r: nat, c: nat): (v: Tensor)
      reads this
      requires Valid() && IsPixel(GetShape(), r, c)
      ensures v.storage == data.storage && v.contiguous && WellFormed(v)
      ensures v.shape == if GetChannels() == 1 then [] else [GetChannels()]
      ensures Volume(v.shape) == GetChannels()
      ensures v.dtype == GetDtype() && v.device == GetDevice()
      ensures v.offset == data.offset + Offset(GetShape(), Index(r, c, 0))
    {
      var s := GetShape();
      PixelEnd(s, r, c);
      var shape: seq<nat> := if s.channels == 1 then [] else [s.channels];
      assert Volume(shape) == s.channels by {
        if s.channels != 1 { assert shape[1..] == []; }
      }
      var off := data.offset + Offset(s, Index(r, c, 0));
      assert off + Volume(shape) <= data.offset + Count(s) <= data.storage.Length;
      Tensor(shape, GetDtype(), GetDevice(), true, data.storage, off)
    }

    /** Element (r, c, ch) as a live scalar view into the image's storage. */
    function AtChannel(r: nat, c: nat, ch: nat): (v: Tensor)
      reads this
      requires Valid() && InShape(GetShape(), Index(r, c, ch))
      ensures v.storage == data.storage && v.contiguous && WellFormed(v) && v.shape == []
      ensures v.dtype == GetDtype() && v.device == GetDevice()
      ensures v.offset == data.offset + Offset(GetShape(), Index(r, c, ch))
    {
      OffsetInBounds(GetShape(), Index(r, c, ch));
      Tensor([], GetDtype(), GetDevice(), true, data.storage,
             data.offset + Offset(GetShape(), Index(r, c, ch)))
    }

    /** The backing tensor, shared with the image: the rank-3 shape
        {rows, cols, channels}, the image's dtype and device, and its storage
        at its offset. It passes the tensor constructor's checks, gives back the
        same geometry, and denotes the image's elements. */
    function AsTensor(): (t: Tensor)
      reads this
      requires Valid()
      ensures t.shape == [GetRows(), GetCols(), GetChannels()] && t.contiguous
      ensures t.dtype == GetDtype() && t.device == GetDevice()
      ensures t.storage == data.storage && t.offset == data.offset && WellFormed(t)
      ensures CheckTensor(t.shape, t.contiguous) == Ok(GetShape())
      ensures Elements(t) == Pixels()
    {
      data
    }

    /** Smallest 2D coordinate of the image. */
    function GetMinBound(): (b: seq<int>)
      ensures |b| == 2
    {
      [0, 0]
    }

    /** Largest 2D coordinate of the image, exclusive. */
    function GetMaxBound(): (b: seq<int>)
      reads this
      requires Valid()
      ensures |b| == 2
    {
      [GetRows(), GetCols()]
    }

    /** Returns an image of the target dtype. Without `copy`, and when the dtype
        already matches, the result shares this image's storage; otherwise it
        owns fresh storage holding `scale * x + offset` for every element. */
    method ConvertTo(kernel: Kernel, dtype: Dtype, scale: real := ScaleDefault,
                     offset: real := 0.0, copy: bool := false) returns (r: Image)
      requires Valid()
      ensures fresh(r) && r.Valid()
      ensures r.GetShape() == GetShape() && r.GetDtype() == dtype && r.GetDevice() == GetDevice()
      ensures !copy && dtype == GetDtype() ==> r.data == data && r.Pixels() == Pixels()
      ensures copy || dtype != GetDtype() ==> fresh(r.data.storage)
      ensures (copy || dtype != GetDtype()) && scale == ScaleDefault ==>
                r.Pixels() == MapKernel(Pixels(), kernel, dtype, DefaultScale(GetDtype(), dtype), offset)
      ensures (copy || dtype != GetDtype()) && scale != ScaleDefault ==>
                r.Pixels() == MapKernel(Pixels(), kernel, dtype, scale, offset)
    {
      if !copy && dtype == GetDtype() {
        r := new Image.FromTensor(data);
        return;
      }
      var s := if scale == ScaleDefault then DefaultScale(GetDtype(), dtype) else scale;
      r := Converted(kernel, dtype, s, offset);
    }

    /** A new image over fresh storage holding every element converted into
        dtype under the given scale and offset. */
    method Converted(kernel: Kernel, dtype: Dtype, scale: real, offset: real) returns (r: Image)
      requires Valid()
      ensures fresh(r) && r.Valid() && fresh(r.data.storage)
      ensures r.GetShape() == GetShape() && r.GetDtype() == dtype && r.GetDevice() == GetDevice()
      ensures r.Pixels() == MapKernel(Pixels(), kernel, dtype, scale, offset)
    {
      ghost var px := Pixels();
      var n := Volume(data.shape);
      var buf := new int[n];
      var i := 0;
      while i < n
        invariant 0 <= i <= n
        invariant forall j :: 0 <= j < i ==> buf[j] == kernel(dtype, scale, offset, data.storage[data.offset + j])
      {
        buf[i] := kernel(dtype, scale, offset, data.storage[data.offset + i]);
        i := i + 1;
      }
      assert buf[..] == MapKernel(px, kernel, dtype, scale, offset);
      var t := Tensor(data.shape, dtype, GetDevice(), true, buf, 0);
      assert Elements(t) == buf[..];
      r := new Image.FromTensor(t);
    }

    /** Transforms every element in place to `scale * x + offset`, in the
        image's own dtype; the result is an image over the same tensor. */
    method LinearTransform(kernel: Kernel, scale: real := 1.0, offset: real := 0.0)
      returns (r: Image)
      requires Valid()
      modifies data.storage
      ensures fresh(r) && r.data == data && data == old(data) && Valid()
      ensures Pixels() == MapKernel(old(Pixels()), kernel, GetDtype(), scale, offset)
      ensures forall k :: 0 <= k < data.storage.Length &&
                !(data.offset <= k < data.offset + Count(GetShape()))
                ==> data.storage[k] == old(data.storage[k])
    {
      var a, off, n := data.storage, data.offset, Volume(data.shape);
      ghost var before := a[..];
      var i := 0;
      while i < n
        invariant 0 <= i <= n && data == old(data)
        invariant forall k :: off <= k < off + i ==> a[k] == kernel(data.dtype, scale, offset, before[k])
        invariant forall k :: 0 <= k < a.Length && !(off <= k < off + i) ==> a[k] == before[k]
      {
        a[off + i] := kernel(data.dtype, scale, offset, a[off + i]);
        i := i + 1;
      }
      r := new Image.FromTensor(data);
    }
  }

  // ---------------------------------------------------------------------------
  // Validated construction and laws about the image

  /** The geometry constructor with its argument checks: invalid geometry is
      reported as InvalidArgument and allocates nothing. */
  method Make(rows: int, cols: int, channels: int, dtype: Dtype, device: Device)
    returns (r: Result<Image>)
    ensures r.Err? <==> rows < 0 || cols < 0 || channels <= 0
    ensures r.Ok? ==> fresh(r.value) && r.value.Valid() && fresh(r.value.data.storage)
    ensures r.Ok? ==> r.value.GetRows() == rows && r.value.GetCols() == cols &&
                      r.value.GetChannels() == channels
    ensures r.Ok? ==> r.value.GetDtype() == dtype && r.value.GetDevice() == device
  {
    if rows < 0 || cols < 0 || channels <= 0 {
      return Err(InvalidArgument);
    }
    var img := new Image(rows, cols, channels, dtype, device);
    r := Ok(img);
  }

  /** The tensor constructor with its argument checks. */
  method MakeFromTensor(t: Tensor) returns (r: Result<Image>)
    requires WellFormed(t)
    ensures r.Err? <==> CheckTensor(t.shape, t.contiguous).Err?
    ensures r.Ok? ==> fresh(r.value) && r.value.Valid()
    ensures r.Ok? ==> r.value.GetShape() == CheckTensor(t.shape, t.contiguous).value
    ensures r.Ok? ==> r.value.data.storage == t.storage && r.value.data.offset == t.offset
    ensures r.Ok? ==> r.value.GetDtype() == t.dtype && r.value.GetDevice() == t.device
    ensures r.Ok? ==> r.value.Pixels() == Elements(t)
  {
    if CheckTensor(t.shape, t.contiguous).Err? {
      return Err(InvalidArgument);
    }
    var img := new Image.FromTensor(t);
    r := Ok(img);
  }

  /** Aliasing law: an image that wraps a tensor's storage reads that tensor's
      elements, in row-major order, in every state of the heap; so a write
      through either handle is seen through the other. */
  lemma TensorAliasing(img: Image, t: Tensor)
    requires img.Valid() && WellFormed(t) && t.contiguous
    requires Volume(t.shape) == Count(img.GetShape())
    requires img.data.storage == t.storage && img.data.offset == t.offset
    ensures img.Pixels() == Elements(t)
  {
  }

  /** The bounds enclose exactly the image's pixel coordinates. */
  lemma BoundsEnclosePixels(img: Image)
    requires img.Valid()
    ensures img.GetMinBound() == [0, 0]
    ensures img.GetMaxBound() == [img.GetRows(), img.GetCols()]
    ensures forall r: int, c: int :: IsPixel(img.GetShape(), r, c) <==>
              img.GetMinBound()[0] <= r < img.GetMaxBound()[0] &&
              img.GetMinBound()[1] <= c < img.GetMaxBound()[1]
  {
  }

  /** The view At(r, c) denotes exactly the channels of pixel (r, c). */
  lemma AtSeesPixel(img: Image, r: nat, c: nat)
    requires img.Valid() && IsPixel(img.GetShape(), r, c)
    ensures |Elements(img.At(r, c))| == img.GetChannels()
    ensures forall ch :: 0 <= ch < img.GetChannels() ==>
              Elements(img.At(r, c))[ch] == img.Element(Index(r, c, ch))
  {
    var s := img.GetShape();
    forall ch | 0 <= ch < img.GetChannels()
      ensures Elements(img.At(r, c))[ch] == img.Element(Index(r, c, ch))
    {
      OffsetInBounds(s, Index(r, c, ch));
      assert Offset(s, Index(r, c, 0)) + ch == Offset(s, Index(r, c, ch));
    }
  }

  /** The view AtChannel(r, c, ch) denotes exactly element (r, c, ch). */
  lemma AtChannelSeesElement(img: Image, r: nat, c: nat, ch: nat)
    requires img.Valid() && InShape(img.GetShape(), Index(r, c, ch))
    ensures Elements(img.AtChannel(r, c, ch)) == [img.Element(Index(r, c, ch))]
  {
    var v := img.AtChannel(r, c, ch);
    var k := Offset(img.GetShape(), Index(r, c, ch));
    OffsetInBounds(img.GetShape(), Index(r, c, ch));
    assert img.Element(Index(r, c, ch)) == img.data.storage[img.data.offset + k];
    assert |Elements(v)| == 1;
    assert Elements(v)[0] == img.data.storage[img.data.offset + k];
  }

  /** Writing x through the view AtChannel(r, c, ch) sets element (r, c, ch) of
      the image to x and leaves every other element, and all storage outside
      the image, unchanged. */
  method AssignAt(img: Image, r: nat, c: nat, ch: nat, x: int)
    requires img.Valid() && InShape(img.GetShape(), Index(r, c, ch))
    modifies img.data.storage
    ensures img.Valid() && img.Element(Index(r, c, ch)) == x
    ensures forall j :: InShape(img.GetShape(), j) && j != Index(r, c, ch) ==>
              img.Element(j) == old(img.Element(j))
    ensures forall k :: 0 <= k < img.data.storage.Length &&
              k != img.data.offset + Offset(img.GetShape(), Index(r, c, ch))
              ==> img.data.storage[k] == old(img.data.storage[k])
  {
    ghost var s, base := img.GetShape(), img.data.offset;
    ghost var before := img.data.storage[..];
    ghost var k0 := base + Offset(s, Index(r, c, ch));
    var v := img.AtChannel(r, c, ch);
    Assign(v, [x]);
    assert Elements(v)[0] == x;
    assert img.data.storage[k0] == x;
    forall j | InShape(s, j) && j != Index(r, c, ch)
      ensures img.Element(j) == old(img.Element(j))
    {
      OffsetInjective(s, j, Index(r, c, ch));
      OffsetInBounds(s, j);
      var kj := base + Offset(s, j);
      assert kj < base + Count(s) <= img.data.storage.Length;
      assert kj != k0;
      assert img.Element(j) == img.data.storage[kj];
      assert img.data.storage[kj] == before[kj];
    }
  }

  /** Writing the channel values vals through the view At(r, c) sets the
      channels of pixel (r, c) to vals and leaves every element of every other
      pixel unchanged. */
  method AssignPixel(img: Image, r: nat, c: nat, vals: seq<int>)
    requires img.Valid() && IsPixel(img.GetShape(), r, c) && |vals| == img.GetChannels()
    modifies img.data.storage
    ensures img.Valid()
    ensures forall ch :: 0 <= ch < img.GetChannels() ==> img.Element(Index(r, c, ch)) == vals[ch]
    ensures forall j :: InShape(img.GetShape(), j) && (j.r != r || j.c != c) ==>
              img.Element(j) == old(img.Element(j))
    ensures forall k :: 0 <= k < img.data.storage.Length &&
              !(img.data.offset + Offset(img.GetShape(), Index(r, c, 0)) <= k <
                img.data.offset + Offset(img.GetShape(), Index(r, c, 0)) + img.GetChannels())
              ==> img.data.storage[k] == old(img.data.storage[k])
  {
    ghost var s := img.GetShape();
    ghost var o := Offset(s, Index(r, c, 0));
    PixelEnd(s, r, c);
    ghost var p0 := img.Pixels();
    var v := img.At(r, c);
    Assign(v, vals);
    ghost var p1 := img.Pixels();
    forall ch | 0 <= ch < s.channels
      ensures img.Element(Index(r, c, ch)) == vals[ch]
    {
      assert Offset(s, Index(r, c, ch)) == o + ch;
      assert p1[o + ch] == v.storage[v.offset + ch] == vals[ch];
    }
    assert forall k :: 0 <= k < Count(s) && !(o <= k < o + s.channels) ==> p1[k] == p0[k];
    PixelFrame(s, r, c, p0, p1);
  }

  /** If only the channels of pixel (r, c) differ between two row-major element
      sequences, every element of every other pixel is the same in both. */
  lemma PixelFrame(s: Shape, r: nat, c: nat, p0: seq<int>, p1: seq<int>)
    requires IsPixel(s, r, c) && |p0| == |p1| == Count(s)
    requires forall k :: 0 <= k < Count(s) && !(Offset(s, Index(r, c, 0)) <= k < Offset(s, Index(r, c, 0)) + s.channels)
               ==> p1[k] == p0[k]
    ensures forall j :: InShape(s, j) && (j.r != r || j.c != c) ==>
              Offset(s, j) < Count(s) && p1[Offset(s, j)] == p0[Offset(s, j)]
  {
    forall j | InShape(s, j) && (j.r != r || j.c != c)
      ensures Offset(s, j) < Count(s) && p1[Offset(s, j)] == p0[Offset(s, j)]
    {
      OffsetInBounds(s, j);
      OutsidePixel(s, r, c, j);
    }
  }

  /** An element of another pixel lies outside the channels of pixel (r, c). */
  lemma OutsidePixel(s: Shape, r: nat, c: nat, j: Index)
    requires IsPixel(s, r, c) && InShape(s, j) && (j.r != r || j.c != c)
    ensures !(Offset(s, Index(r, c, 0)) <= Offset(s, j) < Offset(s, Index(r, c, 0)) + s.channels)
  {
    var o := Offset(s, Index(r, c, 0));
    if o <= Offset(s, j) < o + s.channels {
      var ch := Offset(s, j) - o;
      assert Offset(s, Index(r, c, ch)) == Offset(s, j);
      OffsetInjective(s, Index(r, c, ch), j);
    }
  }
}
