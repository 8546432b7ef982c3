# Tensor-backed image of Open3D (`t::geometry::Image`)

A Dafny model of Open3D's tensor-backed `Image` class. The image holds
`rows x cols x channels` elements in one contiguous, row-major, rank-3 tensor,
its `data_` member. Rows, cols, channels, dtype and device are all read back
from that tensor, never stored beside it.

- `tensor.dfy` (module `Tensors`) abstracts the tensor engine the image is built on. A `Tensor` is a value handle: a shape,
  a dtype, a device tag, a contiguity flag, and a storage array with an offset. Two handles holding the same array share
  memory, which is how the image's zero-copy views and sharing are modelled. The engine's element-wise arithmetic
  (`scale * x + offset`, cast into a dtype) is a `Kernel` parameter, because its code is not part of this model. The kernel receives the dtype it evaluates in, so a conversion and an in-place transform can round differently.
- `image.dfy` (module `Images`) holds the row-major layout: `Offset`, its inverse `Coords`, and bounds and injectivity
  lemmas. It also holds the check the tensor constructor makes, the default-scale policy of `ConvertTo`, and the class
  `Image` with its single field `data`.

Element values are `int`, and scales and offsets are exact `real`s, so no floating point appears. The "scale not given"
sentinel `SCALE_DEFAULT` is kept as in the header: it is the exact value of `-DBL_MAX` (`ScaleDefault`). The
constructors' default arguments are Dafny default parameter values.

## Model

| member | source | states |
|---|---|---|
| `Images.Image.constructor` | cpp/open3d/t/geometry/Image.h:87-100 | With rows >= 0, cols >= 0 and channels > 0, the new image has exactly those rows, cols and channels, plus the given dtype and device, over fresh storage. It is empty iff rows or cols is 0. |
| `Images.Make` | cpp/open3d/t/geometry/Image.h:87-100 | The result is InvalidArgument iff rows < 0, cols < 0 or channels <= 0. Otherwise it is a fresh image over fresh storage whose GetRows, GetCols and GetChannels return the arguments, with the given dtype and device. |
| `Images.FreshImageEmptyIff` | cpp/open3d/t/geometry/Image.h:119-122 | For accepted geometry, the element count is 0 iff rows or cols is 0, because channels > 0. |
| `Images.Image.FromTensor` | cpp/open3d/t/geometry/Image.h:102-107 | The image wraps the tensor's own storage at the same offset, with no copy. Its pixels are the tensor's elements. A rank-2 tensor gives one channel. |
| `Images.CheckTensor` | cpp/open3d/t/geometry/Image.h:105-106 | A tensor is accepted iff it is contiguous and of rank 2 or 3. Rows and cols come from its first two dimensions. Channels is 1 for rank 2 and the third dimension for rank 3. The element count is preserved. |
| `Images.MakeFromTensor` | cpp/open3d/t/geometry/Image.h:102-107 | A non-contiguous or wrong-rank tensor yields InvalidArgument. Otherwise the image shares the tensor's storage at the same offset, keeps its dtype and device, and reads the tensor's elements, so TensorAliasing applies to it. |
| `Images.TensorAliasing` | cpp/open3d/t/geometry/Image.h:102-107 | An image and a tensor over the same storage and offset, with the same element count, see the same elements in every heap state. So writes through either are visible through the other. |
| `Images.Image.GetRows` | cpp/open3d/t/geometry/Image.h:126 | The row count is dimension 0 of the backing tensor's shape. |
| `Images.Image.GetCols` | cpp/open3d/t/geometry/Image.h:129 | The column count is dimension 1 of the backing tensor's shape. |
| `Images.Image.GetChannels` | cpp/open3d/t/geometry/Image.h:132 | The channel count is dimension 2 of the backing tensor's shape. |
| `Images.Image.GetDtype` | cpp/open3d/t/geometry/Image.h:135 | The dtype is the backing tensor's dtype. |
| `Images.Image.GetDevice` | cpp/open3d/t/geometry/Image.h:138 | The device is the backing tensor's device. |
| `Images.Image.Clear` | cpp/open3d/t/geometry/Image.h:112-117 | Rows and cols become 0 over fresh storage. Channels, dtype and device are unchanged. The image is then empty, and the result is the image itself. |
| `Images.Image.IsEmpty` | cpp/open3d/t/geometry/Image.h:119-122 | True iff rows, cols or channels is 0, which is when rows * cols * channels == 0. |
| `Images.EmptyIffZeroDim` | cpp/open3d/t/geometry/Image.h:119-122 | A shape's element count is 0 iff one of its three dimensions is 0. |
| `Images.PixelEnd` | cpp/open3d/t/geometry/Image.h:82-83 | The channels of an in-range pixel (r, c), starting at the row-major offset of (r, c, 0), end no later than rows * cols * channels. |
| `Images.OffsetInBounds` | cpp/open3d/t/geometry/Image.h:82-83 | Every in-shape (r, c, ch) has a row-major offset below rows * cols * channels. |
| `Images.Coords` | cpp/open3d/t/geometry/Image.h:82-83 | Every offset below the element count is the row-major offset of exactly the in-shape coordinate returned. |
| `Images.CoordsOfOffset` | cpp/open3d/t/geometry/Image.h:82-83 | Coords inverts Offset on every in-shape coordinate, so the two are a bijection. |
| `Images.OffsetInjective` | cpp/open3d/t/geometry/Image.h:82-83 | Distinct in-shape coordinates have distinct storage offsets. |
| `Images.Image.At` | cpp/open3d/t/geometry/Image.h:140-150 | At(r, c) is a live view over the image's own storage. It is shape {} when channels == 1 and {channels} otherwise. It starts at the row-major offset of (r, c, 0), keeps dtype and device, and lies within the storage. |
| `Images.AtSeesPixel` | cpp/open3d/t/geometry/Image.h:140-150 | The view At(r, c) denotes exactly the channels of pixel (r, c), in order. |
| `Images.Image.AtChannel` | cpp/open3d/t/geometry/Image.h:152-155 | At(r, c, ch) is a scalar live view over the image's storage, at offset (r * cols + c) * channels + ch. |
| `Images.AtChannelSeesElement` | cpp/open3d/t/geometry/Image.h:152-155 | The view At(r, c, ch) denotes exactly element (r, c, ch). |
| `Images.AssignAt` | cpp/open3d/t/geometry/Image.h:140-143 | Writing x through At(r, c, ch) sets element (r, c, ch) to x. Every other element, and all storage outside that offset, is unchanged. |
| `Images.AssignPixel` | cpp/open3d/t/geometry/Image.h:140-150 | Writing channel values through At(r, c) sets channel ch of pixel (r, c) to the ch-th value. Every element of every other pixel is unchanged, and so is every storage cell outside the pixel's channel run, including storage shared with other tensors. |
| `Images.PixelFrame` | cpp/open3d/t/geometry/Image.h:82-83 | If two row-major element sequences differ only within the channels of pixel (r, c), every element of every other pixel is the same in both. |
| `Images.OutsidePixel` | cpp/open3d/t/geometry/Image.h:82-83 | An element of a pixel other than (r, c) lies outside the contiguous channel range of (r, c). |
| `Images.Image.AsTensor` | cpp/open3d/t/geometry/Image.h:163-164 | The returned tensor is the underlying one: shape {rows, cols, channels}, contiguous, the image's dtype and device, and the image's storage at its offset. It passes the tensor constructor's checks, gives back the same geometry, and its elements are the image's pixels. |
| `Images.Image.GetMinBound` | cpp/open3d/t/geometry/Image.h:205-208 | A 2-vector, always {0, 0}; see BoundsEnclosePixels. |
| `Images.Image.GetMaxBound` | cpp/open3d/t/geometry/Image.h:210-214 | A 2-vector; BoundsEnclosePixels states its value {rows, cols}. |
| `Images.BoundsEnclosePixels` | cpp/open3d/t/geometry/Image.h:205-214 | The min bound is {0, 0} and the max bound is {rows, cols}. (r, c) is a pixel of the image iff min <= (r, c) < max in both coordinates. |
| `Images.DefaultScale` | cpp/open3d/t/geometry/Image.h:168-171 | UInt8 or UInt16 converted to Float32 or Float64 gets the scale that maps the type's largest value (2^8 - 1 or 2^16 - 1) to 1. Every other pair gets scale 1. |
| `Images.SameDtypeDefaultIsIdentity` | cpp/open3d/t/geometry/Image.h:170-174 | The default scale from a dtype to itself is 1. So, for an engine under which scale 1 and offset 0 leave values of that dtype unchanged (`UnitIsIdentity`), converting with default scale and offset gives back the elements exactly, which is what the no-copy path returns. |
| `Images.Image.ConvertTo` | cpp/open3d/t/geometry/Image.h:166-180 | The result keeps rows, cols, channels and device, and has the target dtype. With copy false and the dtype already matching, it wraps the very same tensor (shared storage, same values). Otherwise it owns fresh storage. Each element then becomes the engine's scale * x + offset, evaluated in the target dtype: the default scale for the dtype pair when scale is SCALE_DEFAULT, or the given scale otherwise. |
| `Images.Image.Converted` | cpp/open3d/t/geometry/Image.h:166-180 | The copying path of ConvertTo: a fresh image over fresh storage, with the same rows, cols, channels and device and the target dtype, whose elements are the engine's scale * x + offset of the original elements, in order. |
| `Images.Image.LinearTransform` | cpp/open3d/t/geometry/Image.h:184-186 | The same storage is updated in place: every element becomes the engine's scale * x + offset, evaluated in the image's own dtype. The tensor handle (shape, dtype, device) is unchanged, storage outside the image is untouched, and the result wraps the same tensor. |

## Left out

- `ConvertColor` (line 182) and `ColorConversionType` (lines 50-62) are left out. Their results are BT.601 or equal-weight floating-point sums, and `Image.cpp`, which implements them, is not part of this model.
- `Dilate` (line 203) is left out: it is only declared, and its implementation and border policy are not part of this model.
- `FromLegacyImage` and `ToLegacyImage` (lines 216-222) are left out: the legacy `open3d::geometry::Image` type is not part of this model.
- `GetDataPtr` (lines 157-161) is left out: Dafny has no raw pointers. `AsTensor` gives the same access to the storage. `ToString` (line 225) is text formatting.
- `FilterType` (lines 64-78) and the commented-out declarations (lines 188-200) have no behaviour.
- The tensor engine is reduced to a handle over an `array<int>`: strides, allocation, slicing and kernels are not modelled. A non-contiguous tensor's layout is not modelled beyond its flag. The element-wise arithmetic and dtype cast are the `Kernel` parameter, so no rounding, saturation or floating-point value is modelled.
- The device is an opaque tag; memory placement and transfer are not modelled.
- Images.Image.constructor: does not state the initial contents of the storage. The header does not promise them, and the allocation happens in `Image.cpp`, which is not part of this model.
- Images.Image.constructor: rows, cols and channels are unbounded integers. An `int64_t` overflow of rows * cols * channels is not modelled.
- Images.Image.FromTensor: the header states no requirement on the channel count of a rank-3 tensor. The model invents none, so an image built from a tensor may have 0 channels. The geometry constructor alone requires channels > 0.
- Images.CheckTensor: any rejected rank or non-contiguity is one InvalidArgument error. The source's error messages are not modelled.
- Images.Image.At: only in-range indices are modelled (`requires`). The engine's handling of negative and out-of-range indices is not part of this model.
- Images.Image.ConvertTo: with copy false and a matching dtype, an explicit non-unit scale or non-zero offset is not applied. The header promises only that no copy is made on that path. `SameDtypeDefaultIsIdentity` shows that with default arguments this loses nothing, provided the engine's kernel satisfies `UnitIsIdentity` for that dtype; the model states that law and does not prove it of the engine.
- Images.Image.ConvertTo: C++ returns the image by value, so the model returns a new `Image` object. On the no-copy path its tensor, and so its storage, is the source's tensor. It is not the same object.
- Images.Image.LinearTransform: the result is likewise a new `Image` object over the same tensor, since the header returns `Image` by value.
- The model does not promise zero-filled storage after construction, or channels >= 1 for every image. The header promises neither.
