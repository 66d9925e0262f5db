/** Screenshot pixels (`capture_screenshot` in `crates/chart-app-vello/src/screenshot.rs`):
    stripping the row padding of the GPU buffer, then an optional clamped crop. */
module Screenshot {
  import opened Arithmetic
  import opened Bars

  const U32_LIMIT := 0x1_0000_0000
  const BYTES_PER_PIXEL := 4
  const ALIGNMENT := 256

  datatype Rect = Rect(x: nat, y: nat, w: nat, h: nat)

  datatype Image = Image(pixels: seq<Byte>, width: nat, height: nat)

  /** Bytes of a buffer row: whole alignment blocks. */
  function PaddedRow(width: nat): (p: nat)
    ensures width * BYTES_PER_PIXEL <= p < width * BYTES_PER_PIXEL + ALIGNMENT && p % ALIGNMENT == 0
  {
    (width * BYTES_PER_PIXEL + ALIGNMENT - 1) / ALIGNMENT * ALIGNMENT
  }

  function Min(a: nat, b: nat): nat {
    if a < b then a else b
  }

  /** The crop cut to the frame. */
  function Clamped(crop: Rect, width: nat, height: nat): Rect {
    var x, y := Min(crop.x, width), Min(crop.y, height);
    Rect(x, y, Min(crop.w, width - x), Min(crop.h, height - y))
  }

  /** The part of the frame that is kept: all of it without a crop, and also when the
      clamped crop is empty. */
  function Kept(crop: Option<Rect>, width: nat, height: nat): (r: Rect)
    ensures r.x + r.w <= width && r.y + r.h <= height
  {
    match crop
    case None => Rect(0, 0, width, height)
    case Some(c) =>
      var r := Clamped(c, width, height);
      if r.w == 0 || r.h == 0 then Rect(0, 0, width, height) else r
  }

  /** Bytes `from..from + len` of each of `n` rows, starting at row `first`. */
  function Rows(data: seq<Byte>, stride: nat, first: nat, n: nat, from: nat, len: nat): (out: seq<Byte>)
    requires from + len <= stride && (first + n) * stride <= |data|
    ensures |out| == n * len
  {
    if n == 0 then []
    else
      RowFits(data, stride, first, n, from, len);
      var start := (first + n - 1) * stride + from;
      MulNext(n - 1, len);
      Rows(data, stride, first, n - 1, from, len) + data[start..start + len]
  }

  lemma RowFits(data: seq<Byte>, stride: nat, first: nat, n: nat, from: nat, len: nat)
    requires from + len <= stride && (first + n) * stride <= |data| && n > 0
    ensures 0 <= (first + n - 1) * stride
    ensures (first + n - 1) * stride + from + len <= |data|
    ensures (first + (n - 1)) * stride <= |data|
  {
    MulNext(first + n - 1, stride);
    MulOrder(0, first + n - 1, stride);
  }

  /** Where each byte of the selected rows comes from. */
  lemma {:induction false} RowsAt(data: seq<Byte>, stride: nat, first: nat, n: nat, from: nat, len: nat, r: nat, k: nat)
    requires from + len <= stride && (first + n) * stride <= |data| && r < n && k < len
    ensures 0 <= r * len + k < n * len
    ensures 0 <= (first + r) * stride + from + k < |data|
    ensures Rows(data, stride, first, n, from, len)[r * len + k] == data[(first + r) * stride + from + k]
  {
    RowFits(data, stride, first, n, from, len);
    MulOrder(0, r, len);
    MulOrder(0, first + r, stride);
    MulNext(r, len);
    MulNext(n - 1, len);
    MulOrder(r + 1, n, len);
    MulNext(first + r, stride);
    MulOrder(first + r + 1, first + n, stride);
    if r < n - 1 {
      RowsAt(data, stride, first, n - 1, from, len, r, k);
    }
  }

  /** The whole selection: unpad every row, then take the kept rectangle. */
  function Captured(data: seq<Byte>, width: nat, height: nat, crop: Option<Rect>): Image
    requires PaddedRow(width) * height == |data|
  {
    var full := Unpadded(data, width, height);
    var r := Kept(crop, width, height);
    CropFits(full, width, height, r);
    Image(Rows(full, width * BYTES_PER_PIXEL, r.y, r.h, r.x * BYTES_PER_PIXEL, r.w * BYTES_PER_PIXEL), r.w, r.h)
  }

  function Unpadded(data: seq<Byte>, width: nat, height: nat): (full: seq<Byte>)
    requires PaddedRow(width) * height == |data|
    ensures |full| == height * (width * BYTES_PER_PIXEL)
  {
    Rows(data, PaddedRow(width), 0, height, 0, width * BYTES_PER_PIXEL)
  }

  lemma CropFits(full: seq<Byte>, width: nat, height: nat, r: Rect)
    requires |full| == height * (width * BYTES_PER_PIXEL) && r.x + r.w <= width && r.y + r.h <= height
    ensures r.x * BYTES_PER_PIXEL + r.w * BYTES_PER_PIXEL <= width * BYTES_PER_PIXEL
    ensures (r.y + r.h) * (width * BYTES_PER_PIXEL) <= |full|
  {
    MulOrder(r.y + r.h, height, width * BYTES_PER_PIXEL);
  }

  /** Every byte of output pixel (r, c) is that of the padded source pixel
      (y + r, x + c), for the kept rectangle at (x, y). */
  lemma PixelsExact(data: seq<Byte>, width: nat, height: nat, crop: Option<Rect>, r: nat, c: nat, b: nat)
    requires PaddedRow(width) * height == |data|
    requires var k := Kept(crop, width, height); r < k.h && c < k.w && b < BYTES_PER_PIXEL
    ensures var k := Kept(crop, width, height);
      var image := Captured(data, width, height, crop);
      && image.width == k.w && image.height == k.h && |image.pixels| == k.w * k.h * BYTES_PER_PIXEL
      && 0 <= (r * k.w + c) * BYTES_PER_PIXEL + b < |image.pixels|
      && 0 <= (k.y + r) * PaddedRow(width) + (k.x + c) * BYTES_PER_PIXEL + b < |data|
      && image.pixels[(r * k.w + c) * BYTES_PER_PIXEL + b]
           == data[(k.y + r) * PaddedRow(width) + (k.x + c) * BYTES_PER_PIXEL + b]
  {
    hide Rows, Kept, PaddedRow;
    var k := Kept(crop, width, height);
    var full := Unpadded(data, width, height);
    CropFits(full, width, height, k);
    var row := width * BYTES_PER_PIXEL;
    RowsAt(full, row, k.y, k.h, k.x * BYTES_PER_PIXEL, k.w * BYTES_PER_PIXEL, r, c * BYTES_PER_PIXEL + b);
    RowsAt(data, PaddedRow(width), 0, height, 0, row, k.y + r, (k.x + c) * BYTES_PER_PIXEL + b);
    Scale(r, k.w, c, b);
    Scale(k.h, k.w, 0, 0);
  }

  /** The padded row is the least multiple of 256 that holds four bytes a pixel. */
  lemma PaddedRowIs(width: nat, p: nat)
    ensures PaddedRow(width) % 256 == 0 && width * 4 <= PaddedRow(width) < width * 4 + 256
    ensures p % 256 == 0 && width * 4 <= p ==> PaddedRow(width) <= p
  {
  }

  /** What the image is, without a name for the rectangle. A crop that starts inside the
      frame and has an area gives the part of it that lies in the frame, pixel by pixel
      from its own corner; every other crop, and none, gives the whole frame. */
  lemma CropExact(data: seq<Byte>, width: nat, height: nat, crop: Option<Rect>)
    requires PaddedRow(width) * height == |data|
    ensures var image := Captured(data, width, height, crop);
      if crop.Some? && crop.value.x < width && crop.value.y < height && crop.value.w > 0 && crop.value.h > 0 then
        var c := crop.value;
        && image.width == (if c.w <= width - c.x then c.w else width - c.x)
        && image.height == (if c.h <= height - c.y then c.h else height - c.y)
        && ShowsFrom(data, width, height, image, c.x, c.y)
      else
        image.width == width && image.height == height && ShowsFrom(data, width, height, image, 0, 0)
  {
    hide Captured, PaddedRow, ShowsFrom;
    var k := Kept(crop, width, height);
    CapturedSize(data, width, height, crop);
    CapturedShows(data, width, height, crop, k.x, k.y);
  }

  /** Pixel (r, k) of the image is pixel (y + r, x + k) of the source, in all four bytes. */
  ghost predicate ShowsFrom(data: seq<Byte>, width: nat, height: nat, image: Image, x: nat, y: nat) {
    && |image.pixels| == image.width * image.height * 4
    && x + image.width <= width && y + image.height <= height
    && forall r, k, b :: 0 <= r < image.height && 0 <= k < image.width && 0 <= b < 4 ==>
         PixelFrom(data, width, image, x, y, r, k, b)
  }

  predicate PixelFrom(data: seq<Byte>, width: nat, image: Image, x: nat, y: nat, r: nat, k: nat, b: nat) {
    var at, from := (r * image.width + k) * 4 + b, (y + r) * PaddedRow(width) + (x + k) * 4 + b;
    0 <= at < |image.pixels| && 0 <= from < |data| && image.pixels[at] == data[from]
  }

  lemma CapturedSize(data: seq<Byte>, width: nat, height: nat, crop: Option<Rect>)
    requires PaddedRow(width) * height == |data|
    ensures var image, k := Captured(data, width, height, crop), Kept(crop, width, height);
      image.width == k.w && image.height == k.h && |image.pixels| == k.w * k.h * 4
  {
    hide Rows, Kept, PaddedRow;
    var k := Kept(crop, width, height);
    Scale(k.h, k.w, 0, 0);
  }

  lemma CapturedShows(data: seq<Byte>, width: nat, height: nat, crop: Option<Rect>, x: nat, y: nat)
    requires PaddedRow(width) * height == |data|
    requires x == Kept(crop, width, height).x && y == Kept(crop, width, height).y
    ensures ShowsFrom(data, width, height, Captured(data, width, height, crop), x, y)
  {
    hide Captured, PaddedRow, Kept;
    var image := Captured(data, width, height, crop);
    CapturedSize(data, width, height, crop);
    forall r: nat, k: nat, b: nat | r < image.height && k < image.width && b < 4
      ensures PixelFrom(data, width, image, x, y, r, k, b)
    {
      PixelsExact(data, width, height, crop, r, k, b);
    }
  }

  lemma Scale(r: nat, w: nat, c: nat, b: nat)
    ensures r * (w * BYTES_PER_PIXEL) + (c * BYTES_PER_PIXEL + b) == (r * w + c) * BYTES_PER_PIXEL + b
  {
  }

  /** The loops over the mapped buffer. The arithmetic is on 32-bit integers; every
      product and index is shown to stay in range. */
  method CaptureScreenshot(data: seq<Byte>, width: nat, height: nat, crop: Option<Rect>) returns (image: Option<Image>)
    requires PaddedRow(width) * height == |data| < U32_LIMIT
    ensures image == if width == 0 || height == 0 then None else Some(Captured(data, width, height, crop))
  {
    hide Rows, PaddedRow;
    if width == 0 || height == 0 {
      return None;
    }
    var fullPixels := Unpad(data, width, height);
    WholeFrame(fullPixels, width * BYTES_PER_PIXEL, height);
    CropFits(fullPixels, width, height, Kept(crop, width, height));
    assert fullPixels[..height * (width * BYTES_PER_PIXEL)] == fullPixels;
    if crop.None? {
      assert Kept(crop, width, height) == Rect(0, 0, width, height);
      return Some(Image(fullPixels, width, height));
    }
    var cx, cy := Min(crop.value.x, width), Min(crop.value.y, height);
    var cw, ch := Min(crop.value.w, width - cx), Min(crop.value.h, height - cy);
    if cw == 0 || ch == 0 {
      return Some(Image(fullPixels, width, height));
    }
    MulOrder(width * BYTES_PER_PIXEL, PaddedRow(width), height);
    var cropped := CropRows(fullPixels, width, height, Rect(cx, cy, cw, ch));
    image := Some(Image(cropped, cw, ch));
  }

  method Unpad(data: seq<Byte>, width: nat, height: nat) returns (full: seq<Byte>)
    requires PaddedRow(width) * height == |data| < U32_LIMIT
    ensures full == Unpadded(data, width, height)
  {
    hide Rows;
    var unpadded := width * BYTES_PER_PIXEL;
    var padded := PaddedRow(width);
    full := [];
    for row := 0 to height
      invariant (0 + row) * padded <= |data|
      invariant full == Rows(data, padded, 0, row, 0, unpadded)
    {
      MulOrder(row + 1, height, padded);
      RowsNext(data, padded, 0, row, 0, unpadded);
      var start := row * padded;
      var end := start + unpadded;
      assert 0 <= start <= end < U32_LIMIT;
      full := full + data[start..end];
    }
  }

  method CropRows(full: seq<Byte>, width: nat, height: nat, r: Rect) returns (cropped: seq<Byte>)
    requires |full| == height * (width * BYTES_PER_PIXEL) < U32_LIMIT
    requires r.x + r.w <= width && r.y + r.h <= height
    ensures (r.y + r.h) * (width * BYTES_PER_PIXEL) <= |full|
    ensures cropped == Rows(full, width * BYTES_PER_PIXEL, r.y, r.h, r.x * BYTES_PER_PIXEL, r.w * BYTES_PER_PIXEL)
  {
    hide Rows;
    var stride := width * BYTES_PER_PIXEL;
    CropFits(full, width, height, r);
    cropped := [];
    MulOrder(r.y, r.y + r.h, stride);
    for row := r.y to r.y + r.h
      invariant (r.y + (row - r.y)) * stride <= |full|
      invariant cropped == Rows(full, stride, r.y, row - r.y, r.x * BYTES_PER_PIXEL, r.w * BYTES_PER_PIXEL)
    {
      MulOrder(row + 1, r.y + r.h, stride);
      RowsNext(full, stride, r.y, row - r.y, r.x * BYTES_PER_PIXEL, r.w * BYTES_PER_PIXEL);
      Scale(row, width, r.x, 0);
      var start := (row * width + r.x) * BYTES_PER_PIXEL;
      var end := start + r.w * BYTES_PER_PIXEL;
      assert start == row * stride + r.x * BYTES_PER_PIXEL;
      assert 0 <= start <= end < U32_LIMIT;
      cropped := cropped + full[start..end];
    }
  }

  lemma RowsNext(data: seq<Byte>, stride: nat, first: nat, n: nat, from: nat, len: nat)
    requires from + len <= stride && (first + (n + 1)) * stride <= |data|
    ensures (first + n) * stride <= |data| && 0 <= (first + n) * stride && (first + n) * stride + from + len <= |data|
    ensures Rows(data, stride, first, n + 1, from, len)
         == Rows(data, stride, first, n, from, len) + data[(first + n) * stride + from..(first + n) * stride + from + len]
  {
    RowFits(data, stride, first, n + 1, from, len);
  }

  /** Selecting every row in full changes nothing. */
  lemma {:induction false} WholeFrame(full: seq<Byte>, stride: nat, n: nat)
    requires n * stride <= |full|
    ensures (0 + n) * stride <= |full| && Rows(full, stride, 0, n, 0, stride) == full[..n * stride]
  {
    if n > 0 {
      RowFits(full, stride, 0, n, 0, stride);
      MulNext(n - 1, stride);
      WholeFrame(full, stride, n - 1);
      assert full[..n * stride] == full[..(n - 1) * stride] + full[(n - 1) * stride..n * stride];
    }
  }
}
