/** The decoded image that the synthesiser reads (src/main.rs:53-63): a flat,
    row-major vector of luma bytes and the width of one row. */
module ImageData {
  import opened Numeric

  datatype Image = Image(data: seq<byte>, width: nat)

  /** `Image::height`: the number of whole rows. Rust divides by `width`, so a
      zero width panics. */
  function Height(img: Image): (h: nat)
    requires img.width > 0
    ensures h * img.width <= |img.data| < h * img.width + img.width
  {
    |img.data| / img.width
  }

  /** `Image::width`. */
  function Width(img: Image): nat
  {
    img.width
  }

  /** `Image::rows`: `data.chunks(width)`. */
  function Rows(img: Image): (rows: seq<seq<byte>>)
    requires img.width > 0
    ensures (|rows| - 1) * img.width < |img.data| <= |rows| * img.width
  {
    ChunkCount(img.data, img.width);
    Chunks(img.data, img.width)
  }

  /** `slice::chunks(w)`: consecutive pieces of length `w`, the last one possibly
      shorter, no empty piece, nothing for an empty slice. */
  function Chunks(data: seq<byte>, w: nat): (rows: seq<seq<byte>>)
    requires w > 0
    ensures forall i :: 0 <= i < |rows| ==> 0 < |rows[i]| <= w
    ensures forall i :: 0 <= i < |rows| - 1 ==> |rows[i]| == w
    decreases |data|
  {
    if |data| == 0 then []
    else if |data| <= w then [data]
    else [data[..w]] + Chunks(data[w..], w)
  }

  function MinNat(a: nat, b: nat): nat
  {
    if a < b then a else b
  }

  /** Piece `i` of `Chunks(data, w)` is the slice of `data` that starts at `i * w`. */
  lemma {:induction false} ChunkAt(data: seq<byte>, w: nat, i: nat)
    requires w > 0
    requires i < |Chunks(data, w)|
    ensures i * w < |data|
    ensures Chunks(data, w)[i] == data[i * w .. MinNat(i * w + w, |data|)]
    decreases i
  {
    if i > 0 {
      assert |data| > w;
      var rest := data[w..];
      assert Chunks(data, w) == [data[..w]] + Chunks(rest, w);
      ChunkAt(rest, w, i - 1);
      var a := (i - 1) * w;
      PreviousRowOffset(i, w);
      var e := MinNat(a + w, |rest|);
      assert e + w == MinNat(i * w + w, |data|);
      assert Chunks(data, w)[i] == Chunks(rest, w)[i - 1] == rest[a .. e];
      SliceShift(data, w, a, e);
    }
  }

  /** Row `i - 1` starts one row width before row `i`. */
  lemma PreviousRowOffset(i: nat, w: nat)
    requires i > 0
    ensures (i - 1) * w + w == i * w
  {
  }

  /** A slice of `data[w..]` is the slice of `data` shifted by `w`. */
  lemma SliceShift(data: seq<byte>, w: nat, a: nat, e: nat)
    requires w <= |data| && a <= e <= |data| - w
    ensures data[w..][a .. e] == data[a + w .. e + w]
  {
  }

  /** `chunks(w)` yields ceil(|data| / w) pieces: all but the last are full, and
      the last holds what is left. */
  lemma {:induction false} ChunkCount(data: seq<byte>, w: nat)
    requires w > 0
    ensures (|Chunks(data, w)| - 1) * w < |data| <= |Chunks(data, w)| * w
    decreases |data|
  {
    if |data| > w {
      ChunkCount(data[w..], w);
      var n := |Chunks(data[w..], w)|;
      assert |Chunks(data, w)| == n + 1;
      assert (n + 1) * w == n * w + w;
    }
  }

  /** `h * w` bytes make exactly `h` full pieces. */
  lemma {:induction false} ChunksOfWholeRows(data: seq<byte>, w: nat, h: nat)
    requires w > 0
    requires |data| == w * h
    ensures |Chunks(data, w)| == h
    ensures forall i :: 0 <= i < h ==> |Chunks(data, w)[i]| == w
    decreases h
  {
    if h > 1 {
      assert |data| == w * (h - 1) + w;
      ChunksOfWholeRows(data[w..], w, h - 1);
    }
  }

  /** Exact division: `(w * h) / w == h`. */
  lemma DivExact(w: nat, h: nat)
    requires w > 0
    ensures (w * h) / w == h
  {
    var q := (w * h) / w;
    var r := (w * h) % w;
    assert w * h == w * q + r && 0 <= r < w;
    if q < h {
      MulMonotone(q + 1, h, w);
    } else if q > h {
      MulMonotone(h + 1, q, w);
    }
  }

  /** A byte count that is a multiple of the width is exactly `height()` rows. */
  lemma WholeRows(img: Image)
    requires img.width > 0
    requires |img.data| % img.width == 0
    ensures |img.data| == img.width * Height(img)
  {
    assert |img.data| == img.width * (|img.data| / img.width) + |img.data| % img.width;
  }

  /** For an image built as `load_image` builds it (`width * h` bytes, `width > 0`),
      `rows()` yields exactly `height()` rows, each one row wide, and row `i` is the
      `i`-th run of `width` bytes. */
  lemma RowsOfFullImage(img: Image, h: nat)
    requires img.width > 0
    requires |img.data| == img.width * h
    ensures Height(img) == h
    ensures |Rows(img)| == h
    ensures forall i :: 0 <= i < h ==>
              i * img.width + img.width <= |img.data| &&
              Rows(img)[i] == img.data[i * img.width .. i * img.width + img.width]
  {
    RowCountOfFullImage(img, h);
    forall i | 0 <= i < h
      ensures i * img.width + img.width <= |img.data|
      ensures Rows(img)[i] == img.data[i * img.width .. i * img.width + img.width]
    {
      RowOfFullImage(img, h, i);
    }
  }

  lemma RowCountOfFullImage(img: Image, h: nat)
    requires img.width > 0
    requires |img.data| == img.width * h
    ensures Height(img) == h
    ensures |Rows(img)| == h
    ensures forall i :: 0 <= i < h ==> |Rows(img)[i]| == img.width
  {
    DivExact(img.width, h);
    ChunksOfWholeRows(img.data, img.width, h);
  }

  lemma RowOfFullImage(img: Image, h: nat, i: nat)
    requires img.width > 0
    requires |img.data| == img.width * h
    requires i < h
    ensures |Rows(img)| == h
    ensures i * img.width + img.width <= |img.data|
    ensures Rows(img)[i] == img.data[i * img.width .. i * img.width + img.width]
  {
    RowCountOfFullImage(img, h);
    ChunkAt(img.data, img.width, i);
    assert i * img.width + img.width == (i + 1) * img.width;
    assert (i + 1) * img.width <= h * img.width by {
      assert h * img.width - (i + 1) * img.width == (h - i - 1) * img.width;
    }
  }
}
