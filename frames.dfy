/** Images as the vision server handles them: rows of pixels, cut with
    Python's slice semantics, mirrored, and converted from BGR to RGB. */
module Frames {

  const CAM_WIDTH: nat := 320
  const CAM_HEIGHT: nat := 224
  const MODEL_INPUT_SIZE: nat := 224

  /** A pixel's three channels in storage order (BGR as captured). */
  datatype Pixel = Pixel(c0: int, c1: int, c2: int)

  /** An image is a sequence of rows. */
  type Image = seq<seq<Pixel>>

  /** Every row of `img` is exactly `CAM_WIDTH` pixels wide, as after the
      resize to the Jetson camera's resolution. */
  predicate FullWidth(img: Image) {
    forall i :: 0 <= i < |img| ==> |img[i]| == CAM_WIDTH
  }

  function Min(a: int, b: int): int { if a <= b then a else b }

  /** `s[lo:hi]` in Python for non-negative bounds: both bounds are clamped
      to the length, and a reversed range is empty. */
  function PySlice<T>(s: seq<T>, lo: nat, hi: nat): (r: seq<T>)
    ensures hi <= |s| && lo <= hi ==> r == s[lo..hi]
    ensures |r| <= |s| && (lo >= hi || lo >= |s| ==> r == [])
    ensures |r| == if lo < Min(hi, |s|) then Min(hi, |s|) - lo else 0
    ensures forall j :: 0 <= j < |r| ==> lo + j < |s| && r[j] == s[lo + j]
  {
    var h := Min(hi, |s|);
    var l := Min(lo, h);
    s[l..h]
  }

  /** `image[:, x:x+MODEL_INPUT_SIZE]`: the same columns of every row. */
  function CropAt(img: Image, x: nat): (c: Image)
    ensures |c| == |img|
  {
    seq(|img|, i requires 0 <= i < |img| => PySlice(img[i], x, x + MODEL_INPUT_SIZE))
  }

  function Reverse<T>(s: seq<T>): (r: seq<T>)
    ensures |r| == |s|
  {
    seq(|s|, j requires 0 <= j < |s| => s[|s| - 1 - j])
  }

  /** `cv2.flip(image, 1)`: every row reversed. */
  function Mirror(img: Image): (m: Image)
    ensures |m| == |img|
    ensures forall i :: 0 <= i < |img| ==> |m[i]| == |img[i]|
  {
    seq(|img|, i requires 0 <= i < |img| => Reverse(img[i]))
  }

  /** `cv2.cvtColor(image, cv2.COLOR_BGR2RGB)`: the first and last channel of
      every pixel swap places. */
  function ToRgb(img: Image): (rgb: Image)
    ensures |rgb| == |img|
    ensures forall i :: 0 <= i < |img| ==> |rgb[i]| == |img[i]|
    ensures forall i, j :: 0 <= i < |img| && 0 <= j < |img[i]| ==>
      rgb[i][j] == Pixel(img[i][j].c2, img[i][j].c1, img[i][j].c0)
  {
    seq(|img|, i requires 0 <= i < |img| =>
      seq(|img[i]|, j requires 0 <= j < |img[i]| => Pixel(img[i][j].c2, img[i][j].c1, img[i][j].c0)))
  }

  /** Converting twice gives back the original image: the conversion only
      exchanges the first and the last channel of each pixel. */
  lemma {:induction false} ToRgbIsInvolution(img: Image)
    ensures ToRgb(ToRgb(img)) == img
  {
    var twice := ToRgb(ToRgb(img));
    forall i | 0 <= i < |img|
      ensures twice[i] == img[i]
    {
      assert |twice[i]| == |img[i]|;
      forall j | 0 <= j < |img[i]|
        ensures twice[i][j] == img[i][j]
      {
        var p := img[i][j];
        assert ToRgb(img)[i][j] == Pixel(p.c2, p.c1, p.c0);
      }
    }
  }

  /** Flipping twice gives back the original image. */
  lemma {:induction false} MirrorIsInvolution(img: Image)
    ensures Mirror(Mirror(img)) == img
  {
    var twice := Mirror(Mirror(img));
    forall i | 0 <= i < |img|
      ensures twice[i] == img[i]
    {
      var row := img[i];
      assert |twice[i]| == |row|;
      forall j | 0 <= j < |row|
        ensures twice[i][j] == row[j]
      {
        assert Mirror(img)[i] == Reverse(row);
        assert Reverse(row)[|row| - 1 - j] == row[j];
      }
    }
  }

  /** The `MODEL_INPUT_SIZE` columns from `x` on of every row of a
      full-width image. */
  function Window(img: Image, x: nat): (w: Image)
    requires FullWidth(img) && x + MODEL_INPUT_SIZE <= CAM_WIDTH
    ensures |w| == |img|
    ensures forall i :: 0 <= i < |w| ==> |w[i]| == MODEL_INPUT_SIZE
  {
    seq(|img|, i requires 0 <= i < |img| => img[i][x..x + MODEL_INPUT_SIZE])
  }

  /** A crop window that lies inside a full-width row yields exactly
      `MODEL_INPUT_SIZE` columns, read from `x` on, in every row. */
  lemma CropInsideFrame(img: Image, x: nat)
    requires FullWidth(img)
    requires x + MODEL_INPUT_SIZE <= CAM_WIDTH
    ensures forall i :: 0 <= i < |img| ==> CropAt(img, x)[i] == img[i][x..x + MODEL_INPUT_SIZE]
    ensures CropAt(img, x) == Window(img, x)
  {
  }

  /** Mirroring the frame turns each crop at `x` into the reversed crop at the
      mirror offset `CAM_WIDTH - MODEL_INPUT_SIZE - x`: with the offsets 0, 48
      and 96 the left and right crops trade places and the center crop maps
      onto itself. */
  lemma {:induction false} MirrorReflectsCrop(img: Image, x: nat)
    requires FullWidth(img)
    requires x + MODEL_INPUT_SIZE <= CAM_WIDTH
    ensures forall i :: 0 <= i < |img| ==>
      CropAt(Mirror(img), x)[i] == Reverse(CropAt(img, CAM_WIDTH - MODEL_INPUT_SIZE - x)[i])
  {
    var y := CAM_WIDTH - MODEL_INPUT_SIZE - x;
    forall i | 0 <= i < |img|
      ensures CropAt(Mirror(img), x)[i] == Reverse(CropAt(img, y)[i])
    {
      var row := img[i];
      var a := CropAt(Mirror(img), x)[i];
      var b := Reverse(CropAt(img, y)[i]);
      assert a == Reverse(row)[x..x + MODEL_INPUT_SIZE];
      assert CropAt(img, y)[i] == row[y..y + MODEL_INPUT_SIZE];
      assert |a| == |b| == MODEL_INPUT_SIZE;
      forall j | 0 <= j < MODEL_INPUT_SIZE
        ensures a[j] == b[j]
      {
        assert a[j] == row[CAM_WIDTH - 1 - (x + j)];
        assert b[j] == row[y + (MODEL_INPUT_SIZE - 1 - j)];
      }
    }
  }
}
