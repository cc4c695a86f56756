/** The numpy and OpenCV calls the depth conversion hands its data to, kept abstract: the model
    takes them as function values and relies only on what `ValidOps` states of them. */
module Library {
  import opened Stats

  /** One `np.uint8` sample. */
  type Byte = b: int | 0 <= b < 256

  /** The library routines used by the relative-depth conversion. Images are row-major sequences;
      the two filters are also given the image height and width. */
  datatype Ops = Ops(
    /** `np.percentile(values, q)` for `q` in [0, 100]. */
    percentile: (seq<real>, real) -> real,
    /** `np.log(x)`. */
    log: real -> real,
    /** `cv2.medianBlur(image, 3)` on an 8-bit image. */
    medianBlur: (seq<Byte>, nat, nat) -> seq<Byte>,
    /** `cv2.createCLAHE(clipLimit=2.0, tileGridSize=(8, 8)).apply(image)` on an 8-bit image. */
    clahe: (seq<Byte>, nat, nat) -> seq<Byte>
  )

  /** What the model relies on: a percentile lies between the minimum and the maximum of its
      input and grows with `q`; the logarithm is increasing on positive arguments; both filters
      return an image of the size they were given. */
  ghost predicate ValidOps(ops: Ops) {
    && (forall s: seq<real>, q: real | |s| > 0 && 0.0 <= q <= 100.0 ::
          SeqMin(s) <= ops.percentile(s, q) <= SeqMax(s))
    && (forall s: seq<real>, q1: real, q2: real | |s| > 0 && 0.0 <= q1 <= q2 <= 100.0 ::
          ops.percentile(s, q1) <= ops.percentile(s, q2))
    && (forall x: real, y: real | 0.0 < x < y :: ops.log(x) < ops.log(y))
    && (forall img: seq<Byte>, h: nat, w: nat :: |ops.medianBlur(img, h, w)| == |img|)
    && (forall img: seq<Byte>, h: nat, w: nat :: |ops.clahe(img, h, w)| == |img|)
  }
}
