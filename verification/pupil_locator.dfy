/**
 * The pupil locator: reduces the iris landmarks of the first detected face
 * to one integer pixel centre per eye.
 *
 * The face-mesh detector itself is not modelled; its output for one frame is
 * the input here, as landmark points already scaled to pixels and truncated
 * to integers, or `None` when no face was found.
 */
module PupilLocator {
  import opened Wrappers

  /** A landmark or a pupil centre in integer pixel coordinates. */
  datatype Pixel = Pixel(x: int, y: int)

  /** The result of locating the pupils in one frame. */
  datatype Pupils = Pupils(left: Option<Pixel>, right: Option<Pixel>)

  /** Indexing the landmark array past its end raises. */
  datatype LocateError = IndexOutOfBounds

  /** Landmark indices that trace the left iris. */
  const LeftIris: seq<nat> := [474, 475, 476, 477]

  /** Landmark indices that trace the right iris. */
  const RightIris: seq<nat> := [469, 470, 471, 472]

  /** Conversion of an exact quotient to `int`, which truncates toward zero. */
  function TruncDiv(n: int, d: nat): (q: int)
    requires d > 0
    ensures n >= 0 ==> 0 <= d * q <= n < d * q + d
    ensures n < 0 ==> d * q - d < n <= d * q <= 0
  {
    if n >= 0 then
      DivBounds(n, d);
      n / d
    else
      DivBounds(-n, d);
      NegatedProduct(d, (-n) / d);
      -((-n) / d)
  }

  /** Euclidean division of a natural number brackets it between two multiples of the divisor. */
  lemma DivBounds(m: nat, d: nat)
    requires d > 0
    ensures 0 <= d * (m / d) <= m < d * (m / d) + d
  {
    var q, r := m / d, m % d;
    assert m == d * q + r && 0 <= r < d;
    assert q >= 0;
    assert d * q >= 0;
  }

  lemma NegatedProduct(a: int, b: int)
    ensures a * -b == -(a * b)
  {
  }

  /** True when every index addresses one of the points. */
  predicate IndicesInRange(points: seq<Pixel>, iris: seq<nat>)
  {
    forall k :: 0 <= k < |iris| ==> iris[k] < |points|
  }

  function IrisSumX(points: seq<Pixel>, iris: seq<nat>): int
    requires IndicesInRange(points, iris)
  {
    if iris == [] then 0 else points[iris[0]].x + IrisSumX(points, iris[1..])
  }

  function IrisSumY(points: seq<Pixel>, iris: seq<nat>): int
    requires IndicesInRange(points, iris)
  {
    if iris == [] then 0 else points[iris[0]].y + IrisSumY(points, iris[1..])
  }

  /**
   * The centre of one iris: the mean of the selected points on each axis,
   * truncated toward zero. Each coordinate is the quotient of the axis sum
   * by the number of points, rounded toward zero.
   */
  function IrisCentre(points: seq<Pixel>, iris: seq<nat>): (c: Pixel)
    requires |iris| > 0 && IndicesInRange(points, iris)
    ensures IrisSumX(points, iris) >= 0 ==> |iris| * c.x <= IrisSumX(points, iris) < |iris| * c.x + |iris|
    ensures IrisSumX(points, iris) < 0 ==> |iris| * c.x - |iris| < IrisSumX(points, iris) <= |iris| * c.x
    ensures IrisSumY(points, iris) >= 0 ==> |iris| * c.y <= IrisSumY(points, iris) < |iris| * c.y + |iris|
    ensures IrisSumY(points, iris) < 0 ==> |iris| * c.y - |iris| < IrisSumY(points, iris) <= |iris| * c.y
  {
    Pixel(TruncDiv(IrisSumX(points, iris), |iris|), TruncDiv(IrisSumY(points, iris), |iris|))
  }

  /**
   * Locates both pupils. No face gives `(None, None)`; a landmark set too
   * short for the iris indices raises; otherwise both centres are present.
   */
  function DetectPupil(face: Option<seq<Pixel>>): (r: Result<Pupils, LocateError>)
    ensures face.None? ==> r == Ok(Pupils(None, None))
    ensures face.Some? && |face.value| > 477 ==>
      r.Ok? && r.value.left == Some(IrisCentre(face.value, LeftIris))
            && r.value.right == Some(IrisCentre(face.value, RightIris))
    ensures face.Some? && |face.value| <= 477 ==> r == Err(IndexOutOfBounds)
    ensures r.Ok? ==> (r.value.left.Some? <==> r.value.right.Some?)
  {
    match face
    case None => Ok(Pupils(None, None))
    case Some(points) =>
      if |points| > 477 then
        Ok(Pupils(Some(IrisCentre(points, LeftIris)), Some(IrisCentre(points, RightIris))))
      else
        Err(IndexOutOfBounds)
  }

  /** Bounds on the x sum from bounds on every selected point. */
  lemma {:induction false} IrisSumXBounds(points: seq<Pixel>, iris: seq<nat>, lo: int, hi: int)
    requires IndicesInRange(points, iris)
    requires forall k :: 0 <= k < |iris| ==> lo <= points[iris[k]].x <= hi
    ensures |iris| * lo <= IrisSumX(points, iris) <= |iris| * hi
  {
    if iris != [] {
      var n := |iris|;
      assert forall k :: 0 <= k < n - 1 ==> iris[1..][k] == iris[k + 1];
      IrisSumXBounds(points, iris[1..], lo, hi);
      IntProductStep(n, lo);
      IntProductStep(n, hi);
    }
  }

  /** Bounds on the y sum from bounds on every selected point. */
  lemma {:induction false} IrisSumYBounds(points: seq<Pixel>, iris: seq<nat>, lo: int, hi: int)
    requires IndicesInRange(points, iris)
    requires forall k :: 0 <= k < |iris| ==> lo <= points[iris[k]].y <= hi
    ensures |iris| * lo <= IrisSumY(points, iris) <= |iris| * hi
  {
    if iris != [] {
      var n := |iris|;
      assert forall k :: 0 <= k < n - 1 ==> iris[1..][k] == iris[k + 1];
      IrisSumYBounds(points, iris[1..], lo, hi);
      IntProductStep(n, lo);
      IntProductStep(n, hi);
    }
  }

  lemma IntProductStep(n: int, a: int)
    ensures n * a == (n - 1) * a + a
  {
  }

  lemma {:induction false} AtLeastOnce(n: int, k: int)
    requires n > 0 && k >= 1
    ensures n * k >= n
    decreases k
  {
    if k > 1 {
      AtLeastOnce(n, k - 1);
      assert n * k == n * (k - 1) + n;
    }
  }

  /** From `n * a < n * (b + 1)` with `n > 0` follows `a <= b`. */
  lemma ScaledLess(n: int, a: int, b: int)
    requires n > 0 && n * a < n * b + n
    ensures a <= b
  {
    var k := a - b;
    assert n * k == n * a - n * b;
    if k >= 1 {
      AtLeastOnce(n, k);
    }
  }

  /**
   * The centre of an iris lies in every axis-aligned box that holds all of
   * its landmark points: truncating the mean never leaves the box.
   */
  lemma CentreWithinBox(points: seq<Pixel>, iris: seq<nat>, lo: Pixel, hi: Pixel)
    requires |iris| > 0 && IndicesInRange(points, iris)
    requires forall k :: 0 <= k < |iris| ==>
      lo.x <= points[iris[k]].x <= hi.x && lo.y <= points[iris[k]].y <= hi.y
    ensures lo.x <= IrisCentre(points, iris).x <= hi.x
    ensures lo.y <= IrisCentre(points, iris).y <= hi.y
  {
    var n, c := |iris|, IrisCentre(points, iris);
    var sx, sy := IrisSumX(points, iris), IrisSumY(points, iris);
    IrisSumXBounds(points, iris, lo.x, hi.x);
    IrisSumYBounds(points, iris, lo.y, hi.y);
    // On each axis: lo <= c <= hi follows from n*lo <= sum <= n*hi and the
    // truncation bounds, which differ by sign of the sum.
    if sx >= 0 {
      ScaledLess(n, lo.x, c.x);
      ScaledLess(n, c.x, hi.x);
    } else {
      ScaledLess(n, lo.x, c.x);
      ScaledLess(n, c.x, hi.x);
    }
    if sy >= 0 {
      ScaledLess(n, lo.y, c.y);
      ScaledLess(n, c.y, hi.y);
    } else {
      ScaledLess(n, lo.y, c.y);
      ScaledLess(n, c.y, hi.y);
    }
  }

  /**
   * Four points at (50,50), (60,50), (50,60), (60,60) (the pixels of the
   * normalised points (0.5,0.5) … (0.6,0.6) on a 100x100 frame) centre at (55,55).
   */
  lemma SquareCentre()
    ensures IrisCentre([Pixel(50, 50), Pixel(60, 50), Pixel(50, 60), Pixel(60, 60)], [0, 1, 2, 3])
            == Pixel(55, 55)
  {
    var points := [Pixel(50, 50), Pixel(60, 50), Pixel(50, 60), Pixel(60, 60)];
    var iris: seq<nat> := [0, 1, 2, 3];
    assert iris[1..] == [1, 2, 3] && iris[2..] == [2, 3] && iris[3..] == [3];
    assert IrisSumX(points, iris) == 220;
    assert IrisSumY(points, iris) == 220;
  }
}
