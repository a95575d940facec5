/**
 * The integer arithmetic of three helpers in _util.py: the squared Lab
 * distance, the padding amounts of pad_mat and the hue that
 * visualise_segment_labels_colour gives a segment label.
 */
module UtilArith {
  import opened Arith

  function Square(x: int): (r: nat)
    ensures r == x * x
  {
    if x < 0 then (-x) * (-x) else x * x
  }

  lemma SquareZero(x: int)
    ensures Square(x) == 0 <==> x == 0
  {
    if x != 0 {
      if x < 0 {
        MulAtLeast(-x, -x);
      } else {
        MulAtLeast(x, x);
      }
    }
  }

  /**
   * The radicand of get_lab_distance (_util.py:157-161): the sum of the
   * squared differences of the first three channels, each channel read as
   * an integer first.  It is a natural number, and zero exactly when the
   * three channels agree.
   */
  function LabDistanceSquared(lab1: seq<int>, lab2: seq<int>): (r: nat)
    requires |lab1| >= 3 && |lab2| >= 3
    ensures r == 0 <==> lab1[0] == lab2[0] && lab1[1] == lab2[1] && lab1[2] == lab2[2]
  {
    SquareZero(lab1[0] - lab2[0]);
    SquareZero(lab1[1] - lab2[1]);
    SquareZero(lab1[2] - lab2[2]);
    Square(lab1[0] - lab2[0]) + Square(lab1[1] - lab2[1]) + Square(lab1[2] - lab2[2])
  }

  /** The distance does not depend on the order of its arguments. */
  lemma LabDistanceSymmetric(lab1: seq<int>, lab2: seq<int>)
    requires |lab1| >= 3 && |lab2| >= 3
    ensures LabDistanceSquared(lab1, lab2) == LabDistanceSquared(lab2, lab1)
  {
    assert Square(lab1[0] - lab2[0]) == Square(lab2[0] - lab1[0]);
    assert Square(lab1[1] - lab2[1]) == Square(lab2[1] - lab1[1]);
    assert Square(lab1[2] - lab2[2]) == Square(lab2[2] - lab1[2]);
  }

  /**
   * The padding pad_mat adds along one axis of length n for a kernel of
   * size k (_util.py:439-440): ceil(n / k) * k - n.  It is the least
   * amount that makes the length a multiple of the kernel.
   */
  function PadAmount(n: nat, k: int): (r: nat)
    requires k > 0
    ensures r < k && Aligned(n + r, k)
    ensures forall m :: n <= m < n + r ==> !Aligned(m, k)
  {
    var q := CeilDiv(n, k);
    PadBounds(n, k);
    var r := q * k - n;
    PadMinimal(n, k, r);
    r
  }

  /** Whether a length is a whole number of kernels. */
  predicate Aligned(m: int, k: int)
    requires k > 0
  {
    m % k == 0
  }

  lemma PadBounds(n: nat, k: int)
    requires k > 0
    ensures var r := CeilDiv(n, k) * k - n; 0 <= r < k && (n + r) % k == 0
  {
    var q := CeilDiv(n, k);
    var t := (n + k - 1) % k;
    assert n + k - 1 == q * k + t;
    var r := q * k - n;
    assert r == k - 1 - t;
    DivUnique(n + r, k, q, 0);
  }

  lemma PadMinimal(n: nat, k: int, r: nat)
    requires k > 0 && r < k && (n + r) % k == 0
    ensures forall m :: n <= m < n + r ==> !Aligned(m, k)
  {
    var q := (n + r) / k;
    assert n + r == q * k;
    assert (q - 1) * k == q * k - k;
    forall m | n <= m < n + r
      ensures !Aligned(m, k)
    {
      assert m == (q - 1) * k + (k - (n + r - m));
      DivUnique(m, k, q - 1, k - (n + r - m));
    }
  }

  /**
   * The hue of segment label l in visualise_segment_labels_colour
   * (_util.py:238): (53 * l) % 180, with Python's modulo, which for a
   * positive divisor is never negative, as Dafny's is.  It always lies in
   * [0, 180), the hue range of OpenCV's 8-bit HSV.
   */
  function SegmentHue(segment: int): (h: int)
    ensures 0 <= h < 180
  {
    (53 * segment) % 180
  }

  lemma ModOfMultiple(m: int, d: int, q: int)
    requires d > 0 && 0 <= m < d
    ensures (q * d + m) % d == m
  {
    DivUnique(q * d + m, d, q, m);
  }

  /** Labels 180 apart share a hue. */
  lemma HuePeriodic(segment: int)
    ensures SegmentHue(segment + 180) == SegmentHue(segment)
  {
    var h := SegmentHue(segment);
    var q := (53 * segment) / 180;
    assert 53 * segment == q * 180 + h;
    assert 53 * (segment + 180) == (q + 53) * 180 + h;
    ModOfMultiple(h, 180, q + 53);
  }

  /**
   * Two labels get the same hue exactly when they agree modulo 180: since
   * 53 * 17 = 5 * 180 + 1, multiplying the hue by 17 gives the label back
   * modulo 180, so 180 consecutive labels get 180 different hues.
   */
  lemma HueSameIff(a: int, b: int)
    ensures SegmentHue(a) == SegmentHue(b) <==> a % 180 == b % 180
  {
    var qa, ra := (53 * a) / 180, SegmentHue(a);
    var qb, rb := (53 * b) / 180, SegmentHue(b);
    assert 53 * a == qa * 180 + ra;
    assert 53 * b == qb * 180 + rb;
    var pa, sa := a / 180, a % 180;
    var pb, sb := b / 180, b % 180;
    assert a == pa * 180 + sa;
    assert b == pb * 180 + sb;
    if ra == rb {
      // 17 * 53 * (a - b) == 17 * 180 * (qa - qb), and 17 * 53 == 901.
      assert 53 * (a - b) == (qa - qb) * 180;
      assert 901 * (a - b) == 17 * (qa - qb) * 180;
      assert a - b == (17 * (qa - qb) - 5 * (a - b)) * 180;
      assert sa - sb == (17 * (qa - qb) - 5 * (a - b) - pa + pb) * 180;
      assert sa == sb;
    }
    if sa == sb {
      assert 53 * a - 53 * b == 53 * (pa - pb) * 180;
      assert ra - rb == (53 * (pa - pb) - qa + qb) * 180;
      assert ra == rb;
    }
  }
}
