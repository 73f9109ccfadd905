/** The axis-aligned bounding-box overlap test of src/pf.c. */
module PfAabb {
  import opened Vec

  /** `pf_aabb`: a box given by its lower-left and upper-right corners. */
  datatype Aabb = Aabb(min: V2, max: V2)

  /** `pf_test_aabb_vs_aabb` exactly as written: three non-strict comparisons and a
      strict one on `b.min.x < a.max.x`. */
  predicate TestAabbVsAabb(a: Aabb, b: Aabb) {
    && a.min.x <= b.max.x
    && b.min.x < a.max.x
    && a.min.y <= b.max.y
    && b.min.y <= a.max.y
  }

  /** A box whose corners are ordered on both axes. */
  predicate WellFormed(box: Aabb) {
    box.min.x <= box.max.x && box.min.y <= box.max.y
  }

  /** The y-ranges of the two boxes share a point (closed intervals). */
  predicate OverlapY(a: Aabb, b: Aabb) {
    a.min.y <= b.max.y && b.min.y <= a.max.y
  }

  // ---------------------------------------------------------------------------
  // An independent reading of the predicate: a common point, where box `a` does
  // not own its right edge and every other edge is owned.
  // ---------------------------------------------------------------------------

  /** `p` lies in `box` with the right edge excluded. */
  ghost predicate InRightOpen(p: V2, box: Aabb) {
    box.min.x <= p.x < box.max.x && box.min.y <= p.y <= box.max.y
  }

  /** `p` lies in the closed box. */
  ghost predicate InClosed(p: V2, box: Aabb) {
    box.min.x <= p.x <= box.max.x && box.min.y <= p.y <= box.max.y
  }

  function Max(u: real, v: real): real { if u < v then v else u }

  /** For well-formed boxes where `a` has positive width, the test holds exactly
      when some point lies in `a` without its right edge and in the closed `b`. */
  lemma TestIsSharedPoint(a: Aabb, b: Aabb)
    requires a.min.x < a.max.x && a.min.y <= a.max.y
    requires WellFormed(b)
    ensures TestAabbVsAabb(a, b) <==> exists p :: InRightOpen(p, a) && InClosed(p, b)
  {
    if TestAabbVsAabb(a, b) {
      var p := V2(Max(a.min.x, b.min.x), Max(a.min.y, b.min.y));
      assert InRightOpen(p, a) && InClosed(p, b);
    }
    if exists p :: InRightOpen(p, a) && InClosed(p, b) {
      var p :| InRightOpen(p, a) && InClosed(p, b);
      assert a.min.x <= p.x <= b.max.x && b.min.x <= p.x < a.max.x;
    }
  }

  // ---------------------------------------------------------------------------
  // Border and gap cases
  // ---------------------------------------------------------------------------

  /** A positive gap on either axis, on either side, rules out overlap. */
  lemma GapMeansNoOverlap(a: Aabb, b: Aabb)
    requires b.max.x < a.min.x || a.max.x < b.min.x || b.max.y < a.min.y || a.max.y < b.min.y
    ensures !TestAabbVsAabb(a, b)
  {
  }

  /** A box overlaps itself exactly when it has positive width and non-negative height. */
  lemma SelfOverlap(a: Aabb)
    ensures TestAabbVsAabb(a, a) <==> a.min.x < a.max.x && a.min.y <= a.max.y
  {
  }

  /** Boxes sharing a horizontal edge (b above or below a) overlap exactly when their
      x-ranges pass the test's x-conditions: touching on the y axis registers. */
  lemma HorizontalEdgeTouch(a: Aabb, b: Aabb)
    requires WellFormed(a) && WellFormed(b)
    requires b.max.y == a.min.y || b.min.y == a.max.y
    ensures TestAabbVsAabb(a, b) <==> a.min.x <= b.max.x && b.min.x < a.max.x
  {
  }

  /** b touching a's left edge registers whenever the y-ranges meet and a has width. */
  lemma LeftEdgeTouch(a: Aabb, b: Aabb)
    requires a.min.x < a.max.x && WellFormed(b)
    requires b.max.x == a.min.x
    ensures TestAabbVsAabb(a, b) <==> OverlapY(a, b)
  {
  }

  /** b touching a's right edge never registers. */
  lemma RightEdgeTouch(a: Aabb, b: Aabb)
    requires b.min.x == a.max.x
    ensures !TestAabbVsAabb(a, b)
  {
  }

  /** When every comparison holds strictly, the argument order does not matter. */
  lemma StrictOverlapSymmetric(a: Aabb, b: Aabb)
    requires a.min.x < b.max.x && b.min.x < a.max.x && a.min.y < b.max.y && b.min.y < a.max.y
    ensures TestAabbVsAabb(a, b) && TestAabbVsAabb(b, a)
  {
  }

  /** The two argument orders disagree exactly when the boxes touch on x with
      `b` at `a`'s left edge (or the reverse): swapping turns that left edge into a
      right edge. */
  lemma SwapDisagreement(a: Aabb, b: Aabb)
    ensures TestAabbVsAabb(a, b) && !TestAabbVsAabb(b, a)
        <==> TestAabbVsAabb(a, b) && a.min.x == b.max.x
  {
  }

  // ---------------------------------------------------------------------------
  // The unit-test table of tests/aabb_tests.c, against the code as written
  // ---------------------------------------------------------------------------

  /** Box `a` of every test. */
  const UnitBox: Aabb := Aabb(V2(-1.0, -1.0), V2(1.0, 1.0))

  /** Box `b` of `border_right_pos_test_aabb_vs_aabb_test`. */
  const BorderRightBox: Aabb := Aabb(V2(1.0, -1.0), V2(3.0, 1.0))

  /** Box `b` of `border_left_pos_test_aabb_vs_aabb_test`. */
  const BorderLeftBox: Aabb := Aabb(V2(-3.0, -1.0), V2(-1.0, 1.0))

  /** Twelve of the thirteen tests expect what the predicate computes. */
  lemma UnitTestsThatAgree()
    ensures TestAabbVsAabb(UnitBox, UnitBox)
    ensures TestAabbVsAabb(UnitBox, Aabb(V2(-1.0, -2.0), V2(1.0, 0.0)))
    ensures TestAabbVsAabb(UnitBox, Aabb(V2(-1.0, -3.0), V2(1.0, -1.0)))
    ensures !TestAabbVsAabb(UnitBox, Aabb(V2(-1.0, -4.0), V2(1.0, -2.0)))
    ensures TestAabbVsAabb(UnitBox, Aabb(V2(-1.0, 0.0), V2(1.0, 2.0)))
    ensures TestAabbVsAabb(UnitBox, Aabb(V2(-1.0, 1.0), V2(1.0, 3.0)))
    ensures !TestAabbVsAabb(UnitBox, Aabb(V2(-1.0, 2.0), V2(1.0, 4.0)))
    ensures TestAabbVsAabb(UnitBox, Aabb(V2(-2.0, -1.0), V2(0.0, 1.0)))
    ensures TestAabbVsAabb(UnitBox, BorderLeftBox)
    ensures !TestAabbVsAabb(UnitBox, Aabb(V2(-4.0, -1.0), V2(-2.0, 1.0)))
    ensures TestAabbVsAabb(UnitBox, Aabb(V2(0.0, -1.0), V2(2.0, 1.0)))
    ensures !TestAabbVsAabb(UnitBox, Aabb(V2(2.0, -1.0), V2(4.0, 1.0)))
  {
  }

  /** The border-right test expects `true`; the predicate is `false` on its input. */
  lemma BorderRightTestDisagrees()
    ensures !TestAabbVsAabb(UnitBox, BorderRightBox)
  {
  }

  /** The border-left configuration registers one way round and not the other. */
  lemma BorderLeftOrderMatters()
    ensures TestAabbVsAabb(UnitBox, BorderLeftBox)
    ensures !TestAabbVsAabb(BorderLeftBox, UnitBox)
  {
  }
}
