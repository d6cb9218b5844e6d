/**
 * The 2-D camera of quest 3: a six-entry pose (a four-entry motor followed by
 * two scale entries) and a viewport [left, right] x [bottom, top] that the
 * moves and zooms keep inside [-1, 1]^2.
 *
 * The motor product that a move applies to the pose (translator, geometric
 * product and normalisation of the PGA2D library) is not part of this
 * model; it is passed in as the function `translate`.
 */
module Camera2D {
  import opened Wrappers

  /** A 2-D PGA motor, the first four pose entries. */
  type Motor = s: seq<real> | |s| == 4 witness [1.0, 0.0, 0.0, 0.0]

  /** PGA2D.normaliozeMotor (the library's own spelling) of (geometricProduct(createTranslator(tx, ty), m)). */
  type Translate = (real, real, Motor) -> Motor

  /** The scale applied by one zoom step. */
  const ZoomFactor: real := 1.1

  datatype Viewport = Viewport(left: real, right: real, top: real, bottom: real)
  {
    predicate Inside()
    {
      -1.0 <= left && right <= 1.0 && top <= 1.0 && -1.0 <= bottom
    }

    function Width(): real { right - left }

    function Height(): real { top - bottom }

    /** Every bound multiplied by f. */
    function Scaled(f: real): (v: Viewport)
      ensures v.Width() == f * Width() && v.Height() == f * Height()
    {
      Viewport(left * f, right * f, top * f, bottom * f)
    }

    /** Both bounds of each axis shifted by the same amount. */
    function Shifted(tx: real, ty: real): (v: Viewport)
      ensures v.Width() == Width() && v.Height() == Height()
    {
      Viewport(left + tx, right + tx, top + ty, bottom + ty)
    }

    /** The zoomed-out viewport passes the check of zoomOut. */
    predicate ZoomOutFits()
    {
      Scaled(ZoomFactor).Inside()
    }

    /** Zooming out can succeed once the viewport is centred. */
    predicate ZoomOutRoom()
    {
      ZoomFactor * Width() <= 2.0 && ZoomFactor * Height() <= 2.0
    }
  }

  /** The translation of the recentring step: max(-m, min(-m, 0)), which is
      always -m. */
  function RecentreShift(v: Viewport): (t: (real, real))
    ensures v.Shifted(t.0, t.1).left + v.Shifted(t.0, t.1).right == 0.0
    ensures v.Shifted(t.0, t.1).top + v.Shifted(t.0, t.1).bottom == 0.0
  {
    var moveX := (v.left + v.right) / 2.0;
    var moveY := (v.top + v.bottom) / 2.0;
    (MaxR(-moveX, MinR(-moveX, 0.0)), MaxR(-moveY, MinR(-moveY, 0.0)))
  }

  /** The viewport moved so that both axes are centred on 0. */
  function Recentred(v: Viewport): (w: Viewport)
    ensures w.left + w.right == 0.0 && w.top + w.bottom == 0.0
    ensures w.Width() == v.Width() && w.Height() == v.Height()
  {
    v.Shifted(RecentreShift(v).0, RecentreShift(v).1)
  }

  /** A centred viewport with room to zoom passes the check. */
  lemma RecentredFits(v: Viewport)
    requires v.ZoomOutRoom()
    ensures Recentred(v).ZoomOutFits()
  {
  }

  /** A viewport inside [-1, 1]^2 stays inside when recentred. */
  lemma RecentredInside(v: Viewport)
    requires v.Inside()
    ensures Recentred(v).Inside()
  {
  }

  /** The recentring branch is taken whenever the check fails. */
  predicate NeedsAdjust(v: Viewport)
  {
    var s := v.Scaled(ZoomFactor);
    AbsR(s.left) > 1.0 || AbsR(s.right) > 1.0 || AbsR(s.top) > 1.0 || AbsR(s.bottom) > 1.0
  }

  /** What one activation of zoomOut does to the viewport: either it zooms,
      or it recentres and calls itself again. */
  datatype ZoomStep = Zoomed(view: Viewport) | Retry(view: Viewport)

  function ZoomOutActivation(v: Viewport): (r: ZoomStep)
    ensures r.Zoomed? <==> v.ZoomOutFits()
  {
    if v.ZoomOutFits() then Zoomed(v.Scaled(ZoomFactor))
    else if NeedsAdjust(v) then
      Retry(Recentred(v))
    else Retry(v)
  }

  /** With room to zoom, the second activation always zooms: the recursion
      of zoomOut is at most one level deep. */
  lemma ZoomOutTerminates(v: Viewport)
    requires v.ZoomOutRoom()
    ensures ZoomOutActivation(v).Zoomed? || ZoomOutActivation(ZoomOutActivation(v).view).Zoomed?
  {
    if !v.ZoomOutFits() {
      var w := ZoomOutActivation(v).view;
      assert NeedsAdjust(v);
      assert w.left + w.right == 0.0 && w.top + w.bottom == 0.0;
      assert w.Width() == v.Width() && w.Height() == v.Height();
    }
  }

  /** Without room to zoom, the second activation is a fixed point: it
      retries on the very viewport it was given, so zoomOut recurses without
      end. */
  lemma ZoomOutDiverges(v: Viewport)
    requires ZoomFactor * v.Width() > 2.0
    ensures var w := ZoomOutActivation(v).view;
      ZoomOutActivation(v).Retry? && ZoomOutActivation(w) == Retry(w)
  {
    var w := ZoomOutActivation(v).view;
    assert w.Width() == v.Width();
    if NeedsAdjust(w) {
      assert w.left + w.right == 0.0;
      assert RecentreShift(w).0 == 0.0;
    }
  }

  /** The initial viewport has no room to zoom out: width 2, and 2.2 > 2. */
  lemma InitialViewDiverges()
    ensures var v := Viewport(-1.0, 1.0, 1.0, -1.0);
      !v.ZoomOutRoom() && ZoomOutActivation(ZoomOutActivation(v).view) == Retry(ZoomOutActivation(v).view)
  {
    ZoomOutDiverges(Viewport(-1.0, 1.0, 1.0, -1.0));
  }

  class Camera {
    const pose: array<real>
    var left: real
    var right: real
    var top: real
    var bottom: real

    function View(): Viewport
      reads this
    {
      Viewport(left, right, top, bottom)
    }

    function MotorPart(): Motor
      reads this, pose
      requires pose.Length == 6
    {
      pose[..4]
    }

    /** The pose [1, 0, 0, 0, 1, 1] and the full viewport. */
    constructor ()
      ensures pose.Length == 6 && pose[..] == [1.0, 0.0, 0.0, 0.0, 1.0, 1.0]
      ensures View() == Viewport(-1.0, 1.0, 1.0, -1.0) && View().Inside()
    {
      pose := new real[6] [1.0, 0.0, 0.0, 0.0, 1.0, 1.0];
      left, right, top, bottom := -1.0, 1.0, 1.0, -1.0;
    }

    method ResetPose()
      requires pose.Length == 6
      modifies this, pose
      ensures pose[..] == [1.0, 0.0, 0.0, 0.0, 1.0, 1.0]
      ensures View() == Viewport(-1.0, 1.0, 1.0, -1.0)
    {
      pose[0], pose[1], pose[2], pose[3], pose[4], pose[5] := 1.0, 0.0, 0.0, 0.0, 1.0, 1.0;
      left, right, top, bottom := -1.0, 1.0, 1.0, -1.0;
    }

    /** Overwrites the motor entries 0..3 only. */
    method UpdatePose(newpose: seq<real>)
      requires pose.Length == 6 && |newpose| >= 4
      modifies pose
      ensures pose[..] == newpose[..4] + old(pose[4..])
    {
      pose[0] := newpose[0];
      pose[1] := newpose[1];
      pose[2] := newpose[2];
      pose[3] := newpose[3];
    }

    /** Shared by the four moves: translate by (tx, ty) when `ok`. */
    method MoveBy(ok: bool, tx: real, ty: real, translate: Translate)
      requires pose.Length == 6
      modifies this, pose
      ensures ok ==>
        && View() == old(View()).Shifted(tx, ty)
        && pose[..] == translate(tx, ty, old(MotorPart())) + old(pose[4..])
      ensures !ok ==> View() == old(View()) && pose[..] == old(pose[..])
    {
      if ok {
        UpdatePose(translate(tx, ty, MotorPart()));
        left, right := left + tx, right + tx;
        top, bottom := top + ty, bottom + ty;
      }
    }

    method MoveLeft(d: real, translate: Translate)
      requires pose.Length == 6
      modifies this, pose
      ensures old(left) - d >= -1.0 ==>
        && View() == old(View()).Shifted(-d, 0.0)
        && pose[..] == translate(-d, 0.0, old(MotorPart())) + old(pose[4..])
      ensures old(left) - d < -1.0 ==> View() == old(View()) && pose[..] == old(pose[..])
      ensures d >= 0.0 && old(View().Inside()) ==> View().Inside()
    {
      MoveBy(left - d >= -1.0, -d, 0.0, translate);
    }

    method MoveRight(d: real, translate: Translate)
      requires pose.Length == 6
      modifies this, pose
      ensures old(right) + d <= 1.0 ==>
        && View() == old(View()).Shifted(d, 0.0)
        && pose[..] == translate(d, 0.0, old(MotorPart())) + old(pose[4..])
      ensures old(right) + d > 1.0 ==> View() == old(View()) && pose[..] == old(pose[..])
      ensures d >= 0.0 && old(View().Inside()) ==> View().Inside()
    {
      MoveBy(right + d <= 1.0, d, 0.0, translate);
    }

    method MoveUp(d: real, translate: Translate)
      requires pose.Length == 6
      modifies this, pose
      ensures old(top) + d <= 1.0 ==>
        && View() == old(View()).Shifted(0.0, d)
        && pose[..] == translate(0.0, d, old(MotorPart())) + old(pose[4..])
      ensures old(top) + d > 1.0 ==> View() == old(View()) && pose[..] == old(pose[..])
      ensures d >= 0.0 && old(View().Inside()) ==> View().Inside()
    {
      MoveBy(top + d <= 1.0, 0.0, d, translate);
    }

    method MoveDown(d: real, translate: Translate)
      requires pose.Length == 6
      modifies this, pose
      ensures old(bottom) - d >= -1.0 ==>
        && View() == old(View()).Shifted(0.0, -d)
        && pose[..] == translate(0.0, -d, old(MotorPart())) + old(pose[4..])
      ensures old(bottom) - d < -1.0 ==> View() == old(View()) && pose[..] == old(pose[..])
      ensures d >= 0.0 && old(View().Inside()) ==> View().Inside()
    {
      MoveBy(bottom - d >= -1.0, 0.0, -d, translate);
    }

    /** Scales up by 1.1 and shrinks every bound by the same factor. */
    method ZoomIn()
      requires pose.Length == 6
      modifies this, pose
      ensures pose[..] == old(pose[..4]) + [old(pose[4]) * ZoomFactor, old(pose[5]) * ZoomFactor]
      ensures View() == old(View()).Scaled(1.0 / ZoomFactor)
      ensures old(View().Inside()) ==> View().Inside()
    {
      pose[4] := pose[4] * ZoomFactor;
      pose[5] := pose[5] * ZoomFactor;
      var f := 1.0 / ZoomFactor;
      left, right, top, bottom := left * f, right * f, top * f, bottom * f;
    }

    /** The successful branch of zoomOut: scale down, bounds up. */
    method ApplyZoomOut()
      requires pose.Length == 6
      modifies this, pose
      ensures View() == old(View()).Scaled(ZoomFactor)
      ensures pose[..] == old(pose[..4]) + [old(pose[4]) / ZoomFactor, old(pose[5]) / ZoomFactor]
    {
      pose[4] := pose[4] / ZoomFactor;
      pose[5] := pose[5] / ZoomFactor;
      left, right, top, bottom := left * ZoomFactor, right * ZoomFactor, top * ZoomFactor, bottom * ZoomFactor;
    }

    /** zoomOut as written.  It recurses after recentring; the recursion
        ends only when the recentred viewport has room to zoom, which is
        what the precondition states (see ZoomOutDiverges). */
    method ZoomOut(translate: Translate)
      requires pose.Length == 6 && View().ZoomOutRoom()
      modifies this, pose
      decreases if left + right == 0.0 && top + bottom == 0.0 then 0 else 1
      ensures var v := old(View());
        View() == (if v.ZoomOutFits() then v else Recentred(v)).Scaled(ZoomFactor)
      ensures View().Inside()
      ensures pose[4] == old(pose[4]) / ZoomFactor && pose[5] == old(pose[5]) / ZoomFactor
      ensures old(View().ZoomOutFits()) ==> MotorPart() == old(MotorPart())
      ensures !old(View().ZoomOutFits()) ==>
        MotorPart() == translate(RecentreShift(old(View())).0, RecentreShift(old(View())).1, old(MotorPart()))
    {
      var newLeft, newRight := left * ZoomFactor, right * ZoomFactor;
      var newTop, newBottom := top * ZoomFactor, bottom * ZoomFactor;
      if newLeft >= -1.0 && newRight <= 1.0 && newTop <= 1.0 && newBottom >= -1.0 {
        ApplyZoomOut();
      } else {
        RecentredFits(View());
        AdjustForRetry(translate);
        ZoomOut(translate);
      }
    }

    /** The recentring that zoomOut does before it retries.  It is guarded
        by the bound that failed, which always holds here. */
    method AdjustForRetry(translate: Translate)
      requires pose.Length == 6 && !View().ZoomOutFits()
      modifies this, pose
      ensures View() == Recentred(old(View()))
      ensures pose[..] == translate(RecentreShift(old(View())).0, RecentreShift(old(View())).1, old(MotorPart())) + old(pose[4..])
    {
      var newLeft, newRight := left * ZoomFactor, right * ZoomFactor;
      var newTop, newBottom := top * ZoomFactor, bottom * ZoomFactor;
      var adjustX := AbsR(newLeft) > 1.0 || AbsR(newRight) > 1.0;
      var adjustY := AbsR(newTop) > 1.0 || AbsR(newBottom) > 1.0;
      if adjustX || adjustY {
        var moveX := (left + right) / 2.0;
        var moveY := (top + bottom) / 2.0;
        var tx := MaxR(-moveX, MinR(-moveX, 0.0));
        var ty := MaxR(-moveY, MinR(-moveY, 0.0));
        MoveBy(true, tx, ty, translate);
      }
    }

    /** zoomOut with the retry done once instead of by recursion: when the
        recentred viewport still has no room, it stays recentred and
        unzoomed.  It always returns, keeps the viewport inside [-1, 1]^2,
        and agrees with ZoomOut wherever ZoomOut returns. */
    method ZoomOutOnce(translate: Translate)
      requires pose.Length == 6
      modifies this, pose
      ensures var v := old(View());
        var w := if v.ZoomOutFits() then v else Recentred(v);
        View() == (if w.ZoomOutFits() then w.Scaled(ZoomFactor) else w)
        && pose[4..] == (if w.ZoomOutFits() then [old(pose[4]) / ZoomFactor, old(pose[5]) / ZoomFactor] else old(pose[4..]))
        && MotorPart() == (if v.ZoomOutFits() then old(MotorPart())
                           else translate(RecentreShift(v).0, RecentreShift(v).1, old(MotorPart())))
      ensures old(View().Inside()) ==> View().Inside()
      ensures var v := old(View());
        v.ZoomOutRoom() ==> View() == (if v.ZoomOutFits() then v else Recentred(v)).Scaled(ZoomFactor)
    {
      var v := View();
      ghost var motor, scales := MotorPart(), pose[4..];
      if !v.ZoomOutFits() {
        var t := RecentreShift(v);
        MoveBy(true, t.0, t.1, translate);
        assert View() == Recentred(v);
        assert pose[4..] == scales;
        if v.Inside() {
          RecentredInside(v);
        }
        if v.ZoomOutRoom() {
          RecentredFits(v);
        }
      }
      ghost var motor' := MotorPart();
      if View().ZoomOutFits() {
        ApplyZoomOut();
        assert pose[..4] == motor';
      }
    }
  }
}
