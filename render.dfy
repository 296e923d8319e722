/** The arithmetic of the renderer: the world-to-pixel mapping, the trail
    polyline, the ball marker and the trajectory preview. Drawing calls,
    colours and labels are not modelled. */
module Render {
  import opened World
  import opened Physics
  import opened Simulation

  /** Number of integration steps of the trajectory preview. */
  const PreviewSteps: nat := 100

  /** Pixels per world unit: the largest square cell that fits 30 columns and
      20 rows into the canvas. */
  function GridSize(w: real, h: real): (g: real)
    ensures g <= w / 30.0 && g <= h / 20.0
    ensures g == w / 30.0 || g == h / 20.0
  {
    if w / 30.0 <= h / 20.0 then w / 30.0 else h / 20.0
  }

  /** World to pixel: x scales, y is flipped about the world's top edge. */
  function ToPixel(g: real, p: Vec): Vec
  {
    Vec(p.x * g, 20.0 * g - p.y * g)
  }

  /** Pixel back to world, for a positive cell size. */
  function FromPixel(g: real, q: Vec): Vec
    requires g > 0.0
  {
    Vec(q.x / g, 20.0 - q.y / g)
  }

  lemma MulNonneg(a: real, b: real)
    requires a >= 0.0 && b >= 0.0
    ensures a * b >= 0.0
  {
  }

  lemma DivCancel(a: real, g: real)
    requires g > 0.0
    ensures (a * g) / g == a
  {
  }

  lemma PixelRoundTrip(g: real, p: Vec)
    requires g > 0.0
    ensures FromPixel(g, ToPixel(g, p)) == p
  {
    DivCancel(p.x, g);
    DivCancel(20.0 - p.y, g);
    assert 20.0 * g - p.y * g == (20.0 - p.y) * g;
  }

  /** Every point of the world lands on the canvas. */
  lemma PixelInCanvas(w: real, h: real, p: Vec)
    requires w >= 0.0 && h >= 0.0 && InWorld(p)
    ensures var q := ToPixel(GridSize(w, h), p);
            0.0 <= q.x <= w && 0.0 <= q.y <= h
  {
    var g := GridSize(w, h);
    assert 0.0 <= g;
    MulNonneg(30.0 - p.x, g);
    MulNonneg(p.x, g);
    assert 30.0 * g <= w && 20.0 * g <= h;
    MulNonneg(20.0 - p.y, g);
    MulNonneg(p.y, g);
    assert 20.0 * g - p.y * g == (20.0 - p.y) * g;
  }

  /** On a canvas of positive size the mapping keeps x order and reverses
      y order: higher in the world is nearer the top of the canvas. */
  lemma PixelOrder(w: real, h: real, p: Vec, q: Vec)
    requires w > 0.0 && h > 0.0
    ensures var g := GridSize(w, h);
            (p.x < q.x ==> ToPixel(g, p).x < ToPixel(g, q).x) &&
            (p.y < q.y ==> ToPixel(g, q).y < ToPixel(g, p).y)
  {
    var g := GridSize(w, h);
    assert g > 0.0;
    if p.x < q.x {
      assert (q.x - p.x) * g > 0.0;
    }
    if p.y < q.y {
      assert (q.y - p.y) * g > 0.0;
    }
  }

  /** Where the ball is drawn: the position handed over on the frame that
      ends the shot, otherwise the stored position. */
  function DisplayPos(finalPos: Option<Vec>, ballPos: Vec): Vec
  {
    match finalPos
    case Some(p) => p
    case None => ballPos
  }

  function BallPixel(g: real, finalPos: Option<Vec>, ballPos: Vec): Vec
  {
    ToPixel(g, DisplayPos(finalPos, ballPos))
  }

  /** Every frame of a shot in flight draws the ball at that frame's
      candidate: a continuing frame because the candidate was stored, a
      terminal frame because it is handed over, although the stored position
      stays at the pre-frame value. */
  lemma FrameShowsCandidate(g: real, s: GameState, sample: bool)
    requires s.status == Playing
    ensures BallPixel(g, TickFinalPos(s), TickState(s, sample).pos) == ToPixel(g, Candidate(s))
    ensures TickState(s, sample).status != Playing ==> TickState(s, sample).pos == s.pos
  {
  }

  /** The trail polyline in pixels: the trail's points in order, then the
      displayed ball position; nothing while Ready or while the trail is
      empty. */
  method TrailPolyline(g: real, status: Status, trail: seq<Vec>, finalPos: Option<Vec>, ballPos: Vec)
    returns (pix: seq<Vec>)
    ensures status == Ready || trail == [] ==> pix == []
    ensures status != Ready && trail != [] ==>
              |pix| == |trail| + 1 &&
              (forall i :: 0 <= i < |trail| ==> pix[i] == ToPixel(g, trail[i])) &&
              pix[|trail|] == BallPixel(g, finalPos, ballPos)
  {
    pix := [];
    if status == Playing || status == Won || status == Lost {
      if |trail| > 0 {
        pix := [ToPixel(g, trail[0])];
        var i := 1;
        while i < |trail|
          invariant 1 <= i <= |trail|
          invariant |pix| == i
          invariant forall j :: 0 <= j < i ==> pix[j] == ToPixel(g, trail[j])
        {
          pix := pix + [ToPixel(g, trail[i])];
          i := i + 1;
        }
        pix := pix + [ToPixel(g, DisplayPos(finalPos, ballPos))];
      }
    }
  }

  // ---- trajectory preview ----

  /** Whether a frame draws the preview, as the renderer decides it: only
      once the shot is over and no final position is handed over. */
  predicate DrawsPreview(status: Status, finalPos: Option<Vec>)
  {
    (status == Won || status == Lost) && finalPos == None
  }

  /** The only frames drawn while the game is not Ready are tick frames;
      the redraws of the slider and resize handlers and of Reset all happen
      in Ready. None of them draws the preview: a continuing frame is still
      Playing, and the frame that ends the shot hands over its candidate. */
  lemma PreviewNeverDrawn(s: GameState, sample: bool)
    requires s.status == Playing
    ensures !DrawsPreview(TickState(s, sample).status, TickFinalPos(s))
    ensures !DrawsPreview(Ready, None)
  {
  }

  /** The evident intent: show the preview once the shot is over. */
  predicate ShowsPreview(status: Status)
  {
    status == Won || status == Lost
  }

  /** With the intended condition the frame that ends a shot shows it. */
  lemma PreviewShownWhenShotEnds(s: GameState, sample: bool)
    requires s.status == Playing && TickState(s, sample).status != Playing
    ensures ShowsPreview(TickState(s, sample).status)
    ensures TickFinalPos(s).Some?
  {
    TickOutcome(s, sample);
  }

  /** The preview's mapping of a point as written: its y is flipped about the
      canvas height, where every other drawing flips about 20 cells. */
  function PreviewPixelAsWritten(h: real, g: real, p: Vec): Vec
  {
    Vec(p.x * g, h - p.y * g)
  }

  /** As written, the preview is shifted down by h - 20 * gridSize, which is
      positive whenever the canvas is taller than two thirds of its width. */
  lemma PreviewOffsetAsWritten(w: real, h: real, p: Vec)
    ensures var g := GridSize(w, h);
            PreviewPixelAsWritten(h, g, p).x == ToPixel(g, p).x &&
            PreviewPixelAsWritten(h, g, p).y == ToPixel(g, p).y + (h - 20.0 * g)
    ensures w / 30.0 < h / 20.0 ==> h - 20.0 * GridSize(w, h) > 0.0
  {
  }

  /** On a 300 by 300 canvas the preview starts 100 pixels below the ball. */
  lemma PreviewMisplacedOnSquareCanvas()
    ensures GridSize(300.0, 300.0) == 10.0
    ensures ToPixel(10.0, Start) == Vec(0.0, 200.0)
    ensures PreviewPixelAsWritten(300.0, 10.0, Start) == Vec(0.0, 300.0)
  {
  }

  /** The preview: the path a ball launched now with power p and an angle
      with cosine c and sine s would take, integrated in PreviewSteps steps
      of length time / PreviewSteps and mapped with the same mapping as the
      ball. It starts at the start point and stops before the first point
      that leaves the world. */
  method PreviewPolyline(w: real, h: real, power: real, c: real, sn: real, time: real)
    returns (pix: seq<Vec>)
    ensures var g, m, d := GridSize(w, h), Motion(Start, LaunchVelocity(power, c, sn)), time / (PreviewSteps as real);
            1 <= |pix| <= PreviewSteps + 1 &&
            pix[0] == ToPixel(g, Start) &&
            (forall i :: 1 <= i < |pix| ==> InWorld(Fly(m, d, i).pos) && pix[i] == ToPixel(g, Fly(m, d, i).pos)) &&
            (|pix| <= PreviewSteps ==> !InWorld(Fly(m, d, |pix|).pos))
  {
    var g := GridSize(w, h);
    var d := time / (PreviewSteps as real);
    ghost var m := Motion(Start, LaunchVelocity(power, c, sn));
    var simPos := Start;
    var simVel := Vec(power * c, power * sn);
    assert Motion(simPos, simVel) == Fly(m, d, 0);
    pix := [ToPixel(g, simPos)];
    var i := 0;
    while i < PreviewSteps
      invariant 0 <= i <= PreviewSteps
      invariant |pix| == i + 1
      invariant pix[0] == ToPixel(g, Start)
      invariant Motion(simPos, simVel) == Fly(m, d, i)
      invariant forall j :: 1 <= j < |pix| ==> InWorld(Fly(m, d, j).pos) && pix[j] == ToPixel(g, Fly(m, d, j).pos)
    {
      FlyUnfold(m, d, i);
      var next := Step(Motion(simPos, simVel), d);
      simPos, simVel := next.pos, next.vel;
      if simPos.x < 0.0 || simPos.x > 30.0 || simPos.y < 0.0 || simPos.y > 20.0 {
        break;
      }
      pix := pix + [ToPixel(g, simPos)];
      i := i + 1;
    }
  }
}
