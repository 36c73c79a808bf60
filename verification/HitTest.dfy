/**
 What is under the pointer (`contents_under`) against what is painted (`render`), on one output. A
 surface or window is what a point hits on it, as a function of the point; the layout of the
 workspaces on the output says where each of them is tested and where it is drawn.
 */
module HitTest {
  import opened Options

  datatype Point = Point(x: real, y: real)

  type Surface<T> = Point -> Option<T>

  /** A layer-shell surface: its popups and the surface itself, where they are on an output that
      shows a single workspace. Surfaces placed within the backdrop are painted at the very bottom
      and take no input. */
  datatype LayerSurface<T> =
    LayerSurface(popup: Surface<T>, toplevel: Surface<T>, inBackdrop: bool)

  /** The size of the output, the zoom of the overview, the top left corners of the visible
      workspaces, and whether a workspace switch or the overview is in progress. */
  datatype View = View(width: real, height: real, zoom: real, origins: seq<Point>, moving: bool)

  /** Zoomed workspaces are centred and one below the other. At rest there is one, not zoomed. */
  ghost predicate ValidView(v: View) {
    && v.width > 0.0 && v.height > 0.0 && v.zoom > 0.0
    && (forall i | 0 <= i < |v.origins| :: v.origins[i].x == (v.width - v.width * v.zoom) / 2.0)
    && (forall i, j | 0 <= i < j < |v.origins| ::
          v.origins[i].y + v.height * v.zoom <= v.origins[j].y)
    && (!v.moving ==> v.zoom == 1.0 && v.origins == [Point(0.0, 0.0)])
  }

  /** All lists are from front to back. */
  datatype Scene<T> = Scene(
    overlay: seq<LayerSurface<T>>,
    top: seq<LayerSurface<T>>,
    bottom: seq<LayerSurface<T>>,
    background: seq<LayerSurface<T>>,
    movedWindow: Surface<T>,
    // The windows of each visible workspace, in coordinates of the workspace.
    workspaces: seq<seq<Surface<T>>>,
    view: View,
    renderAboveTopLayer: bool,
    overviewOpen: bool)

  /** The layout is rendered above the top layer only at rest. */
  ghost predicate Valid<T>(s: Scene<T>) {
    && ValidView(s.view) && |s.workspaces| == |s.view.origins|
    && (s.renderAboveTopLayer ==> !s.view.moving)
    && (s.overviewOpen ==> s.view.moving)
  }

  function OrElse<T>(first: Option<T>, second: Option<T>): Option<T> {
    if first.Some? then first else second
  }

  // ----- Geometry -----

  function Minus(p: Point, q: Point): Point {
    Point(p.x - q.x, p.y - q.y)
  }

  function Downscale(p: Point, zoom: real): Point
    requires zoom > 0.0
  {
    Point(p.x / zoom, p.y / zoom)
  }

  /** The point as the `i`-th workspace sees it. */
  function Local(v: View, i: nat, p: Point): Point
    requires v.zoom > 0.0 && i < |v.origins|
  {
    Downscale(Minus(p, v.origins[i]), v.zoom)
  }

  predicate BesideWorkspace(v: View, i: nat, p: Point)
    requires i < |v.origins|
  {
    v.origins[i].y <= p.y < v.origins[i].y + v.height * v.zoom
  }

  /** Input: the row of a workspace extends over the whole width of the output. */
  predicate InRow(v: View, i: nat, p: Point)
    requires i < |v.origins|
  {
    0.0 <= p.x < v.width && BesideWorkspace(v, i, p)
  }

  /** Output: lower layers are cropped to the workspace itself. */
  predicate InBox(v: View, i: nat, p: Point)
    requires i < |v.origins|
  {
    v.origins[i].x <= p.x < v.origins[i].x + v.width * v.zoom && BesideWorkspace(v, i, p)
  }

  /** Output: windows are cropped at the top and bottom, and only while something is in progress. */
  predicate WindowsDrawn(v: View, i: nat, p: Point)
    requires i < |v.origins|
  {
    v.moving ==> BesideWorkspace(v, i, p)
  }

  /** `workspace_under`, from the `i`-th workspace on. */
  function UnderFrom(v: View, p: Point, i: nat): (r: Option<nat>)
    requires i <= |v.origins|
    ensures r.Some? ==> i <= r.value < |v.origins| && InRow(v, r.value, p)
    ensures r.None? ==> forall j | i <= j < |v.origins| :: !InRow(v, j, p)
    decreases |v.origins| - i
  {
    if i == |v.origins| then None
    else if InRow(v, i, p) then Some(i)
    else UnderFrom(v, p, i + 1)
  }

  function Under(v: View, p: Point): (r: Option<nat>)
    ensures r.Some? ==> r.value < |v.origins| && InRow(v, r.value, p)
    ensures r.None? ==> forall j | 0 <= j < |v.origins| :: !InRow(v, j, p)
  {
    UnderFrom(v, p, 0)
  }

  // ----- Input: contents_under -----

  function PopupUnder<T>(layer: seq<LayerSurface<T>>, p: Point): Option<T> {
    if layer == [] then None
    else if layer[0].inBackdrop || layer[0].popup(p).None? then PopupUnder(layer[1..], p)
    else layer[0].popup(p)
  }

  function ToplevelUnder<T>(layer: seq<LayerSurface<T>>, p: Point): Option<T> {
    if layer == [] then None
    else if layer[0].inBackdrop || layer[0].toplevel(p).None? then ToplevelUnder(layer[1..], p)
    else layer[0].toplevel(p)
  }

  /** Popups of a lower layer, which moves with the workspaces; the zoom is not taken into account. */
  function LowerPopupUnder<T>(v: View, layer: seq<LayerSurface<T>>, p: Point): Option<T> {
    match Under(v, p)
    case None => None
    case Some(i) => PopupUnder(layer, Minus(p, v.origins[i]))
  }

  function LowerToplevelUnder<T>(v: View, layer: seq<LayerSurface<T>>, p: Point): Option<T> {
    match Under(v, p)
    case None => None
    case Some(i) => ToplevelUnder(layer, Minus(p, v.origins[i]))
  }

  function WindowUnder<T>(s: Scene<T>, p: Point): Option<T>
    requires |s.workspaces| == |s.view.origins| && s.view.zoom > 0.0
  {
    match Under(s.view, p)
    case None => None
    case Some(i) => FirstHit(WindowsAt(s.workspaces[i], Local(s.view, i, p)))
  }

  /** `None` also stands for a pointer in a hot corner. */
  function ContentsUnder<T>(s: Scene<T>, p: Point, hotCorner: bool): Option<T>
    requires |s.workspaces| == |s.view.origins| && s.view.zoom > 0.0
  {
    var v := s.view;
    var under := OrElse(PopupUnder(s.overlay, p), ToplevelUnder(s.overlay, p));
    if s.renderAboveTopLayer then
      var under := OrElse(under, s.movedWindow(p));
      var under := OrElse(under, WindowUnder(s, p));
      var under := OrElse(under, PopupUnder(s.top, p));
      var under := OrElse(under, ToplevelUnder(s.top, p));
      var under := OrElse(under, LowerPopupUnder(v, s.bottom, p));
      var under := OrElse(under, LowerPopupUnder(v, s.background, p));
      var under := OrElse(under, LowerToplevelUnder(v, s.bottom, p));
      OrElse(under, LowerToplevelUnder(v, s.background, p))
    else if hotCorner then None
    else
      var under := OrElse(under, PopupUnder(s.top, p));
      var under := OrElse(under, ToplevelUnder(s.top, p));
      var under := OrElse(under, s.movedWindow(p));
      var under :=
        if s.overviewOpen then under
        else
          var under := OrElse(under, LowerPopupUnder(v, s.bottom, p));
          OrElse(under, LowerPopupUnder(v, s.background, p));
      var under := OrElse(under, WindowUnder(s, p));
      if s.overviewOpen then under
      else
        var under := OrElse(under, LowerToplevelUnder(v, s.bottom, p));
        OrElse(under, LowerToplevelUnder(v, s.background, p))
  }

  // ----- Output: render -----

  /** The first thing in a paint order that the point hits. */
  function FirstHit<T>(order: seq<Option<T>>): Option<T> {
    if order == [] then None else OrElse(order[0], FirstHit(order[1..]))
  }

  function WindowsAt<T>(windows: seq<Surface<T>>, p: Point): seq<Option<T>> {
    seq(|windows|, i requires 0 <= i < |windows| => windows[i](p))
  }

  function PaintPopups<T>(layer: seq<LayerSurface<T>>, p: Point): seq<Option<T>> {
    if layer == [] then []
    else (if layer[0].inBackdrop then [] else [layer[0].popup(p)]) + PaintPopups(layer[1..], p)
  }

  function PaintToplevels<T>(layer: seq<LayerSurface<T>>, p: Point): seq<Option<T>> {
    if layer == [] then []
    else
      (if layer[0].inBackdrop then [] else [layer[0].toplevel(p)]) + PaintToplevels(layer[1..], p)
  }

  /** Split elements: the popups of all surfaces before the surfaces. */
  function PaintLayer<T>(layer: seq<LayerSurface<T>>, p: Point): seq<Option<T>> {
    PaintPopups(layer, p) + PaintToplevels(layer, p)
  }

  function Nothing<T>(n: nat): seq<Option<T>> {
    seq(n, _ => None)
  }

  /** Cropped elements are not there outside of the crop. */
  function CropTo<T>(inside: bool, order: seq<Option<T>>): seq<Option<T>> {
    if inside then order else Nothing(|order|)
  }

  function LowerPopups<T>(s: Scene<T>, p: Point): seq<Option<T>> {
    PaintPopups(s.bottom, p) + PaintPopups(s.background, p)
  }

  function LowerToplevels<T>(s: Scene<T>, p: Point): seq<Option<T>> {
    PaintToplevels(s.bottom, p) + PaintToplevels(s.background, p)
  }

  function PaintWindows<T>(s: Scene<T>, p: Point, i: nat): seq<Option<T>>
    requires |s.workspaces| == |s.view.origins| && s.view.zoom > 0.0 && i < |s.workspaces|
  {
    CropTo(WindowsDrawn(s.view, i, p), WindowsAt(s.workspaces[i], Local(s.view, i, p)))
  }

  /** A workspace: the lower layers, zoomed and cropped, around its windows; its background below. */
  function PaintWorkspace<T>(s: Scene<T>, p: Point, i: nat): seq<Option<T>>
    requires |s.workspaces| == |s.view.origins| && s.view.zoom > 0.0 && i < |s.workspaces|
  {
    CropTo(InBox(s.view, i, p), LowerPopups(s, Local(s.view, i, p)))
    + PaintWindows(s, p, i)
    + CropTo(InBox(s.view, i, p), LowerToplevels(s, Local(s.view, i, p)))
    + [None]
  }

  /** The workspaces from the `i`-th on, with or without the lower layers. */
  function PaintWorkspaces<T>(s: Scene<T>, p: Point, i: nat): seq<Option<T>>
    requires |s.workspaces| == |s.view.origins| && s.view.zoom > 0.0 && i <= |s.workspaces|
    decreases |s.workspaces| - i
  {
    if i == |s.workspaces| then []
    else
      (if s.renderAboveTopLayer then PaintWindows(s, p, i) else PaintWorkspace(s, p, i))
      + PaintWorkspaces(s, p, i + 1)
  }

  /** Insert hint, workspace shadows and backdrop are painted but never hit. */
  function PaintOrder<T>(s: Scene<T>, p: Point): seq<Option<T>>
    requires |s.workspaces| == |s.view.origins| && s.view.zoom > 0.0
  {
    if s.renderAboveTopLayer then
      PaintLayer(s.overlay, p) + [s.movedWindow(p)] + [None] + PaintWorkspaces(s, p, 0)
      + PaintLayer(s.top, p) + (LowerPopups(s, p) + LowerToplevels(s, p))
      + Nothing(3)
    else
      PaintLayer(s.overlay, p) + PaintLayer(s.top, p) + [s.movedWindow(p)] + [None]
      + PaintWorkspaces(s, p, 0)
      + Nothing(2)
  }

  // ----- First hits -----

  lemma {:induction false} FirstHitConcat<T>(a: seq<Option<T>>, b: seq<Option<T>>)
    ensures FirstHit(a + b) == OrElse(FirstHit(a), FirstHit(b))
  {
    if a == [] {
      assert a + b == b;
    } else {
      assert (a + b)[1..] == a[1..] + b;
      FirstHitConcat(a[1..], b);
    }
  }

  lemma {:induction false} NothingMisses<T>(n: nat)
    ensures FirstHit<T>(Nothing(n)) == None
  {
    if n > 0 {
      assert Nothing<T>(n)[1..] == Nothing(n - 1);
      NothingMisses<T>(n - 1);
    }
  }

  lemma SingleHit<T>(hit: Option<T>)
    ensures FirstHit([hit]) == hit
  {}

  lemma CropHit<T>(inside: bool, order: seq<Option<T>>)
    ensures FirstHit(CropTo(inside, order)) == if inside then FirstHit(order) else None
  {
    NothingMisses<T>(|order|);
  }

  lemma {:induction false} LayerAgrees<T>(layer: seq<LayerSurface<T>>, p: Point)
    ensures FirstHit(PaintPopups(layer, p)) == PopupUnder(layer, p)
    ensures FirstHit(PaintToplevels(layer, p)) == ToplevelUnder(layer, p)
  {
    if layer != [] {
      LayerAgrees(layer[1..], p);
      var a := if layer[0].inBackdrop then [] else [layer[0].popup(p)];
      var b := if layer[0].inBackdrop then [] else [layer[0].toplevel(p)];
      FirstHitConcat(a, PaintPopups(layer[1..], p));
      FirstHitConcat(b, PaintToplevels(layer[1..], p));
      SingleHit(layer[0].popup(p));
      SingleHit(layer[0].toplevel(p));
    }
  }

  /** `order[i]` is hit and nothing in front of it is. */
  ghost predicate FirstAt<T>(order: seq<Option<T>>, t: T, i: nat)
    requires i < |order|
  {
    order[i] == Some(t) && forall j | 0 <= j < i :: order[j].None?
  }

  lemma {:induction false} FirstHitIs<T>(order: seq<Option<T>>, t: T)
    ensures FirstHit(order) == Some(t) <==> exists i | 0 <= i < |order| :: FirstAt(order, t, i)
  {
    if order != [] {
      var rest := order[1..];
      FirstHitIs(rest, t);
      forall i | 0 <= i < |rest|
        ensures FirstAt(order, t, i + 1) <==> order[0].None? && FirstAt(rest, t, i)
      {
        assert order[i + 1] == rest[i];
        assert forall j | 0 <= j < i :: order[j + 1] == rest[j];
        assert forall j | 0 < j < i + 1 :: order[j] == rest[j - 1];
      }
      if FirstHit(rest) == Some(t) {
        var i :| 0 <= i < |rest| && FirstAt(rest, t, i);
        assert order[0].None? ==> FirstAt(order, t, i + 1);
      }
      if i :| 0 <= i < |order| && FirstAt(order, t, i) {
        if i > 0 {
          assert FirstAt(order, t, (i - 1) + 1);
          assert FirstAt(rest, t, i - 1);
        }
      }
      assert FirstAt(order, t, 0) <==> order[0] == Some(t);
    }
  }

  /** What the point hits on each surface of a layer; nothing on those in the backdrop. */
  function PopupHits<T>(layer: seq<LayerSurface<T>>, p: Point): (r: seq<Option<T>>)
    ensures |r| == |layer|
    ensures forall i | 0 <= i < |layer| ::
              r[i] == if layer[i].inBackdrop then None else layer[i].popup(p)
  {
    seq(|layer|, i requires 0 <= i < |layer| =>
      if layer[i].inBackdrop then None else layer[i].popup(p))
  }

  function ToplevelHits<T>(layer: seq<LayerSurface<T>>, p: Point): (r: seq<Option<T>>)
    ensures |r| == |layer|
    ensures forall i | 0 <= i < |layer| ::
              r[i] == if layer[i].inBackdrop then None else layer[i].toplevel(p)
  {
    seq(|layer|, i requires 0 <= i < |layer| =>
      if layer[i].inBackdrop then None else layer[i].toplevel(p))
  }

  /** Of a layer the foremost surface that is hit counts; those in the backdrop never are. */
  lemma {:induction false} FirstSurfaceHit<T>(layer: seq<LayerSurface<T>>, p: Point)
    ensures PopupUnder(layer, p) == FirstHit(PopupHits(layer, p))
    ensures ToplevelUnder(layer, p) == FirstHit(ToplevelHits(layer, p))
  {
    if layer != [] {
      FirstSurfaceHit(layer[1..], p);
      assert PopupHits(layer, p)[1..] == PopupHits(layer[1..], p);
      assert ToplevelHits(layer, p)[1..] == ToplevelHits(layer[1..], p);
    }
  }

  lemma WholeLayerAgrees<T>(layer: seq<LayerSurface<T>>, p: Point)
    ensures FirstHit(PaintLayer(layer, p)) == OrElse(PopupUnder(layer, p), ToplevelUnder(layer, p))
  {
    LayerAgrees(layer, p);
    FirstHitConcat(PaintPopups(layer, p), PaintToplevels(layer, p));
  }

  lemma LowerLayersAgree<T>(s: Scene<T>, p: Point)
    ensures FirstHit(LowerPopups(s, p)) == OrElse(PopupUnder(s.bottom, p), PopupUnder(s.background, p))
    ensures FirstHit(LowerToplevels(s, p)) ==
            OrElse(ToplevelUnder(s.bottom, p), ToplevelUnder(s.background, p))
  {
    LayerAgrees(s.bottom, p);
    LayerAgrees(s.background, p);
    FirstHitConcat(PaintPopups(s.bottom, p), PaintPopups(s.background, p));
    FirstHitConcat(PaintToplevels(s.bottom, p), PaintToplevels(s.background, p));
  }

  // ----- The workspaces, as tested and as drawn -----

  /** The workspace whose windows can be drawn at the point. */
  function DrawnFrom(v: View, p: Point, i: nat): (r: Option<nat>)
    requires i <= |v.origins|
    ensures r.Some? ==> i <= r.value < |v.origins| && WindowsDrawn(v, r.value, p)
    ensures r.None? ==> forall j | i <= j < |v.origins| :: !WindowsDrawn(v, j, p)
    decreases |v.origins| - i
  {
    if i == |v.origins| then None
    else if WindowsDrawn(v, i, p) then Some(i)
    else DrawnFrom(v, p, i + 1)
  }

  /** There is at most one. */
  lemma DrawnOnce(v: View, p: Point, i: nat, j: nat)
    requires ValidView(v) && i < j < |v.origins| && WindowsDrawn(v, i, p)
    ensures !WindowsDrawn(v, j, p) && !InBox(v, j, p)
  {}

  lemma NothingLater(v: View, p: Point, i: nat)
    requires ValidView(v) && i < |v.origins| && WindowsDrawn(v, i, p)
    ensures DrawnFrom(v, p, i + 1).None?
  {
    forall j | i < j < |v.origins| ensures !WindowsDrawn(v, j, p) {
      DrawnOnce(v, p, i, j);
    }
  }

  lemma UnderIsDrawn(v: View, p: Point, i: nat)
    requires ValidView(v) && i < |v.origins| && InRow(v, i, p)
    ensures DrawnFrom(v, p, 0) == Some(i) && Under(v, p) == Some(i)
  {
    assert WindowsDrawn(v, i, p);
    var j := DrawnFrom(v, p, 0).value;
    if j < i {
      DrawnOnce(v, p, j, i);
    } else if i < j {
      DrawnOnce(v, p, i, j);
    }
    var k := Under(v, p).value;
    if k < i {
      DrawnOnce(v, p, k, i);
    } else if i < k {
      DrawnOnce(v, p, i, k);
    }
  }

  /** What is painted of a workspace at the point. */
  function WorkspaceHit<T>(s: Scene<T>, p: Point, i: nat): Option<T>
    requires |s.workspaces| == |s.view.origins| && s.view.zoom > 0.0 && i < |s.workspaces|
  {
    if s.renderAboveTopLayer then FirstHit(PaintWindows(s, p, i))
    else FirstHit(PaintWorkspace(s, p, i))
  }

  lemma PaintWorkspaceHit<T>(s: Scene<T>, p: Point, i: nat)
    requires |s.workspaces| == |s.view.origins| && s.view.zoom > 0.0 && i < |s.workspaces|
    ensures
      var box, q := InBox(s.view, i, p), Local(s.view, i, p);
      FirstHit(PaintWorkspace(s, p, i)) ==
        OrElse(if box then FirstHit(LowerPopups(s, q)) else None,
        OrElse(FirstHit(PaintWindows(s, p, i)),
               if box then FirstHit(LowerToplevels(s, q)) else None))
  {
    var box, q := InBox(s.view, i, p), Local(s.view, i, p);
    var a, b, c := CropTo(box, LowerPopups(s, q)), PaintWindows(s, p, i),
                   CropTo(box, LowerToplevels(s, q));
    FirstHitConcat(a + b + c, [None]);
    FirstHitConcat(a + b, c);
    FirstHitConcat(a, b);
    CropHit(box, LowerPopups(s, q));
    CropHit(box, LowerToplevels(s, q));
    SingleHit<T>(None);
  }

  /** A workspace whose windows are not drawn at the point is not drawn there at all. */
  lemma NotDrawn<T>(s: Scene<T>, p: Point, i: nat)
    requires Valid(s) && i < |s.workspaces| && !WindowsDrawn(s.view, i, p)
    ensures WorkspaceHit(s, p, i) == None
  {
    PaintWorkspaceHit(s, p, i);
    CropHit(WindowsDrawn(s.view, i, p), WindowsAt(s.workspaces[i], Local(s.view, i, p)));
  }

  lemma NextWorkspace<T>(s: Scene<T>, p: Point, i: nat)
    requires |s.workspaces| == |s.view.origins| && s.view.zoom > 0.0 && i < |s.workspaces|
    ensures FirstHit(PaintWorkspaces(s, p, i)) ==
            OrElse(WorkspaceHit(s, p, i), FirstHit(PaintWorkspaces(s, p, i + 1)))
  {
    FirstHitConcat(if s.renderAboveTopLayer then PaintWindows(s, p, i) else PaintWorkspace(s, p, i),
                   PaintWorkspaces(s, p, i + 1));
  }

  /** What is painted at the point of the workspaces from the `i`-th on. */
  function DrawnHit<T>(s: Scene<T>, p: Point, i: nat): Option<T>
    requires |s.workspaces| == |s.view.origins| && s.view.zoom > 0.0 && i <= |s.workspaces|
  {
    match DrawnFrom(s.view, p, i)
    case None => None
    case Some(j) => WorkspaceHit(s, p, j)
  }

  lemma DrawnHitNext<T>(s: Scene<T>, p: Point, i: nat)
    requires Valid(s) && i < |s.workspaces|
    ensures DrawnHit(s, p, i) == OrElse(WorkspaceHit(s, p, i), DrawnHit(s, p, i + 1))
  {
    if WindowsDrawn(s.view, i, p) {
      NothingLater(s.view, p, i);
    } else {
      NotDrawn(s, p, i);
    }
  }

  function Hits<T>(s: Scene<T>, p: Point): (r: seq<Option<T>>)
    requires |s.workspaces| == |s.view.origins| && s.view.zoom > 0.0
    ensures |r| == |s.workspaces|
    ensures forall j | 0 <= j < |r| :: r[j] == WorkspaceHit(s, p, j)
  {
    seq(|s.workspaces|, j requires 0 <= j < |s.workspaces| => WorkspaceHit(s, p, j))
  }

  function PaintedFirsts<T>(s: Scene<T>, p: Point): (r: seq<Option<T>>)
    requires |s.workspaces| == |s.view.origins| && s.view.zoom > 0.0
    ensures |r| == |s.workspaces| + 1
    ensures forall j | 0 <= j < |r| :: r[j] == FirstHit(PaintWorkspaces(s, p, j))
  {
    seq(|s.workspaces| + 1, j requires 0 <= j <= |s.workspaces| =>
      FirstHit(PaintWorkspaces(s, p, j)))
  }

  function DrawnFirsts<T>(s: Scene<T>, p: Point): (r: seq<Option<T>>)
    requires |s.workspaces| == |s.view.origins| && s.view.zoom > 0.0
    ensures |r| == |s.workspaces| + 1
    ensures forall j | 0 <= j < |r| :: r[j] == DrawnHit(s, p, j)
  {
    seq(|s.workspaces| + 1, j requires 0 <= j <= |s.workspaces| => DrawnHit(s, p, j))
  }

  lemma BothChained<T>(s: Scene<T>, p: Point, j: nat)
    requires Valid(s) && j < |s.workspaces|
    ensures Chained(PaintedFirsts(s, p), Hits(s, p), j) && Chained(DrawnFirsts(s, p), Hits(s, p), j)
  {
    NextWorkspace(s, p, j);
    DrawnHitNext(s, p, j);
  }

  /** All workspaces together are hit where the one workspace that can be drawn there is. */
  lemma WorkspacesAgree<T>(s: Scene<T>, p: Point)
    requires Valid(s)
    ensures FirstHit(PaintWorkspaces(s, p, 0)) == DrawnHit(s, p, 0)
  {
    forall j | 0 <= j < |s.workspaces|
      ensures Chained(PaintedFirsts(s, p), Hits(s, p), j) && Chained(DrawnFirsts(s, p), Hits(s, p), j)
    {
      BothChained(s, p, j);
    }
    NoneAtTheEnd(s, p);
    ChainsAgree(PaintedFirsts(s, p), DrawnFirsts(s, p), Hits(s, p), 0);
  }

  lemma NoneAtTheEnd<T>(s: Scene<T>, p: Point)
    requires |s.workspaces| == |s.view.origins| && s.view.zoom > 0.0
    ensures PaintedFirsts(s, p)[|s.workspaces|] == None == DrawnFirsts(s, p)[|s.workspaces|]
  {}

  /** From `j` on, the first hit is the `j`-th or the first one after it. */
  ghost predicate Chained<T>(firsts: seq<Option<T>>, hits: seq<Option<T>>, j: nat)
    requires j < |hits| && |firsts| == |hits| + 1
  {
    firsts[j] == OrElse(hits[j], firsts[j + 1])
  }

  lemma {:induction false} ChainsAgree<T>(a: seq<Option<T>>, b: seq<Option<T>>, hits: seq<Option<T>>,
                                          i: nat)
    requires i <= |hits| && |a| == |b| == |hits| + 1 && a[|hits|] == b[|hits|]
    requires forall j | 0 <= j < |hits| :: Chained(a, hits, j) && Chained(b, hits, j)
    ensures a[i] == b[i]
    decreases |hits| - i
  {
    if i < |hits| {
      assert Chained(a, hits, i) && Chained(b, hits, i);
      ChainsAgree(a, b, hits, i + 1);
    }
  }

  /** What of the workspaces is tested: windows, and around them the lower layers. */
  function TestedWorkspaceHit<T>(s: Scene<T>, p: Point): Option<T>
    requires |s.workspaces| == |s.view.origins| && s.view.zoom > 0.0
  {
    var v := s.view;
    if s.renderAboveTopLayer || s.overviewOpen then WindowUnder(s, p)
    else
      OrElse(OrElse(LowerPopupUnder(v, s.bottom, p), LowerPopupUnder(v, s.background, p)),
      OrElse(WindowUnder(s, p),
             OrElse(LowerToplevelUnder(v, s.bottom, p), LowerToplevelUnder(v, s.background, p))))
  }

  /** The scene as input sees it: an open overview takes the lower layers out. */
  function InputScene<T>(s: Scene<T>): Scene<T> {
    if s.overviewOpen then s.(bottom := [], background := []) else s
  }

  // ----- Whole scenes -----

  /** What both sides agree on when the layout is below the top layer, in front of the workspaces. */
  function FrontHit<T>(s: Scene<T>, p: Point): Option<T> {
    OrElse(OrElse(PopupUnder(s.overlay, p), ToplevelUnder(s.overlay, p)),
    OrElse(OrElse(PopupUnder(s.top, p), ToplevelUnder(s.top, p)), s.movedWindow(p)))
  }

  lemma BelowTopPaints<T>(s: Scene<T>, p: Point)
    requires Valid(s) && !s.renderAboveTopLayer
    ensures FirstHit(PaintOrder(s, p)) == OrElse(FrontHit(s, p), DrawnHit(s, p, 0))
  {
    var a, b, c := PaintLayer(s.overlay, p), PaintLayer(s.top, p), PaintWorkspaces(s, p, 0);
    FirstHitConcat(a + b + [s.movedWindow(p)] + [None] + c, Nothing(2));
    FirstHitConcat(a + b + [s.movedWindow(p)] + [None], c);
    FirstHitConcat(a + b + [s.movedWindow(p)], [None]);
    FirstHitConcat(a + b, [s.movedWindow(p)]);
    FirstHitConcat(a, b);
    WholeLayerAgrees(s.overlay, p);
    WholeLayerAgrees(s.top, p);
    WorkspacesAgree(s, p);
    SingleHit(s.movedWindow(p));
    SingleHit<T>(None);
    NothingMisses<T>(2);
  }

  lemma BelowTopTests<T>(s: Scene<T>, p: Point)
    requires Valid(s) && !s.renderAboveTopLayer
    ensures ContentsUnder(s, p, false) == OrElse(FrontHit(s, p), TestedWorkspaceHit(s, p))
  {}

  /** For one scene, the layout being below the top layer: input follows the painting if and only if
      something in front is hit or the workspaces are drawn at the point as they are tested. */
  lemma BelowTopExactly<T>(s: Scene<T>, p: Point)
    requires Valid(s) && !s.renderAboveTopLayer
    ensures ContentsUnder(s, p, false) == FirstHit(PaintOrder(InputScene(s), p)) <==>
            || FrontHit(s, p).Some?
            || TestedWorkspaceHit(s, p) == DrawnHit(InputScene(s), p, 0)
  {
    BelowTopPaints(InputScene(s), p);
    BelowTopTests(s, p);
  }

  /** What is in front of the windows, and of the lower layers, when the layout is above the top. */
  function ForemostHit<T>(s: Scene<T>, p: Point): Option<T> {
    OrElse(OrElse(PopupUnder(s.overlay, p), ToplevelUnder(s.overlay, p)), s.movedWindow(p))
  }

  function LowerHit<T>(s: Scene<T>, p: Point): Option<T> {
    OrElse(OrElse(PopupUnder(s.bottom, p), PopupUnder(s.background, p)),
           OrElse(ToplevelUnder(s.bottom, p), ToplevelUnder(s.background, p)))
  }

  lemma AboveTopPaints<T>(s: Scene<T>, p: Point)
    requires Valid(s) && s.renderAboveTopLayer
    ensures FirstHit(PaintOrder(s, p)) ==
            OrElse(ForemostHit(s, p),
            OrElse(DrawnHit(s, p, 0),
            OrElse(OrElse(PopupUnder(s.top, p), ToplevelUnder(s.top, p)), LowerHit(s, p))))
  {
    var a, b, t := PaintLayer(s.overlay, p), PaintWorkspaces(s, p, 0), PaintLayer(s.top, p);
    var lower := LowerPopups(s, p) + LowerToplevels(s, p);
    FirstHitConcat(a + [s.movedWindow(p)] + [None] + b + t + lower, Nothing(3));
    FirstHitConcat(a + [s.movedWindow(p)] + [None] + b + t, lower);
    FirstHitConcat(LowerPopups(s, p), LowerToplevels(s, p));
    FirstHitConcat(a + [s.movedWindow(p)] + [None] + b, t);
    FirstHitConcat(a + [s.movedWindow(p)] + [None], b);
    FirstHitConcat(a + [s.movedWindow(p)], [None]);
    FirstHitConcat(a, [s.movedWindow(p)]);
    WholeLayerAgrees(s.overlay, p);
    WholeLayerAgrees(s.top, p);
    LowerLayersAgree(s, p);
    WorkspacesAgree(s, p);
    SingleHit(s.movedWindow(p));
    SingleHit<T>(None);
    NothingMisses<T>(3);
  }

  /** For one scene, the layout being above the top layer: input follows the painting if and only if
      the point is in the workspace, or something in front of it is hit, or neither a window nor a
      lower layer is painted there that makes a difference. */
  lemma AboveTopExactly<T>(s: Scene<T>, p: Point)
    requires Valid(s) && s.renderAboveTopLayer
    ensures
      var top := OrElse(PopupUnder(s.top, p), ToplevelUnder(s.top, p));
      ContentsUnder(s, p, false) == FirstHit(PaintOrder(s, p)) <==>
        || Under(s.view, p).Some? || ForemostHit(s, p).Some?
        || top == OrElse(DrawnHit(s, p, 0), OrElse(top, LowerHit(s, p)))
  {
    AboveTopPaints(s, p);
    if Under(s.view, p).Some? {
      AtRest(s, p);
    }
  }

  /** In a workspace at rest, lower layers and windows are tested where they are drawn. */
  lemma AtRest<T>(s: Scene<T>, p: Point)
    requires Valid(s) && !s.view.moving && Under(s.view, p).Some?
    ensures Minus(p, s.view.origins[0]) == p == Local(s.view, 0, p)
    ensures s.renderAboveTopLayer ==> DrawnHit(s, p, 0) == WindowUnder(s, p)
  {
    UnderIsDrawn(s.view, p, 0);
    CropHit(true, WindowsAt(s.workspaces[0], Local(s.view, 0, p)));
  }

  // ----- When input follows the painting -----

  /** In a workspace: the lower layers take no input, or the workspace is not zoomed, or the point is
      its corner. Elsewhere: no workspace can draw windows there. */
  predicate TestedWhereDrawn(v: View, p: Point, overviewOpen: bool) {
    match Under(v, p)
    case Some(i) => overviewOpen || v.zoom == 1.0 || p == v.origins[i]
    case None => forall j | 0 <= j < |v.origins| :: !WindowsDrawn(v, j, p)
  }

  ghost predicate Follows<T>(s: Scene<T>, p: Point)
    requires Valid(s)
  {
    ContentsUnder(s, p, false) == FirstHit(PaintOrder(InputScene(s), p))
  }

  /** Where the zoom does not matter, the point is in the box and sees every surface in its place. */
  lemma UnzoomedInBox(v: View, p: Point, i: nat)
    requires ValidView(v) && i < |v.origins| && InRow(v, i, p)
    requires v.zoom == 1.0 || p == v.origins[i]
    ensures InBox(v, i, p) && Local(v, i, p) == Minus(p, v.origins[i])
  {
    if p == v.origins[i] {
      assert v.width * v.zoom > 0.0;
    }
  }

  lemma UnzoomedAgrees<T>(s: Scene<T>, p: Point, i: nat)
    requires Valid(s) && !s.renderAboveTopLayer && !s.overviewOpen && i < |s.workspaces|
    requires Under(s.view, p) == Some(i) && (s.view.zoom == 1.0 || p == s.view.origins[i])
    ensures TestedWorkspaceHit(s, p) == DrawnHit(s, p, 0)
  {
    UnderIsDrawn(s.view, p, i);
    UnzoomedInBox(s.view, p, i);
    PaintWorkspaceHit(s, p, i);
    CropHit(true, WindowsAt(s.workspaces[i], Local(s.view, i, p)));
    LowerLayersAgree(s, Local(s.view, i, p));
  }

  lemma OverviewAgrees<T>(s: Scene<T>, p: Point, i: nat)
    requires Valid(s) && s.overviewOpen && i < |s.workspaces| && Under(s.view, p) == Some(i)
    ensures TestedWorkspaceHit(s, p) == DrawnHit(InputScene(s), p, 0)
  {
    var s' := InputScene(s);
    UnderIsDrawn(s.view, p, i);
    PaintWorkspaceHit(s', p, i);
    CropHit(true, WindowsAt(s.workspaces[i], Local(s.view, i, p)));
    LowerLayersAgree(s', Local(s.view, i, p));
  }

  lemma FollowsWhenTestedWhereDrawn<T>(s: Scene<T>, p: Point)
    requires Valid(s) && TestedWhereDrawn(s.view, p, s.overviewOpen)
    ensures Follows(s, p)
  {
    if s.renderAboveTopLayer {
      AboveTopExactly(s, p);
      assert WindowsDrawn(s.view, 0, p);
    } else {
      BelowTopExactly(s, p);
      match Under(s.view, p)
      case None =>
      case Some(i) =>
        if s.overviewOpen {
          OverviewAgrees(s, p, i);
        } else {
          UnzoomedAgrees(s, p, i);
        }
    }
  }

  /** Nothing but the given lower surface, and the same windows on every workspace. */
  function Sparse<T>(v: View, above: bool, open: bool, bottom: seq<LayerSurface<T>>,
                     windows: seq<Surface<T>>): Scene<T>
  {
    Scene([], [], bottom, [], _ => None, seq(|v.origins|, _ => windows), v, above, open)
  }

  /** A surface of one point, right there: it takes input and is not drawn there. */
  lemma ZoomedMisses<T>(v: View, p: Point, i: nat, t: T) returns (s: Scene<T>)
    requires ValidView(v) && v.moving && i < |v.origins| && Under(v, p) == Some(i)
    requires v.zoom != 1.0 && p != v.origins[i]
    ensures s.view == v && !s.renderAboveTopLayer && !s.overviewOpen
    ensures Valid(s) && !Follows(s, p)
  {
    var q := Minus(p, v.origins[i]);
    var pixel := LayerSurface(_ => None, r => if r == q then Some(t) else None, false);
    s := Sparse(v, false, false, [pixel], []);
    NotTheSame(q, v.zoom);
    BelowTopExactly(s, p);
    UnderIsDrawn(v, p, i);
    PaintWorkspaceHit(s, p, i);
    LowerLayersAgree(s, Local(v, i, p));
    CropHit(true, WindowsAt(s.workspaces[i], Local(v, i, p)));
    assert s.bottom[1..] == [];
  }

  lemma NotTheSame(q: Point, zoom: real)
    requires zoom > 0.0 && zoom != 1.0 && q != Point(0.0, 0.0)
    ensures Downscale(q, zoom) != q
  {
    OnlyZeroStays(q.x, zoom);
    OnlyZeroStays(q.y, zoom);
  }

  lemma OnlyZeroStays(x: real, zoom: real)
    requires zoom > 0.0 && zoom != 1.0
    ensures x / zoom == x ==> x == 0.0
  {
    var y := x / zoom;
    assert y * zoom == x;
    var d := zoom - 1.0;
    assert y == x ==> x * d == 0.0;
    assert x == (x * d) / d;
  }

  /** A window over everything: it is drawn where no workspace takes input. */
  lemma OutsideMisses<T>(v: View, p: Point, above: bool, open: bool, t: T) returns (s: Scene<T>)
    requires ValidView(v) && (above ==> !v.moving) && (open ==> v.moving)
    requires Under(v, p).None? && DrawnFrom(v, p, 0).Some?
    ensures s.view == v && s.renderAboveTopLayer == above && s.overviewOpen == open
    ensures Valid(s) && !Follows(s, p)
  {
    var everywhere: Surface<T> := _ => Some(t);
    s := Sparse(v, above, open, [], [everywhere]);
    var i := DrawnFrom(v, p, 0).value;
    var windows := WindowsAt(s.workspaces[i], Local(v, i, p));
    assert windows == [Some(t)];
    SingleHit(Some(t));
    CropHit(true, windows);
    if above {
      AboveTopExactly(s, p);
    } else {
      BelowTopExactly(s, p);
      PaintWorkspaceHit(InputScene(s), p, i);
      LowerLayersAgree(InputScene(s), Local(v, i, p));
    }
  }

  /** Whatever surfaces and windows there are, input follows the painting at a point, hot corners
      aside: if and only if everything is tested where it is drawn. */
  lemma FollowsExactly<T>(v: View, p: Point, above: bool, open: bool, t: T)
    requires ValidView(v) && (above ==> !v.moving) && (open ==> v.moving)
    ensures (forall s: Scene<T> | && Valid(s) && s.view == v && s.renderAboveTopLayer == above
                                  && s.overviewOpen == open :: Follows(s, p))
            <==> TestedWhereDrawn(v, p, open)
  {
    if TestedWhereDrawn(v, p, open) {
      forall s: Scene<T> | && Valid(s) && s.view == v && s.renderAboveTopLayer == above
                           && s.overviewOpen == open
        ensures Follows(s, p)
      {
        FollowsWhenTestedWhereDrawn(s, p);
      }
    } else {
      var s;
      match Under(v, p) {
        case Some(i) => s := ZoomedMisses(v, p, i, t);
        case None => s := OutsideMisses(v, p, above, open, t);
      }
      assert !Follows(s, p);
    }
  }

  lemma VisiblePoints(v: View, p: Point)
    requires ValidView(v) && 0.0 <= p.x < v.width && 0.0 <= p.y < v.height
    ensures Under(v, p).None? ==> forall j | 0 <= j < |v.origins| :: !WindowsDrawn(v, j, p)
  {
    assert !v.moving ==> InRow(v, 0, p);
    assert forall j | 0 <= j < |v.origins| && v.moving :: WindowsDrawn(v, j, p) ==> InRow(v, j, p);
  }

  /** On the visible part of the output, with the overview open or not zoomed at all, the pointer's
      target is the topmost hit-testable thing in the order in which the output is painted; an open
      overview only removes the lower layers from it. A hot corner wins over everything unless the
      layout is rendered above the top layer. */
  lemma InputMatchesPainting<T>(s: Scene<T>, p: Point, hotCorner: bool)
    requires Valid(s) && 0.0 <= p.x < s.view.width && 0.0 <= p.y < s.view.height
    requires s.overviewOpen || s.view.zoom == 1.0
    ensures ContentsUnder(s, p, hotCorner) ==
            if hotCorner && !s.renderAboveTopLayer then None
            else FirstHit(PaintOrder(InputScene(s), p))
  {
    VisiblePoints(s.view, p);
    FollowsWhenTestedWhereDrawn(s, p);
  }

  /** A square surface at the top left. */
  function Square<T>(side: real, t: T): LayerSurface<T> {
    LayerSurface(_ => None,
                 (q: Point) => if 0.0 <= q.x < side && 0.0 <= q.y < side then Some(t) else None,
                 false)
  }

  /** For instance, while the overview closes, at half size: a square of 100 in the bottom layer is
      drawn with a side of 50 from (250, 250), but takes input up to (350, 350). */
  lemma ClosingOverviewMisses() returns (s: Scene<int>)
    ensures Valid(s) && !s.renderAboveTopLayer && !s.overviewOpen
    ensures s.view.zoom == 0.5 && s.bottom == [Square(100.0, 1)]
    ensures ContentsUnder(s, Point(320.0, 260.0), false) == Some(1)
    ensures FirstHit(PaintOrder(s, Point(320.0, 260.0))) == None
  {
    var p, v := Point(320.0, 260.0), View(1000.0, 1000.0, 0.5, [Point(250.0, 250.0)], true);
    s := Sparse(v, false, false, [Square(100.0, 1)], []);
    assert s.bottom[1..] == [];
    UnderIsDrawn(v, p, 0);
    BelowTopPaints(s, p);
    BelowTopTests(s, p);
    PaintWorkspaceHit(s, p, 0);
    LowerLayersAgree(s, Local(v, 0, p));
    CropHit(true, WindowsAt(s.workspaces[0], Local(v, 0, p)));
  }

  /** And in the strip by which the output's geometry is rounded up, past the workspace, a lower layer
      takes no input; it is in the paint order if the layout is above the top layer. */
  lemma StripMissesLayer() returns (s: Scene<int>)
    ensures Valid(s) && s.renderAboveTopLayer && !s.overviewOpen
    ensures s.view.width == 99.5 && s.bottom == [Square(100.0, 1)]
    ensures ContentsUnder(s, Point(99.75, 0.0), false) == None
    ensures FirstHit(PaintOrder(s, Point(99.75, 0.0))) == Some(1)
  {
    var p, v := Point(99.75, 0.0), View(99.5, 99.5, 1.0, [Point(0.0, 0.0)], false);
    s := Sparse(v, true, false, [Square(100.0, 1)], []);
    assert s.bottom[1..] == [];
    AboveTopPaints(s, p);
    CropHit(true, WindowsAt(s.workspaces[0], Local(v, 0, p)));
  }
}
