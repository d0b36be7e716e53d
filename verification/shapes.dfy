/** The floor-plan shape layer: the per-kind coordinate payloads, the type
    guards each renderer applies, what each renderer draws, and how an
    end-of-drag or end-of-resize gesture becomes the single coordinate payload
    handed to `onTransform`.

    A Konva node is modelled by its local transform (`Node`); the gesture
    handlers read it, build the payload and then reset it, and the result of a
    handler is the pair of the two (`Commit`). */
module Shapes {
  import opened Optional

  datatype Point = Point(x: real, y: real)

  /** The `type` discriminant of a shape. Kinds drawn by components that are
      not part of this model (walls, rooms, library symbols, kinds added later
      on the server) are `Other`. */
  datatype ShapeType =
    | Rectangle | Door | Opening | Circle | Text | Freehand | Polygon
    | Other(name: string)

  /** The coordinate payload; one schema per kind. A freehand or polygon
      payload may arrive without its `points` list. */
  datatype Coordinates =
    | RectCoords(left: real, top: real, width: real, height: real)
    | CircleCoords(cx: real, cy: real, radius: real)
    | TextCoords(x: real, y: real)
    | PathCoords(points: Option<seq<Point>>)

  /** A scene entity. `kind` is the source's `type` field; `lengthMM` is the
      source's `metadata.lengthMM`. */
  datatype Shape = Shape(
    id: string,
    kind: ShapeType,
    coordinates: Coordinates,
    color: Option<string>,
    strokeColor: Option<string>,
    strokeWidth: Option<real>,
    rotation: Option<real>,
    text: Option<string>,
    lengthMM: Option<real>)

  /** The local transform of a drawn Konva node. */
  datatype Node = Node(x: real, y: real, scaleX: real, scaleY: real, width: real, height: real)

  /** What a gesture handler produces: the payload passed to `onTransform`
      and the node as the handler leaves it. */
  datatype Commit = Commit(coordinates: Coordinates, node: Node)

  /** What a renderer draws. */
  datatype Drawable =
    | RectDrawable(x: real, y: real, width: real, height: real, fill: string, stroke: string, strokeWidth: real)
    | CircleDrawable(x: real, y: real, radius: real, fill: string, stroke: string, strokeWidth: real)
    | TextDrawable(x: real, y: real, content: string, fontSize: real, fill: string, rotation: real)
    | LineDrawable(points: seq<real>, stroke: string, strokeWidth: real)

  const MinSize: real := 5.0
  const SelectedStroke: string := "#3b82f6"
  const Black: string := "#000000"
  const Transparent: string := "transparent"
  const DefaultText: string := "Text"
  const DefaultFontSize: real := 16.0
  const DefaultLineWidth: real := 2.0

  // ---------------------------------------------------------------------
  // Type guards

  predicate IsRectKind(t: ShapeType) {
    t == Rectangle || t == Door || t == Opening
  }

  predicate IsCircleKind(t: ShapeType) {
    t == Circle
  }

  predicate IsTextKind(t: ShapeType) {
    t == Text
  }

  predicate IsPathKind(t: ShapeType) {
    t == Freehand || t == Polygon
  }

  /** The payload schema belonging to a kind, for the kinds drawn here. */
  predicate SchemaMatches(t: ShapeType, c: Coordinates) {
    && (IsRectKind(t) ==> c.RectCoords?)
    && (IsCircleKind(t) ==> c.CircleCoords?)
    && (IsTextKind(t) ==> c.TextCoords?)
    && (IsPathKind(t) ==> c.PathCoords?)
  }

  /** No shape kind is claimed by two renderers. */
  lemma GuardsDisjoint(t: ShapeType)
    ensures IsRectKind(t) ==> !IsCircleKind(t) && !IsTextKind(t) && !IsPathKind(t)
    ensures IsCircleKind(t) ==> !IsTextKind(t) && !IsPathKind(t)
    ensures IsTextKind(t) ==> !IsPathKind(t)
  {
  }

  // ---------------------------------------------------------------------
  // Geometry

  function Max(a: real, b: real): real {
    if a >= b then a else b
  }

  /** Every point shifted by (dx, dy), in the same order. */
  function TranslatePoints(ps: seq<Point>, dx: real, dy: real): (r: seq<Point>)
    ensures |r| == |ps|
    ensures forall i :: 0 <= i < |ps| ==> r[i] == Point(ps[i].x + dx, ps[i].y + dy)
  {
    if ps == [] then []
    else [Point(ps[0].x + dx, ps[0].y + dy)] + TranslatePoints(ps[1..], dx, dy)
  }

  /** Shifts the positional fields of a payload; sizes are untouched and a
      missing point list stays missing. */
  function Translate(c: Coordinates, dx: real, dy: real): (r: Coordinates)
    ensures r.RectCoords? <==> c.RectCoords?
    ensures r.CircleCoords? <==> c.CircleCoords?
    ensures r.TextCoords? <==> c.TextCoords?
    ensures r.PathCoords? <==> c.PathCoords?
    ensures c.RectCoords? ==> r.left == c.left + dx && r.top == c.top + dy && r.width == c.width && r.height == c.height
    ensures c.CircleCoords? ==> r.cx == c.cx + dx && r.cy == c.cy + dy && r.radius == c.radius
    ensures c.TextCoords? ==> r.x == c.x + dx && r.y == c.y + dy
    ensures c.PathCoords? && c.points.None? ==> r == c
    ensures c.PathCoords? && c.points.Some? ==> r.points.Some? && r.points.value == TranslatePoints(c.points.value, dx, dy)
  {
    match c
    case RectCoords(l, t, w, h) => RectCoords(l + dx, t + dy, w, h)
    case CircleCoords(x, y, rad) => CircleCoords(x + dx, y + dy, rad)
    case TextCoords(x, y) => TextCoords(x + dx, y + dy)
    case PathCoords(None) => PathCoords(None)
    case PathCoords(Some(ps)) => PathCoords(Some(TranslatePoints(ps, dx, dy)))
  }

  /** Shifting a point list back by the opposite offset restores it. */
  lemma {:induction false} TranslatePointsRoundTrip(ps: seq<Point>, dx: real, dy: real)
    ensures TranslatePoints(TranslatePoints(ps, dx, dy), -dx, -dy) == ps
  {
    var back := TranslatePoints(TranslatePoints(ps, dx, dy), -dx, -dy);
    assert |back| == |ps|;
    forall i | 0 <= i < |ps| ensures back[i] == ps[i] {
    }
  }

  /** Translating by (dx, dy) and then by (-dx, -dy) gives back the payload. */
  lemma TranslateRoundTrip(c: Coordinates, dx: real, dy: real)
    ensures Translate(Translate(c, dx, dy), -dx, -dy) == c
  {
    if c.PathCoords? && c.points.Some? {
      TranslatePointsRoundTrip(c.points.value, dx, dy);
    }
  }

  /** Interleaves the points as x0, y0, x1, y1, ... for a Konva line. */
  function FlattenPoints(ps: seq<Point>): (r: seq<real>)
    ensures |r| == 2 * |ps|
    ensures forall i :: 0 <= i < |ps| ==> r[2 * i] == ps[i].x && r[2 * i + 1] == ps[i].y
  {
    if ps == [] then []
    else
      var rest := FlattenPoints(ps[1..]);
      var r := [ps[0].x, ps[0].y] + rest;
      assert forall i :: 1 <= i < |ps| ==> r[2 * i] == rest[2 * (i - 1)] && r[2 * i + 1] == rest[2 * (i - 1) + 1];
      r
  }

  /** The renderer's `coords.points || []`: a missing list is empty. */
  function PointsOrEmpty(c: Coordinates): (r: seq<Point>)
    requires c.PathCoords?
    ensures c.points.Some? ==> r == c.points.value
    ensures c.points.None? ==> r == []
  {
    c.points.GetOr([])
  }

  /** Flattening commutes with translation: the flat list of a shifted point
      list is the flat list with dx added to even and dy to odd positions. */
  lemma FlattenTranslated(ps: seq<Point>, dx: real, dy: real)
    ensures var f := FlattenPoints(ps);
            var g := FlattenPoints(TranslatePoints(ps, dx, dy));
            |g| == |f| && forall k :: 0 <= k < |f| ==> g[k] == f[k] + (if k % 2 == 0 then dx else dy)
  {
    var f := FlattenPoints(ps);
    var g := FlattenPoints(TranslatePoints(ps, dx, dy));
    var t := TranslatePoints(ps, dx, dy);
    forall k | 0 <= k < |f| ensures g[k] == f[k] + (if k % 2 == 0 then dx else dy) {
      var i := k / 2;
      assert i < |ps|;
      assert t[i] == Point(ps[i].x + dx, ps[i].y + dy);
      if k % 2 == 0 {
        assert k == 2 * i;
        assert f[2 * i] == ps[i].x && g[2 * i] == t[i].x;
      } else {
        assert k == 2 * i + 1;
        assert f[2 * i + 1] == ps[i].y && g[2 * i + 1] == t[i].y;
      }
    }
  }

  // ---------------------------------------------------------------------
  // Renderers

  /** The stroke every outlined renderer uses: the selection colour while
      selected, otherwise `strokeColor || '#000000'`. */
  function Stroke(s: Shape, isSelected: bool): (r: string)
    ensures isSelected ==> r == SelectedStroke
    ensures !isSelected && TruthyString(s.strokeColor) ==> r == s.strokeColor.value
    ensures !isSelected && !TruthyString(s.strokeColor) ==> r == Black
  {
    if isSelected then SelectedStroke else StringOr(s.strokeColor, Black)
  }

  /** RectangleShape: draws rectangles, doors and openings, and nothing else. */
  function RenderRect(s: Shape, isSelected: bool): (r: Option<Drawable>)
    requires SchemaMatches(s.kind, s.coordinates)
    ensures r.Some? <==> IsRectKind(s.kind)
    ensures r.Some? ==>
      && r.value.RectDrawable?
      && r.value.x == s.coordinates.left && r.value.y == s.coordinates.top
      && r.value.width == s.coordinates.width && r.value.height == s.coordinates.height
      && r.value.fill == StringOr(s.color, Transparent)
      && r.value.stroke == Stroke(s, isSelected) && r.value.strokeWidth == DefaultLineWidth
  {
    if !IsRectKind(s.kind) then None
    else
      var c := s.coordinates;
      Some(RectDrawable(c.left, c.top, c.width, c.height, StringOr(s.color, Transparent),
                        Stroke(s, isSelected), DefaultLineWidth))
  }

  /** CircleShape: draws circles and nothing else. */
  function RenderCircle(s: Shape, isSelected: bool): (r: Option<Drawable>)
    requires SchemaMatches(s.kind, s.coordinates)
    ensures r.Some? <==> IsCircleKind(s.kind)
    ensures r.Some? ==>
      && r.value.CircleDrawable?
      && r.value.x == s.coordinates.cx && r.value.y == s.coordinates.cy
      && r.value.radius == s.coordinates.radius && r.value.fill == StringOr(s.color, Transparent)
      && r.value.stroke == Stroke(s, isSelected) && r.value.strokeWidth == DefaultLineWidth
  {
    if !IsCircleKind(s.kind) then None
    else
      var c := s.coordinates;
      Some(CircleDrawable(c.cx, c.cy, c.radius, StringOr(s.color, Transparent),
                          Stroke(s, isSelected), DefaultLineWidth))
  }

  /** TextShape: draws text labels and nothing else; an empty text shows
      "Text" and a missing or zero length gives a 16-unit font. */
  function RenderText(s: Shape, isSelected: bool): (r: Option<Drawable>)
    requires SchemaMatches(s.kind, s.coordinates)
    ensures r.Some? <==> IsTextKind(s.kind)
    ensures r.Some? ==>
      && r.value.TextDrawable?
      && r.value.x == s.coordinates.x && r.value.y == s.coordinates.y
      && r.value.content == StringOr(s.text, DefaultText) && r.value.content != []
      && r.value.fontSize == NumberOr(s.lengthMM, DefaultFontSize) && r.value.fontSize != 0.0
      && r.value.fill == StringOr(s.color, Black)
      && r.value.rotation == NumberOr(s.rotation, 0.0)
  {
    if !IsTextKind(s.kind) then None
    else
      var c := s.coordinates;
      Some(TextDrawable(c.x, c.y, StringOr(s.text, DefaultText), NumberOr(s.lengthMM, DefaultFontSize),
                        StringOr(s.color, Black), NumberOr(s.rotation, 0.0)))
  }

  /** Text has no outline: selection does not change what is drawn. */
  lemma TextIgnoresSelection(s: Shape)
    requires SchemaMatches(s.kind, s.coordinates)
    ensures RenderText(s, true) == RenderText(s, false)
  {
  }

  /** FreehandShape: draws freehand strokes and polygons and nothing else. */
  function RenderPath(s: Shape, isSelected: bool): (r: Option<Drawable>)
    requires SchemaMatches(s.kind, s.coordinates)
    ensures r.Some? <==> IsPathKind(s.kind)
    ensures r.Some? ==>
      && r.value.LineDrawable?
      && r.value.points == FlattenPoints(PointsOrEmpty(s.coordinates))
      && (s.coordinates.points.None? ==> r.value.points == [])
      && r.value.stroke == Stroke(s, isSelected)
      && r.value.strokeWidth == NumberOr(s.strokeWidth, DefaultLineWidth)
  {
    if !IsPathKind(s.kind) then None
    else
      Some(LineDrawable(FlattenPoints(PointsOrEmpty(s.coordinates)), Stroke(s, isSelected),
                        NumberOr(s.strokeWidth, DefaultLineWidth)))
  }

  /** At most one of the four renderers draws any given shape. */
  lemma AtMostOneRenderer(s: Shape, isSelected: bool)
    requires SchemaMatches(s.kind, s.coordinates)
    ensures (if RenderRect(s, isSelected).Some? then 1 else 0)
          + (if RenderCircle(s, isSelected).Some? then 1 else 0)
          + (if RenderText(s, isSelected).Some? then 1 else 0)
          + (if RenderPath(s, isSelected).Some? then 1 else 0) <= 1
    ensures s.kind.Other? ==>
      && RenderRect(s, isSelected).None? && RenderCircle(s, isSelected).None?
      && RenderText(s, isSelected).None? && RenderPath(s, isSelected).None?
  {
  }

  // ---------------------------------------------------------------------
  // Gesture commits

  /** The node with its position reset to (0, 0). */
  function AtOrigin(n: Node): (r: Node)
    ensures r.x == 0.0 && r.y == 0.0
    ensures r.scaleX == n.scaleX && r.scaleY == n.scaleY && r.width == n.width && r.height == n.height
  {
    n.(x := 0.0, y := 0.0)
  }

  /** RectangleShape `onDragEnd`: the new top-left corner is the node's
      position, the size is the pre-drag size, and the node is reset. */
  function RectDragEnd(s: Shape, node: Node): (r: Option<Commit>)
    requires SchemaMatches(s.kind, s.coordinates)
    ensures r.Some? <==> IsRectKind(s.kind)
    ensures r.Some? ==>
      && r.value.coordinates.RectCoords?
      && r.value.coordinates.left == node.x && r.value.coordinates.top == node.y
      && r.value.coordinates.width == s.coordinates.width
      && r.value.coordinates.height == s.coordinates.height
      && r.value.node == AtOrigin(node)
  {
    if !IsRectKind(s.kind) then None
    else
      var c := s.coordinates;
      Some(Commit(RectCoords(node.x, node.y, c.width, c.height), AtOrigin(node)))
  }

  /** RectangleShape `onTransformEnd`: the node's scale is folded into the
      size, each dimension clamped to at least 5, and the scale reset to 1.
      Without a mounted node (`shapeRef.current` null) nothing happens. */
  function RectTransformEnd(s: Shape, node: Option<Node>): (r: Option<Commit>)
    requires SchemaMatches(s.kind, s.coordinates)
    ensures r.Some? <==> IsRectKind(s.kind) && node.Some?
    ensures r.Some? ==> var n := node.value; var c := r.value.coordinates;
      && c.RectCoords?
      && c.left == n.x && c.top == n.y
      && c.width >= MinSize && c.height >= MinSize
      && (n.width * n.scaleX >= MinSize ==> c.width == n.width * n.scaleX)
      && (n.height * n.scaleY >= MinSize ==> c.height == n.height * n.scaleY)
      && (c.width == n.width * n.scaleX || c.width == MinSize)
      && (c.height == n.height * n.scaleY || c.height == MinSize)
      && r.value.node == n.(scaleX := 1.0, scaleY := 1.0)
  {
    if !IsRectKind(s.kind) || node.None? then None
    else
      var n := node.value;
      Some(Commit(RectCoords(n.x, n.y, Max(MinSize, n.width * n.scaleX), Max(MinSize, n.height * n.scaleY)),
                  n.(scaleX := 1.0, scaleY := 1.0)))
  }

  /** CircleShape `onDragEnd`: the centre is the node's position and the
      radius is kept. */
  function CircleDragEnd(s: Shape, node: Node): (r: Option<Commit>)
    requires SchemaMatches(s.kind, s.coordinates)
    ensures r.Some? <==> IsCircleKind(s.kind)
    ensures r.Some? ==>
      && r.value.coordinates.CircleCoords?
      && r.value.coordinates.cx == node.x && r.value.coordinates.cy == node.y
      && r.value.coordinates.radius == s.coordinates.radius
      && r.value.node == AtOrigin(node)
  {
    if !IsCircleKind(s.kind) then None
    else Some(Commit(CircleCoords(node.x, node.y, s.coordinates.radius), AtOrigin(node)))
  }

  /** TextShape `onDragEnd`: the payload is exactly the node's position. */
  function TextDragEnd(s: Shape, node: Node): (r: Option<Commit>)
    requires SchemaMatches(s.kind, s.coordinates)
    ensures r.Some? <==> IsTextKind(s.kind)
    ensures r.Some? ==> r.value.coordinates == TextCoords(node.x, node.y) && r.value.node == AtOrigin(node)
  {
    if !IsTextKind(s.kind) then None
    else Some(Commit(TextCoords(node.x, node.y), AtOrigin(node)))
  }

  /** FreehandShape `onDragEnd`: the line node is drawn at (0, 0), so its
      position after the drag is the offset; every point is shifted by it. */
  function PathDragEnd(s: Shape, node: Node): (r: Option<Commit>)
    requires SchemaMatches(s.kind, s.coordinates)
    ensures r.Some? <==> IsPathKind(s.kind)
    ensures r.Some? ==>
      && r.value.coordinates.PathCoords? && r.value.coordinates.points.Some?
      && var old_ := PointsOrEmpty(s.coordinates); var new_ := r.value.coordinates.points.value;
      && |new_| == |old_|
      && (forall i :: 0 <= i < |old_| ==> new_[i] == Point(old_[i].x + node.x, old_[i].y + node.y))
      && r.value.node == AtOrigin(node)
  {
    if !IsPathKind(s.kind) then None
    else Some(Commit(PathCoords(Some(TranslatePoints(PointsOrEmpty(s.coordinates), node.x, node.y))),
                     AtOrigin(node)))
  }

  /** Where a drawn node sits before a drag: rectangles, circles and text are
      positioned by their payload, lines are drawn at the origin. */
  function DragOrigin(c: Coordinates): (real, real) {
    match c
    case RectCoords(l, t, _, _) => (l, t)
    case CircleCoords(x, y, _) => (x, y)
    case TextCoords(x, y) => (x, y)
    case PathCoords(_) => (0.0, 0.0)
  }

  /** The drag handler of whichever renderer draws the shape. */
  function DragEnd(s: Shape, node: Node): Option<Commit>
    requires SchemaMatches(s.kind, s.coordinates)
  {
    if IsRectKind(s.kind) then RectDragEnd(s, node)
    else if IsCircleKind(s.kind) then CircleDragEnd(s, node)
    else if IsTextKind(s.kind) then TextDragEnd(s, node)
    else PathDragEnd(s, node)
  }

  /** The drag handlers with the position reset kept only for lines, whose
      node is drawn at the origin: a rectangle, circle or text node stays
      where it was dropped, which is where its committed payload puts it. */
  function DragEndFixed(s: Shape, node: Node): (r: Option<Commit>)
    requires SchemaMatches(s.kind, s.coordinates)
    ensures r.Some? <==> DragEnd(s, node).Some?
    ensures r.Some? ==> r.value.coordinates == DragEnd(s, node).value.coordinates
    ensures r.Some? ==> (r.value.node.x, r.value.node.y) == DragOrigin(r.value.coordinates)
    ensures r.Some? && IsPathKind(s.kind) ==> r == DragEnd(s, node)
  {
    match DragEnd(s, node)
    case None => None
    case Some(c) => Some(Commit(c.coordinates, if IsPathKind(s.kind) then c.node else node))
  }

  /** A drag by (dx, dy) commits the pre-drag payload translated by exactly
      (dx, dy), once, and leaves the node at the origin. Shapes of kinds not
      drawn here produce no commit. */
  lemma DragCommitsTranslation(s: Shape, dx: real, dy: real, node: Node)
    requires SchemaMatches(s.kind, s.coordinates)
    requires !s.kind.Other?
    requires !(s.coordinates.PathCoords? && s.coordinates.points.None?)
    requires node.x == DragOrigin(s.coordinates).0 + dx && node.y == DragOrigin(s.coordinates).1 + dy
    ensures DragEnd(s, node).Some?
    ensures DragEnd(s, node).value.coordinates == Translate(s.coordinates, dx, dy)
    ensures DragEnd(s, node).value.node.x == 0.0 && DragEnd(s, node).value.node.y == 0.0
  {
    if s.coordinates.PathCoords? {
      var ps := s.coordinates.points.value;
      assert TranslatePoints(ps, node.x, node.y) == TranslatePoints(ps, dx, dy);
    }
  }

  /** A freehand payload that arrived without points is committed as an
      empty list after a drag. */
  lemma DragOfMissingPointsCommitsEmpty(s: Shape, node: Node)
    requires IsPathKind(s.kind) && s.coordinates == PathCoords(None)
    ensures DragEnd(s, node) == Some(Commit(PathCoords(Some([])), AtOrigin(node)))
  {
  }

  /** A commit followed by a drag back by the opposite offset restores the
      original payload. */
  lemma DragBackRestores(s: Shape, dx: real, dy: real, node: Node, s2: Shape, node2: Node)
    requires SchemaMatches(s.kind, s.coordinates)
    requires !s.kind.Other?
    requires !(s.coordinates.PathCoords? && s.coordinates.points.None?)
    requires node.x == DragOrigin(s.coordinates).0 + dx && node.y == DragOrigin(s.coordinates).1 + dy
    requires s2 == s.(coordinates := DragEnd(s, node).value.coordinates)
    requires node2.x == DragOrigin(s2.coordinates).0 - dx && node2.y == DragOrigin(s2.coordinates).1 - dy
    ensures DragEnd(s, node).value.coordinates == Translate(s.coordinates, dx, dy)
    ensures SchemaMatches(s2.kind, s2.coordinates)
    ensures DragEnd(s2, node2).Some? && DragEnd(s2, node2).value.coordinates == s.coordinates
  {
    DragCommitsTranslation(s, dx, dy, node);
    DragCommitsTranslation(s2, -dx, -dy, node2);
    TranslateRoundTrip(s.coordinates, dx, dy);
  }

  /** A resize gesture that did not scale (scale 1, 1) keeps a rectangle
      that already respects the minimum size exactly as it was. */
  lemma UnscaledResizeKeepsSize(s: Shape, node: Node)
    requires SchemaMatches(s.kind, s.coordinates) && IsRectKind(s.kind)
    requires node == Node(s.coordinates.left, s.coordinates.top, 1.0, 1.0, s.coordinates.width, s.coordinates.height)
    requires s.coordinates.width >= MinSize && s.coordinates.height >= MinSize
    ensures RectTransformEnd(s, Some(node)) == Some(Commit(s.coordinates, node))
  {
  }
}
