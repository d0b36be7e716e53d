/** The `React.memo` comparators of the four shape renderers. A comparator
    answers true when the component may skip re-rendering; `JSON.stringify`
    equality of the coordinate payloads is structural equality here. */
module ShapeMemo {
  import opened Optional
  import opened Shapes

  /** The props a comparator sees (callbacks and the ref map are not compared). */
  datatype Props = Props(shape: Shape, isSelected: bool)

  /** The comparator shared, field for field, by RectangleShape, CircleShape
      and (as written) FreehandShape: id, selection, coordinates, fill colour
      and stroke colour. */
  predicate OutlinedPropsEqual(prev: Props, next: Props) {
    && prev.shape.id == next.shape.id
    && prev.isSelected == next.isSelected
    && prev.shape.coordinates == next.shape.coordinates
    && prev.shape.color == next.shape.color
    && prev.shape.strokeColor == next.shape.strokeColor
  }

  /** TextShape's comparator: id, selection, coordinates, text, colour,
      rotation and `metadata.lengthMM`; the stroke colour is not compared. */
  predicate TextPropsEqual(prev: Props, next: Props) {
    && prev.shape.id == next.shape.id
    && prev.isSelected == next.isSelected
    && prev.shape.coordinates == next.shape.coordinates
    && prev.shape.text == next.shape.text
    && prev.shape.color == next.shape.color
    && prev.shape.rotation == next.shape.rotation
    && prev.shape.lengthMM == next.shape.lengthMM
  }

  /** FreehandShape's comparator as the source writes it. */
  predicate PathPropsEqualAsWritten(prev: Props, next: Props) {
    OutlinedPropsEqual(prev, next)
  }

  /** FreehandShape's comparator with the stroke width, which the line is
      drawn with, compared as well. */
  predicate PathPropsEqual(prev: Props, next: Props) {
    OutlinedPropsEqual(prev, next) && prev.shape.strokeWidth == next.shape.strokeWidth
  }

  /** The comparator of the renderer that owns a kind (the corrected one for
      freehand and polygon shapes); kinds no renderer here draws are never
      skipped. */
  predicate SkipRender(prev: Props, next: Props) {
    var k := next.shape.kind;
    if IsRectKind(k) || IsCircleKind(k) then OutlinedPropsEqual(prev, next)
    else if IsTextKind(k) then TextPropsEqual(prev, next)
    else if IsPathKind(k) then PathPropsEqual(prev, next)
    else false
  }

  /** Two props describe the same shape instance: same kind, and each payload
      has its kind's schema. A shape's kind never changes. */
  predicate SameInstance(prev: Props, next: Props) {
    && prev.shape.kind == next.shape.kind
    && SchemaMatches(prev.shape.kind, prev.shape.coordinates)
    && SchemaMatches(next.shape.kind, next.shape.coordinates)
  }

  /** Every comparator reports unchanged props as unchanged. */
  lemma ComparatorsReflexive(p: Props)
    ensures OutlinedPropsEqual(p, p) && TextPropsEqual(p, p)
    ensures PathPropsEqualAsWritten(p, p) && PathPropsEqual(p, p)
    ensures SkipRender(p, p) <==> !p.shape.kind.Other?
  {
  }

  /** Every comparator is symmetric in its two arguments. */
  lemma ComparatorsSymmetric(p: Props, q: Props)
    ensures OutlinedPropsEqual(p, q) == OutlinedPropsEqual(q, p)
    ensures TextPropsEqual(p, q) == TextPropsEqual(q, p)
    ensures PathPropsEqual(p, q) == PathPropsEqual(q, p)
  {
  }

  /** A change of selection always forces a re-render. */
  lemma SelectionChangeRerenders(prev: Props, next: Props)
    requires prev.isSelected != next.isSelected
    ensures !OutlinedPropsEqual(prev, next) && !TextPropsEqual(prev, next)
    ensures !PathPropsEqualAsWritten(prev, next) && !PathPropsEqual(prev, next)
    ensures !SkipRender(prev, next)
  {
  }

  /** Changes to fields a comparator does not read never force a re-render:
      stroke width, rotation, text and length for the outlined shapes, stroke
      colour and stroke width for text. */
  lemma IgnoredFields(p: Props, sw: Option<real>, rot: Option<real>, txt: Option<string>, len: Option<real>, sc: Option<string>)
    ensures OutlinedPropsEqual(p, p.(shape := p.shape.(strokeWidth := sw, rotation := rot, text := txt, lengthMM := len)))
    ensures TextPropsEqual(p, p.(shape := p.shape.(strokeColor := sc, strokeWidth := sw)))
  {
  }

  /** Skipping a rectangle, door or opening is safe: it would be drawn the same. */
  lemma RectComparatorSound(prev: Props, next: Props)
    requires SameInstance(prev, next) && OutlinedPropsEqual(prev, next)
    ensures RenderRect(prev.shape, prev.isSelected) == RenderRect(next.shape, next.isSelected)
  {
  }

  /** Skipping a circle is safe: it would be drawn the same. */
  lemma CircleComparatorSound(prev: Props, next: Props)
    requires SameInstance(prev, next) && OutlinedPropsEqual(prev, next)
    ensures RenderCircle(prev.shape, prev.isSelected) == RenderCircle(next.shape, next.isSelected)
  {
  }

  /** Skipping a text label is safe: it would be drawn the same. */
  lemma TextComparatorSound(prev: Props, next: Props)
    requires SameInstance(prev, next) && TextPropsEqual(prev, next)
    ensures RenderText(prev.shape, prev.isSelected) == RenderText(next.shape, next.isSelected)
  {
  }

  /** The freehand comparator as written can skip a re-render that would have
      changed the drawing: two props that differ only in stroke width. */
  lemma PathComparatorMissesStrokeWidth()
    ensures var prev := Props(Shape("s1", Freehand, PathCoords(Some([])), None, None, Some(2.0), None, None, None), false);
            var next := prev.(shape := prev.shape.(strokeWidth := Some(8.0)));
            && SameInstance(prev, next)
            && PathPropsEqualAsWritten(prev, next)
            && RenderPath(prev.shape, prev.isSelected) != RenderPath(next.shape, next.isSelected)
  {
    var prev := Props(Shape("s1", Freehand, PathCoords(Some([])), None, None, Some(2.0), None, None, None), false);
    var next := prev.(shape := prev.shape.(strokeWidth := Some(8.0)));
    assert RenderPath(next.shape, next.isSelected).value.strokeWidth == 8.0;
  }

  /** With the stroke width compared, skipping a freehand or polygon shape is
      safe: it would be drawn the same. */
  lemma PathComparatorSound(prev: Props, next: Props)
    requires SameInstance(prev, next) && PathPropsEqual(prev, next)
    ensures RenderPath(prev.shape, prev.isSelected) == RenderPath(next.shape, next.isSelected)
  {
  }

  /** Whatever renderer owns a shape, a skipped re-render would have drawn
      exactly what is already on screen. */
  lemma SkipRenderSound(prev: Props, next: Props)
    requires SameInstance(prev, next) && SkipRender(prev, next)
    ensures RenderRect(prev.shape, prev.isSelected) == RenderRect(next.shape, next.isSelected)
    ensures RenderCircle(prev.shape, prev.isSelected) == RenderCircle(next.shape, next.isSelected)
    ensures RenderText(prev.shape, prev.isSelected) == RenderText(next.shape, next.isSelected)
    ensures RenderPath(prev.shape, prev.isSelected) == RenderPath(next.shape, next.isSelected)
  {
    var k := next.shape.kind;
    if IsTextKind(k) {
      TextComparatorSound(prev, next);
    } else if IsPathKind(k) {
      PathComparatorSound(prev, next);
    } else {
      RectComparatorSound(prev, next);
      CircleComparatorSound(prev, next);
    }
  }

  // ---------------------------------------------------------------------
  // Where a dragged node settles

  /** The props after the parent has stored a commit's payload. */
  function Stored(prev: Props, c: Commit): Props {
    prev.(shape := prev.shape.(coordinates := c.coordinates))
  }

  /** Where a drawn node sits once the parent has stored a drag's commit. If
      the comparator skips the re-render, nothing moves the node from where
      the handler left it; otherwise, at best, the re-render places it from
      the committed payload. */
  function Settled(prev: Props, c: Commit): (real, real) {
    if SkipRender(prev, Stored(prev, c)) then (c.node.x, c.node.y) else DragOrigin(c.coordinates)
  }

  /** A rectangle, circle or text dropped where it was picked up commits an
      unchanged payload, so the comparator skips the re-render, and the node
      stays at the origin where the drag handler put it instead of at its
      payload's position. */
  lemma StillDragMisplacesNode(s: Shape, isSelected: bool, node: Node)
    requires SchemaMatches(s.kind, s.coordinates)
    requires IsRectKind(s.kind) || IsCircleKind(s.kind) || IsTextKind(s.kind)
    requires (node.x, node.y) == DragOrigin(s.coordinates) && DragOrigin(s.coordinates) != (0.0, 0.0)
    ensures DragEnd(s, node).Some?
    ensures var c := DragEnd(s, node).value;
            && c.coordinates == s.coordinates
            && Settled(Props(s, isSelected), c) == (0.0, 0.0) != DragOrigin(c.coordinates)
  {
    var c := DragEnd(s, node).value;
    assert Stored(Props(s, isSelected), c) == Props(s, isSelected);
  }

  /** With the corrected handlers, every drag of a drawn shape leaves its node
      exactly where the committed payload places it, whether or not the
      parent's update re-renders the shape. */
  lemma FixedDragSettlesAtCommit(prev: Props, node: Node)
    requires SchemaMatches(prev.shape.kind, prev.shape.coordinates)
    requires DragEndFixed(prev.shape, node).Some?
    ensures var c := DragEndFixed(prev.shape, node).value;
            Settled(prev, c) == DragOrigin(c.coordinates)
  {
  }
}
