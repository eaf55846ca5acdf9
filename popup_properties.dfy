/** Properties of popup placement that relate several calls: how the user
    offset, the parent's position, the popup's size and the layout direction
    move the result. */
module PopupProperties {
  import opened Geometry
  import opened Popup

  // ---------------------------------------------------------------------
  // The user offset
  // ---------------------------------------------------------------------

  /** Resolving an offset for a direction is its own inverse. */
  lemma ResolvedOffsetInvolutive(offset: IntOffset, layoutDirection: LayoutDirection)
    ensures ResolvedOffset(ResolvedOffset(offset, layoutDirection), layoutDirection) == offset
  {
  }

  /** Changing a provider's offset by `delta` moves the popup by `delta`
      resolved for the direction: by (dx, dy) in Ltr and by (-dx, dy) in Rtl. */
  lemma OffsetMovesPosition(
    p: PopupPositionProvider, parentLayoutBounds: IntBounds, layoutDirection: LayoutDirection,
    popupSize: IntSize, delta: IntOffset
  )
    ensures p.WithOffset(p.offset.Plus(delta)).Position(parentLayoutBounds, layoutDirection, popupSize)
            == p.Position(parentLayoutBounds, layoutDirection, popupSize).Plus(ResolvedOffset(delta, layoutDirection))
  {
  }

  /** Every position can be reached by choosing the user offset. */
  lemma OffsetReachesEveryPosition(
    p: PopupPositionProvider, parentLayoutBounds: IntBounds, layoutDirection: LayoutDirection,
    popupSize: IntSize, target: IntOffset
  )
    ensures exists offset :: p.WithOffset(offset).Position(parentLayoutBounds, layoutDirection, popupSize) == target
  {
    var base := p.WithOffset(IntOffset(0, 0));
    var delta := ResolvedOffset(target.Minus(base.Position(parentLayoutBounds, layoutDirection, popupSize)), layoutDirection);
    OffsetMovesPosition(base, parentLayoutBounds, layoutDirection, popupSize, delta);
    ResolvedOffsetInvolutive(target.Minus(base.Position(parentLayoutBounds, layoutDirection, popupSize)), layoutDirection);
    assert base.WithOffset(base.offset.Plus(delta)) == p.WithOffset(delta);
  }

  /** Two different user offsets never give the same position. */
  lemma OffsetDeterminesPosition(
    p: PopupPositionProvider, parentLayoutBounds: IntBounds, layoutDirection: LayoutDirection,
    popupSize: IntSize, offset1: IntOffset, offset2: IntOffset
  )
    requires p.WithOffset(offset1).Position(parentLayoutBounds, layoutDirection, popupSize)
             == p.WithOffset(offset2).Position(parentLayoutBounds, layoutDirection, popupSize)
    ensures offset1 == offset2
  {
  }

  // ---------------------------------------------------------------------
  // Both providers
  // ---------------------------------------------------------------------

  /** Moving the parent by (dx, dy) without resizing it moves the popup by
      exactly (dx, dy). */
  lemma TranslationCovariance(
    p: PopupPositionProvider, parentLayoutBounds: IntBounds, layoutDirection: LayoutDirection,
    popupSize: IntSize, dx: int, dy: int
  )
    ensures p.Position(parentLayoutBounds.Translate(dx, dy), layoutDirection, popupSize)
            == p.Position(parentLayoutBounds, layoutDirection, popupSize).Plus(IntOffset(dx, dy))
  {
  }

  /** The x of the popup's left edge mirrored about the parent's vertical
      centre line, for a popup of the given size whose left edge is at x. */
  function MirroredX(parentLayoutBounds: IntBounds, popupSize: IntSize, x: int): int {
    parentLayoutBounds.left + parentLayoutBounds.right - x - popupSize.width
  }

  // ---------------------------------------------------------------------
  // The alignment provider
  // ---------------------------------------------------------------------

  /** A popup of the parent's own size is placed on the parent, moved only
      by the resolved offset, whatever the alignment. */
  lemma AlignedSameSizeAsParent(
    alignment: Alignment, offset: IntOffset, parentLayoutBounds: IntBounds, layoutDirection: LayoutDirection
  )
    ensures AlignmentOffsetPositionProvider(alignment, offset)
              .Position(parentLayoutBounds, layoutDirection, IntSize(parentLayoutBounds.Width(), parentLayoutBounds.Height()))
            == parentLayoutBounds.TopLeft().Plus(ResolvedOffset(offset, layoutDirection))
  {
  }

  /** An alignment that designates the top-left corner of every box in Ltr,
      as the default top-start alignment does. */
  ghost predicate IsTopLeftInLtr(alignment: Alignment) {
    forall size :: alignment(size, Ltr) == IntOffset(0, 0)
  }

  /** With such an alignment, the Ltr popup sits at the parent's top-left
      corner plus the offset, whatever its size. */
  lemma TopStartInLtr(alignment: Alignment, offset: IntOffset, parentLayoutBounds: IntBounds, popupSize: IntSize)
    requires IsTopLeftInLtr(alignment)
    ensures AlignmentOffsetPositionProvider(alignment, offset).Position(parentLayoutBounds, Ltr, popupSize)
            == parentLayoutBounds.TopLeft().Plus(offset)
  {
  }

  /** An alignment whose Rtl point is its Ltr point mirrored inside the box. */
  ghost predicate IsMirrorSymmetric(alignment: Alignment) {
    forall size :: alignment(size, Rtl) == IntOffset(size.width - alignment(size, Ltr).x, alignment(size, Ltr).y)
  }

  /** With a mirror-symmetric alignment, the Rtl placement is the Ltr
      placement mirrored about the parent's vertical centre line. */
  lemma AlignedRtlMirrorsLtr(alignment: Alignment, offset: IntOffset, parentLayoutBounds: IntBounds, popupSize: IntSize)
    requires IsMirrorSymmetric(alignment)
    ensures var p := AlignmentOffsetPositionProvider(alignment, offset);
            var ltr := p.Position(parentLayoutBounds, Ltr, popupSize);
            p.Position(parentLayoutBounds, Rtl, popupSize) == IntOffset(MirroredX(parentLayoutBounds, popupSize, ltr.x), ltr.y)
  {
  }

  /** A centred popup: a 40x10 popup on a 100x50 parent at (10, 20) is
      placed at (40, 40) when the alignment designates the centre of both. */
  lemma AlignedCentreExample(alignment: Alignment)
    requires alignment(IntSize(100, 50), Ltr) == IntOffset(50, 25)
    requires alignment(IntSize(40, 10), Ltr) == IntOffset(20, 5)
    ensures AlignmentOffsetPositionProvider(alignment, IntOffset(0, 0))
              .Position(IntBounds(10, 20, 110, 70), Ltr, IntSize(40, 10)) == IntOffset(40, 40)
  {
  }

  // ---------------------------------------------------------------------
  // The dropdown provider
  // ---------------------------------------------------------------------

  /** The horizontal placement table, with the offset resolved. */
  lemma DropdownHorizontal(
    dropDownAlignment: DropDownAlignment, offset: IntOffset, parentLayoutBounds: IntBounds,
    layoutDirection: LayoutDirection, popupSize: IntSize
  )
    ensures var x := DropdownPositionProvider(dropDownAlignment, offset).Position(parentLayoutBounds, layoutDirection, popupSize).x;
            && (dropDownAlignment == Start && layoutDirection == Ltr ==> x == parentLayoutBounds.left + offset.x)
            && (dropDownAlignment == Start && layoutDirection == Rtl ==>
                  x == parentLayoutBounds.left + parentLayoutBounds.Width() - popupSize.width - offset.x)
            && (dropDownAlignment == End && layoutDirection == Ltr ==>
                  x == parentLayoutBounds.left + parentLayoutBounds.Width() + offset.x)
            && (dropDownAlignment == End && layoutDirection == Rtl ==> x == parentLayoutBounds.left - popupSize.width - offset.x)
  {
  }

  /** With no offset the popup's edges touch the parent's: its left edge on
      the parent's left (Start, Ltr) or right (End, Ltr) edge, its right edge
      on the parent's right (Start, Rtl) or left (End, Rtl) edge; and its top
      edge on the parent's bottom edge. */
  lemma DropdownEdgeCoincidence(
    dropDownAlignment: DropDownAlignment, parentLayoutBounds: IntBounds,
    layoutDirection: LayoutDirection, popupSize: IntSize
  )
    ensures var r := DropdownPositionProvider(dropDownAlignment, IntOffset(0, 0)).Position(parentLayoutBounds, layoutDirection, popupSize);
            && (dropDownAlignment == Start && layoutDirection == Ltr ==> r.x == parentLayoutBounds.left)
            && (dropDownAlignment == Start && layoutDirection == Rtl ==> r.x + popupSize.width == parentLayoutBounds.right)
            && (dropDownAlignment == End && layoutDirection == Ltr ==> r.x == parentLayoutBounds.right)
            && (dropDownAlignment == End && layoutDirection == Rtl ==> r.x + popupSize.width == parentLayoutBounds.left)
            && r.y == parentLayoutBounds.bottom
  {
  }

  /** The popup's top is the parent's bottom plus the offset's y; with a
      non-negative y it is never above the parent's bottom edge. */
  lemma DropdownBelowParent(
    dropDownAlignment: DropDownAlignment, offset: IntOffset, parentLayoutBounds: IntBounds,
    layoutDirection: LayoutDirection, popupSize: IntSize
  )
    ensures var y := DropdownPositionProvider(dropDownAlignment, offset).Position(parentLayoutBounds, layoutDirection, popupSize).y;
            && y == parentLayoutBounds.top + parentLayoutBounds.Height() + offset.y
            && (offset.y >= 0 ==> y >= parentLayoutBounds.bottom)
  {
  }

  /** The popup's top depends neither on the edge, nor on the direction, nor
      on the popup's size. */
  lemma DropdownVerticalIndependent(
    alignment1: DropDownAlignment, alignment2: DropDownAlignment, offset: IntOffset, parentLayoutBounds: IntBounds,
    direction1: LayoutDirection, direction2: LayoutDirection, size1: IntSize, size2: IntSize
  )
    ensures DropdownPositionProvider(alignment1, offset).Position(parentLayoutBounds, direction1, size1).y
            == DropdownPositionProvider(alignment2, offset).Position(parentLayoutBounds, direction2, size2).y
  {
  }

  /** The popup's height never matters, and in Ltr its size does not matter
      at all. */
  lemma DropdownIgnoresPopupHeight(
    dropDownAlignment: DropDownAlignment, offset: IntOffset, parentLayoutBounds: IntBounds,
    layoutDirection: LayoutDirection, size1: IntSize, size2: IntSize
  )
    requires size1.width == size2.width || layoutDirection == Ltr
    ensures DropdownPositionProvider(dropDownAlignment, offset).Position(parentLayoutBounds, layoutDirection, size1)
            == DropdownPositionProvider(dropDownAlignment, offset).Position(parentLayoutBounds, layoutDirection, size2)
  {
  }

  /** The Rtl placement is the Ltr placement mirrored about the parent's
      vertical centre line, offset included. */
  lemma DropdownRtlMirrorsLtr(
    dropDownAlignment: DropDownAlignment, offset: IntOffset, parentLayoutBounds: IntBounds, popupSize: IntSize
  )
    ensures var p := DropdownPositionProvider(dropDownAlignment, offset);
            var ltr := p.Position(parentLayoutBounds, Ltr, popupSize);
            p.Position(parentLayoutBounds, Rtl, popupSize) == IntOffset(MirroredX(parentLayoutBounds, popupSize, ltr.x), ltr.y)
  {
  }

  /** A 40x10 popup snapped to the start edge of a 100x50 parent at
      (10, 20) in Rtl, with offset (5, 0): the offset moves it left. */
  lemma DropdownStartRtlExample()
    ensures DropdownPositionProvider(Start, IntOffset(5, 0)).Position(IntBounds(10, 20, 110, 70), Rtl, IntSize(40, 10))
            == IntOffset(65, 70)
  {
    assert DirectionFactor(Rtl) == -1;
    assert AlignmentPositionX(Start, Rtl, IntBounds(10, 20, 110, 70), IntSize(40, 10)) == 60;
  }

  /** The same popup snapped past the end edge of the same parent in Ltr. */
  lemma DropdownEndLtrExample()
    ensures DropdownPositionProvider(End, IntOffset(0, 0)).Position(IntBounds(10, 20, 110, 70), Ltr, IntSize(40, 10))
            == IntOffset(110, 70)
  {
  }
}
