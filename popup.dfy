/** Placement of a popup relative to its parent: the position-provider
    contract and its two implementations, one that lines up an alignment
    point of the popup with the same point of the parent, and one that drops
    the popup below the parent, snapped to its start or end edge. */
module Popup {
  import opened Geometry

  /** `Alignment.align`: the point of a box of the given size that an
      alignment designates, measured from the box's top-left corner, for the
      given layout direction. Its definition is not part of this model, so it
      is taken as an arbitrary function and nothing proved here depends on
      how it rounds. */
  type Alignment = (IntSize, LayoutDirection) -> IntOffset

  /** Which edge of the parent a dropdown popup is snapped to. */
  datatype DropDownAlignment = Start | End

  /** The factor the user offset's x is multiplied by: 1 in Ltr, -1 in Rtl. */
  function DirectionFactor(layoutDirection: LayoutDirection): int {
    if layoutDirection == Ltr then 1 else -1
  }

  /** The user offset resolved for the layout direction: added as given in
      Ltr, horizontally subtracted in Rtl; the vertical part never changes. */
  function ResolvedOffset(offset: IntOffset, layoutDirection: LayoutDirection): (r: IntOffset)
    ensures r.y == offset.y
    ensures layoutDirection == Ltr ==> r == offset
    ensures layoutDirection == Rtl ==> r.x == -offset.x
  {
    IntOffset(offset.x * DirectionFactor(layoutDirection), offset.y)
  }

  /** Horizontal position of a dropdown popup relative to the parent's left
      edge, before the user offset. */
  function AlignmentPositionX(
    dropDownAlignment: DropDownAlignment,
    layoutDirection: LayoutDirection,
    parentLayoutBounds: IntBounds,
    popupSize: IntSize
  ): (t: int)
    // Ltr, Start: the popup's left edge is on the parent's left edge.
    ensures dropDownAlignment == Start && layoutDirection == Ltr ==>
              parentLayoutBounds.left + t == parentLayoutBounds.left
    // Rtl, Start: the popup's right edge is on the parent's right edge.
    ensures dropDownAlignment == Start && layoutDirection == Rtl ==>
              parentLayoutBounds.left + t + popupSize.width == parentLayoutBounds.right
    // Ltr, End: the popup's left edge is on the parent's right edge.
    ensures dropDownAlignment == End && layoutDirection == Ltr ==>
              parentLayoutBounds.left + t == parentLayoutBounds.right
    // Rtl, End: the popup's right edge is on the parent's left edge.
    ensures dropDownAlignment == End && layoutDirection == Rtl ==>
              parentLayoutBounds.left + t + popupSize.width == parentLayoutBounds.left
  {
    if dropDownAlignment == Start then
      if layoutDirection == Ltr then 0 else parentLayoutBounds.Width() - popupSize.width
    else
      if layoutDirection == Ltr then parentLayoutBounds.Width() else -popupSize.width
  }

  /** The position-provider contract, closed over its two implementations.
      Each variant carries the provider's construction-time fields. */
  datatype PopupPositionProvider =
    | AlignmentOffsetPositionProvider(alignment: Alignment, offset: IntOffset)
    | DropdownPositionProvider(dropDownAlignment: DropDownAlignment, offset: IntOffset)
  {
    /** The same provider built with another user offset. */
    function WithOffset(newOffset: IntOffset): (p: PopupPositionProvider) {
      this.(offset := newOffset)
    }

    /** Where the provider puts the popup's top-left corner, in the
        coordinates of `parentLayoutBounds`, as one closed formula. */
    function Position(
      parentLayoutBounds: IntBounds,
      layoutDirection: LayoutDirection,
      popupSize: IntSize
    ): (r: IntOffset)
      // The popup's alignment point lands on the parent's alignment point,
      // moved by the resolved user offset.
      ensures AlignmentOffsetPositionProvider? ==>
                r.Plus(alignment(popupSize, layoutDirection))
                == parentLayoutBounds.TopLeft()
                   .Plus(alignment(IntSize(parentLayoutBounds.Width(), parentLayoutBounds.Height()), layoutDirection))
                   .Plus(ResolvedOffset(offset, layoutDirection))
      // A dropdown popup starts at the parent's bottom edge, moved only by the
      // user offset, and at the table-chosen edge horizontally.
      ensures DropdownPositionProvider? ==>
                r.Minus(ResolvedOffset(offset, layoutDirection))
                == IntOffset(parentLayoutBounds.left
                               + AlignmentPositionX(dropDownAlignment, layoutDirection, parentLayoutBounds, popupSize),
                             parentLayoutBounds.bottom)
    {
      var factor := DirectionFactor(layoutDirection);
      if AlignmentOffsetPositionProvider? then
        var parentPoint := alignment(IntSize(parentLayoutBounds.Width(), parentLayoutBounds.Height()), layoutDirection);
        var popupPoint := alignment(popupSize, layoutDirection);
        IntOffset(parentLayoutBounds.left + parentPoint.x - popupPoint.x + factor * offset.x,
                  parentLayoutBounds.top + parentPoint.y - popupPoint.y + offset.y)
      else
        IntOffset(parentLayoutBounds.left
                    + AlignmentPositionX(dropDownAlignment, layoutDirection, parentLayoutBounds, popupSize)
                    + factor * offset.x,
                  parentLayoutBounds.top + parentLayoutBounds.Height() + offset.y)
    }

    /** `calculatePosition`: builds the popup's global position step by step
        in a local variable, as each implementation does. */
    method CalculatePosition(
      parentLayoutBounds: IntBounds,
      layoutDirection: LayoutDirection,
      popupSize: IntSize
    ) returns (popupGlobalPosition: IntOffset)
      ensures popupGlobalPosition == Position(parentLayoutBounds, layoutDirection, popupSize)
    {
      popupGlobalPosition := IntOffset(0, 0);
      if AlignmentOffsetPositionProvider? {
        // The aligned point inside the parent, and inside the popup.
        var parentAlignmentPoint :=
          alignment(IntSize(parentLayoutBounds.Width(), parentLayoutBounds.Height()), layoutDirection);
        var relativePopupPos := alignment(IntSize(popupSize.width, popupSize.height), layoutDirection);
        popupGlobalPosition := popupGlobalPosition.Plus(IntOffset(parentLayoutBounds.left, parentLayoutBounds.top));
        popupGlobalPosition := popupGlobalPosition.Plus(parentAlignmentPoint);
        popupGlobalPosition := popupGlobalPosition.Minus(IntOffset(relativePopupPos.x, relativePopupPos.y));
        var resolvedOffset := ResolvedOffset(offset, layoutDirection);
        popupGlobalPosition := popupGlobalPosition.Plus(resolvedOffset);
      } else {
        popupGlobalPosition := popupGlobalPosition.Plus(IntOffset(parentLayoutBounds.left, parentLayoutBounds.top));
        var alignmentPositionX :=
          AlignmentPositionX(dropDownAlignment, layoutDirection, parentLayoutBounds, popupSize);
        // The popup's position relative to the parent's top-left corner.
        var dropdownAlignmentPosition := IntOffset(alignmentPositionX, parentLayoutBounds.Height());
        popupGlobalPosition := popupGlobalPosition.Plus(dropdownAlignmentPosition);
        var resolvedOffset := ResolvedOffset(offset, layoutDirection);
        popupGlobalPosition := popupGlobalPosition.Plus(resolvedOffset);
      }
    }
  }
}
