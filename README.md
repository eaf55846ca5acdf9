# Popup placement

A model of how the UI toolkit decides where a popup goes on screen. A
*position provider* gets three things: the bounds of the popup's parent
layout, the layout direction (Ltr or Rtl) and the measured size of the
popup. It returns the offset of the popup's top-left corner. There are two
providers, and each holds two fields fixed when it is built.

- **Alignment provider** (`AlignmentOffsetPositionProvider`): an alignment and
  a user offset. It places the popup so that the popup's alignment point lands
  on the parent's alignment point.
- **Dropdown provider** (`DropdownPositionProvider`): a start/end edge choice
  and a user offset. It places the popup directly below the parent, snapped to
  one of the parent's horizontal edges. The edge depends on both the choice and
  the direction.

Both providers then add the user offset. Its x is added in Ltr and subtracted
in Rtl, and its y is always added.

Files:

- `geometry.dfy` (module `Geometry`): offsets, sizes, bounds and the layout
  direction, as integer records. A parent's width is `right - left` and its
  height is `bottom - top`.
- `popup.dfy` (module `Popup`):
  - the alignment, modelled as an arbitrary function
    `(IntSize, LayoutDirection) -> IntOffset`;
  - the direction-resolved offset and the dropdown edge table;
  - the provider contract, a datatype with one variant per implementation.
    `Position` gives each variant's closed-form result. `CalculatePosition`
    builds the result step by step in a local variable, as the source does,
    and is proved equal to `Position`.
- `popup_properties.dfy` (module `PopupProperties`): lemmas that relate
  several calls: offset, translation, size, mirroring and examples.

Neither provider checks its inputs. Negative sizes and inverted bounds are
accepted and computed with the same formulas, so the model has no
preconditions on them. No clamping to the screen is done: a popup may be
placed partly or wholly off screen.

## Model

| member | source | states |
|---|---|---|
| `Popup.ResolvedOffset` | ui/ui-core/src/commonMain/kotlin/androidx/ui/core/Popup.kt:195-198 | The resolved offset keeps y. In Ltr it is the user offset itself. In Rtl its x is the negated user x. |
| `Popup.AlignmentPositionX` | ui/ui-core/src/commonMain/kotlin/androidx/ui/core/Popup.kt:219-238 | The dropdown's horizontal shift puts the popup's left edge on the parent's left edge (Start, Ltr) or right edge (End, Ltr). It puts the popup's right edge on the parent's right edge (Start, Rtl) or left edge (End, Rtl). |
| `Popup.PopupPositionProvider.Position` | ui/ui-core/src/commonMain/kotlin/androidx/ui/core/Popup.kt:172-250 | Alignment provider: the popup's alignment point plus the popup's position equals the parent's alignment point in global coordinates, moved by the resolved offset. Dropdown provider: removing the resolved offset leaves the popup at the parent's bottom edge, at the table-chosen x. |
| `Popup.PopupPositionProvider.CalculatePosition` | ui/ui-core/src/commonMain/kotlin/androidx/ui/core/Popup.kt:166-253 | The step-by-step accumulation in `popupGlobalPosition` returns exactly the closed-form position, for both providers. |
| `PopupProperties.ResolvedOffsetInvolutive` | ui/ui-core/src/commonMain/kotlin/androidx/ui/core/Popup.kt:195-198 | Resolving an offset twice for the same direction gives the original offset back. |
| `PopupProperties.OffsetMovesPosition` | ui/ui-core/src/commonMain/kotlin/androidx/ui/core/Popup.kt:39-41 | For either provider, changing the offset by (dx, dy) moves the popup by (dx, dy) in Ltr and by (-dx, dy) in Rtl. |
| `PopupProperties.OffsetReachesEveryPosition` | ui/ui-core/src/commonMain/kotlin/androidx/ui/core/Popup.kt:195-199 | For either provider, every target position is produced by some user offset. |
| `PopupProperties.OffsetDeterminesPosition` | ui/ui-core/src/commonMain/kotlin/androidx/ui/core/Popup.kt:246-250 | For either provider, two offsets that give the same position are equal. |
| `PopupProperties.TranslationCovariance` | ui/ui-core/src/commonMain/kotlin/androidx/ui/core/Popup.kt:172-250 | For either provider, shifting the parent's bounds by (dx, dy) without resizing them shifts the result by exactly (dx, dy). |
| `PopupProperties.AlignedSameSizeAsParent` | ui/ui-core/src/commonMain/kotlin/androidx/ui/core/Popup.kt:175-192 | A popup the size of its parent sits at the parent's top-left corner plus the resolved offset, for any alignment. |
| `PopupProperties.TopStartInLtr` | ui/ui-core/src/commonMain/kotlin/androidx/ui/core/Popup.kt:175-199 | Take an alignment that picks the top-left corner of every box in Ltr. Then the Ltr popup sits at the parent's top-left corner plus the offset, whatever its size. |
| `PopupProperties.AlignedRtlMirrorsLtr` | ui/ui-core/src/commonMain/kotlin/androidx/ui/core/Popup.kt:175-199 | Take an alignment whose Rtl point mirrors its Ltr point. Then the Rtl popup is the Ltr popup mirrored about the parent's vertical centre line, with the same y. |
| `PopupProperties.AlignedCentreExample` | ui/ui-core/src/commonMain/kotlin/androidx/ui/core/Popup.kt:175-192 | Take an alignment that picks the centres (50, 25) and (20, 5). Then a 40x10 popup on the 100x50 parent at (10, 20) goes to (40, 40). |
| `PopupProperties.DropdownHorizontal` | ui/ui-core/src/commonMain/kotlin/androidx/ui/core/Popup.kt:225-250 | Dropdown x is `left + offset.x` (Start, Ltr), `left + width - popupWidth - offset.x` (Start, Rtl), `left + width + offset.x` (End, Ltr) or `left - popupWidth - offset.x` (End, Rtl). |
| `PopupProperties.DropdownEdgeCoincidence` | ui/ui-core/src/commonMain/kotlin/androidx/ui/core/Popup.kt:219-241 | With zero offset, the four edge coincidences hold: left on left (Start, Ltr), right on right (Start, Rtl), left on right (End, Ltr) and right on left (End, Rtl). The popup's top is the parent's bottom. |
| `PopupProperties.DropdownBelowParent` | ui/ui-core/src/commonMain/kotlin/androidx/ui/core/Popup.kt:241-250 | Dropdown y is `top + height + offset.y`. With a non-negative offset y, the popup is never above the parent's bottom edge. |
| `PopupProperties.DropdownVerticalIndependent` | ui/ui-core/src/commonMain/kotlin/androidx/ui/core/Popup.kt:241-243 | Dropdown y is the same for any edge choice, any direction and any popup size. |
| `PopupProperties.DropdownIgnoresPopupHeight` | ui/ui-core/src/commonMain/kotlin/androidx/ui/core/Popup.kt:225-241 | The dropdown result is the same for two popup sizes of equal width. In Ltr it is the same for any two popup sizes. |
| `PopupProperties.DropdownRtlMirrorsLtr` | ui/ui-core/src/commonMain/kotlin/androidx/ui/core/Popup.kt:219-250 | The Rtl dropdown position is the Ltr one mirrored about the parent's vertical centre line, with the same y. The offset is included. |
| `PopupProperties.DropdownStartRtlExample` | ui/ui-core/src/commonMain/kotlin/androidx/ui/core/Popup.kt:225-250 | A 40x10 popup at the start edge of the 100x50 parent at (10, 20), in Rtl with offset (5, 0), goes to (65, 70). |
| `PopupProperties.DropdownEndLtrExample` | ui/ui-core/src/commonMain/kotlin/androidx/ui/core/Popup.kt:225-250 | The same popup at the end edge, in Ltr with no offset, goes to (110, 70). |

## Left out

- `Alignment.align` is not part of this model. It is an arbitrary function, so no proved property depends on its rounding. Lemmas about particular alignments (top-start, mirror-symmetric, centred) take their behaviour as hypotheses.
- `IntBounds.width`/`height` and `IntOffset` arithmetic are not part of this model. They are plain integer records with `width = right - left`, `height = bottom - top` and component-wise `+`/`-`.
- Kotlin `Int` wraps at 32 bits. The model uses unbounded integers, so results that would overflow are not modelled.
- The composables `Popup`, `DropdownPopup` and `Popup(popupPositionProvider, ...)`, and the platform `ActualPopup`, are left out. They are UI composition and window plumbing, and their only logic is caching the providers with `remember`.
- `PopupTestTagAmbient`/`PopupTestTag` are left out. They pass a test tag and compute nothing.
- `PopupPositionProperties` is left out. It is a mutable holder read by platform code that is not part of this model.
- Focus handling and `onDismissRequest` are left out. They are event dispatch and lifecycle.
- The `PopupPositionProvider` interface is open in Kotlin. Here it is closed over its two implementations, the only ones in the core.
