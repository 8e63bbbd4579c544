/**
  The field layout of the public-variant certificate template: where on page 0
  each value is drawn, in which font size, and whether it is a single line or
  a wrapped box. Declarative data only; `Overlay` reads it.
*/
module Layout {
  import opened Wrappers
  import opened Pdf

  /** An anchor point, a font size, and the box constraints of a wrapped field. */
  datatype Slot = Slot(x: int, y: int, size: nat, wrap: Option<Box>)

  /** The size `draw` uses when its caller gives none. */
  const DefaultSize: nat := 11

  /** The size of the smaller body text. */
  const BodySize: nat := 10

  /** The box every free-text field of the body is flowed into. */
  const TextBox: Box := Box(256, 13)

  const NameHeader: Slot := Slot(420, 494, DefaultSize, None)
  const Days: Slot := Slot(405, 290, DefaultSize, None)
  const Year: Slot := Slot(517, 290, DefaultSize, None)
  const Location: Slot := Slot(385, 163, DefaultSize, None)
  const StampSlot: Slot := Slot(385, 150, DefaultSize, None)
  const NameBody: Slot := Slot(79, 482, BodySize, None)
  const Ministry: Slot := Slot(79, 456, BodySize, Some(TextBox))
  const Rank: Slot := Slot(79, 417, BodySize, None)
  const HomeAddress: Slot := Slot(79, 391, BodySize, Some(TextBox))
  const WorkAddress: Slot := Slot(79, 352, BodySize, Some(TextBox))
  const MobilityYesMark: Slot := Slot(94, 284, DefaultSize, None)
  const MobilityDate: Slot := Slot(230, 284, BodySize, None)
  const MobilityNoMark: Slot := Slot(94, 271, DefaultSize, None)

  /** The text of a check mark. */
  const Mark: string := "x"

  /** `draw(text, x, y, size)` and the wrapped `page.drawText` calls: page 0, the one font, black. */
  function Place(text: string, s: Slot): DrawOp {
    Text(0, text, s.x, s.y, s.size, HelveticaBold, Black, s.wrap)
  }

  predicate AnchoredAt(op: DrawOp, s: Slot) {
    op.x == s.x && op.y == s.y
  }

  /** A draw in either box of the yes/no mobility question. */
  predicate IsCheckMark(op: DrawOp) {
    AnchoredAt(op, MobilityYesMark) || AnchoredAt(op, MobilityNoMark)
  }
}
