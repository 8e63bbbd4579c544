/**
  The overlay renderer of the public variant: a certificate record and the
  current date become the ordered list of text draws onto page 0 of the
  template, in the order the generator issues them.
*/
module Renderer {
  import opened Wrappers
  import opened Pdf
  import opened Decimal
  import opened DateStamp
  import L = Layout

  /** The submitted public-variant profile. Every field is drawn, whatever its content. */
  datatype Record = Record(
    name: string,
    days: int,
    year: int,
    location: string,
    ministry: string,
    rank: string,
    homeAddress: string,
    workAddress: string,
    mobility: string,
    mobilityDate: string)

  /** The mobility answer as a tagged variant: the form's sentinel "no", or yes with its date. */
  datatype Mobility = NoMobility | Mobility(date: string)

  /** Reads the answer the way the renderer branches on it: only the exact string "no" means no. */
  function Normalize(r: Record): Mobility {
    if r.mobility != "no" then Mobility(r.mobilityDate) else NoMobility
  }

  /** The draws that do not depend on the mobility answer. */
  function FixedOps(r: Record, t: Today): (ops: seq<DrawOp>)
    ensures |ops| == 10
    ensures forall op :: op in ops ==> Conforms(op)
  {
    var ops := [
      L.Place(r.name, L.NameHeader),
      L.Place(IntToDecimal(r.days), L.Days),
      L.Place(IntToDecimal(r.year), L.Year),
      L.Place(r.location, L.Location),
      L.Place(Stamp(t), L.StampSlot),
      L.Place(r.name, L.NameBody),
      L.Place(r.ministry, L.Ministry),
      L.Place(r.rank, L.Rank),
      L.Place(r.homeAddress, L.HomeAddress),
      L.Place(r.workAddress, L.WorkAddress)];
    assert Conforms(ops[0]) && Conforms(ops[1]) && Conforms(ops[2]) && Conforms(ops[3]) && Conforms(ops[4]);
    assert Conforms(ops[5]) && Conforms(ops[6]) && Conforms(ops[7]) && Conforms(ops[8]) && Conforms(ops[9]);
    ops
  }

  /** The yes/no check: the "yes" mark plus the date, or the "no" mark alone. */
  function MobilityOps(r: Record): (ops: seq<DrawOp>)
    ensures |ops| == if r.mobility == "no" then 1 else 2
    ensures forall op :: op in ops ==> Conforms(op)
  {
    if r.mobility != "no" then
      [L.Place(L.Mark, L.MobilityYesMark), L.Place(r.mobilityDate, L.MobilityDate)]
    else
      [L.Place(L.Mark, L.MobilityNoMark)]
  }

  /**
    What every draw of the public certificate looks like: page 0, the one font,
    black, size 10 or 11, and a wrapped box (256 wide, 13 between lines, size 10)
    exactly for the three free-text fields of the body at x = 79, y = 456, 391, 352.
  */
  predicate Conforms(op: DrawOp) {
    && op.page == 0 && op.font == HelveticaBold && op.color == Black
    && (op.size == 10 || op.size == 11)
    && (op.wrap.Some? <==> op.x == 79 && (op.y == 456 || op.y == 391 || op.y == 352))
    && (op.wrap.Some? ==> op.wrap == Some(Box(256, 13)) && op.size == 10)
  }

  /** Every draw of one render, in issue order. */
  function Overlay(r: Record, t: Today): (ops: seq<DrawOp>)
    ensures |ops| == if r.mobility == "no" then 11 else 12
    ensures forall op :: op in ops ==> Conforms(op)
    ensures forall i :: 0 <= i < |ops| ==> ops[i].page == 0
  {
    FixedOps(r, t) + MobilityOps(r)
  }

  /** The renderer's branch on the raw answer string draws exactly what the tagged answer says. */
  lemma MobilityOpsOfNormalize(r: Record)
    ensures MobilityOps(r) == match Normalize(r)
      case NoMobility => [L.Place(L.Mark, L.MobilityNoMark)]
      case Mobility(d) => [L.Place(L.Mark, L.MobilityYesMark), L.Place(d, L.MobilityDate)]
  {
  }

  /** The draws that fall in either box of the mobility question, in order. */
  function CheckMarks(ops: seq<DrawOp>): (marks: seq<DrawOp>)
    ensures forall op :: op in marks ==> op in ops && L.IsCheckMark(op)
    ensures forall i :: 0 <= i < |ops| && L.IsCheckMark(ops[i]) ==> ops[i] in marks
    ensures |marks| <= |ops|
  {
    if |ops| == 0 then []
    else (if L.IsCheckMark(ops[0]) then [ops[0]] else []) + CheckMarks(ops[1..])
  }

  lemma {:induction false} CheckMarksAppend(a: seq<DrawOp>, b: seq<DrawOp>)
    ensures CheckMarks(a + b) == CheckMarks(a) + CheckMarks(b)
    decreases |a|
  {
    if |a| == 0 {
      assert a + b == b;
    } else {
      assert (a + b)[0] == a[0];
      assert (a + b)[1..] == a[1..] + b;
      CheckMarksAppend(a[1..], b);
    }
  }

  lemma {:induction false} CheckMarksNone(ops: seq<DrawOp>)
    requires forall op :: op in ops ==> !L.IsCheckMark(op)
    ensures CheckMarks(ops) == []
    decreases |ops|
  {
    if |ops| > 0 {
      assert ops[0] in ops;
      assert forall op :: op in ops[1..] ==> op in ops;
      CheckMarksNone(ops[1..]);
    }
  }

  /** Mobility "no": the "no" box is ticked, and neither the "yes" box nor the date is drawn; the date is ignored. */
  lemma MobilityNoBranch(r: Record, t: Today)
    requires r.mobility == "no"
    ensures Text(0, "x", 94, 271, 11, HelveticaBold, Black, None) in Overlay(r, t)
    ensures forall op :: op in Overlay(r, t) ==> !(op.x == 94 && op.y == 284) && !(op.x == 230 && op.y == 284)
    ensures forall d :: Overlay(r.(mobilityDate := d), t) == Overlay(r, t)
  {
    var f, m := FixedOps(r, t), MobilityOps(r);
    assert Overlay(r, t)[10] == L.Place(L.Mark, L.MobilityNoMark);
    forall op | op in Overlay(r, t)
      ensures !(op.x == 94 && op.y == 284) && !(op.x == 230 && op.y == 284)
    {
      FixedOpsOffQuestion(r, t);
      assert op in f || op in m;
    }
    forall d ensures Overlay(r.(mobilityDate := d), t) == Overlay(r, t) {
      assert FixedOps(r.(mobilityDate := d), t) == f;
    }
  }

  /** Any other answer: the "yes" box is ticked and the date is drawn beside it, even when empty; the "no" box is not. */
  lemma MobilityYesBranch(r: Record, t: Today)
    requires r.mobility != "no"
    ensures Text(0, "x", 94, 284, 11, HelveticaBold, Black, None) in Overlay(r, t)
    ensures Text(0, r.mobilityDate, 230, 284, 10, HelveticaBold, Black, None) in Overlay(r, t)
    ensures forall op :: op in Overlay(r, t) ==> !(op.x == 94 && op.y == 271)
  {
    var f, m := FixedOps(r, t), MobilityOps(r);
    assert Overlay(r, t)[10] == L.Place(L.Mark, L.MobilityYesMark);
    assert Overlay(r, t)[11] == L.Place(r.mobilityDate, L.MobilityDate);
    forall op | op in Overlay(r, t) ensures !(op.x == 94 && op.y == 271) {
      FixedOpsOffQuestion(r, t);
      assert op in f || op in m;
    }
  }

  /** None of the draws before the question is in the columns of its boxes or of its date. */
  lemma FixedOpsOffQuestion(r: Record, t: Today)
    ensures forall op :: op in FixedOps(r, t) ==> op.x != 94 && op.x != 230
  {
  }

  lemma FixedOpsHaveNoCheckMark(r: Record, t: Today)
    ensures CheckMarks(FixedOps(r, t)) == []
  {
    CheckMarksNone(FixedOps(r, t));
  }

  lemma CheckMarksOfMobilityOps(r: Record)
    ensures CheckMarks(MobilityOps(r)) == [L.Place(L.Mark, if r.mobility == "no" then L.MobilityNoMark else L.MobilityYesMark)]
  {
    var m := MobilityOps(r);
    if r.mobility != "no" {
      assert m[1..] == [L.Place(r.mobilityDate, L.MobilityDate)];
      assert m[1..][1..] == [];
    } else {
      assert m[1..] == [];
    }
  }

  /** Whatever the record, exactly one box of the question is drawn in, with an "x", and it is the "no" box iff the answer is "no". */
  lemma ExactlyOneCheckMark(r: Record, t: Today)
    ensures CheckMarks(Overlay(r, t)) == [Text(0, "x", 94, if r.mobility == "no" then 271 else 284, 11, HelveticaBold, Black, None)]
  {
    CheckMarksAppend(FixedOps(r, t), MobilityOps(r));
    FixedOpsHaveNoCheckMark(r, t);
    CheckMarksOfMobilityOps(r);
    assert FixedOps(r, t) + MobilityOps(r) == Overlay(r, t);
  }

  /** The date stamp is drawn at (385, 150) in size 11, and it is the same draw for every record. */
  lemma StampPlacement(r: Record, r': Record, t: Today)
    ensures Text(0, Stamp(t), 385, 150, 11, HelveticaBold, Black, None) in Overlay(r, t)
    ensures Overlay(r, t)[4] == Overlay(r', t)[4]
  {
  }

  /** The clock only reaches the stamp: two renders of one record on different days differ in that draw alone. */
  lemma ClockOnlyAffectsStamp(r: Record, t: Today, t': Today)
    ensures |Overlay(r, t)| == |Overlay(r, t')|
    ensures forall i :: 0 <= i < |Overlay(r, t)| && i != 4 ==> Overlay(r, t)[i] == Overlay(r, t')[i]
    ensures Overlay(r, t')[4].text == Stamp(t')
  {
  }

  /** The name is drawn exactly twice: at (420, 494) in size 11 and at (79, 482) in size 10; no other draw depends on it. */
  lemma NameDrawnTwice(r: Record, t: Today, n: string)
    ensures var a, b := Overlay(r, t), Overlay(r.(name := n), t);
      && |a| == |b|
      && (forall i :: 0 <= i < |a| && i != 0 && i != 5 ==> a[i] == b[i])
      && b[0] == Text(0, n, 420, 494, 11, HelveticaBold, Black, None)
      && b[5] == Text(0, n, 79, 482, 10, HelveticaBold, Black, None)
  {
  }

  /** Days and year are drawn as plain decimal numerals on the baseline y = 290, at x = 405 and x = 517. */
  lemma NumbersOnBaseline(r: Record, t: Today)
    ensures Text(0, IntToDecimal(r.days), 405, 290, 11, HelveticaBold, Black, None) in Overlay(r, t)
    ensures Text(0, IntToDecimal(r.year), 517, 290, 11, HelveticaBold, Black, None) in Overlay(r, t)
  {
  }

  /** Ministry, home address and work address are flowed into 256-wide boxes at x = 79; location and rank are single lines. */
  lemma FreeTextPlacement(r: Record, t: Today)
    ensures Text(0, r.ministry, 79, 456, 10, HelveticaBold, Black, Some(Box(256, 13))) in Overlay(r, t)
    ensures Text(0, r.homeAddress, 79, 391, 10, HelveticaBold, Black, Some(Box(256, 13))) in Overlay(r, t)
    ensures Text(0, r.workAddress, 79, 352, 10, HelveticaBold, Black, Some(Box(256, 13))) in Overlay(r, t)
    ensures Text(0, r.location, 385, 163, 11, HelveticaBold, Black, None) in Overlay(r, t)
    ensures Text(0, r.rank, 79, 417, 10, HelveticaBold, Black, None) in Overlay(r, t)
  {
  }
}
