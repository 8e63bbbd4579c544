/**
  Text extraction from a rendered overlay: reading back, slot by slot, what
  the renderer drew. `Recover` is the reference reading of the layout; the
  round trip `Recover(Overlay(r, t))` gives back every field of the record
  except the raw mobility answer, plus the date of the stamp. The answer comes
  back as its tagged variant, with the mobility date only on the yes side.
*/
module Extraction {
  import opened Wrappers
  import opened Pdf
  import opened Decimal
  import opened DateStamp
  import opened Renderer
  import L = Layout

  /** The text of the first draw anchored at the slot's point, if any. */
  function TextAt(ops: seq<DrawOp>, s: L.Slot): Option<string> {
    if |ops| == 0 then None
    else if L.AnchoredAt(ops[0], s) then Some(ops[0].text)
    else TextAt(ops[1..], s)
  }

  /** Everything a certificate states, as read back from its draws. */
  datatype Fields = Fields(
    name: string,
    days: int,
    year: int,
    location: string,
    date: (int, int, int),
    ministry: string,
    rank: string,
    homeAddress: string,
    workAddress: string,
    mobility: Mobility)

  /** Exactly one box ticked with "x"; the "yes" box must come with its date. */
  function ReadMobility(ops: seq<DrawOp>): Option<Mobility> {
    match (TextAt(ops, L.MobilityNoMark), TextAt(ops, L.MobilityYesMark))
    case (Some(no), None) => if no == L.Mark then Some(NoMobility) else None
    case (None, Some(yes)) =>
      if yes == L.Mark && TextAt(ops, L.MobilityDate).Some? then Some(Mobility(TextAt(ops, L.MobilityDate).value))
      else None
    case _ => None
  }

  /**
    Reads a certificate back. Fails when a slot is empty, when the two name
    draws disagree, when a number or the stamp is not a canonical numeral, or
    when the mobility boxes are not ticked exactly once.
  */
  function Recover(ops: seq<DrawOp>): Option<Fields> {
    var name :- TextAt(ops, L.NameHeader);
    var nameAgain :- TextAt(ops, L.NameBody);
    var daysText :- TextAt(ops, L.Days);
    var days :- ParseInt(daysText);
    var yearText :- TextAt(ops, L.Year);
    var year :- ParseInt(yearText);
    var location :- TextAt(ops, L.Location);
    var stampText :- TextAt(ops, L.StampSlot);
    var date :- ParseStamp(stampText);
    var ministry :- TextAt(ops, L.Ministry);
    var rank :- TextAt(ops, L.Rank);
    var home :- TextAt(ops, L.HomeAddress);
    var work :- TextAt(ops, L.WorkAddress);
    var mobility :- ReadMobility(ops);
    if name == nameAgain then Some(Fields(name, days, year, location, date, ministry, rank, home, work, mobility))
    else None
  }

  /** No two draws share an anchor point. */
  predicate DistinctAnchors(ops: seq<DrawOp>) {
    forall i, j :: 0 <= i < j < |ops| ==> !(ops[i].x == ops[j].x && ops[i].y == ops[j].y)
  }

  /** Where anchors are distinct, the text at a slot is that of the one draw anchored there. */
  lemma {:induction false} TextAtUnique(ops: seq<DrawOp>, i: nat, s: L.Slot)
    requires DistinctAnchors(ops)
    requires i < |ops| && L.AnchoredAt(ops[i], s)
    ensures TextAt(ops, s) == Some(ops[i].text)
    decreases i
  {
    if i > 0 {
      assert !L.AnchoredAt(ops[0], s) by {
        assert !(ops[0].x == ops[i].x && ops[0].y == ops[i].y);
      }
      var rest := ops[1..];
      assert DistinctAnchors(rest) by {
        forall a, b | 0 <= a < b < |rest|
          ensures !(rest[a].x == rest[b].x && rest[a].y == rest[b].y)
        {
          assert rest[a] == ops[a + 1] && rest[b] == ops[b + 1];
        }
      }
      TextAtUnique(rest, i - 1, s);
    }
  }

  /** A slot no draw is anchored at reads as nothing. */
  lemma {:induction false} TextAtAbsent(ops: seq<DrawOp>, s: L.Slot)
    requires forall i :: 0 <= i < |ops| ==> !L.AnchoredAt(ops[i], s)
    ensures TextAt(ops, s) == None
    decreases |ops|
  {
    if |ops| > 0 {
      assert !L.AnchoredAt(ops[0], s);
      var rest := ops[1..];
      assert forall i :: 0 <= i < |rest| ==> rest[i] == ops[i + 1];
      TextAtAbsent(rest, s);
    }
  }

  lemma {:induction false} DistinctAnchorsAppend(a: seq<DrawOp>, b: seq<DrawOp>)
    requires DistinctAnchors(a) && DistinctAnchors(b)
    requires forall op, op' :: op in a && op' in b ==> op.x != op'.x
    ensures DistinctAnchors(a + b)
  {
    var c := a + b;
    forall i, j | 0 <= i < j < |c|
      ensures !(c[i].x == c[j].x && c[i].y == c[j].y)
    {
      if j < |a| {
        assert c[i] == a[i] && c[j] == a[j];
      } else if i >= |a| {
        assert c[i] == b[i - |a|] && c[j] == b[j - |a|];
      } else {
        assert c[i] == a[i] && c[j] == b[j - |a|];
        assert a[i] in a && b[j - |a|] in b;
      }
    }
  }

  lemma FixedAnchorsDistinct(r: Record, t: Today)
    ensures DistinctAnchors(FixedOps(r, t))
  {
  }

  /** Every draw of a render sits at its own anchor point. */
  lemma OverlayAnchorsDistinct(r: Record, t: Today)
    ensures DistinctAnchors(Overlay(r, t))
  {
    var f, m := FixedOps(r, t), MobilityOps(r);
    FixedAnchorsDistinct(r, t);
    FixedOpsOffQuestion(r, t);
    assert forall op :: op in m ==> op.x == 94 || op.x == 230 by {
      if r.mobility != "no" {
        assert m == [L.Place(L.Mark, L.MobilityYesMark), L.Place(r.mobilityDate, L.MobilityDate)];
      } else {
        assert m == [L.Place(L.Mark, L.MobilityNoMark)];
      }
    }
    DistinctAnchorsAppend(f, m);
    assert f + m == Overlay(r, t);
  }

  /** Each draw of a render is what its anchor point reads as. */
  lemma TextAtOverlay(r: Record, t: Today, k: nat, s: L.Slot)
    requires k < |Overlay(r, t)| && L.AnchoredAt(Overlay(r, t)[k], s)
    ensures TextAt(Overlay(r, t), s) == Some(Overlay(r, t)[k].text)
  {
    OverlayAnchorsDistinct(r, t);
    TextAtUnique(Overlay(r, t), k, s);
  }

  /** The header lines of a render (name, days, year, place and date) read back as drawn. */
  lemma TextsOfHeader(r: Record, t: Today)
    ensures var ops := Overlay(r, t);
      && TextAt(ops, L.NameHeader) == Some(r.name)
      && TextAt(ops, L.Days) == Some(IntToDecimal(r.days))
      && TextAt(ops, L.Year) == Some(IntToDecimal(r.year))
      && TextAt(ops, L.Location) == Some(r.location)
      && TextAt(ops, L.StampSlot) == Some(Stamp(t))
  {
    var ops := Overlay(r, t);
    assert TextAt(ops, L.NameHeader) == Some(r.name) by {
      TextAtOverlay(r, t, 0, L.NameHeader);
    }
    assert TextAt(ops, L.Days) == Some(IntToDecimal(r.days)) by {
      TextAtOverlay(r, t, 1, L.Days);
    }
    assert TextAt(ops, L.Year) == Some(IntToDecimal(r.year)) by {
      TextAtOverlay(r, t, 2, L.Year);
    }
    assert TextAt(ops, L.Location) == Some(r.location) by {
      TextAtOverlay(r, t, 3, L.Location);
    }
    assert TextAt(ops, L.StampSlot) == Some(Stamp(t)) by {
      TextAtOverlay(r, t, 4, L.StampSlot);
    }
  }

  /** The body lines of a render (name, ministry, rank and the two addresses) read back as drawn. */
  lemma TextsOfBody(r: Record, t: Today)
    ensures var ops := Overlay(r, t);
      && TextAt(ops, L.NameBody) == Some(r.name)
      && TextAt(ops, L.Ministry) == Some(r.ministry)
      && TextAt(ops, L.Rank) == Some(r.rank)
      && TextAt(ops, L.HomeAddress) == Some(r.homeAddress)
      && TextAt(ops, L.WorkAddress) == Some(r.workAddress)
  {
    var ops := Overlay(r, t);
    assert TextAt(ops, L.NameBody) == Some(r.name) by {
      TextAtOverlay(r, t, 5, L.NameBody);
    }
    assert TextAt(ops, L.Ministry) == Some(r.ministry) by {
      TextAtOverlay(r, t, 6, L.Ministry);
    }
    assert TextAt(ops, L.Rank) == Some(r.rank) by {
      TextAtOverlay(r, t, 7, L.Rank);
    }
    assert TextAt(ops, L.HomeAddress) == Some(r.homeAddress) by {
      TextAtOverlay(r, t, 8, L.HomeAddress);
    }
    assert TextAt(ops, L.WorkAddress) == Some(r.workAddress) by {
      TextAtOverlay(r, t, 9, L.WorkAddress);
    }
  }

  /** The text read at each slot of a render is the value drawn there. */
  lemma TextsOfOverlay(r: Record, t: Today)
    ensures var ops := Overlay(r, t);
      && TextAt(ops, L.NameHeader) == Some(r.name)
      && TextAt(ops, L.Days) == Some(IntToDecimal(r.days))
      && TextAt(ops, L.Year) == Some(IntToDecimal(r.year))
      && TextAt(ops, L.Location) == Some(r.location)
      && TextAt(ops, L.StampSlot) == Some(Stamp(t))
      && TextAt(ops, L.NameBody) == Some(r.name)
      && TextAt(ops, L.Ministry) == Some(r.ministry)
      && TextAt(ops, L.Rank) == Some(r.rank)
      && TextAt(ops, L.HomeAddress) == Some(r.homeAddress)
      && TextAt(ops, L.WorkAddress) == Some(r.workAddress)
  {
    TextsOfHeader(r, t);
    TextsOfBody(r, t);
  }

  /** The ticked box of a render reads back as the normalised answer. */
  lemma MobilityOfOverlay(r: Record, t: Today)
    ensures ReadMobility(Overlay(r, t)) == Some(Normalize(r))
  {
    var ops := Overlay(r, t);
    if r.mobility == "no" {
      TextAtOverlay(r, t, 10, L.MobilityNoMark);
      assert forall i :: 0 <= i < |ops| ==> !L.AnchoredAt(ops[i], L.MobilityYesMark) by {
        MobilityNoBranch(r, t);
        forall i | 0 <= i < |ops| ensures !L.AnchoredAt(ops[i], L.MobilityYesMark) {
          assert ops[i] in ops;
        }
      }
      TextAtAbsent(ops, L.MobilityYesMark);
    } else {
      TextAtOverlay(r, t, 10, L.MobilityYesMark);
      TextAtOverlay(r, t, 11, L.MobilityDate);
      assert forall i :: 0 <= i < |ops| ==> !L.AnchoredAt(ops[i], L.MobilityNoMark) by {
        MobilityYesBranch(r, t);
        forall i | 0 <= i < |ops| ensures !L.AnchoredAt(ops[i], L.MobilityNoMark) {
          assert ops[i] in ops;
        }
      }
      TextAtAbsent(ops, L.MobilityNoMark);
    }
  }

  /** Reading back a render recovers every field but the raw mobility answer, the stamped date, and the normalised answer. */
  lemma RecoverOverlay(r: Record, t: Today)
    ensures Recover(Overlay(r, t)) == Some(Fields(
      r.name, r.days, r.year, r.location, (t.day, t.month0 + 1, t.year),
      r.ministry, r.rank, r.homeAddress, r.workAddress, Normalize(r)))
  {
    TextsOfOverlay(r, t);
    MobilityOfOverlay(r, t);
    ParseIntOfDecimal(r.days);
    ParseIntOfDecimal(r.year);
    ParseStampOfStamp(t);
  }
}
