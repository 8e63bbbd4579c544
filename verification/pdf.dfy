/**
  The slice of the PDF document library the generator drives, as values: a
  text-draw operation, the document information dictionary, a document, and
  the library calls the generator makes, with an interpreter `Run` that applies
  them in order and stops at the first failing call.

  Decoding and encoding bytes are not modelled: a loaded document is a
  `Document` value, and saving takes a snapshot of it.
*/
module Pdf {
  import opened Wrappers

  /** The one embedded standard font. */
  datatype Font = HelveticaBold

  /** The one fill colour, `rgb(0, 0, 0)`. */
  datatype Color = Black

  /** Wrapped-box constraints: lines are flowed within `maxWidth`, `lineHeight` apart. */
  datatype Box = Box(maxWidth: nat, lineHeight: nat)

  /** One `page.drawText(text, options)` call; `wrap` is `None` for single-line text. */
  datatype DrawOp = Text(page: nat, text: string, x: int, y: int, size: nat, font: Font, color: Color, wrap: Option<Box>)

  /** The document information dictionary; `None` means the entry is left as the template had it. */
  datatype Info = Info(
    title: Option<string>,
    subject: Option<string>,
    keywords: Option<seq<string>>,
    producer: Option<string>,
    creator: Option<string>,
    author: Option<string>)

  /** A loaded document: its page count, the text drawn onto it so far, and its information dictionary. */
  datatype Document = Document(pageCount: nat, drawn: seq<DrawOp>, info: Info)

  /** The document-library calls, in the form the generator issues them. */
  datatype Step =
    | EmbedFont(font: Font)
    | GetPage(index: nat)
    | Draw(op: DrawOp)
    | SetTitle(title: string)
    | SetSubject(subject: string)
    | SetKeywords(keywords: seq<string>)
    | SetProducer(producer: string)
    | SetCreator(creator: string)
    | SetAuthor(author: string)
    | Save

  /** Why a generation stops: the template could not be loaded, or a page it lacks was asked for. */
  datatype Error =
    | LoadFailed
    | PageOutOfRange(index: nat, pageCount: nat)

  /** A document being worked on, and the snapshot taken by the last `Save`, if any. */
  datatype Session = Session(doc: Document, saved: Option<Document>)

  /** Applies one call. Only `GetPage` can fail: the page must exist. */
  function Exec(s: Session, step: Step): Result<Session, Error> {
    var d := s.doc;
    match step
    case EmbedFont(_) => Success(s)
    case GetPage(i) => if i < d.pageCount then Success(s) else Failure(PageOutOfRange(i, d.pageCount))
    case Draw(op) => Success(s.(doc := d.(drawn := d.drawn + [op])))
    case SetTitle(v) => Success(s.(doc := d.(info := d.info.(title := Some(v)))))
    case SetSubject(v) => Success(s.(doc := d.(info := d.info.(subject := Some(v)))))
    case SetKeywords(v) => Success(s.(doc := d.(info := d.info.(keywords := Some(v)))))
    case SetProducer(v) => Success(s.(doc := d.(info := d.info.(producer := Some(v)))))
    case SetCreator(v) => Success(s.(doc := d.(info := d.info.(creator := Some(v)))))
    case SetAuthor(v) => Success(s.(doc := d.(info := d.info.(author := Some(v)))))
    case Save => Success(s.(saved := Some(d)))
  }

  /** Only `GetPage` can fail, and only past the last page; only `Save` touches the snapshot, only `Draw` the drawn text. */
  lemma ExecFrame(s: Session, step: Step)
    ensures Exec(s, step).Failure? <==> step.GetPage? && step.index >= s.doc.pageCount
    ensures Exec(s, step).Success? ==> Exec(s, step).value.doc.pageCount == s.doc.pageCount
    ensures Exec(s, step).Success? && !step.Save? ==> Exec(s, step).value.saved == s.saved
    ensures Exec(s, step).Success? && step.Save? ==> Exec(s, step).value.saved == Some(s.doc)
    ensures Exec(s, step).Success? && !step.Draw? ==> Exec(s, step).value.doc.drawn == s.doc.drawn
  {
  }

  /** Applies the calls in order; the first failure aborts the rest. */
  function Run(s: Session, steps: seq<Step>): Result<Session, Error>
    decreases |steps|
  {
    if |steps| == 0 then Success(s)
    else
      var s' :- Exec(s, steps[0]);
      Run(s', steps[1..])
  }

  /** Running two call sequences back to back is running the first, then the second from where it left off. */
  lemma {:induction false} RunAppend(s: Session, a: seq<Step>, b: seq<Step>)
    ensures Run(s, a + b) == (match Run(s, a) case Success(s') => Run(s', b) case Failure(e) => Failure(e))
    decreases |a|
  {
    if |a| > 0 {
      assert (a + b)[0] == a[0];
      assert (a + b)[1..] == a[1..] + b;
      match Exec(s, a[0])
      case Success(s') => RunAppend(s', a[1..], b);
      case Failure(_) =>
    } else {
      assert a + b == b;
    }
  }

  /** A call that succeeds hands its session on to the calls after it. */
  lemma RunCons(s: Session, step: Step, rest: seq<Step>)
    requires Exec(s, step).Success?
    ensures Run(s, [step] + rest) == Run(Exec(s, step).value, rest)
  {
    assert ([step] + rest)[1..] == rest;
  }

  /** The draw calls for a list of operations, in list order. */
  function Draws(ops: seq<DrawOp>): seq<Step> {
    seq(|ops|, i requires 0 <= i < |ops| => Draw(ops[i]))
  }

  /** Drawing a list of operations appends exactly those operations, in order, and changes nothing else. */
  lemma {:induction false} RunDraws(s: Session, ops: seq<DrawOp>)
    ensures Run(s, Draws(ops)) == Success(s.(doc := s.doc.(drawn := s.doc.drawn + ops)))
    decreases |ops|
  {
    if |ops| > 0 {
      var s' := s.(doc := s.doc.(drawn := s.doc.drawn + [ops[0]]));
      assert Draws(ops)[1..] == Draws(ops[1..]);
      RunDraws(s', ops[1..]);
      assert s.doc.drawn + [ops[0]] + ops[1..] == s.doc.drawn + ops;
    } else {
      assert s.doc.drawn + ops == s.doc.drawn;
    }
  }
}
