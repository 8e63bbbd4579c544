/**
  The public-variant certificate generator: from a loaded template, a record
  and today's date, the script of document-library calls it issues (embed the
  font, take page 0, draw every field, set the information dictionary, save),
  and the document that script saves.

  Fetching the template, decoding its bytes, encoding the result and handing
  it to the download are not modelled; a failed load is passed in as a
  `Failure(LoadFailed)` and propagates unchanged.
*/
module Generator {
  import opened Wrappers
  import opened Pdf
  import opened DateStamp
  import opened Renderer

  const Title: string := "Attestation sur l'honneur de déplacement en vélo"
  const Keywords: seq<string> := ["attestation", "vélo"]
  const Producer: string := "beta.gouv"
  const Author: string := "Ministère de la Transition écologique"

  /** Embedding the font and taking the first page of the template. */
  const OpeningSteps: seq<Step> := [EmbedFont(HelveticaBold), GetPage(0)]

  /** The information-dictionary setters, the creator cleared, then the save. */
  const ClosingSteps: seq<Step> :=
    [SetTitle(Title), SetSubject(Title), SetKeywords(Keywords), SetProducer(Producer), SetCreator(""), SetAuthor(Author), Save]

  /** The information dictionary every generated certificate carries. */
  const PublicInfo: Info := Info(Some(Title), Some(Title), Some(Keywords), Some(Producer), Some(""), Some(Author))

  /** The calls of one generation around a given list of draws. */
  function Calls(ops: seq<DrawOp>): seq<Step> {
    OpeningSteps + Draws(ops) + ClosingSteps
  }

  /** The document-library calls of one generation, in issue order. */
  function Script(r: Record, t: Today): seq<Step> {
    Calls(Overlay(r, t))
  }

  /**
    The order of the calls: the font and page 0 first, then the draws in
    order, then the metadata setters, and the save last and only once.
  */
  lemma CallOrder(ops: seq<DrawOp>)
    ensures var steps := Calls(ops);
      && |steps| == |ops| + 9
      && steps[0] == EmbedFont(HelveticaBold) && steps[1] == GetPage(0)
      && (forall i :: 0 <= i < |ops| ==> steps[i + 2] == Draw(ops[i]))
      && steps[|ops| + 2..] == ClosingSteps
      && (forall i :: 0 <= i < |steps| ==> (steps[i].Draw? <==> 2 <= i < |ops| + 2))
      && (forall i :: 0 <= i < |steps| ==> (steps[i].Save? <==> i == |steps| - 1))
  {
    var draws := Draws(ops);
    var steps := Calls(ops);
    assert forall i :: 0 <= i < 2 ==> steps[i] == OpeningSteps[i];
    assert forall i :: 2 <= i < 2 + |draws| ==> steps[i] == draws[i - 2];
    assert forall i :: 2 + |draws| <= i < |steps| ==> steps[i] == ClosingSteps[i - 2 - |draws|];
  }

  /** A generation draws the overlay, on page 0, between taking the page and the first setter, and saves last. */
  lemma ScriptOrder(r: Record, t: Today)
    ensures var steps, ops := Script(r, t), Overlay(r, t);
      && |steps| == |ops| + 9
      && steps[0] == EmbedFont(HelveticaBold) && steps[1] == GetPage(0)
      && (forall i :: 0 <= i < |ops| ==> steps[i + 2] == Draw(ops[i]) && steps[i + 2].op.page == 0)
      && (forall i :: 0 <= i < |steps| ==> (steps[i].Draw? <==> 2 <= i < |ops| + 2))
      && (forall i :: 0 <= i < |steps| ==> (steps[i].Save? <==> i == |steps| - 1))
  {
    var ops := Overlay(r, t);
    CallOrder(ops);
  }

  /** The title, subject and keyword setters fill those three entries. */
  lemma RunDescriptionSetters(s: Session)
    ensures var i := s.doc.info.(title := Some(Title), subject := Some(Title), keywords := Some(Keywords));
      Run(s, ClosingSteps[..3]) == Success(s.(doc := s.doc.(info := i)))
  {
    var s1 := s.(doc := s.doc.(info := s.doc.info.(title := Some(Title))));
    var s2 := s1.(doc := s1.doc.(info := s1.doc.info.(subject := Some(Title))));
    var c := ClosingSteps[..3];
    assert c == [SetTitle(Title)] + ([SetSubject(Title)] + [SetKeywords(Keywords)]);
    RunCons(s, SetTitle(Title), [SetSubject(Title)] + [SetKeywords(Keywords)]);
    RunCons(s1, SetSubject(Title), [SetKeywords(Keywords)]);
    RunCons(s2, SetKeywords(Keywords), []);
  }

  /** The producer, creator and author setters fill those entries, and the save takes the snapshot. */
  lemma RunOriginSettersAndSave(s: Session)
    ensures var d := s.doc.(info := s.doc.info.(producer := Some(Producer), creator := Some(""), author := Some(Author)));
      Run(s, ClosingSteps[3..]) == Success(Session(d, Some(d)))
  {
    var s1 := s.(doc := s.doc.(info := s.doc.info.(producer := Some(Producer))));
    var s2 := s1.(doc := s1.doc.(info := s1.doc.info.(creator := Some(""))));
    var s3 := s2.(doc := s2.doc.(info := s2.doc.info.(author := Some(Author))));
    var c := ClosingSteps[3..];
    assert c == [SetProducer(Producer)] + ([SetCreator("")] + ([SetAuthor(Author)] + [Save]));
    RunCons(s, SetProducer(Producer), [SetCreator("")] + ([SetAuthor(Author)] + [Save]));
    RunCons(s1, SetCreator(""), [SetAuthor(Author)] + [Save]);
    RunCons(s2, SetAuthor(Author), [Save]);
    RunCons(s3, Save, []);
  }

  /** The closing calls overwrite the six entries they set, whatever the template had, and save the result. */
  lemma RunClosing(s: Session)
    ensures var d := s.doc.(info := PublicInfo); Run(s, ClosingSteps) == Success(Session(d, Some(d)))
  {
    var c := ClosingSteps;
    assert c == c[..3] + c[3..];
    RunAppend(s, c[..3], c[3..]);
    RunDescriptionSetters(s);
    var i := s.doc.info.(title := Some(Title), subject := Some(Title), keywords := Some(Keywords));
    RunOriginSettersAndSave(s.(doc := s.doc.(info := i)));
  }

  /** The whole script fails on a template without pages and otherwise saves the template with every draw added and the fixed information. */
  lemma {:induction false} RunScript(doc: Document, r: Record, t: Today)
    ensures doc.pageCount == 0 ==> Run(Session(doc, None), Script(r, t)) == Failure(PageOutOfRange(0, 0))
    ensures doc.pageCount > 0 ==>
      var d := doc.(drawn := doc.drawn + Overlay(r, t), info := PublicInfo);
      Run(Session(doc, None), Script(r, t)) == Success(Session(d, Some(d)))
  {
    var s := Session(doc, None);
    var draws := Draws(Overlay(r, t));
    assert Script(r, t) == OpeningSteps + (draws + ClosingSteps);
    RunAppend(s, OpeningSteps, draws + ClosingSteps);
    assert OpeningSteps[1..] == [GetPage(0)];
    if doc.pageCount > 0 {
      assert Run(s, OpeningSteps) == Success(s);
      RunAppend(s, draws, ClosingSteps);
      RunDraws(s, Overlay(r, t));
      RunClosing(s.(doc := doc.(drawn := doc.drawn + Overlay(r, t))));
    } else {
      assert Run(s, OpeningSteps) == Failure(PageOutOfRange(0, 0));
    }
  }

  /**
    One generation: a failed load propagates; a template without a page 0 fails
    before anything is drawn; otherwise the saved document is the template with
    every draw of the overlay added in order and the fixed information dictionary.
  */
  function Generate(loaded: Result<Document, Error>, r: Record, t: Today): (out: Result<Document, Error>)
    ensures loaded.Failure? ==> out == Failure(loaded.error)
    ensures loaded.Success? && loaded.value.pageCount == 0 ==> out == Failure(PageOutOfRange(0, 0))
    ensures loaded.Success? && loaded.value.pageCount > 0 ==>
      out == Success(loaded.value.(drawn := loaded.value.drawn + Overlay(r, t), info := PublicInfo))
  {
    var doc :- loaded;
    RunScript(doc, r, t);
    var session :- Run(Session(doc, None), Script(r, t));
    assert session.saved.Some?;
    Success(session.saved.value)
  }

  /** Whatever the template, record and date, a generated certificate carries the same information dictionary. */
  lemma MetadataConstant(loaded: Result<Document, Error>, r: Record, t: Today)
    requires Generate(loaded, r, t).Success?
    ensures Generate(loaded, r, t).value.info == Info(
      Some("Attestation sur l'honneur de déplacement en vélo"),
      Some("Attestation sur l'honneur de déplacement en vélo"),
      Some(["attestation", "vélo"]),
      Some("beta.gouv"),
      Some(""),
      Some("Ministère de la Transition écologique"))
  {
  }
}
