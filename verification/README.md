# Public attestation overlay, modelled in Dafny

This project models the generator behind the public variant of the bicycle-commute
attestation ("Attestation sur l'honneur de déplacement en vélo"). The generator loads
a fixed PDF template and takes its first page. It draws on that page at fixed
coordinates, in one bold font and in black: first the name, days, year and
location, then today's date, then the body fields (the name again, ministry, rank
and the two addresses). It then ticks one of the two boxes of the mobility
question. Last, it sets the title, subject, keywords, producer, creator and author
entries of the document information dictionary and saves the document.

The model consists of pure functions over immutable values:

- `Decimal` renders an integer the way `Number.prototype.toString()` renders a safe integer (magnitude at most 2^53). `ParseInt` reads it back, and the two are proved inverse in both directions.
- `DateStamp` builds the `day/month/year` stamp: a one-based month and no zero padding. `ParseStamp` reads a stamp back, and the two are proved inverse in both directions.
- `Pdf` holds the document-library values: a text draw (`DrawOp`), the information dictionary, a document, and the library calls (`Step`). Its interpreter `Run` applies the calls in order and stops at the first failure.
- `Layout` is the coordinate table of the public template: one `Slot` per field, each with an anchor, a font size and, for wrapped text, the box.
- `Renderer.Overlay` turns a `Record` and a `Today` date into the ordered list of draws. It branches on the mobility answer exactly as the code does.
- `Extraction.Recover` is the independent reading of a rendered page, slot by slot. It is proved to give back every field of the record except the raw mobility answer, plus the stamped date. The mobility answer comes back as `Normalize(r)`, with the date only on the yes side.
- `Generator.Script` is the full call sequence of one generation. `Generator.Generate` is the document that sequence saves, or the error that stops it.

The wall clock is a parameter: `Today(day, month0, year)` holds what `getDate()`,
`getMonth()` and `getFullYear()` return. Rendering is a function of the record and
that date, so it is deterministic by construction. `ClockOnlyAffectsStamp` shows
that the date reaches exactly one draw.

How the code behaves, and how the model reflects it:

- The code draws every field unconditionally (pdfPublic.service.ts lines 60-102). `Record` therefore has every field present.
- The code draws `mobility_date` beside the "yes" box whenever the answer is not `'no'`, even when the date is empty (lines 105-107).
- The code compares the raw `mobility` string with `'no'` using `!==` (line 105). The renderer branches on that string. `Normalize` names the two outcomes, and `MobilityOpsOfNormalize` shows that the string branch draws exactly what the named outcome says.
- The coordinates are literals in the drawing code. `Layout` collects them, and the lemmas state them as literal numbers.

## Model

| member | source | states |
|---|---|---|
| Decimal.IntToDecimal | src/app/services/pdfPublic.service.ts:61-62 | the text of a number is a canonical numeral (digits, no leading zero) with a leading '-' exactly when the number is negative |
| Decimal.ParseIntOfDecimal | src/app/services/pdfPublic.service.ts:61-62 | reading the drawn text of any integer gives that integer back |
| Decimal.DecimalOfParseInt | src/app/services/pdfPublic.service.ts:61-62 | every canonical numeral is the drawn text of the integer it reads as, so there is exactly one spelling per number |
| Decimal.DecimalInjective | src/app/services/pdfPublic.service.ts:61-62 | distinct numbers are drawn as distinct texts |
| DateStamp.ParseStampOfStamp | src/app/services/pdfPublic.service.ts:65-70 | the stamp reads back as day, month plus one, and full year, separated by '/' |
| DateStamp.StampOfParseStamp | src/app/services/pdfPublic.service.ts:65-70 | any text that reads as d/m/y is exactly the stamp of that date: there is no padded or alternative spelling |
| DateStamp.StampUnpadded | src/app/services/pdfPublic.service.ts:67 | a single-digit day or month takes one character, followed directly by '/' |
| Pdf.ExecFrame | src/app/services/pdfPublic.service.ts:48-49 | of the library calls, only taking a page can fail, and only for a page the template lacks; only a save takes a snapshot; only a draw adds text |
| Pdf.RunDraws | src/app/services/pdfPublic.service.ts:50-58 | issuing a list of draws appends exactly those draws, in order, to the page content and changes nothing else |
| Pdf.RunAppend | src/app/services/pdfPublic.service.ts:47-120 | running two call sequences back to back is running the second from where the first stopped; a failure stops everything after it |
| Renderer.MobilityOpsOfNormalize | src/app/services/pdfPublic.service.ts:104-110 | the branch on the raw string draws, for the answer "no", the "x" in the "no" box alone, and for any other answer (empty included) the "x" in the "yes" box followed by the record's mobility date |
| Renderer.Overlay | src/app/services/pdfPublic.service.ts:50-110 | a render has 11 draws for "no" and 12 otherwise; every draw is on page 0, in the one bold font, in black, in size 10 or 11; a draw has a wrap box (256 wide, 13 line height, size 10) exactly when it is at x = 79 and y = 456, 391 or 352 |
| Renderer.FixedOps | src/app/services/pdfPublic.service.ts:60-102 | the ten draws before the mobility question all conform to that page format |
| Renderer.MobilityOps | src/app/services/pdfPublic.service.ts:104-110 | the mobility question yields one draw for "no" and two otherwise, all in the page format |
| Renderer.MobilityNoBranch | src/app/services/pdfPublic.service.ts:108-110 | for "no": an "x" at (94, 271) in size 11; nothing at (94, 284) or (230, 284); and the render is the same whatever the mobility date |
| Renderer.MobilityYesBranch | src/app/services/pdfPublic.service.ts:105-107 | for any other answer: an "x" at (94, 284) in size 11 and the mobility date, even when empty, at (230, 284) in size 10; nothing at (94, 271) |
| Renderer.ExactlyOneCheckMark | src/app/services/pdfPublic.service.ts:104-110 | for every record exactly one draw falls in the two boxes of the question; it is an "x" in size 11, in the "no" box exactly when the answer is "no" |
| Renderer.StampPlacement | src/app/services/pdfPublic.service.ts:65-70 | the date stamp is drawn at (385, 150) in size 11, and that draw is identical for every record |
| Renderer.ClockOnlyAffectsStamp | src/app/services/pdfPublic.service.ts:65-70 | two renders of one record on different dates differ only in the stamp draw, which carries the new date's stamp |
| Renderer.NameDrawnTwice | src/app/services/pdfPublic.service.ts:60-72 | the name is drawn at (420, 494) in the default size 11 and at (79, 482) in size 10, and no other draw depends on it |
| Renderer.NumbersOnBaseline | src/app/services/pdfPublic.service.ts:61-62 | days and year are drawn as decimal numerals on the baseline y = 290, at x = 405 and x = 517, in size 11 |
| Renderer.FreeTextPlacement | src/app/services/pdfPublic.service.ts:63-102 | ministry, home address and work address are wrapped boxes at x = 79, y = 456, 391, 352; location is a single line at (385, 163) in size 11 and rank a single line at (79, 417) in size 10 |
| Extraction.TextsOfOverlay | src/app/services/pdfPublic.service.ts:60-102 | reading a render at each field's anchor gives the text drawn for that field |
| Extraction.MobilityOfOverlay | src/app/services/pdfPublic.service.ts:104-110 | reading the two boxes of a render gives the normalised answer, with the date on the yes side |
| Extraction.RecoverOverlay | src/app/services/pdfPublic.service.ts:60-110 | reading a whole render back recovers every record field except the raw mobility answer, plus the stamped date (month one-based); the answer comes back as `Normalize(r)`, with the mobility date only on the yes side, since "yes", "oui" and "" render alike and a "no" render ignores the date |
| Extraction.OverlayAnchorsDistinct | src/app/services/pdfPublic.service.ts:60-110 | no two draws of a render share an anchor point |
| Generator.CallOrder | src/app/services/pdfPublic.service.ts:47-120 | the calls are the font, page 0, the draws in order, then exactly the six setters (title, subject, keywords, producer, creator cleared, author) and the save; the save is the last call and occurs exactly once |
| Generator.ScriptOrder | src/app/services/pdfPublic.service.ts:47-120 | a generation issues every draw of the overlay on page 0 after taking the page and before any setter, and saves only after all of them |
| Generator.RunClosing | src/app/services/pdfPublic.service.ts:112-120 | the setters overwrite the title, subject, keywords, producer, creator and author entries, whatever the template held, and the save snapshots the finished document |
| Generator.RunScript | src/app/services/pdfPublic.service.ts:47-120 | a template without page 0 fails before anything is drawn; otherwise the script saves the template plus the overlay and the fixed information |
| Generator.Generate | src/app/services/pdfPublic.service.ts:41-120 | a failed load propagates; a template without pages yields an error and no document; otherwise the result is the template with the overlay appended in draw order and the fixed information dictionary |
| Generator.MetadataConstant | src/app/services/pdfPublic.service.ts:112-118 | every generated certificate carries title = subject = "Attestation sur l'honneur de déplacement en vélo", keywords ["attestation", "vélo"], producer "beta.gouv", an empty creator and author "Ministère de la Transition écologique" |

## Left out

- Fetching the template over HTTP, decoding it with `PDFDocument.load`, embedding the font, encoding with `save()` and downloading with `saveAs`: these are I/O and library code. A loaded template is a `Document` value, a failed load is `Failure(LoadFailed)`, and a save is a snapshot.
- `certFilename` and the download file name: that helper is not part of this model.
- The observer wiring (`next`, `error`, `complete`) and `_handleError`: this is asynchronous error plumbing. Errors are the `Failure` branch of `Generate`.
- The colour `rgb(0, 0, 0)` is the constant `Black`, and the font is the constant `HelveticaBold`.
- Word wrapping is done inside the PDF library. Only the `maxWidth` and `lineHeight` parameters are recorded, not the line breaking.
- The PDF library's refusal of characters that the standard font cannot encode is not modelled. Every string is accepted as drawable.
- The library's own metadata defaults applied on load are not modelled. The template's six modelled information entries are arbitrary `Option` values, and the six setters overwrite them.
- The information entries the code does not set are not modelled: the creation date, the modification date and any other entry the template carries. The code leaves them as they were, and `Info` has no field for them.
- Keywords are kept as the list passed to `setKeywords`. How the library joins them into one entry is not modelled.
- Decimal.IntToDecimal: agrees with `toString()` for |n| ≤ 2^53, the safe integers. Above that a Number holds only some integers, and `toString()` prints the shortest digits that read back as the same Number, padded with zeros: 2**64 is drawn as 18446744073709552000, where the model gives the exact digits. From 10^21 on `toString()` uses exponent notation. Fractions and `NaN` are not modelled. A days or year value that the form supplies as a string would be drawn unchanged by `toString()`. The record type is not part of this model, so both fields are integers here. The round trips `ParseIntOfDecimal` and `DecimalOfParseInt` therefore describe the drawn text only for safe integers.
- `Today` is not checked to be a calendar date. The stamp format is stated and proved for every triple of integers.
- Generator.Generate: returns a document for every record on a template with pages, because every record field is present here. In the code, a missing `days` or `year` makes `toString()` throw a `TypeError` (lines 61-62). That ends the generation before `save()` (line 120), so no certificate is produced. What the library does with a missing string field passed to `drawText` is not modelled either.
- The limited-variant generator, the form components with their validators and local-storage autosave, the address and company autocomplete, and the dark-mode toggle are UI code outside the overlay generator.
