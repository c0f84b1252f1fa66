/**
 * The BJR exporter: four sheets of a multi-sheet list export. The three
 * positions sheets (AEJ, JBM, Teamer) list every registration position with
 * its gender, postcode/town and age bracket columns; the "Belegliste" lists
 * every invoice. Each sheet is a header row followed by the data rows, which
 * the host platform writes to a spreadsheet.
 */
module BjrExporter {
  import opened Wrappers
  import opened Answers
  import opened Cells
  import opened Age
  import opened Columns
  import opened Batching
  import opened Emission

  /**
   * A registration position as the rows need it: its key, the product name
   * (`str(op.item)`), the attendee's name parts, its answers and the start
   * date of its event.
   */
  datatype Position = Position(
    pk: Id,
    item: string,
    nameParts: map<string, string>,
    answers: seq<Answer>,
    eventStart: Date)

  function PositionPk(op: Position): Id { op.pk }

  /**
   * An invoice as its row needs it: key, full number, the date already
   * formatted, company and personal name of the addressee, the summed gross
   * value of its lines in cents (absent when it has no lines), whether it
   * cancels another invoice and that invoice's number, if it refers to one.
   */
  datatype Invoice = Invoice(
    pk: Id,
    number: string,
    date: string,
    company: string,
    name: string,
    totalGross: Option<int>,
    isCancellation: bool,
    refers: Option<string>)

  function InvoicePk(inv: Invoice): Id { inv.pk }

  /** Chunk sizes of the two sheet kinds. */
  const PositionBatch: nat := 10000
  const InvoiceBatch: nat := 1000

  /** A header as a row of text cells. */
  function Texts(labels: seq<string>): (r: Row)
    ensures |r| == |labels|
    ensures forall i :: 0 <= i < |r| ==> r[i] == Text(labels[i])
  {
    seq(|labels|, i requires 0 <= i < |labels| => Text(labels[i]))
  }

  /** The four parts of a row of three, three, one and any number of cells, sliced back out. */
  lemma ConcatSlices<T>(a: seq<T>, b: seq<T>, c: seq<T>, d: seq<T>)
    requires |a| == 3 && |b| == 3 && |c| == 1
    ensures var s := a + b + c + d;
            |s| == 7 + |d| && s[..3] == a && s[3..6] == b && s[6..7] == c && s[7..] == d
  {
  }

  // ---------------------------------------------------------------- positions

  const BaseHeader: seq<string> := ["Produkt", "Nachname", "Vorname", "w", "m", "d", "PLZ, Ort"]
  const AejHeader: seq<string> := ["AEJ: 15-<18", "AEJ: 18-<27", "AEJ: >=27"]
  const JbmHeader: seq<string> := ["JBM: <10", "JBM: 10-<14", "JBM: 14-<18", "JBM: 18-<=26"]
  const TeamHeader: seq<string> := ["Alter"]

  /** The header of a positions sheet: the common columns, then the age columns of its kind. */
  function PositionHeader(kind: PositionKind): (h: seq<string>)
    ensures |h| == match kind case Aej => 10 case Jbm => 11 case Team => 8
    ensures h[..|BaseHeader|] == BaseHeader
  {
    BaseHeader + match kind case Aej => AejHeader case Jbm => JbmHeader case Team => TeamHeader
  }

  /** The opening of `iterate_positions`: the common labels, extended by those of the sheet's kind. */
  method PositionHeaders(kind: PositionKind) returns (headers: seq<string>)
    ensures headers == PositionHeader(kind)
  {
    headers := BaseHeader;
    match kind {
      case Aej => headers := headers + AejHeader;
      case Jbm => headers := headers + JbmHeader;
      case Team => headers := headers + TeamHeader;
    }
  }

  /**
   * The row of one position: product, family name, given name, the gender
   * columns, the "PLZ, Ort" cell and the age columns. A missing name part or
   * an age that cannot be resolved fails the row, in that order.
   */
  function PositionRow(kind: PositionKind, op: Position, p: Parsers): (r: Result<Row, ExportError>)
    ensures r.Ok? ==> |r.value| == |PositionHeader(kind)|
    ensures "family_name" !in op.nameParts ==> r == Err(MissingNamePart("family_name"))
    ensures "family_name" in op.nameParts && "given_name" !in op.nameParts ==>
              r == Err(MissingNamePart("given_name"))
    ensures "family_name" in op.nameParts && "given_name" in op.nameParts ==>
              match ResolveAge(op.answers, op.eventStart, p)
              case Err(e) => r == Err(e)
              case Ok(age) =>
                r.Ok? &&
                r.value[..3] == [Text(op.item), Text(op.nameParts["family_name"]), Text(op.nameParts["given_name"])] &&
                r.value[3..6] == GenderCols(op.answers) &&
                r.value[6..7] == PlzOrtCols(op.answers) &&
                r.value[7..] == AgeCols(kind, age)
  {
    if "family_name" !in op.nameParts then Err(MissingNamePart("family_name"))
    else if "given_name" !in op.nameParts then Err(MissingNamePart("given_name"))
    else
      match ResolveAge(op.answers, op.eventStart, p)
      case Err(e) => Err(e)
      case Ok(age) =>
        var names := [Text(op.item), Text(op.nameParts["family_name"]), Text(op.nameParts["given_name"])];
        var gender := GenderCols(op.answers);
        var place := PlzOrtCols(op.answers);
        var ages := AgeCols(kind, age);
        ConcatSlices(names, gender, place, ages);
        Ok(names + gender + place + ages)
  }

  /** The row function of a positions sheet, as a value the generator applies to each position. */
  function RowMaker(kind: PositionKind, p: Parsers): Position -> Result<Row, ExportError> {
    op => PositionRow(kind, op, p)
  }

  /** The row assembled column group by column group is the position's row. */
  lemma PositionRowCells(kind: PositionKind, op: Position, p: Parsers, age: int)
    requires "family_name" in op.nameParts && "given_name" in op.nameParts
    requires ResolveAge(op.answers, op.eventStart, p) == Ok(age)
    ensures PositionRow(kind, op, p) ==
              Ok([Text(op.item), Text(op.nameParts["family_name"]), Text(op.nameParts["given_name"])]
                 + GenderCols(op.answers) + PlzOrtCols(op.answers) + AgeCols(kind, age))
  {
  }

  /** All positions of a sheet in export order: each chunk's fetched positions, sorted back into key order. */
  function SheetPositions(ids: seq<Id>, fetches: seq<seq<Position>>): seq<Position>
    requires FetchesFit(ids, PositionBatch, fetches, PositionPk)
  {
    Restore(Chunks(ids, PositionBatch), fetches, PositionPk)
  }

  /** A positions sheet: its header, then the rows of all positions in export order, up to the first that fails. */
  function PositionsSheet(kind: PositionKind, ids: seq<Id>, fetches: seq<seq<Position>>, p: Parsers): Output
    requires FetchesFit(ids, PositionBatch, fetches, PositionPk)
  {
    var e := EmitRows(RowMaker(kind, p), SheetPositions(ids, fetches));
    Output([Texts(PositionHeader(kind))] + e.rows, e.failure)
  }

  /**
   * A positions sheet starts with its header and every row is as wide as
   * the header; without positions it is the header alone and does not fail.
   */
  lemma PositionsSheetShape(kind: PositionKind, ids: seq<Id>, fetches: seq<seq<Position>>, p: Parsers)
    requires FetchesFit(ids, PositionBatch, fetches, PositionPk)
    ensures var out := PositionsSheet(kind, ids, fetches, p);
            |out.rows| >= 1 && out.rows[0] == Texts(PositionHeader(kind)) &&
            (forall i :: 0 <= i < |out.rows| ==> |out.rows[i]| == |PositionHeader(kind)|) &&
            (ids == [] ==> out == Output([Texts(PositionHeader(kind))], None))
  {
    var ops := SheetPositions(ids, fetches);
    EmitPrefix(RowMaker(kind, p), ops);
    var e := EmitRows(RowMaker(kind, p), ops).rows;
    forall i | 0 <= i < |e| ensures |e[i]| == |PositionHeader(kind)| {
      assert RowMaker(kind, p)(ops[i]) == PositionRow(kind, ops[i], p);
    }
  }

  /**
   * The rows emitted for `ops` are the rows of its first positions, one
   * each; the output fails exactly when it stops short of `ops`, and then
   * with the error of the first position without a row.
   */
  lemma PositionRowsOf(kind: PositionKind, ops: seq<Position>, p: Parsers)
    ensures var e := EmitRows(RowMaker(kind, p), ops);
            (forall i :: 0 <= i < |e.rows| ==> PositionRow(kind, ops[i], p) == Ok(e.rows[i])) &&
            (e.failure.None? <==> |e.rows| == |ops|) &&
            (|e.rows| < |ops| ==> PositionRow(kind, ops[|e.rows|], p).Err? &&
                                  e.failure == Some(PositionRow(kind, ops[|e.rows|], p).error))
  {
    var make := RowMaker(kind, p);
    EmitPrefix(make, ops);
    EmitFailure(make, ops);
    var e := EmitRows(make, ops);
    forall i | 0 <= i < |e.rows| ensures PositionRow(kind, ops[i], p) == Ok(e.rows[i]) {
      assert make(ops[i]) == PositionRow(kind, ops[i], p);
    }
    if |e.rows| < |ops| {
      assert make(ops[|e.rows|]) == PositionRow(kind, ops[|e.rows|], p);
    }
  }

  /**
   * The body of the inner loop of `iterate_positions`: the row of one
   * position, built column group by column group.
   */
  method BuildPositionRow(kind: PositionKind, op: Position, p: Parsers) returns (r: Result<Row, ExportError>)
    ensures r == PositionRow(kind, op, p)
  {
    if "family_name" !in op.nameParts {
      return Err(MissingNamePart("family_name"));
    }
    if "given_name" !in op.nameParts {
      return Err(MissingNamePart("given_name"));
    }
    var row := [Text(op.item), Text(op.nameParts["family_name"]), Text(op.nameParts["given_name"])];
    row := row + GenderCols(op.answers);
    row := row + PlzOrtCols(op.answers);
    var age := ResolveAge(op.answers, op.eventStart, p);
    if age.Err? {
      return Err(age.error);
    }
    PositionRowCells(kind, op, p, age.value);
    row := row + AgeCols(kind, age.value);
    r := Ok(row);
  }

  /**
   * The inner loop of `iterate_positions`: one row per position of a sorted
   * chunk, until a row fails.
   */
  method ChunkPositionRows(kind: PositionKind, ops: seq<Position>, p: Parsers) returns (out: Output)
    ensures out == EmitRows(RowMaker(kind, p), ops)
  {
    ghost var make := RowMaker(kind, p);
    var rows: seq<Row> := [];
    EmitFromEnds(make, rows, ops);
    var j := 0;
    while j < |ops|
      invariant 0 <= j <= |ops|
      invariant EmitFrom(make, rows, ops, j) == EmitRows(make, ops)
    {
      var row := BuildPositionRow(kind, ops[j], p);
      EmitFromStep(make, rows, ops, j);
      assert make(ops[j]) == row;
      if row.Err? {
        return Output(rows, Some(row.error));
      }
      rows := rows + [row.value];
      j := j + 1;
    }
    EmitFromEnds(make, rows, ops);
    out := Output(rows, None);
  }

  /**
   * The output of a positions sheet once `rows` have been yielded and the
   * chunks from `c` on are still to come.
   */
  ghost function PositionsFrom(kind: PositionKind, rows: seq<Row>, chunks: seq<seq<Id>>, fetches: seq<seq<Position>>,
                               c: nat, p: Parsers): Output
    requires |fetches| == |chunks| && c <= |chunks|
  {
    var e := EmitRows(RowMaker(kind, p), Restore(chunks[c..], fetches[c..], PositionPk));
    Output(rows + e.rows, e.failure)
  }

  /**
   * Emitting chunk `c` either fails, which ends the sheet with the rows of
   * that chunk up to the failure, or moves on to chunk `c + 1`.
   */
  lemma PositionChunksStep(kind: PositionKind, rows: seq<Row>, chunks: seq<seq<Id>>, fetches: seq<seq<Position>>,
                           c: nat, p: Parsers)
    requires |fetches| == |chunks| && c < |chunks|
    ensures var here := EmitRows(RowMaker(kind, p), Pick(chunks[c], fetches[c], PositionPk));
            PositionsFrom(kind, rows, chunks, fetches, c, p) ==
              if here.failure.Some? then Output(rows + here.rows, here.failure)
              else PositionsFrom(kind, rows + here.rows, chunks, fetches, c + 1, p)
  {
    RestoreStep(chunks, fetches, PositionPk, c);
    var make := RowMaker(kind, p);
    var ops := Pick(chunks[c], fetches[c], PositionPk);
    var rest := Restore(chunks[c + 1..], fetches[c + 1..], PositionPk);
    EmitAppend(make, ops, rest);
    AppendAssoc(rows, EmitRows(make, ops).rows, EmitRows(make, rest).rows);
  }

  /** With no chunk left, the sheet is what has been yielded, without failure. */
  lemma PositionChunksDone(kind: PositionKind, rows: seq<Row>, chunks: seq<seq<Id>>, fetches: seq<seq<Position>>,
                           p: Parsers)
    requires |fetches| == |chunks|
    ensures PositionsFrom(kind, rows, chunks, fetches, |chunks|, p) == Output(rows, None)
  {
    assert chunks[|chunks|..] == [] && fetches[|chunks|..] == [];
    assert rows + [] == rows;
  }

  /** Before the first chunk, only the header has been yielded. */
  lemma PositionChunksStart(kind: PositionKind, ids: seq<Id>, fetches: seq<seq<Position>>, p: Parsers)
    requires FetchesFit(ids, PositionBatch, fetches, PositionPk)
    ensures PositionsFrom(kind, [Texts(PositionHeader(kind))], Chunks(ids, PositionBatch), fetches, 0, p) ==
              PositionsSheet(kind, ids, fetches, p)
  {
    assert Chunks(ids, PositionBatch)[0..] == Chunks(ids, PositionBatch) && fetches[0..] == fetches;
  }

  /**
   * `iterate_positions`: yields the header, then walks the ordered position
   * keys chunk by chunk, sorts each fetched chunk back into key order and
   * yields one row per position, stopping at the first row that fails.
   */
  method IteratePositions(kind: PositionKind, ids: seq<Id>, fetches: seq<seq<Position>>, p: Parsers)
    returns (out: Output)
    requires FetchesFit(ids, PositionBatch, fetches, PositionPk)
    ensures out == PositionsSheet(kind, ids, fetches, p)
  {
    var headers := PositionHeaders(kind);
    var rows := [Texts(headers)];

    var chunks := Chunks(ids, PositionBatch);
    ChunksDistinct(ids, PositionBatch);
    PositionChunksStart(kind, ids, fetches, p);
    var c := 0;
    while c < |chunks|
      invariant 0 <= c <= |chunks|
      invariant PositionsFrom(kind, rows, chunks, fetches, c, p) == PositionsSheet(kind, ids, fetches, p)
    {
      var ops := SortByIndex(fetches[c], chunks[c], PositionPk);
      PositionChunksStep(kind, rows, chunks, fetches, c, p);
      var chunkOut := ChunkPositionRows(kind, ops, p);
      if chunkOut.failure.Some? {
        return Output(rows + chunkOut.rows, chunkOut.failure);
      }
      rows := rows + chunkOut.rows;
      c := c + 1;
    }
    PositionChunksDone(kind, rows, chunks, fetches, p);
    out := Output(rows, None);
  }

  // ----------------------------------------------------------------- invoices

  const BelegeHeader: seq<string> :=
    ["Belegnr.", "Belegdatum", "Einzahler*in", "Verwendungszweck", "Betrag", "Anmerkung"]

  /**
   * The row of one invoice: number, date, payer (the company name, or the
   * personal name when there is none), an empty purpose, the gross total
   * (0.00 when absent) and, for a cancellation that refers to an invoice,
   * "Stornierung von" and that invoice's number.
   */
  function InvoiceRow(inv: Invoice): (r: Row)
    ensures |r| == |BelegeHeader|
    ensures r[0] == Text(inv.number) && r[1] == Text(inv.date) && r[3] == Text("")
    ensures inv.company != "" ==> r[2] == Text(inv.company)
    ensures inv.company == "" ==> r[2] == Text(inv.name)
    ensures r[4] == Money(inv.totalGross.GetOr(0))
    ensures r[5] != Text("") <==> inv.isCancellation && inv.refers.Some?
    ensures inv.isCancellation && inv.refers.Some? ==> r[5] == Text("Stornierung von " + inv.refers.value)
  {
    [ Text(inv.number),
      Text(inv.date),
      Text(if inv.company != "" then inv.company else inv.name),
      Text(""),
      Money(if inv.totalGross.Some? && inv.totalGross.value != 0 then inv.totalGross.value else 0),
      Text(if inv.isCancellation && inv.refers.Some? then "Stornierung von " + inv.refers.value else "") ]
  }

  /** A row assembled cell by cell from the invoice's fields is its row. */
  lemma InvoiceRowCells(inv: Invoice, payer: string, amount: int, note: string)
    requires payer == (if inv.company != "" then inv.company else inv.name)
    requires amount == (if inv.totalGross.Some? && inv.totalGross.value != 0 then inv.totalGross.value else 0)
    requires note == (if inv.isCancellation && inv.refers.Some? then "Stornierung von " + inv.refers.value else "")
    ensures [Text(inv.number), Text(inv.date), Text(payer), Text(""), Money(amount), Text(note)] == InvoiceRow(inv)
  {
  }

  /** One row per invoice, in order. */
  function InvoiceRows(invs: seq<Invoice>): (r: seq<Row>)
    ensures |r| == |invs|
    ensures forall i :: 0 <= i < |r| ==> r[i] == InvoiceRow(invs[i])
  {
    if invs == [] then [] else [InvoiceRow(invs[0])] + InvoiceRows(invs[1..])
  }

  /** The rows of `a + b` are the rows of `a`, then those of `b`. */
  lemma {:induction false} InvoiceRowsAppend(a: seq<Invoice>, b: seq<Invoice>)
    ensures InvoiceRows(a + b) == InvoiceRows(a) + InvoiceRows(b)
  {
    if a == [] {
      assert a + b == b;
    } else {
      assert (a + b)[0] == a[0] && (a + b)[1..] == a[1..] + b;
      InvoiceRowsAppend(a[1..], b);
      AppendAssoc([InvoiceRow(a[0])], InvoiceRows(a[1..]), InvoiceRows(b));
    }
  }

  /** The rows of `invs[j..]` start with the row of `invs[j]`. */
  lemma InvoiceRowsStep(invs: seq<Invoice>, j: nat)
    requires j < |invs|
    ensures InvoiceRows(invs[j..]) == [InvoiceRow(invs[j])] + InvoiceRows(invs[j + 1..])
  {
    assert invs[j..][0] == invs[j] && invs[j..][1..] == invs[j + 1..];
  }

  /** Appending the row of `invs[j]` moves the loop's split point by one invoice. */
  lemma InvoiceRowsAdvance(rows: seq<Row>, row: Row, invs: seq<Invoice>, j: nat)
    requires j < |invs| && row == InvoiceRow(invs[j])
    ensures rows + InvoiceRows(invs[j..]) == (rows + [row]) + InvoiceRows(invs[j + 1..])
  {
    InvoiceRowsStep(invs, j);
    AppendAssoc(rows, [row], InvoiceRows(invs[j + 1..]));
  }

  /** The "Belegliste" sheet: its header, then the rows of all invoices in number order. */
  function InvoicesSheet(ids: seq<Id>, fetches: seq<seq<Invoice>>): (rows: seq<Row>)
    requires FetchesFit(ids, InvoiceBatch, fetches, InvoicePk)
    ensures |rows| >= 1 && rows[0] == Texts(BelegeHeader)
    ensures forall i :: 0 <= i < |rows| ==> |rows[i]| == |BelegeHeader|
    ensures ids == [] ==> rows == [Texts(BelegeHeader)]
  {
    [Texts(BelegeHeader)] + InvoiceRows(Restore(Chunks(ids, InvoiceBatch), fetches, InvoicePk))
  }

  /** The inner loop of `iterate_belege`: one row per invoice of a sorted chunk, built cell by cell. */
  method ChunkInvoiceRows(invs: seq<Invoice>) returns (rows: seq<Row>)
    ensures rows == InvoiceRows(invs)
  {
    rows := [];
    assert invs[0..] == invs;
    var j := 0;
    while j < |invs|
      invariant 0 <= j <= |invs|
      invariant rows + InvoiceRows(invs[j..]) == InvoiceRows(invs)
    {
      var inv := invs[j];
      var amount := if inv.totalGross.Some? && inv.totalGross.value != 0 then inv.totalGross.value else 0;
      var note := if inv.isCancellation && inv.refers.Some? then "Stornierung von " + inv.refers.value else "";
      var payer := if inv.company != "" then inv.company else inv.name;
      var row := [Text(inv.number), Text(inv.date), Text(payer), Text(""), Money(amount), Text(note)];
      InvoiceRowCells(inv, payer, amount, note);
      InvoiceRowsAdvance(rows, row, invs, j);
      rows := rows + [row];
      j := j + 1;
    }
    assert invs[j..] == [];
  }

  /**
   * `iterate_belege`: yields the header, then walks the ordered invoice keys
   * chunk by chunk, sorts each fetched chunk back into key order and yields
   * one row per invoice.
   */
  method IterateBelege(ids: seq<Id>, fetches: seq<seq<Invoice>>) returns (rows: seq<Row>)
    requires FetchesFit(ids, InvoiceBatch, fetches, InvoicePk)
    ensures rows == InvoicesSheet(ids, fetches)
  {
    var headers := BelegeHeader;
    rows := [Texts(headers)];

    var chunks := Chunks(ids, InvoiceBatch);
    ChunksDistinct(ids, InvoiceBatch);
    ghost var full := InvoicesSheet(ids, fetches);
    assert chunks[0..] == chunks && fetches[0..] == fetches;
    var c := 0;
    while c < |chunks|
      invariant 0 <= c <= |chunks|
      invariant rows + InvoiceRows(Restore(chunks[c..], fetches[c..], InvoicePk)) == full
    {
      var invs := SortByIndex(fetches[c], chunks[c], InvoicePk);
      ghost var rest := Restore(chunks[c + 1..], fetches[c + 1..], InvoicePk);
      RestoreStep(chunks, fetches, InvoicePk, c);
      InvoiceRowsAppend(invs, rest);
      var chunkRows := ChunkInvoiceRows(invs);
      AppendAssoc(rows, chunkRows, InvoiceRows(rest));
      rows := rows + chunkRows;
      c := c + 1;
    }
    assert chunks[c..] == [] && fetches[c..] == [];
  }

  // ------------------------------------------------------------------- sheets

  /** The sheets of the export: an identifier and a title each. */
  const Sheets: seq<(string, string)> :=
    [("aej", "AEJ"), ("jbm", "JBM"), ("team", "Teamer"), ("belege", "Belegliste")]

  datatype Sheet = PositionSheet(kind: PositionKind) | InvoiceSheet

  /** Which generator a sheet identifier selects; an unknown identifier selects none. */
  function SheetFor(name: string): (r: Option<Sheet>)
    ensures r.Some? <==> exists i :: 0 <= i < |Sheets| && Sheets[i].0 == name
    ensures r == Some(InvoiceSheet) <==> name == "belege"
    ensures r.Some? && r.value.PositionSheet? <==> name in {"aej", "jbm", "team"}
  {
    assert Sheets[0].0 == "aej" && Sheets[1].0 == "jbm" && Sheets[2].0 == "team" && Sheets[3].0 == "belege";
    if name == "aej" then Some(PositionSheet(Aej))
    else if name == "jbm" then Some(PositionSheet(Jbm))
    else if name == "team" then Some(PositionSheet(Team))
    else if name == "belege" then Some(InvoiceSheet)
    else None
  }

  /**
   * The data the host platform's queries return: the ordered keys of all
   * positions and of all invoices, and one fetch result per chunk of each.
   */
  datatype Database = Database(
    positionIds: seq<Id>,
    positionFetches: seq<seq<Position>>,
    invoiceIds: seq<Id>,
    invoiceFetches: seq<seq<Invoice>>)

  /** `iterate_sheet`: runs the generator of the named sheet, or nothing for an unknown name. */
  method IterateSheet(name: string, db: Database, p: Parsers) returns (r: Option<Output>)
    requires name in {"aej", "jbm", "team"} ==>
               FetchesFit(db.positionIds, PositionBatch, db.positionFetches, PositionPk)
    requires name == "belege" ==> FetchesFit(db.invoiceIds, InvoiceBatch, db.invoiceFetches, InvoicePk)
    ensures r.None? <==> SheetFor(name).None?
    ensures match SheetFor(name)
            case None => true
            case Some(PositionSheet(kind)) =>
              r == Some(PositionsSheet(kind, db.positionIds, db.positionFetches, p))
            case Some(InvoiceSheet) =>
              r == Some(Output(InvoicesSheet(db.invoiceIds, db.invoiceFetches), None))
  {
    if name == "aej" || name == "jbm" || name == "team" {
      var kind := if name == "aej" then Aej else if name == "jbm" then Jbm else Team;
      var out := IteratePositions(kind, db.positionIds, db.positionFetches, p);
      r := Some(out);
    } else if name == "belege" {
      var rows := IterateBelege(db.invoiceIds, db.invoiceFetches);
      r := Some(Output(rows, None));
    } else {
      r := None;
    }
  }
}
