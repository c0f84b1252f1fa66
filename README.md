# BJR exporter, modelled in Dafny

The BJR exporter is a plugin for the pretix ticketing platform. It writes a
multi-sheet spreadsheet export with four sheets:

- **AEJ**, **JBM** and **Teamer** list every registration position. Each
  row holds the product, the attendee's family and given name, the gender
  columns w/m/d, a "PLZ, Ort" cell and age columns. AEJ and JBM use age
  brackets; Teamer uses the age itself.
- **Belegliste** lists every invoice: number, date, payer, an empty purpose,
  the gross amount and a cancellation note.

Each sheet is a generator. It yields a header row first. It then reads the
ordered list of record keys, cuts the list into chunks (10000 positions or
1000 invoices), fetches each chunk in one query that returns records in any
order, sorts the fetched records back by key position, and yields one row
per record.

The project models this core:

- `wrappers.dfy`: `Option` and `Result`.
- `answers.dfy`: the first-match answer lookup (`next(...)` over the
  answers to one question identifier).
- `cells.dfy`: the cells of a row and the errors that abort an export.
- `age.dfy`: calendar age at the event start, and age resolution from the
  "Alter" and "Geburtsdatum" answers.
- `columns.dfy`: the gender, "PLZ, Ort" and age bracket columns.
- `batching.dfy`: chunking, the sort by index within a chunk (an insertion
  sort proved equal to a reference `Pick`), and the ordering theorem for
  the whole chunk-then-reorder iteration.
- `emission.dfy`: generator semantics. One row per record, in order; a row
  that raises ends the sheet, and the rows yielded before it stay.
- `exporter.dfy`: headers, rows, the two sheet generators as methods with
  loops over chunks and over records, and sheet dispatch.

The generators are methods. Each is proved equal to a specification
function: `PositionsSheet` or `InvoicesSheet`. The lemmas about those
functions, and about `Restore` (the chunk-by-chunk reordering), state what
the exporter promises.

Where the code and the exporter's design notes differ, the model follows the
code:

- **Malformed answers abort the export.** The design notes recommend treating
  a malformed "Alter" or "Geburtsdatum" as unknown. In the code, `int(...)`
  (line 117) and `strptime` (line 123) raise, and the sheet stops at that
  position. The model returns `MalformedAge` or `MalformedBirthdate`, and
  the sheet output keeps the rows yielded before the failing position.
- **A negative "Alter" without a birthdate stays as stated.** For example,
  "-5" with no "Geburtsdatum" gives age -5, not -1. The bracket columns
  treat every negative age alike ("?").
- **A missing name part aborts the export.** A missing `family_name` or
  `given_name` in `attendee_name_parts` is a `KeyError` (lines 84-85). It is
  modelled as `MissingNamePart`, checked before the age.

## Model

| member | source | states |
|---|---|---|
| Answers.FindAnswer | pretix_exporter_bjr/bjr_exporter.py:95-96 | the lookup finds nothing exactly when no answer has the identifier; otherwise it gives the value of the first answer with the identifier |
| Answers.Lookup | pretix_exporter_bjr/bjr_exporter.py:105-108 | gives the default when the question is unanswered, and the first matching answer's value otherwise |
| Answers.FirstMatchWins | pretix_exporter_bjr/bjr_exporter.py:95-96 | looking up in `a + b` gives the result from `a` if `a` answers the question, and the result from `b` otherwise; later answers never override earlier ones |
| Columns.GenderCols | pretix_exporter_bjr/bjr_exporter.py:94-101 | three cells; cell i is "X" exactly when the first "Geschlecht" answer is w, m or d respectively; at most one "X"; all "?" exactly when there is no answer or it is ""; any other value gives three "" |
| Columns.PlzOrtCols | pretix_exporter_bjr/bjr_exporter.py:104-111 | one cell: the first PLZ answer, a space and the first Ort answer, each replaced by "?????" when missing, in all four combinations |
| Age.AgeAt | pretix_exporter_bjr/bjr_exporter.py:122-126 | the computed age is the number of birthday anniversaries reached by the event start: the anniversary for `age` is not after the start, and the one for `age + 1` is after it |
| Age.AgeAtExamples | pretix_exporter_bjr/bjr_exporter.py:124-126 | event 2024-07-15 with birth 2010-07-16 gives 13; birth 2010-07-14 or 2010-07-15 gives 14 |
| Age.ResolveAge | pretix_exporter_bjr/bjr_exporter.py:114-126 | an unparseable first "Alter" fails with its text; a stated n >= 0 is the age, whatever the birthdate; a negative n with no "Geburtsdatum" stays n; with one, an unparseable date fails with its text and a parsed date gives `AgeAt(birth, start)`; with neither answer the age is -1 |
| Columns.AgeCols | pretix_exporter_bjr/bjr_exporter.py:127-143 | aej and jbm: one cell per bracket, "X" exactly in a bracket holding the age; all "?" for a negative age; only "X" or "" otherwise; at most one "X"; aej has an "X" exactly when age >= 15, jbm exactly when 1 <= age <= 26; team: one cell, the age as a number when positive and "?" exactly when age <= 0 |
| BjrExporter.PositionHeader | pretix_exporter_bjr/bjr_exporter.py:40-65 | the header starts with the seven common labels and has 10 (aej), 11 (jbm) or 8 (team) labels |
| BjrExporter.PositionHeaders | pretix_exporter_bjr/bjr_exporter.py:40-65 | the header list, extended by the labels of the sheet's kind, is `PositionHeader(kind)` |
| BjrExporter.PositionRow | pretix_exporter_bjr/bjr_exporter.py:82-90 | fails with the missing name part, family name first; otherwise a failed age resolution fails the row with the same error; otherwise the row is product and names, then gender, then "PLZ, Ort", then age columns, as wide as the header |
| BjrExporter.BuildPositionRow | pretix_exporter_bjr/bjr_exporter.py:82-90 | the row built group by group with `+=` is `PositionRow` |
| Emission.EmitPrefix | pretix_exporter_bjr/bjr_exporter.py:81-91 | the rows a generator yields are the rows of its first records, in order |
| Emission.EmitFailure | pretix_exporter_bjr/bjr_exporter.py:81-91 | a generator's output fails exactly when it stops short, and then with the error of the first record it could not yield |
| Emission.EmitAppend | pretix_exporter_bjr/bjr_exporter.py:79-91 | yielding for `a + b` yields for `a` and continues with `b` only if nothing in `a` raised |
| BjrExporter.PositionRowsOf | pretix_exporter_bjr/bjr_exporter.py:81-91 | the position rows yielded are `PositionRow` of the first positions, one each; the output fails exactly when it stops short, with the first failing position's error |
| BjrExporter.ChunkPositionRows | pretix_exporter_bjr/bjr_exporter.py:81-91 | the inner loop over a sorted chunk yields exactly the generator output for that chunk |
| BjrExporter.PositionsSheetShape | pretix_exporter_bjr/bjr_exporter.py:40-91 | a positions sheet starts with its header; every row is as wide as the header; with no positions the sheet is the header alone and does not fail |
| BjrExporter.IteratePositions | pretix_exporter_bjr/bjr_exporter.py:39-91 | the generator, with its loops over chunks and over positions, produces `PositionsSheet`: the header, then the rows of all positions in key order, up to the first failure |
| Batching.Chunks | pretix_exporter_bjr/bjr_exporter.py:79 | the chunks are non-empty, at most n long, all but the last exactly n long, and together they are the key list again |
| Batching.IndexOf | pretix_exporter_bjr/bjr_exporter.py:80 | `ids.index(x)`: the position of the first occurrence of x; it equals the length of the list exactly when x is absent, which never happens for a fetched record because its key lies in its chunk |
| Batching.SortByIndex | pretix_exporter_bjr/bjr_exporter.py:80 | sorting a chunk's fetch, which may come in any order and may lack records but has no repeated key, by key position gives `Pick(chunk, fetched)`: the fetched records in chunk order |
| Batching.RestoreOrder | pretix_exporter_bjr/bjr_exporter.py:78-80 | across chunks, the keys of the reordered records are the keys of the key list that were fetched, in key-list order, and the records are exactly the fetched ones |
| Batching.OrderedFetch | pretix_exporter_bjr/bjr_exporter.py:78-80 | for unique keys (both sheets, also lines 178-180): the rows follow the original key order restricted to the fetched records, with no duplicates; the records are exactly those fetched; if all were fetched, the order is the key list itself; an empty key list gives no records |
| BjrExporter.InvoiceRow | pretix_exporter_bjr/bjr_exporter.py:182-189 | six cells: number, date, payer (company if non-empty, else name), "", total in cents (0 when absent or zero), and "Stornierung von" plus the referenced number exactly when the invoice is a cancellation with a reference, else "" |
| BjrExporter.InvoiceRows | pretix_exporter_bjr/bjr_exporter.py:181-189 | one row per invoice, the i-th being `InvoiceRow` of the i-th invoice |
| BjrExporter.InvoiceRowsAppend | pretix_exporter_bjr/bjr_exporter.py:179-189 | the rows for `a + b` are the rows for `a`, then those for `b`, so chunk boundaries do not change the rows |
| BjrExporter.ChunkInvoiceRows | pretix_exporter_bjr/bjr_exporter.py:181-189 | the inner loop over a sorted chunk yields `InvoiceRows` of that chunk |
| BjrExporter.InvoicesSheet | pretix_exporter_bjr/bjr_exporter.py:147-189 | the sheet starts with the six-label header; every row has six cells; with no invoices it is the header alone |
| BjrExporter.IterateBelege | pretix_exporter_bjr/bjr_exporter.py:146-189 | the generator, with its loops over chunks and over invoices, produces `InvoicesSheet`: the header, then one row per fetched invoice, in the key list order (by full invoice number) |
| BjrExporter.SheetFor | pretix_exporter_bjr/bjr_exporter.py:24-36 | a name selects a generator exactly when it is one of the four sheets listed; "belege" selects the invoice sheet and aej, jbm, team select a positions sheet |
| BjrExporter.IterateSheet | pretix_exporter_bjr/bjr_exporter.py:32-36 | returns nothing for an unknown name, the positions sheet of the named kind for aej, jbm and team, and the invoice sheet for "belege" |

## Left out

- The ORM queries (`filter`, `select_related`, `prefetch_related`, `order_by`, `values_list`) are not modelled. Each sheet takes the ordered key list and one fetch result per chunk as inputs. A fetch result may be in any order and may lack records, but never repeats a key or holds a key from outside the chunk.
- The `Subquery`/`Sum` aggregation of invoice lines runs in the database. `total_gross` is an input (`Option` of integer cents). `total_net` is computed but never used.
- `Decimal` amounts are modelled as integer cents.
- Python's `int(...)` and `datetime.strptime(..., "%Y-%m-%d")` are not modelled exactly (whitespace, signs, underscores, unpadded fields). They are function parameters that succeed or fail. `ResolveAge`'s "neither answer gives -1" clause assumes that `int("-1")` reads as -1.
- `date_format`, `pgettext_lazy`, `str(op.item)` and the full invoice number are opaque strings. A company name of `None` is the empty string.
- Generator laziness and `yield` are not modelled. A sheet is its list of rows, plus the error that ended it early, if any.
- The plugin registration files `apps.py` and `signals.py` are not part of this model. They hold no export logic.
- `description`, `identifier`, `verbose_name`, `category` and `featured` are constant metadata for the host platform. They are not modelled.
