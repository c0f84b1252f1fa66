/** The cells a sheet row is made of, and the ways an export can fail. */
module Cells {

  /**
   * A spreadsheet cell: text, a whole number (the age column of the team
   * sheet) or a money amount in cents (the invoice total).
   */
  datatype Cell = Text(text: string) | Number(n: int) | Money(cents: int)

  type Row = seq<Cell>

  /** The marker cells of the bracket columns. */
  const Marked: Cell := Text("X")
  const Unknown: Cell := Text("?")
  const Blank: Cell := Text("")

  /**
   * Why an export aborts: an "Alter" answer that is not an integer, a
   * "Geburtsdatum" answer that is not a date, or an attendee name without
   * the part the row needs.
   */
  datatype ExportError =
    | MalformedAge(text: string)
    | MalformedBirthdate(text: string)
    | MissingNamePart(key: string)
}
