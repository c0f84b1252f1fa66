/**
 * The derived columns of a positions sheet row: the gender markers, the
 * postcode-and-town cell and the age bracket markers of each sheet kind.
 */
module Columns {
  import opened Wrappers
  import opened Answers
  import opened Cells

  /** The three positions sheets: AEJ, JBM and the team (Teamer) list. */
  datatype PositionKind = Aej | Jbm | Team

  /** The gender codes of the columns "w", "m" and "d", in column order. */
  const GenderCodes: seq<string> := ["w", "m", "d"]

  /** "X" on a hit, "?" when the underlying value is unknown, "" otherwise. */
  function Mark(hit: bool, unknown: bool): Cell {
    if hit then Marked else if unknown then Unknown else Blank
  }

  /**
   * The columns w, m, d from the first "Geschlecht" answer. A column is "X"
   * exactly when that answer is its code; a missing or empty answer makes
   * all three "?"; any other answer leaves all three empty.
   */
  function GenderCols(answers: seq<Answer>): (r: seq<Cell>)
    ensures |r| == 3
    ensures forall i :: 0 <= i < 3 ==>
              (r[i] == Marked <==> FindAnswer(answers, "Geschlecht") == Some(GenderCodes[i]))
    ensures forall i, j :: 0 <= i < j < 3 ==> !(r[i] == Marked && r[j] == Marked)
    ensures (forall i :: 0 <= i < 3 ==> r[i] == Unknown) <==>
              FindAnswer(answers, "Geschlecht") == None || FindAnswer(answers, "Geschlecht") == Some("")
    ensures FindAnswer(answers, "Geschlecht") !in {None, Some(""), Some("w"), Some("m"), Some("d")} ==>
              forall i :: 0 <= i < 3 ==> r[i] == Blank
  {
    var gender := Lookup(answers, "Geschlecht", "");
    var found := FindAnswer(answers, "Geschlecht");
    assert gender == found.GetOr("");
    assert gender == "" <==> found.None? || found == Some("");
    var r := [ Mark(gender == "w", gender == ""),
               Mark(gender == "m", gender == ""),
               Mark(gender == "d", gender == "") ];
    assert r[0] == Unknown ==> gender == "";
    r
  }

  /** What the "PLZ, Ort" cell shows for a missing postcode or town. */
  const Missing: string := "?????"

  /**
   * The single "PLZ, Ort" cell: postcode, a space and town, each taken from
   * its first answer and "?????" when unanswered.
   */
  function PlzOrtCols(answers: seq<Answer>): (r: seq<Cell>)
    ensures |r| == 1
    ensures forall k, l :: IsFirst(answers, "PLZ", k) && IsFirst(answers, "Ort", l) ==>
              r[0] == Text(answers[k].value + " " + answers[l].value)
    ensures forall k :: IsFirst(answers, "PLZ", k) && Unanswered(answers, "Ort") ==>
              r[0] == Text(answers[k].value + " " + Missing)
    ensures forall l :: Unanswered(answers, "PLZ") && IsFirst(answers, "Ort", l) ==>
              r[0] == Text(Missing + " " + answers[l].value)
    ensures Unanswered(answers, "PLZ") && Unanswered(answers, "Ort") ==> r[0] == Text(Missing + " " + Missing)
  {
    var plz := Lookup(answers, "PLZ", Missing);
    var ort := Lookup(answers, "Ort", Missing);
    [Text(plz + " " + ort)]
  }

  /** An age range `lo <= age`, bounded above by `hi` (exclusive) when present. */
  datatype Bracket = Bracket(lo: int, hi: Option<int>)

  predicate InBracket(age: int, b: Bracket) {
    b.lo <= age && (b.hi.None? || age < b.hi.value)
  }

  /**
   * The brackets behind the headers "AEJ: 15-<18", "AEJ: 18-<27", "AEJ: >=27"
   * and "JBM: <10" (ages 1 to 9), "JBM: 10-<14", "JBM: 14-<18", "JBM: 18-<=26".
   */
  function Brackets(kind: PositionKind): seq<Bracket> {
    match kind
    case Aej => [Bracket(15, Some(18)), Bracket(18, Some(27)), Bracket(27, None)]
    case Jbm => [Bracket(1, Some(10)), Bracket(10, Some(14)), Bracket(14, Some(18)), Bracket(18, Some(27))]
    case Team => []
  }

  /**
   * The age columns of a sheet. For AEJ and JBM a column is "X" exactly when
   * the age lies in its bracket; a negative (unknown) age makes every column
   * "?", a known one makes none "?". The team sheet has one cell: the age
   * when positive, "?" otherwise.
   */
  function AgeCols(kind: PositionKind, age: int): (r: seq<Cell>)
    ensures kind != Team ==> |r| == |Brackets(kind)|
    ensures kind != Team ==> forall i :: 0 <= i < |r| ==> (r[i] == Marked <==> InBracket(age, Brackets(kind)[i]))
    ensures kind != Team && age < 0 ==> forall i :: 0 <= i < |r| ==> r[i] == Unknown
    ensures kind != Team && age >= 0 ==> forall i :: 0 <= i < |r| ==> r[i] == Marked || r[i] == Blank
    ensures forall i, j :: 0 <= i < j < |r| ==> !(r[i] == Marked && r[j] == Marked)
    ensures kind == Aej ==> ((exists i :: 0 <= i < |r| && r[i] == Marked) <==> 15 <= age)
    ensures kind == Jbm ==> ((exists i :: 0 <= i < |r| && r[i] == Marked) <==> 1 <= age <= 26)
    ensures kind == Team ==> |r| == 1 && (r[0] == Unknown <==> age <= 0) && (age > 0 ==> r[0] == Number(age))
  {
    match kind
    case Aej =>
      var r := [ Mark(15 <= age < 18, age < 0),
                 Mark(18 <= age < 27, age < 0),
                 Mark(27 <= age, age < 0) ];
      assert 15 <= age ==> r[if age < 18 then 0 else if age < 27 then 1 else 2] == Marked;
      r
    case Jbm =>
      var r := [ Mark(0 < age < 10, age < 0),
                 Mark(10 <= age < 14, age < 0),
                 Mark(14 <= age < 18, age < 0),
                 Mark(18 <= age <= 26, age < 0) ];
      assert 1 <= age <= 26 ==> r[if age < 10 then 0 else if age < 14 then 1 else if age < 18 then 2 else 3] == Marked;
      r
    case Team =>
      [if age > 0 then Number(age) else Unknown]
  }
}
