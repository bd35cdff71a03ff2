/**
 * The spreadsheet formula-injection guard for CSV cells.
 */
module CsvSanitize {
  import opened Text

  /** A cell value: a string, an integer, `null` or `undefined`. */
  datatype Cell = Str(s: string) | Num(n: int) | Null | Undefined

  /** `String(value ?? '')`. */
  function CellText(v: Cell): string {
    match v
    case Str(s) => s
    case Num(n) => IntToString(n)
    case Null => ""
    case Undefined => ""
  }

  /** The characters a spreadsheet reads as the start of a formula. */
  predicate IsFormulaStart(c: char) {
    c == '=' || c == '+' || c == '-' || c == '@'
  }

  predicate Dangerous(s: string) {
    s != [] && IsFormulaStart(s[0])
  }

  /** `sanitizeForCsvCell`: text starting with a formula character gets a leading `'`. */
  function SanitizeForCsvCell(v: Cell): string {
    var str := CellText(v);
    if Dangerous(str) then "'" + str else str
  }

  /** `null` and `undefined` become the empty string. */
  lemma SanitizeNullish(v: Cell)
    requires v.Null? || v.Undefined?
    ensures SanitizeForCsvCell(v) == ""
  {
  }

  /**
   * A dangerous first character is neutralised by one `'`; anything else is
   * returned as it is, so the length grows by at most one.
   */
  lemma SanitizeShape(v: Cell)
    ensures Dangerous(CellText(v)) <==> SanitizeForCsvCell(v) == "'" + CellText(v)
    ensures !Dangerous(CellText(v)) <==> SanitizeForCsvCell(v) == CellText(v)
    ensures |SanitizeForCsvCell(v)| == |CellText(v)| || |SanitizeForCsvCell(v)| == |CellText(v)| + 1
  {
  }

  /** The result never starts with a formula character. */
  lemma SanitizeSafe(v: Cell)
    ensures !Dangerous(SanitizeForCsvCell(v))
  {
  }

  /** Sanitising the sanitised text changes nothing. */
  lemma SanitizeIdempotent(v: Cell)
    ensures SanitizeForCsvCell(Str(SanitizeForCsvCell(v))) == SanitizeForCsvCell(v)
  {
    SanitizeSafe(v);
  }

  /** A negative number is text starting with `-`, so it is prefixed too. */
  lemma SanitizeNegative(n: int)
    requires n < 0
    ensures SanitizeForCsvCell(Num(n)) == "'" + IntToString(n)
  {
  }
}
