/**
 * The cell audit hook: before the engine runs a cell it logs
 * "Executing cell N..." with the 1-based number of the cell, then hands the
 * cell on to the engine's own per-cell step unchanged.
 */
module Audit {
  import opened Wrappers
  import opened Types

  const AUDIT_PREFIX: string := "Executing cell "
  const AUDIT_SUFFIX: string := "..."

  predicate IsDigit(c: char) {
    '0' <= c <= '9'
  }

  predicate IsDigits(s: string) {
    forall k :: 0 <= k < |s| ==> IsDigit(s[k])
  }

  /** A decimal numeral as Python's str() writes an int >= 0: digits, no leading zero. */
  predicate IsCanonicalDecimal(s: string) {
    |s| > 0 && IsDigits(s) && (s[0] == '0' ==> |s| == 1)
  }

  function DigitChar(d: nat): (c: char)
    requires d < 10
    ensures IsDigit(c) && DigitValue(c) == d
  {
    ('0' as int + d) as char
  }

  function DigitValue(c: char): nat
    requires IsDigit(c)
  {
    c as int - '0' as int
  }

  /** The decimal rendering of `n` (the `{n}` of an f-string). */
  function Decimal(n: nat): (s: string)
    ensures IsCanonicalDecimal(s)
    ensures n < 10 <==> |s| == 1
  {
    if n < 10 then [DigitChar(n)] else Decimal(n / 10) + [DigitChar(n % 10)]
  }

  /** The number a string of digits denotes. */
  function DecimalValue(s: string): nat
    requires IsDigits(s)
  {
    if s == [] then 0 else DecimalValue(s[..|s| - 1]) * 10 + DigitValue(s[|s| - 1])
  }

  /** Reading back a rendered number gives the number. */
  lemma {:induction false} DecimalValueOfDecimal(n: nat)
    ensures DecimalValue(Decimal(n)) == n
  {
    if n >= 10 {
      var s := Decimal(n);
      assert s[..|s| - 1] == Decimal(n / 10);
      DecimalValueOfDecimal(n / 10);
    }
  }

  /** A numeral whose first digit is not zero denotes a positive number. */
  lemma {:induction false} LeadingNonZeroIsPositive(s: string)
    requires |s| > 0 && IsDigits(s) && s[0] != '0'
    ensures DecimalValue(s) > 0
  {
    if |s| > 1 {
      LeadingNonZeroIsPositive(s[..|s| - 1]);
    }
  }

  /** Rendering the number a canonical numeral denotes gives that numeral back. */
  lemma {:induction false} DecimalOfDecimalValue(s: string)
    requires IsCanonicalDecimal(s)
    ensures Decimal(DecimalValue(s)) == s
  {
    if |s| > 1 {
      var front := s[..|s| - 1];
      LeadingNonZeroIsPositive(front);
      DecimalOfDecimalValue(front);
      var n := DecimalValue(s);
      assert n / 10 == DecimalValue(front) && n % 10 == DigitValue(s[|s| - 1]);
      assert DigitChar(n % 10) == s[|s| - 1];
    }
  }

  /** The line the hook logs before the cell at 0-based position `index` runs. */
  function AuditMessage(index: nat): string {
    AUDIT_PREFIX + Decimal(index + 1) + AUDIT_SUFFIX
  }

  /** The 0-based cell position an audit line reports, if the line is one. */
  function ParseAuditMessage(line: string): Option<nat> {
    if |line| >= |AUDIT_PREFIX| + |AUDIT_SUFFIX|
       && line[..|AUDIT_PREFIX|] == AUDIT_PREFIX
       && line[|line| - |AUDIT_SUFFIX|..] == AUDIT_SUFFIX
    then
      var digits := line[|AUDIT_PREFIX|..|line| - |AUDIT_SUFFIX|];
      if IsCanonicalDecimal(digits) && DecimalValue(digits) >= 1 then Some(DecimalValue(digits) - 1)
      else None
    else None
  }

  /** An audit line names the cell it was logged for, counted from one. */
  lemma ParseAuditMessageOfAuditMessage(index: nat)
    ensures ParseAuditMessage(AuditMessage(index)) == Some(index)
  {
    var line := AuditMessage(index);
    var digits := Decimal(index + 1);
    assert line[..|AUDIT_PREFIX|] == AUDIT_PREFIX;
    assert line[|line| - |AUDIT_SUFFIX|..] == AUDIT_SUFFIX;
    assert line[|AUDIT_PREFIX|..|line| - |AUDIT_SUFFIX|] == digits;
    DecimalValueOfDecimal(index + 1);
  }

  /** Every line that parses as an audit line is the audit line of the cell it names. */
  lemma AuditMessageOfParseAuditMessage(line: string, index: nat)
    requires ParseAuditMessage(line) == Some(index)
    ensures AuditMessage(index) == line
  {
    var digits := line[|AUDIT_PREFIX|..|line| - |AUDIT_SUFFIX|];
    DecimalOfDecimalValue(digits);
    assert line == line[..|AUDIT_PREFIX|] + digits + line[|line| - |AUDIT_SUFFIX|..];
  }

  /** Distinct cells get distinct audit lines. */
  lemma AuditMessageInjective(i: nat, j: nat)
    requires AuditMessage(i) == AuditMessage(j)
    ensures i == j
  {
    ParseAuditMessageOfAuditMessage(i);
    ParseAuditMessageOfAuditMessage(j);
  }

  /**
   * The hook for the cell at `index`: the informational audit line, and what
   * the engine's own per-cell step (`execute`) makes of the cell and the
   * resources it was given, untouched by the hook.
   */
  function PreprocessCell<R>(cell: Cell, resources: R, index: nat, execute: (Cell, R, nat) -> (Cell, R))
    : (r: (LogLine, (Cell, R)))
    ensures r.0.level == Info && ParseAuditMessage(r.0.text) == Some(index)
    ensures r.1 == execute(cell, resources, index)
  {
    ParseAuditMessageOfAuditMessage(index);
    (LogLine(Info, AuditMessage(index)), execute(cell, resources, index))
  }
}
