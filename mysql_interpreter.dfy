/**
 * The MySQL command interpreter: how an alter-column and an add-index
 * command are rendered, and the column-name parser used for index
 * columns.  The parser is the regular expression
 *     ([a-zA-Z_][a-zA-Z0-9_]+)\s*(\(\s*(\d+)\s*\))?
 * matched leftmost, written out as a scanner.  The pattern needs no
 * backtracking to find its first match: the identifier, the blanks and the
 * digits are all taken greedily, and the optional length group either
 * matches at that point or is empty.  As in .NET, `\s` and `\d` are the
 * Unicode classes, over UTF-16 code units; `int.Parse` then accepts only
 * the ASCII digits.
 */
module MySqlInterpreter {
  import opened Common
  import opened Dialects
  import opened SchemaUtils

  /** `IAddIndexCommand`: table, index name and the listed columns. */
  datatype AddIndexCommand = AddIndexCommand(name: string, indexName: string, columnNames: seq<string>)

  /** The alter-column command asks to change size properties of a column whose type is `Object`. */
  predicate RejectsUntypedResize(dbType: DbType, c: AlterColumnCommand) {
    dbType == Object && AsksForSize(c)
  }

  /** The text `Run(builder, IAlterColumnCommand)` appends before it looks at the type. */
  function ModifyColumnPrefix(d: SqlDialect, schema: string, c: AlterColumnCommand): string {
    "alter table " + d.quoteForTableNameIn(c.name, schema) + " modify column " + d.quoteForColumnName(c.columnName) + " "
  }

  /** The default-value statement the method builds and then drops. */
  function SetDefaultStatement(d: SqlDialect, schema: string, c: AlterColumnCommand): string {
    "alter table " + d.quoteForTableNameIn(c.name, schema) + " alter column " + d.quoteForColumnName(c.columnName) + " "
    + (if c.default.Some? then " set default " + d.getSqlValue(c.default.value) + " " else "")
  }

  /**
   * `Run(builder, IAlterColumnCommand)`.  The builder receives the modify
   * text and the type name; a default value only reaches a local list that
   * is not returned, so it never reaches the builder.  The exception for a
   * resize without a type is raised after the prefix has been appended.
   */
  method RunAlterColumn(d: SqlDialect, schema: string, builder: StringBuilder, c: AlterColumnCommand) returns (o: Outcome)
    modifies builder
    ensures o.Fail? <==> RejectsUntypedResize(d.toDbType(c.dbType), c)
    ensures o.Fail? ==> o.error == General(ResizeWithoutTypeMessage)
    ensures builder.text == old(builder.text) + ModifyColumnPrefix(d, schema, c)
      + (if d.toDbType(c.dbType) != Object then d.getTypeName(d.toDbType(c.dbType), c.length, c.precision, c.scale) else "")
  {
    builder.Append(ModifyColumnPrefix(d, schema, c));
    var initLength := |builder.text|;
    var dbType := d.toDbType(c.dbType);
    if dbType != Object {
      builder.Append(d.getTypeName(dbType, c.length, c.precision, c.scale));
    } else if AsksForSize(c) {
      return Fail(General(ResizeWithoutTypeMessage));
    }
    var builder2 := new StringBuilder();
    builder2.Append("alter table " + d.quoteForTableNameIn(c.name, schema) + " alter column " + d.quoteForColumnName(c.columnName) + " ");
    var initLength2 := |builder2.text|;
    if c.default.Some? {
      builder2.Append(" set default " + d.getSqlValue(c.default.value) + " ");
    }
    var result: seq<string> := [];
    if |builder.text| > initLength {
      result := result + [builder.text];
    }
    if |builder2.text| > initLength2 {
      result := result + [builder2.text];
    }
    assert builder2.text == SetDefaultStatement(d, schema, c);
    return Pass;
  }

  // ---------------------------------------------------------------------
  // The column-name pattern.

  predicate IsIdentStart(c: char) { IsAsciiLetter(c) || c == '_' }
  predicate IsIdentChar(c: char) { IsAsciiLetter(c) || IsAsciiDigit(c) || c == '_' }
  /**
   * `\s` in .NET: the control characters U+0009 to U+000D, U+0085, and the
   * Unicode separators (categories Zs, Zl and Zp).
   */
  predicate IsBlank(c: char) {
    var n := c as int;
    (0x09 <= n <= 0x0d) || n == 0x20 || n == 0x85 || n == 0xa0 || n == 0x1680
    || (0x2000 <= n <= 0x200a) || n == 0x2028 || n == 0x2029 || n == 0x202f || n == 0x205f || n == 0x3000
  }

  /** `n` is one of the ten digits of the run that starts at `zero`. */
  predicate DigitRun(n: int, zero: int) { zero <= n < zero + 10 }

  /**
   * `\d` in .NET: a decimal digit (Unicode category Nd).  Every such digit
   * belongs to a run of ten; these are the runs of the Basic Multilingual
   * Plane, by their zero.  A character outside that plane is a surrogate
   * pair in a .NET string, and a surrogate is no digit.
   */
  predicate IsDecimalDigit(c: char) {
    var n := c as int;
    DigitRun(n, 0x0030) || DigitRun(n, 0x0660) || DigitRun(n, 0x06f0) || DigitRun(n, 0x07c0) || DigitRun(n, 0x0966)
    || DigitRun(n, 0x09e6) || DigitRun(n, 0x0a66) || DigitRun(n, 0x0ae6) || DigitRun(n, 0x0b66) || DigitRun(n, 0x0be6)
    || DigitRun(n, 0x0c66) || DigitRun(n, 0x0ce6) || DigitRun(n, 0x0d66) || DigitRun(n, 0x0de6) || DigitRun(n, 0x0e50)
    || DigitRun(n, 0x0ed0) || DigitRun(n, 0x0f20) || DigitRun(n, 0x1040) || DigitRun(n, 0x1090) || DigitRun(n, 0x17e0)
    || DigitRun(n, 0x1810) || DigitRun(n, 0x1946) || DigitRun(n, 0x19d0) || DigitRun(n, 0x1a80) || DigitRun(n, 0x1a90)
    || DigitRun(n, 0x1b50) || DigitRun(n, 0x1bb0) || DigitRun(n, 0x1c40) || DigitRun(n, 0x1c50) || DigitRun(n, 0xa620)
    || DigitRun(n, 0xa8d0) || DigitRun(n, 0xa900) || DigitRun(n, 0xa9d0) || DigitRun(n, 0xa9f0) || DigitRun(n, 0xaa50)
    || DigitRun(n, 0xabf0) || DigitRun(n, 0xff10)
  }

  /** A match of the pattern can begin at `p`: an identifier start followed by an identifier character. */
  predicate StartsMatch(s: string, p: int) {
    0 <= p && p + 1 < |s| && IsIdentStart(s[p]) && IsIdentChar(s[p + 1])
  }

  /** The end of the longest run of characters satisfying the class, from `q`. */
  function IdentEnd(s: string, q: nat): (e: nat)
    requires q <= |s|
    ensures q <= e <= |s|
    ensures forall k :: q <= k < e ==> IsIdentChar(s[k])
    ensures e == |s| || !IsIdentChar(s[e])
    decreases |s| - q
  {
    if q < |s| && IsIdentChar(s[q]) then IdentEnd(s, q + 1) else q
  }

  function BlanksEnd(s: string, q: nat): (e: nat)
    requires q <= |s|
    ensures q <= e <= |s|
    ensures forall k :: q <= k < e ==> IsBlank(s[k])
    ensures e == |s| || !IsBlank(s[e])
    decreases |s| - q
  {
    if q < |s| && IsBlank(s[q]) then BlanksEnd(s, q + 1) else q
  }

  function DigitsEnd(s: string, q: nat): (e: nat)
    requires q <= |s|
    ensures q <= e <= |s|
    ensures forall k :: q <= k < e ==> IsDecimalDigit(s[k])
    ensures e == |s| || !IsDecimalDigit(s[e])
    decreases |s| - q
  {
    if q < |s| && IsDecimalDigit(s[q]) then DigitsEnd(s, q + 1) else q
  }

  /** The leftmost position at or after `p` where a match begins. */
  function FirstMatchStart(s: string, p: nat): (r: Option<nat>)
    ensures r.Some? ==> p <= r.value && StartsMatch(s, r.value)
    ensures forall k :: p <= k && (r.None? || k < r.value) ==> !StartsMatch(s, k)
    decreases |s| - p
  {
    if p + 1 >= |s| then None
    else if StartsMatch(s, p) then Some(p)
    else FirstMatchStart(s, p + 1)
  }

  /** The groups of a successful match: group 1, and group 3 when the length group took part. */
  datatype ColumnMatch = ColumnMatch(ident: string, digits: Option<string>)

  /** `(\(\s*(\d+)\s*\))?` at position `q`: the digits when the group matches there. */
  function LengthGroup(s: string, q: nat): (r: Option<string>)
    requires q <= |s|
    ensures r.Some? ==> |r.value| >= 1 && forall k :: 0 <= k < |r.value| ==> IsDecimalDigit(r.value[k])
  {
    if q < |s| && s[q] == '(' then
      var r := BlanksEnd(s, q + 1);
      var e := DigitsEnd(s, r);
      var t := BlanksEnd(s, e);
      if e > r && t < |s| && s[t] == ')' then Some(s[r..e]) else None
    else None
  }

  /** `ColumnNamePattern.Match(name)`. */
  function MatchColumnName(s: string): (r: Option<ColumnMatch>)
    ensures r.Some? ==> |r.value.ident| >= 2 && IsIdentStart(r.value.ident[0])
    ensures r.Some? ==> forall k :: 0 <= k < |r.value.ident| ==> IsIdentChar(r.value.ident[k])
  {
    match FirstMatchStart(s, 0)
    case None => None
    case Some(p) =>
      var e := IdentEnd(s, p + 1);
      Some(ColumnMatch(s[p..e], LengthGroup(s, BlanksEnd(s, e))))
  }

  /**
   * `GetColumName(name)`.  `int.Parse` of the length raises
   * `FormatException` on a digit other than `0`..`9`, and
   * `OverflowException` on a value above `int.MaxValue`.
   */
  function GetColumnName(d: SqlDialect, name: string): Result<string> {
    match MatchColumnName(name)
    case None => Ok(d.quoteForColumnName(name))
    case Some(m) =>
      if m.digits.None? then Ok(d.quoteForColumnName(m.ident))
      else if !IsAsciiDigits(m.digits.value) then Err(Format)
      else
        var n := DigitsValue(m.digits.value);
        if n > Int32Max then Err(Overflow)
        else Ok(d.quoteForColumnName(m.ident) + "(" + NatToString(n) + ")")
  }

  /** The rendered index columns joined by ", ", or the first column that fails to render. */
  function JoinColumnNames(d: SqlDialect, names: seq<string>): Result<string> {
    if names == [] then Ok("")
    else
      var head :- GetColumnName(d, names[0]);
      if |names| == 1 then Ok(head)
      else
        var tail :- JoinColumnNames(d, names[1..]);
        Ok(head + ", " + tail)
  }

  /** `Run(builder, IAddIndexCommand)`: appends one `create index` statement. */
  method RunAddIndex(d: SqlDialect, schema: string, builder: StringBuilder, c: AddIndexCommand) returns (o: Outcome)
    modifies builder
    ensures JoinColumnNames(d, c.columnNames).Err? ==> o == Fail(JoinColumnNames(d, c.columnNames).error) && builder.text == old(builder.text)
    ensures JoinColumnNames(d, c.columnNames).Ok? ==>
      o == Pass && builder.text == old(builder.text) + ("create index " + d.quoteForColumnName(c.indexName)
        + " on " + d.quoteForTableNameIn(c.name, schema) + " (" + JoinColumnNames(d, c.columnNames).value + ") ")
  {
    var columns := JoinColumnNames(d, c.columnNames);
    if columns.Err? {
      return Fail(columns.error);
    }
    builder.Append("create index " + d.quoteForColumnName(c.indexName) + " on " + d.quoteForTableNameIn(c.name, schema)
      + " (" + columns.value + ") ");
    return Pass;
  }

  // ---------------------------------------------------------------------
  // Properties of the parser.

  predicate IsIdentifier(ident: string) {
    |ident| >= 2 && IsIdentStart(ident[0]) && forall k :: 0 <= k < |ident| ==> IsIdentChar(ident[k])
  }

  predicate IsAsciiDigits(s: string) {
    forall k :: 0 <= k < |s| ==> IsAsciiDigit(s[k])
  }

  predicate IsDigits(s: string) {
    |s| >= 1 && IsAsciiDigits(s)
  }

  /** No match anywhere exactly when no position holds an identifier start followed by an identifier character. */
  lemma NoMatchIff(s: string)
    ensures MatchColumnName(s).None? <==> forall p :: 0 <= p < |s| ==> !StartsMatch(s, p)
  {
  }

  /** An input without a match is quoted whole; a one-letter name cannot match. */
  lemma NoMatchQuotesWholeName(d: SqlDialect)
    ensures GetColumnName(d, "a(5)") == Ok(d.quoteForColumnName("a(5)"))
  {
    assert !StartsMatch("a(5)", 0) && !StartsMatch("a(5)", 1) && !StartsMatch("a(5)", 2);
  }

  lemma {:induction false} IdentEndAt(s: string, q: nat, e: nat)
    requires q <= e <= |s|
    requires forall k :: q <= k < e ==> IsIdentChar(s[k])
    requires e == |s| || !IsIdentChar(s[e])
    ensures IdentEnd(s, q) == e
    decreases e - q
  {
    if q < e {
      IdentEndAt(s, q + 1, e);
    }
  }

  lemma {:induction false} DigitsEndAt(s: string, q: nat, e: nat)
    requires q <= e <= |s|
    requires forall k :: q <= k < e ==> IsDecimalDigit(s[k])
    requires e == |s| || !IsDecimalDigit(s[e])
    ensures DigitsEnd(s, q) == e
    decreases e - q
  {
    if q < e {
      DigitsEndAt(s, q + 1, e);
    }
  }

  lemma {:induction false} FirstMatchFound(s: string, q: nat, p: nat)
    requires q <= p && StartsMatch(s, p)
    requires forall k :: q <= k < p ==> !StartsMatch(s, k)
    ensures FirstMatchStart(s, q) == Some(p)
    decreases p - q
  {
    if q < p {
      FirstMatchFound(s, q + 1, p);
    }
  }

  predicate IsBlanks(s: string) {
    forall k :: 0 <= k < |s| ==> IsBlank(s[k])
  }

  /** A run of `\d` characters: at least one decimal digit, ASCII or not. */
  predicate IsDecimalDigits(s: string) {
    |s| >= 1 && forall k :: 0 <= k < |s| ==> IsDecimalDigit(s[k])
  }

  lemma AsciiDigitsAreDecimal(s: string)
    requires IsDigits(s)
    ensures IsDecimalDigits(s)
  {
  }

  /**
   * `ident blanks(digits)` matches with the identifier as group 1 and the
   * digits as group 3, for any white space `\s` accepts and any decimal
   * digits `\d` accepts.
   */
  lemma MatchIdentifierWithLength(ident: string, blanks: string, digits: string)
    requires IsIdentifier(ident) && IsBlanks(blanks) && IsDecimalDigits(digits)
    ensures MatchColumnName(ident + blanks + "(" + digits + ")") == Some(ColumnMatch(ident, Some(digits)))
  {
    var s := ident + blanks + "(" + digits + ")";
    var e := |ident|;
    var o := e + |blanks|;
    var t := o + 1 + |digits|;
    WithLengthLayout(ident, blanks, digits);
    assert StartsMatch(s, 0);
    IdentEndAt(s, 1, e);
    BlanksEndAt(s, e, o);
    DigitsEndAt(s, o + 1, t);
    assert BlanksEnd(s, o + 1) == o + 1;
    assert BlanksEnd(s, t) == t;
  }

  lemma {:induction false} BlanksEndAt(s: string, q: nat, e: nat)
    requires q <= e <= |s|
    requires forall k :: q <= k < e ==> IsBlank(s[k])
    requires e == |s| || !IsBlank(s[e])
    ensures BlanksEnd(s, q) == e
    decreases e - q
  {
    if q < e {
      BlanksEndAt(s, q + 1, e);
    }
  }

  /** Where the parts of `ident blanks(digits)` sit. */
  lemma WithLengthLayout(ident: string, blanks: string, digits: string)
    ensures var s := ident + blanks + "(" + digits + ")";
      var e := |ident|;
      var o := e + |blanks|;
      var t := o + 1 + |digits|;
      |s| == t + 1 && s[o] == '(' && s[t] == ')'
      && (forall k :: 0 <= k < e ==> s[k] == ident[k])
      && (forall k :: e <= k < o ==> s[k] == blanks[k - e])
      && (forall k :: o + 1 <= k < t ==> s[k] == digits[k - o - 1])
      && s[o + 1..t] == digits && s[0..e] == ident
  {
    var s := ident + blanks + "(" + digits + ")";
    var e := |ident|;
    var o := e + |blanks|;
    var t := o + 1 + |digits|;
    assert forall k :: 0 <= k < e ==> s[k] == ident[k];
    assert forall k :: e <= k < o ==> s[k] == blanks[k - e];
    assert forall k :: o + 1 <= k < t ==> s[k] == digits[k - o - 1];
    assert s[o + 1..t] == digits;
    assert s[0..e] == ident;
  }

  /**
   * `ident blanks(digits)` renders as the quoted identifier followed by the
   * parsed length, whatever white space precedes the parenthesis.
   */
  lemma IdentifierWithLength(d: SqlDialect, ident: string, blanks: string, digits: string)
    requires IsIdentifier(ident) && IsBlanks(blanks) && IsDigits(digits)
    requires DigitsValue(digits) <= Int32Max
    ensures GetColumnName(d, ident + blanks + "(" + digits + ")")
         == Ok(d.quoteForColumnName(ident) + "(" + NatToString(DigitsValue(digits)) + ")")
  {
    MatchIdentifierWithLength(ident, blanks, digits);
  }

  /** A no-break space is white space to `\s`, so the length is still rendered. */
  lemma NoBreakSpaceBeforeLength(d: SqlDialect)
    ensures GetColumnName(d, "ab\U{00A0}(5)") == Ok(d.quoteForColumnName("ab") + "(5)")
  {
    var blanks, digits := "\U{00A0}", "5";
    assert IsBlanks(blanks) && IsDigits(digits);
    assert "ab" + blanks + "(" + digits + ")" == "ab\U{00A0}(5)";
    assert DigitsValue(digits) == 5 by {
      assert digits[..0] == [];
    }
    IdentifierWithLength(d, "ab", blanks, digits);
    assert NatToString(5) == "5";
    assert d.quoteForColumnName("ab") + "(" + "5" + ")" == d.quoteForColumnName("ab") + "(5)";
  }

  /** A length that does not fit an `int` makes the parse raise. */
  lemma LengthOverflowRaises(d: SqlDialect, ident: string, digits: string)
    requires IsIdentifier(ident) && IsDigits(digits)
    requires DigitsValue(digits) > Int32Max
    ensures GetColumnName(d, ident + "(" + digits + ")") == Err(Overflow)
  {
    MatchIdentifierWithLength(ident, "", digits);
    assert ident + "" == ident;
  }

  /**
   * A length with a decimal digit outside `0`..`9` is matched by `\d` but
   * refused by `int.Parse`, which raises `FormatException`.
   */
  lemma NonAsciiDigitRaisesFormat(d: SqlDialect, ident: string, blanks: string, digits: string)
    requires IsIdentifier(ident) && IsBlanks(blanks) && IsDecimalDigits(digits)
    requires exists k :: 0 <= k < |digits| && !IsAsciiDigit(digits[k])
    ensures GetColumnName(d, ident + blanks + "(" + digits + ")") == Err(Format)
  {
    MatchIdentifierWithLength(ident, blanks, digits);
  }

  /** The Arabic-Indic digit three is such a digit. */
  lemma ArabicIndicDigitRaisesFormat(d: SqlDialect)
    ensures GetColumnName(d, "ab(\U{0663})") == Err(Format)
  {
    assert IsDecimalDigit('\U{0663}') && !IsAsciiDigit("\U{0663}"[0]);
    NonAsciiDigitRaisesFormat(d, "ab", "", "\U{0663}");
    assert "ab" + "" + "(" + "\U{0663}" + ")" == "ab(\U{0663})";
  }

  lemma {:induction false} ZerosValue(zeros: string)
    requires forall k :: 0 <= k < |zeros| ==> zeros[k] == '0'
    ensures DigitsValue(zeros) == 0
  {
    if zeros != [] {
      ZerosValue(zeros[..|zeros| - 1]);
    }
  }

  lemma {:induction false} LeadingZerosValue(zeros: string, digits: string)
    requires forall k :: 0 <= k < |zeros| ==> zeros[k] == '0'
    requires forall k :: 0 <= k < |digits| ==> IsAsciiDigit(digits[k])
    ensures DigitsValue(zeros + digits) == DigitsValue(digits)
    decreases |digits|
  {
    if digits == [] {
      assert zeros + digits == zeros;
      ZerosValue(zeros);
    } else {
      assert (zeros + digits)[..|zeros + digits| - 1] == zeros + digits[..|digits| - 1];
      LeadingZerosValue(zeros, digits[..|digits| - 1]);
    }
  }

  /** Leading zeros of the length are dropped, as `int.Parse` drops them. */
  lemma LeadingZerosDropped(d: SqlDialect, ident: string, zeros: string, digits: string)
    requires IsIdentifier(ident) && IsDigits(digits)
    requires forall k :: 0 <= k < |zeros| ==> zeros[k] == '0'
    ensures GetColumnName(d, ident + "(" + zeros + digits + ")") == GetColumnName(d, ident + "(" + digits + ")")
  {
    ZerosThenDigits(zeros, digits);
    LeadingZerosValue(zeros, digits);
    assert ident + "(" + zeros + digits + ")" == ident + "(" + (zeros + digits) + ")";
    if DigitsValue(digits) <= Int32Max {
      IdentifierWithLength(d, ident, "", zeros + digits);
      IdentifierWithLength(d, ident, "", digits);
      assert ident + "" == ident;
    } else {
      LengthOverflowRaises(d, ident, zeros + digits);
      LengthOverflowRaises(d, ident, digits);
    }
  }

  lemma ZerosThenDigits(zeros: string, digits: string)
    requires IsDigits(digits)
    requires forall k :: 0 <= k < |zeros| ==> zeros[k] == '0'
    ensures IsDigits(zeros + digits)
  {
    assert forall k :: 0 <= k < |zeros| ==> (zeros + digits)[k] == zeros[k];
    assert forall k :: |zeros| <= k < |zeros + digits| ==> (zeros + digits)[k] == digits[k - |zeros|];
  }

  /**
   * Without a length group, the first identifier is quoted and whatever
   * surrounds it is dropped: leading characters that cannot start an
   * identifier, and trailing text that does not begin with blanks and `(`.
   */
  lemma JunkAroundIdentifierDropped(d: SqlDialect, junk: string, ident: string, rest: string)
    requires forall k :: 0 <= k < |junk| ==> !IsIdentStart(junk[k])
    requires IsIdentifier(ident)
    requires rest == [] || (!IsIdentChar(rest[0]) && !IsBlank(rest[0]) && rest[0] != '(')
    ensures GetColumnName(d, junk + ident + rest) == Ok(d.quoteForColumnName(ident))
  {
    var s := junk + ident + rest;
    var p := |junk|;
    var e := p + |ident|;
    assert forall k :: 0 <= k < p ==> s[k] == junk[k];
    assert forall k :: p <= k < e ==> s[k] == ident[k - p];
    assert rest != [] ==> s[e] == rest[0];
    assert StartsMatch(s, p);
    FirstMatchFound(s, 0, p);
    IdentEndAt(s, p + 1, e);
    assert BlanksEnd(s, e) == e;
    assert s[p..e] == ident;
  }
}
