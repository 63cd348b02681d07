/**
 * Shared vocabulary of the model: optional values, results carrying the
 * .NET exception the source would raise, and the few string helpers
 * (ASCII case mapping, decimal rendering) that several components need.
 */
module Common {

  datatype Option<+T> = None | Some(value: T)

  /** The exceptions the modelled code raises, by .NET exception class. */
  datatype Error =
    | ArgumentNull(paramName: string)        // ArgumentNullException
    | Argument(message: string)              // ArgumentException
    | InvalidOperation(message: string)      // InvalidOperationException
    | NullReference                          // NullReferenceException
    | InvalidCast                            // InvalidCastException
    | ObjectDisposed(objectName: string)     // ObjectDisposedException
    | KeyNotFound                            // KeyNotFoundException (dictionary indexer)
    | Overflow                               // OverflowException (int.Parse)
    | Format                                 // FormatException (int.Parse)
    | Aggregate(inner: Error)                // AggregateException (Task.Wait), wrapping the task's error
    | General(message: string)               // plain System.Exception
    | Backend(message: string)               // an error reported by the database

  /** A value, or the exception that was raised instead. */
  datatype Result<+T> = Ok(value: T) | Err(error: Error) {
    predicate IsFailure() { Err? }
    function PropagateFailure<U>(): Result<U>
      requires Err?
    {
      Err(error)
    }
    function Extract(): T
      requires Ok?
    {
      value
    }
  }

  /** Completion of a void operation: normally, or by raising an exception. */
  datatype Outcome = Pass | Fail(error: Error)

  const Int32Max: int := 0x7fff_ffff

  /** A value written into SQL as a literal, e.g. a column default. */
  datatype Value = BoolValue(b: bool) | IntValue(i: int) | TextValue(text: string)

  /** An application object (a document's entity or an index), by type name and property values. */
  datatype ObjectValue = ObjectValue(typeName: string, properties: map<string, Value>)

  predicate IsAsciiUpper(c: char) { 'A' <= c <= 'Z' }
  predicate IsAsciiLower(c: char) { 'a' <= c <= 'z' }
  predicate IsAsciiLetter(c: char) { IsAsciiUpper(c) || IsAsciiLower(c) }
  predicate IsAsciiDigit(c: char) { '0' <= c <= '9' }

  /** Lower-cases the ASCII letters of a character, leaves the rest. */
  function ToLowerChar(c: char): (r: char)
    ensures IsAsciiUpper(c) ==> r != c && IsAsciiLower(r)
    ensures !IsAsciiUpper(c) ==> r == c
  {
    if IsAsciiUpper(c) then (c as int + 32) as char else c
  }

  /** Upper-cases the ASCII letters of a character, leaves the rest. */
  function ToUpperChar(c: char): (r: char)
    ensures IsAsciiLower(c) ==> IsAsciiUpper(r)
    ensures !IsAsciiLower(c) ==> r == c
  {
    if IsAsciiLower(c) then (c as int - 32) as char else c
  }

  function ToLower(s: string): (r: string)
    ensures |r| == |s|
    ensures forall i :: 0 <= i < |s| ==> r[i] == ToLowerChar(s[i])
  {
    if s == [] then [] else [ToLowerChar(s[0])] + ToLower(s[1..])
  }

  function ToUpper(s: string): (r: string)
    ensures |r| == |s|
    ensures forall i :: 0 <= i < |s| ==> r[i] == ToUpperChar(s[i])
  {
    if s == [] then [] else [ToUpperChar(s[0])] + ToUpper(s[1..])
  }

  /** Ordinal case-insensitive equality, restricted to ASCII case mapping. */
  predicate EqualsIgnoreCase(a: string, b: string) {
    ToUpper(a) == ToUpper(b)
  }

  /** The decimal digits of a natural number, without leading zeros. */
  function NatToString(n: nat): (r: string)
    ensures |r| >= 1
    ensures forall i :: 0 <= i < |r| ==> IsAsciiDigit(r[i])
    ensures n > 0 ==> r[0] != '0'
    decreases n
  {
    if n < 10 then [('0' as int + n) as char]
    else NatToString(n / 10) + [('0' as int + n % 10) as char]
  }

  /** The value of a run of ASCII decimal digits. */
  function DigitsValue(s: string): nat
    requires forall i :: 0 <= i < |s| ==> IsAsciiDigit(s[i])
  {
    if s == [] then 0
    else
      assert IsAsciiDigit(s[|s| - 1]);
      DigitsValue(s[..|s| - 1]) * 10 + (s[|s| - 1] as int - '0' as int)
  }

  /**
   * The collection-prefixed form of a table or type name.  The helper that
   * computes it is not part of this model; it is taken to follow the rule
   * the document table's name follows: the bare name in the default (empty)
   * collection, else `collection + "_" + name`.
   */
  function PrefixedName(collection: string, name: string): string {
    if collection == "" then name else collection + "_" + name
  }

  /** A full type name without its generic arguments: everything before the first `[`. */
  function BeforeArguments(fullName: string): (r: string)
    ensures |r| <= |fullName| && r == fullName[..|r|]
    ensures forall i :: 0 <= i < |r| ==> r[i] != '['
    ensures |r| < |fullName| ==> fullName[|r|] == '['
  {
    if fullName == [] || fullName[0] == '[' then [] else [fullName[0]] + BeforeArguments(fullName[1..])
  }

  /** The last segment of a dotted name: everything after the last `.` or `+`. */
  function LastSegment(name: string): (r: string)
    ensures |r| <= |name| && r == name[|name| - |r|..]
    ensures forall i :: 0 <= i < |r| ==> r[i] != '.' && r[i] != '+'
    ensures |r| < |name| ==> name[|name| - |r| - 1] == '.' || name[|name| - |r| - 1] == '+'
  {
    if name == [] || name[|name| - 1] == '.' || name[|name| - 1] == '+' then []
    else LastSegment(name[..|name| - 1]) + [name[|name| - 1]]
  }

  /**
   * `Type.Name` from `Type.FullName`: the generic arguments dropped, then
   * the namespace and any enclosing type (`Outer+Inner`).
   */
  function ShortTypeName(fullName: string): string {
    LastSegment(BeforeArguments(fullName))
  }

  /** A type declared in a namespace is named without it. */
  lemma {:induction false} ShortNameDropsNamespace(ns: string, name: string)
    requires forall i :: 0 <= i < |ns| ==> ns[i] != '['
    requires forall i :: 0 <= i < |name| ==> name[i] != '.' && name[i] != '+' && name[i] != '['
    ensures ShortTypeName(ns + "." + name) == name
  {
    NoArguments(ns + "." + name);
    SegmentAfterDot(ns, name);
  }

  lemma {:induction false} NoArguments(s: string)
    requires forall i :: 0 <= i < |s| ==> s[i] != '['
    ensures BeforeArguments(s) == s
  {
    if s != [] {
      NoArguments(s[1..]);
    }
  }

  lemma {:induction false} SegmentAfterDot(ns: string, name: string)
    requires forall i :: 0 <= i < |name| ==> name[i] != '.' && name[i] != '+'
    ensures LastSegment(ns + "." + name) == name
    decreases |name|
  {
    var s := ns + "." + name;
    if name == [] {
      assert s[|s| - 1] == '.';
    } else {
      var init := name[..|name| - 1];
      assert s[..|s| - 1] == ns + "." + init;
      SegmentAfterDot(ns, init);
      assert init + [name[|name| - 1]] == name;
    }
  }

  /** Concatenation of a sequence of sequences. */
  function Flatten<T>(xss: seq<seq<T>>): seq<T> {
    if xss == [] then [] else xss[0] + Flatten(xss[1..])
  }

  lemma {:induction false} FlattenAppend<T>(xss: seq<seq<T>>, yss: seq<seq<T>>)
    ensures Flatten(xss + yss) == Flatten(xss) + Flatten(yss)
  {
    if xss == [] {
      assert xss + yss == yss;
    } else {
      assert (xss + yss)[1..] == xss[1..] + yss;
      FlattenAppend(xss[1..], yss);
    }
  }

  /** An element of the concatenation comes from one of the parts. */
  lemma {:induction false} FlattenMember<T>(xss: seq<seq<T>>, x: T)
    requires x in Flatten(xss)
    ensures exists k :: 0 <= k < |xss| && x in xss[k]
  {
    if x !in xss[0] {
      FlattenMember(xss[1..], x);
      var k :| 0 <= k < |xss[1..]| && x in xss[1..][k];
      assert x in xss[k + 1];
    }
  }

  /** The concatenation of the first `g + 1` parts adds part `g` to that of the first `g`. */
  lemma FlattenPrefix<T>(xss: seq<seq<T>>, g: nat)
    requires g < |xss|
    ensures Flatten(xss[..g + 1]) == Flatten(xss[..g]) + xss[g]
  {
    assert xss[..g + 1] == xss[..g] + [xss[g]];
    FlattenAppend(xss[..g], [xss[g]]);
    assert [xss[g]][1..] == [];
  }

  /** Concatenation is associative. */
  lemma AppendAssoc<T>(a: seq<T>, b: seq<T>, c: seq<T>)
    ensures (a + b) + c == a + (b + c)
  {
  }
}
