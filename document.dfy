/**
 * The row stored in a collection's Document table, with the equality and
 * the hash code its class defines.  .NET `int` arithmetic in `GetHashCode`
 * is unchecked, so the hash is computed on 32-bit vectors; `string`
 * hashing is randomised per process in .NET and is a parameter here.
 */
module Documents {
  import opened Common

  /** A .NET `int`. */
  newtype Int32 = x: int | -0x8000_0000 <= x <= 0x7fff_ffff
  /** A .NET `long`. */
  newtype Int64 = x: int | -0x8000_0000_0000_0000 <= x <= 0x7fff_ffff_ffff_ffff

  /** `Type` and `Content` are nullable strings. */
  datatype Document = Document(id: Int32, docType: Option<string>, content: Option<string>, version: Int64)

  /** `Document.Equals(Document other)`: false for null, else field-wise. */
  predicate Equals(d: Document, other: Option<Document>)
  {
    match other
    case None => false
    case Some(o) => d.id == o.id && d.docType == o.docType && d.content == o.content && d.version == o.version
  }

  /** Two's complement bits of a 32-bit value (an unchecked conversion). */
  function Bits(x: int): bv32
    requires -0x8000_0000 <= x < 0x1_0000_0000
  {
    if x < 0 then (x + 0x1_0000_0000) as bv32 else x as bv32
  }

  /** `(int)Version`: the low 32 bits of the long. */
  function LowBits(v: Int64): bv32 {
    (v as int % 0x1_0000_0000) as bv32
  }

  /** The contribution of a nullable string: 0 when null or empty. */
  function StringPart(s: Option<string>, stringHash: string -> Int32): bv32 {
    match s
    case Some(t) => if t != "" then Bits(stringHash(t) as int) else 0
    case None => 0
  }

  /** One step `(hashCode * 397) ^ part` in unchecked 32-bit arithmetic. */
  function Mix(h: bv32, part: bv32): bv32 {
    (h * 397) ^ part
  }

  /** The four mixing steps of `GetHashCode`, seeded with 13. */
  function MixAll(idPart: bv32, typePart: bv32, contentPart: bv32, versionPart: bv32): bv32 {
    Mix(Mix(Mix(Mix(13, idPart), typePart), contentPart), versionPart)
  }

  /** `Document.GetHashCode()`, as the 32 bits of the returned `int`. */
  function HashCode(d: Document, stringHash: string -> Int32): bv32 {
    (MixAll(Bits(d.id as int), StringPart(d.docType, stringHash), StringPart(d.content, stringHash), LowBits(d.version)))
  }

  /** `Equals` holds exactly when the four fields agree, so it is the value equality of rows. */
  lemma EqualsIsFieldEquality(d: Document, o: Document)
    ensures Equals(d, Some(o)) <==> d == o
    ensures !Equals(d, None)
  {
  }

  /** `Equals` is reflexive and symmetric. */
  lemma EqualsReflexiveSymmetric(a: Document, b: Document)
    ensures Equals(a, Some(a))
    ensures Equals(a, Some(b)) ==> Equals(b, Some(a))
  {
  }

  /** Equal documents have equal hash codes, whatever the string hash. */
  lemma EqualImpliesEqualHash(a: Document, b: Document, stringHash: string -> Int32)
    requires Equals(a, Some(b))
    ensures HashCode(a, stringHash) == HashCode(b, stringHash)
  {
  }

  /** A null and an empty `Type` or `Content` give the same hash code. */
  lemma NullAndEmptyHashAlike(d: Document, stringHash: string -> Int32)
    ensures HashCode(d.(docType := None), stringHash) == HashCode(d.(docType := Some("")), stringHash)
    ensures HashCode(d.(content := None), stringHash) == HashCode(d.(content := Some("")), stringHash)
  {
    assert StringPart(None, stringHash) == StringPart(Some(""), stringHash) == 0;
  }

  /** Only the low 32 bits of `Version` reach the hash: versions that agree modulo 2^32 hash alike. */
  lemma {:induction false} VersionLowBitsOnly(d: Document, v: Int64, w: Int64, stringHash: string -> Int32)
    requires (v as int - w as int) % 0x1_0000_0000 == 0
    ensures HashCode(d.(version := v), stringHash) == HashCode(d.(version := w), stringHash)
  {
    var k := (v as int - w as int) / 0x1_0000_0000;
    assert v as int == w as int + k * 0x1_0000_0000;
    ModuloShift(w as int, k);
    assert LowBits(v) == LowBits(w);
  }

  lemma {:induction false} ModuloShift(x: int, k: int)
    ensures (x + k * 0x1_0000_0000) % 0x1_0000_0000 == x % 0x1_0000_0000
    decreases if k < 0 then -k else k
  {
    if k > 0 {
      ModuloShift(x, k - 1);
      assert x + k * 0x1_0000_0000 == (x + (k - 1) * 0x1_0000_0000) + 0x1_0000_0000;
    } else if k < 0 {
      ModuloShift(x, k + 1);
      assert x + k * 0x1_0000_0000 + 0x1_0000_0000 == x + (k + 1) * 0x1_0000_0000;
    }
  }
}
