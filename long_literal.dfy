/**
 * `LongLiteral`: a 64-bit integer constant of a statement; its two
 * constructors, its serialised form, the data types it may stand for,
 * `equals` and `hashCode`.
 */
module LongLiterals {
  import opened Wrappers
  import opened JavaLang
  import opened PlanTypes
  import opened Buffers

  /** The ordinal of LONG in `Literal.LiteralType` (BOOLEAN, DOUBLE, LONG, ...). */
  const LONG_LITERAL_TYPE: Int := 2

  datatype LongLiteral = LongLiteral(value: Long)
  {
    /** `isDataTypeConsistency`: a long constant fits an INT32 or an INT64 column. */
    predicate IsDataTypeConsistency(dataType: TSDataType): (ok: bool)
      ensures ok <==> dataType in {INT32, INT64}
    {
      dataType == INT32 || dataType == INT64
    }

    /** `equals`: another long literal with the same value; equal literals hash alike. */
    predicate Equals(that: LongLiteral): (eq: bool)
      ensures eq <==> this == that
      ensures eq ==> HashCode() == that.HashCode()
    {
      value == that.value
    }

    /** `hashCode`: `Objects.hash(value)`, which is `31 + Long.hashCode(value)` as an `int`. */
    function HashCode(): (h: Int)
      ensures h == Wrap32(31 + LongHash(value))
    {
      ObjectsHash1(LongHash(value));
      ListHash([LongHash(value)])
    }
  }

  /** `LongLiteral(String)`: the value `Long.parseLong` gives, or its exception. */
  function FromString(s: string): (r: Result<LongLiteral, NumberFormatException>)
    ensures r.Ok? <==> ParseLong(s).Ok?
    ensures r.Ok? ==> r.value.value == ParseLong(s).value
    ensures r.Err? ==> r.error == ParseLong(s).error
  {
    match ParseLong(s)
    case Ok(v) => Ok(LongLiteral(v))
    case Err(e) => Err(e)
  }

  /** A literal built from the decimal string of a long has that long as its value. */
  lemma FromStringOfToString(v: Long)
    ensures FromString(LongToString(v)) == Ok(LongLiteral(v))
  {
    ParseLongOfToString(v);
  }

  /** The empty string, or one without digits, is not a long literal. */
  lemma FromStringRejects()
    ensures FromString("").Err?
    ensures FromString("-").Err?
    ensures FromString("+").Err?
  {
  }

  /** The data types a long literal is consistent with are exactly INT32 and INT64. */
  lemma ConsistentTypes(l: LongLiteral)
    ensures forall t: TSDataType :: l.IsDataTypeConsistency(t) <==> t in {INT32, INT64}
    ensures !l.IsDataTypeConsistency(BOOLEAN) && !l.IsDataTypeConsistency(FLOAT)
    ensures !l.IsDataTypeConsistency(DOUBLE) && !l.IsDataTypeConsistency(TEXT)
  {
  }

  /** `equals` is an equivalence that compares values only, and equal literals hash alike. */
  lemma EqualsSpec(a: LongLiteral, b: LongLiteral, c: LongLiteral)
    ensures a.Equals(b) <==> a == b
    ensures a.Equals(b) ==> b.Equals(a) && a.HashCode() == b.HashCode()
    ensures a.Equals(b) && b.Equals(c) ==> a.Equals(c)
  {
  }

  /** What `serialize` writes: the LONG literal-type ordinal, then the value. */
  function Encode(l: LongLiteral): seq<Token>
  {
    [IntTok(LONG_LITERAL_TYPE), LongTok(l.value)]
  }

  /** `serialize`. */
  method Serialize(l: LongLiteral, buffer: ByteBuffer)
    requires buffer.Valid()
    modifies buffer
    ensures buffer.Valid() && buffer.position == old(buffer.position)
    ensures buffer.tokens == old(buffer.tokens) + Encode(l)
  {
    buffer.Put(IntTok(LONG_LITERAL_TYPE));
    buffer.Put(LongTok(l.value));
  }

  /**
   * The reading side, `Literal.deserialize` on the LONG tag: check the tag,
   * then read the value.
   */
  function Decode(ts: seq<Token>): Result<(LongLiteral, seq<Token>), JavaException>
  {
    match ReadHead(ts, IntKind)
    case Err(e) => Err(e)
    case Ok(tag) =>
      if tag.i != LONG_LITERAL_TYPE then Err(MismatchedField)
      else
        match ReadHead(ts[1..], LongKind)
        case Err(e) => Err(e)
        case Ok(v) => Ok((LongLiteral(v.l), ts[2..]))
  }

  /** The two tokens `serialize` writes read back as the same literal and nothing more. */
  lemma DecodeEncode(l: LongLiteral, rest: seq<Token>)
    ensures Decode(Encode(l) + rest) == Ok((l, rest))
    ensures |Encode(l)| == 2
  {
    var ts := Encode(l) + rest;
    assert ts[1..][0] == LongTok(l.value);
    assert ts[2..] == rest;
  }
}
