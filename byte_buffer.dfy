/**
 * A `java.nio.ByteBuffer` as the modelled serialisers use it: every
 * `ReadWriteIOUtils` primitive, `Expression.serialize`, `AggregationStep.serialize`,
 * `TSDataType.serializeTo`, `PlanNodeType.serialize` and `PlanNodeId.serialize`
 * puts one typed token, and the matching read takes one token back.
 */
module Buffers {
  import opened Wrappers
  import opened JavaLang
  import opened PlanTypes

  datatype Token =
    | IntTok(i: Int)                    // ReadWriteIOUtils.write(int)
    | LongTok(l: Long)                  // ReadWriteIOUtils.write(long)
    | BoolTok(b: bool)                  // ReadWriteIOUtils.write(boolean)
    | StringTok(s: Option<string>)      // ReadWriteIOUtils.write(String), null allowed
    | DataTypeTok(t: TSDataType)        // TSDataType.serializeTo
    | ExpressionTok(e: Expression)      // Expression.serialize
    | StepTok(step: AggregationStep)    // AggregationStep.serialize
    | NodeTypeTok(nodeType: PlanNodeType) // PlanNodeType.serialize
    | PlanNodeIdTok(id: PlanNodeId)     // PlanNodeId.serialize

  datatype TokenKind = IntKind | LongKind | BoolKind | StringKind | DataTypeKind
                     | ExpressionKind | StepKind | NodeTypeKind | PlanNodeIdKind

  function KindOf(t: Token): TokenKind
  {
    match t
    case IntTok(_) => IntKind
    case LongTok(_) => LongKind
    case BoolTok(_) => BoolKind
    case StringTok(_) => StringKind
    case DataTypeTok(_) => DataTypeKind
    case ExpressionTok(_) => ExpressionKind
    case StepTok(_) => StepKind
    case NodeTypeTok(_) => NodeTypeKind
    case PlanNodeIdTok(_) => PlanNodeIdKind
  }

  /** The Java exceptions that the modelled decoders can throw. */
  datatype JavaException =
    | BufferUnderflow        // reading past the end of the buffer
    | MismatchedField        // the bytes here do not hold the field being read
    | NegativeArraySize      // `new T[n]` with n < 0
    | IllegalArgument        // `new ArrayList<>(n)` with n < 0
    | ArrayIndexOutOfBounds  // `values()[i]` with i out of range
    | NullPointer            // `Objects.requireNonNull(null)`, or a null field dereferenced

  /** Reading one field of kind `kind` from the front of `ts`. */
  function ReadHead(ts: seq<Token>, kind: TokenKind): (r: Result<Token, JavaException>)
    ensures r.Ok? <==> |ts| > 0 && KindOf(ts[0]) == kind
    ensures r.Ok? ==> r.value == ts[0]
  {
    if ts == [] then Err(BufferUnderflow)
    else if KindOf(ts[0]) != kind then Err(MismatchedField)
    else Ok(ts[0])
  }

  class ByteBuffer {
    /** Everything written so far. */
    var tokens: seq<Token>
    /** The read position. */
    var position: nat

    ghost predicate Valid()
      reads this
    {
      position <= |tokens|
    }

    /** The tokens not yet read. */
    ghost function Remaining(): seq<Token>
      reads this
      requires Valid()
    {
      tokens[position..]
    }

    /** `ByteBuffer.allocate`. */
    constructor Allocate()
      ensures Valid() && tokens == [] && position == 0
    {
      tokens, position := [], 0;
    }

    /** `ByteBuffer.wrap` over bytes written earlier. */
    constructor Wrap(ts: seq<Token>)
      ensures Valid() && tokens == ts && position == 0
    {
      tokens, position := ts, 0;
    }

    method Put(t: Token)
      requires Valid()
      modifies this
      ensures Valid()
      ensures tokens == old(tokens) + [t] && position == old(position)
    {
      tokens := tokens + [t];
    }

    method Read(kind: TokenKind) returns (r: Result<Token, JavaException>)
      requires Valid()
      modifies this
      ensures Valid() && tokens == old(tokens)
      ensures r == ReadHead(old(Remaining()), kind)
      ensures position == old(position) + (if r.Ok? then 1 else 0)
    {
      if position == |tokens| {
        r := Err(BufferUnderflow);
      } else if KindOf(tokens[position]) != kind {
        r := Err(MismatchedField);
      } else {
        r := Ok(tokens[position]);
        position := position + 1;
      }
    }
  }

  // ---------------------------------------------------------------------------
  // A run of expressions, as the serialisers write a list or an array of them

  /** One `Expression.serialize` per expression, in order. */
  function ExpressionTokens(es: seq<Expression>): (ts: seq<Token>)
    ensures |ts| == |es|
    ensures forall i :: 0 <= i < |es| ==> ts[i] == ExpressionTok(es[i])
  {
    seq(|es|, i requires 0 <= i < |es| => ExpressionTok(es[i]))
  }

  /** `Expression.deserialize`, `count` times, collecting the expressions in order. */
  function DecodeExpressions(ts: seq<Token>, count: nat): Result<(seq<Expression>, seq<Token>), JavaException>
    decreases count
  {
    if count == 0 then Ok(([], ts))
    else
      match ReadHead(ts, ExpressionKind)
      case Err(e) => Err(e)
      case Ok(tok) =>
        match DecodeExpressions(ts[1..], count - 1)
        case Err(e) => Err(e)
        case Ok(more) => Ok(([tok.e] + more.0, more.1))
  }

  /** Put `done` in front of the expressions a decode still has to read. */
  function Prepend(done: seq<Expression>, r: Result<(seq<Expression>, seq<Token>), JavaException>)
    : Result<(seq<Expression>, seq<Token>), JavaException>
  {
    match r
    case Err(e) => Err(e)
    case Ok(more) => Ok((done + more.0, more.1))
  }

  /** Reading one more expression moves it from the pending part to `done`. */
  lemma PrependStep(done: seq<Expression>, ts: seq<Token>, count: nat)
    requires count > 0 && ReadHead(ts, ExpressionKind).Ok?
    ensures Prepend(done, DecodeExpressions(ts, count))
      == Prepend(done + [ts[0].e], DecodeExpressions(ts[1..], count - 1))
  {
    match DecodeExpressions(ts[1..], count - 1)
    case Err(e) =>
    case Ok(more) =>
      assert done + ([ts[0].e] + more.0) == done + [ts[0].e] + more.0;
  }

  /** Reading the run back gives the same expressions, and leaves what follows. */
  lemma {:induction false} DecodeExpressionTokens(es: seq<Expression>, rest: seq<Token>)
    ensures DecodeExpressions(ExpressionTokens(es) + rest, |es|) == Ok((es, rest))
    decreases |es|
  {
    var ts := ExpressionTokens(es) + rest;
    if es == [] {
      assert ts == rest;
    } else {
      assert ts[0] == ExpressionTok(es[0]);
      assert ReadHead(ts, ExpressionKind) == Ok(ExpressionTok(es[0]));
      DecodeExpressionTokens(es[1..], rest);
      assert ts[1..] == ExpressionTokens(es[1..]) + rest;
      assert [es[0]] + es[1..] == es;
    }
  }

  /** A run cut short fails with a buffer underflow. */
  lemma {:induction false} DecodeExpressionsTruncated(es: seq<Expression>, k: nat)
    requires k < |es|
    ensures DecodeExpressions(ExpressionTokens(es)[..k], |es|) == Err(BufferUnderflow)
    decreases k
  {
    var ts := ExpressionTokens(es)[..k];
    if k > 0 {
      DecodeExpressionsTruncated(es[1..], k - 1);
      assert ts[1..] == ExpressionTokens(es[1..])[..k - 1];
    }
  }
}
