/**
 * `FilterNode`: the plan node that keeps the rows satisfying a predicate and
 * computes its output expressions; its attribute layout on the wire, the
 * matching decoder, `clone` and `equals`.
 */
module FilterNodes {
  import opened Wrappers
  import opened JavaLang
  import opened PlanTypes
  import opened Buffers

  class FilterNode {
    const id: PlanNodeId
    /** The child plan node, known by its id; None for a node built without one. */
    const child: Option<PlanNodeId>
    /** The `Expression[]` of the transform node; `clone` shares it rather than copying it. */
    const outputExpressions: array<Expression>
    /** The `predicate` field. */
    const filterPredicate: Expression
    const keepNull: bool
    const zoneId: ZoneId

    /** The constructor that takes the child plan node. */
    constructor WithChild(id: PlanNodeId, child: PlanNodeId, outputExpressions: array<Expression>,
                          filterPredicate: Expression, keepNull: bool, zoneId: ZoneId)
      ensures this.id == id && this.child == Some(child) && this.outputExpressions == outputExpressions
      ensures this.filterPredicate == filterPredicate && this.keepNull == keepNull && this.zoneId == zoneId
    {
      this.id := id;
      this.child := Some(child);
      this.outputExpressions := outputExpressions;
      this.filterPredicate := filterPredicate;
      this.keepNull := keepNull;
      this.zoneId := zoneId;
    }

    /** The constructor without a child. */
    constructor(id: PlanNodeId, outputExpressions: array<Expression>,
                filterPredicate: Expression, keepNull: bool, zoneId: ZoneId)
      ensures this.id == id && child == None && this.outputExpressions == outputExpressions
      ensures this.filterPredicate == filterPredicate && this.keepNull == keepNull && this.zoneId == zoneId
    {
      this.id := id;
      child := None;
      this.outputExpressions := outputExpressions;
      this.filterPredicate := filterPredicate;
      this.keepNull := keepNull;
      this.zoneId := zoneId;
    }

    /** `clone`: a new node with the same id, the same output array, predicate, null flag and zone, and no child. */
    method Clone() returns (c: FilterNode)
      ensures fresh(c)
      ensures c.id == id && c.child == None && c.outputExpressions == outputExpressions
      ensures c.filterPredicate == filterPredicate && c.keepNull == keepNull && c.zoneId == zoneId
    {
      c := new FilterNode(id, outputExpressions, filterPredicate, keepNull, zoneId);
    }

    /** `serializeAttributes`. */
    method SerializeAttributes(buffer: ByteBuffer)
      requires buffer.Valid() && outputExpressions.Length <= INT_MAX
      modifies buffer
      ensures buffer.Valid() && buffer.position == old(buffer.position)
      ensures buffer.tokens == old(buffer.tokens) + Encode(outputExpressions[..], filterPredicate, keepNull, zoneId)
    {
      buffer.Put(NodeTypeTok(FILTER));
      buffer.Put(IntTok(outputExpressions.Length));
      ghost var head := buffer.tokens;
      for i := 0 to outputExpressions.Length
        invariant buffer.Valid() && buffer.position == old(buffer.position)
        invariant buffer.tokens == head + ExpressionTokens(outputExpressions[..i])
      {
        buffer.Put(ExpressionTok(outputExpressions[i]));
        assert ExpressionTokens(outputExpressions[..i + 1])
          == ExpressionTokens(outputExpressions[..i]) + [ExpressionTok(outputExpressions[i])];
      }
      assert outputExpressions[..outputExpressions.Length] == outputExpressions[..];
      buffer.Put(ExpressionTok(filterPredicate));
      buffer.Put(BoolTok(keepNull));
      buffer.Put(StringTok(Some(zoneId.id)));
    }

    /**
     * `equals`: the same object, or the transform-node `equals` holds
     * (`superEquals`, which is not part of this model) and the predicates are equal.
     */
    predicate Equals(that: FilterNode, superEquals: bool): (eq: bool)
      ensures this == that ==> eq
      ensures !superEquals ==> (eq <==> this == that)
      ensures eq ==> filterPredicate == that.filterPredicate
      ensures eq ==> forall superHash: int, expressionHash: Expression -> int ::
        HashCode(superHash, expressionHash) == that.HashCode(superHash, expressionHash)
    {
      this == that || (superEquals && filterPredicate == that.filterPredicate)
    }

    /**
     * `hashCode`: `Objects.hash` of the transform node's hash and the predicate's,
     * which is `31^2 + 31 * superHash + predicateHash` as an `int`.
     */
    function HashCode(superHash: int, expressionHash: Expression -> int): (h: Int)
      ensures h == Wrap32(961 + 31 * superHash + expressionHash(filterPredicate))
    {
      ObjectsHash2(superHash, expressionHash(filterPredicate));
      ListHash([superHash, expressionHash(filterPredicate)])
    }
  }

  /** What `serializeAttributes` writes: the type tag, the count, the outputs, the predicate, the flag, the zone id. */
  function Encode(outputs: seq<Expression>, filterPredicate: Expression, keepNull: bool, zoneId: ZoneId): seq<Token>
    requires |outputs| <= INT_MAX
  {
    [NodeTypeTok(FILTER), IntTok(|outputs|)] + ExpressionTokens(outputs)
    + [ExpressionTok(filterPredicate), BoolTok(keepNull), StringTok(Some(zoneId.id))]
  }

  /** A filter node's fields as `deserialize` reads them, and what is left of the buffer. */
  datatype Decoded = Decoded(outputs: seq<Expression>, filterPredicate: Expression, keepNull: bool,
                             zoneId: ZoneId, id: PlanNodeId, rest: seq<Token>)

  /** The fields after the output expressions: predicate, flag, zone id (not null), plan node id. */
  function DecodeTail(outputs: seq<Expression>, ts: seq<Token>): Result<Decoded, JavaException>
  {
    match ReadHead(ts, ExpressionKind)
    case Err(x) => Err(x)
    case Ok(p) =>
      match ReadHead(ts[1..], BoolKind)
      case Err(x) => Err(x)
      case Ok(k) =>
        match ReadHead(ts[2..], StringKind)
        case Err(x) => Err(x)
        case Ok(z) =>
          if z.s.None? then Err(NullPointer)
          else
            match ReadHead(ts[3..], PlanNodeIdKind)
            case Err(x) => Err(x)
            case Ok(i) => Ok(Decoded(outputs, p.e, k.b, ZoneId(z.s.value), i.id, ts[4..]))
  }

  /**
   * What `deserialize` reads after the caller has taken the type tag: the
   * count, that many expressions, then the tail; a negative count throws
   * before anything else is read.
   */
  function Decode(ts: seq<Token>): Result<Decoded, JavaException>
  {
    match ReadHead(ts, IntKind)
    case Err(x) => Err(x)
    case Ok(n) =>
      if n.i < 0 then Err(NegativeArraySize)
      else
        match DecodeExpressions(ts[1..], n.i)
        case Err(x) => Err(x)
        case Ok(es) => DecodeTail(es.0, es.1)
  }

  /**
   * With the type tag taken by the caller and a plan node id after the
   * attributes, `deserialize` recovers the outputs in order, the predicate, the
   * flag and the zone, then the id, and leaves whatever follows.
   */
  lemma DecodeEncode(outputs: seq<Expression>, filterPredicate: Expression, keepNull: bool, zoneId: ZoneId,
                     id: PlanNodeId, rest: seq<Token>)
    requires |outputs| <= INT_MAX
    ensures Decode(Encode(outputs, filterPredicate, keepNull, zoneId)[1..] + [PlanNodeIdTok(id)] + rest)
      == Ok(Decoded(outputs, filterPredicate, keepNull, zoneId, id, rest))
  {
    var tail := [ExpressionTok(filterPredicate), BoolTok(keepNull), StringTok(Some(zoneId.id)), PlanNodeIdTok(id)] + rest;
    var ts := Encode(outputs, filterPredicate, keepNull, zoneId)[1..] + [PlanNodeIdTok(id)] + rest;
    assert ts == [IntTok(|outputs|)] + (ExpressionTokens(outputs) + tail);
    assert ts[1..] == ExpressionTokens(outputs) + tail;
    DecodeExpressionTokens(outputs, tail);
    assert tail[1..][0] == BoolTok(keepNull);
    assert tail[2..][0] == StringTok(Some(zoneId.id));
    assert tail[3..][0] == PlanNodeIdTok(id);
    assert tail[4..] == rest;
  }

  /** The first field `serializeAttributes` writes is the FILTER tag, which `deserialize` does not read. */
  lemma TagIsNotRead(outputs: seq<Expression>, filterPredicate: Expression, keepNull: bool, zoneId: ZoneId)
    requires |outputs| <= INT_MAX
    ensures Encode(outputs, filterPredicate, keepNull, zoneId)[0] == NodeTypeTok(FILTER)
    ensures Decode(Encode(outputs, filterPredicate, keepNull, zoneId)) == Err(MismatchedField)
  {
  }

  /** A negative count throws `NegativeArraySizeException`; a null zone id throws a null-pointer exception. */
  lemma DecodeRejects(n: Int, ts: seq<Token>, outputs: seq<Expression>, p: Expression, k: bool)
    ensures n < 0 ==> Decode([IntTok(n)] + ts) == Err(NegativeArraySize)
    ensures DecodeTail(outputs, [ExpressionTok(p), BoolTok(k), StringTok(None)] + ts) == Err(NullPointer)
  {
    var t := [ExpressionTok(p), BoolTok(k), StringTok(None)] + ts;
    assert t[1..][0] == BoolTok(k);
    assert t[2..][0] == StringTok(None);
  }

  /** `deserialize`: fill a new output array by index, then read the remaining fields. */
  method Deserialize(buffer: ByteBuffer) returns (r: Result<FilterNode, JavaException>)
    requires buffer.Valid()
    modifies buffer
    ensures buffer.Valid() && buffer.tokens == old(buffer.tokens)
    ensures r.Ok? <==> Decode(old(buffer.Remaining())).Ok?
    ensures r.Err? ==> r.error == Decode(old(buffer.Remaining())).error
    ensures r.Ok? ==>
      var d := Decode(old(buffer.Remaining())).value;
      && fresh(r.value) && fresh(r.value.outputExpressions)
      && r.value.outputExpressions[..] == d.outputs && r.value.filterPredicate == d.filterPredicate
      && r.value.keepNull == d.keepNull && r.value.zoneId == d.zoneId && r.value.id == d.id
      && r.value.child == None && buffer.Remaining() == d.rest
  {
    ghost var ts := buffer.Remaining();
    var length := buffer.Read(IntKind);
    if length.Err? {
      return Err(length.error);
    }
    var outputExpressionsLength := length.value.i;
    if outputExpressionsLength < 0 {
      return Err(NegativeArraySize);
    }
    assert buffer.Remaining() == ts[1..];
    var filled := ReadOutputExpressions(buffer, outputExpressionsLength);
    if filled.Err? {
      return Err(filled.error);
    }
    var outputExpressions := filled.value;
    ghost var afterOutputs := buffer.Remaining();
    var filterPredicate := buffer.Read(ExpressionKind);
    if filterPredicate.Err? {
      return Err(filterPredicate.error);
    }
    assert buffer.Remaining() == afterOutputs[1..];
    var keepNull := buffer.Read(BoolKind);
    if keepNull.Err? {
      return Err(keepNull.error);
    }
    assert buffer.Remaining() == afterOutputs[2..];
    var zone := buffer.Read(StringKind);
    if zone.Err? {
      return Err(zone.error);
    }
    if zone.value.s.None? {
      return Err(NullPointer);
    }
    assert buffer.Remaining() == afterOutputs[3..];
    var planNodeId := buffer.Read(PlanNodeIdKind);
    if planNodeId.Err? {
      return Err(planNodeId.error);
    }
    var node := new FilterNode(planNodeId.value.id, outputExpressions, filterPredicate.value.e, keepNull.value.b,
                               ZoneId(zone.value.s.value));
    r := Ok(node);
  }

  /** The loop of `deserialize` that fills a new array of `count` output expressions by index. */
  method ReadOutputExpressions(buffer: ByteBuffer, count: nat) returns (r: Result<array<Expression>, JavaException>)
    requires buffer.Valid()
    modifies buffer
    ensures buffer.Valid() && buffer.tokens == old(buffer.tokens)
    ensures var d := DecodeExpressions(old(buffer.Remaining()), count);
      && (r.Ok? <==> d.Ok?)
      && (r.Err? ==> r.error == d.error)
      && (r.Ok? ==> fresh(r.value) && r.value[..] == d.value.0 && buffer.Remaining() == d.value.1)
  {
    var outputExpressions := new Expression[count];
    ghost var total := DecodeExpressions(buffer.Remaining(), count);
    assert outputExpressions[..0] == [];
    match total {
      case Err(_) =>
      case Ok(more) => assert [] + more.0 == more.0;
    }
    for i := 0 to count
      invariant buffer.Valid() && buffer.tokens == old(buffer.tokens)
      invariant total == Prepend(outputExpressions[..i], DecodeExpressions(buffer.Remaining(), count - i))
    {
      ghost var before := buffer.Remaining();
      var e := buffer.Read(ExpressionKind);
      if e.Err? {
        return Err(e.error);
      }
      assert buffer.Remaining() == before[1..];
      PrependStep(outputExpressions[..i], before, count - i);
      ghost var filled := outputExpressions[..i];
      outputExpressions[i] := e.value.e;
      assert outputExpressions[..i + 1] == filled + [e.value.e];
    }
    assert outputExpressions[..count] == outputExpressions[..];
    assert outputExpressions[..] + [] == outputExpressions[..];
    r := Ok(outputExpressions);
  }

  /** `equals` as written holds for a node and itself, and between a node and its clone whenever the transform-node check does. */
  lemma EqualsClone(a: FilterNode, c: FilterNode)
    requires c.filterPredicate == a.filterPredicate
    ensures a.Equals(a, false)
    ensures a.Equals(c, true)
    ensures !a.Equals(c, false) <==> a != c
  {
  }
}
