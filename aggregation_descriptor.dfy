/**
 * `AggregationDescriptor`: one aggregation function of a query plan, with its
 * step and its input expressions; the column names it produces, the memoised
 * parameter string, its serialised form, `equals` and `hashCode`.
 */
module AggregationDescriptors {
  import opened Wrappers
  import opened JavaLang
  import opened PlanTypes
  import opened Buffers

  /** `AggregationType`, in declaration order. */
  datatype AggregationType =
    COUNT | AVG | SUM | FIRST_VALUE | LAST_VALUE | MAX_TIME | MIN_TIME | MAX_VALUE | MIN_VALUE | EXTREME

  /** `AggregationType.values()`. */
  const AGGREGATION_TYPES: seq<AggregationType> :=
    [COUNT, AVG, SUM, FIRST_VALUE, LAST_VALUE, MAX_TIME, MIN_TIME, MAX_VALUE, MIN_VALUE, EXTREME]

  /** `ordinal()`: the position of t in `values()`. */
  function Ordinal(t: AggregationType): (i: nat)
    ensures i < |AGGREGATION_TYPES| && AGGREGATION_TYPES[i] == t
  {
    match t
    case COUNT => 0
    case AVG => 1
    case SUM => 2
    case FIRST_VALUE => 3
    case LAST_VALUE => 4
    case MAX_TIME => 5
    case MIN_TIME => 6
    case MAX_VALUE => 7
    case MIN_VALUE => 8
    case EXTREME => 9
  }

  /** Distinct types have distinct ordinals. */
  lemma OrdinalInjective(t: AggregationType, u: AggregationType)
    ensures Ordinal(t) == Ordinal(u) ==> t == u
  {
  }

  /** `toString()` of an enum constant: its name. */
  function Name(t: AggregationType): string
  {
    match t
    case COUNT => "COUNT"
    case AVG => "AVG"
    case SUM => "SUM"
    case FIRST_VALUE => "FIRST_VALUE"
    case LAST_VALUE => "LAST_VALUE"
    case MAX_TIME => "MAX_TIME"
    case MIN_TIME => "MIN_TIME"
    case MAX_VALUE => "MAX_VALUE"
    case MIN_VALUE => "MIN_VALUE"
    case EXTREME => "EXTREME"
  }

  // ---------------------------------------------------------------------------
  // The parameter string

  /** ", " followed by each text in turn. */
  function Separated(es: seq<Expression>): string
  {
    if es == [] then "" else Separated(es[..|es| - 1]) + ", " + es[|es| - 1].text
  }

  /** The input expressions' strings joined by ", ". */
  function JoinParameters(es: seq<Expression>): string
  {
    if es == [] then "" else es[0].text + Separated(es[1..])
  }

  /** The total length of the texts of es. */
  function TextLength(es: seq<Expression>): nat
  {
    if es == [] then 0 else TextLength(es[..|es| - 1]) + |es[|es| - 1].text|
  }

  /** The joined string holds every text and two characters per separator. */
  lemma {:induction false} JoinParametersLength(es: seq<Expression>)
    requires es != []
    ensures |JoinParameters(es)| == TextLength(es) + 2 * (|es| - 1)
    decreases |es|
  {
    var n := |es|;
    if n == 1 {
      assert es[..0] == [];
      assert es[1..] == [];
    } else {
      var init := es[..n - 1];
      JoinParametersLength(init);
      JoinAppend(init, es[n - 1]);
      assert init + [es[n - 1]] == es;
    }
  }

  /** Joining one more expression appends a separator and its text. */
  lemma JoinAppend(es: seq<Expression>, e: Expression)
    requires es != []
    ensures JoinParameters(es + [e]) == JoinParameters(es) + ", " + e.text
  {
    assert (es + [e])[0] == es[0];
    assert (es + [e])[1..] == es[1..] + [e];
    assert (es[1..] + [e])[..|es[1..]|] == es[1..];
  }

  /** With no inputs the parameter string is empty; with one, it is that input's string. */
  lemma JoinParametersSmall(es: seq<Expression>)
    ensures es == [] ==> JoinParameters(es) == ""
    ensures |es| == 1 ==> JoinParameters(es) == es[0].text
  {
    if |es| == 1 {
      assert es[1..] == [];
    }
  }

  // ---------------------------------------------------------------------------
  // Output column names

  /** The aggregation types whose results this descriptor outputs. */
  function OutputTypes(t: AggregationType, step: AggregationStep): seq<AggregationType>
  {
    if step.IsOutputPartial() then
      match t
      case AVG => [COUNT, SUM]
      case FIRST_VALUE => [FIRST_VALUE, MIN_TIME]
      case LAST_VALUE => [LAST_VALUE, MAX_TIME]
      case _ => [t]
    else [t]
  }

  /** One output column: the type's lower-case name and the parameters in parentheses. */
  function ColumnName(t: AggregationType, parameters: string): string
  {
    ToLowerAscii(Name(t)) + "(" + parameters + ")"
  }

  /** The column names for the given type, step and parameter string, in output order. */
  function ColumnNames(t: AggregationType, step: AggregationStep, parameters: string): seq<string>
  {
    var types := OutputTypes(t, step);
    seq(|types|, i requires 0 <= i < |types| => ColumnName(types[i], parameters))
  }

  /**
   * A non-partial step outputs one column, for the type itself; a partial step
   * outputs count and sum for AVG, the value and its time for FIRST_VALUE and
   * LAST_VALUE, and the type itself for every other type.
   */
  lemma ColumnNamesByStep(t: AggregationType, step: AggregationStep, p: string)
    ensures !step.IsOutputPartial() ==> ColumnNames(t, step, p) == [ColumnName(t, p)]
    ensures step.IsOutputPartial() && t == AVG ==>
      ColumnNames(t, step, p) == [ColumnName(COUNT, p), ColumnName(SUM, p)]
    ensures step.IsOutputPartial() && t == FIRST_VALUE ==>
      ColumnNames(t, step, p) == [ColumnName(FIRST_VALUE, p), ColumnName(MIN_TIME, p)]
    ensures step.IsOutputPartial() && t == LAST_VALUE ==>
      ColumnNames(t, step, p) == [ColumnName(LAST_VALUE, p), ColumnName(MAX_TIME, p)]
    ensures step.IsOutputPartial() && t !in {AVG, FIRST_VALUE, LAST_VALUE} ==>
      ColumnNames(t, step, p) == [ColumnName(t, p)]
  {
    var names := ColumnNames(t, step, p);
    if !step.IsOutputPartial() || t !in {AVG, FIRST_VALUE, LAST_VALUE} {
      assert OutputTypes(t, step) == [t];
      assert names == [ColumnName(t, p)];
    } else if t == AVG {
      assert OutputTypes(t, step) == [COUNT, SUM];
      assert names == [ColumnName(COUNT, p), ColumnName(SUM, p)];
    } else if t == FIRST_VALUE {
      assert OutputTypes(t, step) == [FIRST_VALUE, MIN_TIME];
      assert names == [ColumnName(FIRST_VALUE, p), ColumnName(MIN_TIME, p)];
    } else {
      assert OutputTypes(t, step) == [LAST_VALUE, MAX_TIME];
      assert names == [ColumnName(LAST_VALUE, p), ColumnName(MAX_TIME, p)];
    }
  }

  /** The two columns a partial AVG outputs, spelled out. */
  lemma PartialAvgColumns(step: AggregationStep, p: string)
    requires step.IsOutputPartial()
    ensures ColumnNames(AVG, step, p) == ["count" + "(" + p + ")", "sum" + "(" + p + ")"]
  {
    ColumnNamesByStep(AVG, step, p);
    LowerCount();
    LowerSum();
  }

  /** The two columns a partial FIRST_VALUE outputs, spelled out. */
  lemma PartialFirstValueColumns(step: AggregationStep, p: string)
    requires step.IsOutputPartial()
    ensures ColumnNames(FIRST_VALUE, step, p) == ["first_value" + "(" + p + ")", "min_time" + "(" + p + ")"]
  {
    ColumnNamesByStep(FIRST_VALUE, step, p);
    LowerFirstValue();
    LowerMinTime();
  }

  /** The two columns a partial LAST_VALUE outputs, spelled out. */
  lemma PartialLastValueColumns(step: AggregationStep, p: string)
    requires step.IsOutputPartial()
    ensures ColumnNames(LAST_VALUE, step, p) == ["last_value" + "(" + p + ")", "max_time" + "(" + p + ")"]
  {
    ColumnNamesByStep(LAST_VALUE, step, p);
    LowerLastValue();
    LowerMaxTime();
  }

  // The lower-case names of the types that partial steps output.

  lemma LowerCount()
    ensures ToLowerAscii(Name(COUNT)) == "count"
  {
    LowerIs(Name(COUNT), "count");
  }

  lemma LowerSum()
    ensures ToLowerAscii(Name(SUM)) == "sum"
  {
    LowerIs(Name(SUM), "sum");
  }

  lemma LowerFirstValue()
    ensures ToLowerAscii(Name(FIRST_VALUE)) == "first_value"
  {
    LowerIs(Name(FIRST_VALUE), "first_value");
  }

  lemma LowerMinTime()
    ensures ToLowerAscii(Name(MIN_TIME)) == "min_time"
  {
    LowerIs(Name(MIN_TIME), "min_time");
  }

  lemma LowerLastValue()
    ensures ToLowerAscii(Name(LAST_VALUE)) == "last_value"
  {
    LowerIs(Name(LAST_VALUE), "last_value");
  }

  lemma LowerMaxTime()
    ensures ToLowerAscii(Name(MAX_TIME)) == "max_time"
  {
    LowerIs(Name(MAX_TIME), "max_time");
  }

  /** Lowering is fixed character by character. */
  lemma LowerIs(s: string, t: string)
    requires |s| == |t|
    requires forall i :: 0 <= i < |s| ==> t[i] == (if 'A' <= s[i] <= 'Z' then (s[i] as int + 32) as char else s[i])
    ensures ToLowerAscii(s) == t
  {
  }

  /** The index of the first '(' in s, or |s|. */
  function OpenParen(s: string): (k: nat)
    ensures k <= |s|
    ensures forall i :: 0 <= i < k ==> s[i] != '('
    ensures k < |s| ==> s[k] == '('
  {
    if s == [] then 0 else if s[0] == '(' then 0 else 1 + OpenParen(s[1..])
  }

  /** Split a column name back into its function name and its parameter string. */
  function ParseColumnName(s: string): Option<(string, string)>
  {
    var k := OpenParen(s);
    if k < |s| && s[|s| - 1] == ')' && k < |s| - 1 then Some((s[..k], s[k + 1..|s| - 1]))
    else None
  }

  /** Enum names are upper-case letters and underscores. */
  predicate UpperName(s: string)
  {
    forall i :: 0 <= i < |s| ==> 'A' <= s[i] <= 'Z' || s[i] == '_'
  }

  lemma NameIsUpper(t: AggregationType)
    ensures UpperName(Name(t))
  {
  }

  /** Enum names hold no '(', nor do their lower-case forms. */
  lemma NoParenInName(t: AggregationType)
    ensures forall i :: 0 <= i < |ToLowerAscii(Name(t))| ==> ToLowerAscii(Name(t))[i] != '('
  {
    NameIsUpper(t);
  }

  /** A column name gives back the function's lower-case name and the exact parameter string. */
  lemma ParseColumnNameInverts(t: AggregationType, p: string)
    ensures ParseColumnName(ColumnName(t, p)) == Some((ToLowerAscii(Name(t)), p))
  {
    var lower := ToLowerAscii(Name(t));
    var s := ColumnName(t, p);
    NoParenInName(t);
    assert s[..|lower|] == lower;
    OpenParenAt(s, |lower|);
    assert s[|lower| + 1..|s| - 1] == p;
  }

  lemma OpenParenAt(s: string, k: nat)
    requires k < |s| && s[k] == '(' && forall i :: 0 <= i < k ==> s[i] != '('
    ensures OpenParen(s) == k
  {
  }

  /** The names of distinct types are distinct, which the output names inherit. */
  lemma LowerNamesDistinct(t: AggregationType, u: AggregationType)
    requires t != u
    ensures ToLowerAscii(Name(t)) != ToLowerAscii(Name(u))
  {
    NameIsUpper(t);
    NameIsUpper(u);
    if ToLowerAscii(Name(t)) == ToLowerAscii(Name(u)) {
      LowerInjective(Name(t), Name(u));
    }
  }

  /** On strings of upper-case letters and underscores lowering is one to one. */
  lemma LowerInjective(x: string, y: string)
    requires UpperName(x) && UpperName(y)
    requires ToLowerAscii(x) == ToLowerAscii(y)
    ensures x == y
  {
    assert |x| == |y|;
    forall i | 0 <= i < |x|
      ensures x[i] == y[i]
    {
      assert ToLowerAscii(x)[i] == ToLowerAscii(y)[i];
    }
  }

  /** The output columns of one descriptor have pairwise different names. */
  lemma ColumnNamesDistinct(t: AggregationType, step: AggregationStep, p: string)
    ensures var names := ColumnNames(t, step, p);
      forall i, j :: 0 <= i < j < |names| ==> names[i] != names[j]
  {
    var types := OutputTypes(t, step);
    forall i, j | 0 <= i < j < |types|
      ensures ColumnName(types[i], p) != ColumnName(types[j], p)
    {
      assert types[i] != types[j];
      ParseColumnNameInverts(types[i], p);
      ParseColumnNameInverts(types[j], p);
      LowerNamesDistinct(types[i], types[j]);
    }
  }

  // ---------------------------------------------------------------------------
  // Serialised form

  /** What `serialize` writes: the type ordinal, the step, the input count, the inputs. */
  function Encode(t: AggregationType, step: AggregationStep, es: seq<Expression>): seq<Token>
    requires |es| <= INT_MAX
  {
    [IntTok(Ordinal(t)), StepTok(step), IntTok(|es|)] + ExpressionTokens(es)
  }

  /** A decoded descriptor's fields, and what is left of the buffer. */
  datatype Decoded = Decoded(aggregationType: AggregationType, step: AggregationStep,
                             inputExpressions: seq<Expression>, rest: seq<Token>)

  /** What `deserialize` reads, or the exception it throws. */
  function Decode(ts: seq<Token>): Result<Decoded, JavaException>
  {
    match ReadHead(ts, IntKind)
    case Err(e) => Err(e)
    case Ok(ordinal) =>
      if !(0 <= ordinal.i < |AGGREGATION_TYPES|) then Err(ArrayIndexOutOfBounds)
      else
        match ReadHead(ts[1..], StepKind)
        case Err(e) => Err(e)
        case Ok(step) =>
          match ReadHead(ts[2..], IntKind)
          case Err(e) => Err(e)
          case Ok(size) =>
            if size.i < 0 then Err(IllegalArgument)
            else
              match DecodeExpressions(ts[3..], size.i)
              case Err(e) => Err(e)
              case Ok(es) => Ok(Decoded(AGGREGATION_TYPES[ordinal.i], step.step, es.0, es.1))
  }

  /** `deserialize` gives back exactly the fields `serialize` wrote, and reads nothing after them. */
  lemma DecodeEncode(t: AggregationType, step: AggregationStep, es: seq<Expression>, rest: seq<Token>)
    requires |es| <= INT_MAX
    ensures Decode(Encode(t, step, es) + rest) == Ok(Decoded(t, step, es, rest))
  {
    var ts := Encode(t, step, es) + rest;
    assert ts[0] == IntTok(Ordinal(t));
    assert ts[1..][0] == StepTok(step);
    assert ts[2..][0] == IntTok(|es|);
    assert ts[3..] == ExpressionTokens(es) + rest;
    DecodeExpressionTokens(es, rest);
  }

  /** Every strict prefix of a serialised descriptor fails with a buffer underflow. */
  lemma DecodeTruncated(t: AggregationType, step: AggregationStep, es: seq<Expression>, k: nat)
    requires |es| <= INT_MAX && k < |Encode(t, step, es)|
    ensures Decode(Encode(t, step, es)[..k]) == Err(BufferUnderflow)
  {
    var full := Encode(t, step, es);
    var ts := full[..k];
    if k >= 3 {
      assert ts[0] == IntTok(Ordinal(t));
      assert ts[1..][0] == StepTok(step);
      assert ts[2..][0] == IntTok(|es|);
      assert ts[3..] == ExpressionTokens(es)[..k - 3];
      DecodeExpressionsTruncated(es, k - 3);
    } else if k == 2 {
      assert ts[0] == IntTok(Ordinal(t));
      assert ts[1..][0] == StepTok(step);
      assert ts[2..] == [];
    } else if k == 1 {
      assert ts[0] == IntTok(Ordinal(t));
      assert ts[1..] == [];
    } else {
      assert ts == [];
    }
  }

  /** An ordinal outside `values()` throws before anything else is read; so does a negative count. */
  lemma DecodeRejects(ts: seq<Token>)
    ensures |ts| >= 1 && ts[0].IntTok? && !(0 <= ts[0].i < |AGGREGATION_TYPES|) ==>
      Decode(ts) == Err(ArrayIndexOutOfBounds)
    ensures (&& |ts| >= 3 && ts[0].IntTok? && 0 <= ts[0].i < |AGGREGATION_TYPES| && ts[1].StepTok?
             && ts[2].IntTok? && ts[2].i < 0) ==> Decode(ts) == Err(IllegalArgument)
  {
  }

  // ---------------------------------------------------------------------------
  // The descriptor

  class AggregationDescriptor {
    const aggregationType: AggregationType
    var step: AggregationStep
    const inputExpressions: seq<Expression>
    /** The memoised parameter string; None until first asked for. */
    var parametersString: Option<string>

    ghost predicate Valid()
      reads this
    {
      && |inputExpressions| <= INT_MAX
      && (parametersString.Some? ==> parametersString.value == JoinParameters(inputExpressions))
    }

    constructor(aggregationType: AggregationType, step: AggregationStep, inputExpressions: seq<Expression>)
      requires |inputExpressions| <= INT_MAX
      ensures Valid()
      ensures this.aggregationType == aggregationType && this.step == step
      ensures this.inputExpressions == inputExpressions && parametersString == None
    {
      this.aggregationType := aggregationType;
      this.step := step;
      this.inputExpressions := inputExpressions;
      parametersString := None;
    }

    /** `getParametersString`: computed on the first call, then the stored string. */
    method GetParametersString() returns (s: string)
      requires Valid()
      modifies this
      ensures Valid() && step == old(step)
      ensures s == JoinParameters(inputExpressions)
      ensures parametersString == Some(s)
      ensures old(parametersString).Some? ==> s == old(parametersString).value
    {
      if parametersString.None? {
        var es := inputExpressions;
        var builder := "";
        if es != [] {
          builder := builder + es[0].text;
          for i := 1 to |es|
            invariant builder == es[0].text + Separated(es[1..i])
          {
            assert es[1..i + 1][..i - 1] == es[1..i];
            builder := builder + ", " + es[i].text;
          }
          assert es[1..|es|] == es[1..];
        }
        parametersString := Some(builder);
      }
      s := parametersString.value;
    }

    /** `getOutputColumnNames`. */
    method GetOutputColumnNames() returns (names: seq<string>)
      requires Valid()
      modifies this
      ensures Valid() && step == old(step)
      ensures parametersString == Some(JoinParameters(inputExpressions))
      ensures names == ColumnNames(aggregationType, step, JoinParameters(inputExpressions))
    {
      var outputAggregationTypes: seq<AggregationType>;
      if step.IsOutputPartial() {
        match aggregationType
        case AVG => outputAggregationTypes := [COUNT, SUM];
        case FIRST_VALUE => outputAggregationTypes := [FIRST_VALUE, MIN_TIME];
        case LAST_VALUE => outputAggregationTypes := [LAST_VALUE, MAX_TIME];
        case _ => outputAggregationTypes := [aggregationType];
      } else {
        outputAggregationTypes := [aggregationType];
      }
      var parameters := GetParametersString();
      names := [];
      for i := 0 to |outputAggregationTypes|
        invariant names == seq(i, k requires 0 <= k < i => ColumnName(outputAggregationTypes[k], parameters))
      {
        names := names + [ToLowerAscii(Name(outputAggregationTypes[i])) + "(" + parameters + ")"];
      }
    }

    method SetStep(step: AggregationStep)
      requires Valid()
      modifies this
      ensures Valid() && this.step == step && parametersString == old(parametersString)
    {
      this.step := step;
    }

    /** `serialize`. */
    method Serialize(buffer: ByteBuffer)
      requires Valid() && buffer.Valid()
      modifies buffer
      ensures buffer.Valid() && buffer.position == old(buffer.position)
      ensures buffer.tokens == old(buffer.tokens) + Encode(aggregationType, step, inputExpressions)
    {
      buffer.Put(IntTok(Ordinal(aggregationType)));
      buffer.Put(StepTok(step));
      buffer.Put(IntTok(|inputExpressions|));
      ghost var head := buffer.tokens;
      for i := 0 to |inputExpressions|
        invariant buffer.Valid() && buffer.position == old(buffer.position)
        invariant buffer.tokens == head + ExpressionTokens(inputExpressions[..i])
      {
        buffer.Put(ExpressionTok(inputExpressions[i]));
        assert ExpressionTokens(inputExpressions[..i + 1]) == ExpressionTokens(inputExpressions[..i]) + [ExpressionTok(inputExpressions[i])];
      }
      assert inputExpressions[..|inputExpressions|] == inputExpressions;
    }

    /**
     * `equals`: same type, same step, equal input lists. A descriptor equals
     * itself, and equal descriptors name the same output columns.
     */
    predicate Equals(that: AggregationDescriptor): (eq: bool)
      reads this, that
      ensures this == that ==> eq
      ensures eq ==> ColumnNames(aggregationType, step, JoinParameters(inputExpressions))
                     == ColumnNames(that.aggregationType, that.step, JoinParameters(that.inputExpressions))
    {
      aggregationType == that.aggregationType && step == that.step && inputExpressions == that.inputExpressions
    }

    /**
     * `hashCode`: `Objects.hash` of the three fields, `31^3 + 31^2 * typeHash +
     * 31 * stepHash + listHash` as an `int`. Enum constants hash by identity and
     * expressions by their own `hashCode`, so those hashes are parameters.
     */
    function HashCode(typeHash: AggregationType -> int, stepHash: AggregationStep -> int,
                      expressionHash: Expression -> int): (h: Int)
      reads this
      ensures h == Wrap32(29791 + 961 * typeHash(aggregationType) + 31 * stepHash(step)
                          + ListHash(seq(|inputExpressions|, i requires 0 <= i < |inputExpressions| => expressionHash(inputExpressions[i]))))
    {
      ObjectsHash3(typeHash(aggregationType), stepHash(step),
                   ListHash(seq(|inputExpressions|, i requires 0 <= i < |inputExpressions| => expressionHash(inputExpressions[i]))));
      ListHash([typeHash(aggregationType), stepHash(step),
                ListHash(seq(|inputExpressions|, i requires 0 <= i < |inputExpressions| => expressionHash(inputExpressions[i])))])
    }
  }

  /** `deserialize`: read the fields back, or throw what the first bad read throws. */
  method Deserialize(buffer: ByteBuffer) returns (r: Result<AggregationDescriptor, JavaException>)
    requires buffer.Valid()
    modifies buffer
    ensures buffer.Valid() && buffer.tokens == old(buffer.tokens)
    ensures r.Ok? <==> Decode(old(buffer.Remaining())).Ok?
    ensures r.Err? ==> r.error == Decode(old(buffer.Remaining())).error
    ensures r.Ok? ==>
      var d := Decode(old(buffer.Remaining())).value;
      && fresh(r.value) && r.value.Valid() && r.value.parametersString == None
      && r.value.aggregationType == d.aggregationType && r.value.step == d.step
      && r.value.inputExpressions == d.inputExpressions
      && buffer.Remaining() == d.rest
  {
    ghost var ts := buffer.Remaining();
    var ordinal := buffer.Read(IntKind);
    if ordinal.Err? {
      return Err(ordinal.error);
    }
    if !(0 <= ordinal.value.i < |AGGREGATION_TYPES|) {
      return Err(ArrayIndexOutOfBounds);
    }
    var aggregationType := AGGREGATION_TYPES[ordinal.value.i];
    assert buffer.Remaining() == ts[1..];
    var step := buffer.Read(StepKind);
    if step.Err? {
      return Err(step.error);
    }
    assert buffer.Remaining() == ts[2..];
    var size := buffer.Read(IntKind);
    if size.Err? {
      return Err(size.error);
    }
    var inputExpressionsSize := size.value.i;
    if inputExpressionsSize < 0 {
      return Err(IllegalArgument);
    }
    assert buffer.Remaining() == ts[3..];
    var inputExpressions := [];
    match DecodeExpressions(ts[3..], size.value.i) {
      case Err(_) =>
      case Ok(more) => assert [] + more.0 == more.0;
    }
    while inputExpressionsSize > 0
      invariant buffer.Valid() && buffer.tokens == old(buffer.tokens)
      invariant 0 <= inputExpressionsSize <= size.value.i
      invariant DecodeExpressions(ts[3..], size.value.i) ==
        Prepend(inputExpressions, DecodeExpressions(buffer.Remaining(), inputExpressionsSize))
      invariant |inputExpressions| == size.value.i - inputExpressionsSize
      decreases inputExpressionsSize
    {
      ghost var before := buffer.Remaining();
      var e := buffer.Read(ExpressionKind);
      if e.Err? {
        return Err(e.error);
      }
      assert buffer.Remaining() == before[1..];
      PrependStep(inputExpressions, before, inputExpressionsSize);
      inputExpressions := inputExpressions + [e.value.e];
      inputExpressionsSize := inputExpressionsSize - 1;
    }
    assert inputExpressions + [] == inputExpressions;
    var d := new AggregationDescriptor(aggregationType, step.value.step, inputExpressions);
    r := Ok(d);
  }

  /** `hashCode` is consistent with `equals`, whatever the element hashes. */
  lemma HashConsistentWithEquals(a: AggregationDescriptor, b: AggregationDescriptor,
                                 typeHash: AggregationType -> int, stepHash: AggregationStep -> int,
                                 expressionHash: Expression -> int)
    requires a.Equals(b)
    ensures a.HashCode(typeHash, stepHash, expressionHash) == b.HashCode(typeHash, stepHash, expressionHash)
  {
  }

  /** A descriptor written and read back is equal to the original. */
  method SerializeRoundTrip(a: AggregationDescriptor) returns (b: AggregationDescriptor)
    requires a.Valid()
    ensures fresh(b) && b.Equals(a) && b.Valid()
  {
    var buffer := new ByteBuffer.Allocate();
    a.Serialize(buffer);
    var r := Deserialize(buffer);
    DecodeEncode(a.aggregationType, a.step, a.inputExpressions, []);
    assert buffer.tokens == Encode(a.aggregationType, a.step, a.inputExpressions) + [];
    b := r.value;
  }
}
