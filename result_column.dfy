/**
 * `ResultColumn`: one column of a query's select list, an expression with an
 * optional alias; its expansion against prefix paths and wildcards, the alias
 * check, its cached path list, its name, equality, hash and serialised form.
 */
module ResultColumns {
  import opened Wrappers
  import opened JavaLang
  import opened PlanTypes
  import opened Buffers

  /** `LogicalOptimizeException`, known by its message. */
  datatype LogicalOptimizeException = LogicalOptimizeException(message: string)

  /** `String.format("%s", s)` of a string that may be null. */
  function FormatNullable(s: Option<string>): string
  {
    match s
    case None => "null"
    case Some(v) => v
  }

  /** The exception for an aliased column that expands to several expressions. */
  function AliasError(alias: Option<string>): LogicalOptimizeException
  {
    LogicalOptimizeException("alias '" + FormatNullable(alias) + "' can only be matched with one time series")
  }

  /** The alias check of `concat` and `removeWildcards`, applied to the expanded expressions. */
  function AliasCheck(needAliasCheck: bool, alias: Option<string>, expanded: seq<Expression>)
    : (r: Result<seq<Expression>, LogicalOptimizeException>)
  {
    if needAliasCheck && 1 < |expanded| then Err(AliasError(alias)) else Ok(expanded)
  }

  /**
   * The check fails exactly when it is asked for and the column expands to more
   * than one expression; otherwise the expansion passes through unchanged.
   */
  lemma AliasCheckSpec(needAliasCheck: bool, alias: Option<string>, expanded: seq<Expression>)
    ensures AliasCheck(needAliasCheck, alias, expanded).Err? <==> needAliasCheck && |expanded| > 1
    ensures AliasCheck(needAliasCheck, alias, expanded).Ok? ==> AliasCheck(needAliasCheck, alias, expanded).value == expanded
    ensures !needAliasCheck || |expanded| <= 1 ==> AliasCheck(needAliasCheck, alias, expanded) == Ok(expanded)
  {
  }

  /** The message names the alias, or "null" when there is none. */
  lemma AliasErrorNamesAlias(alias: Option<string>)
    ensures var m := AliasError(alias).message;
      && m[..7] == "alias '"
      && m[7..7 + |FormatNullable(alias)|] == FormatNullable(alias)
      && (alias.None? ==> m[7..11] == "null")
  {
  }

  /** Paths without repetition. */
  predicate NoDuplicates(ps: seq<PartialPath>)
  {
    forall i, j :: 0 <= i < j < |ps| ==> ps[i] != ps[j]
  }

  /**
   * `after` is `before` followed by one new column per expression of `es`, in
   * order, each carrying `alias`.
   */
  predicate Appended(before: seq<ResultColumn>, after: seq<ResultColumn>, es: seq<Expression>, alias: Option<string>)
  {
    && |after| == |before| + |es|
    && after[..|before|] == before
    && forall k :: 0 <= k < |es| ==>
      after[|before| + k].expression == es[k] && after[|before| + k].alias == alias
  }

  /** The list handed to `concat` and `removeWildcards` to collect the result columns. */
  class ResultColumnList {
    var items: seq<ResultColumn>

    constructor()
      ensures items == []
    {
      items := [];
    }
  }

  class ResultColumn {
    const expression: Expression
    const alias: Option<string>
    var dataType: Option<TSDataType>
    /** The result of the first `collectPaths`; None until then. */
    var allPathsInExpression: Option<seq<PartialPath>>

    ghost predicate Valid()
      reads this
    {
      allPathsInExpression.Some? ==>
        NoDuplicates(allPathsInExpression.value)
        && forall p :: p in allPathsInExpression.value <==> p in expression.paths
    }

    constructor(expression: Expression, alias: Option<string>)
      ensures Valid()
      ensures this.expression == expression && this.alias == alias
      ensures dataType == None && allPathsInExpression == None
    {
      this.expression := expression;
      this.alias := alias;
      dataType := None;
      allPathsInExpression := None;
    }

    /** `hasAlias`: an alias was given, and then it is the column's name and decides its hash. */
    predicate HasAlias(): (b: bool)
      reads this
      ensures b <==> alias != None
      ensures b ==> Name() == alias.value && HashCode() == StringHash(alias.value)
      ensures !b ==> Name() == expression.text
    {
      alias.Some?
    }

    /** `getResultColumnName`: the alias when there is one, else the expression string. */
    function Name(): (n: string)
      reads this
      ensures alias.Some? ==> n == alias.value
      ensures alias.None? ==> n == expression.text
    {
      if alias.Some? then alias.value else expression.text
    }

    /** `equals`: the same result column name; equal columns hash alike. */
    predicate Equals(that: ResultColumn): (eq: bool)
      reads this, that
      ensures this == that ==> eq
      ensures eq ==> HashCode() == that.HashCode()
    {
      Name() == that.Name()
    }

    /** `hashCode`: the alias's hash, or the result column name's when there is no alias. */
    function HashCode(): (h: Int)
      reads this
      ensures h == StringHash(Name())
    {
      if alias.None? then StringHash(Name()) else StringHash(alias.value)
    }

    method SetDataType(dataType: Option<TSDataType>)
      modifies this
      ensures this.dataType == dataType && allPathsInExpression == old(allPathsInExpression)
    {
      this.dataType := dataType;
    }

    /** `collectPaths`: the expression's distinct paths, computed once and then returned as stored. */
    method CollectPaths() returns (paths: seq<PartialPath>)
      requires Valid()
      modifies this
      ensures Valid() && dataType == old(dataType)
      ensures allPathsInExpression == Some(paths)
      ensures NoDuplicates(paths)
      ensures forall p :: p in paths <==> p in expression.paths
      ensures old(allPathsInExpression).Some? ==> paths == old(allPathsInExpression).value
    {
      if allPathsInExpression.None? {
        var all := expression.paths;
        var pathSet: seq<PartialPath> := [];
        for i := 0 to |all|
          invariant NoDuplicates(pathSet)
          invariant forall p :: p in pathSet <==> p in all[..i]
        {
          if all[i] !in pathSet {
            pathSet := pathSet + [all[i]];
          }
        }
        assert all[..|all|] == all;
        allPathsInExpression := Some(pathSet);
      }
      paths := allPathsInExpression.value;
    }

    /** Append one new column per expression, each with this column's alias. */
    method AppendColumns(expressions: seq<Expression>, resultColumns: ResultColumnList)
      modifies resultColumns
      ensures |resultColumns.items| == |old(resultColumns.items)| + |expressions|
      ensures resultColumns.items[..|old(resultColumns.items)|] == old(resultColumns.items)
      ensures var added := resultColumns.items[|old(resultColumns.items)|..];
        forall k :: 0 <= k < |added| ==>
          && fresh(added[k]) && added[k].Valid() && added[k].expression == expressions[k]
          && added[k].alias == alias && added[k].dataType == None && added[k].allPathsInExpression == None
    {
      ghost var before := resultColumns.items;
      ghost var added: seq<ResultColumn> := [];
      for i := 0 to |expressions|
        invariant resultColumns.items == before + added && |added| == i
        invariant forall k :: 0 <= k < |added| ==>
          && fresh(added[k]) && added[k].Valid() && added[k].expression == expressions[k]
          && added[k].alias == alias && added[k].dataType == None && added[k].allPathsInExpression == None
      {
        var c := new ResultColumn(expressions[i], alias);
        resultColumns.items := resultColumns.items + [c];
        added := added + [c];
      }
      assert resultColumns.items[|before|..] == added;
    }

    /**
     * `concat`: expand the expression against the from clause's prefix paths
     * (`concatOracle` is `Expression.concat`), check the alias, then append.
     */
    method Concat(prefixPaths: seq<PartialPath>, concatOracle: (Expression, seq<PartialPath>) -> seq<Expression>,
                  resultColumns: ResultColumnList, needAliasCheck: bool)
      returns (r: Result<(), LogicalOptimizeException>)
      modifies resultColumns
      ensures var expanded := concatOracle(expression, prefixPaths);
        && (r.Err? <==> AliasCheck(needAliasCheck, alias, expanded).Err?)
        && (r.Err? ==> r.error == AliasError(alias) && resultColumns.items == old(resultColumns.items))
        && (r.Ok? ==> Appended(old(resultColumns.items), resultColumns.items, expanded, alias))
    {
      var resultExpressions := concatOracle(expression, prefixPaths);
      if needAliasCheck && 1 < |resultExpressions| {
        return Err(AliasError(alias));
      }
      AppendColumns(resultExpressions, resultColumns);
      r := Ok(());
    }

    /**
     * `removeWildcards`: expand the wildcards (`remover` is `Expression.removeWildcards`
     * with its `WildcardsRemover`, which may throw), check the alias, then append.
     */
    method RemoveWildcards(remover: Expression -> Result<seq<Expression>, LogicalOptimizeException>,
                           resultColumns: ResultColumnList, needAliasCheck: bool)
      returns (r: Result<(), LogicalOptimizeException>)
      modifies resultColumns
      ensures remover(expression).Err? ==> r == Err(remover(expression).error)
      ensures remover(expression).Ok? ==>
        var expanded := remover(expression).value;
        && (r.Err? <==> AliasCheck(needAliasCheck, alias, expanded).Err?)
        && (r.Err? ==> r.error == AliasError(alias))
        && (r.Ok? ==> Appended(old(resultColumns.items), resultColumns.items, expanded, alias))
      ensures r.Err? ==> resultColumns.items == old(resultColumns.items)
    {
      var removed := remover(expression);
      if removed.Err? {
        return Err(removed.error);
      }
      var resultExpressions := removed.value;
      if needAliasCheck && 1 < |resultExpressions| {
        return Err(AliasError(alias));
      }
      AppendColumns(resultExpressions, resultColumns);
      r := Ok(());
    }

    /**
     * `serialize`: the expression, the alias, then the data type; a column
     * whose data type was never set throws a NullPointerException after the
     * first two fields are written.
     */
    method Serialize(buffer: ByteBuffer) returns (r: Result<(), JavaException>)
      requires buffer.Valid()
      modifies buffer
      ensures buffer.Valid() && buffer.position == old(buffer.position)
      ensures dataType.Some? ==> r.Ok? && buffer.tokens == old(buffer.tokens) + Encode(expression, alias, dataType.value)
      ensures dataType.None? ==>
        r == Err(NullPointer) && buffer.tokens == old(buffer.tokens) + [ExpressionTok(expression), StringTok(alias)]
    {
      buffer.Put(ExpressionTok(expression));
      buffer.Put(StringTok(alias));
      if dataType.None? {
        return Err(NullPointer);
      }
      buffer.Put(DataTypeTok(dataType.value));
      r := Ok(());
    }
  }

  /** A column's `equals` is an equivalence, and equal columns hash alike. */
  lemma EqualsIsEquivalence(a: ResultColumn, b: ResultColumn, c: ResultColumn)
    ensures a.Equals(a)
    ensures a.Equals(b) ==> b.Equals(a)
    ensures a.Equals(b) && b.Equals(c) ==> a.Equals(c)
    ensures a.Equals(b) ==> a.HashCode() == b.HashCode()
  {
  }

  /** An aliased column equals exactly the columns whose name is its alias. */
  lemma AliasedEquality(a: ResultColumn, b: ResultColumn)
    requires a.HasAlias()
    ensures a.Equals(b) <==> b.Name() == a.alias.value
  {
  }

  /** What `serialize` writes for a column with a data type. */
  function Encode(expression: Expression, alias: Option<string>, dataType: TSDataType): seq<Token>
  {
    [ExpressionTok(expression), StringTok(alias), DataTypeTok(dataType)]
  }

  /** A column's fields as read back, and what is left of the buffer. */
  datatype Decoded = Decoded(expression: Expression, alias: Option<string>, dataType: TSDataType, rest: seq<Token>)

  /** What the `ByteBuffer` constructor reads, or the exception it throws. */
  function Decode(ts: seq<Token>): Result<Decoded, JavaException>
  {
    match ReadHead(ts, ExpressionKind)
    case Err(e) => Err(e)
    case Ok(e) =>
      match ReadHead(ts[1..], StringKind)
      case Err(x) => Err(x)
      case Ok(a) =>
        match ReadHead(ts[2..], DataTypeKind)
        case Err(x) => Err(x)
        case Ok(d) => Ok(Decoded(e.e, a.s, d.t, ts[3..]))
  }

  /** Reading back what `serialize` wrote gives the same three fields, with or without an alias. */
  lemma DecodeEncode(expression: Expression, alias: Option<string>, dataType: TSDataType, rest: seq<Token>)
    ensures Decode(Encode(expression, alias, dataType) + rest) == Ok(Decoded(expression, alias, dataType, rest))
  {
    var ts := Encode(expression, alias, dataType) + rest;
    assert ts[1..][0] == StringTok(alias);
    assert ts[2..][0] == DataTypeTok(dataType);
    assert ts[3..] == rest;
  }

  /** `deserialize`, through the `ByteBuffer` constructor. */
  method Deserialize(buffer: ByteBuffer) returns (r: Result<ResultColumn, JavaException>)
    requires buffer.Valid()
    modifies buffer
    ensures buffer.Valid() && buffer.tokens == old(buffer.tokens)
    ensures r.Ok? <==> Decode(old(buffer.Remaining())).Ok?
    ensures r.Err? ==> r.error == Decode(old(buffer.Remaining())).error
    ensures r.Ok? ==>
      var d := Decode(old(buffer.Remaining())).value;
      && fresh(r.value) && r.value.Valid()
      && r.value.expression == d.expression && r.value.alias == d.alias
      && r.value.dataType == Some(d.dataType) && r.value.allPathsInExpression == None
      && buffer.Remaining() == d.rest
  {
    ghost var ts := buffer.Remaining();
    var e := buffer.Read(ExpressionKind);
    if e.Err? {
      return Err(e.error);
    }
    assert buffer.Remaining() == ts[1..];
    var a := buffer.Read(StringKind);
    if a.Err? {
      return Err(a.error);
    }
    assert buffer.Remaining() == ts[2..];
    var d := buffer.Read(DataTypeKind);
    if d.Err? {
      return Err(d.error);
    }
    var c := new ResultColumn(e.value.e, a.value.s);
    c.dataType := Some(d.value.t);
    r := Ok(c);
  }
}
