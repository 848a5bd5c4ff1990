/** The fast Doctrine paginator adapter: pages through a query builder's
    results and counts them with a query of its own, choosing the counting
    strategy by the number of GROUP BY parts.

    The ORM is an oracle: the entity manager answers each query it is
    asked with rows or a scalar that the model does not compute, and it
    logs every query it runs. DQL parts are kept as uninterpreted strings. */
module PaginatorFast {
  import opened Common

  /** One entity of the FROM part, with its alias. */
  datatype FromPart = FromPart(entity: string, alias: string)

  /** The DQL parts and paging of a query builder. */
  datatype Query = Query(
    select: seq<string>,
    from: seq<FromPart>,
    where: seq<string>,
    groupBy: seq<string>,
    having: seq<string>,
    orderBy: seq<string>,
    firstResult: Option<int>,
    maxResults: Option<int>)

  /** The DQL parts `count` resets. */
  datatype DqlPart = SelectPart | GroupByPart | OrderByPart

  /** One result row, column alias to value. */
  type Record = map<string, string>

  /** Why `count` throws: no GROUP BY, no `COUNT_ONE` function and no FROM
      entity whose alias it could count. */
  datatype CountError = NoFromPart

  /** The entity manager: its registered custom DQL string functions, the
      database answers, and the log of the queries it has run. */
  class EntityManager {
    const customStringFunctions: set<string>
    const result: Query -> seq<Record>
    const arrayResult: Query -> seq<Record>
    const singleScalarResult: Query -> int
    var executed: seq<Query>

    constructor (functions: set<string>, result: Query -> seq<Record>, arrayResult: Query -> seq<Record>,
                 singleScalarResult: Query -> int)
      ensures customStringFunctions == functions && this.result == result && this.arrayResult == arrayResult
      ensures this.singleScalarResult == singleScalarResult && executed == []
    {
      customStringFunctions := functions;
      this.result := result;
      this.arrayResult := arrayResult;
      this.singleScalarResult := singleScalarResult;
      executed := [];
    }
  }

  /** A query builder: the query value it is assembling and the entity
      manager that runs it. */
  class QueryBuilder {
    var query: Query
    const em: EntityManager

    constructor (em: EntityManager, query: Query)
      ensures this.em == em && this.query == query
    {
      this.em := em;
      this.query := query;
    }

    /** `clone $qb`: a new builder with the same parts and entity manager. */
    constructor Clone(other: QueryBuilder)
      ensures em == other.em && query == other.query
    {
      em := other.em;
      query := other.query;
    }

    method SetFirstResult(first: Option<int>) returns (self: QueryBuilder)
      modifies this`query
      ensures query == old(query).(firstResult := first) && self == this
    {
      query := query.(firstResult := first);
      self := this;
    }

    method SetMaxResults(max: Option<int>) returns (self: QueryBuilder)
      modifies this`query
      ensures query == old(query).(maxResults := max) && self == this
    {
      query := query.(maxResults := max);
      self := this;
    }

    method ResetDQLPart(part: DqlPart) returns (self: QueryBuilder)
      modifies this`query
      ensures part.SelectPart? ==> query == old(query).(select := [])
      ensures part.GroupByPart? ==> query == old(query).(groupBy := [])
      ensures part.OrderByPart? ==> query == old(query).(orderBy := [])
      ensures self == this
    {
      match part {
        case SelectPart => query := query.(select := []);
        case GroupByPart => query := query.(groupBy := []);
        case OrderByPart => query := query.(orderBy := []);
      }
      self := this;
    }

    /** `select(expr)`: the select part becomes that one expression. */
    method Select(expr: string) returns (self: QueryBuilder)
      modifies this`query
      ensures query == old(query).(select := [expr]) && self == this
    {
      query := query.(select := [expr]);
      self := this;
    }

    /** `getQuery()->getResult()`. */
    method GetResult() returns (rows: seq<Record>)
      modifies em`executed
      ensures rows == em.result(query) && em.executed == old(em.executed) + [query]
    {
      rows := em.result(query);
      em.executed := em.executed + [query];
    }

    /** `getQuery()->getArrayResult()`. */
    method GetArrayResult() returns (rows: seq<Record>)
      modifies em`executed
      ensures rows == em.arrayResult(query) && em.executed == old(em.executed) + [query]
    {
      rows := em.arrayResult(query);
      em.executed := em.executed + [query];
    }

    /** `getQuery()->getSingleScalarResult()`. */
    method GetSingleScalarResult() returns (n: int)
      modifies em`executed
      ensures n == em.singleScalarResult(query) && em.executed == old(em.executed) + [query]
    {
      n := em.singleScalarResult(query);
      em.executed := em.executed + [query];
    }
  }

  // ---------------------------------------------------------------------
  // The counting query

  /** The query `count` runs for the builder's query `q`: paging, ordering
      and selection dropped, and one select expression chosen by the
      number of GROUP BY parts. */
  function CountQuery(q: Query, countOneRegistered: bool): Result<Query, CountError>
  {
    var base := q.(firstResult := None, maxResults := None, orderBy := [], select := []);
    if |q.groupBy| > 1 then
      Success(base.(groupBy := [], select := ["CONCAT(" + Implode(",", q.groupBy) + ") as uniqueParts"]))
    else if |q.groupBy| == 1 then
      Success(base.(groupBy := [], select := ["COUNT(DISTINCT " + q.groupBy[0] + ")"]))
    else if countOneRegistered then
      Success(base.(select := ["COUNT_ONE() AS rowCount"]))
    else if |q.from| == 0 then
      Failure(NoFromPart)
    else
      Success(base.(select := ["COUNT(" + q.from[0].alias + ")"]))
  }

  /** `$row['uniqueParts']`; a row without it reads as `null`, which
      `array_unique` compares as ''. */
  function UniquePart(row: Record): string
  {
    if "uniqueParts" in row then row["uniqueParts"] else ""
  }

  /** The projected values of the grouped workaround, in row order. */
  function UniqueParts(rows: seq<Record>): seq<string>
  {
    seq(|rows|, k requires 0 <= k < |rows| => UniquePart(rows[k]))
  }

  /** `count(array_unique($items))`. */
  function DistinctCount(rows: seq<Record>): nat
  {
    |ArrayUnique(UniqueParts(rows))|
  }

  /** What `count` computes when nothing is cached. */
  function ExpectedCount(q: Query, em: EntityManager): Result<int, CountError>
  {
    match CountQuery(q, "COUNT_ONE" in em.customStringFunctions)
    case Failure(e) => Failure(e)
    case Success(cq) =>
      if |q.groupBy| > 1 then Success(DistinctCount(em.result(cq)))
      else Success(em.singleScalarResult(cq))
  }

  /** The counting query keeps the FROM, WHERE and HAVING parts, runs
      without paging or ordering, and selects exactly one expression; the
      GROUP BY part is dropped whenever there was one. */
  lemma CountQueryKeepsFilters(q: Query, countOneRegistered: bool)
    requires CountQuery(q, countOneRegistered).Success?
    ensures var cq := CountQuery(q, countOneRegistered).value;
      && cq.from == q.from && cq.where == q.where && cq.having == q.having
      && cq.firstResult.None? && cq.maxResults.None? && cq.orderBy == []
      && cq.groupBy == [] && |cq.select| == 1
  {
  }

  /** The strategy by the number of GROUP BY parts: several are counted
      through their concatenation, one through `COUNT(DISTINCT ...)`, none
      through `COUNT_ONE()` when it is registered and through the first
      FROM entity's alias otherwise. */
  lemma CountStrategy(q: Query, countOneRegistered: bool)
    ensures |q.groupBy| > 1 ==>
      CountQuery(q, countOneRegistered).Success? &&
      CountQuery(q, countOneRegistered).value.select == ["CONCAT(" + Implode(",", q.groupBy) + ") as uniqueParts"]
    ensures |q.groupBy| == 1 ==>
      CountQuery(q, countOneRegistered).Success? &&
      CountQuery(q, countOneRegistered).value.select == ["COUNT(DISTINCT " + q.groupBy[0] + ")"]
    ensures |q.groupBy| == 0 && countOneRegistered ==>
      CountQuery(q, countOneRegistered).Success? &&
      CountQuery(q, countOneRegistered).value.select == ["COUNT_ONE() AS rowCount"]
    ensures |q.groupBy| == 0 && !countOneRegistered ==>
      (CountQuery(q, countOneRegistered).Failure? <==> |q.from| == 0)
    ensures |q.groupBy| == 0 && !countOneRegistered && |q.from| > 0 ==>
      CountQuery(q, countOneRegistered).value.select == ["COUNT(" + q.from[0].alias + ")"]
  {
  }

  /** The count does not depend on the builder's paging, ordering or
      selection. */
  lemma CountIgnoresPaging(q: Query, em: EntityManager, first: Option<int>, max: Option<int>,
                           orderBy: seq<string>, select: seq<string>)
    ensures ExpectedCount(q.(firstResult := first, maxResults := max, orderBy := orderBy, select := select), em)
      == ExpectedCount(q, em)
  {
    var p := q.(firstResult := first, maxResults := max, orderBy := orderBy, select := select);
    var c := "COUNT_ONE" in em.customStringFunctions;
    assert p.(firstResult := None, maxResults := None, orderBy := [], select := [])
        == q.(firstResult := None, maxResults := None, orderBy := [], select := []);
    assert CountQuery(p, c) == CountQuery(q, c);
  }

  /** The grouped workaround counts the distinct projected values of the
      result, so it is at most the number of rows, and at least one when
      there is a row. */
  lemma {:induction false} DistinctCountBounds(rows: seq<Record>)
    ensures DistinctCount(rows) == |set x | x in UniqueParts(rows)|
    ensures DistinctCount(rows) <= |rows|
    ensures |rows| > 0 ==> DistinctCount(rows) >= 1
  {
    ArrayUniqueCountsDistinct(UniqueParts(rows));
    ArrayUniqueProperties(UniqueParts(rows));
    if |rows| > 0 {
      assert UniqueParts(rows)[0] in ArrayUnique(UniqueParts(rows));
    }
  }

  /** With several GROUP BY parts the count is the number of distinct
      projected values among the rows the counting query returns. */
  lemma GroupedCount(q: Query, em: EntityManager)
    requires |q.groupBy| > 1
    ensures var cq := CountQuery(q, "COUNT_ONE" in em.customStringFunctions).value;
      && ExpectedCount(q, em).Success?
      && ExpectedCount(q, em).value == |set x | x in UniqueParts(em.result(cq))|
      && ExpectedCount(q, em).value <= |em.result(cq)|
  {
    var cq := CountQuery(q, "COUNT_ONE" in em.customStringFunctions).value;
    DistinctCountBounds(em.result(cq));
  }

  /** Rows grouped by two columns with the tuples (A,1), (A,1), (B,2) count
      as two groups, not three rows. */
  lemma GroupedCountExample()
    ensures DistinctCount([map["uniqueParts" := "A1"], map["uniqueParts" := "A1"], map["uniqueParts" := "B2"]]) == 2
  {
    var rows: seq<Record> := [map["uniqueParts" := "A1"], map["uniqueParts" := "A1"], map["uniqueParts" := "B2"]];
    assert UniqueParts(rows) == ["A1", "A1", "B2"];
    assert ["A1", "A1", "B2"][..2] == ["A1", "A1"];
    assert ["A1", "A1"][..1] == ["A1"];
    assert ArrayUnique(["A1", "A1"]) == ["A1"];
  }

  // ---------------------------------------------------------------------
  // The adapter

  class PaginatorFast {
    const qb: QueryBuilder
    var rowCount: Option<int>

    constructor (qb: QueryBuilder)
      ensures this.qb == qb && rowCount == None
    {
      this.qb := qb;
      rowCount := None;
    }

    method GetQueryBuilder() returns (b: QueryBuilder)
      ensures b == qb
    {
      b := qb;
    }

    /** `getItems`: pages the held builder itself and runs it. */
    method GetItems(offset: int, itemCountPerPage: int) returns (items: seq<Record>)
      modifies qb`query, qb.em`executed
      ensures qb.query == old(qb.query).(firstResult := Some(offset), maxResults := Some(itemCountPerPage))
      ensures items == qb.em.arrayResult(qb.query)
      ensures qb.em.executed == old(qb.em.executed) + [qb.query]
    {
      var b := GetQueryBuilder();
      b := b.SetFirstResult(Some(offset));
      b := b.SetMaxResults(Some(itemCountPerPage));
      items := b.GetArrayResult();
    }

    /** The projected values of the rows, collected one by one. */
    method CollectUniqueParts(rows: seq<Record>) returns (items: seq<string>)
      ensures items == UniqueParts(rows)
    {
      items := [];
      var i := 0;
      while i < |rows|
        invariant 0 <= i <= |rows|
        invariant items == UniqueParts(rows[..i])
      {
        items := items + [UniquePart(rows[i])];
        assert UniqueParts(rows[..i + 1]) == UniqueParts(rows[..i]) + [UniquePart(rows[i])];
        i := i + 1;
      }
      assert rows[..i] == rows;
    }

    /** `count`: the cached count when there is one, and otherwise the
        count of the builder's query, computed on a clone, cached and
        returned. Only the counting query runs; the held builder keeps its
        parts and paging. */
    method Count() returns (r: Result<int, CountError>)
      modifies this`rowCount, qb.em`executed
      ensures qb.query == old(qb.query)
      ensures old(rowCount).Some? ==>
        r == Success(old(rowCount).value) && rowCount == old(rowCount) && qb.em.executed == old(qb.em.executed)
      ensures old(rowCount).None? ==> r == ExpectedCount(qb.query, qb.em)
      ensures old(rowCount).None? && r.Success? ==>
        && rowCount == Some(r.value)
        && qb.em.executed == old(qb.em.executed) + [CountQuery(qb.query, "COUNT_ONE" in qb.em.customStringFunctions).value]
      ensures old(rowCount).None? && r.Failure? ==> rowCount == None && qb.em.executed == old(qb.em.executed)
    {
      if rowCount.Some? {
        return Success(rowCount.value);
      }
      var original := GetQueryBuilder();
      var b := new QueryBuilder.Clone(original);
      var groupParts := b.query.groupBy;
      var fromPart := b.query.from;
      ghost var cq := CountQuery(original.query, "COUNT_ONE" in original.em.customStringFunctions);

      b := b.SetFirstResult(None);
      b := b.SetMaxResults(None);
      b := b.ResetDQLPart(OrderByPart);
      b := b.ResetDQLPart(SelectPart);

      if |groupParts| > 1 {
        b := b.ResetDQLPart(GroupByPart);
        b := b.Select("CONCAT(" + Implode(",", groupParts) + ") as uniqueParts");
        assert b.query == cq.value;
        var rows := b.GetResult();
        var items := CollectUniqueParts(rows);
        var uniqueItems := ArrayUnique(items);
        rowCount := Some(|uniqueItems|);
      } else if |groupParts| == 1 {
        var groupPart := groupParts[0];
        b := b.ResetDQLPart(GroupByPart);
        b := b.Select("COUNT(DISTINCT " + groupPart + ")");
        assert b.query == cq.value;
        var n := b.GetSingleScalarResult();
        rowCount := Some(n);
      } else {
        if "COUNT_ONE" in b.em.customStringFunctions {
          b := b.Select("COUNT_ONE() AS rowCount");
        } else {
          if |fromPart| == 0 {
            return Failure(NoFromPart);
          }
          b := b.Select("COUNT(" + fromPart[0].alias + ")");
        }
        assert b.query == cq.value;
        var n := b.GetSingleScalarResult();
        rowCount := Some(n);
      }
      r := Success(rowCount.value);
    }
  }
}
