/** The configuration every data source carries before it runs: the grid's
    columns, its sort conditions and filters, and the paginator adapter a
    run leaves behind. Columns, filters and adapters are opaque values of
    the type parameters. */
module AbstractDataSource {
  import opened Common

  /** One entry of the sort-condition list. */
  datatype SortCondition<C> = SortCondition(column: C, sortDirection: string)

  /** The base constructor: it always throws, naming the concrete class
      that failed to provide its own. */
  function Construct(className: string): (r: Result<(), string>)
    ensures r.Failure?
    ensures "Missing __construct in " <= r.error
    ensures |r.error| > |className|
    ensures r.error[|r.error| - |className|..] == className
  {
    Failure("Missing __construct in " + className)
  }

  class DataSource<C, F, A> {
    var columns: seq<C>
    var sortConditions: seq<SortCondition<C>>
    var filters: seq<F>
    var paginatorAdapter: Option<A>

    /** The state a concrete data source's own constructor starts from. */
    constructor ()
      ensures columns == [] && sortConditions == [] && filters == [] && paginatorAdapter == None
    {
      columns := [];
      sortConditions := [];
      filters := [];
      paginatorAdapter := None;
    }

    method SetColumns(cols: seq<C>)
      modifies this`columns
      ensures columns == cols
    {
      columns := cols;
    }

    method GetColumns() returns (cols: seq<C>)
      ensures cols == columns
    {
      cols := columns;
    }

    /** Appends one condition; the direction defaults to ascending. */
    method AddSortCondition(column: C, sortDirection: string := "ASC")
      modifies this`sortConditions
      ensures sortConditions == old(sortConditions) + [SortCondition(column, sortDirection)]
    {
      sortConditions := sortConditions + [SortCondition(column, sortDirection)];
    }

    method SetSortConditions(conditions: seq<SortCondition<C>>)
      modifies this`sortConditions
      ensures sortConditions == conditions
    {
      sortConditions := conditions;
    }

    method GetSortConditions() returns (conditions: seq<SortCondition<C>>)
      ensures conditions == sortConditions
    {
      conditions := sortConditions;
    }

    method AddFilter(filter: F)
      modifies this`filters
      ensures filters == old(filters) + [filter]
    {
      filters := filters + [filter];
    }

    method SetFilters(fs: seq<F>)
      modifies this`filters
      ensures filters == fs
    {
      filters := fs;
    }

    method GetFilters() returns (fs: seq<F>)
      ensures fs == filters
    {
      fs := filters;
    }

    /** Accepts `null`. */
    method SetPaginatorAdapter(paginator: Option<A>)
      modifies this`paginatorAdapter
      ensures paginatorAdapter == paginator
    {
      paginatorAdapter := paginator;
    }

    method GetPaginatorAdapter() returns (paginator: Option<A>)
      ensures paginator == paginatorAdapter
    {
      paginator := paginatorAdapter;
    }
  }
}
