/** The formatter gate: a formatter formats a column's value only when the
    current renderer is one of its valid renderers, and otherwise hands the
    raw row value through. The concrete formatting (`getFormattedValue`)
    is a function the formatter is built with. */
module AbstractFormatter {
  import opened Common

  /** Why `format` throws: the raw value is missing from the row or is
      `null`, and `null` meets the `string|array` return type. */
  datatype FormatError = NullValue(columnId: string)

  class Formatter<C, V> {
    var data: map<string, Option<V>>
    var rendererName: Option<string>
    var validRenderers: seq<string>
    const uniqueIdOf: C -> string
    const formattedValue: (map<string, Option<V>>, C) -> V

    /** A formatter with no row data, no renderer name and no valid
        renderers. */
    constructor (uniqueIdOf: C -> string, formattedValue: (map<string, Option<V>>, C) -> V)
      ensures data == map[] && rendererName == None && validRenderers == []
      ensures this.uniqueIdOf == uniqueIdOf && this.formattedValue == formattedValue
    {
      data := map[];
      rendererName := None;
      validRenderers := [];
      this.uniqueIdOf := uniqueIdOf;
      this.formattedValue := formattedValue;
    }

    method SetRowData(d: map<string, Option<V>>) returns (self: Formatter<C, V>)
      modifies this`data
      ensures data == d && self == this
    {
      data := d;
      self := this;
    }

    method GetRowData() returns (d: map<string, Option<V>>)
      ensures d == data
    {
      d := data;
    }

    /** Accepts `null`, the default. */
    method SetRendererName(name: Option<string> := None) returns (self: Formatter<C, V>)
      modifies this`rendererName
      ensures rendererName == name && self == this
    {
      rendererName := name;
      self := this;
    }

    method GetRendererName() returns (name: Option<string>)
      ensures name == rendererName
    {
      name := rendererName;
    }

    method SetValidRendererNames(names: seq<string>) returns (self: Formatter<C, V>)
      modifies this`validRenderers
      ensures validRenderers == names && self == this
    {
      validRenderers := names;
      self := this;
    }

    method GetValidRendererNames() returns (names: seq<string>)
      ensures names == validRenderers
    {
      names := validRenderers;
    }

    /** The renderer name is set and equals one of the valid renderers. */
    predicate IsApply()
      reads this
      ensures IsApply() <==> exists k :: 0 <= k < |validRenderers| && Some(validRenderers[k]) == rendererName
    {
      rendererName.Some? && rendererName.value in validRenderers
    }

    /** `format(column)`: the formatted value when the formatter applies,
        else the raw value of the row at the column's id. A value passed
        through is always the row's own, non-null value. */
    function Format(column: C): (r: Result<V, FormatError>)
      reads this
      ensures !IsApply() && r.Success? ==> uniqueIdOf(column) in data && data[uniqueIdOf(column)] == Some(r.value)
    {
      if IsApply() then Success(formattedValue(data, column))
      else if uniqueIdOf(column) in data && data[uniqueIdOf(column)].Some? then Success(data[uniqueIdOf(column)].value)
      else Failure(NullValue(uniqueIdOf(column)))
    }
  }

  /** `format` throws exactly when the formatter does not apply and the row
      has no value, or `null`, for the column; when it applies, the result is the
      formatted value whatever the row holds at the column's id. */
  lemma FormatOutcome<C, V>(f: Formatter<C, V>, column: C)
    ensures f.Format(column).Failure? <==>
      !f.IsApply() && (f.uniqueIdOf(column) !in f.data || f.data[f.uniqueIdOf(column)].None?)
    ensures f.Format(column).Failure? ==> f.Format(column).error == NullValue(f.uniqueIdOf(column))
    ensures f.IsApply() ==> f.Format(column) == Success(f.formattedValue(f.data, column))
  {
  }

  /** With no valid renderers, `format` only ever passes the raw row value
      through, whatever the renderer name. */
  lemma NoRenderersPassThrough<C, V>(f: Formatter<C, V>, column: C)
    requires f.validRenderers == []
    ensures !f.IsApply()
    ensures f.uniqueIdOf(column) in f.data && f.data[f.uniqueIdOf(column)].Some? ==>
      f.Format(column) == Success(f.data[f.uniqueIdOf(column)].value)
    ensures f.uniqueIdOf(column) !in f.data || f.data[f.uniqueIdOf(column)].None? ==>
      f.Format(column) == Failure(NullValue(f.uniqueIdOf(column)))
  {
  }
}
