/** Column data taken from an external object: the data object holds an
    optional object-aware collaborator and the list of parameter bindings
    that tie object parameters to columns. Setting a parameter and
    rendering to a string both do nothing harmful when no object is set. */
module DataObject {
  import opened Common

  /** One `{objectParameterName, column}` binding. */
  datatype Binding<C> = Binding(objectParameterName: string, column: C)

  /** The object-aware collaborator: it records the parameters it is given,
      and its `toString()` depends on them through `render`. */
  class ObjectAware<V> {
    var received: seq<(string, V)>
    const render: seq<(string, V)> -> string

    constructor (render: seq<(string, V)> -> string)
      ensures received == [] && this.render == render
    {
      received := [];
      this.render := render;
    }

    method SetParameterFromColumn(name: string, value: V)
      modifies this`received
      ensures received == old(received) + [(name, value)]
    {
      received := received + [(name, value)];
    }

    function ToString(): string
      reads this
    {
      render(received)
    }
  }

  class DataObject<C, V> {
    var held: Option<ObjectAware<V>>
    var objectParameters: seq<Binding<C>>

    constructor ()
      ensures held == None && objectParameters == []
    {
      held := None;
      objectParameters := [];
    }

    /** The held object (PHP `$object`), which `setObjectParameter` may change. */
    function ObjectFrame(): set<object>
      reads this
    {
      if held.Some? then {held.value} else {}
    }

    /** Accepts `null`. */
    method SetObject(o: Option<ObjectAware<V>>) returns (self: DataObject<C, V>)
      modifies this`held
      ensures held == o && self == this
    {
      held := o;
      self := this;
    }

    method GetObject() returns (o: Option<ObjectAware<V>>)
      ensures o == held
    {
      o := held;
    }

    /** Appends one binding and returns the data object itself. */
    method AddObjectParameterColumn(objectParameterName: string, column: C) returns (self: DataObject<C, V>)
      modifies this`objectParameters
      ensures objectParameters == old(objectParameters) + [Binding(objectParameterName, column)]
      ensures self == this
    {
      objectParameters := objectParameters + [Binding(objectParameterName, column)];
      self := this;
    }

    /** The bindings in the order they were added. */
    method GetObjectParametersColumn() returns (bindings: seq<Binding<C>>)
      ensures bindings == objectParameters
    {
      bindings := objectParameters;
    }

    /** Forwards the parameter to the object once, when there is one; the
        bindings never change. */
    method SetObjectParameter(name: string, value: V) returns (self: DataObject<C, V>)
      modifies ObjectFrame()
      ensures held.Some? ==> held.value.received == old(held.value.received) + [(name, value)]
      ensures self == this
    {
      if held.Some? {
        held.value.SetParameterFromColumn(name, value);
      }
      self := this;
    }

    /** `toString`: '' without an object, else the object's own string. */
    function ToString(): (r: string)
      reads this, ObjectFrame()
      ensures held.None? ==> r == ""
      ensures held.Some? ==> r == held.value.render(held.value.received)
    {
      match held
      case None => ""
      case Some(o) => o.ToString()
    }
  }
}
