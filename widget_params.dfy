/** Widget parameters (`get_widget_params`): per field name, the parameters
    of its parameterised widget, with deferred values evaluated. */
module WidgetParams {
  import opened SchemaModel

  /** A widget parameter: a literal, or a callable evaluated at build time. */
  datatype ParamValue = Literal(value: Json) | Deferred(call: () -> Json)

  /** A widget tagged value: a parameterised widget with its parameters, or
      any other widget declaration. */
  datatype WidgetHint = ParameterizedWidget(params: map<string, ParamValue>) | OtherWidget

  /** A schema interface: the names it iterates over, inherited ones
      included, and its widget tagged values merged along its inheritance
      chain (what `mergedTaggedValueDict(schema, WIDGETS_KEY)` returns). */
  datatype Schema = Schema(names: seq<string>, widgets: map<string, WidgetHint>)

  type Params = map<string, map<string, Json>>

  function Evaluate(v: ParamValue): Json
  {
    match v
    case Literal(j) => j
    case Deferred(call) => call()
  }

  function Resolved(params: map<string, ParamValue>): map<string, Json>
  {
    map k | k in params :: Evaluate(params[k])
  }

  /** The field `n` of `s` has a parameterised widget with parameters. */
  predicate Contributes(s: Schema, n: string)
  {
    n in s.widgets && s.widgets[n].ParameterizedWidget? && |s.widgets[n].params| > 0
  }

  /** Schema slot `o` is present and gives field `n` parameters. */
  predicate Declares(o: Option<Schema>, n: string)
  {
    o.Some? && n in o.value.names && Contributes(o.value, n)
  }

  /** The loop over one schema's names, starting from `acc`. */
  function SchemaParams(acc: Params, s: Schema, names: seq<string>): Params
  {
    if names == [] then acc
    else
      var p, n := SchemaParams(acc, s, names[..|names| - 1]), names[|names| - 1];
      if Contributes(s, n) then p[n := Resolved(s.widgets[n].params)] else p
  }

  /** The loop over all schemas; absent ones are skipped. */
  function WidgetParamsOf(schemas: seq<Option<Schema>>): Params
  {
    if schemas == [] then map[]
    else
      var p := WidgetParamsOf(schemas[..|schemas| - 1]);
      match schemas[|schemas| - 1]
      case None => p
      case Some(s) => SchemaParams(p, s, s.names)
  }

  /** The inner loop over a widget's parameters: callables are called. */
  method ResolveParams(widgetParams: map<string, ParamValue>) returns (resolved: map<string, Json>)
    ensures resolved.Keys == widgetParams.Keys
    ensures forall k :: k in widgetParams ==>
      resolved[k] == if widgetParams[k].Deferred? then widgetParams[k].call() else widgetParams[k].value
    ensures resolved == Resolved(widgetParams)
  {
    resolved := map[];
    var todo := widgetParams.Keys;
    while todo != {}
      invariant todo <= widgetParams.Keys
      invariant resolved == map k | k in widgetParams.Keys - todo :: Evaluate(widgetParams[k])
      decreases todo
    {
      var k :| k in todo;
      var v := widgetParams[k];
      if v.Deferred? {
        v := Literal(v.call());
      }
      resolved := resolved[k := v.value];
      todo := todo - {k};
    }
  }

  /** `get_widget_params`. */
  method GetWidgetParams(schemas: seq<Option<Schema>>) returns (params: Params)
    ensures params == WidgetParamsOf(schemas)
  {
    params := map[];
    var i := 0;
    while i < |schemas|
      invariant 0 <= i <= |schemas|
      invariant params == WidgetParamsOf(schemas[..i])
    {
      assert schemas[..i + 1][..i] == schemas[..i];
      if schemas[i].Some? {
        var schema := schemas[i].value;
        var tagged := schema.widgets;
        ghost var start := params;
        var j := 0;
        while j < |schema.names|
          invariant 0 <= j <= |schema.names|
          invariant params == SchemaParams(start, schema, schema.names[..j])
        {
          assert schema.names[..j + 1][..j] == schema.names[..j];
          var fieldName := schema.names[j];
          if fieldName in tagged && tagged[fieldName].ParameterizedWidget? && |tagged[fieldName].params| > 0 {
            var resolved := ResolveParams(tagged[fieldName].params);
            params := params[fieldName := resolved];
          }
          j := j + 1;
        }
        assert schema.names[..j] == schema.names;
      }
      i := i + 1;
    }
    assert schemas[..i] == schemas;
  }

  // ---------------------------------------------------------------------------

  lemma {:induction false} SchemaParamsDomain(acc: Params, s: Schema, names: seq<string>, n: string)
    ensures n in SchemaParams(acc, s, names) <==> n in acc || (n in names && Contributes(s, n))
    decreases |names|
  {
    if names != [] {
      var init := names[..|names| - 1];
      SchemaParamsDomain(acc, s, init, n);
      assert names == init + [names[|names| - 1]];
    }
  }

  lemma {:induction false} SchemaParamsValue(acc: Params, s: Schema, names: seq<string>, n: string)
    ensures n in names && Contributes(s, n) ==>
      n in SchemaParams(acc, s, names) && SchemaParams(acc, s, names)[n] == Resolved(s.widgets[n].params)
    ensures !(n in names && Contributes(s, n)) && n in acc ==>
      n in SchemaParams(acc, s, names) && SchemaParams(acc, s, names)[n] == acc[n]
    decreases |names|
  {
    if names != [] {
      var init := names[..|names| - 1];
      SchemaParamsValue(acc, s, init, n);
      assert names == init + [names[|names| - 1]];
    }
  }

  /** A field has parameters exactly when some present schema declares a
      parameterised widget with parameters for one of its names. */
  lemma {:induction false} WidgetParamsDomain(schemas: seq<Option<Schema>>, n: string)
    ensures n in WidgetParamsOf(schemas) <==> exists j :: 0 <= j < |schemas| && Declares(schemas[j], n)
    decreases |schemas|
  {
    if schemas != [] {
      var init := schemas[..|schemas| - 1];
      WidgetParamsDomain(init, n);
      assert forall j :: 0 <= j < |init| ==> init[j] == schemas[j];
      var last := schemas[|schemas| - 1];
      if last.Some? {
        SchemaParamsDomain(WidgetParamsOf(init), last.value, last.value.names, n);
      }
    }
  }

  /** The parameters of a field come, fully evaluated, from the last schema
      that declares them: a later schema overrides an earlier one, and a
      later schema without parameters for it leaves them. */
  lemma {:induction false} WidgetParamsLastWins(schemas: seq<Option<Schema>>, j: nat, n: string)
    requires j < |schemas| && Declares(schemas[j], n)
    requires forall k :: j < k < |schemas| ==> !Declares(schemas[k], n)
    ensures n in WidgetParamsOf(schemas)
    ensures WidgetParamsOf(schemas)[n] == Resolved(schemas[j].value.widgets[n].params)
    decreases |schemas|
  {
    var init, last := schemas[..|schemas| - 1], schemas[|schemas| - 1];
    if j < |schemas| - 1 {
      WidgetParamsLastWins(init, j, n);
      if last.Some? {
        SchemaParamsValue(WidgetParamsOf(init), last.value, last.value.names, n);
      }
    } else {
      SchemaParamsValue(WidgetParamsOf(init), last.value, last.value.names, n);
    }
  }
}
