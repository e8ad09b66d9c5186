/** The whole JSON schema of a type (`get_jsonschema_for_fti`,
    `get_jsonschema_for_portal_type`): properties, the `required` list,
    widget modes, fieldset summaries, title and layouts. */
module Assembly {
  import opened SchemaModel
  import opened OrderedMaps
  import opened Fieldsets
  import opened Properties

  const ObjectType := "object"
  const ModeKey := "mode"

  datatype SchemaDocument = SchemaDocument(
    jsonType: string,
    title: string,
    properties: PropertyMap,
    required: seq<string>,
    fieldsets: seq<FieldsetInfo>,
    layouts: seq<string>)

  /** The fieldsets of a type: none when it has no structured schema. */
  function TypeFieldsets(fti: TypeInfo, tr: Translator): seq<Fieldset>
  {
    match fti.form
    case None => []
    case Some(form) => FormFieldsets(form, tr)
  }

  /** The names of the required fields in traversal order, excluded ones included. */
  function RequiredNames(fields: seq<FormField>): seq<string>
  {
    if fields == [] then []
    else
      var last := fields[|fields| - 1];
      RequiredNames(fields[..|fields| - 1]) + (if last.field.required then [last.field.name] else [])
  }

  /** `properties[name]["mode"] = field.mode` for one field with a mode;
      an absent key is a `KeyError`. */
  function ModeStep(p: PropertyMap, f: FormField): Result<PropertyMap>
  {
    if !HasMode(f) then Ok(p)
    else if f.field.name !in p.values then Err(KeyError(f.field.name))
    else
      var name := f.field.name;
      Ok(OrderedMap(p.keys, p.values[name := p.values[name][ModeKey := JStr(f.mode.value)]]))
  }

  /** The mode loop over `fields`; the first error stops it. */
  function ApplyModes(p: PropertyMap, fields: seq<FormField>): Result<PropertyMap>
  {
    if fields == [] then Ok(p)
    else
      match ApplyModes(p, fields[..|fields| - 1])
      case Err(e) => Err(e)
      case Ok(q) => ModeStep(q, fields[|fields| - 1])
  }

  /** What `get_jsonschema_for_fti` returns. */
  function SchemaForFti(reg: Registry, tr: Translator, fti: TypeInfo, excluded: set<string>): Result<SchemaDocument>
  {
    var fieldsets := TypeFieldsets(fti, tr);
    var fields := IterFields(fieldsets);
    match PropertiesOf(reg, fieldsets, "", excluded, None)
    case Err(e) => Err(e)
    case Ok(p) =>
      match ApplyModes(p, fields)
      case Err(e) => Err(e)
      case Ok(q) => Ok(SchemaDocument(ObjectType, tr(fti.title), q, RequiredNames(fields), FieldsetInfos(fieldsets), fti.viewMethods))
  }

  /** `get_jsonschema_for_fti`. */
  method JsonSchemaForFti(reg: Registry, tr: Translator, fti: TypeInfo, excluded: set<string>)
    returns (r: Result<SchemaDocument>)
    ensures r == SchemaForFti(reg, tr, fti, excluded)
  {
    var fieldsets: seq<Fieldset> := [];
    if fti.form.Some? {
      fieldsets := GetFormFieldsets(fti.form.value, tr);
    }
    var built := GetJsonSchemaProperties(reg, fieldsets, "", excluded, None);
    if built.Err? {
      return Err(built.error);
    }
    var properties := built.value;
    var fields := IterFields(fieldsets);

    var required: seq<string> := [];
    var i := 0;
    while i < |fields|
      invariant 0 <= i <= |fields|
      invariant required == RequiredNames(fields[..i])
    {
      assert fields[..i + 1][..i] == fields[..i];
      if fields[i].field.required {
        required := required + [fields[i].field.name];
      }
      i := i + 1;
    }
    assert fields[..i] == fields;

    i := 0;
    while i < |fields|
      invariant 0 <= i <= |fields|
      invariant ApplyModes(built.value, fields[..i]) == Ok(properties)
    {
      var field := fields[i];
      assert fields[..i + 1][..i] == fields[..i];
      if field.mode.Some? && field.mode.value != "" {
        var name := field.field.name;
        if name !in properties.values {
          ModesErrSticks(built.value, fields, i + 1);
          return Err(KeyError(name));
        }
        properties := OrderedMap(properties.keys, properties.values[name := properties.values[name][ModeKey := JStr(field.mode.value)]]);
      }
      i := i + 1;
    }
    assert fields[..i] == fields;

    var infos := GetFieldsetInfos(fieldsets);
    return Ok(SchemaDocument(ObjectType, tr(fti.title), properties, required, infos, fti.viewMethods));
  }

  /** `get_jsonschema_for_portal_type`: an unknown type name is a `KeyError`. */
  method JsonSchemaForPortalType(reg: Registry, tr: Translator, types: map<string, TypeInfo>, portalType: string,
                                 excluded: set<string>)
    returns (r: Result<SchemaDocument>)
    ensures portalType !in types ==> r == Err(KeyError(portalType))
    ensures portalType in types ==> r == SchemaForFti(reg, tr, types[portalType], excluded)
  {
    if portalType !in types {
      return Err(KeyError(portalType));
    }
    r := JsonSchemaForFti(reg, tr, types[portalType], excluded);
  }

  // ---------------------------------------------------------------------------
  // The `required` list.

  lemma {:induction false} RequiredNamesAppend(a: seq<FormField>, b: seq<FormField>)
    ensures RequiredNames(a + b) == RequiredNames(a) + RequiredNames(b)
    decreases |b|
  {
    if b == [] {
      assert a + b == a;
    } else {
      var b' := b[..|b| - 1];
      assert (a + b)[..|a + b| - 1] == a + b';
      RequiredNamesAppend(a, b');
    }
  }

  /** A name is listed exactly when some field of that name is required. */
  lemma {:induction false} RequiredNamesMembers(fields: seq<FormField>, n: string)
    ensures n in RequiredNames(fields) <==> exists j :: 0 <= j < |fields| && fields[j].field.required && fields[j].field.name == n
    decreases |fields|
  {
    if fields != [] {
      var init := fields[..|fields| - 1];
      RequiredNamesMembers(init, n);
      assert forall j :: 0 <= j < |init| ==> init[j] == fields[j];
    }
  }

  // ---------------------------------------------------------------------------
  // Modes.

  lemma {:induction false} ModesErrSticks(p: PropertyMap, fields: seq<FormField>, n: nat)
    requires n <= |fields| && ApplyModes(p, fields[..n]).Err?
    ensures ApplyModes(p, fields) == ApplyModes(p, fields[..n])
    decreases |fields|
  {
    if n < |fields| {
      var init := fields[..|fields| - 1];
      assert init[..n] == fields[..n];
      ModesErrSticks(p, init, n);
    } else {
      assert fields[..n] == fields;
    }
  }

  /** The mode loop adds no key and removes none. */
  lemma {:induction false} ModesKeepKeys(p: PropertyMap, fields: seq<FormField>)
    ensures ApplyModes(p, fields).Ok? ==>
      ApplyModes(p, fields).value.keys == p.keys && ApplyModes(p, fields).value.values.Keys == p.values.Keys
    decreases |fields|
  {
    if fields != [] {
      ModesKeepKeys(p, fields[..|fields| - 1]);
    }
  }

  /** The loop fails exactly when a field with a mode has no entry, as an
      excluded field has none. */
  lemma {:induction false} ModesError(p: PropertyMap, fields: seq<FormField>)
    ensures ApplyModes(p, fields).Err? <==>
      exists j :: 0 <= j < |fields| && HasMode(fields[j]) && fields[j].field.name !in p.values
    decreases |fields|
  {
    if fields != [] {
      var init := fields[..|fields| - 1];
      ModesError(p, init);
      ModesKeepKeys(p, init);
      assert forall j :: 0 <= j < |init| ==> init[j] == fields[j];
    }
  }

  /** The entry of a field with a mode carries the mode of the last field
      of that name that has one. */
  lemma {:induction false} ModesAttached(p: PropertyMap, fields: seq<FormField>, j: nat)
    requires j < |fields| && HasMode(fields[j])
    requires forall l :: j < l < |fields| ==> !(HasMode(fields[l]) && fields[l].field.name == fields[j].field.name)
    ensures ApplyModes(p, fields).Ok? ==>
      var q := ApplyModes(p, fields).value;
      fields[j].field.name in q.values && ModeKey in q.values[fields[j].field.name]
      && q.values[fields[j].field.name][ModeKey] == JStr(fields[j].mode.value)
    decreases |fields|
  {
    if j < |fields| - 1 {
      ModesAttached(p, fields[..|fields| - 1], j);
    }
  }

  /** Apart from `mode`, every entry keeps all it had, and an entry no field
      with a mode names is left as it was. */
  lemma {:induction false} ModesOnlyMode(p: PropertyMap, fields: seq<FormField>, k: string, x: string)
    requires k in p.values && x != ModeKey
    ensures ApplyModes(p, fields).Ok? ==>
      var q := ApplyModes(p, fields).value;
      && k in q.values
      && (x in q.values[k] <==> x in p.values[k])
      && (x in p.values[k] ==> q.values[k][x] == p.values[k][x])
      && ((forall l :: 0 <= l < |fields| ==> !(HasMode(fields[l]) && fields[l].field.name == k)) ==> q.values[k] == p.values[k])
    decreases |fields|
  {
    if fields != [] {
      var init := fields[..|fields| - 1];
      ModesOnlyMode(p, init, k, x);
      ModesKeepKeys(p, init);
      assert forall l :: 0 <= l < |init| ==> init[l] == fields[l];
    }
  }

  // ---------------------------------------------------------------------------
  // The document.

  /** A type without a structured schema still gets its title and layouts,
      with no properties, no required fields and no fieldsets. */
  lemma SchemaLessFallback(reg: Registry, tr: Translator, fti: TypeInfo, excluded: set<string>)
    requires fti.form.None?
    ensures SchemaForFti(reg, tr, fti, excluded)
      == Ok(SchemaDocument(ObjectType, tr(fti.title), Empty(), [], [], fti.viewMethods))
  {
    assert TypeFieldsets(fti, tr) == [];
    assert FieldsetInfos([]) == [];
  }

  /** The parts of a built document: the keys are the non-excluded field
      names in traversal order, each once; no excluded name is a key;
      `required` lists the required fields, excluded ones included; the
      fieldset summaries, title and layouts come from the type. */
  lemma DocumentShape(reg: Registry, tr: Translator, fti: TypeInfo, excluded: set<string>)
    requires SchemaForFti(reg, tr, fti, excluded).Ok?
    ensures var doc, fieldsets := SchemaForFti(reg, tr, fti, excluded).value, TypeFieldsets(fti, tr);
      var fields := IterFields(fieldsets);
      && doc.jsonType == ObjectType && doc.title == tr(fti.title) && doc.layouts == fti.viewMethods
      && Valid(doc.properties)
      && doc.properties.keys == Dedup(KeyList("", excluded, fields))
      && (forall n :: n in excluded ==> n !in doc.properties.values)
      && doc.required == RequiredNames(fields)
      && doc.fieldsets == FieldsetInfos(fieldsets)
  {
    var fieldsets := TypeFieldsets(fti, tr);
    var fields := IterFields(fieldsets);
    var p := Accumulate(reg, "", excluded, fields).value;
    AccumulateKeys(reg, "", excluded, fields);
    AccumulateMembers(reg, "", excluded, fields);
    ModesKeepKeys(p, fields);
    var q := ApplyModes(p, fields).value;
    assert q.keys == p.keys && q.values.Keys == p.values.Keys;
    assert forall n :: n in excluded ==> Key("", n) == n;
  }

  /** A field with a mode whose name is excluded makes the build fail with
      a `KeyError`: its entry is looked up although it was never created. */
  lemma ExcludedModeFails(reg: Registry, tr: Translator, fti: TypeInfo, excluded: set<string>, j: nat)
    requires j < |IterFields(TypeFieldsets(fti, tr))|
    requires HasMode(IterFields(TypeFieldsets(fti, tr))[j])
    requires IterFields(TypeFieldsets(fti, tr))[j].field.name in excluded
    ensures SchemaForFti(reg, tr, fti, excluded).Err?
  {
    var fields := IterFields(TypeFieldsets(fti, tr));
    var r := Accumulate(reg, "", excluded, fields);
    if r.Ok? {
      AccumulateMembers(reg, "", excluded, fields);
      assert Key("", fields[j].field.name) == fields[j].field.name;
      ModesError(r.value, fields);
    }
  }
}
