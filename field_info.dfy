/** The single-name lookup (`get_info_for_field`): a fieldset summary, a
    decorated field property, or a "not found" message. */
module FieldInfo {
  import opened SchemaModel
  import opened OrderedMaps
  import opened Fieldsets
  import opened Properties
  import opened Assembly

  const NotFoundMessage := "No entry could be found for the supplied name."

  datatype Info =
    | FieldsetSummary(fieldset: FieldsetInfo)
    | FieldProperty(properties: PropertyMap)
    | NotFound(message: string)

  /** `str(getattr(field, 'interface', None))`. */
  function InterfaceText(iface: Option<string>): string
  {
    match iface
    case None => "None"
    case Some(name) => name
  }

  /** A field's schema fragment with the field's own metadata added. */
  function Decorate(frag: Fragment, f: SchemaField): Fragment
  {
    frag["default" := f.default]
        ["defaultFactory" := f.defaultFactory]
        ["interface" := JStr(InterfaceText(f.iface))]
        ["max_length" := f.maxLength]
        ["min_length" := f.minLength]
        ["missing_value" := f.missingValue]
        ["order" := JInt(f.order)]
        ["readonly" := JBool(f.readonly)]
        ["required" := JBool(f.required)]
  }

  /** The fieldset is called `name` or holds a field called `name`. */
  predicate Hit(fs: Fieldset, name: string)
  {
    fs.id == name || FirstNamed(fs.fields, name).Some?
  }

  /** The index of the first fieldset the scan stops at. */
  function FirstHit(fieldsets: seq<Fieldset>, name: string): (r: Option<nat>)
    ensures r.Some? ==>
      && r.value < |fieldsets| && Hit(fieldsets[r.value], name)
      && (forall k :: 0 <= k < r.value ==> !Hit(fieldsets[k], name))
    ensures r.None? ==> forall k :: 0 <= k < |fieldsets| ==> !Hit(fieldsets[k], name)
  {
    if fieldsets == [] then None
    else if Hit(fieldsets[0], name) then Some(0)
    else
      match FirstHit(fieldsets[1..], name)
      case None => None
      case Some(i) => Some(i + 1)
  }

  /** What `get_info_for_field` returns for the given fieldsets. */
  function InfoForField(reg: Registry, fieldsets: seq<Fieldset>, name: string): Result<Info>
  {
    match FirstHit(fieldsets, name)
    case None => Ok(NotFound(NotFoundMessage))
    case Some(i) =>
      var fs := fieldsets[i];
      if fs.id == name then Ok(FieldsetSummary(FieldsetInfoOf(fs)))
      else FieldAnswer(reg, fs, fs.fields[FirstNamed(fs.fields, name).value].field, name)
  }

  /** The answer for field `f` called `name` in fieldset `fs`: the schema
      properties restricted to that name, its entry decorated. */
  function FieldAnswer(reg: Registry, fs: Fieldset, f: SchemaField, name: string): Result<Info>
  {
    match PropertiesOf(reg, [fs], "", {}, Some(name))
    case Err(e) => Err(e)
    case Ok(p) =>
      if name !in p.values then Err(KeyError(name))
      else Ok(FieldProperty(OrderedMap(p.keys, p.values[name := Decorate(p.values[name], f)])))
  }

  /** The same, after looking the type up by name. */
  function InfoForPortalType(reg: Registry, tr: Translator, types: map<string, TypeInfo>, portalType: string,
                             name: string): Result<Info>
  {
    if portalType !in types then Err(KeyError(portalType))
    else InfoForField(reg, TypeFieldsets(types[portalType], tr), name)
  }

  /** `get_info_for_field`. */
  method GetInfoForField(reg: Registry, tr: Translator, types: map<string, TypeInfo>, portalType: string,
                         fieldName: string)
    returns (r: Result<Info>)
    ensures r == InfoForPortalType(reg, tr, types, portalType, fieldName)
  {
    if portalType !in types {
      return Err(KeyError(portalType));
    }
    var fti := types[portalType];
    var fieldsets: seq<Fieldset> := [];
    if fti.form.Some? {
      fieldsets := GetFormFieldsets(fti.form.value, tr);
    }
    assert fieldsets == TypeFieldsets(fti, tr);
    r := LookupInFieldsets(reg, fieldsets, fieldName);
  }

  /** The outer loop of `get_info_for_field`: the first fieldset called
      `fieldName`, or holding a field of that name, answers. */
  method LookupInFieldsets(reg: Registry, fieldsets: seq<Fieldset>, fieldName: string) returns (r: Result<Info>)
    ensures r == InfoForField(reg, fieldsets, fieldName)
  {
    var i := 0;
    while i < |fieldsets|
      invariant 0 <= i <= |fieldsets|
      invariant forall k :: 0 <= k < i ==> !Hit(fieldsets[k], fieldName)
    {
      var fieldset := fieldsets[i];
      if fieldset.id == fieldName {
        assert FirstHit(fieldsets, fieldName) == Some(i);
        var infos := GetFieldsetInfos([fieldset]);
        return Ok(FieldsetSummary(infos[0]));
      }
      var found, answer := ScanFieldset(reg, fieldset, fieldName);
      if found {
        assert FirstHit(fieldsets, fieldName) == Some(i);
        return answer;
      }
      i := i + 1;
    }
    assert FirstHit(fieldsets, fieldName).None?;
    return Ok(NotFound(NotFoundMessage));
  }

  /** The inner loop of `get_info_for_field` over one fieldset's fields: it
      stops at the first field called `fieldName` and answers for it. */
  method ScanFieldset(reg: Registry, fieldset: Fieldset, fieldName: string) returns (found: bool, r: Result<Info>)
    ensures found <==> FirstNamed(fieldset.fields, fieldName).Some?
    ensures found ==> r == FieldAnswer(reg, fieldset, fieldset.fields[FirstNamed(fieldset.fields, fieldName).value].field, fieldName)
  {
    var j := 0;
    while j < |fieldset.fields|
      invariant 0 <= j <= |fieldset.fields|
      invariant forall l :: 0 <= l < j ==> fieldset.fields[l].field.name != fieldName
    {
      if fieldset.fields[j].field.name == fieldName {
        assert FirstNamed(fieldset.fields, fieldName) == Some(j);
        var field := fieldset.fields[j].field;
        var built := GetJsonSchemaProperties(reg, [fieldset], "", {}, Some(fieldName));
        if built.Err? {
          return true, Err(built.error);
        }
        var properties := built.value;
        if fieldName !in properties.values {
          return true, Err(KeyError(fieldName));
        }
        var entry := properties.values[fieldName];
        entry := entry["default" := field.default];
        entry := entry["defaultFactory" := field.defaultFactory];
        entry := entry["interface" := JStr(InterfaceText(field.iface))];
        entry := entry["max_length" := field.maxLength];
        entry := entry["min_length" := field.minLength];
        entry := entry["missing_value" := field.missingValue];
        entry := entry["order" := JInt(field.order)];
        entry := entry["readonly" := JBool(field.readonly)];
        entry := entry["required" := JBool(field.required)];
        properties := OrderedMap(properties.keys, properties.values[fieldName := entry]);
        return true, Ok(FieldProperty(properties));
      }
      j := j + 1;
    }
    return false, Ok(NotFound(NotFoundMessage));
  }

  // ---------------------------------------------------------------------------

  /** A fieldset called `name` is answered with its summary before its own
      fields, or any later fieldset, are looked at. */
  lemma FieldsetFirst(reg: Registry, fieldsets: seq<Fieldset>, name: string, i: nat)
    requires i < |fieldsets| && fieldsets[i].id == name
    requires forall k :: 0 <= k < i ==> !Hit(fieldsets[k], name)
    ensures InfoForField(reg, fieldsets, name) == Ok(FieldsetSummary(FieldsetInfo(name, fieldsets[i].title, FieldNames(fieldsets[i].fields))))
  {
    assert FirstHit(fieldsets, name) == Some(i);
  }

  /** A field called `name`, first in the first fieldset that matches, is
      answered with its own property alone, decorated with its metadata; the
      lookup fails exactly when that field or a field before it in the same
      fieldset has no adapter. */
  lemma FieldFound(reg: Registry, fieldsets: seq<Fieldset>, name: string, i: nat, j: nat)
    requires i < |fieldsets| && fieldsets[i].id != name
    requires forall k :: 0 <= k < i ==> !Hit(fieldsets[k], name)
    requires j < |fieldsets[i].fields| && fieldsets[i].fields[j].field.name == name
    requires forall l :: 0 <= l < j ==> fieldsets[i].fields[l].field.name != name
    ensures var r, fields := InfoForField(reg, fieldsets, name), fieldsets[i].fields;
      && (r.Err? <==> exists l :: 0 <= l <= j && Dispatch(reg, fields[l]).None?)
      && (r.Ok? ==>
            r.value == FieldProperty(Single(name,
              Decorate(reg.getSchema(Dispatch(reg, fields[j]).value, fields[j].field, ""), fields[j].field))))
  {
    assert FirstNamed(fieldsets[i].fields, name) == Some(j);
    assert FirstHit(fieldsets, name) == Some(i);
    FieldAnswerShape(reg, fieldsets[i], name, j);
  }

  lemma FieldAnswerShape(reg: Registry, fs: Fieldset, name: string, j: nat)
    requires j < |fs.fields| && fs.fields[j].field.name == name
    requires forall l :: 0 <= l < j ==> fs.fields[l].field.name != name
    ensures var r, f := FieldAnswer(reg, fs, fs.fields[j].field, name), fs.fields[j];
      && (r.Err? <==> exists l :: 0 <= l <= j && Dispatch(reg, fs.fields[l]).None?)
      && (r.Ok? ==>
            r.value == FieldProperty(Single(name, Decorate(reg.getSchema(Dispatch(reg, f).value, f.field, ""), f.field))))
  {
    var p := PropertiesOf(reg, [fs], "", {}, Some(name));
    SingleFieldset(reg, fs, name, j);
    if p.Ok? {
      var decorated := Decorate(p.value.values[name], fs.fields[j].field);
      assert OrderedMap(p.value.keys, p.value.values[name := decorated]) == Single(name, decorated);
    }
  }

  /** The properties of one fieldset restricted to one of its field names. */
  lemma SingleFieldset(reg: Registry, fs: Fieldset, name: string, j: nat)
    requires j < |fs.fields| && fs.fields[j].field.name == name
    requires forall l :: 0 <= l < j ==> fs.fields[l].field.name != name
    ensures var r, f := PropertiesOf(reg, [fs], "", {}, Some(name)), fs.fields[j];
      && (r.Err? <==> exists l :: 0 <= l <= j && Dispatch(reg, fs.fields[l]).None?)
      && (r.Ok? ==> r.value == Single(name, reg.getSchema(Dispatch(reg, f).value, f.field, "")))
  {
    IterFieldsSingle(fs);
    ShortCircuit(reg, [fs], "", {}, j);
  }

  /** The "not found" message comes exactly when no fieldset has the name as
      its id and no field has it as its name. */
  lemma NotFoundExactly(reg: Registry, fieldsets: seq<Fieldset>, name: string)
    ensures InfoForField(reg, fieldsets, name) == Ok(NotFound(NotFoundMessage)) <==>
      forall k :: 0 <= k < |fieldsets| ==>
        fieldsets[k].id != name && forall l :: 0 <= l < |fieldsets[k].fields| ==> fieldsets[k].fields[l].field.name != name
  {
    if FirstHit(fieldsets, name).Some? {
      var i := FirstHit(fieldsets, name).value;
      if fieldsets[i].id != name {
        var j := FirstNamed(fieldsets[i].fields, name).value;
        assert fieldsets[i].fields[j].field.name == name;
      }
    } else {
      forall k, l | 0 <= k < |fieldsets| && 0 <= l < |fieldsets[k].fields|
        ensures fieldsets[k].fields[l].field.name != name
      {
        assert !Hit(fieldsets[k], name);
      }
    }
  }

  /** A type without a structured schema answers every name with "not found". */
  lemma SchemaLessNotFound(reg: Registry, tr: Translator, types: map<string, TypeInfo>, portalType: string, name: string)
    requires portalType in types && types[portalType].form.None?
    ensures InfoForPortalType(reg, tr, types, portalType, name) == Ok(NotFound(NotFoundMessage))
  {
  }
}
