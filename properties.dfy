/** The JSON-schema `properties` map (`get_jsonschema_properties`): adapter
    dispatch, key prefixing, exclusion and the single-field short-circuit. */
module Properties {
  import opened SchemaModel
  import opened OrderedMaps
  import opened Fieldsets

  type PropertyMap = OrderedMap<Fragment>

  /** The output key of a field: `prefix.name` under a non-empty prefix. */
  function Key(prefix: string, name: string): string
  {
    if prefix == "" then name else prefix + "." + name
  }

  /** Under one prefix, different names give different keys. */
  lemma KeyInjective(prefix: string, a: string, b: string)
    ensures Key(prefix, a) == Key(prefix, b) ==> a == b
  {
    if prefix != "" && Key(prefix, a) == Key(prefix, b) {
      assert a == Key(prefix, a)[|prefix| + 1..];
      assert b == Key(prefix, b)[|prefix| + 1..];
    }
  }

  /** `queryMultiAdapter(..., name=field.__name__)`. */
  function QueryNamed(reg: Registry, f: FormField): Option<Adapter>
  {
    if (f.field.kind, f.formName) in reg.named then Some(reg.named[(f.field.kind, f.formName)]) else None
  }

  /** `queryMultiAdapter` without a name; `getMultiAdapter` raises where
      this is `None`. */
  function QueryUnnamed(reg: Registry, f: FormField): Option<Adapter>
  {
    if f.field.kind in reg.unnamed then Some(reg.unnamed[f.field.kind]) else None
  }

  /** The adapter for a field: the named one if registered, else the unnamed one. */
  function Dispatch(reg: Registry, f: FormField): Option<Adapter>
  {
    if QueryNamed(reg, f).Some? then QueryNamed(reg, f) else QueryUnnamed(reg, f)
  }

  lemma DispatchPriority(reg: Registry, f: FormField)
    ensures (f.field.kind, f.formName) in reg.named ==> Dispatch(reg, f) == Some(reg.named[(f.field.kind, f.formName)])
    ensures (f.field.kind, f.formName) !in reg.named && f.field.kind in reg.unnamed ==>
      Dispatch(reg, f) == Some(reg.unnamed[f.field.kind])
    ensures Dispatch(reg, f).None? <==> (f.field.kind, f.formName) !in reg.named && f.field.kind !in reg.unnamed
  {
  }

  /** The schema fragment of one field under `prefix`, or the lookup error. */
  function Render(reg: Registry, f: FormField, prefix: string): Result<Fragment>
  {
    match Dispatch(reg, f)
    case None => Err(ComponentLookupError(f.field.name))
    case Some(a) => Ok(reg.getSchema(a, f.field, prefix))
  }

  /** One iteration of the ordinary branch: excluded fields are skipped,
      the others are rendered and stored under their key. */
  function Step(reg: Registry, prefix: string, excluded: set<string>, acc: PropertyMap, f: FormField): Result<PropertyMap>
  {
    if f.field.name in excluded then Ok(acc)
    else
      match Render(reg, f, prefix)
      case Err(e) => Err(e)
      case Ok(frag) => Ok(Put(acc, Key(prefix, f.field.name), frag))
  }

  /** The ordinary loop over `fields`, from an empty map; the first error stops it. */
  function Accumulate(reg: Registry, prefix: string, excluded: set<string>, fields: seq<FormField>): Result<PropertyMap>
  {
    if fields == [] then Ok(Empty())
    else
      match Accumulate(reg, prefix, excluded, fields[..|fields| - 1])
      case Err(e) => Err(e)
      case Ok(acc) => Step(reg, prefix, excluded, acc, fields[|fields| - 1])
  }

  /** The keys of the non-excluded fields, in traversal order, repeats included. */
  function KeyList(prefix: string, excluded: set<string>, fields: seq<FormField>): seq<string>
  {
    if fields == [] then []
    else
      var last := fields[|fields| - 1];
      KeyList(prefix, excluded, fields[..|fields| - 1])
      + (if last.field.name in excluded then [] else [Key(prefix, last.field.name)])
  }

  /** The index of the first field called `name`. */
  function FirstNamed(fields: seq<FormField>, name: string): (r: Option<nat>)
    ensures r.Some? ==>
      && r.value < |fields| && fields[r.value].field.name == name
      && (forall j :: 0 <= j < r.value ==> fields[j].field.name != name)
    ensures r.None? ==> forall j :: 0 <= j < |fields| ==> fields[j].field.name != name
  {
    if fields == [] then None
    else if fields[0].field.name == name then Some(0)
    else
      match FirstNamed(fields[1..], name)
      case None => None
      case Some(i) => Some(i + 1)
  }

  /** What `get_jsonschema_properties` returns. With `fname` naming a field,
      the fields before the first such field are processed as usual and then
      the result is that field's entry alone; otherwise every field is. */
  function PropertiesOf(reg: Registry, fieldsets: seq<Fieldset>, prefix: string, excluded: set<string>,
                        fname: Option<string>): Result<PropertyMap>
  {
    var fields := IterFields(fieldsets);
    var hit := if fname.Some? then FirstNamed(fields, fname.value) else None;
    match hit
    case None => Accumulate(reg, prefix, excluded, fields)
    case Some(i) =>
      match Accumulate(reg, prefix, excluded, fields[..i])
      case Err(e) => Err(e)
      case Ok(_) =>
        match Render(reg, fields[i], prefix)
        case Err(e) => Err(e)
        case Ok(frag) => Ok(Single(Key(prefix, fields[i].field.name), frag))
  }

  /** The adapter lookup both branches of `get_jsonschema_properties` make:
      the named adapter, or else the unnamed one; `None` is the error
      `getMultiAdapter` raises. */
  method LookupAdapter(reg: Registry, field: FormField) returns (adapter: Option<Adapter>)
    ensures adapter == Dispatch(reg, field)
    ensures adapter.None? <==> (field.field.kind, field.formName) !in reg.named && field.field.kind !in reg.unnamed
  {
    adapter := QueryNamed(reg, field);
    if adapter.None? {
      adapter := QueryUnnamed(reg, field);
    }
  }

  /** `get_jsonschema_properties`. */
  method GetJsonSchemaProperties(reg: Registry, fieldsets: seq<Fieldset>, prefix: string,
                                 excluded: set<string>, fname: Option<string>)
    returns (r: Result<PropertyMap>)
    ensures r == PropertiesOf(reg, fieldsets, prefix, excluded, fname)
  {
    var properties: PropertyMap := Empty();
    var fields := IterFields(fieldsets);
    var i := 0;
    while i < |fields|
      invariant 0 <= i <= |fields|
      invariant forall j :: 0 <= j < i ==> Some(fields[j].field.name) != fname
      invariant Accumulate(reg, prefix, excluded, fields[..i]) == Ok(properties)
    {
      var field := fields[i];
      var fieldname := field.field.name;
      if Some(fieldname) == fname {
        MatchResult(reg, fieldsets, prefix, excluded, i);
        properties := Empty();
        var adapter := LookupAdapter(reg, field);
        if adapter.None? {
          return Err(ComponentLookupError(fieldname));
        }
        var key := Key(prefix, fieldname);
        var frag := reg.getSchema(adapter.value, field.field, prefix);
        properties := Put(properties, key, frag);
        assert properties == Single(key, frag) by {
          assert properties.keys == [] + [key] == [key];
        }
        return Ok(properties);
      }
      AccumulateNext(reg, prefix, excluded, fields, i);
      if fieldname !in excluded {
        var adapter := LookupAdapter(reg, field);
        if adapter.None? {
          ErrorStops(reg, fieldsets, prefix, excluded, fname, i + 1);
          return Err(ComponentLookupError(fieldname));
        }
        var key := Key(prefix, fieldname);
        properties := Put(properties, key, reg.getSchema(adapter.value, field.field, prefix));
      }
      i := i + 1;
    }
    assert fields[..i] == fields;
    PropertiesNoMatch(reg, fieldsets, prefix, excluded, fname);
    return Ok(properties);
  }

  /** One more iteration of the ordinary loop. */
  lemma AccumulateNext(reg: Registry, prefix: string, excluded: set<string>, fields: seq<FormField>, i: nat)
    requires i < |fields|
    ensures Accumulate(reg, prefix, excluded, fields[..i]).Ok? ==>
      Accumulate(reg, prefix, excluded, fields[..i + 1])
      == Step(reg, prefix, excluded, Accumulate(reg, prefix, excluded, fields[..i]).value, fields[i])
  {
    assert fields[..i + 1][..i] == fields[..i];
  }

  /** The result when the field at traversal index `i` is the first one
      called `fname`. */
  lemma MatchResult(reg: Registry, fieldsets: seq<Fieldset>, prefix: string, excluded: set<string>, i: nat)
    requires i < |IterFields(fieldsets)|
    requires forall j :: 0 <= j < i ==> IterFields(fieldsets)[j].field.name != IterFields(fieldsets)[i].field.name
    requires Accumulate(reg, prefix, excluded, IterFields(fieldsets)[..i]).Ok?
    ensures var f := IterFields(fieldsets)[i];
      PropertiesOf(reg, fieldsets, prefix, excluded, Some(f.field.name))
      == match Dispatch(reg, f)
         case None => Err(ComponentLookupError(f.field.name))
         case Some(a) => Ok(Single(Key(prefix, f.field.name), reg.getSchema(a, f.field, prefix)))
  {
    var fields := IterFields(fieldsets);
    assert FirstNamed(fields, fields[i].field.name) == Some(i);
  }

  /** Once the loop has failed on a prefix, it fails the same way on the whole. */
  lemma {:induction false} AccumulateErrSticks(reg: Registry, prefix: string, excluded: set<string>,
                                               fields: seq<FormField>, n: nat)
    requires n <= |fields| && Accumulate(reg, prefix, excluded, fields[..n]).Err?
    ensures Accumulate(reg, prefix, excluded, fields) == Accumulate(reg, prefix, excluded, fields[..n])
    decreases |fields|
  {
    if n < |fields| {
      var init := fields[..|fields| - 1];
      assert init[..n] == fields[..n];
      AccumulateErrSticks(reg, prefix, excluded, init, n);
    } else {
      assert fields[..n] == fields;
    }
  }

  /** An error among the fields before any `fname` match is the result. */
  lemma ErrorStops(reg: Registry, fieldsets: seq<Fieldset>, prefix: string, excluded: set<string>,
                   fname: Option<string>, n: nat)
    requires n <= |IterFields(fieldsets)|
    requires forall j :: 0 <= j < n ==> Some(IterFields(fieldsets)[j].field.name) != fname
    requires Accumulate(reg, prefix, excluded, IterFields(fieldsets)[..n]).Err?
    ensures PropertiesOf(reg, fieldsets, prefix, excluded, fname) == Accumulate(reg, prefix, excluded, IterFields(fieldsets)[..n])
  {
    var fields := IterFields(fieldsets);
    AccumulateErrSticks(reg, prefix, excluded, fields, n);
    if fname.Some? && FirstNamed(fields, fname.value).Some? {
      var h := FirstNamed(fields, fname.value).value;
      assert fields[..h][..n] == fields[..n];
      AccumulateErrSticks(reg, prefix, excluded, fields[..h], n);
    }
  }

  // ---------------------------------------------------------------------------
  // The ordinary branch: keys, exclusion, values, errors.

  lemma {:induction false} KeyListMembers(prefix: string, excluded: set<string>, fields: seq<FormField>, k: string)
    ensures k in KeyList(prefix, excluded, fields) <==>
      exists j :: 0 <= j < |fields| && fields[j].field.name !in excluded && Key(prefix, fields[j].field.name) == k
    decreases |fields|
  {
    if fields != [] {
      var init := fields[..|fields| - 1];
      KeyListMembers(prefix, excluded, init, k);
      assert forall j :: 0 <= j < |init| ==> init[j] == fields[j];
    }
  }

  /** The keys are the keys of the non-excluded fields, each once, in order
      of first occurrence: a repeated name keeps its first position. */
  lemma {:induction false} AccumulateKeys(reg: Registry, prefix: string, excluded: set<string>, fields: seq<FormField>)
    ensures Accumulate(reg, prefix, excluded, fields).Ok? ==>
      var m := Accumulate(reg, prefix, excluded, fields).value;
      Valid(m) && m.keys == Dedup(KeyList(prefix, excluded, fields))
    decreases |fields|
  {
    if fields != [] {
      var init, last := fields[..|fields| - 1], fields[|fields| - 1];
      AccumulateKeys(reg, prefix, excluded, init);
      var prev := Accumulate(reg, prefix, excluded, init);
      if prev.Ok? && last.field.name !in excluded && Render(reg, last, prefix).Ok? {
        var m, k := prev.value, Key(prefix, last.field.name);
        var kl := KeyList(prefix, excluded, init);
        assert KeyList(prefix, excluded, fields) == kl + [k];
        assert (kl + [k])[..|kl + [k]| - 1] == kl;
        PutValid(m, k, Render(reg, last, prefix).value);
        assert k in m.values <==> k in kl;
      } else if prev.Ok? && last.field.name in excluded {
        assert KeyList(prefix, excluded, fields) == KeyList(prefix, excluded, init);
      }
    }
  }

  /** No excluded name has a key; every non-excluded field has one; every key
      belongs to some non-excluded field. */
  lemma AccumulateMembers(reg: Registry, prefix: string, excluded: set<string>, fields: seq<FormField>)
    requires Accumulate(reg, prefix, excluded, fields).Ok?
    ensures var m := Accumulate(reg, prefix, excluded, fields).value;
      && (forall n :: n in excluded ==> Key(prefix, n) !in m.values)
      && (forall j :: 0 <= j < |fields| && fields[j].field.name !in excluded ==>
            Key(prefix, fields[j].field.name) in m.values)
      && (forall k :: k in m.values ==>
            exists j :: 0 <= j < |fields| && fields[j].field.name !in excluded && Key(prefix, fields[j].field.name) == k)
  {
    var m := Accumulate(reg, prefix, excluded, fields).value;
    AccumulateKeys(reg, prefix, excluded, fields);
    forall k
      ensures k in m.values <==>
        exists j :: 0 <= j < |fields| && fields[j].field.name !in excluded && Key(prefix, fields[j].field.name) == k
    {
      KeyListMembers(prefix, excluded, fields, k);
    }
    forall n | n in excluded
      ensures Key(prefix, n) !in m.values
    {
      forall j | 0 <= j < |fields| && fields[j].field.name !in excluded
        ensures Key(prefix, fields[j].field.name) != Key(prefix, n)
      {
        KeyInjective(prefix, fields[j].field.name, n);
      }
    }
  }

  /** The value under a key is the fragment of the last non-excluded field
      with that name: a later field with the same name overwrites. */
  lemma {:induction false} AccumulateLastWins(reg: Registry, prefix: string, excluded: set<string>,
                                              fields: seq<FormField>, j: nat)
    requires j < |fields| && fields[j].field.name !in excluded
    requires forall l :: j < l < |fields| ==>
      fields[l].field.name != fields[j].field.name || fields[l].field.name in excluded
    ensures Accumulate(reg, prefix, excluded, fields).Ok? ==>
      Render(reg, fields[j], prefix).Ok?
      && Key(prefix, fields[j].field.name) in Accumulate(reg, prefix, excluded, fields).value.values
      && Accumulate(reg, prefix, excluded, fields).value.values[Key(prefix, fields[j].field.name)]
         == Render(reg, fields[j], prefix).value
    decreases |fields|
  {
    var init, last := fields[..|fields| - 1], fields[|fields| - 1];
    if j < |fields| - 1 {
      AccumulateLastWins(reg, prefix, excluded, init, j);
      KeyInjective(prefix, last.field.name, fields[j].field.name);
    }
  }

  /** The loop fails exactly when some non-excluded field has no adapter. */
  lemma {:induction false} AccumulateError(reg: Registry, prefix: string, excluded: set<string>, fields: seq<FormField>)
    ensures Accumulate(reg, prefix, excluded, fields).Err? <==>
      exists j :: 0 <= j < |fields| && fields[j].field.name !in excluded && Dispatch(reg, fields[j]).None?
    decreases |fields|
  {
    if fields != [] {
      var init := fields[..|fields| - 1];
      AccumulateError(reg, prefix, excluded, init);
      assert forall j :: 0 <= j < |init| ==> init[j] == fields[j];
    }
  }

  // ---------------------------------------------------------------------------
  // `fname`.

  /** Without a matching `fname` the result is the ordinary map, not an empty one. */
  lemma PropertiesNoMatch(reg: Registry, fieldsets: seq<Fieldset>, prefix: string, excluded: set<string>,
                          fname: Option<string>)
    requires fname.Some? ==> forall j :: 0 <= j < |IterFields(fieldsets)| ==> IterFields(fieldsets)[j].field.name != fname.value
    ensures PropertiesOf(reg, fieldsets, prefix, excluded, fname) == Accumulate(reg, prefix, excluded, IterFields(fieldsets))
  {
  }

  /** With `fname` naming the field at traversal index `i` and no field
      before it, the result holds exactly that field's key, whether or not
      the name is excluded; it fails exactly when a non-excluded field before
      it, or the field itself, has no adapter. */
  lemma ShortCircuit(reg: Registry, fieldsets: seq<Fieldset>, prefix: string, excluded: set<string>, i: nat)
    requires i < |IterFields(fieldsets)|
    requires forall j :: 0 <= j < i ==> IterFields(fieldsets)[j].field.name != IterFields(fieldsets)[i].field.name
    ensures var fields := IterFields(fieldsets);
      var name := fields[i].field.name;
      var r := PropertiesOf(reg, fieldsets, prefix, excluded, Some(name));
      && (r.Err? <==>
            (exists j :: 0 <= j < i && fields[j].field.name !in excluded && Dispatch(reg, fields[j]).None?)
            || Dispatch(reg, fields[i]).None?)
      && (r.Ok? ==>
            r.value.keys == [Key(prefix, name)]
            && r.value.values == map[Key(prefix, name) := reg.getSchema(Dispatch(reg, fields[i]).value, fields[i].field, prefix)])
  {
    var fields := IterFields(fieldsets);
    var name := fields[i].field.name;
    assert FirstNamed(fields, name) == Some(i);
    AccumulateError(reg, prefix, excluded, fields[..i]);
    assert forall j :: 0 <= j < i ==> fields[..i][j] == fields[j];
  }

  /** The ordinary result: keys are the non-excluded keys deduplicated; no
      excluded name is a key. */
  lemma PropertiesExcluded(reg: Registry, fieldsets: seq<Fieldset>, prefix: string, excluded: set<string>, n: string)
    requires n in excluded
    ensures var r := PropertiesOf(reg, fieldsets, prefix, excluded, None);
      r.Ok? ==> Key(prefix, n) !in r.value.values && r.value.keys == Dedup(KeyList(prefix, excluded, IterFields(fieldsets)))
  {
    var fields := IterFields(fieldsets);
    if Accumulate(reg, prefix, excluded, fields).Ok? {
      AccumulateMembers(reg, prefix, excluded, fields);
      AccumulateKeys(reg, prefix, excluded, fields);
    }
  }
}
