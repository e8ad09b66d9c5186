# plone.restapi type schemas, modelled in Dafny

This project models `plone.restapi.types.utils`. That module turns a content type's form into a
JSON schema document:

- It flattens fieldsets into one field sequence (`iter_fields`).
- It builds fieldsets from a form that plone.autoform has already processed (`get_form_fieldsets`):
  a "default" fieldset for the form's own fields, then one fieldset per group.
- It projects each fieldset onto its field names (`get_fieldset_infos`).
- It renders every field through a schema-provider adapter, looking up the adapter named after the
  form field first and the unnamed one second, into an ordered `properties` map
  (`get_jsonschema_properties`). That map supports a key prefix, an exclusion list and an
  `fname` short-circuit that renders one field only.
- It collects widget parameters from the schemata's tagged values (`get_widget_params`) and
  evaluates the callable ones.
- It assembles the whole document (`get_jsonschema_for_fti`, `get_jsonschema_for_portal_type`):
  `type` "object", the translated title, `properties`, the `required` names, the field modes,
  the fieldset summaries and the layouts.
- It answers a lookup of one name (`get_info_for_field`) with a fieldset summary, a decorated
  single property, or a "not found" message.
- It builds vocabulary-like URLs (`get_vocab_like_url` and its three wrappers).

Most of the Python loops are Dafny methods with `while` loops, each proved equal to a
specification function:

- The loops in `get_jsonschema_properties`, `get_widget_params` and `get_jsonschema_for_fti`
  are specified by recursive functions whose recursion follows the loop left to right.
- The loops in `get_form_fieldsets` and `get_fieldset_infos` are specified by sequence
  comprehensions.

The properties the code promises are proved about those functions as lemmas. The generator
`iter_fields` has no state of its own, so it is the recursive function `Fieldsets.IterFields`
and not a method. The source has no objects whose methods update fields, so there are no
classes. `get_info_for_field`'s two nested loops are split into the methods
`FieldInfo.LookupInFieldsets` (over fieldsets) and `FieldInfo.ScanFieldset` (over one
fieldset's fields); together they keep the source's early returns.

The world the functions see is passed in as parameters:

- A `Registry` holds the named adapters, keyed by field kind and form-field name; the unnamed
  adapters, keyed by field kind; and the opaque `get_schema` of an adapter.
- A `Translator` turns a message into a string.
- A `TypeInfo` stands for one entry of the `portal_types` tool and carries the form that
  plone.autoform produced. When `lookupSchema` raises `AttributeError`, that form is `None`.
- A map from type names stands for the `portal_types` tool itself.
- The context URL is an `Option`, and the site URL is a string.

Python exceptions are values of a `Result` type:

- `ComponentLookupError` comes from `getMultiAdapter` when no adapter is registered.
- `KeyError` comes from dictionary indexing.

Python's `OrderedDict` is `OrderedMaps.OrderedMap`: a key sequence without repeats plus a map.
Assigning to an existing key keeps that key's position, and a new key goes last.

Three behaviours of the code worth noting:

- When `fname` names no field, `get_jsonschema_properties` returns the ordinary map, not an
  empty one (`Properties.PropertiesNoMatch`).
- The `required` list repeats a name once for each required field of that name, and it lists
  excluded fields too (`Assembly.RequiredNamesMembers`, `Assembly.DocumentShape`).
- A field that has a widget mode but whose name is excluded makes `get_jsonschema_for_fti`
  raise `KeyError`, because the mode loop looks up an entry that was never created
  (`Assembly.ExcludedModeFails`).

## Model

| member | source | states |
|---|---|---|
| `OrderedMaps.Put` | src/plone/restapi/types/utils.py:170 | assigning a key in an ordered dict: the key maps to the new value; every other key keeps its membership and value; an existing key keeps the key order; a new key is appended |
| `OrderedMaps.PutValid` | src/plone/restapi/types/utils.py:170 | assignment keeps the ordered dict well formed (keys without repeats, key set equal to the map's domain) |
| `OrderedMaps.Dedup` | src/plone/restapi/types/utils.py:167-170 | the keys an ordered dict keeps after repeated assignments: no repeats, and the same members as the input |
| `OrderedMaps.DedupOrder` | src/plone/restapi/types/utils.py:167-170 | those keys keep their first-occurrence order: a key listed before another first occurs in the input before every occurrence of the other |
| `Fieldsets.IterFieldsMembers` | src/plone/restapi/types/utils.py:56-62 | a form field is yielded exactly when some fieldset holds it |
| `Fieldsets.IterFieldsAppend` | src/plone/restapi/types/utils.py:56-62 | flattening a concatenation of fieldset lists is the concatenation of the flattenings |
| `Fieldsets.IterFieldsAt` | src/plone/restapi/types/utils.py:60-62 | field j of fieldset i sits right after all fields of fieldsets 0..i-1 and fields 0..j-1 of fieldset i |
| `Fieldsets.IterFieldsSingle` | src/plone/restapi/types/utils.py:60-62 | a single fieldset yields exactly its own fields |
| `Fieldsets.FormFieldsetsOrder` | src/plone/restapi/types/utils.py:65-93 | a "default" fieldset with the translated default label and the form's fields comes first exactly when the form has fields; then one fieldset per group, in group order, with the group's name, translated label and fields |
| `Fieldsets.GetFormFieldsets` | src/plone/restapi/types/utils.py:65-93 | the built list equals the fieldsets described above |
| `Fieldsets.GetFieldsetInfos` | src/plone/restapi/types/utils.py:104-114 | one summary per fieldset, in order, keeping id and title and listing the field names in order |
| `Properties.KeyInjective` | src/plone/restapi/types/utils.py:146-147 | under one prefix, distinct field names give distinct keys |
| `Properties.DispatchPriority` | src/plone/restapi/types/utils.py:154-164 | the adapter named after the form field wins; otherwise the unnamed adapter for the field's kind; there is none exactly when neither is registered |
| `Properties.FirstNamed` | src/plone/restapi/types/utils.py:127-130 | the index of the first field called `name`, or none when no field is |
| `Properties.LookupAdapter` | src/plone/restapi/types/utils.py:156-164 | returns the dispatched adapter, and none exactly when neither registry has one |
| `Properties.GetJsonSchemaProperties` | src/plone/restapi/types/utils.py:117-172 | the loop's result (map, or the lookup error that stops it) equals the specification of the ordinary and `fname` branches |
| `Properties.AccumulateNext` | src/plone/restapi/types/utils.py:152-170 | proof helper for the loop: one more iteration skips an excluded field, fails on a field without adapter, or puts the field's fragment under its key |
| `Properties.MatchResult` | src/plone/restapi/types/utils.py:130-150 | at the first field named `fname`, once the fields before it succeeded, the result is that field's fragment alone, or the lookup error |
| `Properties.AccumulateErrSticks` | src/plone/restapi/types/utils.py:162-164 | once the loop has raised on a prefix of the fields, the whole loop raises the same error |
| `Properties.ErrorStops` | src/plone/restapi/types/utils.py:127-170 | an error before any `fname` match is the function's result |
| `Properties.KeyListMembers` | src/plone/restapi/types/utils.py:152-170 | a key is produced exactly when some non-excluded field has that name under the prefix |
| `Properties.AccumulateKeys` | src/plone/restapi/types/utils.py:152-170 | on success the map is well formed and its keys are the non-excluded fields' keys in traversal order, each at its first occurrence |
| `Properties.AccumulateMembers` | src/plone/restapi/types/utils.py:152-170 | on success every non-excluded field has its key, no excluded name has one, and every key comes from a non-excluded field |
| `Properties.AccumulateLastWins` | src/plone/restapi/types/utils.py:167-170 | the value under a key is the fragment of the last non-excluded field with that name |
| `Properties.AccumulateError` | src/plone/restapi/types/utils.py:156-164 | the ordinary loop fails exactly when some non-excluded field has no adapter |
| `Properties.PropertiesNoMatch` | src/plone/restapi/types/utils.py:127-172 | when `fname` names no field, the result is the ordinary map |
| `Properties.ShortCircuit` | src/plone/restapi/types/utils.py:130-150 | with `fname` naming field i first, the result has exactly one key, that field's prefixed name, holding its fragment, whether or not the name is excluded; it fails exactly when a non-excluded earlier field or the field itself has no adapter |
| `Properties.PropertiesExcluded` | src/plone/restapi/types/utils.py:152-170 | without `fname`, an excluded name never becomes a key, and the keys are the deduplicated non-excluded keys |
| `WidgetParams.ResolveParams` | src/plone/restapi/types/utils.py:185-188 | the same parameter names; a callable parameter is replaced by its result, a literal is kept |
| `WidgetParams.GetWidgetParams` | src/plone/restapi/types/utils.py:175-189 | the loops over schemata (skipping absent ones) and their names compute the specified parameter map |
| `WidgetParams.SchemaParamsDomain` | src/plone/restapi/types/utils.py:181-188 | one schema adds exactly the names whose widget is parameterised with parameters |
| `WidgetParams.SchemaParamsValue` | src/plone/restapi/types/utils.py:181-188 | such a name gets its evaluated parameters; any other name keeps what it had |
| `WidgetParams.WidgetParamsDomain` | src/plone/restapi/types/utils.py:175-189 | a field has parameters exactly when some present schema declares a parameterised widget with parameters for it |
| `WidgetParams.WidgetParamsLastWins` | src/plone/restapi/types/utils.py:177-188 | a field's parameters are the evaluated parameters of the last schema that declares them |
| `Assembly.JsonSchemaForFti` | src/plone/restapi/types/utils.py:192-234 | the properties call, the `required` loop, the mode loop and the summaries compute the specified document or error |
| `Assembly.JsonSchemaForPortalType` | src/plone/restapi/types/utils.py:237-245 | an unknown type name raises `KeyError(name)`; a known one gives its type's document |
| `Assembly.RequiredNamesAppend` | src/plone/restapi/types/utils.py:216-220 | the `required` list of concatenated field lists is the concatenation of their lists |
| `Assembly.RequiredNamesMembers` | src/plone/restapi/types/utils.py:216-220 | a name is listed exactly when some field of that name is required |
| `Assembly.ModesErrSticks` | src/plone/restapi/types/utils.py:222-225 | a `KeyError` on a prefix of the fields is the mode loop's result |
| `Assembly.ModesKeepKeys` | src/plone/restapi/types/utils.py:222-225 | the mode loop neither adds nor removes keys, nor changes their order |
| `Assembly.ModesError` | src/plone/restapi/types/utils.py:222-225 | the mode loop fails exactly when a field with a mode has no entry |
| `Assembly.ModesAttached` | src/plone/restapi/types/utils.py:222-225 | a field with a mode ends up with the `mode` of the last field of its name that has one |
| `Assembly.ModesOnlyMode` | src/plone/restapi/types/utils.py:222-225 | apart from `mode`, every entry keeps exactly what it had, and an entry that no field with a mode names is unchanged |
| `Assembly.SchemaLessFallback` | src/plone/restapi/types/utils.py:198-234 | a type without a schema still gives an "object" document with its title and layouts, and no properties, required names or fieldsets |
| `Assembly.DocumentShape` | src/plone/restapi/types/utils.py:211-234 | the document's type, title and layouts; the property keys are the non-excluded names, once each, in traversal order; no excluded name is a key; `required` and `fieldsets` are as specified |
| `Assembly.ExcludedModeFails` | src/plone/restapi/types/utils.py:211-225 | an excluded field with a mode makes the build raise |
| `FieldInfo.FirstHit` | src/plone/restapi/types/utils.py:310-318 | the first fieldset whose id is the name or that holds a field of that name, or none when no fieldset does |
| `FieldInfo.GetInfoForField` | src/plone/restapi/types/utils.py:292-341 | an unknown type raises `KeyError`; otherwise the answer for the type's fieldsets (none when it has no schema) |
| `FieldInfo.LookupInFieldsets` | src/plone/restapi/types/utils.py:309-341 | the outer loop's early returns compute the specified answer |
| `FieldInfo.ScanFieldset` | src/plone/restapi/types/utils.py:316-340 | it stops exactly when the fieldset holds the name, with the answer for the first such field |
| `FieldInfo.FieldsetFirst` | src/plone/restapi/types/utils.py:310-314 | a fieldset with the name as id answers with its summary before its fields or later fieldsets are looked at |
| `FieldInfo.FieldFound` | src/plone/restapi/types/utils.py:316-340 | the first field of that name answers with one property under its name, holding its fragment with default, defaultFactory, interface, max_length, min_length, missing_value, order, readonly and required added; it fails exactly when it or an earlier field of its fieldset has no adapter |
| `FieldInfo.FieldAnswerShape` | src/plone/restapi/types/utils.py:318-340 | the same, for one fieldset and one field |
| `FieldInfo.SingleFieldset` | src/plone/restapi/types/utils.py:320-321 | the properties of one fieldset restricted to one of its names hold that name only, or the adapter error |
| `FieldInfo.NotFoundExactly` | src/plone/restapi/types/utils.py:309-341 | the "not found" message comes exactly when no fieldset id and no field name equals the name |
| `FieldInfo.SchemaLessNotFound` | src/plone/restapi/types/utils.py:298-303 | a type without a schema answers every name with "not found" |
| `Urls.UrlConcat` | src/plone/restapi/types/utils.py:248-254 | the URL is the base (the context URL, or the site URL without one), "/", the endpoint, "/", the locator |
| `Urls.SplitJoin` | src/plone/restapi/types/utils.py:254 | with `Split` as the reference inverse of the join, joining "/"-free parts with "/" and splitting again gives the parts back |
| `Urls.JoinSplit` | src/plone/restapi/types/utils.py:254 | the other direction of that round trip: splitting at "/" and joining again gives the string back |
| `Urls.UrlSegments` | src/plone/restapi/types/utils.py:248-254 | the URL's segments are the base's (the context URL, or the site URL without one), then the endpoint's, then the locator's |
| `Urls.UrlTail` | src/plone/restapi/types/utils.py:248-254 | with a "/"-free endpoint and locator, the last two segments are those two and the rest joins back to the base |
| `Urls.VocabularyUrl` | src/plone/restapi/types/utils.py:257-258 | a "/"-free vocabulary name is the last segment, after "@vocabularies", and the segments before those join back to the context URL, or the site URL without one |
| `Urls.QuerysourceUrl` | src/plone/restapi/types/utils.py:261-263 | a "/"-free field name is the last segment, after "@querysources", and the segments before those join back to the context URL, or the site URL without one |
| `Urls.SourceUrl` | src/plone/restapi/types/utils.py:266-267 | a "/"-free field name is the last segment, after "@sources", and the segments before those join back to the context URL, or the site URL without one |

## Left out

- `create_form` and `get_fieldsets`, which run the z3c.form and plone.autoform form machinery: the processed form (fields, groups, modes, omissions) is an input.
- `getAdditionalSchemata` and `lookupSchema`: behaviours are taken as already merged into that form, and a failing `lookupSchema` is a `TypeInfo` without a form.
- The adapters' `get_schema` and the `adapter.prefix` assignment: an adapter's fragment is an opaque function of adapter, field and prefix.
- `IJsonCompatible`: fragments are already JSON values.
- `translate` and `getRequest`: a translator function is a parameter.
- `getToolByName`: the types tool is a map.
- `getSite` and `absolute_url`: the context URL and the site URL are parameters.
- `mergedTaggedValueDict`, `IParameterizedWidget.providedBy` and iteration over a schema: a schema is its name list plus its merged widget hints.
- `serializeSchema`: it writes a model back to an FTI through `syncSchema` and `serializeModel` and is outside this part of the module.
- Key order inside a field's fragment and in the widget-parameter dictionaries: these are plain maps.
- The falsy widget mode: `None` and the empty string are both "no mode".
- `WidgetParams.ResolveParams`: a callable is called once; side effects and exceptions of the call are not modelled.
- `FieldInfo.FieldFound`: `field.interface` holds the text of `str(...)`, with "None" when absent; the object itself is not modelled.
