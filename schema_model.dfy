/** The values the JSON-schema builder of plone.restapi works on: form fields
    as the form engine hands them over, fieldsets, type definitions, the
    adapter registry, and the JSON fragments the adapters produce. */
module SchemaModel {

  datatype Option<+T> = None | Some(value: T)

  /** Why a computation stops: a missing adapter (zope's
      ComponentLookupError) or a dictionary lookup of an absent key. */
  datatype Error =
    | ComponentLookupError(fieldName: string)
    | KeyError(key: string)

  datatype Result<+T> = Ok(value: T) | Err(error: Error)

  /** A JSON value; `JNull` also stands for Python's `None`. */
  datatype Json =
    | JNull
    | JBool(b: bool)
    | JInt(i: int)
    | JStr(s: string)
    | JList(items: seq<Json>)
    | JObject(members: map<string, Json>)

  /** One JSON-schema property: what an adapter's `get_schema()` returns. */
  type Fragment = map<string, Json>

  /** A translatable label: message id and the text used without a translation. */
  datatype Message = Message(msgid: string, default: string)

  /** The translation service, left abstract. */
  type Translator = Message -> string

  /** A zope.schema field. `kind` is the field's type, the key adapters are
      registered for; `iface` is the interface the field belongs to, if any.
      Attributes a field type may lack (`max_length`, ...) are `JNull`. */
  datatype SchemaField = SchemaField(
    name: string,
    kind: string,
    required: bool,
    readonly: bool,
    default: Json,
    defaultFactory: Json,
    iface: Option<string>,
    maxLength: Json,
    minLength: Json,
    missingValue: Json,
    order: int)

  /** A z3c.form field: its form name (`__name__`, the name a named adapter
      is registered under), the schema field it wraps and its widget mode. */
  datatype FormField = FormField(formName: string, field: SchemaField, mode: Option<string>)

  /** Python truthiness of `field.mode`: neither `None` nor empty. */
  predicate HasMode(f: FormField)
  {
    f.mode.Some? && f.mode.value != ""
  }

  /** A fieldset dict: `{"id", "title", "fields"}` holding form fields. */
  datatype Fieldset = Fieldset(id: string, title: string, fields: seq<FormField>)

  /** A fieldset info dict: the same, holding field names. */
  datatype FieldsetInfo = FieldsetInfo(id: string, title: string, fields: seq<string>)

  /** A z3c.form group: its `__name__`, its `label` (here `caption`) and its fields. */
  datatype Group = Group(name: string, caption: Message, fields: seq<FormField>)

  /** What the form engine leaves on a processed form: the default-group
      fields and the additional groups, in the engine's order. */
  datatype Form = Form(fields: seq<FormField>, groups: seq<Group>)

  /** A factory type information (FTI). `form` is the processed form for the
      type's schema and its additional schemata, or `None` when looking up
      the schema fails (a type without a structured schema). */
  datatype TypeInfo = TypeInfo(id: string, title: Message, viewMethods: seq<string>, form: Option<Form>)

  /** A JSON-schema provider adapter, by identity. */
  datatype Adapter = Adapter(id: string)

  /** The adapter registry: named adapters keyed by (field kind, adapter
      name), unnamed adapters keyed by field kind, and what `get_schema()`
      returns for an adapter, the field it adapts and the prefix set on it. */
  datatype Registry = Registry(
    named: map<(string, string), Adapter>,
    unnamed: map<string, Adapter>,
    getSchema: (Adapter, SchemaField, string) -> Fragment)
}
