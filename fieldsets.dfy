/** Fieldsets: flattening them into one field sequence (`iter_fields`),
    building them from a processed form (`get_form_fieldsets`) and projecting
    them onto field names (`get_fieldset_infos`). */
module Fieldsets {
  import opened SchemaModel

  /** `iter_fields`: the fields of every fieldset, fieldset after fieldset. */
  function IterFields(fieldsets: seq<Fieldset>): seq<FormField>
  {
    if fieldsets == [] then []
    else IterFields(fieldsets[..|fieldsets| - 1]) + fieldsets[|fieldsets| - 1].fields
  }

  /** A field is yielded exactly when some fieldset holds it. */
  lemma {:induction false} IterFieldsMembers(fieldsets: seq<Fieldset>, f: FormField)
    ensures f in IterFields(fieldsets) <==> exists i :: 0 <= i < |fieldsets| && f in fieldsets[i].fields
    decreases |fieldsets|
  {
    if fieldsets != [] {
      var init := fieldsets[..|fieldsets| - 1];
      IterFieldsMembers(init, f);
      assert forall i :: 0 <= i < |init| ==> init[i] == fieldsets[i];
    }
  }

  /** Flattening distributes over concatenation of fieldset lists. */
  lemma {:induction false} IterFieldsAppend(a: seq<Fieldset>, b: seq<Fieldset>)
    ensures IterFields(a + b) == IterFields(a) + IterFields(b)
    decreases |b|
  {
    if b == [] {
      assert a + b == a;
    } else {
      var b' := b[..|b| - 1];
      assert (a + b)[..|a + b| - 1] == a + b';
      IterFieldsAppend(a, b');
    }
  }

  /** Field `j` of fieldset `i` sits right after the fields of the fieldsets
      before `i` and the fields before `j`: fieldset order first, then the
      order within the fieldset. */
  lemma IterFieldsAt(fieldsets: seq<Fieldset>, i: nat, j: nat)
    requires i < |fieldsets| && j < |fieldsets[i].fields|
    ensures |IterFields(fieldsets[..i])| + j < |IterFields(fieldsets)|
    ensures IterFields(fieldsets)[|IterFields(fieldsets[..i])| + j] == fieldsets[i].fields[j]
  {
    assert fieldsets == fieldsets[..i] + [fieldsets[i]] + fieldsets[i + 1..];
    IterFieldsAppend(fieldsets[..i] + [fieldsets[i]], fieldsets[i + 1..]);
    IterFieldsAppend(fieldsets[..i], [fieldsets[i]]);
    IterFieldsSingle(fieldsets[i]);
  }

  /** A single fieldset yields its own fields. */
  lemma IterFieldsSingle(fs: Fieldset)
    ensures IterFields([fs]) == fs.fields
  {
    assert [fs][..0] == [];
  }

  const DefaultFieldsetId := "default"
  const DefaultFieldsetLabel := Message("label_schema_default", "Default")

  function GroupFieldset(g: Group, tr: Translator): Fieldset
  {
    Fieldset(g.name, tr(g.caption), g.fields)
  }

  /** The fieldsets of a processed form: a "default" one holding the form's
      own fields when it has any, then one per group in group order. */
  function FormFieldsets(form: Form, tr: Translator): seq<Fieldset>
  {
    (if |form.fields| > 0 then [Fieldset(DefaultFieldsetId, tr(DefaultFieldsetLabel), form.fields)] else [])
    + seq(|form.groups|, i requires 0 <= i < |form.groups| => GroupFieldset(form.groups[i], tr))
  }

  lemma FormFieldsetsOrder(form: Form, tr: Translator)
    ensures var r, d := FormFieldsets(form, tr), if |form.fields| > 0 then 1 else 0;
      && |r| == d + |form.groups|
      && (|form.fields| > 0 ==> r[0] == Fieldset(DefaultFieldsetId, tr(DefaultFieldsetLabel), form.fields))
      && (forall i :: 0 <= i < |form.groups| ==>
            r[d + i].id == form.groups[i].name && r[d + i].title == tr(form.groups[i].caption)
            && r[d + i].fields == form.groups[i].fields)
  {
  }

  /** `get_form_fieldsets`. */
  method GetFormFieldsets(form: Form, tr: Translator) returns (fieldsets: seq<Fieldset>)
    ensures fieldsets == FormFieldsets(form, tr)
  {
    fieldsets := [];
    var formFields := form.fields;
    if |formFields| > 0 {
      fieldsets := fieldsets + [Fieldset(DefaultFieldsetId, tr(DefaultFieldsetLabel), formFields)];
    }
    ghost var d := |fieldsets|;
    var i := 0;
    while i < |form.groups|
      invariant 0 <= i <= |form.groups|
      invariant |fieldsets| == d + i
      invariant fieldsets[..d] == FormFieldsets(form, tr)[..d]
      invariant forall k :: 0 <= k < i ==> fieldsets[d + k] == GroupFieldset(form.groups[k], tr)
    {
      var group := form.groups[i];
      var fieldset := Fieldset(group.name, tr(group.caption), group.fields);
      fieldsets := fieldsets + [fieldset];
      i := i + 1;
    }
  }

  /** The names of the given fields, in order. */
  function FieldNames(fields: seq<FormField>): seq<string>
  {
    seq(|fields|, i requires 0 <= i < |fields| => fields[i].field.name)
  }

  function FieldsetInfoOf(fs: Fieldset): FieldsetInfo
  {
    FieldsetInfo(fs.id, fs.title, FieldNames(fs.fields))
  }

  function FieldsetInfos(fieldsets: seq<Fieldset>): seq<FieldsetInfo>
  {
    seq(|fieldsets|, i requires 0 <= i < |fieldsets| => FieldsetInfoOf(fieldsets[i]))
  }

  /** `get_fieldset_infos`: same length and order; each entry keeps id and
      title and lists its fields' names in order. The input is a value, so
      it is left as it was. */
  method GetFieldsetInfos(fieldsets: seq<Fieldset>) returns (infos: seq<FieldsetInfo>)
    ensures |infos| == |fieldsets|
    ensures forall i :: 0 <= i < |infos| ==>
      infos[i].id == fieldsets[i].id && infos[i].title == fieldsets[i].title
      && |infos[i].fields| == |fieldsets[i].fields|
      && (forall j :: 0 <= j < |infos[i].fields| ==> infos[i].fields[j] == fieldsets[i].fields[j].field.name)
    ensures infos == FieldsetInfos(fieldsets)
  {
    infos := [];
    var i := 0;
    while i < |fieldsets|
      invariant 0 <= i <= |fieldsets|
      invariant |infos| == i
      invariant forall k :: 0 <= k < i ==> infos[k] == FieldsetInfoOf(fieldsets[k])
    {
      var fieldset := fieldsets[i];
      var info := FieldsetInfo(fieldset.id, fieldset.title,
        seq(|fieldset.fields|, j requires 0 <= j < |fieldset.fields| => fieldset.fields[j].field.name));
      assert info == FieldsetInfoOf(fieldset);
      infos := infos + [info];
      i := i + 1;
    }
  }
}
