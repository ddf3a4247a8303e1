/**
 * The form description the registration view fills: fields are appended in
 * order, and overrides registered by name are merged into a field when it is
 * added (a field added earlier is not changed by a later override).
 */
module FormDescriptions {
  import opened Wrappers

  /** A default value as the form description serialises it. */
  datatype Value = Text(s: string) | Flag(b: bool) | Null

  /** One field of the form: its name, wire type, default and whether it is required. */
  datatype Field = Field(name: string, fieldType: string, default: Value, required: bool)

  /** The field properties an override may replace; None leaves the property alone. */
  datatype Override = Override(fieldType: Option<string>, default: Option<string>, required: Option<bool>)

  const NoOverride := Override(None, None, None)

  /** Updating the override dictionary of a field: a property set later wins. */
  function Merge(earlier: Override, later: Override): (r: Override)
    ensures later.fieldType.Some? ==> r.fieldType == later.fieldType
    ensures later.fieldType.None? ==> r.fieldType == earlier.fieldType
    ensures later.default.Some? ==> r.default == later.default
    ensures later.default.None? ==> r.default == earlier.default
    ensures later.required.Some? ==> r.required == later.required
    ensures later.required.None? ==> r.required == earlier.required
    ensures later == NoOverride ==> r == earlier
    ensures earlier == NoOverride ==> r == later
  {
    Override(
      if later.fieldType.Some? then later.fieldType else earlier.fieldType,
      if later.default.Some? then later.default else earlier.default,
      if later.required.Some? then later.required else earlier.required)
  }

  /** The field as added, once the overrides registered for it are applied. */
  function Apply(f: Field, o: Override): (r: Field)
    ensures r.name == f.name
    ensures r.fieldType == o.fieldType.GetOr(f.fieldType)
    ensures r.required == o.required.GetOr(f.required)
    ensures r.default == if o.default.Some? then Text(o.default.value) else f.default
  {
    Field(f.name, o.fieldType.GetOr(f.fieldType),
          if o.default.Some? then Text(o.default.value) else f.default,
          o.required.GetOr(f.required))
  }

  function OverrideOf(overrides: map<string, Override>, name: string): Override
  {
    if name in overrides then overrides[name] else NoOverride
  }

  /** Every override of `later` merged over the one of `earlier` with the same name. */
  function MergeAll(earlier: map<string, Override>, later: map<string, Override>): (r: map<string, Override>)
    ensures r.Keys == earlier.Keys + later.Keys
    ensures forall name :: OverrideOf(r, name) == Merge(OverrideOf(earlier, name), OverrideOf(later, name))
  {
    map name | name in earlier.Keys + later.Keys :: Merge(OverrideOf(earlier, name), OverrideOf(later, name))
  }

  function Names(fields: seq<Field>): (r: seq<string>)
    ensures |r| == |fields|
    ensures forall i :: 0 <= i < |fields| ==> r[i] == fields[i].name
  {
    seq(|fields|, i requires 0 <= i < |fields| => fields[i].name)
  }

  lemma NamesAppend(a: seq<Field>, b: seq<Field>)
    ensures Names(a + b) == Names(a) + Names(b)
  {
  }

  lemma MergeAllEmpty(later: map<string, Override>)
    ensures MergeAll(map[], later) == later
  {
    var r := MergeAll(map[], later);
    forall name | name in later ensures r[name] == later[name] {
      assert OverrideOf(r, name) == Merge(NoOverride, OverrideOf(later, name));
    }
  }

  lemma MergeAllUpdate(earlier: map<string, Override>, later: map<string, Override>, name: string, o: Override)
    ensures MergeAll(earlier, later[name := o]) == MergeAll(earlier, later)[name := Merge(OverrideOf(earlier, name), o)]
  {
    var lhs := MergeAll(earlier, later[name := o]);
    var rhs := MergeAll(earlier, later)[name := Merge(OverrideOf(earlier, name), o)];
    assert lhs.Keys == rhs.Keys;
    forall k | k in lhs ensures lhs[k] == rhs[k] {
      assert OverrideOf(lhs, k) == Merge(OverrideOf(earlier, k), OverrideOf(later[name := o], k));
      if k != name {
        assert OverrideOf(rhs, k) == OverrideOf(MergeAll(earlier, later), k);
      }
    }
  }

  class FormDescription {
    var fields: seq<Field>
    var fieldOverrides: map<string, Override>

    constructor ()
      ensures fields == [] && fieldOverrides == map[]
    {
      fields := [];
      fieldOverrides := map[];
    }

    /** add_field: append the field, with the overrides registered for its name applied. */
    method AddField(name: string, fieldType: string, default: Value, required: bool)
      modifies this
      ensures fields == old(fields) + [Apply(Field(name, fieldType, default, required), OverrideOf(old(fieldOverrides), name))]
      ensures fieldOverrides == old(fieldOverrides)
    {
      fields := fields + [Apply(Field(name, fieldType, default, required), OverrideOf(fieldOverrides, name))];
    }

    /** override_field_properties: merge properties into the overrides of one name. */
    method OverrideFieldProperties(name: string, o: Override)
      modifies this
      ensures fieldOverrides == old(fieldOverrides)[name := Merge(OverrideOf(old(fieldOverrides), name), o)]
      ensures fields == old(fields)
    {
      fieldOverrides := fieldOverrides[name := Merge(OverrideOf(fieldOverrides, name), o)];
    }

    /** _field_overrides.get(name, {}).get('defaultValue') */
    function OverrideDefault(name: string): (r: Option<string>)
      reads this
      ensures r.Some? ==> name in fieldOverrides && fieldOverrides[name].default == r
      ensures r.None? ==> name !in fieldOverrides || fieldOverrides[name].default.None?
    {
      OverrideOf(fieldOverrides, name).default
    }
  }
}
