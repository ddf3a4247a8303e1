/**
 * What RegistrationView.get emits, stated on values: the overrides the
 * third-party-auth step registers, the field each handler adds, and the
 * whole form for both branches (with and without an extension form).
 */
module RegistrationForms {
  import opened Wrappers
  import opened Ascii
  import opened FormDescriptions
  import opened RegistrationConfig

  /** The wire type and default value a `_add_<name>_field` handler gives its field. */
  datatype FieldSpec = FieldSpec(fieldType: string, default: Value)

  function HandlerSpec(name: string): (r: FieldSpec)
    ensures r.fieldType != "hidden"
    ensures name == "honor_code" || name == "terms_of_service" <==> r.fieldType == "checkbox"
    ensures r.fieldType == "checkbox" ==> r.default == Flag(false)
    ensures r.fieldType != "checkbox" ==> r.default == Text("")
  {
    if name == "email" then FieldSpec("email", Text(""))
    else if name == "password" then FieldSpec("password", Text(""))
    else if name == "level_of_education" || name == "gender" || name == "year_of_birth" || name == "country"
    then FieldSpec("select", Text(""))
    else if name == "mailing_address" || name == "goals" then FieldSpec("textarea", Text(""))
    else if name == "honor_code" || name == "terms_of_service" then FieldSpec("checkbox", Flag(false))
    else FieldSpec("text", Text(""))
  }

  /** The handler of each name of `names`. */
  function HandlerMap(names: seq<string>): (r: map<string, FieldSpec>)
    ensures r.Keys == AsSet(names)
  {
    map name | name in names :: HandlerSpec(name)
  }

  /** The handler table the constructor builds: one handler per valid field. */
  function HandlerTable(): (r: map<string, FieldSpec>)
    ensures r.Keys == AsSet(ValidFields)
  {
    HandlerMap(ValidFields)
  }

  lemma HandlerMapStep(names: seq<string>, i: nat)
    requires i < |names|
    ensures HandlerMap(names[..i + 1]) == HandlerMap(names[..i])[names[i] := HandlerSpec(names[i])]
  {
    assert names[..i + 1] == names[..i] + [names[i]];
  }

  /** The field the handler of `name` adds, before any override is applied. */
  function HandlerField(name: string, required: bool): (r: Field)
    ensures r.name == name && r.required == required
    ensures r.fieldType == HandlerSpec(name).fieldType && r.fieldType != "hidden"
    ensures r.default == HandlerSpec(name).default
  {
    Field(name, HandlerSpec(name).fieldType, HandlerSpec(name).default, required)
  }

  // ---- third-party authentication ----

  /** A provider: its display name, its skip-registration-form flag and its register-form data. */
  datatype Provider = Provider(name: string, skipRegistrationForm: bool, registerFormData: map<string, string>)

  /** Whether third-party auth is enabled, whether a pipeline is running, and the provider it names. */
  datatype ThirdPartyAuth = ThirdPartyAuth(enabled: bool, runningPipeline: bool, provider: Option<Provider>)

  function CurrentProvider(tpa: ThirdPartyAuth): (r: Option<Provider>)
    ensures r.Some? <==> tpa.enabled && tpa.runningPipeline && tpa.provider.Some?
    ensures r.Some? ==> r == tpa.provider
  {
    if tpa.enabled && tpa.runningPipeline then tpa.provider else None
  }

  /**
   * The skip-form enterprise case: every field but the terms checkboxes is to
   * be hidden. Neither a provider that skips the form outside an enterprise
   * context nor an enterprise request through a provider that shows it hides anything.
   */
  predicate HidesFields(p: Provider, enterprise: bool)
    ensures !enterprise ==> !HidesFields(p, enterprise)
    ensures !p.skipRegistrationForm ==> !HidesFields(p, enterprise)
    ensures p.skipRegistrationForm && enterprise ==> HidesFields(p, enterprise)
  {
    p.skipRegistrationForm && enterprise
  }

  const PasswordOverride := Override(Some("hidden"), Some(""), Some(false))

  /** The override registered for a field the provider sent a value for. */
  function DataOverride(p: Provider, enterprise: bool, name: string): (r: Override)
    requires name in p.registerFormData
    ensures r.default == Some(p.registerFormData[name]) && r.required.None?
    ensures r.fieldType.Some? <==>
      name != "terms_of_service" && name != "honor_code" && p.registerFormData[name] != "" && HidesFields(p, enterprise)
    ensures r.fieldType.Some? ==> r.fieldType.value == "hidden"
  {
    var value := p.registerFormData[name];
    var hides := name != "terms_of_service" && name != "honor_code" && value != "" && HidesFields(p, enterprise);
    Override(if hides then Some("hidden") else None, Some(value), None)
  }

  function DataOverrides(p: Provider, enterprise: bool, names: seq<string>): (r: map<string, Override>)
    ensures forall name :: name in r <==> name in names && name in p.registerFormData
  {
    map name | name in names && name in p.registerFormData :: DataOverride(p, enterprise, name)
  }

  lemma DataOverridesStep(p: Provider, enterprise: bool, names: seq<string>, i: nat)
    requires i < |names| && names[i] !in names[..i]
    ensures DataOverrides(p, enterprise, names[..i + 1]) ==
      if names[i] in p.registerFormData
      then DataOverrides(p, enterprise, names[..i])[names[i] := DataOverride(p, enterprise, names[i])]
      else DataOverrides(p, enterprise, names[..i])
  {
    assert names[..i + 1] == names[..i] + [names[i]];
  }

  /**
   * Registering the provider's value for `name`, then the hidden type when
   * the skip-form case applies, merges that field's DataOverride into the
   * overrides already registered.
   */
  lemma DataOverrideSteps(
    p: Provider, enterprise: bool, name: string,
    start: map<string, Override>, done: map<string, Override>, hidesFields: bool)
    requires name in p.registerFormData && name !in done
    requires hidesFields == HidesFields(p, enterprise)
    ensures var before := MergeAll(start, done);
      var once := before[name := Merge(OverrideOf(before, name), Override(None, Some(p.registerFormData[name]), None))];
      var hides := name != "terms_of_service" && name != "honor_code" && p.registerFormData[name] != "" && hidesFields;
      var twice := if hides then once[name := Merge(OverrideOf(once, name), Override(Some("hidden"), None, None))] else once;
      twice == MergeAll(start, done[name := DataOverride(p, enterprise, name)])
  {
    MergeAllUpdate(start, done, name, DataOverride(p, enterprise, name));
  }

  /**
   * One pass of the provider loop over `name`: register the provider's value
   * as the default, then the hidden type in the skip-form enterprise case.
   */
  function RegisterProviderValue(current: map<string, Override>, p: Provider, enterprise: bool, name: string): (r: map<string, Override>)
    ensures name !in p.registerFormData ==> r == current
    ensures name in p.registerFormData ==>
      OverrideOf(r, name) == Merge(OverrideOf(current, name), DataOverride(p, enterprise, name))
    ensures forall other :: other != name ==> OverrideOf(r, other) == OverrideOf(current, other)
  {
    if name !in p.registerFormData then current
    else
      var value := p.registerFormData[name];
      var once := current[name := Merge(OverrideOf(current, name), Override(None, Some(value), None))];
      if name != "terms_of_service" && name != "honor_code" && value != "" && HidesFields(p, enterprise)
      then once[name := Merge(OverrideOf(once, name), Override(Some("hidden"), None, None))]
      else once
  }

  /** Each pass of the provider loop merges one more DataOverride into the overrides. */
  lemma RegisterProviderValueStep(p: Provider, enterprise: bool, names: seq<string>, i: nat, start: map<string, Override>)
    requires i < |names| && names[i] !in names[..i]
    ensures RegisterProviderValue(MergeAll(start, DataOverrides(p, enterprise, names[..i])), p, enterprise, names[i]) ==
      MergeAll(start, DataOverrides(p, enterprise, names[..i + 1]))
  {
    DataOverridesStep(p, enterprise, names, i);
    if names[i] in p.registerFormData {
      DataOverrideSteps(p, enterprise, names[i], start, DataOverrides(p, enterprise, names[..i]), HidesFields(p, enterprise));
    }
  }

  /** The overrides _apply_third_party_auth_overrides registers when a provider is active. */
  function ProviderOverrides(p: Provider, enterprise: bool): (r: map<string, Override>)
    ensures "password" in r && r["password"] == PasswordOverride
    ensures forall name :: name in r ==> name in ValidFields
    ensures forall name :: name in r && name != "password" ==>
      name in p.registerFormData && r[name] == DataOverride(p, enterprise, name)
  {
    DataOverrides(p, enterprise, ValidFields)["password" := PasswordOverride]
  }

  /** Registering the password override last yields the provider's overrides; the marker field gets none of them. */
  lemma PasswordOverrideStep(p: Provider, enterprise: bool, start: map<string, Override>)
    ensures var before := MergeAll(start, DataOverrides(p, enterprise, ValidFields));
      var after := before["password" := Merge(OverrideOf(before, "password"), PasswordOverride)];
      after == MergeAll(start, ProviderOverrides(p, enterprise)) &&
      OverrideOf(after, "social_auth_provider") == OverrideOf(start, "social_auth_provider")
  {
    var data := DataOverrides(p, enterprise, ValidFields);
    MergeAllUpdate(start, data, "password", PasswordOverride);
    MarkerNotValidField();
    assert "social_auth_provider" !in data;
  }

  /** The overrides the third-party step registers: none without an active provider. */
  function TpaOverrides(tpa: ThirdPartyAuth, enterprise: bool): (r: map<string, Override>)
    ensures r == map[] <==> CurrentProvider(tpa).None?
    ensures forall name :: name in r ==> name in ValidFields
  {
    match CurrentProvider(tpa)
    case None => map[]
    case Some(p) => ProviderOverrides(p, enterprise)
  }

  function SocialAuthField(p: Provider): (r: Field)
    ensures r.name == "social_auth_provider" && r.fieldType == "hidden" && !r.required
    ensures r.default == Text(if p.name != "" then p.name else "Third Party")
  {
    Field("social_auth_provider", "hidden", Text(if p.name != "" then p.name else "Third Party"), false)
  }

  /** The hidden field that marks a request running third-party auth, when a provider is active. */
  function SocialAuthFields(tpa: ThirdPartyAuth): (r: seq<Field>)
    ensures |r| == if CurrentProvider(tpa).Some? then 1 else 0
    ensures forall i :: 0 <= i < |r| ==> r[i] == SocialAuthField(CurrentProvider(tpa).value)
  {
    match CurrentProvider(tpa)
    case None => []
    case Some(p) => [SocialAuthField(p)]
  }

  // ---- the country default ----

  /** _add_country_field: a non-empty overridden country default is upper-cased. */
  function UpperCaseCountryDefault(overrides: map<string, Override>): (r: map<string, Override>)
    ensures forall name :: name != "country" ==> OverrideOf(r, name) == OverrideOf(overrides, name)
    ensures var o := OverrideOf(overrides, "country");
      OverrideOf(r, "country") ==
        if o.default.Some? && o.default.value != "" then o.(default := Some(Upper(o.default.value))) else o
  {
    var o := OverrideOf(overrides, "country");
    if o.default.Some? && o.default.value != "" then
      overrides["country" := Merge(o, Override(None, Some(Upper(o.default.value)), None))]
    else overrides
  }

  lemma UpperCaseCountryDefaultIdempotent(overrides: map<string, Override>)
    ensures UpperCaseCountryDefault(UpperCaseCountryDefault(overrides)) == UpperCaseCountryDefault(overrides)
  {
    var o := OverrideOf(overrides, "country");
    if o.default.Some? && o.default.value != "" {
      UpperIdempotent(o.default.value);
    }
  }

  /** How the overrides change when the handler of `name` runs. */
  function HandlerOverrides(overrides: map<string, Override>, name: string): (r: map<string, Override>)
    ensures name != "country" ==> r == overrides
    ensures forall other :: other != "country" ==> OverrideOf(r, other) == OverrideOf(overrides, other)
  {
    if name == "country" then UpperCaseCountryDefault(overrides) else overrides
  }

  /** The overrides every handled field is added under. */
  function FormOverrides(tpa: ThirdPartyAuth, enterprise: bool): (r: map<string, Override>)
    ensures CurrentProvider(tpa).None? ==> r == map[]
    ensures forall name :: name != "country" ==> OverrideOf(r, name) == OverrideOf(TpaOverrides(tpa, enterprise), name)
  {
    UpperCaseCountryDefault(TpaOverrides(tpa, enterprise))
  }

  // ---- fields added by handlers ----

  /**
   * A default field is always added as required; an extra field is required
   * exactly when its setting is "required", a missing entry making it optional,
   * and a required field is always one the form includes.
   */
  function Required(setting: map<string, string>, name: string): (r: bool)
    ensures name in DefaultFields ==> r
    ensures name in ExtraFields ==> (r <==> name in setting && setting[name] == "required")
    ensures r ==> Included(setting, name)
  {
    name in DefaultFields || IsFieldRequired(setting, name)
  }

  /**
   * The test that adds a name of the order: a default field always, an extra
   * field when its setting is "required" or "optional", never one without an entry.
   */
  predicate Included(setting: map<string, string>, name: string)
    ensures name in DefaultFields ==> Included(setting, name)
    ensures name in ExtraFields ==>
      (Included(setting, name) <==> name in setting && setting[name] in {"required", "optional"})
    ensures name !in DefaultFields && name !in setting ==> !Included(setting, name)
  {
    name in DefaultFields || IsFieldVisible(setting, name)
  }

  /** The names of `names`, in order, that are default fields or visible extra fields. */
  function IncludedFields(setting: map<string, string>, names: seq<string>): (r: seq<string>)
    ensures |r| <= |names|
    ensures forall i :: 0 <= i < |r| ==> r[i] in names && Included(setting, r[i])
    decreases |names|
  {
    if names == [] then []
    else
      var last := names[|names| - 1];
      IncludedFields(setting, names[..|names| - 1]) + (if Included(setting, last) then [last] else [])
  }

  /** The field the handler of `name` adds under `overrides`, required as the view decides. */
  function HandledField(overrides: map<string, Override>, setting: map<string, string>, name: string): (r: Field)
    ensures r.name == name
    ensures OverrideOf(overrides, name) == NoOverride ==> r == HandlerField(name, Required(setting, name))
    ensures OverrideOf(overrides, name).required.None? ==> (r.required <==> Required(setting, name))
  {
    Apply(HandlerField(name, Required(setting, name)), OverrideOf(overrides, name))
  }

  function HandledFields(overrides: map<string, Override>, setting: map<string, string>, names: seq<string>): (r: seq<Field>)
    ensures |r| == |names|
    ensures forall i :: 0 <= i < |names| ==> r[i] == HandledField(overrides, setting, names[i])
  {
    seq(|names|, i requires 0 <= i < |names| => HandledField(overrides, setting, names[i]))
  }

  lemma HandlerTableAt(name: string)
    requires name in ValidFields
    ensures name in HandlerTable() && HandlerTable()[name] == HandlerSpec(name)
  {
  }

  lemma OrderedNameHandled(order: seq<string>, i: nat)
    requires AsSet(order) == AsSet(ValidFields) && i < |order|
    ensures order[i] in HandlerTable() && HandlerTable()[order[i]] == HandlerSpec(order[i])
  {
    assert order[i] in AsSet(order);
    HandlerTableAt(order[i]);
  }

  lemma ExtraFieldHandled(k: nat)
    requires k < |ExtraFields|
    ensures ExtraFields[k] in HandlerTable() && HandlerTable()[ExtraFields[k]] == HandlerSpec(ExtraFields[k])
    ensures ExtraFields[k] !in DefaultFields
  {
    ValidFieldsDistinct();
    HandlerTableAt(ExtraFields[k]);
  }

  /** One more name of the order adds its handled field exactly when the name is included. */
  lemma HandledIncludedStep(overrides: map<string, Override>, setting: map<string, string>, names: seq<string>, i: nat)
    requires i < |names|
    ensures HandledFields(overrides, setting, IncludedFields(setting, names[..i + 1])) ==
      HandledFields(overrides, setting, IncludedFields(setting, names[..i])) +
      if Included(setting, names[i]) then [HandledField(overrides, setting, names[i])] else []
  {
    assert names[..i + 1][..i] == names[..i];
    var before := IncludedFields(setting, names[..i]);
    if Included(setting, names[i]) {
      assert IncludedFields(setting, names[..i + 1]) == before + [names[i]];
      HandledFieldsAppend(overrides, setting, before, [names[i]]);
    } else {
      assert IncludedFields(setting, names[..i + 1]) == before + [];
      assert before + [] == before;
    }
  }

  lemma HandledFieldsAppend(overrides: map<string, Override>, setting: map<string, string>, a: seq<string>, b: seq<string>)
    ensures HandledFields(overrides, setting, a + b) == HandledFields(overrides, setting, a) + HandledFields(overrides, setting, b)
  {
  }

  /**
   * Running a handler while the registered overrides are those of the
   * third-party step, with or without the country default upper-cased, adds
   * the field HandledField describes and leaves one of those two override maps.
   */
  lemma HandlerStep(overrides: map<string, Override>, setting: map<string, string>,
                    current: map<string, Override>, name: string, required: bool)
    requires current == overrides || current == UpperCaseCountryDefault(overrides)
    requires required == Required(setting, name)
    ensures HandlerOverrides(current, name) == overrides || HandlerOverrides(current, name) == UpperCaseCountryDefault(overrides)
    ensures name != "country" ==> HandlerOverrides(current, name) == current
    ensures Apply(HandlerField(name, required), OverrideOf(HandlerOverrides(current, name), name)) ==
      HandledField(UpperCaseCountryDefault(overrides), setting, name)
  {
    UpperCaseCountryDefaultIdempotent(overrides);
  }

  // ---- the extension form ----

  /**
   * A field of the configured extension form: its name, its form-field class,
   * whether it is required, and the field_type and default of its
   * serialization options (a field_type option set to None is Some("")).
   */
  datatype CustomField = CustomField(
    name: string, fieldClass: string, required: bool,
    optionFieldType: Option<string>, optionDefault: Option<Value>)

  datatype FormError = UnrecognizedFieldType(fieldName: string)

  /** The serialization option's field_type, else the type map's entry for the class; None when falsy. */
  function CustomFieldType(cf: CustomField, typeMap: map<string, string>): (r: Option<string>)
    ensures r.Some? ==> r.value != ""
    ensures cf.optionFieldType.Some? ==> r.Some? == (cf.optionFieldType.value != "")
    ensures cf.optionFieldType.None? ==> r.Some? == (cf.fieldClass in typeMap && typeMap[cf.fieldClass] != "")
    ensures r.Some? ==> r.value == if cf.optionFieldType.Some? then cf.optionFieldType.value else typeMap[cf.fieldClass]
  {
    var t := if cf.optionFieldType.Some? then cf.optionFieldType.value else Lookup(typeMap, cf.fieldClass).GetOr("");
    if t == "" then None else Some(t)
  }

  /** The index of the first extension field whose type is not recognised, at or after `from`. */
  function FirstUnrecognized(cfs: seq<CustomField>, typeMap: map<string, string>, from: nat): (r: Option<nat>)
    requires from <= |cfs|
    decreases |cfs| - from
    ensures r.Some? ==> from <= r.value < |cfs| && CustomFieldType(cfs[r.value], typeMap).None?
    ensures r.Some? ==> forall k :: from <= k < r.value ==> CustomFieldType(cfs[k], typeMap).Some?
    ensures r.None? ==> forall k :: from <= k < |cfs| ==> CustomFieldType(cfs[k], typeMap).Some?
  {
    if from == |cfs| then None
    else if CustomFieldType(cfs[from], typeMap).None? then Some(from)
    else FirstUnrecognized(cfs, typeMap, from + 1)
  }

  /** The field add_field builds for an extension field, under the overrides registered for its name. */
  function CustomFormField(overrides: map<string, Override>, cf: CustomField, typeMap: map<string, string>): (r: Field)
    ensures r.name == cf.name
    ensures OverrideOf(overrides, cf.name).required.None? ==> r.required == cf.required
    ensures OverrideOf(overrides, cf.name).fieldType.None? && CustomFieldType(cf, typeMap).Some? ==>
      r.fieldType == CustomFieldType(cf, typeMap).value
  {
    Apply(Field(cf.name, CustomFieldType(cf, typeMap).GetOr(""), cf.optionDefault.GetOr(Null), cf.required),
          OverrideOf(overrides, cf.name))
  }

  function CustomFormFields(overrides: map<string, Override>, cfs: seq<CustomField>, typeMap: map<string, string>): (r: seq<Field>)
    ensures |r| == |cfs|
    ensures forall i :: 0 <= i < |cfs| ==> r[i] == CustomFormField(overrides, cfs[i], typeMap)
  {
    seq(|cfs|, i requires 0 <= i < |cfs| => CustomFormField(overrides, cfs[i], typeMap))
  }

  lemma FirstUnrecognizedAt(cfs: seq<CustomField>, typeMap: map<string, string>, j: nat)
    requires j < |cfs| && CustomFieldType(cfs[j], typeMap).None?
    requires forall k :: 0 <= k < j ==> CustomFieldType(cfs[k], typeMap).Some?
    ensures FirstUnrecognized(cfs, typeMap, 0) == Some(j)
  {
  }

  lemma CustomFormFieldsStep(overrides: map<string, Override>, cfs: seq<CustomField>, typeMap: map<string, string>, j: nat)
    requires j < |cfs|
    ensures CustomFormFields(overrides, cfs[..j + 1], typeMap) ==
      CustomFormFields(overrides, cfs[..j], typeMap) + [CustomFormField(overrides, cfs[j], typeMap)]
  {
  }

  // ---- the whole form ----

  /**
   * The fields RegistrationView.get emits for a view whose visibility map is
   * `setting` and whose field order is `order`.
   */
  function RegistrationForm(
    setting: map<string, string>, order: seq<string>, tpa: ThirdPartyAuth, enterprise: bool,
    customForm: Option<seq<CustomField>>, typeMap: map<string, string>): (r: Result<seq<Field>, FormError>)
    ensures customForm.None? ==> r.Success?
    ensures customForm.Some? ==> (r.Failure? <==> FirstUnrecognized(customForm.value, typeMap, 0).Some?)
    ensures r.Success? ==> |SocialAuthFields(tpa)| <= |r.value| && r.value[..|SocialAuthFields(tpa)|] == SocialAuthFields(tpa)
  {
    var overrides := TpaOverrides(tpa, enterprise);
    var final := UpperCaseCountryDefault(overrides);
    match customForm
    case None =>
      Success(SocialAuthFields(tpa) + HandledFields(final, setting, IncludedFields(setting, order)))
    case Some(cfs) =>
      match FirstUnrecognized(cfs, typeMap, 0)
      case Some(k) => Failure(UnrecognizedFieldType(cfs[k].name))
      case None =>
        Success(SocialAuthFields(tpa) + HandledFields(final, setting, DefaultFields)
                + CustomFormFields(overrides, cfs, typeMap)
                + HandledFields(final, setting, IncludedFields(setting, ExtraFields)))
  }

  // ---- properties ----

  /** A name is emitted by the filter exactly when it is in `names` and is a default or visible field. */
  lemma {:induction false} IncludedFieldsMembership(setting: map<string, string>, names: seq<string>, name: string)
    ensures name in IncludedFields(setting, names) <==> name in names && Included(setting, name)
    decreases |names|
  {
    if names != [] {
      var init := names[..|names| - 1];
      IncludedFieldsMembership(setting, init, name);
      assert names == init + [names[|names| - 1]];
    }
  }

  /** On the extra fields the filter keeps exactly the visible ones. */
  lemma IncludedExtraFieldsAreVisible(setting: map<string, string>, name: string)
    ensures name in IncludedFields(setting, ExtraFields) <==> name in ExtraFields && IsFieldVisible(setting, name)
  {
    IncludedFieldsMembership(setting, ExtraFields, name);
    ValidFieldsDistinct();
  }

  /** The override every handled field is added under, case by case. */
  lemma FormOverrideOf(tpa: ThirdPartyAuth, enterprise: bool, name: string)
    ensures CurrentProvider(tpa).None? ==> OverrideOf(FormOverrides(tpa, enterprise), name) == NoOverride
    ensures CurrentProvider(tpa).Some? && name == "password" ==>
      OverrideOf(FormOverrides(tpa, enterprise), name) == PasswordOverride
    ensures CurrentProvider(tpa).Some? && name != "password" ==>
      var p := CurrentProvider(tpa).value;
      OverrideOf(FormOverrides(tpa, enterprise), name) ==
        if name in ValidFields && name in p.registerFormData then
          var o := DataOverride(p, enterprise, name);
          if name == "country" then o.(default := Some(Upper(p.registerFormData[name]))) else o
        else NoOverride
  {
    var overrides := TpaOverrides(tpa, enterprise);
    if CurrentProvider(tpa).Some? && name == "country" {
      var p := CurrentProvider(tpa).value;
      if name in p.registerFormData {
        UpperIdempotent(p.registerFormData[name]);
        assert Upper("") == "";
      }
    }
  }

  /** Without an active provider each handler's field is added exactly as the handler builds it. */
  lemma HandledFieldWithoutProvider(tpa: ThirdPartyAuth, enterprise: bool, setting: map<string, string>, name: string)
    requires CurrentProvider(tpa).None?
    ensures HandledField(FormOverrides(tpa, enterprise), setting, name) == HandlerField(name, Required(setting, name))
  {
    FormOverrideOf(tpa, enterprise, name);
  }

  /**
   * A handled field is required when it is a default field or its setting is
   * "required", except the password field under an active provider, which never is.
   */
  lemma HandledFieldRequired(tpa: ThirdPartyAuth, enterprise: bool, setting: map<string, string>, name: string)
    ensures HandledField(FormOverrides(tpa, enterprise), setting, name).required ==
      if CurrentProvider(tpa).Some? && name == "password" then false
      else name in DefaultFields || IsFieldRequired(setting, name)
  {
    FormOverrideOf(tpa, enterprise, name);
  }

  /** Under an active provider the password field is hidden, optional, and empty by default. */
  lemma PasswordHiddenWithProvider(tpa: ThirdPartyAuth, enterprise: bool, setting: map<string, string>)
    requires CurrentProvider(tpa).Some?
    ensures var f := HandledField(FormOverrides(tpa, enterprise), setting, "password");
      f.fieldType == "hidden" && !f.required && f.default == Text("")
  {
    FormOverrideOf(tpa, enterprise, "password");
  }

  /**
   * A field other than the password is hidden exactly in the skip-form
   * enterprise case, when it is not one of the terms checkboxes and the
   * provider sent a non-empty value for it.
   */
  lemma HandledFieldHidden(tpa: ThirdPartyAuth, enterprise: bool, setting: map<string, string>, name: string)
    requires name in ValidFields && name != "password"
    ensures HandledField(FormOverrides(tpa, enterprise), setting, name).fieldType == "hidden" <==>
      CurrentProvider(tpa).Some? &&
      var p := CurrentProvider(tpa).value;
      name != "terms_of_service" && name != "honor_code" &&
      name in p.registerFormData && p.registerFormData[name] != "" && HidesFields(p, enterprise)
  {
    FormOverrideOf(tpa, enterprise, name);
  }

  /** A provider's value for a field becomes its default; the country's is upper-cased. */
  lemma HandledFieldDefault(tpa: ThirdPartyAuth, enterprise: bool, setting: map<string, string>, name: string)
    requires name in ValidFields && name != "password"
    requires CurrentProvider(tpa).Some? && name in CurrentProvider(tpa).value.registerFormData
    ensures var value := CurrentProvider(tpa).value.registerFormData[name];
      HandledField(FormOverrides(tpa, enterprise), setting, name).default ==
        Text(if name == "country" then Upper(value) else value)
  {
    FormOverrideOf(tpa, enterprise, name);
  }

  /**
   * Without an extension form, the field after the marker field at position `i`
   * is the handler field of the i-th included name, required as the view decides,
   * and under an active provider the password field there is hidden and empty.
   */
  lemma OrderedFormField(
    setting: map<string, string>, order: seq<string>, tpa: ThirdPartyAuth, enterprise: bool,
    typeMap: map<string, string>, i: nat)
    requires i < |IncludedFields(setting, order)|
    ensures var form := RegistrationForm(setting, order, tpa, enterprise, None, typeMap).value;
      var name := IncludedFields(setting, order)[i];
      |SocialAuthFields(tpa)| + i < |form| &&
      form[|SocialAuthFields(tpa)| + i].name == name &&
      form[|SocialAuthFields(tpa)| + i].required ==
        (if CurrentProvider(tpa).Some? && name == "password" then false
         else name in DefaultFields || IsFieldRequired(setting, name)) &&
      (CurrentProvider(tpa).Some? && name == "password" ==>
        form[|SocialAuthFields(tpa)| + i].fieldType == "hidden" && form[|SocialAuthFields(tpa)| + i].default == Text(""))
  {
    var final := FormOverrides(tpa, enterprise);
    var included := IncludedFields(setting, order);
    var social := SocialAuthFields(tpa);
    var form := RegistrationForm(setting, order, tpa, enterprise, None, typeMap).value;
    assert form == social + HandledFields(final, setting, included);
    assert form[|social| + i] == HandledField(final, setting, included[i]);
    HandledFieldRequired(tpa, enterprise, setting, included[i]);
    if CurrentProvider(tpa).Some? && included[i] == "password" {
      PasswordHiddenWithProvider(tpa, enterprise, setting);
    }
  }

  lemma HandledFieldsNames(overrides: map<string, Override>, setting: map<string, string>, names: seq<string>)
    ensures Names(HandledFields(overrides, setting, names)) == names
  {
  }

  lemma CustomFormFieldsNames(overrides: map<string, Override>, cfs: seq<CustomField>, typeMap: map<string, string>)
    ensures Names(CustomFormFields(overrides, cfs, typeMap)) == seq(|cfs|, i requires 0 <= i < |cfs| => cfs[i].name)
  {
  }

  /**
   * Without an extension form: the active provider's marker field, then the
   * elements of the field order that are default or visible extra fields, in order.
   */
  lemma FormWithoutCustomFormNames(
    setting: map<string, string>, order: seq<string>, tpa: ThirdPartyAuth, enterprise: bool, typeMap: map<string, string>)
    ensures RegistrationForm(setting, order, tpa, enterprise, None, typeMap).Success?
    ensures Names(RegistrationForm(setting, order, tpa, enterprise, None, typeMap).value) ==
      Names(SocialAuthFields(tpa)) + IncludedFields(setting, order)
  {
    var final := UpperCaseCountryDefault(TpaOverrides(tpa, enterprise));
    var handled := HandledFields(final, setting, IncludedFields(setting, order));
    assert RegistrationForm(setting, order, tpa, enterprise, None, typeMap).value == SocialAuthFields(tpa) + handled;
    NamesAppend(SocialAuthFields(tpa), handled);
    HandledFieldsNames(final, setting, IncludedFields(setting, order));
  }

  /** Without an extension form, an extra field that is hidden or has no setting never appears. */
  lemma HiddenFieldNeverAppears(
    setting: map<string, string>, order: seq<string>, tpa: ThirdPartyAuth, enterprise: bool,
    typeMap: map<string, string>, name: string)
    requires name in ExtraFields && !IsFieldVisible(setting, name)
    ensures name !in Names(RegistrationForm(setting, order, tpa, enterprise, None, typeMap).value)
  {
    FormWithoutCustomFormNames(setting, order, tpa, enterprise, typeMap);
    ValidFieldsDistinct();
    IncludedFieldsMembership(setting, order, name);
    assert name != "social_auth_provider";
  }

  /** With an extension form, get fails exactly when one of its fields has no recognised type. */
  lemma CustomFormFailure(
    setting: map<string, string>, order: seq<string>, tpa: ThirdPartyAuth, enterprise: bool,
    cfs: seq<CustomField>, typeMap: map<string, string>)
    ensures RegistrationForm(setting, order, tpa, enterprise, Some(cfs), typeMap).Failure? <==>
      exists i :: 0 <= i < |cfs| && CustomFieldType(cfs[i], typeMap).None?
    ensures RegistrationForm(setting, order, tpa, enterprise, Some(cfs), typeMap).Failure? ==>
      exists i :: 0 <= i < |cfs| && CustomFieldType(cfs[i], typeMap).None? &&
        RegistrationForm(setting, order, tpa, enterprise, Some(cfs), typeMap).error == UnrecognizedFieldType(cfs[i].name)
  {
    var first := FirstUnrecognized(cfs, typeMap, 0);
    if first.Some? {
      assert CustomFieldType(cfs[first.value], typeMap).None?;
    }
  }

  /**
   * With an extension form that succeeds: the provider's marker field, the
   * default fields, the extension fields in their order, then the visible
   * extra fields in declaration order.
   */
  lemma CustomFormNames(
    setting: map<string, string>, order: seq<string>, tpa: ThirdPartyAuth, enterprise: bool,
    cfs: seq<CustomField>, typeMap: map<string, string>)
    requires RegistrationForm(setting, order, tpa, enterprise, Some(cfs), typeMap).Success?
    ensures Names(RegistrationForm(setting, order, tpa, enterprise, Some(cfs), typeMap).value) ==
      Names(SocialAuthFields(tpa)) + DefaultFields + seq(|cfs|, i requires 0 <= i < |cfs| => cfs[i].name)
      + IncludedFields(setting, ExtraFields)
  {
    var overrides := TpaOverrides(tpa, enterprise);
    var final := UpperCaseCountryDefault(overrides);
    var social := SocialAuthFields(tpa);
    var defaults := HandledFields(final, setting, DefaultFields);
    var custom := CustomFormFields(overrides, cfs, typeMap);
    var extras := HandledFields(final, setting, IncludedFields(setting, ExtraFields));
    assert RegistrationForm(setting, order, tpa, enterprise, Some(cfs), typeMap).value == social + defaults + custom + extras;
    NamesAppend(social + defaults + custom, extras);
    NamesAppend(social + defaults, custom);
    NamesAppend(social, defaults);
    HandledFieldsNames(final, setting, DefaultFields);
    CustomFormFieldsNames(overrides, cfs, typeMap);
    HandledFieldsNames(final, setting, IncludedFields(setting, ExtraFields));
  }

  /** Every extension field of a form that succeeds has a non-empty type, whatever the provider overrides. */
  lemma CustomFormTypesKnown(tpa: ThirdPartyAuth, enterprise: bool, cfs: seq<CustomField>, typeMap: map<string, string>)
    requires FirstUnrecognized(cfs, typeMap, 0).None?
    ensures forall i :: 0 <= i < |cfs| ==>
      CustomFormFields(TpaOverrides(tpa, enterprise), cfs, typeMap)[i].fieldType != ""
  {
    var overrides := TpaOverrides(tpa, enterprise);
    forall i | 0 <= i < |cfs| ensures CustomFormFields(overrides, cfs, typeMap)[i].fieldType != "" {
      assert CustomFieldType(cfs[i], typeMap).Some?;
      var o := OverrideOf(overrides, cfs[i].name);
      assert o.fieldType.Some? ==> o.fieldType.value == "hidden" by {
        if CurrentProvider(tpa).Some? && o != NoOverride && cfs[i].name != "password" {
          assert cfs[i].name in DataOverrides(CurrentProvider(tpa).value, enterprise, ValidFields);
        }
      }
    }
  }

  lemma DefaultFieldsInOrderedForm(
    setting: map<string, string>, order: seq<string>, tpa: ThirdPartyAuth, enterprise: bool,
    typeMap: map<string, string>, name: string)
    requires AsSet(order) == AsSet(ValidFields) && name in DefaultFields
    ensures name in Names(RegistrationForm(setting, order, tpa, enterprise, None, typeMap).value)
  {
    var fields := RegistrationForm(setting, order, tpa, enterprise, None, typeMap).value;
    var names := IncludedFields(setting, order);
    assert Names(fields) == Names(SocialAuthFields(tpa)) + names by {
      FormWithoutCustomFormNames(setting, order, tpa, enterprise, typeMap);
    }
    assert name in names by {
      assert name in AsSet(ValidFields);
      IncludedFieldsMembership(setting, order, name);
    }
    var k :| 0 <= k < |names| && names[k] == name;
    AppendedAt(Names(SocialAuthFields(tpa)), names, k);
  }

  lemma DefaultFieldsInCustomForm(
    setting: map<string, string>, order: seq<string>, tpa: ThirdPartyAuth, enterprise: bool,
    cfs: seq<CustomField>, typeMap: map<string, string>, name: string)
    requires RegistrationForm(setting, order, tpa, enterprise, Some(cfs), typeMap).Success? && name in DefaultFields
    ensures name in Names(RegistrationForm(setting, order, tpa, enterprise, Some(cfs), typeMap).value)
  {
    CustomFormNames(setting, order, tpa, enterprise, cfs, typeMap);
    MiddleRunMember(
      Names(SocialAuthFields(tpa)), DefaultFields,
      seq(|cfs|, i requires 0 <= i < |cfs| => cfs[i].name), IncludedFields(setting, ExtraFields), name);
  }

  lemma MiddleRunMember(head: seq<string>, middle: seq<string>, next: seq<string>, last: seq<string>, x: string)
    requires x in middle
    ensures x in head + middle + next + last
  {
    var k :| 0 <= k < |middle| && middle[k] == x;
    assert (head + middle + next + last)[|head| + k] == x;
  }

  /** When the field order names every valid field, every default field is in a form that succeeds. */
  lemma DefaultFieldsAlwaysPresent(
    setting: map<string, string>, order: seq<string>, tpa: ThirdPartyAuth, enterprise: bool,
    customForm: Option<seq<CustomField>>, typeMap: map<string, string>)
    requires AsSet(order) == AsSet(ValidFields)
    requires RegistrationForm(setting, order, tpa, enterprise, customForm, typeMap).Success?
    ensures forall name :: name in DefaultFields ==>
      name in Names(RegistrationForm(setting, order, tpa, enterprise, customForm, typeMap).value)
  {
    forall name | name in DefaultFields
      ensures name in Names(RegistrationForm(setting, order, tpa, enterprise, customForm, typeMap).value)
    {
      match customForm
      case None => DefaultFieldsInOrderedForm(setting, order, tpa, enterprise, typeMap, name);
      case Some(cfs) => DefaultFieldsInCustomForm(setting, order, tpa, enterprise, cfs, typeMap, name);
    }
  }

  /** Filtering keeps a sequence free of repeats. */
  lemma {:induction false} IncludedFieldsDistinct(setting: map<string, string>, names: seq<string>)
    requires Distinct(names)
    ensures Distinct(IncludedFields(setting, names))
    decreases |names|
  {
    if names != [] {
      var init := names[..|names| - 1];
      var last := names[|names| - 1];
      assert Distinct(init);
      IncludedFieldsDistinct(setting, init);
      IncludedFieldsMembership(setting, init, last);
      assert last !in init;
    }
  }

  /**
   * Without an extension form and with a field order that is a permutation of
   * the valid fields, no name appears twice in the form.
   */
  lemma FormNamesDistinct(
    setting: map<string, string>, order: seq<string>, tpa: ThirdPartyAuth, enterprise: bool, typeMap: map<string, string>)
    requires AsSet(order) == AsSet(ValidFields) && Distinct(order)
    ensures Distinct(Names(RegistrationForm(setting, order, tpa, enterprise, None, typeMap).value))
  {
    FormWithoutCustomFormNames(setting, order, tpa, enterprise, typeMap);
    IncludedFieldsDistinct(setting, order);
    var included := IncludedFields(setting, order);
    MarkerNotValidField();
    assert "social_auth_provider" !in included by {
      IncludedFieldsMembership(setting, order, "social_auth_provider");
      assert "social_auth_provider" !in AsSet(order);
    }
  }

  /** Filtering `names` followed by one more name. */
  lemma IncludedFieldsSnoc(setting: map<string, string>, names: seq<string>, x: string)
    ensures IncludedFields(setting, names + [x]) ==
      IncludedFields(setting, names) + if Included(setting, x) then [x] else []
  {
    var order := names + [x];
    assert order[..|order| - 1] == names;
  }

  /** An included name listed again at the end of `names` is emitted twice. */
  lemma RepeatedIncludedName(setting: map<string, string>, names: seq<string>, x: string)
    requires x in names && Included(setting, x)
    ensures var included := IncludedFields(setting, names + [x]);
      exists i, j :: 0 <= i < j < |included| && included[i] == x && included[j] == x
  {
    var before := IncludedFields(setting, names);
    var included := IncludedFields(setting, names + [x]);
    IncludedFieldsSnoc(setting, names, x);
    assert included == before + [x];
    IncludedFieldsMembership(setting, names, x);
    var i :| 0 <= i < |before| && before[i] == x;
    AppendedAt(before, [x], 0);
    assert included[i] == x && included[|before|] == x;
  }

  /**
   * The source's set comparison keeps an order that lists "email" twice, and
   * the form built from it then holds the email field twice.
   */
  lemma RepeatedNameEmittedTwice(setting: map<string, string>, enterprise: bool, typeMap: map<string, string>)
    ensures var config := Config(map[], Some(map[]), ValidFields + ["email"], []);
      var tpa := ThirdPartyAuth(false, false, None);
      var names := Names(RegistrationForm(setting, FieldOrder(config), tpa, enterprise, None, typeMap).value);
      exists i, j :: 0 <= i < j < |names| && names[i] == "email" && names[j] == "email"
  {
    var tpa := ThirdPartyAuth(false, false, None);
    RepeatedNameOrderKept();
    var order := ValidFields + ["email"];
    FormWithoutCustomFormNames(setting, order, tpa, enterprise, typeMap);
    assert Names(SocialAuthFields(tpa)) == [];
    assert "email" in ValidFields;
    RepeatedIncludedName(setting, ValidFields, "email");
  }

  /** With the repeat check, the form built from the stored order names no field twice whatever the configuration. */
  lemma CheckedOrderFormDistinct(
    config: Config, setting: map<string, string>, tpa: ThirdPartyAuth, enterprise: bool, typeMap: map<string, string>)
    ensures Distinct(Names(RegistrationForm(setting, CheckedFieldOrder(config), tpa, enterprise, None, typeMap).value))
  {
    FormNamesDistinct(setting, CheckedFieldOrder(config), tpa, enterprise, typeMap);
  }

  /** The four runs of fields a form built with an extension form is made of. */
  lemma CustomFormParts(
    setting: map<string, string>, order: seq<string>, tpa: ThirdPartyAuth, enterprise: bool,
    cfs: seq<CustomField>, typeMap: map<string, string>)
    requires RegistrationForm(setting, order, tpa, enterprise, Some(cfs), typeMap).Success?
    ensures var overrides := TpaOverrides(tpa, enterprise);
      var final := UpperCaseCountryDefault(overrides);
      RegistrationForm(setting, order, tpa, enterprise, Some(cfs), typeMap).value ==
        SocialAuthFields(tpa) + HandledFields(final, setting, DefaultFields) + CustomFormFields(overrides, cfs, typeMap)
        + HandledFields(final, setting, IncludedFields(setting, ExtraFields))
  {
  }

  /** An extension field is required as it declares, except one named "password" under an active provider. */
  lemma CustomFormFieldRequired(tpa: ThirdPartyAuth, enterprise: bool, cf: CustomField, typeMap: map<string, string>)
    ensures CustomFormField(TpaOverrides(tpa, enterprise), cf, typeMap).required ==
      if CurrentProvider(tpa).Some? && cf.name == "password" then false else cf.required
  {
    var o := OverrideOf(TpaOverrides(tpa, enterprise), cf.name);
    if CurrentProvider(tpa).Some? && cf.name != "password" && o != NoOverride {
      assert cf.name in DataOverrides(CurrentProvider(tpa).value, enterprise, ValidFields);
    }
  }

  /**
   * With an extension form that succeeds, the k-th default field follows the
   * marker field and is required, except the password under an active provider.
   */
  lemma CustomFormDefaultRequired(
    setting: map<string, string>, order: seq<string>, tpa: ThirdPartyAuth, enterprise: bool,
    cfs: seq<CustomField>, typeMap: map<string, string>, k: nat)
    requires RegistrationForm(setting, order, tpa, enterprise, Some(cfs), typeMap).Success?
    requires k < |DefaultFields|
    ensures var form := RegistrationForm(setting, order, tpa, enterprise, Some(cfs), typeMap).value;
      var at := |SocialAuthFields(tpa)| + k;
      at < |form| && form[at].name == DefaultFields[k] &&
      form[at].required == !(CurrentProvider(tpa).Some? && DefaultFields[k] == "password")
  {
    var form := RegistrationForm(setting, order, tpa, enterprise, Some(cfs), typeMap).value;
    var head := SocialAuthFields(tpa);
    var defaults := HandledFields(FormOverrides(tpa, enterprise), setting, DefaultFields);
    CustomFormParts(setting, order, tpa, enterprise, cfs, typeMap);
    assert form[|head| + k] == defaults[k];
    HandledFieldRequired(tpa, enterprise, setting, DefaultFields[k]);
  }

  /**
   * With an extension form that succeeds, the j-th extension field follows
   * the default fields and is required as it declares, except one named
   * "password" under an active provider.
   */
  lemma CustomFormExtensionRequired(
    setting: map<string, string>, order: seq<string>, tpa: ThirdPartyAuth, enterprise: bool,
    cfs: seq<CustomField>, typeMap: map<string, string>, j: nat)
    requires RegistrationForm(setting, order, tpa, enterprise, Some(cfs), typeMap).Success?
    requires j < |cfs|
    ensures var form := RegistrationForm(setting, order, tpa, enterprise, Some(cfs), typeMap).value;
      var at := |SocialAuthFields(tpa)| + |DefaultFields| + j;
      at < |form| && form[at].name == cfs[j].name &&
      form[at].required == if CurrentProvider(tpa).Some? && cfs[j].name == "password" then false else cfs[j].required
  {
    var form := RegistrationForm(setting, order, tpa, enterprise, Some(cfs), typeMap).value;
    var head := SocialAuthFields(tpa) + HandledFields(FormOverrides(tpa, enterprise), setting, DefaultFields);
    var custom := CustomFormFields(TpaOverrides(tpa, enterprise), cfs, typeMap);
    CustomFormParts(setting, order, tpa, enterprise, cfs, typeMap);
    assert form[|head| + j] == custom[j];
    CustomFormFieldRequired(tpa, enterprise, cfs[j], typeMap);
  }

  /**
   * With an extension form that succeeds, the k-th visible extra field comes
   * after the extension fields and is required iff its setting is "required".
   */
  lemma CustomFormExtraRequired(
    setting: map<string, string>, order: seq<string>, tpa: ThirdPartyAuth, enterprise: bool,
    cfs: seq<CustomField>, typeMap: map<string, string>, form: seq<Field>, k: nat)
    requires RegistrationForm(setting, order, tpa, enterprise, Some(cfs), typeMap) == Success(form)
    requires k < |IncludedFields(setting, ExtraFields)|
    ensures var extras := IncludedFields(setting, ExtraFields);
      var at := |SocialAuthFields(tpa)| + |DefaultFields| + |cfs| + k;
      at < |form| && form[at].name == extras[k] &&
      form[at].required == IsFieldRequired(setting, extras[k])
  {
    var extras := IncludedFields(setting, ExtraFields);
    CustomFormExtraField(setting, order, tpa, enterprise, cfs, typeMap, form, k);
    ExtraHandledFieldRequired(tpa, enterprise, setting, extras, k);
  }

  /** Where the k-th visible extra field sits in a successful form with an extension form. */
  lemma CustomFormExtraField(
    setting: map<string, string>, order: seq<string>, tpa: ThirdPartyAuth, enterprise: bool,
    cfs: seq<CustomField>, typeMap: map<string, string>, form: seq<Field>, k: nat)
    requires RegistrationForm(setting, order, tpa, enterprise, Some(cfs), typeMap) == Success(form)
    requires k < |IncludedFields(setting, ExtraFields)|
    ensures var extras := IncludedFields(setting, ExtraFields);
      var at := |SocialAuthFields(tpa)| + |DefaultFields| + |cfs| + k;
      at < |form| && form[at] == HandledField(FormOverrides(tpa, enterprise), setting, extras[k])
  {
    var head := SocialAuthFields(tpa) + HandledFields(FormOverrides(tpa, enterprise), setting, DefaultFields)
      + CustomFormFields(TpaOverrides(tpa, enterprise), cfs, typeMap);
    var tail := HandledFields(FormOverrides(tpa, enterprise), setting, IncludedFields(setting, ExtraFields));
    assert form == head + tail by {
      CustomFormParts(setting, order, tpa, enterprise, cfs, typeMap);
    }
    AppendedAt(head, tail, k);
  }

  /** A visible extra field is added as required iff its setting is "required". */
  lemma ExtraHandledFieldRequired(
    tpa: ThirdPartyAuth, enterprise: bool, setting: map<string, string>, extras: seq<string>, k: nat)
    requires extras == IncludedFields(setting, ExtraFields) && k < |extras|
    ensures HandledField(FormOverrides(tpa, enterprise), setting, extras[k]).name == extras[k]
    ensures HandledField(FormOverrides(tpa, enterprise), setting, extras[k]).required == IsFieldRequired(setting, extras[k])
  {
    assert extras[k] !in DefaultFields by {
      assert extras[k] in ExtraFields;
      ValidFieldsDistinct();
    }
    HandledFieldRequired(tpa, enterprise, setting, extras[k]);
  }

  lemma AppendedAt<T>(head: seq<T>, tail: seq<T>, k: nat)
    requires k < |tail|
    ensures |head| + k < |head + tail| && (head + tail)[|head| + k] == tail[k]
  {
  }

}
