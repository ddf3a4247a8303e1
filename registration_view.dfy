/**
 * RegistrationView: the object the constructor configures, and the get and
 * post operations that read that configuration.
 */
module RegistrationViews {
  import opened Wrappers
  import opened FormDescriptions
  import opened RegistrationConfig
  import opened RegistrationForms
  import opened RegistrationSubmission

  /** The AttributeError a settings map that is None raises when honor_code is looked up in it. */
  const MissingSettingMessage := "'NoneType' object has no attribute 'get'"

  const ImproperlyConfiguredMessage :=
    "Setting REGISTRATION_EXTRA_FIELDS values must be either required, optional, or hidden."

  class RegistrationView {
    var extraFieldsSetting: map<string, string>
    var fieldHandlers: map<string, FieldSpec>
    var fieldOrder: seq<string>

    /**
     * What construction guarantees: a checked visibility map, a handler per
     * valid field, an order that names exactly the valid fields (possibly
     * one of them more than once, as the source's set comparison allows).
     */
    ghost predicate Valid()
      reads this
    {
      && SettingValid(extraFieldsSetting)
      && "honor_code" in extraFieldsSetting
      && fieldHandlers == HandlerTable()
      && AsSet(fieldOrder) == AsSet(ValidFields)
    }

    /** Every name of `names` has its own handler. */
    ghost predicate Handles(names: seq<string>)
      reads this
    {
      forall name :: name in names ==> name in fieldHandlers && fieldHandlers[name] == HandlerSpec(name)
    }

    /** A valid view has a handler for each name of the field order, of DEFAULT_FIELDS and of EXTRA_FIELDS. */
    lemma ValidHandles()
      requires Valid()
      ensures Handles(fieldOrder) && Handles(DefaultFields) && Handles(ExtraFields)
    {
      forall name | name in fieldOrder
        ensures name in fieldHandlers && fieldHandlers[name] == HandlerSpec(name)
      {
        assert name in AsSet(fieldOrder);
        HandlerTableAt(name);
      }
      forall name | name in DefaultFields || name in ExtraFields
        ensures name in fieldHandlers && fieldHandlers[name] == HandlerSpec(name)
      {
        assert name in ValidFields;
        HandlerTableAt(name);
      }
    }

    /** A valid view whose field order repeats no name builds a form without an extension form that names no field twice. */
    lemma ValidFormDistinct(tpa: ThirdPartyAuth, enterprise: bool, typeMap: map<string, string>)
      requires Valid() && Distinct(fieldOrder)
      ensures Distinct(Names(RegistrationForm(extraFieldsSetting, fieldOrder, tpa, enterprise, None, typeMap).value))
    {
      FormNamesDistinct(extraFieldsSetting, fieldOrder, tpa, enterprise, typeMap);
    }

    /** __init__ once the visibility map has been resolved and checked. */
    constructor (setting: map<string, string>, config: Config)
      ensures extraFieldsSetting == setting
      ensures fieldHandlers == HandlerTable()
      ensures fieldOrder == FieldOrder(config)
    {
      extraFieldsSetting := setting;
      fieldHandlers := map[];
      fieldOrder := [];
      new;
      assert HandlerMap([]) == map[];
      var validFields := ValidFields;
      var i := 0;
      while i < |validFields|
        invariant 0 <= i <= |validFields|
        invariant fieldHandlers == HandlerMap(validFields[..i])
        invariant extraFieldsSetting == setting
      {
        HandlerMapStep(validFields, i);
        fieldHandlers := fieldHandlers[validFields[i] := HandlerSpec(validFields[i])];
        i := i + 1;
      }
      assert validFields[..i] == validFields;
      fieldOrder := FieldOrder(config);
    }

    /**
     * __init__: resolve the visibility map (honor_code "required" unless
     * given), fail on a settings map that is None, reject a map with a value
     * outside the three settings, then build the handlers and the field order.
     */
    static method Create(config: Config) returns (r: Result<RegistrationView, string>)
      ensures r.Failure? <==> ExtraFieldsSetting(config).None? || !SettingValid(ExtraFieldsSetting(config).value)
      ensures r.Failure? && ExtraFieldsSetting(config).None? ==> r.error == MissingSettingMessage
      ensures r.Failure? && ExtraFieldsSetting(config).Some? ==> r.error == ImproperlyConfiguredMessage
      ensures r.Success? ==> fresh(r.value) && r.value.Valid()
      ensures r.Success? ==> Some(r.value.extraFieldsSetting) == ExtraFieldsSetting(config)
      ensures r.Success? ==> r.value.fieldOrder == FieldOrder(config)
    {
      var chosen := Some(config.siteExtraFields);
      if |config.siteExtraFields| == 0 {
        chosen := config.settingsExtraFields;
      }
      if chosen.None? {
        return Failure(MissingSettingMessage);
      }
      var setting := chosen.value;
      setting := setting["honor_code" := Lookup(setting, "honor_code").GetOr("required")];
      var ok := CheckExtraFieldsSetting(setting);
      if !ok {
        return Failure(ImproperlyConfiguredMessage);
      }
      var view := new RegistrationView(setting, config);
      return Success(view);
    }

    /** Run the handler of `name`: the country handler first upper-cases an overridden default. */
    method AddHandledField(form: FormDescription, name: string, required: bool)
      requires name in fieldHandlers && fieldHandlers[name] == HandlerSpec(name)
      modifies form
      ensures form.fieldOverrides == HandlerOverrides(old(form.fieldOverrides), name)
      ensures form.fields == old(form.fields) +
        [Apply(HandlerField(name, required), OverrideOf(HandlerOverrides(old(form.fieldOverrides), name), name))]
    {
      var spec := fieldHandlers[name];
      if name == "country" {
        var defaultCountry := form.OverrideDefault("country");
        if defaultCountry.Some? && defaultCountry.value != "" {
          form.OverrideFieldProperties("country", Override(None, Some(Ascii.Upper(defaultCountry.value)), None));
        }
      }
      form.AddField(name, spec.fieldType, spec.default, required);
    }

    /** _apply_third_party_auth_overrides: register the provider's overrides and add its marker field. */
    method ApplyThirdPartyAuthOverrides(form: FormDescription, tpa: ThirdPartyAuth, enterprise: bool)
      modifies form
      ensures form.fieldOverrides == MergeAll(old(form.fieldOverrides), TpaOverrides(tpa, enterprise))
      ensures form.fields == old(form.fields) +
        if CurrentProvider(tpa).Some?
        then [Apply(SocialAuthField(CurrentProvider(tpa).value), OverrideOf(old(form.fieldOverrides), "social_auth_provider"))]
        else []
    {
      if tpa.enabled && tpa.runningPipeline && tpa.provider.Some? {
        var p := tpa.provider.value;
        ValidFieldsDistinct();
        RegisterProviderData(form, p, enterprise, ValidFields);
        PasswordOverrideStep(p, enterprise, old(form.fieldOverrides));
        form.OverrideFieldProperties("password", PasswordOverride);
        assert CurrentProvider(tpa) == Some(p);
        ghost var overrides := form.fieldOverrides;
        assert overrides == MergeAll(old(form.fieldOverrides), TpaOverrides(tpa, enterprise));
        form.AddField("social_auth_provider", "hidden", Text(if p.name != "" then p.name else "Third Party"), false);
        assert form.fields == old(form.fields) + [Apply(SocialAuthField(p), OverrideOf(overrides, "social_auth_provider"))];
      } else {
        MergeAllSelf(form.fieldOverrides);
      }
    }

    /**
     * The loop of _apply_third_party_auth_overrides over `names` (the valid
     * fields at the call): the provider's value for each name it sent, and the
     * hidden type in the skip-form enterprise case.
     */
    method RegisterProviderData(form: FormDescription, p: Provider, enterprise: bool, names: seq<string>)
      requires Distinct(names)
      modifies form
      ensures form.fieldOverrides == MergeAll(old(form.fieldOverrides), DataOverrides(p, enterprise, names))
      ensures form.fields == old(form.fields)
    {
      var data := p.registerFormData;
      var hidesFields := p.skipRegistrationForm && enterprise;
      var i := 0;
      while i < |names|
        invariant 0 <= i <= |names|
        invariant form.fieldOverrides == MergeAll(old(form.fieldOverrides), DataOverrides(p, enterprise, names[..i]))
        invariant form.fields == old(form.fields)
      {
        var name := names[i];
        ghost var current := form.fieldOverrides;
        DistinctNotRepeated(names, i);
        RegisterProviderValueStep(p, enterprise, names, i, old(form.fieldOverrides));
        if name in data {
          form.OverrideFieldProperties(name, Override(None, Some(data[name]), None));
          if name != "terms_of_service" && name != "honor_code" && data[name] != "" && hidesFields {
            form.OverrideFieldProperties(name, Override(Some("hidden"), None, None));
          }
        }
        assert form.fieldOverrides == RegisterProviderValue(current, p, enterprise, name);
        i := i + 1;
      }
      assert names[..i] == names;
    }

    /** get: the registration form's fields, or the extension field whose type is not recognised. */
    method Get(tpa: ThirdPartyAuth, enterprise: bool, customForm: Option<seq<CustomField>>, typeMap: map<string, string>)
      returns (r: Result<seq<Field>, FormError>)
      requires Valid()
      ensures r == RegistrationForm(extraFieldsSetting, fieldOrder, tpa, enterprise, customForm, typeMap)
    {
      var form := new FormDescription();
      ApplyThirdPartyAuthOverrides(form, tpa, enterprise);
      ghost var overrides := TpaOverrides(tpa, enterprise);
      MergeAllEmpty(overrides);
      ValidHandles();
      assert form.fields == SocialAuthFields(tpa);
      if customForm.Some? {
        var cfs := customForm.value;
        AddDefaultFields(form, overrides);
        var error := AddExtensionFields(form, cfs, typeMap, overrides);
        if error.Some? {
          return Failure(error.value);
        }
        ValidFieldsDistinct();
        AddVisibleExtraFields(form, ExtraFields, overrides);
      } else {
        AddOrderedFields(form, overrides);
      }
      r := Success(form.fields);
    }

    /** The extension-form branch, first loop: every default field, required. */
    method AddDefaultFields(form: FormDescription, ghost overrides: map<string, Override>)
      requires Handles(DefaultFields) && form.fieldOverrides == overrides
      modifies form
      ensures form.fieldOverrides == overrides
      ensures form.fields == old(form.fields) + HandledFields(UpperCaseCountryDefault(overrides), extraFieldsSetting, DefaultFields)
    {
      ghost var final := UpperCaseCountryDefault(overrides);
      var defaultFields := DefaultFields;
      var i := 0;
      while i < |defaultFields|
        invariant 0 <= i <= |defaultFields|
        invariant form.fieldOverrides == overrides
        invariant form.fields == old(form.fields) + HandledFields(final, extraFieldsSetting, defaultFields[..i])
      {
        var name := defaultFields[i];
        HandlerStep(overrides, extraFieldsSetting, form.fieldOverrides, name, true);
        assert defaultFields[..i + 1] == defaultFields[..i] + [name];
        HandledFieldsAppend(final, extraFieldsSetting, defaultFields[..i], [name]);
        AddHandledField(form, name, true);
        i := i + 1;
      }
      assert defaultFields[..i] == defaultFields;
    }

    /** The extension-form branch, second loop: each extension field, or the first one with no recognised type. */
    method AddExtensionFields(form: FormDescription, cfs: seq<CustomField>, typeMap: map<string, string>,
                              ghost overrides: map<string, Override>)
      returns (error: Option<FormError>)
      requires form.fieldOverrides == overrides
      modifies form
      ensures form.fieldOverrides == overrides
      ensures error.Some? <==> FirstUnrecognized(cfs, typeMap, 0).Some?
      ensures error.Some? ==> error.value == UnrecognizedFieldType(cfs[FirstUnrecognized(cfs, typeMap, 0).value].name)
      ensures error.None? ==> form.fields == old(form.fields) + CustomFormFields(overrides, cfs, typeMap)
    {
      var j := 0;
      while j < |cfs|
        invariant 0 <= j <= |cfs|
        invariant form.fieldOverrides == overrides
        invariant forall k :: 0 <= k < j ==> CustomFieldType(cfs[k], typeMap).Some?
        invariant form.fields == old(form.fields) + CustomFormFields(overrides, cfs[..j], typeMap)
      {
        var cf := cfs[j];
        var fieldType := CustomFieldType(cf, typeMap);
        if fieldType.None? {
          FirstUnrecognizedAt(cfs, typeMap, j);
          return Some(UnrecognizedFieldType(cf.name));
        }
        CustomFormFieldsStep(overrides, cfs, typeMap, j);
        form.AddField(cf.name, fieldType.value, cf.optionDefault.GetOr(Null), cf.required);
        j := j + 1;
      }
      assert cfs[..j] == cfs;
      return None;
    }

    /**
     * The extension-form branch, third loop: the visible fields among
     * `extraFields` (EXTRA_FIELDS at the call) in declaration order.
     */
    method AddVisibleExtraFields(form: FormDescription, extraFields: seq<string>, ghost overrides: map<string, Override>)
      requires Handles(extraFields)
      requires forall name :: name in extraFields ==> name !in DefaultFields
      requires form.fieldOverrides == overrides || form.fieldOverrides == UpperCaseCountryDefault(overrides)
      modifies form
      ensures form.fieldOverrides == overrides || form.fieldOverrides == UpperCaseCountryDefault(overrides)
      ensures form.fields == old(form.fields) +
        HandledFields(UpperCaseCountryDefault(overrides), extraFieldsSetting, IncludedFields(extraFieldsSetting, extraFields))
    {
      ghost var final := UpperCaseCountryDefault(overrides);
      var setting := extraFieldsSetting;
      var k := 0;
      while k < |extraFields|
        invariant 0 <= k <= |extraFields|
        invariant form.fieldOverrides == overrides || form.fieldOverrides == final
        invariant form.fields == old(form.fields) + HandledFields(final, setting, IncludedFields(setting, extraFields[..k]))
      {
        var name := extraFields[k];
        assert name in extraFields;
        assert Included(setting, name) == IsFieldVisible(setting, name);
        HandledIncludedStep(final, setting, extraFields, k);
        ghost var done := HandledFields(final, setting, IncludedFields(setting, extraFields[..k]));
        if IsFieldVisible(setting, name) {
          HandlerStep(overrides, setting, form.fieldOverrides, name, IsFieldRequired(setting, name));
          AddHandledField(form, name, IsFieldRequired(setting, name));
          assert form.fields == old(form.fields) + (done + [HandledField(final, setting, name)]);
        } else {
          assert form.fields == old(form.fields) + (done + []);
        }
        k := k + 1;
      }
      assert extraFields[..k] == extraFields;
    }

    /** The branch without an extension form: the field order's default and visible extra fields. */
    method AddOrderedFields(form: FormDescription, ghost overrides: map<string, Override>)
      requires Handles(fieldOrder)
      requires form.fieldOverrides == overrides || form.fieldOverrides == UpperCaseCountryDefault(overrides)
      modifies form
      ensures form.fieldOverrides == overrides || form.fieldOverrides == UpperCaseCountryDefault(overrides)
      ensures form.fields == old(form.fields) +
        HandledFields(UpperCaseCountryDefault(overrides), extraFieldsSetting, IncludedFields(extraFieldsSetting, fieldOrder))
    {
      ghost var final := UpperCaseCountryDefault(overrides);
      var setting := extraFieldsSetting;
      var order := fieldOrder;
      var i := 0;
      while i < |order|
        invariant 0 <= i <= |order|
        invariant form.fieldOverrides == overrides || form.fieldOverrides == final
        invariant form.fields == old(form.fields) + HandledFields(final, setting, IncludedFields(setting, order[..i]))
      {
        var name := order[i];
        HandledIncludedStep(final, setting, order, i);
        ghost var done := HandledFields(final, setting, IncludedFields(setting, order[..i]));
        if name in DefaultFields || IsFieldVisible(setting, name) {
          // a default field is added as required, a visible extra field as its setting says
          var required := if name in DefaultFields then true else IsFieldRequired(setting, name);
          HandlerStep(overrides, setting, form.fieldOverrides, name, required);
          AddHandledField(form, name, required);
          assert form.fields == old(form.fields) + (done + [HandledField(final, setting, name)]);
        } else {
          assert form.fields == old(form.fields) + (done + []);
        }
        i := i + 1;
      }
      assert order[..i] == order;
    }

    /**
     * post: a non-empty conflict list answers 409 with one entry per
     * conflicting field and submits nothing; otherwise the shimmed data is
     * submitted and the creation outcome decides the response.
     */
    method Post(data: map<string, string>, conflicts: seq<ConflictField>, creation: CreationOutcome)
      returns (response: Response, submitted: Option<map<string, string>>)
      ensures |conflicts| > 0 ==> submitted.None? && response == Errors(409, ConflictErrors(data, conflicts))
      ensures |conflicts| == 0 ==> submitted == Some(ShimHonorCode(data)) && response == CreationResponse(creation)
    {
      var copy := data;
      if |conflicts| > 0 {
        var errors := map c | c in conflicts :: c.Name() := [ConflictMessage(c, copy)];
        assert errors == ConflictErrors(data, conflicts);
        return Errors(409, errors), None;
      }
      if Truthy(Lookup(copy, "honor_code")) && "terms_of_service" !in copy {
        copy := copy["terms_of_service" := copy["honor_code"]];
      }
      assert copy == ShimHonorCode(data);
      submitted := Some(copy);
      match creation
      case AccountCreated =>
        response := Succeeded;
      case AccountValidationError(field, message) =>
        response := Errors(409, map[field := [Message(message)]]);
      case ValidationError(messageDict) =>
        if NonFieldErrors in messageDict {
          response := ServerError;
        } else {
          response := Errors(400, map field | field in messageDict :: ValidationMessages(messageDict[field]));
        }
      case PermissionDenied =>
        response := Forbidden(AccountCreationNotAllowed);
    }
  }

  lemma MergeAllSelf(overrides: map<string, Override>)
    ensures MergeAll(overrides, map[]) == overrides
  {
    var r := MergeAll(overrides, map[]);
    forall name | name in overrides ensures r[name] == overrides[name] {
      assert OverrideOf(r, name) == Merge(OverrideOf(overrides, name), NoOverride);
    }
  }
}
