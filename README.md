# Registration form composition (edx-platform user API)

This project models how edx-platform's `RegistrationView` builds and serves
the registration form, in `openedx/core/djangoapps/user_api/views.py`. It
also models the boolean parse in `UpdateEmailOptInPreference.post`.

- **Construction.** The constructor resolves the extra-field visibility map.
  The site's `REGISTRATION_EXTRA_FIELDS` is used, else the settings' one (a
  settings value of None fails), and `honor_code` defaults to `"required"`.
  The map is rejected (ImproperlyConfigured)
  when an extra field's setting is not `required`, `optional` or `hidden`. The
  constructor then builds one handler per valid field and picks the field
  order: the configured one when it names exactly the valid fields, else the
  declaration order. The source compares sets here, so an order that repeats
  a name passes, and the view stores it as the source does. A corrected order
  that also rejects repeats is modelled beside it; see "## Findings".
- **`get` and the form description.** `get` builds a form description, a
  list of fields plus a dictionary of per-name overrides. An override is merged
  into a field when the field is added, so a later override never changes a
  field that is already there.
  - **Third-party authentication runs first.** When a provider is active, its
    register-form data become defaults, but only for names in
    `DEFAULT_FIELDS + EXTRA_FIELDS`. A value for any other name, such as an
    extension-form field's, is ignored. In the skip-form enterprise case, a
    field with a non-empty value is hidden, except the two terms checkboxes.
    The password becomes hidden, optional and empty, and a hidden
    `social_auth_provider` marker field is added.
  - **Without an extension form**, the field order's default fields are added
    as required and its visible extra fields as their setting says.
  - **With an extension form**, the default fields come first, then the
    extension fields (the first one with no recognised type is an error),
    then the visible extra fields in declaration order.
  - **Country.** An overridden country default is upper-cased when the
    country handler runs.
- **`post`.**
  - A taken email or username gives a 409 with one message per conflict.
  - Otherwise the honor-code shim copies `honor_code` into a missing
    `terms_of_service`.
  - The outcome of account creation is mapped to a response (200, 409, 400
    or 403).

Modules:

- `Wrappers`: `Option` and `Result`.
- `Ascii`: case mapping.
- `FormDescriptions`: fields and overrides as values. Also the
  `FormDescription` class, whose `AddField` and `OverrideFieldProperties`
  change its two fields in place.
- `RegistrationConfig`: the constructor's settings logic.
- `RegistrationForms`: the pure description of what `get` emits, and the
  properties proved about it.
- `RegistrationSubmission`: the value rules of `post`.
- `RegistrationViews`: the `RegistrationView` class.
  - Its methods `Get` and `Post` do the work step by step, as the source
    does.
  - Each method is proved equal to the pure description.
  - The four loops of `get` are the methods `AddDefaultFields`,
    `AddExtensionFields`, `AddVisibleExtraFields` and `AddOrderedFields`.
  - The loop of `_apply_third_party_auth_overrides` is `RegisterProviderData`.
- `EmailOptIn`: the course check and the opt-in flag.

Collaborators are inputs of the model:

- Third-party auth: whether it is enabled, the running pipeline, the provider
  with its register-form data, and the enterprise context.
- The extension form, as a sequence of `CustomField`s, and
  `FormDescription.FIELD_TYPE_MAP`.
- `check_account_exists`, as a sequence of conflicts.
- `create_account_with_params`, as a `CreationOutcome`.
- The course-key parser, as an optional organisation.

## Model

| member | source | states |
|---|---|---|
| Ascii.Upper | openedx/core/djangoapps/user_api/views.py:808 | same length; each lower-case ASCII letter becomes its capital, every other character is kept |
| Ascii.Lower | openedx/core/djangoapps/user_api/views.py:1142 | same length; each capital ASCII letter becomes lower case, every other character is kept |
| Ascii.UpperIdempotent | openedx/core/djangoapps/user_api/views.py:805-810 | upper-casing twice is upper-casing once, and only the empty string upper-cases to the empty string |
| FormDescriptions.Merge | openedx/core/djangoapps/user_api/views.py:957-981 | a property set by the later update wins; one the later update leaves unset keeps its earlier value; the type is unset only if both leave it unset |
| FormDescriptions.Apply | openedx/core/djangoapps/user_api/views.py:983-989 | a field added under an override keeps its name; it takes each property the override sets and keeps the rest |
| FormDescriptions.MergeAll | openedx/core/djangoapps/user_api/views.py:955-981 | the merged overrides hold the names of both maps; for each name, the later map's properties win |
| FormDescriptions.MergeAllEmpty | openedx/core/djangoapps/user_api/views.py:248-249 | overrides registered on a new form description are exactly the registered ones |
| FormDescriptions.MergeAllUpdate | openedx/core/djangoapps/user_api/views.py:957-970 | registering one more override for a name changes the merged overrides at that name only |
| FormDescriptions.FormDescription.constructor | openedx/core/djangoapps/user_api/views.py:248 | a new description has no fields and no registered overrides |
| FormDescriptions.FormDescription.AddField | openedx/core/djangoapps/user_api/views.py:983-989 | the field is appended with the overrides registered for its name applied; the overrides are unchanged |
| FormDescriptions.FormDescription.OverrideFieldProperties | openedx/core/djangoapps/user_api/views.py:957-981 | only the named override changes, merged with the new properties; the fields are unchanged |
| FormDescriptions.FormDescription.OverrideDefault | openedx/core/djangoapps/user_api/views.py:805 | the default registered for the name, None when no override or no default is registered |
| RegistrationConfig.IsFieldVisible | openedx/core/djangoapps/user_api/views.py:185-187 | visible iff the field has a setting and it is "required" or "optional" |
| RegistrationConfig.IsFieldRequired | openedx/core/djangoapps/user_api/views.py:189-191 | required iff the setting is "required"; a required field is visible |
| RegistrationConfig.BaseExtraFields | openedx/core/djangoapps/user_api/views.py:198-200 | the site map when it is non-empty, otherwise the settings map, which may be None |
| RegistrationConfig.ExtraFieldsSetting | openedx/core/djangoapps/user_api/views.py:198-201 | None exactly when the site map is empty and the settings map is None; otherwise honor_code is present, as given or else "required", and every other entry is that of the site map when it is non-empty, else that of the settings map |
| RegistrationConfig.SettingValid | openedx/core/djangoapps/user_api/views.py:203-207 | valid iff every extra field's setting, read as "hidden" when missing, is "required", "optional" or "hidden" |
| RegistrationConfig.CheckExtraFieldsSetting | openedx/core/djangoapps/user_api/views.py:203-207 | accepts iff every extra field's setting, with a missing one read as "hidden", is one of the three values |
| RegistrationConfig.InvalidSettingRejected | openedx/core/djangoapps/user_api/views.py:204-207 | any extra field with a value outside the three makes the map invalid |
| RegistrationConfig.MissingEntryAccepted | openedx/core/djangoapps/user_api/views.py:205 | removing an entry never makes a valid map invalid, because a missing entry reads as "hidden" |
| RegistrationConfig.NonExtraEntriesIgnored | openedx/core/djangoapps/user_api/views.py:204 | entries for names that are not extra fields do not affect validity |
| RegistrationConfig.ValidFieldsDistinct | openedx/core/djangoapps/user_api/views.py:161-179 | the valid fields repeat no name, and no default field is an extra field |
| RegistrationConfig.MarkerNotValidField | openedx/core/djangoapps/user_api/views.py:983-984 | the marker field's name is not a valid field, so no provider override reaches it |
| RegistrationConfig.ConfiguredFieldOrder | openedx/core/djangoapps/user_api/views.py:216-218 | the site order when non-empty, else the settings order when non-empty, else the valid fields; never empty |
| RegistrationConfig.FieldOrder | openedx/core/djangoapps/user_api/views.py:216-224 | the configured order (site, else settings, else declaration order) is kept iff it names exactly the valid fields; the stored order always names exactly the valid fields |
| RegistrationConfig.FieldOrderPermutation | openedx/core/djangoapps/user_api/views.py:216-224 | if the configured order repeats no name, the stored order is a permutation of the valid fields |
| RegistrationConfig.RepeatedNameOrderKept | openedx/core/djangoapps/user_api/views.py:221-222 | an order that repeats a name passes the set comparison and is not a permutation |
| RegistrationConfig.CheckedFieldOrder | openedx/core/djangoapps/user_api/views.py:220-224 | the configured order is kept iff it names exactly the valid fields and repeats none of them, else the declaration order; the result names exactly the valid fields, each once |
| RegistrationConfig.CheckedFieldOrderPermutation | openedx/core/djangoapps/user_api/views.py:220-224 | the checked order is a permutation of the valid fields for every configuration |
| RegistrationConfig.CheckedFieldOrderAgrees | openedx/core/djangoapps/user_api/views.py:220-224 | for a configured order that repeats no name, the checked order equals the source's order |
| RegistrationForms.HandlerSpec | openedx/core/djangoapps/user_api/views.py:381-916 | no handler adds a hidden field; exactly the two terms fields are checkboxes with default False; every other default is the empty text |
| RegistrationForms.HandlerField | openedx/core/djangoapps/user_api/views.py:381-916 | the field a handler adds before overrides: its name, its handler's type and default, the requested required flag, never hidden |
| RegistrationForms.HandlerTable | openedx/core/djangoapps/user_api/views.py:209-214 | there is one handler per valid field |
| RegistrationForms.HandlerMap | openedx/core/djangoapps/user_api/views.py:211-214 | the handler map's keys are exactly the names it was built from |
| RegistrationForms.HandlerMapStep | openedx/core/djangoapps/user_api/views.py:211-214 | each pass of the constructor's loop adds that name's handler |
| RegistrationForms.HandlerTableAt | openedx/core/djangoapps/user_api/views.py:209-214 | every valid field has its own handler in the table |
| RegistrationForms.OrderedNameHandled | openedx/core/djangoapps/user_api/views.py:296-304 | every name of a stored field order has its handler |
| RegistrationForms.ExtraFieldHandled | openedx/core/djangoapps/user_api/views.py:288-293 | every extra field has its handler and is not a default field |
| RegistrationForms.CurrentProvider | openedx/core/djangoapps/user_api/views.py:938-943 | a provider is active iff third-party auth is enabled, a pipeline is running and it names a provider |
| RegistrationForms.DataOverride | openedx/core/djangoapps/user_api/views.py:955-970 | the provider's value becomes the default; the type becomes "hidden" iff the field is not a terms checkbox, the value is non-empty and the skip-form enterprise case holds |
| RegistrationForms.DataOverrides | openedx/core/djangoapps/user_api/views.py:955-958 | overrides exist exactly for the names the provider sent a value for |
| RegistrationForms.DataOverridesStep | openedx/core/djangoapps/user_api/views.py:955-958 | one more name adds its override iff the provider sent a value for it |
| RegistrationForms.DataOverrideSteps | openedx/core/djangoapps/user_api/views.py:956-970 | the two successive updates for one field merge exactly that field's DataOverride |
| RegistrationForms.RegisterProviderValue | openedx/core/djangoapps/user_api/views.py:955-970 | a name the provider did not send leaves the overrides alone; a sent name merges its DataOverride into its own override; no other name changes |
| RegistrationForms.RegisterProviderValueStep | openedx/core/djangoapps/user_api/views.py:955-970 | each pass of the provider loop merges one more name's DataOverride |
| RegistrationForms.PasswordOverrideStep | openedx/core/djangoapps/user_api/views.py:972-981 | registering the password override last yields the provider's overrides; none of them reaches the marker field |
| RegistrationForms.ProviderOverrides | openedx/core/djangoapps/user_api/views.py:955-981 | the password carries the hidden, optional, empty override; every other override belongs to a valid field the provider sent a value for and is its DataOverride |
| RegistrationForms.TpaOverrides | openedx/core/djangoapps/user_api/views.py:938-981 | no overrides iff no provider is active; overrides only ever name valid fields |
| RegistrationForms.SocialAuthField | openedx/core/djangoapps/user_api/views.py:983-989 | the marker field is hidden and optional; its default is the provider's name, or "Third Party" when that is empty |
| RegistrationForms.SocialAuthFields | openedx/core/djangoapps/user_api/views.py:938-989 | one marker field exactly when a provider is active, none otherwise |
| RegistrationForms.UpperCaseCountryDefault | openedx/core/djangoapps/user_api/views.py:805-810 | a non-empty country default is upper-cased; every other override is unchanged |
| RegistrationForms.UpperCaseCountryDefaultIdempotent | openedx/core/djangoapps/user_api/views.py:805-810 | running the country handler's upper-casing again changes nothing |
| RegistrationForms.HandlerOverrides | openedx/core/djangoapps/user_api/views.py:805-810 | only the country handler changes the overrides, and only the country's override |
| RegistrationForms.FormOverrides | openedx/core/djangoapps/user_api/views.py:805-810 | no overrides without a provider; every override other than the country's is the third-party step's |
| RegistrationForms.HandlerStep | openedx/core/djangoapps/user_api/views.py:805-822 | a handler adds the field the form description prescribes; only the country handler changes the overrides, and only by upper-casing |
| RegistrationForms.HidesFields | openedx/core/djangoapps/user_api/views.py:952-953 | fields are hidden only for a provider that skips the form in an enterprise context, and always in that case |
| RegistrationForms.Included | openedx/core/djangoapps/user_api/views.py:296-299 | a default field is always added; an extra field iff its setting is "required" or "optional"; a name without an entry that is not a default field never |
| RegistrationForms.Required | openedx/core/djangoapps/user_api/views.py:254-304 | a default field is required; an extra field iff its setting is "required"; a required field is always one the form adds |
| RegistrationForms.HandledIncludedStep | openedx/core/djangoapps/user_api/views.py:296-304 | one more name of the order adds its field iff it is a default field or a visible extra field |
| RegistrationForms.HandledFieldsAppend | openedx/core/djangoapps/user_api/views.py:296-304 | handling two runs of names in turn adds their fields in turn |
| RegistrationForms.IncludedFields | openedx/core/djangoapps/user_api/views.py:296-303 | the kept names all come from the given names and are default fields or visible extra fields; IncludedFieldsMembership gives the converse |
| RegistrationForms.HandledField | openedx/core/djangoapps/user_api/views.py:296-303 | the field keeps its name; with no override it is the handler's field; with no required override it is required iff a default field or a "required" setting |
| RegistrationForms.HandledFields | openedx/core/djangoapps/user_api/views.py:296-303 | one handled field per name, in the names' order |
| RegistrationForms.CustomFieldType | openedx/core/djangoapps/user_api/views.py:267-275 | the field_type option when given, else the type map's entry for the field class; no type when that value is empty |
| RegistrationForms.FirstUnrecognized | openedx/core/djangoapps/user_api/views.py:259-275 | the first extension field with no recognised type: every earlier one has a type; None iff all have one |
| RegistrationForms.FirstUnrecognizedAt | openedx/core/djangoapps/user_api/views.py:269-275 | the loop stops at the first extension field it cannot type |
| RegistrationForms.CustomFormField | openedx/core/djangoapps/user_api/views.py:276-284 | the extension field keeps its name; it is required as declared and typed as CustomFieldType says unless an override replaces that property |
| RegistrationForms.CustomFormFields | openedx/core/djangoapps/user_api/views.py:259-286 | one field per extension field, in the form's order, with the overrides of its name applied |
| RegistrationForms.CustomFormFieldsStep | openedx/core/djangoapps/user_api/views.py:259-286 | each pass of the extension loop appends that extension field |
| RegistrationForms.IncludedFieldsMembership | openedx/core/djangoapps/user_api/views.py:296-304 | a name is emitted iff it is in the order and is a default field or a visible extra field |
| RegistrationForms.IncludedExtraFieldsAreVisible | openedx/core/djangoapps/user_api/views.py:288-293 | among the extra fields, exactly the visible ones are added |
| RegistrationForms.IncludedFieldsDistinct | openedx/core/djangoapps/user_api/views.py:296-303 | filtering a sequence that repeats no name yields one that repeats no name |
| RegistrationForms.RegistrationForm | openedx/core/djangoapps/user_api/views.py:248-305 | without an extension form get always succeeds; with one it fails iff some extension field has no type; a successful form starts with the marker field exactly when a provider is active |
| RegistrationForms.FormOverrideOf | openedx/core/djangoapps/user_api/views.py:938-981 | the override a field is added under: none without a provider; the password override for the password; else the provider's DataOverride, with the country value upper-cased |
| RegistrationForms.HandledFieldWithoutProvider | openedx/core/djangoapps/user_api/views.py:938-943 | without an active provider each field is added exactly as its handler builds it |
| RegistrationForms.HandledFieldRequired | openedx/core/djangoapps/user_api/views.py:254-304 | a field is required iff it is a default field or its setting is "required", except the password under a provider, which never is |
| RegistrationForms.PasswordHiddenWithProvider | openedx/core/djangoapps/user_api/views.py:972-981 | under an active provider the password is hidden, optional and empty by default |
| RegistrationForms.HandledFieldHidden | openedx/core/djangoapps/user_api/views.py:955-970 | a non-password field is hidden iff, in the skip-form enterprise case, it is not a terms checkbox and the provider sent a non-empty value for it |
| RegistrationForms.HandledFieldDefault | openedx/core/djangoapps/user_api/views.py:955-960 | the provider's value becomes the field's default, upper-cased for the country |
| RegistrationForms.OrderedFormField | openedx/core/djangoapps/user_api/views.py:294-304 | without an extension form, the field after the marker at position i is the i-th kept name; it is required iff a default field or a "required" setting, except the password under a provider, which is then hidden and empty |
| RegistrationForms.FormWithoutCustomFormNames | openedx/core/djangoapps/user_api/views.py:294-304 | without an extension form get succeeds: the marker field (if any), then the order's default and visible extra fields, in order |
| RegistrationForms.HiddenFieldNeverAppears | openedx/core/djangoapps/user_api/views.py:294-304 | without an extension form an extra field that is not visible is never in the form |
| RegistrationForms.FormNamesDistinct | openedx/core/djangoapps/user_api/views.py:294-304 | for an order that is a permutation of the valid fields, the form without an extension form names no field twice |
| RegistrationForms.CheckedOrderFormDistinct | openedx/core/djangoapps/user_api/views.py:294-304 | with the repeat check on the field order, the form without an extension form names no field twice for every configuration |
| RegistrationForms.IncludedFieldsSnoc | openedx/core/djangoapps/user_api/views.py:296-303 | filtering the names followed by one more name appends that name iff it is a default field or a visible extra field |
| RegistrationForms.RepeatedIncludedName | openedx/core/djangoapps/user_api/views.py:296-303 | a kept name listed again at the end of the order is emitted twice |
| RegistrationForms.RepeatedNameEmittedTwice | openedx/core/djangoapps/user_api/views.py:220-224 | with the source's order check, a configured order listing "email" twice yields a form holding the email field twice |
| RegistrationForms.CustomFormFailure | openedx/core/djangoapps/user_api/views.py:259-275 | with an extension form, get fails iff some extension field has no recognised type, and it names such a field |
| RegistrationForms.CustomFormNames | openedx/core/djangoapps/user_api/views.py:254-293 | otherwise: marker field, default fields, extension fields in order, then the visible extra fields in declaration order |
| RegistrationForms.CustomFormTypesKnown | openedx/core/djangoapps/user_api/views.py:267-286 | every extension field of a successful form has a non-empty type, under any provider overrides |
| RegistrationForms.CustomFormParts | openedx/core/djangoapps/user_api/views.py:254-293 | a successful form with an extension form is the marker, the default fields, the extension fields, then the visible extra fields |
| RegistrationForms.CustomFormFieldRequired | openedx/core/djangoapps/user_api/views.py:276-284 | an extension field is required as it declares, except one named "password" under an active provider |
| RegistrationForms.CustomFormDefaultRequired | openedx/core/djangoapps/user_api/views.py:255-257 | in a successful form with an extension form, the k-th default field follows the marker field and is required, except the password under an active provider |
| RegistrationForms.CustomFormExtensionRequired | openedx/core/djangoapps/user_api/views.py:259-286 | in a successful form with an extension form, the j-th extension field follows the default fields and is required as declared, except one named "password" under an active provider |
| RegistrationForms.CustomFormExtraField | openedx/core/djangoapps/user_api/views.py:288-293 | in a successful form with an extension form, the k-th visible extra field follows the extension fields, added as its handler builds it |
| RegistrationForms.ExtraHandledFieldRequired | openedx/core/djangoapps/user_api/views.py:288-293 | a visible extra field keeps its name and is required iff its setting is "required" |
| RegistrationForms.CustomFormExtraRequired | openedx/core/djangoapps/user_api/views.py:288-293 | in a successful form with an extension form, the k-th visible extra field follows the extension fields and is required iff its setting is "required" |
| RegistrationForms.DefaultFieldsInOrderedForm | openedx/core/djangoapps/user_api/views.py:294-304 | without an extension form and for an order naming every valid field, each default field is in the form |
| RegistrationForms.DefaultFieldsInCustomForm | openedx/core/djangoapps/user_api/views.py:254-257 | with an extension form that succeeds, each default field is in the form |
| RegistrationForms.DefaultFieldsAlwaysPresent | openedx/core/djangoapps/user_api/views.py:254-304 | for a stored field order, every default field is in every form get returns |
| RegistrationSubmission.ConflictField.Name | openedx/core/djangoapps/user_api/views.py:334-341 | a conflict is reported under "email" or "username" |
| RegistrationSubmission.ConflictMessage | openedx/core/djangoapps/user_api/views.py:334-337 | an email conflict carries the submitted email, a username conflict the submitted username, each None when not submitted |
| RegistrationSubmission.ConflictErrors | openedx/core/djangoapps/user_api/views.py:334-342 | the keys are exactly the conflicting fields, each with its single conflict message |
| RegistrationSubmission.ConflictErrorsKeyed | openedx/core/djangoapps/user_api/views.py:334-342 | "email" is a key iff the email conflicts, and it then carries the email conflict message; the same holds for "username"; at most two keys |
| RegistrationSubmission.Truthy | openedx/core/djangoapps/user_api/views.py:351 | a truthy value is present and non-empty; an absent or empty value is falsy |
| RegistrationSubmission.ShimHonorCode | openedx/core/djangoapps/user_api/views.py:351-352 | only terms_of_service can change: it takes a non-empty honor_code value when absent |
| RegistrationSubmission.ShimHonorCodeIdempotent | openedx/core/djangoapps/user_api/views.py:351-352 | the shim applied twice is the shim applied once |
| RegistrationSubmission.ShimHonorCodeFillsTerms | openedx/core/djangoapps/user_api/views.py:351-352 | after the shim a non-empty honor_code implies terms_of_service is present |
| RegistrationSubmission.ValidationMessages | openedx/core/djangoapps/user_api/views.py:365-368 | one user message per validation error, in order |
| RegistrationSubmission.CreationResponse | openedx/core/djangoapps/user_api/views.py:354-375 | success iff created; 409 with the field's message on an account validation error; 400 with every field's messages on a validation error; a server error when a non-field error is present; 403 iff creation is not allowed |
| EmailOptIn.ParseEmailOptIn | openedx/core/djangoapps/user_api/views.py:1141-1142 | opts in iff the value is four characters spelling "true" in any mix of letter cases |
| EmailOptIn.LowerIsTrue | openedx/core/djangoapps/user_api/views.py:1141-1142 | a value lower-cases to "true" iff it is "true" in any mix of letter cases |
| EmailOptIn.ParseEmailOptInExamples | openedx/core/djangoapps/user_api/views.py:1141-1142 | "True", "TRUE" and "true" opt in; "False", "yes", "" and "true " do not |
| EmailOptIn.UpdateEmailOptInPreference | openedx/core/djangoapps/user_api/views.py:1132-1144 | an unparsable course gives the "No course '…' found" message; otherwise the course's organisation with the parsed flag |
| RegistrationViews.RegistrationView.constructor | openedx/core/djangoapps/user_api/views.py:209-224 | stores the visibility map, one handler per valid field and the field order the set comparison keeps |
| RegistrationViews.RegistrationView.Create | openedx/core/djangoapps/user_api/views.py:193-224 | fails with the AttributeError message when the site map is empty and the settings map is None, with the ImproperlyConfigured message when the resolved map is invalid, and only then; otherwise a new valid view with the resolved map and the field order the set comparison keeps |
| RegistrationViews.RegistrationView.ValidHandles | openedx/core/djangoapps/user_api/views.py:209-224 | a valid view has a handler for every name of its order, the default fields and the extra fields |
| RegistrationViews.RegistrationView.ValidFormDistinct | openedx/core/djangoapps/user_api/views.py:294-304 | a valid view whose field order repeats no name builds a form, without an extension form, that names no field twice |
| RegistrationViews.RegistrationView.AddHandledField | openedx/core/djangoapps/user_api/views.py:805-822 | the handler's field is appended under the registered overrides; only the country handler upper-cases its default first |
| RegistrationViews.RegistrationView.ApplyThirdPartyAuthOverrides | openedx/core/djangoapps/user_api/views.py:938-989 | the registered overrides gain exactly the provider's overrides; the marker field is appended iff a provider is active |
| RegistrationViews.RegistrationView.RegisterProviderData | openedx/core/djangoapps/user_api/views.py:955-970 | merges every valid field's DataOverride into the overrides and adds no field |
| RegistrationViews.RegistrationView.Get | openedx/core/djangoapps/user_api/views.py:248-305 | returns exactly RegistrationForm for the view's map and order, so every RegistrationForms property holds of its result |
| RegistrationViews.RegistrationView.AddDefaultFields | openedx/core/djangoapps/user_api/views.py:255-257 | appends the default fields, each required, under the final overrides |
| RegistrationViews.RegistrationView.AddExtensionFields | openedx/core/djangoapps/user_api/views.py:259-286 | returns the first unrecognised extension field's error iff there is one; otherwise appends every extension field in order |
| RegistrationViews.RegistrationView.AddVisibleExtraFields | openedx/core/djangoapps/user_api/views.py:288-293 | appends exactly the visible extra fields, in declaration order |
| RegistrationViews.RegistrationView.AddOrderedFields | openedx/core/djangoapps/user_api/views.py:294-304 | appends the order's default fields and visible extra fields, in order |
| RegistrationViews.RegistrationView.Post | openedx/core/djangoapps/user_api/views.py:326-375 | with conflicts: 409 with ConflictErrors and nothing submitted; otherwise submits the shimmed data and answers CreationResponse |

## Left out

- Labels, placeholders, instructions, restrictions, options, error messages
  and supplemental links of every field. These are translated text that
  carries no logic. So is the honor-code label's dependence on whether
  terms_of_service is visible.
- `user_api/helpers.py` (`FormDescription`, `add_field`,
  `override_field_properties`, `to_json`) is not part of this model.
  - Its behaviour is assumed: `add_field` defaults to type "text" and default
    "", and merges the registered overrides into the field.
  - Its field-type validation and the JSON encoding are not modelled.
- HTTP plumbing is left out: the CSRF decorators, `dispatch`,
  `sensitive_post_parameters`, `require_post_params`,
  `set_logged_in_cookies`, and the JSON and HTTP response objects.
- The other views in the file (`LoginSessionView`, `PasswordResetView`,
  `UserViewSet`, `ForumRoleUsersListView`, `UserPreferenceViewSet`,
  `PreferenceUsersListView`, `CountryTimeZoneListView`) are outside the
  modelled core.
- The email-marketing migration is a database schema step, not logic.
- The collaborators are inputs and are not modelled:
  - third-party auth, enterprise detection and the extension-form loader;
  - `check_account_exists`, `create_account_with_params` and the course-key
    parser;
  - `update_email_opt_in`, whose effect is returned as `Updated(org, flag)`.
- Python's `None` for an absent site value or field-order setting is
  modelled as the empty map or sequence. Both are false in Python, so the
  branches are the same. The settings' extra-field map is an `Option`: when
  it is None and the site map is empty, `.get` fails on it, and `Create`
  returns that AttributeError's message.
- A Python `assert` in `post` fails on a non-field validation error; the
  model returns `ServerError` there.
- The comment in `post` (views.py:364) says only the first error of each
  field is returned, but the code at :366 returns all of them. Returning
  every message is a reasonable behaviour in its own right, so the comment
  is read as stale and the model follows the code (`ValidationMessages`).
- Ascii.Upper: only ASCII letters are case-mapped; Python's `str.upper` also
  maps other letters, which matters only for a non-ASCII country default.
- Ascii.Lower: only ASCII letters are case-mapped, where Python's `str.lower`
  maps every cased letter. This changes `Lower` but not `ParseEmailOptIn`:
  no non-ASCII character lower-cases to "t", "r", "u" or "e", so
  `value.lower() == 'true'` holds exactly when `Lower(value) == "true"`.
- RegistrationConfig.FieldOrderPermutation: stated only for a configured
  order that repeats no name, because the source compares sets; see
  "## Findings".
- Dictionary iteration order of the extension form's fields is its
  declaration order, taken as the order of the input sequence.

## Findings

| source | as written | input that shows it | evidently intended | confidence | as-written member | corrected member |
|---|---|---|---|---|---|---|
| openedx/core/djangoapps/user_api/views.py:220-224 | the configured order is kept when `set(valid_fields) == set(field_order)`, which also holds for an order that repeats a name | `REGISTRATION_FIELD_ORDER` = the valid fields followed by `"email"` again: the order is kept and the form holds the email field twice | keep the configured order only when it lists each valid field exactly once, as the comment at :220 ("all of the valid_fields are in the field order and vice versa") and the form's one-field-per-name layout suggest | medium, not executed | RegistrationConfig.FieldOrder (shown by RegistrationConfig.RepeatedNameOrderKept and RegistrationForms.RepeatedNameEmittedTwice) | RegistrationConfig.CheckedFieldOrder (proved by RegistrationConfig.CheckedFieldOrderPermutation and RegistrationForms.CheckedOrderFormDistinct) |
