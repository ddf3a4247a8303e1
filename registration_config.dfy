/**
 * What RegistrationView's constructor works out from the deployment's
 * settings: the extra-field visibility map and the field order.
 */
module RegistrationConfig {
  import opened Wrappers

  const DefaultFields: seq<string> := ["email", "name", "username", "password"]

  const ExtraFields: seq<string> := [
    "confirm_email", "first_name", "last_name", "city", "state", "country",
    "gender", "year_of_birth", "level_of_education", "company", "title",
    "mailing_address", "goals", "honor_code", "terms_of_service"]

  const ValidFields: seq<string> := DefaultFields + ExtraFields

  /** The three visibility settings an extra field may have. */
  const SettingValues: set<string> := {"required", "optional", "hidden"}

  /**
   * The deployment's settings. A site value that is missing (Python's None)
   * is the empty map or the empty sequence, which the source treats alike as
   * false; a field order the settings leave out is the empty sequence too.
   * The settings' extra-field map is None only when the deployment sets it
   * to None, and the constructor then fails on it.
   */
  datatype Config = Config(
    siteExtraFields: map<string, string>,
    settingsExtraFields: Option<map<string, string>>,
    siteFieldOrder: seq<string>,
    settingsFieldOrder: seq<string>)

  function Lookup(setting: map<string, string>, name: string): Option<string>
  {
    if name in setting then Some(setting[name]) else None
  }

  function AsSet(s: seq<string>): set<string>
  {
    set x | x in s
  }

  predicate Distinct(s: seq<string>)
  {
    forall i, j :: 0 <= i < j < |s| ==> s[i] != s[j]
  }

  /** _is_field_visible: the field's setting is "required" or "optional"; a missing entry is not visible. */
  function IsFieldVisible(setting: map<string, string>, name: string): (r: bool)
    ensures r <==> name in setting && (setting[name] == "required" || setting[name] == "optional")
  {
    Lookup(setting, name) == Some("required") || Lookup(setting, name) == Some("optional")
  }

  /** _is_field_required: the field's setting is "required"; a required field is visible. */
  function IsFieldRequired(setting: map<string, string>, name: string): (r: bool)
    ensures r <==> name in setting && setting[name] == "required"
    ensures r ==> IsFieldVisible(setting, name)
  {
    Lookup(setting, name) == Some("required")
  }

  /**
   * The site's extra-field map when it is non-empty, otherwise the settings'
   * one; None when that one is None.
   */
  function BaseExtraFields(config: Config): (r: Option<map<string, string>>)
    ensures r == Some(config.siteExtraFields) || r == config.settingsExtraFields
    ensures |config.siteExtraFields| > 0 ==> r == Some(config.siteExtraFields)
    ensures |config.siteExtraFields| == 0 ==> r == config.settingsExtraFields
  {
    if |config.siteExtraFields| > 0 then Some(config.siteExtraFields) else config.settingsExtraFields
  }

  /**
   * The visibility map the constructor stores: the chosen map with honor_code
   * defaulted to "required" when absent and kept as given otherwise. None is
   * the constructor's failure on a settings map that is None.
   */
  function ExtraFieldsSetting(config: Config): (r: Option<map<string, string>>)
    ensures r.None? <==> BaseExtraFields(config).None?
    ensures r.Some? ==> "honor_code" in r.value
    ensures r.Some? ==> r.value["honor_code"] == Lookup(BaseExtraFields(config).value, "honor_code").GetOr("required")
    ensures r.Some? ==> forall name :: name != "honor_code" ==>
      Lookup(r.value, name) == Lookup(BaseExtraFields(config).value, name)
  {
    match BaseExtraFields(config)
    case None => None
    case Some(base) => Some(base["honor_code" := Lookup(base, "honor_code").GetOr("required")])
  }

  /** Every extra field's setting, "hidden" when missing, is one of the three allowed values. */
  ghost predicate SettingValid(setting: map<string, string>)
    ensures SettingValid(setting) <==>
      forall name :: name in ExtraFields ==> Lookup(setting, name).GetOr("hidden") in SettingValues
  {
    forall i :: 0 <= i < |ExtraFields| ==> Lookup(setting, ExtraFields[i]).GetOr("hidden") in SettingValues
  }

  /** The construction-time check of the visibility map; false is ImproperlyConfigured. */
  method CheckExtraFieldsSetting(setting: map<string, string>) returns (ok: bool)
    ensures ok <==> SettingValid(setting)
  {
    var i := 0;
    while i < |ExtraFields|
      invariant 0 <= i <= |ExtraFields|
      invariant forall k :: 0 <= k < i ==> Lookup(setting, ExtraFields[k]).GetOr("hidden") in SettingValues
    {
      if Lookup(setting, ExtraFields[i]).GetOr("hidden") !in SettingValues {
        return false;
      }
      i := i + 1;
    }
    return true;
  }

  /** A setting outside the three values on any extra field makes the configuration invalid. */
  lemma InvalidSettingRejected(setting: map<string, string>, name: string)
    requires name in ExtraFields && name in setting && setting[name] !in SettingValues
    ensures !SettingValid(setting)
  {
    var i :| 0 <= i < |ExtraFields| && ExtraFields[i] == name;
    assert Lookup(setting, ExtraFields[i]).GetOr("hidden") !in SettingValues;
  }

  /** Removing an extra field's entry (it then counts as hidden) never makes a valid map invalid. */
  lemma MissingEntryAccepted(setting: map<string, string>, name: string)
    requires SettingValid(setting)
    ensures SettingValid(setting - {name})
  {
    forall i | 0 <= i < |ExtraFields|
      ensures Lookup(setting - {name}, ExtraFields[i]).GetOr("hidden") in SettingValues
    {
      assert Lookup(setting, ExtraFields[i]).GetOr("hidden") in SettingValues;
    }
  }

  /** Entries for names that are not extra fields are never checked. */
  lemma NonExtraEntriesIgnored(setting: map<string, string>, name: string, value: string)
    requires name !in ExtraFields
    ensures SettingValid(setting[name := value]) == SettingValid(setting)
  {
    forall i | 0 <= i < |ExtraFields|
      ensures Lookup(setting[name := value], ExtraFields[i]) == Lookup(setting, ExtraFields[i])
    {
      assert ExtraFields[i] != name;
    }
  }

  /** The order named by the site, else by the settings, else the valid fields in declaration order. */
  function ConfiguredFieldOrder(config: Config): (r: seq<string>)
    ensures r == config.siteFieldOrder || r == config.settingsFieldOrder || r == ValidFields
    ensures |r| > 0
    ensures |config.siteFieldOrder| > 0 ==> r == config.siteFieldOrder
    ensures |config.siteFieldOrder| == 0 && |config.settingsFieldOrder| > 0 ==> r == config.settingsFieldOrder
    ensures |config.siteFieldOrder| == 0 && |config.settingsFieldOrder| == 0 ==> r == ValidFields
  {
    if |config.siteFieldOrder| > 0 then config.siteFieldOrder
    else if |config.settingsFieldOrder| > 0 then config.settingsFieldOrder
    else ValidFields
  }

  /** The stored field order: the configured one when it names exactly the valid fields. */
  function FieldOrder(config: Config): (r: seq<string>)
    ensures AsSet(ConfiguredFieldOrder(config)) == AsSet(ValidFields) ==> r == ConfiguredFieldOrder(config)
    ensures AsSet(ConfiguredFieldOrder(config)) != AsSet(ValidFields) ==> r == ValidFields
    ensures AsSet(r) == AsSet(ValidFields)
  {
    var order := ConfiguredFieldOrder(config);
    if AsSet(order) != AsSet(ValidFields) then ValidFields else order
  }

  /**
   * The field order with the repeat check the set comparison misses: the
   * configured order is kept only when it names exactly the valid fields and
   * repeats none of them.
   */
  function CheckedFieldOrder(config: Config): (r: seq<string>)
    ensures AsSet(r) == AsSet(ValidFields) && Distinct(r)
    ensures AsSet(ConfiguredFieldOrder(config)) == AsSet(ValidFields) && Distinct(ConfiguredFieldOrder(config)) ==>
      r == ConfiguredFieldOrder(config)
    ensures !(AsSet(ConfiguredFieldOrder(config)) == AsSet(ValidFields) && Distinct(ConfiguredFieldOrder(config))) ==>
      r == ValidFields
  {
    ValidFieldsDistinct();
    var order := ConfiguredFieldOrder(config);
    if AsSet(order) != AsSet(ValidFields) || !Distinct(order) then ValidFields else order
  }

  lemma ValidFieldsDistinct()
    ensures Distinct(ValidFields)
    ensures forall name :: name in DefaultFields ==> name !in ExtraFields
  {
  }

  /** The marker field a provider adds is not one of the form's own fields. */
  lemma MarkerNotValidField()
    ensures "social_auth_provider" !in ValidFields
  {
  }

  lemma DistinctNotRepeated(s: seq<string>, i: nat)
    requires Distinct(s) && i < |s|
    ensures s[i] !in s[..i]
  {
  }

  lemma {:induction false} DistinctMultiplicity(s: seq<string>, x: string)
    requires Distinct(s)
    ensures multiset(s)[x] == if x in s then 1 else 0
  {
    if s != [] {
      var t := s[1..];
      assert s == [s[0]] + t;
      assert Distinct(t) by {
        forall i, j | 0 <= i < j < |t| ensures t[i] != t[j] {
          assert t[i] == s[i + 1] && t[j] == s[j + 1];
        }
      }
      DistinctMultiplicity(t, x);
      assert s[0] !in t by {
        forall k | 0 <= k < |t| ensures t[k] != s[0] {
          assert t[k] == s[k + 1];
        }
      }
      assert multiset(s) == multiset{s[0]} + multiset(t);
    }
  }

  /** Two sequences without repeats that hold the same names are permutations of each other. */
  lemma DistinctSameSetSameMultiset(a: seq<string>, b: seq<string>)
    requires Distinct(a) && Distinct(b) && AsSet(a) == AsSet(b)
    ensures multiset(a) == multiset(b)
  {
    forall x ensures multiset(a)[x] == multiset(b)[x] {
      DistinctMultiplicity(a, x);
      DistinctMultiplicity(b, x);
      assert (x in a) == (x in AsSet(a));
      assert (x in b) == (x in AsSet(b));
    }
  }

  /**
   * When the configured order has no repeated name, the stored order is a
   * permutation of the valid fields.
   */
  lemma FieldOrderPermutation(config: Config)
    requires Distinct(ConfiguredFieldOrder(config))
    ensures multiset(FieldOrder(config)) == multiset(ValidFields)
  {
    ValidFieldsDistinct();
    var order := ConfiguredFieldOrder(config);
    if AsSet(order) == AsSet(ValidFields) {
      DistinctSameSetSameMultiset(order, ValidFields);
    }
  }

  /** The checked order is always a permutation of the valid fields. */
  lemma CheckedFieldOrderPermutation(config: Config)
    ensures multiset(CheckedFieldOrder(config)) == multiset(ValidFields)
  {
    ValidFieldsDistinct();
    DistinctSameSetSameMultiset(CheckedFieldOrder(config), ValidFields);
  }

  /** The checked order differs from the source's only on a configured order that repeats a name. */
  lemma CheckedFieldOrderAgrees(config: Config)
    requires Distinct(ConfiguredFieldOrder(config))
    ensures CheckedFieldOrder(config) == FieldOrder(config)
  {
  }

  /**
   * The set comparison lets an order that repeats a name through, so without
   * the hypothesis above the stored order need not be a permutation.
   */
  lemma RepeatedNameOrderKept()
    ensures var config := Config(map[], Some(map[]), ValidFields + ["email"], []);
      FieldOrder(config) == ValidFields + ["email"] &&
      multiset(FieldOrder(config)) != multiset(ValidFields)
  {
    var order := ValidFields + ["email"];
    assert "email" in ValidFields;
    assert AsSet(order) == AsSet(ValidFields);
    assert |multiset(order)| == |order| != |ValidFields| == |multiset(ValidFields)|;
  }
}
