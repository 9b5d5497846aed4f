/**
 * The `app_settings` key/value table of database.py and the lookups built on
 * it. Every value is text; a missing key reads as the caller's default.
 */
module Settings {
  import opened Strings

  type Settings = map<string, string>

  /** `get_setting(key, default)` */
  function GetSetting(s: Settings, key: string, default: string): (v: string)
    ensures key in s ==> v == s[key]
    ensures key !in s ==> v == default
  {
    if key in s then s[key] else default
  }

  /** `f"module_{name}_enabled"` */
  function ModuleKey(name: string): (k: string)
    ensures |k| == |name| + 15
    ensures k[..7] == "module_" && k[|k| - 8..] == "_enabled"
    ensures k[7..|k| - 8] == name
  {
    "module_" + name + "_enabled"
  }

  /** Different modules have different setting keys. */
  lemma ModuleKeyInjective(a: string, b: string)
    ensures ModuleKey(a) == ModuleKey(b) ==> a == b
  {
    if ModuleKey(a) == ModuleKey(b) {
      calc {
        a;
        ModuleKey(a)[7..|ModuleKey(a)| - 8];
        ModuleKey(b)[7..|ModuleKey(b)| - 8];
        b;
      }
    }
  }

  /** The text of a boolean setting. */
  function BoolText(b: bool): string {
    if b then "true" else "false"
  }

  /** `value.lower() == 'true'` */
  predicate IsTrueText(v: string) {
    Lower(v) == "true"
  }

  lemma BoolTextRoundTrip(b: bool)
    ensures IsTrueText(BoolText(b)) == b
  {
    if !b {
      assert Lower("false")[0] == 'f';
    }
  }

  /** `is_module_enabled`: modules are on unless switched off. */
  predicate IsModuleEnabled(s: Settings, name: string) {
    IsTrueText(GetSetting(s, ModuleKey(name), "true"))
  }

  /** `is_auth_enabled`: authorisation is off unless switched on. */
  predicate IsAuthEnabled(s: Settings) {
    IsTrueText(GetSetting(s, "auth_enabled", "false"))
  }

  /** With an empty table every module is on and authorisation is off. */
  lemma Defaults(name: string)
    ensures IsModuleEnabled(map[], name)
    ensures !IsAuthEnabled(map[])
  {
    BoolTextRoundTrip(true);
    BoolTextRoundTrip(false);
  }

  /** "true" with each letter in either case: "true", "True", "TRUE", "tRuE", ... */
  predicate CapitalisedTrue(v: string) {
    |v| == 4 && forall i :: 0 <= i < 4 ==> v[i] == "true"[i] || v[i] == "TRUE"[i]
  }

  /** Folding an ASCII character gives lower-case letter `l` exactly for
      `l` and its upper-case form. */
  lemma LowerCharIs(c: char, l: char, u: char)
    requires 'a' <= l <= 'z' && u as int == l as int - 32
    ensures LowerChar(c) == l <==> c == l || c == u
  {
  }

  /** `value.lower() == 'true'` holds exactly for the capitalisations of
      "true". */
  lemma TrueTextIsCapitalisedTrue(v: string)
    ensures IsTrueText(v) <==> CapitalisedTrue(v)
  {
    if |v| == 4 {
      var lower := "true";
      var upper := "TRUE";
      forall i | 0 <= i < 4
        ensures LowerChar(v[i]) == lower[i] <==> v[i] == lower[i] || v[i] == upper[i]
      {
        LowerCharIs(v[i], lower[i], upper[i]);
      }
      if CapitalisedTrue(v) {
        assert Lower(v) == lower;
      }
      if IsTrueText(v) {
        assert forall i :: 0 <= i < 4 ==> LowerChar(v[i]) == Lower(v)[i] == lower[i];
      }
    }
  }

  /** A module is on exactly when its setting is missing or is "true" in
      any capitalisation. */
  lemma CaseInsensitiveTrue(s: Settings, name: string)
    ensures IsModuleEnabled(s, name) <==> ModuleKey(name) !in s || CapitalisedTrue(s[ModuleKey(name)])
  {
    TrueTextIsCapitalisedTrue(GetSetting(s, ModuleKey(name), "true"));
    TrueTextIsCapitalisedTrue("true");
  }

  class SettingsTable {
    var values: Settings

    constructor ()
      ensures values == map[]
    {
      values := map[];
    }

    /** `set_setting`: INSERT OR REPLACE of one key. */
    method SetSetting(key: string, value: string)
      modifies this
      ensures values == old(values)[key := value]
    {
      values := values[key := value];
    }

    /** `set_module_enabled`: afterwards the module reads as `enabled`, and
        no other module's switch has changed. */
    method SetModuleEnabled(name: string, enabled: bool)
      modifies this
      ensures values == old(values)[ModuleKey(name) := BoolText(enabled)]
      ensures IsModuleEnabled(values, name) == enabled
      ensures forall other :: other != name ==> IsModuleEnabled(values, other) == IsModuleEnabled(old(values), other)
    {
      BoolTextRoundTrip(enabled);
      forall other | other != name
        ensures ModuleKey(other) != ModuleKey(name)
      {
        ModuleKeyInjective(other, name);
      }
      SetSetting(ModuleKey(name), BoolText(enabled));
    }

    /** `set_auth_enabled` */
    method SetAuthEnabled(enabled: bool)
      modifies this
      ensures values == old(values)["auth_enabled" := BoolText(enabled)]
      ensures IsAuthEnabled(values) == enabled
    {
      BoolTextRoundTrip(enabled);
      SetSetting("auth_enabled", BoolText(enabled));
    }
  }
}
