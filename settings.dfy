/**
 * frontend/src/modules/settings-manager.js: the front end's copy of the
 * gamepad configuration, its dirty flag, and the slider-id / config-key
 * naming rules.
 */
module Settings {
  import opened Common

  /** A configuration value as the front end holds it: a number, or text the server could not parse. */
  datatype Setting = Num(n: real) | Text(s: string)

  /** Sections of key/value pairs, as `currentSettings` holds them. */
  type Config = map<string, map<string, Setting>>

  /** `s` with every `from` replaced by `to` (`String.prototype.replace` with a global pattern). */
  function ReplaceAll(s: string, from: char, to: char): (r: string)
    ensures |r| == |s|
    ensures forall i :: 0 <= i < |s| ==> r[i] == if s[i] == from then to else s[i]
  {
    seq(|s|, i requires 0 <= i < |s| => if s[i] == from then to else s[i])
  }

  /** Replacing characters maps an occurrence of `u` to an occurrence of its replacement. */
  lemma ReplaceOccurrence(s: string, u: string, i: nat, from: char, to: char)
    requires OccursAt(s, u, i)
    ensures OccursAt(ReplaceAll(s, from, to), ReplaceAll(u, from, to), i)
  {
    var r := ReplaceAll(s, from, to);
    assert forall k :: 0 <= k < |u| ==> r[i..i + |u|][k] == ReplaceAll(u, from, to)[k];
  }

  /** The config key a slider writes: every `-` becomes `_`. */
  function KeyForSlider(sliderId: string): (key: string)
    ensures |key| == |sliderId|
    ensures forall i :: 0 <= i < |key| ==> key[i] != '-'
  {
    ReplaceAll(sliderId, '-', '_')
  }

  /** The slider a config key is shown on: every `_` becomes `-`. */
  function SliderForKey(key: string): (sliderId: string)
    ensures |sliderId| == |key|
    ensures NoUnderscore(sliderId)
  {
    ReplaceAll(key, '_', '-')
  }

  /** A slider whose id has no `_` comes back to itself through its key. */
  lemma SliderKeyRoundTrip(sliderId: string)
    requires NoUnderscore(sliderId)
    ensures SliderForKey(KeyForSlider(sliderId)) == sliderId
  {
    var back := SliderForKey(KeyForSlider(sliderId));
    assert forall i :: 0 <= i < |sliderId| ==> back[i] == sliderId[i];
  }

  /** A key without `-` comes back to itself through its slider. */
  lemma KeySliderRoundTrip(key: string)
    requires forall i :: 0 <= i < |key| ==> key[i] != '-'
    ensures KeyForSlider(SliderForKey(key)) == key
  {
    var back := KeyForSlider(SliderForKey(key));
    assert forall i :: 0 <= i < |key| ==> back[i] == key[i];
  }

  /** The section a slider writes to: `AntiAFK` for the anti-AFK sliders, `Movement` otherwise. */
  function SectionForSlider(sliderId: string): (section: string)
    ensures section == "AntiAFK" || section == "Movement"
    ensures section == "AntiAFK" <==>
              Contains(sliderId, "antiafk") || Contains(sliderId, "bumper") || Contains(sliderId, "delay-between")
  {
    if Contains(sliderId, "antiafk") || Contains(sliderId, "bumper") || Contains(sliderId, "delay-between")
    then "AntiAFK" else "Movement"
  }

  /**
   * The anti-AFK keys other than `interval` are classified back into their
   * own section through their slider ids.
   */
  lemma BumperAndDelaySlidersAreAntiAfk()
    ensures SectionForSlider(SliderForKey("right_bumper_duration")) == "AntiAFK"
    ensures SectionForSlider(SliderForKey("left_bumper_duration")) == "AntiAFK"
    ensures SectionForSlider(SliderForKey("delay_between_buttons")) == "AntiAFK"
  {
    assert OccursAt("right_bumper_duration", "bumper", 6);
    ReplaceOccurrence("right_bumper_duration", "bumper", 6, '_', '-');
    assert ReplaceAll("bumper", '_', '-') == "bumper";
    ContainsAt(SliderForKey("right_bumper_duration"), "bumper", 6);
    assert OccursAt("left_bumper_duration", "bumper", 5);
    ReplaceOccurrence("left_bumper_duration", "bumper", 5, '_', '-');
    ContainsAt(SliderForKey("left_bumper_duration"), "bumper", 5);
    assert OccursAt("delay_between_buttons", "delay_between", 0);
    ReplaceOccurrence("delay_between_buttons", "delay_between", 0, '_', '-');
    assert ReplaceAll("delay_between", '_', '-') == "delay-between";
    ContainsAt(SliderForKey("delay_between_buttons"), "delay-between", 0);
  }

  /**
   * The anti-AFK `interval` key, if edited on a slider named after it,
   * is written into `Movement`: the rule looks only at the slider id.
   */
  lemma IntervalSliderIsMovement()
    ensures SliderForKey("interval") == "interval"
    ensures SectionForSlider("interval") == "Movement"
  {
    assert SliderForKey("interval") == "interval";
    AbsentCharNotContained("interval", "antiafk", 6);   // no `k`
    AbsentCharNotContained("interval", "bumper", 0);    // no `b`
    AbsentCharNotContained("interval", "delay-between", 0);  // no `d`
  }

  /** What a request to the server produced: the config on success, None on an error reply or a throw. */
  type Reply = Option<Config>

  class SettingsManager {
    var currentSettings: Config
    var isDirty: bool

    constructor ()
      ensures currentSettings == map[] && !isDirty
    {
      currentSettings := map[];
      isDirty := false;
    }

    /** `hasUnsavedChanges`. */
    function HasUnsavedChanges(): (dirty: bool)
      reads this
      ensures dirty == isDirty
    {
      isDirty
    }

    /**
     * `updateParameterFromUI(section, key, value)`; `value` is the slider's
     * value after `parseFloat`. Creates the section if missing, sets the
     * one key and marks the settings dirty.
     */
    method UpdateParameterFromUI(section: string, key: string, value: real)
      modifies this
      ensures isDirty
      ensures section in currentSettings && key in currentSettings[section]
      ensures currentSettings[section][key] == Num(value)
      ensures forall s :: s in old(currentSettings) && s != section ==> s in currentSettings && currentSettings[s] == old(currentSettings)[s]
      ensures currentSettings.Keys == old(currentSettings).Keys + {section}
      ensures section in old(currentSettings) ==> currentSettings[section] == old(currentSettings)[section][key := Num(value)]
      ensures section !in old(currentSettings) ==> currentSettings[section] == map[key := Num(value)]
    {
      if section !in currentSettings {
        currentSettings := currentSettings[section := map[]];
      }
      currentSettings := currentSettings[section := currentSettings[section][key := Num(value)]];
      isDirty := true;
    }

    /** The `input` handler of slider `sliderId`: classify, derive the key, update. */
    method OnSliderInput(sliderId: string, value: real)
      modifies this
      ensures isDirty
      ensures var section := SectionForSlider(sliderId);
              section in currentSettings && KeyForSlider(sliderId) in currentSettings[section]
              && currentSettings[section][KeyForSlider(sliderId)] == Num(value)
      ensures forall s :: s in old(currentSettings) && s != SectionForSlider(sliderId) ==>
                s in currentSettings && currentSettings[s] == old(currentSettings)[s]
      ensures var section := SectionForSlider(sliderId);
              var before := if section in old(currentSettings) then old(currentSettings)[section] else map[];
              currentSettings == old(currentSettings)[section := before[KeyForSlider(sliderId) := Num(value)]]
    {
      UpdateParameterFromUI(SectionForSlider(sliderId), KeyForSlider(sliderId), value);
    }

    /** `loadSettings`: replaces the settings only on success; never touches the dirty flag. */
    method LoadSettings(reply: Reply) returns (success: bool)
      modifies this
      ensures success <==> reply.Some?
      ensures currentSettings == if reply.Some? then reply.value else old(currentSettings)
      ensures isDirty == old(isDirty)
    {
      if reply.Some? {
        currentSettings := reply.value;
        return true;
      }
      return false;
    }

    /**
     * `saveAllSettings`: sends `currentSettings`; clears the dirty flag only
     * when the server answered with success. Returns the settings sent.
     */
    method SaveAllSettings(saveOk: bool) returns (success: bool, sent: Config)
      modifies this
      ensures sent == old(currentSettings) && currentSettings == old(currentSettings)
      ensures success == saveOk
      ensures isDirty == (old(isDirty) && !saveOk)
    {
      sent := currentSettings;
      success := saveOk;
      if saveOk {
        isDirty := false;
      }
    }

    /**
     * `resetToDefault`: after a successful reset, reloads; the reload's own
     * failure does not make the reset fail. The dirty flag is left as it was.
     */
    method ResetToDefault(resetOk: bool, reload: Reply) returns (success: bool)
      modifies this
      ensures success == resetOk
      ensures currentSettings == if resetOk && reload.Some? then reload.value else old(currentSettings)
      ensures isDirty == old(isDirty)
    {
      if !resetOk {
        return false;
      }
      var loaded := LoadSettings(reload);
      return true;
    }
  }
}
