/**
 * The automation settings page: five switches, `handleToggle` and the
 * `saving` flag around `handleSave`.
 */
module AutomationSettings {

  datatype SettingKey = EmailEnabled | SmsEnabled | AutoReminders | WeekendProcessing | DebugMode

  /** The `settings` object. */
  datatype Settings = Settings(
    emailEnabled: bool,
    smsEnabled: bool,
    autoReminders: bool,
    weekendProcessing: bool,
    debugMode: bool)

  const InitialSettings := Settings(true, true, true, false, false)

  /** `settings[key]`. */
  function Get(s: Settings, key: SettingKey): bool {
    match key
    case EmailEnabled => s.emailEnabled
    case SmsEnabled => s.smsEnabled
    case AutoReminders => s.autoReminders
    case WeekendProcessing => s.weekendProcessing
    case DebugMode => s.debugMode
  }

  /** The three message switches start on, weekend processing and debug mode off. */
  lemma InitialSettingsValues()
    ensures forall k :: Get(InitialSettings, k) <==> k in {EmailEnabled, SmsEnabled, AutoReminders}
  {
  }

  /** `{ ...prev, [key]: !prev[key] }`. */
  function Toggled(s: Settings, key: SettingKey): (r: Settings)
    ensures Get(r, key) == !Get(s, key)
    ensures forall k :: k != key ==> Get(r, k) == Get(s, k)
  {
    match key
    case EmailEnabled => s.(emailEnabled := !s.emailEnabled)
    case SmsEnabled => s.(smsEnabled := !s.smsEnabled)
    case AutoReminders => s.(autoReminders := !s.autoReminders)
    case WeekendProcessing => s.(weekendProcessing := !s.weekendProcessing)
    case DebugMode => s.(debugMode := !s.debugMode)
  }

  /** Two settings objects that agree on every key are the same. */
  lemma SettingsExtensional(s: Settings, t: Settings)
    requires forall k :: Get(s, k) == Get(t, k)
    ensures s == t
  {
    assert Get(s, EmailEnabled) == Get(t, EmailEnabled);
    assert Get(s, SmsEnabled) == Get(t, SmsEnabled);
    assert Get(s, AutoReminders) == Get(t, AutoReminders);
    assert Get(s, WeekendProcessing) == Get(t, WeekendProcessing);
    assert Get(s, DebugMode) == Get(t, DebugMode);
  }

  /** Flipping the same switch twice restores the settings, and flips of
      different switches can be made in either order. */
  lemma ToggleLaws(s: Settings, k: SettingKey, j: SettingKey)
    ensures Toggled(Toggled(s, k), k) == s
    ensures Toggled(Toggled(s, k), j) == Toggled(Toggled(s, j), k)
  {
    SettingsExtensional(Toggled(Toggled(s, k), k), s);
    SettingsExtensional(Toggled(Toggled(s, k), j), Toggled(Toggled(s, j), k));
  }

  const SavedMessage := "Automation settings saved"

  /** The page's React state. */
  class AutomationPage {
    var settings: Settings
    var saving: bool

    constructor ()
      ensures settings == InitialSettings && !saving
    {
      settings := InitialSettings;
      saving := false;
    }

    method HandleToggle(key: SettingKey)
      modifies this
      ensures settings == Toggled(old(settings), key)
      ensures saving == old(saving)
    {
      settings := Toggled(settings, key);
    }

    /** `handleSave` up to its `await`: the flag is set, the settings are untouched. */
    method HandleSave()
      modifies this
      ensures saving && settings == old(settings)
    {
      saving := true;
    }

    /** The rest of `handleSave` once the simulated request has finished:
        the flag is cleared and the saved message is returned for the alert. */
    method SaveFinished() returns (message: string)
      modifies this
      ensures !saving && settings == old(settings)
      ensures message == SavedMessage
    {
      saving := false;
      message := SavedMessage;
    }
  }
}
