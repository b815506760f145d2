/**
  The Android collaborators of the plugin, reduced to the state the icon
  switch reads and writes: the package manager's per-component enabled
  settings over a read-only manifest catalog, the plugin's preference file
  with its single `app_icon` entry, and the device identity.
 */
module Platform {
  import opened Wrappers

  /** The values `getComponentEnabledSetting` can report. */
  datatype EnabledSetting = Default | Enabled | Disabled | DisabledUser | DisabledUntilUsed

  /**
    One `<activity>` or `<activity-alias>` of the manifest, as listed by
    `getPackageInfo(GET_ACTIVITIES | GET_DISABLED_COMPONENTS)`: its class
    name, whether it is an alias (it has a `targetActivity`), and the
    `isEnabled` flag the manifest declares for it.
   */
  datatype ActivityEntry = ActivityEntry(name: string, isAlias: bool, manifestEnabled: bool)

  /** The setting recorded for a component; one never written reads as DEFAULT. */
  function SettingOf(settings: map<string, EnabledSetting>, name: string): EnabledSetting {
    if name in settings then settings[name] else Default
  }

  /**
    The package manager of the running package. The catalog is fixed for
    the process lifetime (an unreadable package gives an empty catalog);
    the settings are what `setComponentEnabledSetting` changes.
   */
  class PackageManager {
    const catalog: seq<ActivityEntry>
    var settings: map<string, EnabledSetting>

    constructor (catalog: seq<ActivityEntry>, settings: map<string, EnabledSetting>)
      ensures this.catalog == catalog && this.settings == settings
    {
      this.catalog := catalog;
      this.settings := settings;
    }

    /** `setComponentEnabledSetting(component, setting, DONT_KILL_APP)`. */
    method SetComponentEnabledSetting(name: string, setting: EnabledSetting)
      modifies this
      ensures settings == old(settings)[name := setting]
      ensures SettingOf(settings, name) == setting
    {
      settings := settings[name := setting];
    }
  }

  /** The `flutter_dynamic_icon_plus` preference file; `appIcon` is its `app_icon` entry. */
  class SharedPreferences {
    var appIcon: Option<string>

    constructor (appIcon: Option<string>)
      ensures this.appIcon == appIcon
    {
      this.appIcon := appIcon;
    }

    /**
      `edit().putString(app_icon, value).commit()`. Putting null removes the
      entry. Whether the write reaches storage is up to the device and is
      given as `writeSucceeds`; a failed commit leaves the entry as it was.
     */
    method CommitPutString(value: Option<string>, writeSucceeds: bool) returns (saved: bool)
      modifies this
      ensures saved == writeSucceeds
      ensures appIcon == if writeSucceeds then value else old(appIcon)
    {
      saved := writeSucceeds;
      if writeSucceeds {
        appIcon := value;
      }
    }

    /** `edit().remove(app_icon).apply()`. */
    method ApplyRemove()
      modifies this
      ensures appIcon == None
    {
      appIcon := None;
    }
  }

  /** `Build.BRAND`, `Build.MANUFACTURER` and `Build.MODEL`. */
  datatype Device = Device(brand: string, manufacturer: string, model: string)
}
