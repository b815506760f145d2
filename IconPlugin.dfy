/**
  The method-channel handler of the plugin. A request either persists the
  icon name and applies it at once, resets to the default icon, defers the
  switch to a background service on blacklisted devices, or fails; the two
  queries report whether alternate icons exist and which alias is current.
 */
module IconPlugin {
  import opened Wrappers
  import opened Text
  import opened Platform
  import ComponentUtil

  /**
    The calls the channel delivers, already dispatched on the method name:
    `OtherMethod` carries a name that is none of `setAlternateIconName`,
    `supportsAlternateIcons` and `getAlternateIconName`, which have their
    own constructors.
   */
  datatype MethodCall =
    | SetAlternateIconName(iconName: Option<string>, brands: Option<string>,
                           manufactures: Option<string>, models: Option<string>)
    | SupportsAlternateIcons
    | GetAlternateIconName
    | OtherMethod(methodName: string)

  datatype ReplyValue = BoolValue(b: bool) | NameValue(name: Option<string>)

  /** `result.success(..)`, `result.error(code, message, details)` or `result.notImplemented()`. */
  datatype Reply =
    | Success(value: ReplyValue)
    | Error(code: string, message: string, details: string)
    | NotImplemented

  const ACTIVITY_NOT_FOUND := Error("500", "Activity not found", "Activity didn't attached")

  /** The reply to a request whose icon name could not be stored. */
  function StoreFailed(iconName: Option<string>): Reply {
    Error("500", "Failed store " + iconName.GetOr("null") + " to local storage",
          "When failed store to local storage we will provide wrong value on method getAlternateIconName")
  }

  // ---------------------------------------------------------------------
  // Device blacklist

  /** The entries of one filter: `split(",").map { it.trim() }`. */
  function Entries(filter: string): (entries: seq<string>)
    ensures |entries| == |Split(filter, ',')|
    ensures forall i :: 0 <= i < |entries| ==> entries[i] == Trim(Split(filter, ',')[i])
  {
    TrimEach(Split(filter, ','))
  }

  /** `map { it.trim() }`. */
  function TrimEach(pieces: seq<string>): (trimmed: seq<string>)
    ensures |trimmed| == |pieces|
    ensures forall i :: 0 <= i < |pieces| ==> trimmed[i] == Trim(pieces[i])
  {
    if pieces == [] then [] else [Trim(pieces[0])] + TrimEach(pieces[1..])
  }

  /** The entry is non-empty and equals the device field, ignoring case. */
  predicate EntryMatches(entry: string, field: string) {
    entry != [] && EqualsIgnoreCase(field, entry)
  }

  /** Some entry of the list matches the device field. */
  predicate AnyEntryMatches(entries: seq<string>, field: string) {
    exists i :: 0 <= i < |entries| && EntryMatches(entries[i], field)
  }

  /** Some entry of a present filter matches the device field. */
  predicate AxisMatches(filter: Option<string>, field: string) {
    filter.Some? && AnyEntryMatches(Entries(filter.value), field)
  }

  /** The device is blacklisted when any of the three filters matches its field. */
  predicate OnBlacklist(brands: Option<string>, manufactures: Option<string>, models: Option<string>, device: Device) {
    || AxisMatches(brands, device.brand)
    || AxisMatches(manufactures, device.manufacturer)
    || AxisMatches(models, device.model)
  }

  /** One of the three loops of `containsOnBlacklist`, returning as soon as an entry matches. */
  method AnyMatch(entries: seq<string>, field: string) returns (found: bool)
    ensures found == AnyEntryMatches(entries, field)
  {
    for i := 0 to |entries|
      invariant !AnyEntryMatches(entries[..i], field)
    {
      assert entries[..i + 1] == entries[..i] + [entries[i]];
      if entries[i] != [] && EqualsIgnoreCase(field, entries[i]) {
        assert EntryMatches(entries[i], field);
        return true;
      }
    }
    assert entries[..|entries|] == entries;
    return false;
  }

  /**
    `containsOnBlacklist`: split and trim each present filter, then try the
    brands, the manufacturers and the models in turn.
   */
  method ContainsOnBlacklist(brands: Option<string>, manufactures: Option<string>, models: Option<string>, device: Device)
    returns (listed: bool)
    ensures listed == OnBlacklist(brands, manufactures, models, device)
  {
    if brands.Some? {
      listed := AnyMatch(Entries(brands.value), device.brand);
      if listed {
        return;
      }
    }
    if manufactures.Some? {
      listed := AnyMatch(Entries(manufactures.value), device.manufacturer);
      if listed {
        return;
      }
    }
    if models.Some? {
      listed := AnyMatch(Entries(models.value), device.model);
      if listed {
        return;
      }
    }
    return false;
  }

  /** A filter made only of commas and whitespace matches no device. */
  lemma BlankFilterNeverMatches(filter: string, field: string)
    requires forall i :: 0 <= i < |filter| ==> filter[i] == ',' || IsWhitespace(filter[i])
    ensures !AxisMatches(Some(filter), field)
  {
    var pieces := Split(filter, ',');
    JoinSplit(filter, ',');
    forall k | 0 <= k < |pieces|
      ensures Entries(filter)[k] == []
    {
      forall i | 0 <= i < |pieces[k]|
        ensures IsWhitespace(pieces[k][i])
      {
        JoinKeeps(pieces, ',', k, pieces[k][i]);
      }
      TrimBlank(pieces[k]);
    }
  }

  /**
    A filter written as comma-separated names lists the device when one of
    the names, free of commas and surrounding whitespace, equals the device
    field ignoring case.
   */
  lemma ListedNameMatches(names: seq<string>, k: nat, field: string)
    requires |names| >= 1 && k < |names|
    requires forall i :: 0 <= i < |names| ==> ',' !in names[i]
    requires names[k] != [] && !IsWhitespace(names[k][0]) && !IsWhitespace(names[k][|names[k]| - 1])
    requires EqualsIgnoreCase(field, names[k])
    ensures AxisMatches(Some(Join(names, ',')), field)
  {
    SplitJoin(names, ',');
    TrimTrimmed(names[k]);
    assert Entries(Join(names, ','))[k] == names[k];
  }

  /** The name `getAlternateIconName` reports for the current alias. */
  function NameOf(entry: Option<ActivityEntry>): Option<string> {
    if entry.Some? then Some(entry.value.name) else None
  }

  // ---------------------------------------------------------------------
  // The plugin object

  /**
    The plugin registered on the channel. `activityAttached` stands for the
    `activity` field the lifecycle callbacks set and clear;
    `serviceStarted` records that the deferred-switch service was started.
   */
  class Plugin {
    var activityAttached: bool
    var serviceStarted: bool

    constructor ()
      ensures !activityAttached && !serviceStarted
    {
      activityAttached := false;
      serviceStarted := false;
    }

    /** `onAttachedToActivity` and `onReattachedToActivityForConfigChanges`. */
    method OnAttachedToActivity()
      modifies this
      ensures activityAttached && serviceStarted == old(serviceStarted)
    {
      activityAttached := true;
    }

    /** `onDetachedFromActivity` and `onDetachedFromActivityForConfigChanges`. */
    method OnDetachedFromActivity()
      modifies this
      ensures !activityAttached && serviceStarted == old(serviceStarted)
    {
      activityAttached := false;
    }

    /**
      `onMethodCall` against the attached activity's package manager `pm`,
      preference file `prefs` and package name, on `device`;
      `commitSucceeds` is whether the preference write reaches storage.
     */
    method OnMethodCall(call: MethodCall, pm: PackageManager, prefs: SharedPreferences,
                        packageName: string, device: Device, commitSucceeds: bool)
      returns (reply: Reply)
      modifies this, pm, prefs
      ensures activityAttached == old(activityAttached)
      // No activity: an error, and nothing is stored or switched.
      ensures call.SetAlternateIconName? && !activityAttached ==>
        && reply == ACTIVITY_NOT_FOUND
        && pm.settings == old(pm.settings) && prefs.appIcon == old(prefs.appIcon)
        && serviceStarted == old(serviceStarted)
      // The name could not be stored: an error, and nothing is switched.
      ensures call.SetAlternateIconName? && activityAttached && !commitSucceeds ==>
        && reply == StoreFailed(call.iconName)
        && pm.settings == old(pm.settings) && prefs.appIcon == old(prefs.appIcon)
        && serviceStarted == old(serviceStarted)
      // Stored: the request succeeds whichever path it takes.
      ensures call.SetAlternateIconName? && activityAttached && commitSucceeds ==>
        reply == Success(BoolValue(true))
      // Stored, not blacklisted, a name given: switch to the stored name, then forget it.
      ensures call.SetAlternateIconName? && activityAttached && commitSucceeds
              && !OnBlacklist(call.brands, call.manufactures, call.models, device)
              && call.iconName.Some? && call.iconName.value != [] ==>
        && pm.settings == ComponentUtil.ChangeAppIconEffect(pm.catalog, old(pm.settings), packageName, call.iconName)
        && prefs.appIcon == None
        && serviceStarted == old(serviceStarted)
      // Stored, not blacklisted, no name: back to the default icon.
      ensures call.SetAlternateIconName? && activityAttached && commitSucceeds
              && !OnBlacklist(call.brands, call.manufactures, call.models, device)
              && (call.iconName.None? || call.iconName.value == []) ==>
        && pm.settings == ComponentUtil.ResetEffect(pm.catalog, old(pm.settings))
        && prefs.appIcon == None
        && serviceStarted == old(serviceStarted)
      // Stored on a blacklisted device: nothing is switched, the name stays for the service.
      ensures call.SetAlternateIconName? && activityAttached && commitSucceeds
              && OnBlacklist(call.brands, call.manufactures, call.models, device) ==>
        && pm.settings == old(pm.settings)
        && prefs.appIcon == call.iconName
        && serviceStarted
      // The queries and unknown methods change nothing.
      ensures !call.SetAlternateIconName? ==>
        && pm.settings == old(pm.settings) && prefs.appIcon == old(prefs.appIcon)
        && serviceStarted == old(serviceStarted)
      ensures call.SupportsAlternateIcons? ==>
        reply == Success(BoolValue(activityAttached && |pm.catalog| > 1))
      ensures call.GetAlternateIconName? ==>
        reply == if activityAttached
                 then Success(NameValue(NameOf(ComponentUtil.CurrentEnabledAlias(pm.catalog, pm.settings))))
                 else ACTIVITY_NOT_FOUND
      ensures call.OtherMethod? ==> reply == NotImplemented
    {
      match call
      case SetAlternateIconName(iconName, brands, manufactures, models) =>
        if !activityAttached {
          reply := ACTIVITY_NOT_FOUND;
          return;
        }
        var saved := prefs.CommitPutString(iconName, commitSucceeds);
        if !saved {
          reply := StoreFailed(iconName);
          return;
        }
        var blacklisted := ContainsOnBlacklist(brands, manufactures, models, device);
        if !blacklisted {
          if iconName.Some? && iconName.value != [] {
            ComponentUtil.ChangeAppIcon(pm, prefs, packageName);
            ComponentUtil.RemoveCurrentAppIcon(prefs);
          } else {
            ComponentUtil.ResetToDefaultIcon(pm, prefs);
          }
        } else {
          serviceStarted := true;
        }
        reply := Success(BoolValue(true));
      case SupportsAlternateIcons =>
        if activityAttached {
          reply := Success(BoolValue(|pm.catalog| > 1));
        } else {
          reply := Success(BoolValue(false));
        }
      case GetAlternateIconName =>
        if activityAttached {
          var enabledComponent := ComponentUtil.GetCurrentEnabledAlias(pm);
          reply := Success(NameValue(NameOf(enabledComponent)));
        } else {
          reply := ACTIVITY_NOT_FOUND;
        }
      case OtherMethod(_) =>
        reply := NotImplemented;
    }
  }
}
