# flutter_dynamic_icon_plus — a Dafny model of the Android icon switch

flutter_dynamic_icon_plus lets a Flutter app change its launcher icon. On
Android an app ships one main activity plus several `activity-alias`
entries, and each alias carries its own icon. The launcher shows whichever
of these components is enabled. The plugin switches icons by rewriting the
package manager's enabled-state registry: it enables the chosen alias and
disables every other alias and the main activity. On devices the caller
names in a brand/manufacturer/model blacklist, the switch is deferred. The
request stays in shared preferences, and a background service applies it
when the app is closed.

This project models that core in Dafny and proves what it guarantees:

- `Text.dfy`: Kotlin's `split` (empty pieces kept), `trim` (Kotlin
  whitespace) and `equals(…, ignoreCase = true)`, with their algebra.
- `Platform.dfy`: the Android surfaces the core uses. The activity catalog
  is the read-only list from `getPackageInfo`. The enabled-state registry
  is a `map` from component name to one of the five
  `COMPONENT_ENABLED_STATE_*` values, and a missing name reads as
  `DEFAULT`. Shared preferences hold the single `app_icon` slot. The
  package manager and the preferences are classes whose methods update
  their fields in place; the catalog is a `const` field of the package
  manager.
- `ComponentUtil.dfy`: the `ComponentUtil` object. The scans over the
  catalog and the state each operation leaves behind are specification
  functions. The operations themselves are methods with loops that are
  proved against those functions. The lemmas prove convergence:
  - after `setupIcon` on a declared alias, exactly one icon component is
    enabled, and it is the one the caller asked for. `changeAppIcon`
    establishes this whenever it switches, that is, whenever the resolved
    target is not already the current alias. When it skips, the registry
    stays as it was, so the property holds afterwards only if it held
    before;
  - a switch that is repeated changes nothing;
  - a name that is not an alias changes nothing;
  - a reset disables every alias and enables the main activity, so no
    alias is current afterwards.
- `IconPlugin.dfy`: the method-channel handler. It covers the blacklist
  test, the `activity` attachment state and the three channel methods,
  with one postcondition per outcome of `onMethodCall`.

Four behaviours of the code that the model keeps:

- `supportsAlternateIcons` answers `true` when the catalog holds more
  than one activity of any kind. It does not require an alias.
- The "currently enabled alias" is the **last** enabled alias in catalog
  order.
- `setAlternateIconName` answers `true` even when the requested name is
  not a declared alias. In that case the registry is left unchanged. On a
  device that is not blacklisted the stored request is still cleared; on a
  blacklisted device it stays stored for the service.
- `changeAppIcon` skips the switch when the target is already the current
  (last enabled) alias, without checking the other components. So a
  request for the alias that is already current does not restore "exactly
  one icon enabled" once it has been lost. A request for any other
  declared alias does restore it. Take a main activity enabled by its
  manifest and the alias `p.A` enabled explicitly: a request for `A` then
  changes nothing, and both stay enabled (`ChangeAppIconSkipKeepsMain`).

## Model

| member | source | states |
|---|---|---|
| Text.Split | android/src/main/kotlin/com/solusibejo/flutter_dynamic_icon_plus/FlutterDynamicIconPlusPlugin.kt:132-134 | Kotlin's `split` with no limit on one delimiter; what it computes is pinned down by `JoinSplit` and `SplitJoin` |
| Text.Trim | android/src/main/kotlin/com/solusibejo/flutter_dynamic_icon_plus/FlutterDynamicIconPlusPlugin.kt:132-134 | Kotlin's `trim`; what it computes is pinned down by `TrimShape` |
| Text.EqualsIgnoreCase | android/src/main/kotlin/com/solusibejo/flutter_dynamic_icon_plus/FlutterDynamicIconPlusPlugin.kt:144 | `equals(…, ignoreCase = true)`: equal length and equal characters after ASCII case folding |
| Text.JoinSplit | android/src/main/kotlin/com/solusibejo/flutter_dynamic_icon_plus/FlutterDynamicIconPlusPlugin.kt:132-134 | no piece of `split(sep)` contains `sep`, and joining the pieces with `sep` rebuilds the input exactly (empty pieces are kept) |
| Text.SplitJoin | android/src/main/kotlin/com/solusibejo/flutter_dynamic_icon_plus/FlutterDynamicIconPlusPlugin.kt:132-134 | splitting a `sep`-joined list of `sep`-free names gives back that very list |
| Text.JoinKeeps | android/src/main/kotlin/com/solusibejo/flutter_dynamic_icon_plus/FlutterDynamicIconPlusPlugin.kt:132-134 | every character of a piece occurs in the joined string |
| Text.TrimShape | android/src/main/kotlin/com/solusibejo/flutter_dynamic_icon_plus/FlutterDynamicIconPlusPlugin.kt:132-134 | `trim` returns a contiguous slice of its input that neither starts nor ends with whitespace, and everything it drops is whitespace |
| Text.TrimTrimmed | android/src/main/kotlin/com/solusibejo/flutter_dynamic_icon_plus/FlutterDynamicIconPlusPlugin.kt:132-134 | a string without surrounding whitespace is its own trim |
| Text.TrimBlank | android/src/main/kotlin/com/solusibejo/flutter_dynamic_icon_plus/FlutterDynamicIconPlusPlugin.kt:132-134 | an all-whitespace string trims to the empty string |
| Platform.PackageManager.SetComponentEnabledSetting | android/src/main/kotlin/com/solusibejo/flutter_dynamic_icon_plus/ComponentUtil.kt:25-29 | the registry entry of that one component becomes the new setting; every other entry and the catalog stay as they were |
| Platform.SharedPreferences.CommitPutString | android/src/main/kotlin/com/solusibejo/flutter_dynamic_icon_plus/FlutterDynamicIconPlusPlugin.kt:47 | `commit` reports whether the write reached storage; on success the slot holds the value (a null value removes it), and on failure it is untouched |
| Platform.SharedPreferences.ApplyRemove | android/src/main/kotlin/com/solusibejo/flutter_dynamic_icon_plus/ComponentUtil.kt:211 | the `app_icon` slot is empty afterwards |
| ComponentUtil.FirstNamed | android/src/main/kotlin/com/solusibejo/flutter_dynamic_icon_plus/ComponentUtil.kt:118-122 | the first entry with a given name, as found by the loops in `isComponentEnabled` and by `find` in `setupIcon`; characterised by `FirstNamedSpec` |
| ComponentUtil.MainActivity | android/src/main/kotlin/com/solusibejo/flutter_dynamic_icon_plus/ComponentUtil.kt:161-173 | `getMainActivity`: the first entry without a target activity; characterised by `MainActivitySpec` |
| ComponentUtil.Aliases | android/src/main/kotlin/com/solusibejo/flutter_dynamic_icon_plus/ComponentUtil.kt:146-159 | `getAllActivityAliases` as a value: the catalog filtered to its aliases; characterised by `AliasesSpec` and `AliasesAppend` |
| ComponentUtil.EnabledAliasScan | android/src/main/kotlin/com/solusibejo/flutter_dynamic_icon_plus/ComponentUtil.kt:80-95 | the loop of `getCurrentEnabledAlias` after a prefix of the catalog; characterised by `ScanSpec` |
| ComponentUtil.CurrentEnabledAlias | android/src/main/kotlin/com/solusibejo/flutter_dynamic_icon_plus/ComponentUtil.kt:75-100 | `getCurrentEnabledAlias` as a value: the scan over the whole catalog, so the last enabled alias (`ScanSpec`) |
| ComponentUtil.DisableAliases | android/src/main/kotlin/com/solusibejo/flutter_dynamic_icon_plus/ComponentUtil.kt:252-256 | the registry after the disable sweep over the aliases; characterised by `DisableAliasesAt` |
| ComponentUtil.SetupIconEffect | android/src/main/kotlin/com/solusibejo/flutter_dynamic_icon_plus/ComponentUtil.kt:224-261 | the registry `setupIcon` leaves behind; characterised by `SetupIconAt`, `SetupIconConverges`, `SetupIconExactlyOne` and `SetupIconUnknown` |
| ComponentUtil.ResetEffect | android/src/main/kotlin/com/solusibejo/flutter_dynamic_icon_plus/ComponentUtil.kt:272-283 | the registry `resetToDefaultIcon` leaves behind; characterised by `ResetAt`, `ResetConverges` and `ResetClearsCurrent` |
| ComponentUtil.ChangeAppIconEffect | android/src/main/kotlin/com/solusibejo/flutter_dynamic_icon_plus/ComponentUtil.kt:181-206 | the registry `changeAppIcon` leaves behind for a stored name; characterised by the `ChangeAppIcon…` lemmas |
| ComponentUtil.FirstNamedSpec | android/src/main/kotlin/com/solusibejo/flutter_dynamic_icon_plus/ComponentUtil.kt:118-122 | the lookup finds an entry iff one has that name, and it returns the first one |
| ComponentUtil.MainActivitySpec | android/src/main/kotlin/com/solusibejo/flutter_dynamic_icon_plus/ComponentUtil.kt:161-173 | the main activity is the first non-alias entry of the catalog, and there is none iff every entry is an alias |
| ComponentUtil.AliasesSpec | android/src/main/kotlin/com/solusibejo/flutter_dynamic_icon_plus/ComponentUtil.kt:146-159 | an entry is in the alias list iff it is in the catalog and has a target activity |
| ComponentUtil.AliasesAppend | android/src/main/kotlin/com/solusibejo/flutter_dynamic_icon_plus/ComponentUtil.kt:150-154 | the alias list of a concatenation is the concatenation of the alias lists, so catalog order is kept |
| ComponentUtil.GetAllActivityAliases | android/src/main/kotlin/com/solusibejo/flutter_dynamic_icon_plus/ComponentUtil.kt:146-159 | the loop returns exactly the catalog's aliases, in catalog order |
| ComponentUtil.IsComponentEnabled | android/src/main/kotlin/com/solusibejo/flutter_dynamic_icon_plus/ComponentUtil.kt:109-111 | an explicit `DISABLED` always reads as disabled and an explicit `ENABLED` always reads as enabled |
| ComponentUtil.DefaultResolution | android/src/main/kotlin/com/solusibejo/flutter_dynamic_icon_plus/ComponentUtil.kt:112-142 | under any other setting the component is enabled iff the first catalog entry with its name is enabled in the manifest; a name absent from the catalog is never enabled |
| ComponentUtil.ScanSpec | android/src/main/kotlin/com/solusibejo/flutter_dynamic_icon_plus/ComponentUtil.kt:80-95 | the scan finds an entry iff some alias is enabled; the entry it finds is an enabled alias, and no later alias is enabled (the last one wins) |
| ComponentUtil.GetCurrentEnabledAlias | android/src/main/kotlin/com/solusibejo/flutter_dynamic_icon_plus/ComponentUtil.kt:75-100 | the loop returns the last enabled alias of the catalog, or nothing when no alias is enabled |
| ComponentUtil.ResolveTargetName | android/src/main/kotlin/com/solusibejo/flutter_dynamic_icon_plus/ComponentUtil.kt:190-196 | the full name always starts with the package name and ends with the requested name; a name already starting with the package is kept, a leading `.` is appended directly, and anything else is joined with `.` |
| ComponentUtil.ResolveIdempotent | android/src/main/kotlin/com/solusibejo/flutter_dynamic_icon_plus/ComponentUtil.kt:190-196 | resolving an already resolved name changes nothing |
| ComponentUtil.ResolveExamples | android/src/main/kotlin/com/solusibejo/flutter_dynamic_icon_plus/ComponentUtil.kt:190-196 | `IconRed`, `.IconRed` and `com.example.app.IconRed` all resolve to `com.example.app.IconRed`; `com.example.appX` is kept as is (the prefix test ignores the dot boundary) |
| ComponentUtil.DisableAliasesAt | android/src/main/kotlin/com/solusibejo/flutter_dynamic_icon_plus/ComponentUtil.kt:252-256 | after the sweep each listed alias other than the kept one is `DISABLED`, and every other name has its earlier setting |
| ComponentUtil.FindAlias | android/src/main/kotlin/com/solusibejo/flutter_dynamic_icon_plus/ComponentUtil.kt:240 | the alias lookup succeeds iff some alias in the catalog has that name |
| ComponentUtil.SetupIconAt | android/src/main/kotlin/com/solusibejo/flutter_dynamic_icon_plus/ComponentUtil.kt:248-261 | the setting of each component after a switch: target `ENABLED`, other aliases and the main activity `DISABLED`, all else unchanged |
| ComponentUtil.SetupIconConverges | android/src/main/kotlin/com/solusibejo/flutter_dynamic_icon_plus/ComponentUtil.kt:248-261 | after a switch to a declared alias, that alias is `ENABLED`, every other alias is `DISABLED`, the main activity is `DISABLED` unless it is the target, and every name that is neither an alias nor the main activity keeps its setting |
| ComponentUtil.SetupIconExactlyOne | android/src/main/kotlin/com/solusibejo/flutter_dynamic_icon_plus/ComponentUtil.kt:248-261 | after a switch, among the aliases and the main activity exactly those named like the target are enabled |
| ComponentUtil.SetupIconUnknown | android/src/main/kotlin/com/solusibejo/flutter_dynamic_icon_plus/ComponentUtil.kt:224-246 | an empty name, or a name that is not a declared alias, leaves the registry untouched |
| ComponentUtil.SetupIconIsCurrent | android/src/main/kotlin/com/solusibejo/flutter_dynamic_icon_plus/ComponentUtil.kt:248-261 | after a switch to an alias, getCurrentEnabledAlias reports an entry carrying the target's name |
| ComponentUtil.ChangeAppIconNoPending | android/src/main/kotlin/com/solusibejo/flutter_dynamic_icon_plus/ComponentUtil.kt:181-184 | with no stored name, or an empty one, the registry is untouched |
| ComponentUtil.ChangeAppIconUnknown | android/src/main/kotlin/com/solusibejo/flutter_dynamic_icon_plus/ComponentUtil.kt:186-206 | a stored name whose full form is no declared alias leaves the registry untouched |
| ComponentUtil.ChangeAppIconConverges | android/src/main/kotlin/com/solusibejo/flutter_dynamic_icon_plus/ComponentUtil.kt:175-207 | a stored name that resolves to a declared alias makes an alias of that full name the current icon; when one already was, the registry is left unchanged |
| ComponentUtil.ChangeAppIconSwitchExactlyOne | android/src/main/kotlin/com/solusibejo/flutter_dynamic_icon_plus/ComponentUtil.kt:206 | when the resolved target is a declared alias that is not the current one, exactly that alias is enabled among the icon components afterwards, whatever the registry held before |
| ComponentUtil.ChangeAppIconExactlyOne | android/src/main/kotlin/com/solusibejo/flutter_dynamic_icon_plus/ComponentUtil.kt:186-206 | if exactly one icon component was enabled before, then after a request for a declared alias exactly that alias is enabled among the icon components, whether the call switches or skips |
| ComponentUtil.ChangeAppIconSkipKeepsMain | android/src/main/kotlin/com/solusibejo/flutter_dynamic_icon_plus/ComponentUtil.kt:200-204 | the skip keeps a stale state: with the main activity enabled by its manifest and alias `p.A` enabled explicitly, a request for `A` changes nothing, and two icon components stay enabled |
| ComponentUtil.ChangeAppIconIdempotent | android/src/main/kotlin/com/solusibejo/flutter_dynamic_icon_plus/ComponentUtil.kt:200-204 | applying the same stored request a second time changes nothing |
| ComponentUtil.ResetAt | android/src/main/kotlin/com/solusibejo/flutter_dynamic_icon_plus/ComponentUtil.kt:272-285 | the setting of each component after a reset: aliases `DISABLED`, main activity `ENABLED`, all else unchanged |
| ComponentUtil.ResetConverges | android/src/main/kotlin/com/solusibejo/flutter_dynamic_icon_plus/ComponentUtil.kt:272-285 | after a reset every alias is `DISABLED`, the main activity is `ENABLED`, and names outside the catalog keep their setting |
| ComponentUtil.ResetClearsCurrent | android/src/main/kotlin/com/solusibejo/flutter_dynamic_icon_plus/ComponentUtil.kt:272-285 | after a reset getCurrentEnabledAlias reports no alias |
| ComponentUtil.Enable | android/src/main/kotlin/com/solusibejo/flutter_dynamic_icon_plus/ComponentUtil.kt:16-34 | the component's setting becomes `ENABLED` and nothing else changes |
| ComponentUtil.Disable | android/src/main/kotlin/com/solusibejo/flutter_dynamic_icon_plus/ComponentUtil.kt:36-54 | the component's setting becomes `DISABLED` and nothing else changes |
| ComponentUtil.DisableEach | android/src/main/kotlin/com/solusibejo/flutter_dynamic_icon_plus/ComponentUtil.kt:252-256 | the `forEach` loop leaves the registry in the state `DisableAliases` specifies |
| ComponentUtil.SetupIcon | android/src/main/kotlin/com/solusibejo/flutter_dynamic_icon_plus/ComponentUtil.kt:215-264 | the registry after the call is the switch effect of the requested name on the registry before it |
| ComponentUtil.RemoveCurrentAppIcon | android/src/main/kotlin/com/solusibejo/flutter_dynamic_icon_plus/ComponentUtil.kt:209-213 | the stored request is cleared |
| ComponentUtil.ResetToDefaultIcon | android/src/main/kotlin/com/solusibejo/flutter_dynamic_icon_plus/ComponentUtil.kt:269-287 | the registry becomes the reset effect of the old registry, and the stored request is cleared |
| ComponentUtil.ChangeAppIcon | android/src/main/kotlin/com/solusibejo/flutter_dynamic_icon_plus/ComponentUtil.kt:175-207 | the registry becomes the effect of the stored request on the old registry; the stored request itself is not touched |
| IconPlugin.Entries | android/src/main/kotlin/com/solusibejo/flutter_dynamic_icon_plus/FlutterDynamicIconPlusPlugin.kt:132-134 | one entry per comma-separated piece, each piece trimmed |
| IconPlugin.OnBlacklist | android/src/main/kotlin/com/solusibejo/flutter_dynamic_icon_plus/FlutterDynamicIconPlusPlugin.kt:131-170 | what `containsOnBlacklist` decides: some given axis has a non-empty trimmed entry equal to the device's field, ignoring case; computed by `ContainsOnBlacklist` |
| IconPlugin.AnyMatch | android/src/main/kotlin/com/solusibejo/flutter_dynamic_icon_plus/FlutterDynamicIconPlusPlugin.kt:143-148 | the loop reports a match iff some non-empty entry equals the device field, ignoring case |
| IconPlugin.ContainsOnBlacklist | android/src/main/kotlin/com/solusibejo/flutter_dynamic_icon_plus/FlutterDynamicIconPlusPlugin.kt:131-170 | the device is listed iff some given axis (brands, manufacturers or models) has an entry matching the device's field for that axis |
| IconPlugin.BlankFilterNeverMatches | android/src/main/kotlin/com/solusibejo/flutter_dynamic_icon_plus/FlutterDynamicIconPlusPlugin.kt:142-148 | a filter made only of commas and whitespace matches no device |
| IconPlugin.ListedNameMatches | android/src/main/kotlin/com/solusibejo/flutter_dynamic_icon_plus/FlutterDynamicIconPlusPlugin.kt:142-148 | a device is listed when its field equals, ignoring case, one non-empty entry of a comma-joined list whose entries contain no comma, provided that entry has no surrounding whitespace |
| IconPlugin.Plugin.OnAttachedToActivity | android/src/main/kotlin/com/solusibejo/flutter_dynamic_icon_plus/FlutterDynamicIconPlusPlugin.kt:176-179 | the handler has an activity afterwards |
| IconPlugin.Plugin.OnDetachedFromActivity | android/src/main/kotlin/com/solusibejo/flutter_dynamic_icon_plus/FlutterDynamicIconPlusPlugin.kt:189-191 | the handler has no activity afterwards |
| IconPlugin.Plugin.OnMethodCall | android/src/main/kotlin/com/solusibejo/flutter_dynamic_icon_plus/FlutterDynamicIconPlusPlugin.kt:33-129 | the outcome of every path (listed below the table) |

The paths of `IconPlugin.Plugin.OnMethodCall`:

- `setAlternateIconName` without an activity: the "Activity not found"
  error, and nothing changes.
- A failed commit: the "Failed store … to local storage" error, and
  nothing changes.
- Otherwise the reply is `true`. Then:
  - on a device that is not listed, with a non-empty name, the registry
    takes the effect of that request and the stored request is cleared;
  - on a device that is not listed, with a null or empty name, the
    registry is reset and the stored request is cleared;
  - on a listed device the registry is untouched, the request stays
    stored, and the service is started.
- `supportsAlternateIcons`: the reply is attached ∧ (more than one
  activity).
- `getAlternateIconName`: the last enabled alias's name, or the
  attachment error.
- Any other method: "not implemented".
- The queries change nothing.

## Left out

- Android's `PackageManager`, `Context`, `ComponentName`, `Log` and the
  Flutter channel plumbing are platform code. They become the `Platform`
  classes, or are left out. Log messages are not modelled.
- The exceptions that `enable`/`disable` swallow are not modelled. The
  model treats every registry write as succeeding.
- `NameNotFoundException` from `getPackageInfo` is not modelled
  separately. The scans then behave exactly as on an empty catalog, which
  the model covers.
- The Android SDK version branch in `packageInfo` is left out. Both
  branches return the same catalog.
- `getComponentEnabledSetting` for a component the package does not
  declare (Android throws) is not modelled. The model reads it as
  `DEFAULT`, which `isComponentEnabled` then resolves to "not enabled".
- `FlutterDynamicIconPlusService` is not part of this model. Starting it
  is the `serviceStarted` flag of the plugin.
- `MethodNames.kt` and `Arguments.kt` are not part of this model. The
  channel methods and their arguments are the `MethodCall` datatype.
- `onAttachedToEngine`/`onDetachedFromEngine` only register the channel,
  so they are left out.
- `onReattachedToActivityForConfigChanges` is `OnAttachedToActivity`, and
  `onDetachedFromActivityForConfigChanges` is `OnDetachedFromActivity`,
  because their bodies are identical.
- The `currentlyEnabledName` argument of `setupIcon` is only logged, so
  the model drops it.
- Text.EqualsIgnoreCase: folds ASCII letters only. Kotlin also folds
  other Unicode letters (through `uppercaseChar`/`lowercaseChar`), and
  the model does not cover that.
- Text.IsWhitespace: follows the whitespace set of current Java versions.
  U+180E, which older Unicode versions counted, is left out.
- Platform.SharedPreferences.CommitPutString: a failed `commit` leaves the
  slot unchanged. On Android the in-memory copy may already hold the new
  value; the model does not capture that.
- ComponentUtil.SetupIconExactlyOne: "exactly one enabled" is stated over
  the icon components only (the aliases and the main activity). Other
  plain activities are never touched by the code, so they keep whatever
  state they had.
- ComponentUtil.ResetConverges: states the main activity's `ENABLED`
  setting only when no alias shares its name. When one does, the later
  alias sweep disables that name, as the code does.
- The concurrency between the blacklist path and the service is not
  modelled: the app closing and the service running later.
