/**
  The icon switch. An app declares one main activity and several
  `<activity-alias>` entries that point at it, each with its own launcher
  icon; the icon shown is the one whose component is enabled. These
  operations read the catalog, resolve each component's enabled state, and
  converge the package manager's settings so that exactly one icon component
  is enabled.
 */
module ComponentUtil {
  import opened Wrappers
  import opened Text
  import opened Platform

  type Settings = map<string, EnabledSetting>

  // ---------------------------------------------------------------------
  // Catalog scans

  /** The first catalog entry with the given name (the lookup in `isComponentEnabled` and `allAliases.find`). */
  function FirstNamed(c: seq<ActivityEntry>, name: string): Option<ActivityEntry> {
    if c == [] then None
    else if c[0].name == name then Some(c[0])
    else FirstNamed(c[1..], name)
  }

  /** FirstNamed finds an entry exactly when one has the name, and then the earliest one. */
  lemma {:induction false} FirstNamedSpec(c: seq<ActivityEntry>, name: string)
    ensures var r := FirstNamed(c, name);
      && (r.None? <==> forall i :: 0 <= i < |c| ==> c[i].name != name)
      && (r.Some? ==> exists i :: 0 <= i < |c| && c[i] == r.value && c[i].name == name
                                && forall j :: 0 <= j < i ==> c[j].name != name)
    decreases |c|
  {
    if c != [] && c[0].name != name {
      FirstNamedSpec(c[1..], name);
      var r := FirstNamed(c[1..], name);
      assert forall j :: 0 < j < |c| ==> c[j] == c[1..][j - 1];
      if r.Some? {
        var i :| 0 <= i < |c[1..]| && c[1..][i] == r.value && c[1..][i].name == name
                 && forall j :: 0 <= j < i ==> c[1..][j].name != name;
        assert c[i + 1] == r.value;
      }
    }
  }

  /** `getMainActivity`: the first catalog entry that is not an alias. */
  function MainActivity(c: seq<ActivityEntry>): Option<ActivityEntry> {
    if c == [] then None
    else if !c[0].isAlias then Some(c[0])
    else MainActivity(c[1..])
  }

  /** MainActivity finds an entry exactly when one is no alias, and then the earliest one. */
  lemma {:induction false} MainActivitySpec(c: seq<ActivityEntry>)
    ensures var r := MainActivity(c);
      && (r.None? <==> forall i :: 0 <= i < |c| ==> c[i].isAlias)
      && (r.Some? ==> exists i :: 0 <= i < |c| && c[i] == r.value && !c[i].isAlias
                                && forall j :: 0 <= j < i ==> c[j].isAlias)
    decreases |c|
  {
    if c != [] && c[0].isAlias {
      MainActivitySpec(c[1..]);
      var r := MainActivity(c[1..]);
      assert forall j :: 0 < j < |c| ==> c[j] == c[1..][j - 1];
      if r.Some? {
        var i :| 0 <= i < |c[1..]| && c[1..][i] == r.value && !c[1..][i].isAlias
                 && forall j :: 0 <= j < i ==> c[1..][j].isAlias;
        assert c[i + 1] == r.value;
      }
    }
  }

  /** The alias entries of the catalog, in catalog order. */
  function Aliases(c: seq<ActivityEntry>): seq<ActivityEntry>
    decreases |c|
  {
    if c == [] then []
    else Aliases(c[..|c| - 1]) + (if c[|c| - 1].isAlias then [c[|c| - 1]] else [])
  }

  /** Exactly the catalog's aliases are kept. */
  lemma {:induction false} AliasesSpec(c: seq<ActivityEntry>)
    ensures forall e :: e in Aliases(c) <==> e in c && e.isAlias
    decreases |c|
  {
    if c != [] {
      var front := c[..|c| - 1];
      AliasesSpec(front);
      assert c == front + [c[|c| - 1]];
    }
  }

  /** Filtering distributes over concatenation: the aliases keep their catalog order. */
  lemma {:induction false} AliasesAppend(a: seq<ActivityEntry>, b: seq<ActivityEntry>)
    ensures Aliases(a + b) == Aliases(a) + Aliases(b)
    decreases |b|
  {
    if b == [] {
      assert a + b == a;
    } else {
      var front := b[..|b| - 1];
      AliasesAppend(a, front);
      assert (a + b)[..|a + b| - 1] == a + front;
      assert (a + b)[|a + b| - 1] == b[|b| - 1];
    }
  }

  /** `getAllActivityAliases`: collect the aliases into a fresh list. */
  method GetAllActivityAliases(pm: PackageManager) returns (aliases: seq<ActivityEntry>)
    ensures aliases == Aliases(pm.catalog)
  {
    var c := pm.catalog;
    aliases := [];
    var i := 0;
    while i < |c|
      invariant 0 <= i <= |c|
      invariant aliases == Aliases(c[..i])
    {
      assert c[..i + 1][..i] == c[..i];
      if c[i].isAlias {
        aliases := aliases + [c[i]];
      }
      i := i + 1;
    }
    assert c[..|c|] == c;
  }

  // ---------------------------------------------------------------------
  // Enabled-state resolution

  /**
    `isComponentEnabled`: an explicit ENABLED or DISABLED setting decides;
    DEFAULT and every other setting fall back to the manifest flag of the
    first catalog entry with that name, and to false when there is none.
   */
  function IsComponentEnabled(c: seq<ActivityEntry>, s: Settings, name: string): (r: bool)
    ensures SettingOf(s, name) == Disabled ==> !r
    ensures SettingOf(s, name) == Enabled ==> r
  {
    match SettingOf(s, name)
    case Disabled => false
    case Enabled => true
    case _ =>
      var entry := FirstNamed(c, name);
      entry.Some? && entry.value.manifestEnabled
  }

  /**
    Under DEFAULT or any setting other than ENABLED and DISABLED, a component
    is enabled exactly when the first catalog entry of that name declares it
    enabled; a name missing from the catalog is never enabled.
   */
  lemma DefaultResolution(c: seq<ActivityEntry>, s: Settings, name: string)
    requires SettingOf(s, name) != Enabled && SettingOf(s, name) != Disabled
    ensures IsComponentEnabled(c, s, name) <==>
      exists i :: 0 <= i < |c| && c[i].name == name && c[i].manifestEnabled
                  && forall j :: 0 <= j < i ==> c[j].name != name
    ensures (forall i :: 0 <= i < |c| ==> c[i].name != name) ==> !IsComponentEnabled(c, s, name)
  {
    FirstNamedSpec(c, name);
    var entry := FirstNamed(c, name);
    if exists i :: 0 <= i < |c| && c[i].name == name && c[i].manifestEnabled
                   && forall j :: 0 <= j < i ==> c[j].name != name {
      var i :| 0 <= i < |c| && c[i].name == name && c[i].manifestEnabled
               && forall j :: 0 <= j < i ==> c[j].name != name;
      var k :| 0 <= k < |c| && c[k] == entry.value && c[k].name == name
               && forall j :: 0 <= j < k ==> c[j].name != name;
      assert !(i < k) && !(k < i);
    }
    if entry.Some? && entry.value.manifestEnabled {
      var k :| 0 <= k < |c| && c[k] == entry.value && c[k].name == name
               && forall j :: 0 <= j < k ==> c[j].name != name;
      assert c[k].manifestEnabled;
    }
  }

  /** Entry `i` is an alias whose resolved state is enabled. */
  predicate EnabledAliasAt(c: seq<ActivityEntry>, s: Settings, i: nat)
    requires i < |c|
  {
    c[i].isAlias && IsComponentEnabled(c, s, c[i].name)
  }

  /**
    The loop of `getCurrentEnabledAlias` over the first `n` entries: the
    last alias found enabled wins, and none is reported when no alias is
    enabled.
   */
  function EnabledAliasScan(c: seq<ActivityEntry>, s: Settings, n: nat): Option<ActivityEntry>
    requires n <= |c|
  {
    if n == 0 then None
    else if EnabledAliasAt(c, s, n - 1) then Some(c[n - 1])
    else EnabledAliasScan(c, s, n - 1)
  }

  /**
    The scan reports nothing exactly when no alias among the first `n` is
    enabled, and otherwise an enabled alias after which none is enabled.
   */
  lemma {:induction false} ScanSpec(c: seq<ActivityEntry>, s: Settings, n: nat)
    requires n <= |c|
    ensures var r := EnabledAliasScan(c, s, n);
      && (r.None? <==> forall i :: 0 <= i < n ==> !EnabledAliasAt(c, s, i))
      && (r.Some? ==> exists i :: 0 <= i < n && c[i] == r.value && EnabledAliasAt(c, s, i)
                                && forall j :: i < j < n ==> !EnabledAliasAt(c, s, j))
  {
    if n > 0 && !EnabledAliasAt(c, s, n - 1) {
      ScanSpec(c, s, n - 1);
    }
  }

  /** One more entry scanned: it wins when it is an enabled alias. */
  lemma ScanStep(c: seq<ActivityEntry>, s: Settings, i: nat)
    requires i < |c|
    ensures EnabledAliasScan(c, s, i + 1) ==
      if c[i].isAlias && IsComponentEnabled(c, s, c[i].name) then Some(c[i]) else EnabledAliasScan(c, s, i)
  {
  }

  /** The alias `getCurrentEnabledAlias` reports for a whole catalog. */
  function CurrentEnabledAlias(c: seq<ActivityEntry>, s: Settings): Option<ActivityEntry> {
    EnabledAliasScan(c, s, |c|)
  }

  /** `getCurrentEnabledAlias`: scan the catalog, remembering the latest enabled alias. */
  method GetCurrentEnabledAlias(pm: PackageManager) returns (enabled: Option<ActivityEntry>)
    ensures enabled == CurrentEnabledAlias(pm.catalog, pm.settings)
  {
    var c, s := pm.catalog, pm.settings;
    enabled := None;
    var i := 0;
    while i < |c|
      invariant 0 <= i <= |c|
      invariant enabled == EnabledAliasScan(c, s, i)
    {
      ScanStep(c, s, i);
      if c[i].isAlias {
        var isEnabled := IsComponentEnabled(c, s, c[i].name);
        if isEnabled {
          enabled := Some(c[i]);
        }
      }
      i := i + 1;
    }
  }

  // ---------------------------------------------------------------------
  // Name resolution

  /**
    The full component name `changeAppIcon` builds from a requested icon
    name: unchanged when it already starts with the package name (even
    without a dot boundary), appended when it starts with ".", and
    otherwise joined to the package name with a dot.
   */
  function ResolveTargetName(pkg: string, name: string): (full: string)
    ensures StartsWith(full, pkg)
    ensures |name| <= |full| && full[|full| - |name|..] == name
    ensures StartsWith(name, pkg) ==> full == name
    ensures !StartsWith(name, pkg) && StartsWith(name, ".") ==> full == pkg + name
    ensures !StartsWith(name, pkg) && !StartsWith(name, ".") ==> full == pkg + "." + name
  {
    if StartsWith(name, pkg) then name
    else if StartsWith(name, ".") then pkg + name
    else pkg + "." + name
  }

  /** Resolving an already resolved name changes nothing. */
  lemma ResolveIdempotent(pkg: string, name: string)
    ensures ResolveTargetName(pkg, ResolveTargetName(pkg, name)) == ResolveTargetName(pkg, name)
  {
  }

  /** The three spellings of one icon name resolve to the same component. */
  lemma ResolveExamples()
    ensures ResolveTargetName("com.example.app", "IconRed") == "com.example.app.IconRed"
    ensures ResolveTargetName("com.example.app", ".IconRed") == "com.example.app.IconRed"
    ensures ResolveTargetName("com.example.app", "com.example.app.IconRed") == "com.example.app.IconRed"
    ensures ResolveTargetName("com.example.app", "com.example.appX") == "com.example.appX"
  {
    assert StartsWith("com.example.app.IconRed", "com.example.app");
    assert StartsWith("com.example.appX", "com.example.app");
    assert !StartsWith("IconRed", "com.example.app");
    assert "IconRed"[..1] == "I";
    assert !StartsWith("IconRed", ".");
    assert !StartsWith(".IconRed", "com.example.app");
    assert StartsWith(".IconRed", ".");
  }

  // ---------------------------------------------------------------------
  // Convergence

  /**
    The settings after the loop `allAliases.forEach { disable(it) }` in
    catalog order, skipping the alias named `keep` when there is one.
   */
  function DisableAliases(s: Settings, aliases: seq<ActivityEntry>, keep: Option<string>): Settings
    decreases |aliases|
  {
    if aliases == [] then s
    else
      var last := aliases[|aliases| - 1];
      var s' := DisableAliases(s, aliases[..|aliases| - 1], keep);
      if keep == Some(last.name) then s' else s'[last.name := Disabled]
  }

  /** What the disabling loop leaves for each name: DISABLED for a listed name not kept, the old setting otherwise. */
  lemma {:induction false} DisableAliasesAt(s: Settings, aliases: seq<ActivityEntry>, keep: Option<string>, k: string)
    ensures SettingOf(DisableAliases(s, aliases, keep), k) ==
      if keep != Some(k) && exists i :: 0 <= i < |aliases| && aliases[i].name == k then Disabled
      else SettingOf(s, k)
    decreases |aliases|
  {
    if aliases != [] {
      var front := aliases[..|aliases| - 1];
      DisableAliasesAt(s, front, keep, k);
      if exists i :: 0 <= i < |front| && front[i].name == k {
        var i :| 0 <= i < |front| && front[i].name == k;
        assert aliases[i].name == k;
      }
      if exists i :: 0 <= i < |aliases| && aliases[i].name == k {
        var i :| 0 <= i < |aliases| && aliases[i].name == k;
        if i < |front| {
          assert front[i].name == k;
        }
      }
    }
  }

  /**
    The settings `setupIcon` leaves: nothing happens for an empty name or a
    name that is not a declared alias; otherwise the target is enabled, the
    other aliases are disabled, and then the main activity, unless it is the
    target.
   */
  function SetupIconEffect(c: seq<ActivityEntry>, s: Settings, target: string): Settings {
    if target == [] || FirstNamed(Aliases(c), target).None? then s
    else
      var s' := DisableAliases(s[target := Enabled], Aliases(c), Some(target));
      var main := MainActivity(c);
      if main.Some? && main.value.name != target then s'[main.value.name := Disabled] else s'
  }

  /** The settings `resetToDefaultIcon` leaves: the main activity enabled, then every alias disabled. */
  function ResetEffect(c: seq<ActivityEntry>, s: Settings): Settings {
    var main := MainActivity(c);
    var s' := if main.Some? then s[main.value.name := Enabled] else s;
    DisableAliases(s', Aliases(c), None)
  }

  /**
    The settings `changeAppIcon` leaves for the stored icon name `pending`:
    nothing happens when there is none, or when it resolves to the alias
    already enabled; otherwise `setupIcon` runs on the resolved name.
   */
  function ChangeAppIconEffect(c: seq<ActivityEntry>, s: Settings, pkg: string, pending: Option<string>): Settings {
    if pending.None? || pending.value == [] then s
    else
      var full := ResolveTargetName(pkg, pending.value);
      var current := CurrentEnabledAlias(c, s);
      if current.Some? && current.value.name == full then s else SetupIconEffect(c, s, full)
  }

  /** A declared alias carries the name. */
  predicate IsAliasName(c: seq<ActivityEntry>, name: string) {
    exists i :: 0 <= i < |c| && c[i].isAlias && c[i].name == name
  }

  /** `allAliases.find { it.name == name }` succeeds exactly for a declared alias name. */
  lemma FindAlias(c: seq<ActivityEntry>, name: string)
    ensures FirstNamed(Aliases(c), name).Some? <==> IsAliasName(c, name)
  {
    var aliases := Aliases(c);
    AliasesSpec(c);
    FirstNamedSpec(aliases, name);
    if IsAliasName(c, name) {
      var i :| 0 <= i < |c| && c[i].isAlias && c[i].name == name;
      assert c[i] in aliases;
    }
    if FirstNamed(aliases, name).Some? {
      var e := FirstNamed(aliases, name).value;
      assert e in aliases;
      var i :| 0 <= i < |c| && c[i] == e;
    }
  }

  /**
    What `setupIcon` on a declared alias leaves for one name: ENABLED for
    the target, DISABLED for another alias or the main activity, and the old
    setting for anything else.
   */
  lemma SetupIconAt(c: seq<ActivityEntry>, s: Settings, target: string, k: string)
    requires target != [] && IsAliasName(c, target)
    ensures SettingOf(SetupIconEffect(c, s, target), k) ==
      if k == target then Enabled
      else if IsAliasName(c, k) || (MainActivity(c).Some? && MainActivity(c).value.name == k) then Disabled
      else SettingOf(s, k)
  {
    FindAlias(c, target);
    var aliases := Aliases(c);
    var s1 := s[target := Enabled];
    var s2 := DisableAliases(s1, aliases, Some(target));
    var main := MainActivity(c);
    var s' := SetupIconEffect(c, s, target);
    assert s' == if main.Some? && main.value.name != target then s2[main.value.name := Disabled] else s2;
    DisableAliasesAt(s1, aliases, Some(target), k);
    ListedIffAlias(c, k);
    var listed := IsAliasName(c, k);
    var atS2 := if k != target && listed then Disabled else if k == target then Enabled else SettingOf(s, k);
    assert SettingOf(s2, k) == atS2;
    if main.Some? && main.value.name != target {
      assert SettingOf(s', k) == if k == main.value.name then Disabled else atS2;
    } else {
      assert SettingOf(s', k) == atS2;
    }
  }

  /** A name occurs among `Aliases(c)` exactly when it is a declared alias name. */
  lemma ListedIffAlias(c: seq<ActivityEntry>, k: string)
    ensures (exists i :: 0 <= i < |Aliases(c)| && Aliases(c)[i].name == k) <==> IsAliasName(c, k)
  {
    var aliases := Aliases(c);
    AliasesSpec(c);
    if IsAliasName(c, k) {
      var i :| 0 <= i < |c| && c[i].isAlias && c[i].name == k;
      assert c[i] in aliases;
      var j :| 0 <= j < |aliases| && aliases[j] == c[i];
      assert exists j :: 0 <= j < |Aliases(c)| && Aliases(c)[j].name == k;
    } else {
      forall j | 0 <= j < |aliases|
        ensures aliases[j].name != k
      {
        assert aliases[j] in aliases;
        var i :| 0 <= i < |c| && c[i] == aliases[j];
      }
    }
  }

  /**
    `setupIcon` on a declared alias: the target ends ENABLED, every other
    alias DISABLED, the main activity DISABLED unless it is the target, and
    every name that is neither an alias nor the main activity keeps its
    setting.
   */
  lemma SetupIconConverges(c: seq<ActivityEntry>, s: Settings, target: string)
    requires target != [] && IsAliasName(c, target)
    ensures var s' := SetupIconEffect(c, s, target);
      && SettingOf(s', target) == Enabled
      && (forall i :: 0 <= i < |c| && c[i].isAlias && c[i].name != target ==> SettingOf(s', c[i].name) == Disabled)
      && (MainActivity(c).Some? && MainActivity(c).value.name != target ==>
            SettingOf(s', MainActivity(c).value.name) == Disabled)
      && (forall k :: !IsAliasName(c, k) && !(MainActivity(c).Some? && MainActivity(c).value.name == k) ==>
            SettingOf(s', k) == SettingOf(s, k))
  {
    var s' := SetupIconEffect(c, s, target);
    var main := MainActivity(c);
    MainActivitySpec(c);
    SetupIconAt(c, s, target, target);
    forall i | 0 <= i < |c| && c[i].isAlias && c[i].name != target
      ensures SettingOf(s', c[i].name) == Disabled
    {
      SetupIconAt(c, s, target, c[i].name);
    }
    if main.Some? {
      SetupIconAt(c, s, target, main.value.name);
    }
    forall k | !IsAliasName(c, k) && !(main.Some? && main.value.name == k)
      ensures SettingOf(s', k) == SettingOf(s, k)
    {
      SetupIconAt(c, s, target, k);
    }
  }

  /** An icon component: an alias or the main activity. */
  predicate IsIconComponent(c: seq<ActivityEntry>, i: nat)
    requires i < |c|
  {
    c[i].isAlias || MainActivity(c) == Some(c[i])
  }

  /** Among the icon components, exactly those named `name` resolve as enabled. */
  predicate OnlyEnabledIcon(c: seq<ActivityEntry>, s: Settings, name: string) {
    forall i :: 0 <= i < |c| && IsIconComponent(c, i) ==> (IsComponentEnabled(c, s, c[i].name) <==> c[i].name == name)
  }

  /**
    After `setupIcon` on a declared alias exactly one name among the icon
    components resolves as enabled: the target's.
   */
  lemma SetupIconExactlyOne(c: seq<ActivityEntry>, s: Settings, target: string)
    requires target != [] && IsAliasName(c, target)
    ensures OnlyEnabledIcon(c, SetupIconEffect(c, s, target), target)
  {
    SetupIconConverges(c, s, target);
  }

  /** `setupIcon` with an empty name or one that is no declared alias leaves every setting as it was. */
  lemma SetupIconUnknown(c: seq<ActivityEntry>, s: Settings, target: string)
    requires target == [] || !IsAliasName(c, target)
    ensures SetupIconEffect(c, s, target) == s
  {
    FindAlias(c, target);
  }

  /** After `setupIcon` on a declared alias, `getCurrentEnabledAlias` reports that alias. */
  lemma SetupIconIsCurrent(c: seq<ActivityEntry>, s: Settings, target: string)
    requires target != [] && IsAliasName(c, target)
    ensures var current := CurrentEnabledAlias(c, SetupIconEffect(c, s, target));
      current.Some? && current.value.name == target && current.value.isAlias
  {
    var s' := SetupIconEffect(c, s, target);
    SetupIconExactlyOne(c, s, target);
    var i :| 0 <= i < |c| && c[i].isAlias && c[i].name == target;
    assert EnabledAliasAt(c, s', i);
    var current := CurrentEnabledAlias(c, s');
    ScanSpec(c, s', |c|);
    var k :| 0 <= k < |c| && c[k] == current.value && EnabledAliasAt(c, s', k);
  }

  /** `changeAppIcon` with no stored name, or an empty one, changes nothing. */
  lemma ChangeAppIconNoPending(c: seq<ActivityEntry>, s: Settings, pkg: string, pending: Option<string>)
    requires pending.None? || pending.value == []
    ensures ChangeAppIconEffect(c, s, pkg, pending) == s
  {
  }

  /** A stored name that resolves to no declared alias changes nothing. */
  lemma ChangeAppIconUnknown(c: seq<ActivityEntry>, s: Settings, pkg: string, name: string)
    requires !IsAliasName(c, ResolveTargetName(pkg, name))
    ensures ChangeAppIconEffect(c, s, pkg, Some(name)) == s
  {
    SetupIconUnknown(c, s, ResolveTargetName(pkg, name));
  }

  /**
    `changeAppIcon` on a stored name that resolves to a declared alias makes
    an alias of that name the current one; when one already was, the call
    changes nothing.
   */
  lemma ChangeAppIconConverges(c: seq<ActivityEntry>, s: Settings, pkg: string, name: string)
    requires name != [] && IsAliasName(c, ResolveTargetName(pkg, name))
    ensures var s' := ChangeAppIconEffect(c, s, pkg, Some(name));
      var full := ResolveTargetName(pkg, name);
      && CurrentEnabledAlias(c, s').Some? && CurrentEnabledAlias(c, s').value.name == full
      && (CurrentEnabledAlias(c, s).Some? && CurrentEnabledAlias(c, s).value.name == full ==> s' == s)
  {
    var full := ResolveTargetName(pkg, name);
    var current := CurrentEnabledAlias(c, s);
    if !(current.Some? && current.value.name == full) {
      SetupIconIsCurrent(c, s, full);
    }
  }

  /**
    When the resolved target is a declared alias that is not the current one,
    `changeAppIcon` runs `setupIcon`, which leaves exactly that alias enabled
    among the icon components, whatever the registry held before.
   */
  lemma ChangeAppIconSwitchExactlyOne(c: seq<ActivityEntry>, s: Settings, pkg: string, name: string)
    requires name != [] && IsAliasName(c, ResolveTargetName(pkg, name))
    requires var current := CurrentEnabledAlias(c, s);
      !(current.Some? && current.value.name == ResolveTargetName(pkg, name))
    ensures OnlyEnabledIcon(c, ChangeAppIconEffect(c, s, pkg, Some(name)), ResolveTargetName(pkg, name))
  {
    SetupIconExactlyOne(c, s, ResolveTargetName(pkg, name));
  }

  /**
    The skip for an already current alias leaves other icon components as they
    are: with the main activity enabled by the manifest and the alias enabled
    explicitly, `changeAppIcon` to that alias changes nothing, and two icon
    components stay enabled.
   */
  lemma ChangeAppIconSkipKeepsMain()
    ensures var c := [ActivityEntry("p.Main", false, true), ActivityEntry("p.A", true, false)];
      var s := map["p.A" := Enabled];
      && ChangeAppIconEffect(c, s, "p", Some("A")) == s
      && IsComponentEnabled(c, s, "p.Main") && IsComponentEnabled(c, s, "p.A")
      && !OnlyEnabledIcon(c, ChangeAppIconEffect(c, s, "p", Some("A")), "p.A")
  {
    var c := [ActivityEntry("p.Main", false, true), ActivityEntry("p.A", true, false)];
    var s := map["p.A" := Enabled];
    assert "A"[..1] == "A";
    assert ResolveTargetName("p", "A") == "p.A";
    assert EnabledAliasScan(c, s, 1) == None;
    assert CurrentEnabledAlias(c, s) == Some(c[1]);
    assert IsIconComponent(c, 0);
  }

  /**
    When exactly one icon component was enabled before, `changeAppIcon` to a
    declared alias leaves exactly that alias enabled among the icon components,
    whether it switches or skips.
   */
  lemma ChangeAppIconExactlyOne(c: seq<ActivityEntry>, s: Settings, pkg: string, name: string, before: string)
    requires name != [] && IsAliasName(c, ResolveTargetName(pkg, name))
    requires OnlyEnabledIcon(c, s, before)
    ensures OnlyEnabledIcon(c, ChangeAppIconEffect(c, s, pkg, Some(name)), ResolveTargetName(pkg, name))
  {
    var full := ResolveTargetName(pkg, name);
    var current := CurrentEnabledAlias(c, s);
    if current.Some? && current.value.name == full {
      ScanSpec(c, s, |c|);
      var k :| 0 <= k < |c| && c[k] == current.value && EnabledAliasAt(c, s, k);
      assert IsIconComponent(c, k);
      assert before == full;
    } else {
      SetupIconExactlyOne(c, s, full);
    }
  }

  /** Asking twice for the same icon: the second `changeAppIcon` changes nothing. */
  lemma ChangeAppIconIdempotent(c: seq<ActivityEntry>, s: Settings, pkg: string, pending: Option<string>)
    ensures var s' := ChangeAppIconEffect(c, s, pkg, pending);
      ChangeAppIconEffect(c, s', pkg, pending) == s'
  {
    if pending.Some? && pending.value != [] {
      var full := ResolveTargetName(pkg, pending.value);
      if IsAliasName(c, full) {
        ChangeAppIconConverges(c, s, pkg, pending.value);
      } else {
        ChangeAppIconUnknown(c, s, pkg, pending.value);
      }
    }
  }

  /**
    `resetToDefaultIcon`: every alias ends DISABLED, the main activity
    ENABLED unless an alias shares its name, and every name outside the
    catalog keeps its setting.
   */
  lemma ResetConverges(c: seq<ActivityEntry>, s: Settings)
    ensures var s' := ResetEffect(c, s);
      && (forall i :: 0 <= i < |c| && c[i].isAlias ==> SettingOf(s', c[i].name) == Disabled)
      && (MainActivity(c).Some? && !IsAliasName(c, MainActivity(c).value.name) ==>
            SettingOf(s', MainActivity(c).value.name) == Enabled)
      && (forall k :: (forall i :: 0 <= i < |c| ==> c[i].name != k) ==> SettingOf(s', k) == SettingOf(s, k))
  {
    var main := MainActivity(c);
    MainActivitySpec(c);
    forall i | 0 <= i < |c| && c[i].isAlias
      ensures SettingOf(ResetEffect(c, s), c[i].name) == Disabled
    {
      ResetAt(c, s, c[i].name);
    }
    if main.Some? {
      ResetAt(c, s, main.value.name);
    }
    forall k | (forall i :: 0 <= i < |c| ==> c[i].name != k)
      ensures SettingOf(ResetEffect(c, s), k) == SettingOf(s, k)
    {
      ResetAt(c, s, k);
      if main.Some? {
        var i :| 0 <= i < |c| && c[i] == main.value;
      }
    }
  }

  /** What `resetToDefaultIcon` leaves for one name. */
  lemma ResetAt(c: seq<ActivityEntry>, s: Settings, k: string)
    ensures SettingOf(ResetEffect(c, s), k) ==
      if IsAliasName(c, k) then Disabled
      else if MainActivity(c).Some? && MainActivity(c).value.name == k then Enabled
      else SettingOf(s, k)
  {
    var main := MainActivity(c);
    var s1 := if main.Some? then s[main.value.name := Enabled] else s;
    DisableAliasesAt(s1, Aliases(c), None, k);
    ListedIffAlias(c, k);
    assert SettingOf(ResetEffect(c, s), k) == if IsAliasName(c, k) then Disabled else SettingOf(s1, k);
  }

  /** After `resetToDefaultIcon`, `getCurrentEnabledAlias` reports no alias. */
  lemma ResetClearsCurrent(c: seq<ActivityEntry>, s: Settings)
    ensures CurrentEnabledAlias(c, ResetEffect(c, s)).None?
  {
    ResetConverges(c, s);
    ScanSpec(c, ResetEffect(c, s), |c|);
  }

  // ---------------------------------------------------------------------
  // The state-changing operations

  /** `enable`: set a component ENABLED, keeping the app running. */
  method Enable(pm: PackageManager, name: string)
    modifies pm
    ensures pm.settings == old(pm.settings)[name := Enabled]
  {
    pm.SetComponentEnabledSetting(name, Enabled);
  }

  /** `disable`: set a component DISABLED, keeping the app running. */
  method Disable(pm: PackageManager, name: string)
    modifies pm
    ensures pm.settings == old(pm.settings)[name := Disabled]
  {
    pm.SetComponentEnabledSetting(name, Disabled);
  }

  /** The `forEach` over the aliases that disables each one except `keep`. */
  method DisableEach(pm: PackageManager, aliases: seq<ActivityEntry>, keep: Option<string>)
    modifies pm
    ensures pm.settings == DisableAliases(old(pm.settings), aliases, keep)
  {
    var i := 0;
    while i < |aliases|
      invariant 0 <= i <= |aliases|
      invariant pm.settings == DisableAliases(old(pm.settings), aliases[..i], keep)
    {
      assert aliases[..i + 1][..i] == aliases[..i];
      if keep != Some(aliases[i].name) {
        Disable(pm, aliases[i].name);
      }
      i := i + 1;
    }
    assert aliases[..|aliases|] == aliases;
  }

  /** `setupIcon`: enable the target alias, then disable the other aliases and the main activity. */
  method SetupIcon(pm: PackageManager, newIconName: string)
    modifies pm
    ensures pm.settings == SetupIconEffect(pm.catalog, old(pm.settings), newIconName)
  {
    if newIconName == [] {
      return;
    }
    var mainActivity := MainActivity(pm.catalog);
    var allAliases := GetAllActivityAliases(pm);
    var targetAlias := FirstNamed(allAliases, newIconName);
    if targetAlias.None? {
      return;
    }
    Enable(pm, newIconName);
    DisableEach(pm, allAliases, Some(newIconName));
    if mainActivity.Some? && mainActivity.value.name != newIconName {
      Disable(pm, mainActivity.value.name);
    }
  }

  /** `removeCurrentAppIcon`: drop the stored icon name. */
  method RemoveCurrentAppIcon(prefs: SharedPreferences)
    modifies prefs
    ensures prefs.appIcon == None
  {
    prefs.ApplyRemove();
  }

  /** `resetToDefaultIcon`: enable the main activity, disable every alias, drop the stored name. */
  method ResetToDefaultIcon(pm: PackageManager, prefs: SharedPreferences)
    modifies pm, prefs
    ensures pm.settings == ResetEffect(pm.catalog, old(pm.settings))
    ensures prefs.appIcon == None
  {
    var mainActivity := MainActivity(pm.catalog);
    var allAliases := GetAllActivityAliases(pm);
    if mainActivity.Some? {
      Enable(pm, mainActivity.value.name);
    }
    DisableEach(pm, allAliases, None);
    RemoveCurrentAppIcon(prefs);
  }

  /**
    `changeAppIcon`: read the stored icon name, resolve it against the
    package name, and switch to it unless it is already the current alias.
   */
  method ChangeAppIcon(pm: PackageManager, prefs: SharedPreferences, packageName: string)
    modifies pm
    ensures pm.settings == ChangeAppIconEffect(pm.catalog, old(pm.settings), packageName, prefs.appIcon)
  {
    var targetIconName := prefs.appIcon;
    if targetIconName.None? || targetIconName.value == [] {
      return;
    }
    var currentlyEnabled := GetCurrentEnabledAlias(pm);
    var fullTargetName := ResolveTargetName(packageName, targetIconName.value);
    if currentlyEnabled.Some? && currentlyEnabled.value.name == fullTargetName {
      return;
    }
    SetupIcon(pm, fullTargetName);
  }
}
