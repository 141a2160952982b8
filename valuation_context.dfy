/** `PropertyValuationContext`: for a platform, optionally one of its
    deployed modules, and optionally an instance name, it gathers four
    property lists once (global, instance, predefined and without model),
    then completes a property sequence with them in a fixed precedence
    order, and can strip the predefined ones back out. */
module ValuationContext {
  import opened Optional
  import opened JavaStrings
  import opened PropertyViews
  import opened VisitorsSequence

  // The reserved names of the predefined properties.
  const ApplicationNameKey := "hesperides.application.name"
  const ApplicationVersionKey := "hesperides.application.version"
  const PlatformNameKey := "hesperides.platform.name"
  const ModuleNameKey := "hesperides.module.name"
  const ModuleVersionKey := "hesperides.module.version"
  const ModulePathFullKey := "hesperides.module.path.full"
  const ModulePathKeyPrefix := "hesperides.module.path."
  const InstanceNameKey := "hesperides.instance.name"

  /** The separator of the logical groups in a module path. */
  const PathSeparator := '#'

  /** `"hesperides.module.path." + k`: the prefix followed by the decimal
      digits of `k`. */
  function PathKey(k: nat): string
  {
    ModulePathKeyPrefix + NatToString(k)
  }

  /** A path name is the prefix followed by the decimal digits of `k`. */
  lemma PathKeyValue(k: nat)
    ensures |PathKey(k)| > |ModulePathKeyPrefix| && PathKey(k)[..|ModulePathKeyPrefix|] == ModulePathKeyPrefix
    ensures var digits := PathKey(k)[|ModulePathKeyPrefix|..];
      && (forall i :: 0 <= i < |digits| ==> '0' <= digits[i] <= '9')
      && DecimalValue(digits) == k
  {
    assert PathKey(k)[|ModulePathKeyPrefix|..] == NatToString(k);
    NatToStringValue(k);
  }

  /** The four lists the context holds; it never changes after construction. */
  datatype PropertyValuationContext = PropertyValuationContext(
    globalProperties: seq<ValuedProperty>,
    instanceProperties: seq<ValuedProperty>,
    predefinedProperties: seq<ValuedProperty>,
    valuedPropertiesWithoutModel: seq<Property>)

  // ------------------------------------------------------------ instance scope

  /** Whether the instance is the one asked for. A null name (None) matches
      no instance, as `equalsIgnoreCase(null)` is false. */
  predicate NameMatches(instance: Instance, instanceName: Option<string>): (r: bool)
    ensures instanceName.None? ==> !r
    ensures instanceName.Some? ==> (r <==> ToLowerAsciiString(instance.name) == ToLowerAsciiString(instanceName.value))
  {
    instanceName.Some? && EqualsIgnoreCase(instance.name, instanceName.value)
  }

  /** The position of the first instance matching `instanceName`. */
  function FirstMatchingInstance(instances: seq<Instance>, instanceName: Option<string>): (r: Option<nat>)
    ensures r.Some? ==>
      && r.value < |instances|
      && NameMatches(instances[r.value], instanceName)
      && forall j :: 0 <= j < r.value ==> !NameMatches(instances[j], instanceName)
    ensures r.None? ==> forall j :: 0 <= j < |instances| ==> !NameMatches(instances[j], instanceName)
  {
    if instances == [] then None
    else if NameMatches(instances[0], instanceName) then Some(0)
    else match FirstMatchingInstance(instances[1..], instanceName)
      case Some(k) => Some(k + 1)
      case None => None
  }

  /** The properties whose name the instance model declares, in their order. */
  function FilterByModel(properties: seq<ValuedProperty>, instancesModel: seq<string>): (r: seq<ValuedProperty>)
    ensures |r| <= |properties|
    ensures forall k :: 0 <= k < |r| ==> r[k].name in instancesModel
  {
    if properties == [] then []
    else if properties[0].name in instancesModel then [properties[0]] + FilterByModel(properties[1..], instancesModel)
    else FilterByModel(properties[1..], instancesModel)
  }

  /** Exactly the properties with a modelled name survive, none is invented. */
  lemma {:induction false} FilterByModelMembers(properties: seq<ValuedProperty>, instancesModel: seq<string>, p: Property)
    ensures p in FilterByModel(properties, instancesModel) <==> p in properties && p.name in instancesModel
  {
    if properties != [] {
      FilterByModelMembers(properties[1..], instancesModel, p);
      assert p in properties <==> p == properties[0] || p in properties[1..] by {
        assert properties == [properties[0]] + properties[1..];
      }
    }
  }

  /** The kept properties stay in their relative order: filtering
      distributes over concatenation. */
  lemma {:induction false} FilterByModelConcat(a: seq<ValuedProperty>, b: seq<ValuedProperty>, instancesModel: seq<string>)
    ensures FilterByModel(a + b, instancesModel) == FilterByModel(a, instancesModel) + FilterByModel(b, instancesModel)
  {
    if a == [] {
      assert a + b == b;
    } else {
      var ab := a + b;
      assert ab[0] == a[0] && ab[1..] == a[1..] + b;
      FilterByModelConcat(a[1..], b, instancesModel);
    }
  }

  /** `getInstanceProperties`: the properties of the first instance named
      `instanceName` (ignoring case) that the instance model declares; none
      when no instance has that name. */
  function InstanceProperties(instances: seq<Instance>, instancesModel: seq<string>, instanceName: Option<string>): (r: seq<ValuedProperty>)
    ensures forall k :: 0 <= k < |r| ==> r[k].name in instancesModel
    ensures (forall j :: 0 <= j < |instances| ==> !NameMatches(instances[j], instanceName)) ==> r == []
    ensures instanceName.None? ==> r == []
  {
    match FirstMatchingInstance(instances, instanceName)
    case Some(k) => FilterByModel(instances[k].valuedProperties, instancesModel)
    case None => []
  }

  /** The instance properties come from the first matching instance and from
      no other, even when a later instance has the same name. */
  lemma InstancePropertiesFromFirstMatch(instances: seq<Instance>, instancesModel: seq<string>, instanceName: Option<string>, k: nat)
    requires k < |instances| && NameMatches(instances[k], instanceName)
    requires forall j :: 0 <= j < k ==> !NameMatches(instances[j], instanceName)
    ensures InstanceProperties(instances, instancesModel, instanceName)
         == FilterByModel(instances[k].valuedProperties, instancesModel)
  {
    var found := FirstMatchingInstance(instances, instanceName);
    assert found.Some?;
    assert found.value == k;
  }

  // ---------------------------------------------------- predefined properties

  /** The number of path entries: every group but the first. */
  function PathGroupCount(groups: seq<string>): nat
  {
    if |groups| == 0 then 0 else |groups| - 1
  }

  /** `getPathLogicalGroups`: one entry `hesperides.module.path.(i-1)` per
      group `i` of the split path, the group at position 0 being skipped
      whatever it holds. */
  method GetPathLogicalGroups(modulePath: string) returns (pathLogicalGroups: seq<ValuedProperty>)
    ensures var groups := JavaSplit(modulePath, PathSeparator);
      && |pathLogicalGroups| == PathGroupCount(groups)
      && forall k :: 0 <= k < |pathLogicalGroups| ==>
           pathLogicalGroups[k] == Valued(PathKey(k), groups[k + 1])
  {
    pathLogicalGroups := [];
    var groups := JavaSplit(modulePath, PathSeparator);
    var index := 1;
    while index < |groups|
      invariant 1 <= index <= PathGroupCount(groups) + 1
      invariant |pathLogicalGroups| == index - 1
      invariant forall k :: 0 <= k < index - 1 ==> pathLogicalGroups[k] == Valued(PathKey(k), groups[k + 1])
    {
      pathLogicalGroups := pathLogicalGroups + [Valued(PathKey(index - 1), groups[index])];
      index := index + 1;
    }
  }

  /** `predefined` is, entry by entry, the predefined list for this platform,
      module and instance name: the three platform entries, then, with a
      module, its name, version, full path (every `#` made a `/`), one entry
      per path group and the instance name ("" for a null name). */
  ghost predicate PredefinedFor(platform: Platform, deployedModule: Option<DeployedModule>,
                                instanceName: Option<string>, predefined: seq<ValuedProperty>)
  {
    && PlatformEntries(platform, predefined)
    && match deployedModule
       case None => |predefined| == 3
       case Some(m) => ModuleEntries(m, instanceName, predefined)
  }

  /** The three platform entries open the list. */
  ghost predicate PlatformEntries(platform: Platform, predefined: seq<ValuedProperty>)
  {
    && |predefined| >= 3
    && predefined[0] == Valued(ApplicationNameKey, platform.applicationName)
    && predefined[1] == Valued(ApplicationVersionKey, platform.version)
    && predefined[2] == Valued(PlatformNameKey, platform.platformName)
  }

  /** The module entries follow them, up to the end of the list. */
  ghost predicate ModuleEntries(m: DeployedModule, instanceName: Option<string>, predefined: seq<ValuedProperty>)
  {
    var groups := JavaSplit(m.modulePath, PathSeparator);
    var n := PathGroupCount(groups);
    && |predefined| == 7 + n
    && predefined[3] == Valued(ModuleNameKey, m.name)
    && predefined[4] == Valued(ModuleVersionKey, m.version)
    && predefined[5] == Valued(ModulePathFullKey, ReplaceChar(m.modulePath, PathSeparator, '/'))
    && (forall k :: 0 <= k < n ==> predefined[6 + k] == Valued(PathKey(k), groups[k + 1]))
    && predefined[6 + n] == Valued(InstanceNameKey, instanceName.GetOr(""))
  }

  /** `getPredefinedProperties`: builds the list entry by entry. */
  method GetPredefinedProperties(platform: Platform, deployedModule: Option<DeployedModule>, instanceName: Option<string>)
    returns (predefinedProperties: seq<ValuedProperty>)
    ensures PredefinedFor(platform, deployedModule, instanceName, predefinedProperties)
  {
    predefinedProperties := [];
    predefinedProperties := predefinedProperties + [Valued(ApplicationNameKey, platform.applicationName)];
    predefinedProperties := predefinedProperties + [Valued(ApplicationVersionKey, platform.version)];
    predefinedProperties := predefinedProperties + [Valued(PlatformNameKey, platform.platformName)];
    assert PlatformEntries(platform, predefinedProperties);
    if deployedModule.Some? {
      var m := deployedModule.value;
      predefinedProperties := predefinedProperties + [Valued(ModuleNameKey, m.name)];
      predefinedProperties := predefinedProperties + [Valued(ModuleVersionKey, m.version)];
      var modulePath := m.modulePath;
      predefinedProperties := predefinedProperties + [Valued(ModulePathFullKey, ReplaceChar(modulePath, PathSeparator, '/'))];
      ghost var head := predefinedProperties;
      var pathLogicalGroups := GetPathLogicalGroups(modulePath);
      predefinedProperties := predefinedProperties + pathLogicalGroups;
      predefinedProperties := predefinedProperties + [Valued(InstanceNameKey, instanceName.GetOr(""))];
      ModuleEntriesOfParts(m, instanceName, head, pathLogicalGroups);
      assert predefinedProperties == head + pathLogicalGroups + [Valued(InstanceNameKey, instanceName.GetOr(""))];
    }
  }

  /** The six leading entries, then the path entries, then the instance name
      make up the module part of a predefined list. */
  lemma ModuleEntriesOfParts(m: DeployedModule, instanceName: Option<string>,
                             head: seq<ValuedProperty>, path: seq<ValuedProperty>)
    requires |head| == 6
    requires head[3] == Valued(ModuleNameKey, m.name)
    requires head[4] == Valued(ModuleVersionKey, m.version)
    requires head[5] == Valued(ModulePathFullKey, ReplaceChar(m.modulePath, PathSeparator, '/'))
    requires var groups := JavaSplit(m.modulePath, PathSeparator);
      && |path| == PathGroupCount(groups)
      && forall k :: 0 <= k < |path| ==> path[k] == Valued(PathKey(k), groups[k + 1])
    ensures ModuleEntries(m, instanceName, head + path + [Valued(InstanceNameKey, instanceName.GetOr(""))])
  {
    var s := head + path + [Valued(InstanceNameKey, instanceName.GetOr(""))];
    forall k | 0 <= k < |path| ensures s[6 + k] == path[k] {
    }
    assert s[6 + |path|] == Valued(InstanceNameKey, instanceName.GetOr(""));
  }

  /** The set of names a predefined list holds for a module (or for none). */
  function PredefinedNameSet(deployedModule: Option<DeployedModule>): set<string>
  {
    {ApplicationNameKey, ApplicationVersionKey, PlatformNameKey} +
    match deployedModule
    case None => {}
    case Some(m) => FullKeySet(PathGroupCount(JavaSplit(m.modulePath, PathSeparator)))
  }

  /** The character at `i`, or a blank past the end. */
  function CharAt(s: string, i: nat): char
  {
    if i < |s| then s[i] else ' '
  }

  /** Three characters that tell the reserved names apart. */
  datatype KeyTag = KeyTag(at11: char, at18: char, at23: char)

  function Tag(s: string): KeyTag
  {
    KeyTag(CharAt(s, 11), CharAt(s, 18), CharAt(s, 23))
  }

  lemma PathKeyTag(k: nat)
    ensures Tag(PathKey(k)) == KeyTag('m', 'p', NatToString(k)[0])
    ensures '0' <= NatToString(k)[0] <= '9'
  {
    var key := PathKey(k);
    assert |key| > 23;
    assert key[11] == ModulePathKeyPrefix[11] == 'm';
    assert key[18] == ModulePathKeyPrefix[18] == 'p';
    assert key[23] == NatToString(k)[0];
  }

  /** Path entries carry distinct names. */
  lemma PathKeyInjective(a: nat, b: nat)
    requires PathKey(a) == PathKey(b)
    ensures a == b
  {
    assert PathKey(a)[|ModulePathKeyPrefix|..] == NatToString(a);
    assert PathKey(b)[|ModulePathKeyPrefix|..] == NatToString(b);
    NatToStringInjective(a, b);
  }

  lemma FixedKeyTags()
    ensures Tag(ApplicationNameKey) == KeyTag('a', 't', 'n')
    ensures Tag(ApplicationVersionKey) == KeyTag('a', 't', 'v')
    ensures Tag(PlatformNameKey) == KeyTag('p', 'm', 'e')
    ensures Tag(ModuleNameKey) == KeyTag('m', 'n', ' ')
    ensures Tag(ModuleVersionKey) == KeyTag('m', 'v', 'o')
    ensures Tag(ModulePathFullKey) == KeyTag('m', 'p', 'f')
    ensures Tag(InstanceNameKey) == KeyTag('i', 'e', 'e')
  {
  }

  /** The name at position `i` of a module's predefined list with `n` path
      entries. */
  function KeyAt(i: nat, n: nat): string
  {
    if i == 0 then ApplicationNameKey
    else if i == 1 then ApplicationVersionKey
    else if i == 2 then PlatformNameKey
    else if i == 3 then ModuleNameKey
    else if i == 4 then ModuleVersionKey
    else if i == 5 then ModulePathFullKey
    else if i < 6 + n then PathKey(i - 6)
    else InstanceNameKey
  }

  /** Two positions of a predefined list never hold the same name. */
  lemma KeyAtInjective(i: nat, j: nat, n: nat)
    requires i < j < 7 + n
    ensures KeyAt(i, n) != KeyAt(j, n)
  {
    FixedKeyTags();
    if 6 <= i && j < 6 + n {
      if KeyAt(i, n) == KeyAt(j, n) {
        PathKeyInjective(i - 6, j - 6);
      }
    } else if 6 <= i < 6 + n {
      PathKeyTag(i - 6);
      assert Tag(KeyAt(i, n)) != Tag(KeyAt(j, n));
    } else if 6 <= j < 6 + n {
      PathKeyTag(j - 6);
      assert Tag(KeyAt(i, n)) != Tag(KeyAt(j, n));
    } else {
      assert Tag(KeyAt(i, n)) != Tag(KeyAt(j, n));
    }
  }

  /** Every entry of `s` carries the name of its position. */
  ghost predicate KeyedBy(s: seq<ValuedProperty>, n: nat)
  {
    forall i :: 0 <= i < |s| ==> s[i].name == KeyAt(i, n)
  }

  /** The names of a predefined list, position by position. */
  lemma PredefinedKeys(platform: Platform, deployedModule: Option<DeployedModule>,
                       instanceName: Option<string>, predefined: seq<ValuedProperty>)
    requires PredefinedFor(platform, deployedModule, instanceName, predefined)
    ensures var n := if deployedModule.None? then 0
                     else PathGroupCount(JavaSplit(deployedModule.value.modulePath, PathSeparator));
      && |predefined| == (if deployedModule.None? then 3 else 7 + n)
      && KeyedBy(predefined, n)
  {
    if deployedModule.Some? {
      var groups := JavaSplit(deployedModule.value.modulePath, PathSeparator);
      var n := PathGroupCount(groups);
      forall i | 0 <= i < |predefined| ensures predefined[i].name == KeyAt(i, n) {
        if 6 <= i < 6 + n {
          var k := i - 6;
          assert predefined[6 + k] == Valued(PathKey(k), groups[k + 1]);
        }
      }
    }
  }

  /** Positional names are unique. */
  lemma KeyedUnique(s: seq<ValuedProperty>, n: nat)
    requires |s| <= 7 + n && KeyedBy(s, n)
    ensures UniqueNames(s)
  {
    forall i, j | 0 <= i < j < |s| ensures s[i].name != s[j].name {
      KeyAtInjective(i, j, n);
    }
  }

  /** The reserved names of a module whose path has `n` entries. */
  function FullKeySet(n: nat): set<string>
  {
    {ApplicationNameKey, ApplicationVersionKey, PlatformNameKey,
     ModuleNameKey, ModuleVersionKey, ModulePathFullKey, InstanceNameKey} +
    set k | 0 <= k < n :: PathKey(k)
  }

  /** Every position of a full list carries a reserved name ... */
  lemma KeyAtInFullKeySet(i: nat, n: nat)
    requires i < 7 + n
    ensures KeyAt(i, n) in FullKeySet(n)
  {
    if 6 <= i < 6 + n {
      var k: nat := i - 6;
      assert 0 <= k < n && KeyAt(i, n) == PathKey(k);
    }
  }

  /** ... and every reserved name has its position. */
  lemma FullKeySetHasPosition(x: string, n: nat) returns (i: nat)
    requires x in FullKeySet(n)
    ensures i < 7 + n && KeyAt(i, n) == x
  {
    if x == ApplicationNameKey { i := 0; }
    else if x == ApplicationVersionKey { i := 1; }
    else if x == PlatformNameKey { i := 2; }
    else if x == ModuleNameKey { i := 3; }
    else if x == ModuleVersionKey { i := 4; }
    else if x == ModulePathFullKey { i := 5; }
    else if x == InstanceNameKey { i := 6 + n; }
    else {
      var k :| 0 <= k < n && x == PathKey(k);
      i := 6 + k;
    }
  }

  /** The names of a full positional list: the seven fixed ones and one per
      path entry; a list cut after three has the platform names only. */
  lemma KeyedNames(s: seq<ValuedProperty>, n: nat)
    requires |s| == 3 || |s| == 7 + n
    requires KeyedBy(s, n)
    ensures |s| == 3 ==> Names(s) == {ApplicationNameKey, ApplicationVersionKey, PlatformNameKey}
    ensures |s| == 7 + n ==> Names(s) == FullKeySet(n)
  {
    if |s| == 3 {
      var platformKeys := {ApplicationNameKey, ApplicationVersionKey, PlatformNameKey};
      forall p | p in s ensures p.name in platformKeys {
        var i :| 0 <= i < 3 && s[i] == p;
      }
      assert s[0] in s && s[1] in s && s[2] in s;
    } else {
      forall p | p in s ensures p.name in FullKeySet(n) {
        var i :| 0 <= i < |s| && s[i] == p;
        KeyAtInFullKeySet(i, n);
      }
      forall x | x in FullKeySet(n) ensures x in Names(s) {
        var i := FullKeySetHasPosition(x, n);
        assert s[i] in s;
      }
    }
  }

  /** A predefined list names exactly the reserved names of its module, each
      once. */
  lemma PredefinedNamesExact(platform: Platform, deployedModule: Option<DeployedModule>,
                             instanceName: Option<string>, predefined: seq<ValuedProperty>)
    requires PredefinedFor(platform, deployedModule, instanceName, predefined)
    ensures Names(predefined) == PredefinedNameSet(deployedModule)
    ensures UniqueNames(predefined)
  {
    PredefinedKeys(platform, deployedModule, instanceName, predefined);
    var n := if deployedModule.None? then 0
             else PathGroupCount(JavaSplit(deployedModule.value.modulePath, PathSeparator));
    KeyedUnique(predefined, n);
    KeyedNames(predefined, n);
  }

  /** In a positional list, the entry at `i` is what a lookup of its name finds. */
  lemma KeyedLookup(s: seq<ValuedProperty>, n: nat, i: nat)
    requires |s| <= 7 + n && KeyedBy(s, n) && i < |s|
    ensures Lookup(s, KeyAt(i, n)) == Some(s[i])
  {
    forall j | 0 <= j < i ensures s[j].name != s[i].name {
      KeyAtInjective(j, i, n);
    }
    LookupFirst(s, i);
  }

  /** A full positional list has no path entry numbered `n`. */
  lemma KeyedPathKeyAbsent(s: seq<ValuedProperty>, n: nat)
    requires |s| == 7 + n && KeyedBy(s, n)
    ensures PathKey(n) !in Names(s)
  {
    forall i | 0 <= i < |s| ensures s[i].name != PathKey(n) {
      KeyAtNotNextPathKey(i, n);
    }
  }

  /** No position of a full list carries the path name numbered `n`. */
  lemma KeyAtNotNextPathKey(i: nat, n: nat)
    requires i < 7 + n
    ensures KeyAt(i, n) != PathKey(n)
  {
    assert KeyAt(6 + n, n + 1) == PathKey(n);
    if i < 6 + n {
      assert KeyAt(i, n + 1) == KeyAt(i, n);
      KeyAtInjective(i, 6 + n, n + 1);
    } else {
      KeyAtInjective(6 + n, 7 + n, n + 1);
    }
  }

  /** In a full positional list, the full path is found at position 5 ... */
  lemma KeyedFullPathLookup(s: seq<ValuedProperty>, n: nat)
    requires |s| == 7 + n && KeyedBy(s, n)
    ensures Lookup(s, ModulePathFullKey) == Some(s[5])
  {
    assert KeyAt(5, n) == ModulePathFullKey;
    KeyedLookup(s, n, 5);
  }

  /** ... and the instance name at the last position. */
  lemma KeyedInstanceNameLookup(s: seq<ValuedProperty>, n: nat)
    requires |s| == 7 + n && KeyedBy(s, n)
    ensures Lookup(s, InstanceNameKey) == Some(s[6 + n])
  {
    var last := |s| - 1;
    KeyedLookup(s, n, last);
    assert KeyAt(last, n) == InstanceNameKey by {
      assert !(last < 6 + n);
    }
  }

  /** What a predefined list holds for the instance name ("" for a null
      name) and for the slash-separated full path. */
  lemma PredefinedLookup(platform: Platform, m: DeployedModule, instanceName: Option<string>, predefined: seq<ValuedProperty>)
    requires PredefinedFor(platform, Some(m), instanceName, predefined)
    ensures Lookup(predefined, InstanceNameKey) == Some(Valued(InstanceNameKey, instanceName.GetOr("")))
    ensures Lookup(predefined, ModulePathFullKey) == Some(Valued(ModulePathFullKey, ReplaceChar(m.modulePath, PathSeparator, '/')))
  {
    var n := PathGroupCount(JavaSplit(m.modulePath, PathSeparator));
    PredefinedKeys(platform, Some(m), instanceName, predefined);
    assert ModuleEntries(m, instanceName, predefined);
    KeyedFullPathLookup(predefined, n);
    KeyedInstanceNameLookup(predefined, n);
  }

  /** Path entry `k` of a predefined list holds group `k + 1` of the module
      path, and there is no path entry past the last group. */
  lemma PredefinedPathLookup(platform: Platform, m: DeployedModule, instanceName: Option<string>, predefined: seq<ValuedProperty>)
    requires PredefinedFor(platform, Some(m), instanceName, predefined)
    ensures var groups := JavaSplit(m.modulePath, PathSeparator);
      && (forall k :: 0 <= k < PathGroupCount(groups) ==> Lookup(predefined, PathKey(k)) == Some(Valued(PathKey(k), groups[k + 1])))
      && Lookup(predefined, PathKey(PathGroupCount(groups))) == None
  {
    var groups := JavaSplit(m.modulePath, PathSeparator);
    var n := PathGroupCount(groups);
    PredefinedKeys(platform, Some(m), instanceName, predefined);
    forall k | 0 <= k < n ensures Lookup(predefined, PathKey(k)) == Some(Valued(PathKey(k), groups[k + 1])) {
      KeyedLookup(predefined, n, 6 + k);
    }
    KeyedPathKeyAbsent(predefined, n);
  }

  /** A path made of `#`-prefixed non-empty groups splits back into those
      groups, numbered from 0, and its full form has `/` in place of `#`. */
  lemma PathOfGroups(groups: seq<string>)
    requires forall k :: 0 <= k < |groups| ==> groups[k] != "" && PathSeparator !in groups[k]
    ensures var path := Join([""] + groups, PathSeparator);
      && PathGroupCount(JavaSplit(path, PathSeparator)) == |groups|
      && (forall k :: 0 <= k < |groups| ==> JavaSplit(path, PathSeparator)[k + 1] == groups[k])
      && ReplaceChar(path, PathSeparator, '/') == Join([""] + groups, '/')
  {
    var pieces := [""] + groups;
    forall k | 0 <= k < |pieces| ensures PathSeparator !in pieces[k] {
      if k > 0 { assert pieces[k] == groups[k - 1]; }
    }
    ReplaceCharJoin(pieces, PathSeparator, '/');
    if |groups| > 0 {
      JavaSplitJoin(pieces, PathSeparator);
    }
  }

  /** An empty path is one empty group, hence no path entry. */
  lemma SplitEmptyPath()
    ensures JavaSplit("", PathSeparator) == [""]
    ensures PathGroupCount(JavaSplit("", PathSeparator)) == 0
  {
  }

  /** A lone `#` splits into nothing at all. */
  lemma SplitLoneSeparator()
    ensures JavaSplit("#", PathSeparator) == []
  {
    var raw := ["", ""];
    assert Join(raw, PathSeparator) == "#";
    SplitAllJoin(raw, PathSeparator);
    assert DropTrailingEmpty(raw) == DropTrailingEmpty([""]) == [];
  }

  /** A path not opened by `#` loses its first group: "core#billing" has
      the single path entry "billing". */
  lemma SplitUnopenedPath()
    ensures JavaSplit("core#billing", PathSeparator) == ["core", "billing"]
  {
    var pieces := ["core", "billing"];
    assert Join(pieces, PathSeparator) == "core#billing";
    JavaSplitJoin(pieces, PathSeparator);
  }

  /** Trailing empty groups are dropped ... */
  lemma SplitTrailingEmpty()
    ensures JavaSplit("#core##", PathSeparator) == ["", "core"]
  {
    var raw := ["", "core", "", ""];
    assert Join(raw, PathSeparator) == "#core##";
    SplitAllJoin(raw, PathSeparator);
    assert DropTrailingEmpty(raw) == DropTrailingEmpty(["", "core", ""]) == ["", "core"];
  }

  /** ... but inner empty groups are kept, and numbered like the others. */
  lemma SplitInnerEmpty()
    ensures JavaSplit("#a##b", PathSeparator) == ["", "a", "", "b"]
  {
    var pieces := ["", "a", "", "b"];
    assert Join(pieces, PathSeparator) == "#a##b";
    JavaSplitJoin(pieces, PathSeparator);
  }

  /** The first path names, spelled out. */
  lemma PathKeyLiterals()
    ensures PathKey(0) == "hesperides.module.path.0"
    ensures PathKey(1) == "hesperides.module.path.1"
    ensures PathKey(2) == "hesperides.module.path.2"
  {
    assert NatToString(0) == "0" && NatToString(1) == "1" && NatToString(2) == "2";
  }

  /** The module path "#core#billing" with instance name "node-1": two path
      entries "core" and "billing" and no third, the full path
      "/core/billing", and the instance name as given. */
  lemma CoreBillingPredefined(platform: Platform, m: DeployedModule, predefined: seq<ValuedProperty>)
    requires m.modulePath == "#core#billing"
    requires PredefinedFor(platform, Some(m), Some("node-1"), predefined)
    ensures Lookup(predefined, PathKey(0)) == Some(Valued(PathKey(0), "core"))
    ensures Lookup(predefined, PathKey(1)) == Some(Valued(PathKey(1), "billing"))
    ensures Lookup(predefined, PathKey(2)) == None
    ensures Lookup(predefined, ModulePathFullKey) == Some(Valued(ModulePathFullKey, "/core/billing"))
    ensures Lookup(predefined, InstanceNameKey) == Some(Valued(InstanceNameKey, "node-1"))
    ensures PathKey(0) == "hesperides.module.path.0" && PathKey(1) == "hesperides.module.path.1"
    ensures PathKey(2) == "hesperides.module.path.2"
  {
    PathKeyLiterals();
    CoreBillingPath();
    var groups := JavaSplit(m.modulePath, PathSeparator);
    assert PathGroupCount(groups) == 2 && groups[1] == "core" && groups[2] == "billing";
    PredefinedLookup(platform, m, Some("node-1"), predefined);
    PredefinedPathLookup(platform, m, Some("node-1"), predefined);
  }

  /** "#core#billing" splits into an empty first group, "core" and
      "billing", and reads "/core/billing" in full. */
  lemma CoreBillingPath()
    ensures JavaSplit("#core#billing", PathSeparator) == ["", "core", "billing"]
    ensures ReplaceChar("#core#billing", PathSeparator, '/') == "/core/billing"
  {
    var pieces := ["", "core", "billing"];
    CoreBillingJoin();
    JavaSplitJoin(pieces, PathSeparator);
    ReplaceCharJoin(pieces, PathSeparator, '/');
  }

  lemma CoreBillingJoin()
    ensures Join(["", "core", "billing"], PathSeparator) == "#core#billing"
    ensures Join(["", "core", "billing"], '/') == "/core/billing"
  {
    CoreBillingJoinWith(PathSeparator);
    CoreBillingJoinWith('/');
  }

  lemma CoreBillingJoinWith(sep: char)
    ensures Join(["", "core", "billing"], sep) == [sep] + "core" + [sep] + "billing"
  {
    var tail := ["core", "billing"];
    assert ["", "core", "billing"][1..] == tail && tail[1..] == ["billing"];
    assert Join(tail, sep) == "core" + [sep] + "billing";
  }

  /** The instance "Node-1" is found under "node-1"; of its properties only
      `timeout`, which the instance model declares, is kept, and `debug` is
      dropped. Without an instance name nothing is found. */
  lemma NodeOneInstanceProperties()
    ensures var node := Instance("Node-1", [Valued("timeout", "30"), Valued("debug", "true")]);
      && InstanceProperties([node], ["timeout"], Some("node-1")) == [Valued("timeout", "30")]
      && InstanceProperties([node], ["timeout"], None) == []
  {
    var node := Instance("Node-1", [Valued("timeout", "30"), Valued("debug", "true")]);
    NodeOneFound(node);
    NodeOneFiltered();
  }

  /** "node-1" finds the instance named "Node-1". */
  lemma NodeOneFound(node: Instance)
    requires node.name == "Node-1"
    ensures FirstMatchingInstance([node], Some("node-1")) == Some(0)
  {
    assert EqualsIgnoreCase("Node-1", "node-1") by {
      assert ToLowerAscii('N') == 'n';
    }
  }

  /** Of `timeout` and `debug`, the model ["timeout"] keeps `timeout` only. */
  lemma NodeOneFiltered()
    ensures FilterByModel([Valued("timeout", "30"), Valued("debug", "true")], ["timeout"]) == [Valued("timeout", "30")]
  {
    var ps: seq<ValuedProperty> := [Valued("timeout", "30"), Valued("debug", "true")];
    assert ps[1..] == [Valued("debug", "true")];
    assert "debug" !in ["timeout"];
    assert FilterByModel(ps[1..], ["timeout"]) == [];
  }

  // ------------------------------------------------------------ construction

  /** The constructor for one deployed module and instance name. */
  method NewForDeployedModule(platform: Platform, deployedModule: DeployedModule, instanceName: Option<string>,
                              valuedPropertiesWithoutModel: seq<Property>)
    returns (ctx: PropertyValuationContext)
    ensures ctx.globalProperties == platform.globalProperties
    ensures ctx.instanceProperties == InstanceProperties(deployedModule.instances, deployedModule.instancesModel, instanceName)
    ensures PredefinedFor(platform, Some(deployedModule), instanceName, ctx.predefinedProperties)
    ensures ctx.valuedPropertiesWithoutModel == valuedPropertiesWithoutModel
  {
    var predefinedProperties := GetPredefinedProperties(platform, Some(deployedModule), instanceName);
    ctx := PropertyValuationContext(
      platform.globalProperties,
      InstanceProperties(deployedModule.instances, deployedModule.instancesModel, instanceName),
      predefinedProperties,
      valuedPropertiesWithoutModel);
  }

  /** The constructor for the platform alone: no instance properties, and
      only the three platform-level predefined properties. */
  method NewForPlatform(platform: Platform, valuedPropertiesWithoutModel: seq<Property>)
    returns (ctx: PropertyValuationContext)
    ensures ctx.globalProperties == platform.globalProperties
    ensures ctx.instanceProperties == []
    ensures ctx.predefinedProperties == [
      Valued(ApplicationNameKey, platform.applicationName),
      Valued(ApplicationVersionKey, platform.version),
      Valued(PlatformNameKey, platform.platformName)]
    ensures ctx.valuedPropertiesWithoutModel == valuedPropertiesWithoutModel
  {
    var predefinedProperties := GetPredefinedProperties(platform, None, None);
    ctx := PropertyValuationContext(platform.globalProperties, [], predefinedProperties, valuedPropertiesWithoutModel);
  }

  // ------------------------------------------------------------- operations

  /** `completeWithContextualProperties`: overrides with the instance
      properties, then with the predefined ones, then, if asked, with the
      global ones; then, if asked, adds the simple properties without model
      whose name is still undefined. */
  function CompleteWithContextualProperties(ctx: PropertyValuationContext, propertyVisitors: seq<Property>,
                                            includeGlobalProperties: bool, includePropertiesWithoutModel: bool): (r: seq<Property>)
    ensures Names(r) == Names(propertyVisitors) + Names(ctx.instanceProperties) + Names(ctx.predefinedProperties)
                        + (if includeGlobalProperties then Names(ctx.globalProperties) else {})
                        + (if includePropertiesWithoutModel then Names(SimpleOnly(ctx.valuedPropertiesWithoutModel)) else {})
  {
    var withInstance := AddOverriding(propertyVisitors, ctx.instanceProperties);
    var withPredefined := AddOverriding(withInstance, ctx.predefinedProperties);
    var withGlobal := if includeGlobalProperties then AddOverriding(withPredefined, ctx.globalProperties) else withPredefined;
    if includePropertiesWithoutModel then AddIfUndefined(withGlobal, SimpleOnly(ctx.valuedPropertiesWithoutModel))
    else withGlobal
  }

  /** The precedence law: a global value (when included) beats a predefined
      one, which beats an instance one, which beats the sequence's own; a
      property without model (when included) only fills a name no scope
      defines, with the first value given for it. */
  lemma CompletePrecedence(ctx: PropertyValuationContext, propertyVisitors: seq<Property>,
                           includeGlobalProperties: bool, includePropertiesWithoutModel: bool, n: string)
    ensures Lookup(CompleteWithContextualProperties(ctx, propertyVisitors, includeGlobalProperties, includePropertiesWithoutModel), n) ==
      if includeGlobalProperties && n in Names(ctx.globalProperties) then LastWith(ctx.globalProperties, n)
      else if n in Names(ctx.predefinedProperties) then LastWith(ctx.predefinedProperties, n)
      else if n in Names(ctx.instanceProperties) then LastWith(ctx.instanceProperties, n)
      else if n in Names(propertyVisitors) || !includePropertiesWithoutModel then Lookup(propertyVisitors, n)
      else Lookup(SimpleOnly(ctx.valuedPropertiesWithoutModel), n)
  {
    var withInstance := AddOverriding(propertyVisitors, ctx.instanceProperties);
    var withPredefined := AddOverriding(withInstance, ctx.predefinedProperties);
    var withGlobal := if includeGlobalProperties then AddOverriding(withPredefined, ctx.globalProperties) else withPredefined;
    AddOverridingLookup(propertyVisitors, ctx.instanceProperties, n);
    AddOverridingLookup(withInstance, ctx.predefinedProperties, n);
    if includeGlobalProperties {
      AddOverridingLookup(withPredefined, ctx.globalProperties, n);
    }
    if includePropertiesWithoutModel {
      AddIfUndefinedLookup(withGlobal, SimpleOnly(ctx.valuedPropertiesWithoutModel), n);
    }
  }

  /** Completing keeps the names of a sequence unique. */
  lemma CompleteKeepsUniqueNames(ctx: PropertyValuationContext, propertyVisitors: seq<Property>,
                                 includeGlobalProperties: bool, includePropertiesWithoutModel: bool)
    requires UniqueNames(propertyVisitors)
    ensures UniqueNames(CompleteWithContextualProperties(ctx, propertyVisitors, includeGlobalProperties, includePropertiesWithoutModel))
  {
    var withInstance := AddOverriding(propertyVisitors, ctx.instanceProperties);
    var withPredefined := AddOverriding(withInstance, ctx.predefinedProperties);
    AddOverridingUnique(propertyVisitors, ctx.instanceProperties);
    AddOverridingUnique(withInstance, ctx.predefinedProperties);
    var withGlobal := if includeGlobalProperties then AddOverriding(withPredefined, ctx.globalProperties) else withPredefined;
    if includeGlobalProperties {
      AddOverridingUnique(withPredefined, ctx.globalProperties);
    }
    if includePropertiesWithoutModel {
      AddIfUndefinedUnique(withGlobal, SimpleOnly(ctx.valuedPropertiesWithoutModel));
    }
  }

  /** An instance property outside the instance model never reaches the
      completed sequence: built for a module, the context values such a name
      exactly as a context without instance properties would. */
  lemma InstanceOutsideModelIgnored(ctx: PropertyValuationContext, m: DeployedModule, instanceName: Option<string>,
                                    propertyVisitors: seq<Property>, includeGlobalProperties: bool,
                                    includePropertiesWithoutModel: bool, n: string)
    requires ctx.instanceProperties == InstanceProperties(m.instances, m.instancesModel, instanceName)
    requires n !in m.instancesModel
    ensures Lookup(CompleteWithContextualProperties(ctx, propertyVisitors, includeGlobalProperties, includePropertiesWithoutModel), n)
         == Lookup(CompleteWithContextualProperties(ctx.(instanceProperties := []), propertyVisitors, includeGlobalProperties, includePropertiesWithoutModel), n)
  {
    assert n !in Names(ctx.instanceProperties);
    CompletePrecedence(ctx, propertyVisitors, includeGlobalProperties, includePropertiesWithoutModel, n);
    CompletePrecedence(ctx.(instanceProperties := []), propertyVisitors, includeGlobalProperties, includePropertiesWithoutModel, n);
  }

  /** `removePredefinedProperties`: drops every entry named like one of this
      context's predefined properties, and only those. */
  function RemovePredefinedProperties(ctx: PropertyValuationContext, propertyVisitors: seq<Property>): (r: seq<Property>)
    ensures forall p :: p in r ==> p in propertyVisitors && p.name !in Names(ctx.predefinedProperties)
    ensures forall p :: p in propertyVisitors && p.name !in Names(ctx.predefinedProperties) ==> p in r
  {
    RemoveByNames(propertyVisitors, Names(ctx.predefinedProperties))
  }

  /** Round trip: when no other scope and not the sequence itself use a
      predefined name, stripping the predefined properties from a completed
      sequence gives exactly the sequence completed without them. */
  lemma RemoveUndoesPredefined(ctx: PropertyValuationContext, propertyVisitors: seq<Property>,
                               includeGlobalProperties: bool, includePropertiesWithoutModel: bool)
    requires Names(propertyVisitors) !! Names(ctx.predefinedProperties)
    requires Names(ctx.instanceProperties) !! Names(ctx.predefinedProperties)
    requires includeGlobalProperties ==> Names(ctx.globalProperties) !! Names(ctx.predefinedProperties)
    requires includePropertiesWithoutModel ==>
      Names(SimpleOnly(ctx.valuedPropertiesWithoutModel)) !! Names(ctx.predefinedProperties)
    ensures RemovePredefinedProperties(ctx, CompleteWithContextualProperties(ctx, propertyVisitors, includeGlobalProperties, includePropertiesWithoutModel))
         == CompleteWithContextualProperties(ctx.(predefinedProperties := []), propertyVisitors, includeGlobalProperties, includePropertiesWithoutModel)
  {
    var names := Names(ctx.predefinedProperties);
    var withInstance := AddOverriding(propertyVisitors, ctx.instanceProperties);
    var withPredefined := AddOverriding(withInstance, ctx.predefinedProperties);
    var withGlobal := if includeGlobalProperties then AddOverriding(withPredefined, ctx.globalProperties) else withPredefined;
    RemoveByNamesAbsent(propertyVisitors, names);
    RemoveAddOverriding(propertyVisitors, ctx.instanceProperties, names);
    RemoveAddOverriding(withInstance, ctx.predefinedProperties, names);
    // withInstance, stripped, is withInstance itself
    if includeGlobalProperties {
      RemoveAddOverriding(withPredefined, ctx.globalProperties, names);
    }
    if includePropertiesWithoutModel {
      RemoveAddIfUndefined(withGlobal, SimpleOnly(ctx.valuedPropertiesWithoutModel), names);
    }
  }
}
