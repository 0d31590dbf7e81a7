/**
 The `settings` column of a channel: JSON text that several writers share. Six of its keys belong to upstream
 model synchronisation, three of those six are runtime state; every other key belongs to the
 channel's configuration. A text is represented by what parsing it yields together with a number for its
 spelling and one for the space around it, so that two texts are equal exactly when all parts are.
 */
module ChannelSettings {
  import opened ModelNames
  import opened Wrappers
  import opened Text

  datatype SettingKey = CheckEnabled | AutoSync | Ignored | LastCheck | Detected | Removed | Named(name: string)

  datatype Json =
    | JNull | JBool(b: bool) | JInt(n: int) | JText(s: string) | JNames(names: seq<string>) | JOther(id: nat)

  type Fields = map<SettingKey, Json>

  /** Trimmed text: nothing, something that is no JSON object, or an object. */
  datatype Content = Blank | Malformed(text: string) | Object(spelling: nat, fields: Fields)

  datatype Raw = Raw(margin: nat, content: Content)

  const SYNC_KEYS: set<SettingKey> := {CheckEnabled, AutoSync, Ignored, LastCheck, Detected, Removed}
  const RUNTIME_KEYS: set<SettingKey> := {LastCheck, Detected, Removed}

  predicate SameTrimmed(a: Raw, b: Raw) {
    a.content == b.content
  }

  /** channelSettingsMapForUpdate; null counts as an empty object. */
  function ParseFields(raw: Raw): Option<Fields> {
    match raw.content
    case Blank => Some(map[])
    case Malformed(_) => None
    case Object(_, fields) => Some(fields)
  }

  function Marshal(fields: Fields): Raw {
    Raw(0, Object(0, fields))
  }

  // ---------------------------------------------------------------- the typed view

  /** The synchronisation part of dto.ChannelOtherSettings. */
  datatype Sync = Sync(
    check: bool, auto: bool, ignored: seq<string>, lastCheck: int, detected: seq<string>, removed: seq<string>)

  const NO_SYNC: Sync := Sync(false, false, [], 0, [], [])

  function Get(fields: Fields, k: SettingKey): Json {
    if k in fields then fields[k] else JNull
  }

  function Names(j: Json): seq<string> {
    if j.JNames? then j.names else []
  }

  /** GetOtherSettings: text that does not parse reads as no settings. */
  function Decode(raw: Raw): Sync {
    if !raw.content.Object? then NO_SYNC
    else
      var f := raw.content.fields;
      Sync(Get(f, CheckEnabled) == JBool(true), Get(f, AutoSync) == JBool(true), Names(Get(f, Ignored)),
           if Get(f, LastCheck).JInt? then Get(f, LastCheck).n else 0, Names(Get(f, Detected)), Names(Get(f, Removed)))
  }

  predicate HasValues(s: Sync) {
    s.check || s.auto || |s.ignored| > 0 || s.lastCheck > 0 || |s.detected| > 0 || |s.removed| > 0
  }

  function PutNames(fields: Fields, k: SettingKey, names: seq<string>): Fields {
    var normal := Normalize(names);
    if |normal| > 0 then fields[k := JNames(normal)] else fields - {k}
  }

  function PutFlag(fields: Fields, k: SettingKey, on: bool): Fields {
    if on then fields[k := JBool(true)] else fields - {k}
  }

  /** applyChannelUpstreamModelUpdateSettingsToMap */
  function ApplySync(fields: Fields, s: Sync): Fields {
    if !HasValues(s) then fields - SYNC_KEYS
    else
      var f1 := PutFlag(PutFlag(fields, CheckEnabled, s.check), AutoSync, s.check && s.auto);
      var f2 := PutNames(f1, Ignored, s.ignored);
      var f3 := if s.lastCheck > 0 then f2[LastCheck := JInt(s.lastCheck)] else f2 - {LastCheck};
      PutNames(PutNames(f3, Detected, s.detected), Removed, s.removed)
  }

  /** mergeChannelUpstreamModelUpdateSettings */
  function Persist(raw: Raw, s: Sync): Option<Raw> {
    var fields := ParseFields(raw);
    if fields.None? then None else Some(Marshal(ApplySync(fields.value, s)))
  }

  /** What survives being stored. */
  function Stored(s: Sync): Sync {
    Sync(s.check, s.check && s.auto, Normalize(s.ignored), if s.lastCheck > 0 then s.lastCheck else 0,
         Normalize(s.detected), Normalize(s.removed))
  }

  lemma PutNamesReads(fields: Fields, k: SettingKey, names: seq<string>)
    ensures Names(Get(PutNames(fields, k, names), k)) == Normalize(names)
    ensures forall j :: j != k ==> Get(PutNames(fields, k, names), j) == Get(fields, j)
    ensures PutNames(fields, k, names) - {k} == fields - {k}
  {
  }

  lemma ApplySyncReads(fields: Fields, s: Sync)
    requires HasValues(s)
    ensures Decode(Marshal(ApplySync(fields, s))) == Stored(s)
  {
    hide PutNames, Normalize;
    var f1 := PutFlag(PutFlag(fields, CheckEnabled, s.check), AutoSync, s.check && s.auto);
    var f2 := PutNames(f1, Ignored, s.ignored);
    var f3 := if s.lastCheck > 0 then f2[LastCheck := JInt(s.lastCheck)] else f2 - {LastCheck};
    var f4 := PutNames(f3, Detected, s.detected);
    PutNamesReads(f1, Ignored, s.ignored);
    PutNamesReads(f3, Detected, s.detected);
    PutNamesReads(f4, Removed, s.removed);
    var after := PutNames(f4, Removed, s.removed);
    assert ApplySync(fields, s) == after;
    assert Get(after, CheckEnabled) == Get(f1, CheckEnabled);
    assert Get(after, AutoSync) == Get(f1, AutoSync);
    assert Get(after, LastCheck) == Get(f3, LastCheck);
    assert Names(Get(after, Ignored)) == Normalize(s.ignored);
    assert Names(Get(after, Detected)) == Normalize(s.detected);
  }

  lemma ApplySyncFrame(fields: Fields, s: Sync)
    ensures ApplySync(fields, s) - SYNC_KEYS == fields - SYNC_KEYS
  {
    hide Normalize;
    if !HasValues(s) {
      assert fields - SYNC_KEYS - SYNC_KEYS == fields - SYNC_KEYS;
    }
  }

  lemma NothingStored(fields: Fields, s: Sync)
    requires !HasValues(s)
    ensures Decode(Marshal(ApplySync(fields, s))) == Stored(s)
  {
  }

  /** A key is stored exactly if there is something to store. */
  lemma StoredKeys(raw: Raw, s: Sync)
    requires Persist(raw, s).Some?
    ensures var f := Persist(raw, s).value.content.fields;
      && (CheckEnabled in f <==> s.check) && (AutoSync in f <==> s.check && s.auto)
      && (LastCheck in f <==> s.lastCheck > 0) && (Ignored in f <==> Normalize(s.ignored) != [])
      && (Detected in f <==> Normalize(s.detected) != []) && (Removed in f <==> Normalize(s.removed) != [])
  {
    hide Normalize;
    NormalizeEmpty();
  }

  lemma NormalizeEmpty()
    ensures Normalize([]) == []
  {
  }

  /** Reading back what was persisted; settings of others are not touched. */
  lemma PersistRoundTrip(raw: Raw, s: Sync)
    ensures Persist(raw, s).None? <==> raw.content.Malformed?
    ensures Persist(raw, s).Some? ==>
      && Decode(Persist(raw, s).value) == Stored(s)
      && Persist(raw, s).value.content.Object?
      && SameWithoutSyncKeys(Persist(raw, s).value, raw)
  {
    hide ApplySync, Stored, Decode, HasValues;
    if !raw.content.Malformed? {
      var fields := ParseFields(raw).value;
      ApplySyncFrame(fields, s);
      if HasValues(s) {
        ApplySyncReads(fields, s);
      } else {
        NothingStored(fields, s);
      }
    }
  }

  // ---------------------------------------------------------------- what an edit does to the text

  function ClearedRuntime(fields: Fields): Fields {
    fields[Detected := JNames([])][Removed := JNames([])][LastCheck := JInt(0)]
  }

  function KeepRuntime(requested: Fields, current: Fields, k: SettingKey): Fields {
    if k in current then requested[k := current[k]] else requested - {k}
  }

  /** mergeChannelUpstreamModelUpdateRuntimeSettingsForUpdate */
  function MergeRuntime(requested: Raw, current: Raw, sourceChanged: bool): Raw {
    var r := ParseFields(requested);
    if r.None? then requested
    else
      var now := if ParseFields(current).Some? then ParseFields(current).value else map[];
      if Get(r.value, CheckEnabled) != JBool(true) then Marshal(ClearedRuntime(r.value - {AutoSync}))
      else if sourceChanged then Marshal(ClearedRuntime(r.value))
      else Marshal(KeepRuntime(KeepRuntime(KeepRuntime(r.value, now, LastCheck), now, Detected), now, Removed))
  }

  predicate HasSyncKeys(fields: Fields) {
    exists k :: k in SYNC_KEYS && k in fields
  }

  /** clearChannelUpstreamModelUpdateRuntimeSettingsForSourceChange; nothing if the text stays as it is. */
  function ClearForSourceChange(raw: Raw): Option<Raw> {
    var f := ParseFields(raw);
    if f.None? || !HasSyncKeys(f.value) then None else Some(Marshal(ClearedRuntime(f.value)))
  }

  /** channelSettingsWithoutUpstreamModelUpdateFields; the text itself if it holds none of the six keys. */
  function WithoutSyncKeys(raw: Raw): Option<Raw> {
    var f := ParseFields(raw);
    if f.None? then None else if HasSyncKeys(f.value) then Some(Marshal(f.value - SYNC_KEYS)) else Some(raw)
  }

  // ---------------------------------------------------------------- comparisons

  /** channelUpstreamModelSourceSettings: all but runtime state; a text that does not parse is one raw entry. */
  function SourceFields(raw: Raw): Fields {
    match raw.content
    case Blank => map[]
    case Malformed(text) => map[Named("__raw") := JText(text)]
    case Object(_, fields) => fields - RUNTIME_KEYS
  }

  predicate SameSourceSettings(a: Raw, b: Raw) {
    SourceFields(a) == SourceFields(b)
  }

  /** sameChannelSettingsWithoutUpstreamModelUpdateFields */
  predicate SameWithoutSyncKeys(a: Raw, b: Raw) {
    var f, g := ParseFields(a), ParseFields(b);
    if f.None? || g.None? then SameTrimmed(a, b) else f.value - SYNC_KEYS == g.value - SYNC_KEYS
  }

  /** channelUpstreamModelUpdateSourceSettingsChanged */
  predicate SourceSettingsChanged(origin: Raw, requested: Raw) {
    var f, g := ParseFields(origin), ParseFields(requested);
    if f.None? || g.None? then !SameTrimmed(origin, requested)
    else
      || Get(f.value, Named("advanced_custom")) != Get(g.value, Named("advanced_custom"))
      || Get(f.value, Named("proxy")) != Get(g.value, Named("proxy"))
      || Get(f.value, CheckEnabled) != Get(g.value, CheckEnabled)
      || Get(f.value, Ignored) != Get(g.value, Ignored)
  }

  /**
   Equal source settings mean equal settings apart from the six keys, except when exactly one of the two texts
   does not parse: an object holding just that text under "__raw" is then mistaken for it.
   */
  lemma SameSourceIsSameOutsideSync(a: Raw, b: Raw)
    requires SameSourceSettings(a, b)
    ensures ParseFields(a).Some? && ParseFields(b).Some? ==> SameWithoutSyncKeys(a, b)
    ensures a.content.Malformed? && b.content.Malformed? ==> a.content == b.content
  {
    if ParseFields(a).Some? && ParseFields(b).Some? {
      assert ParseFields(a).value - SYNC_KEYS == SourceFields(a) - SYNC_KEYS;
      assert ParseFields(b).value - SYNC_KEYS == SourceFields(b) - SYNC_KEYS;
    }
    if a.content.Malformed? && b.content.Malformed? {
      assert SourceFields(a)[Named("__raw")] == SourceFields(b)[Named("__raw")];
    }
  }

  lemma MergeRuntimeLaws(requested: Raw, current: Raw, sourceChanged: bool)
    ensures var m := MergeRuntime(requested, current, sourceChanged);
      && (requested.content.Malformed? ==> m == requested)
      && (!requested.content.Malformed? ==> m.content.Object? && SameWithoutSyncKeys(m, requested))
      && Decode(m).check == Decode(requested).check && Decode(m).ignored == Decode(requested).ignored
      && (Decode(m).auto <==> Decode(requested).auto && Decode(requested).check)
      && (Decode(requested).check && !sourceChanged ==>
            && Decode(m).detected == Decode(current).detected && Decode(m).removed == Decode(current).removed
            && Decode(m).lastCheck == Decode(current).lastCheck)
      && (!Decode(requested).check || sourceChanged ==>
            Decode(m).detected == Decode(m).removed == [] && Decode(m).lastCheck == 0)
  {
    if !requested.content.Malformed? {
      var r := ParseFields(requested).value;
      var m := MergeRuntime(requested, current, sourceChanged);
      assert m.content.fields - SYNC_KEYS == r - SYNC_KEYS;
    }
  }

  lemma ClearForSourceChangeLaws(raw: Raw)
    ensures var c := ClearForSourceChange(raw);
      if c.None? then Decode(raw) == NO_SYNC
      else SameWithoutSyncKeys(c.value, raw) &&
           Decode(c.value) == Decode(raw).(detected := [], removed := [], lastCheck := 0)
  {
    var f := ParseFields(raw);
    if f.Some? {
      if HasSyncKeys(f.value) {
        assert ClearedRuntime(f.value) - SYNC_KEYS == f.value - SYNC_KEYS;
      } else {
        assert forall k :: k in SYNC_KEYS ==> k !in f.value;
        assert CheckEnabled in SYNC_KEYS && AutoSync in SYNC_KEYS && Ignored in SYNC_KEYS;
        assert LastCheck in SYNC_KEYS && Detected in SYNC_KEYS && Removed in SYNC_KEYS;
      }
    }
  }

  lemma WithoutSyncKeysLaws(raw: Raw)
    ensures WithoutSyncKeys(raw).None? <==> raw.content.Malformed?
    ensures WithoutSyncKeys(raw).Some? ==>
      SameWithoutSyncKeys(WithoutSyncKeys(raw).value, raw) && Decode(WithoutSyncKeys(raw).value) == NO_SYNC
  {
    var f := ParseFields(raw);
    if f.Some? {
      if HasSyncKeys(f.value) {
        assert f.value - SYNC_KEYS - SYNC_KEYS == f.value - SYNC_KEYS;
      } else {
        assert forall k :: k in SYNC_KEYS ==> k !in f.value;
        assert CheckEnabled in SYNC_KEYS && AutoSync in SYNC_KEYS && Ignored in SYNC_KEYS;
        assert LastCheck in SYNC_KEYS && Detected in SYNC_KEYS && Removed in SYNC_KEYS;
      }
    }
  }
}
