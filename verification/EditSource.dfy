/**
 What an edit does to the synchronisation state of a channel (controller/channel.go): pending lists and check time
 belong to the source they were computed from, and go with it.
 */
module EditSource {
  import opened Wrappers
  import opened Text
  import opened ModelNames
  import opened ChannelSettings
  import opened ChannelRow
  import opened UpstreamSync
  import opened ChannelEdit

  /** The edit gives the column a value that is neither the loaded one nor the stored one. */
  predicate Rewrites(q: Request, stale: Row, locked: Row, c: Column) {
    Col(c) in q.fields && At(q.cells, c) != Cell(stale, c) && At(q.cells, c) != Cell(locked, c)
  }

  predicate RewritesModels(q: Request, stale: Row, locked: Row) {
    && Col(Models) in q.fields && At(q.cells, Models) != Cell(stale, Models)
    && GetModels(TextOf(At(q.cells, Models))) != GetModels(TextOf(Cell(locked, Models)))
  }

  predicate NewMode(q: Request, locked: Row) {
    && MultiKeyModeField in q.fields && q.multiKeyMode.Some?
    && Trim(q.multiKeyMode.value) != "" && Trim(q.multiKeyMode.value) != locked.info.mode
  }

  /** The settings sent take effect: they are not just what was loaded while others changed them. */
  predicate SettingsTakeEffect(q: Request, stale: Row, locked: Row) {
    var sent := RawOf(At(q.cells, Settings)).content;
    var loaded, stored := SettingsOf(stale).content, SettingsOf(locked).content;
    Col(Settings) in q.fields && !(sent == loaded && stored != loaded)
  }

  /** Another custom route, proxy, check switch or ignored list; or a text that is no JSON object is replaced. */
  predicate NewSourceSettings(sent: Content, stored: Content) {
    if sent.Malformed? || stored.Malformed? then sent != stored
    else
      var f, g := if sent.Object? then sent.fields else map[], if stored.Object? then stored.fields else map[];
      || Get(f, Named("advanced_custom")) != Get(g, Named("advanced_custom"))
      || Get(f, Named("proxy")) != Get(g, Named("proxy"))
      || Get(f, CheckEnabled) != Get(g, CheckEnabled)
      || Get(f, Ignored) != Get(g, Ignored)
  }

  /** Everything about an edit that makes it one of the source. */
  predicate NewSource(q: Request, stale: Row, locked: Row) {
    || Rewrites(q, stale, locked, Type) || Rewrites(q, stale, locked, Key) || Rewrites(q, stale, locked, BaseURL)
    || Rewrites(q, stale, locked, Other) || Rewrites(q, stale, locked, ModelMapping)
    || Rewrites(q, stale, locked, Setting) || Rewrites(q, stale, locked, HeaderOverride)
    || RewritesModels(q, stale, locked) || NewMode(q, locked)
    || (SettingsTakeEffect(q, stale, locked) &&
        NewSourceSettings(RawOf(At(q.cells, Settings)).content, SettingsOf(locked).content))
  }

  lemma ColumnDiffersIff(q: Request, stale: Row, locked: Row, c: Column)
    requires c != Settings
    ensures Differs(Effective(q, stale, locked), c, At(MergedCells(q, stale, locked), c), Cell(locked, c)) <==>
      Rewrites(q, stale, locked, c)
  {
    hide MergedCells, InEffect;
    MergedAt(q, stale, locked, c);
    InEffectIff(q, stale, locked, c);
  }

  lemma MergedAt(q: Request, stale: Row, locked: Row, c: Column)
    ensures At(MergedCells(q, stale, locked), c) == MergedCell(q, stale, locked, c)
  {
    hide MergedCell;
    AllColumnsListed(c);
  }

  lemma InEffectIff(q: Request, stale: Row, locked: Row, c: Column)
    requires c != Settings
    ensures InEffect(q, stale, locked, Col(c)) <==>
      Col(c) in q.fields && (At(q.cells, c) == Cell(stale, c) ==> Cell(locked, c) == Cell(stale, c))
  {
  }

  lemma ModelsDifferIff(q: Request, stale: Row, locked: Row)
    ensures var merged := GetModels(TextOf(At(MergedCells(q, stale, locked), Models)));
      (Col(Models) in Effective(q, stale, locked) && Normalize(ModelsOf(locked)) != Normalize(merged)) <==>
      RewritesModels(q, stale, locked)
  {
    hide GetModels, Normalize;
    AllColumnsListed(Models);
    var sent := TextOf(At(q.cells, Models));
    GetModelsLaws(sent);
    GetModelsLaws(TextOf(Cell(locked, Models)));
    NormalizeFixed(GetModels(sent));
    NormalizeFixed(ModelsOf(locked));
  }

  lemma SettingsDifferIff(q: Request, stale: Row, locked: Row)
    ensures Col(Settings) in Effective(q, stale, locked) <==> SettingsTakeEffect(q, stale, locked)
    ensures SourceSettingsChanged(SettingsOf(locked), RawOf(At(q.cells, Settings))) <==>
      NewSourceSettings(RawOf(At(q.cells, Settings)).content, SettingsOf(locked).content)
  {
  }

  lemma ModeInEffect(q: Request, stale: Row, locked: Row)
    ensures MultiKeyModeField in Effective(q, stale, locked) <==> MultiKeyModeField in q.fields
  {
    hide StaleNoop;
  }

  /** The source test of the edit, said in terms of the request and the two rows. */
  lemma SourceChangedIff(q: Request, stale: Row, locked: Row)
    ensures SourceChangedBy(MergedCells(q, stale, locked), locked, q.multiKeyMode, Effective(q, stale, locked)) <==>
      NewSource(q, stale, locked)
  {
    hide Differs, Rewrites, RewritesModels, MergedCells, Effective, SourceSettingsChanged, NewSourceSettings,
         SettingsTakeEffect, GetModels, Normalize;
    ColumnDiffersIff(q, stale, locked, Type);
    ColumnDiffersIff(q, stale, locked, Key);
    ColumnDiffersIff(q, stale, locked, BaseURL);
    ColumnDiffersIff(q, stale, locked, Other);
    ColumnDiffersIff(q, stale, locked, ModelMapping);
    ColumnDiffersIff(q, stale, locked, Setting);
    ColumnDiffersIff(q, stale, locked, HeaderOverride);
    ModelsDifferIff(q, stale, locked);
    SettingsDifferIff(q, stale, locked);
    ModeInEffect(q, stale, locked);
    SentSettings(q, stale, locked);
  }

  /** The channel as the edit leaves it supports synchronisation. */
  predicate StaysSupported(q: Request, stale: Row, locked: Row) {
    var newType := Col(Type) in q.fields && At(q.cells, Type) != Cell(stale, Type);
    var kind := if newType then At(q.cells, Type) else Cell(locked, Type);
    KindOf(kind) in SUPPORTED_TYPES && !locked.info.isMultiKey
  }

  lemma SupportsIff(q: Request, stale: Row, locked: Row)
    ensures Supports(KindOf(At(MergedCells(q, stale, locked), Type)), ModeInfo(locked.info, q.multiKeyMode)) <==>
      StaysSupported(q, stale, locked)
  {
    AllColumnsListed(Type);
    MergedIsThreeWay(q, stale, locked, Type);
  }

  /** An edit of the source, or to an unsupported channel, leaves nothing pending and no check time. */
  lemma NewSourceClears(srv: Server, q: Request, stale: Row, locked: Row, can: bool)
    requires EditRow(srv, q, stale, locked, can).Edited?
    requires NewSource(q, stale, locked) || !StaysSupported(q, stale, locked)
    ensures var s := SyncOf(EditRow(srv, q, stale, locked, can).row);
      s.detected == [] && s.removed == [] && s.lastCheck == 0
  {
    hide EditRow, Settle, MergedCells, Effective, Decode, NewSource, StaysSupported, SourceChangedBy, Supports,
         ModeInfo;
    SourceChangedIff(q, stale, locked);
    SupportsIff(q, stale, locked);
    EditedSettings(srv, q, stale, locked, can);
    SentSettings(q, stale, locked);
    ClearedBySettling(MergedCells(q, stale, locked), ModeInfo(locked.info, q.multiKeyMode), locked, q.multiKeyMode,
                      Effective(q, stale, locked));
  }

  lemma ClearedBySettling(cells: map<Column, Value>, info: Info, locked: Row, mode: Option<string>, eff: set<Field>)
    requires Settle(cells, info, locked, mode, eff).Settled?
    requires SourceChangedBy(cells, locked, mode, eff) || !Supports(KindOf(At(cells, Type)), info)
    requires Col(Settings) !in eff ==> At(cells, Settings) == Cell(locked, Settings)
    ensures var settled := Settle(cells, info, locked, mode, eff);
      var s := Decode(RawOf(if settled.written then settled.value else Cell(locked, Settings)));
      s.detected == [] && s.removed == [] && s.lastCheck == 0
  {
    hide SourceChangedBy, MergeRuntime, ClearForSourceChange, SameWithoutSyncKeys, Decode;
    var sent := RawOf(At(cells, Settings));
    MergeRuntimeLaws(sent, SettingsOf(locked), true);
    ClearForSourceChangeLaws(SettingsOf(locked));
    WithoutSyncKeysLaws(sent);
    WithoutSyncKeysLaws(SettingsOf(locked));
    MalformedReadsEmpty(SettingsOf(locked));
  }

  lemma MalformedReadsEmpty(raw: Raw)
    ensures raw.content.Malformed? ==> Decode(raw) == NO_SYNC
  {
  }

  /** Any other edit of a channel with checks on keeps what is pending and when it was checked. */
  lemma SameSourceKeeps(srv: Server, q: Request, stale: Row, locked: Row, can: bool)
    requires EditRow(srv, q, stale, locked, can).Edited?
    requires !NewSource(q, stale, locked) && StaysSupported(q, stale, locked)
    requires SettingsTakeEffect(q, stale, locked) ==> Decode(RawOf(At(q.cells, Settings))).check
    ensures var before, after := SyncOf(locked), SyncOf(EditRow(srv, q, stale, locked, can).row);
      after.detected == before.detected && after.removed == before.removed && after.lastCheck == before.lastCheck
  {
    hide EditRow, MergedCells, Effective, Decode, NewSource, StaysSupported, SourceChangedBy, Supports, ModeInfo,
         MergeRuntime, SettingsTakeEffect, WithoutSyncKeys, ClearForSourceChange;
    SourceChangedIff(q, stale, locked);
    SupportsIff(q, stale, locked);
    SettingsDifferIff(q, stale, locked);
    EditedSettings(srv, q, stale, locked, can);
    SentSettings(q, stale, locked);
    MergeRuntimeLaws(RawOf(At(q.cells, Settings)), SettingsOf(locked), false);
  }
}
