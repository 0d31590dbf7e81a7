/**
 A client that sends back what it loaded, through both permission checks of an edit (controller/channel.go): the one
 before the lock, against the loaded row, and the one under the lock, against the row as it is by then.
 */
module InnocentEdits {
  import opened Wrappers
  import opened Text
  import opened ModelNames
  import opened ChannelSettings
  import opened ChannelRow
  import opened UpstreamSync
  import opened ChannelEdit

  /** The request as it reaches the lock: before, the handler cleans the settings of an unsupported channel. */
  function AtLock(q: Request, stale: Row): Request {
    q.(cells := q.cells[Settings := Config(SettingsBeforeLock(q, stale))])
  }

  /** The handler took some of the six keys out of the settings that were sent. */
  predicate CleanedBefore(q: Request, stale: Row) {
    var kind := KindOf(if Col(Type) in q.fields then At(q.cells, Type) else Cell(stale, Type));
    Col(Settings) in q.fields && ContainsSyncKeys(RawOf(At(q.cells, Settings))) && !Supports(kind, stale.info)
  }

  /**
   Meanwhile somebody else has changed other settings, or has made the channel a supported one; `cleaned` is what
   is left of the settings sent.
   */
  predicate Overtaken(cleaned: Raw, locked: Row) {
    && !SameSourceSettings(SettingsOf(locked), cleaned)
    && (RowSupports(locked) || !SameWithoutSyncKeys(cleaned, SettingsOf(locked)))
  }

  lemma UncleanedStaysInnocent(q: Request, stale: Row)
    requires Innocent(q, stale) && !CleanedBefore(q, stale)
    ensures Innocent(AtLock(q, stale), stale)
  {
    var q1, sent := AtLock(q, stale), RawOf(At(q.cells, Settings));
    forall c | c in SENSITIVE_COLUMNS ensures !Changes(q1, stale, c) {
      assert !Changes(q, stale, c);
    }
    if Col(Settings) in q.fields {
      assert SettingsBeforeLock(q, stale) == sent;
    }
  }

  /** For an innocent request only the settings are left to ask about. */
  lemma OnlySettingsAsked(q: Request, q1: Request, stale: Row, locked: Row)
    requires Innocent(q, stale) && q1 == q.(cells := q.cells[Settings := At(q1.cells, Settings)])
    ensures NeedsPermission(q1, stale, locked) <==>
      && Col(Settings) in ClientFields(q1, stale, locked)
      && SettingsSensitive(FullCells(q1, stale, locked), ModeInfo(locked.info, q.multiKeyMode), locked)
    ensures At(MergedCells(q1, stale, locked), Type) == Cell(locked, Type)
  {
    hide FullCells, SettingsSensitive, ClientFields, SameSourceSettings, Settle, StaleNoop, ModeInfo;
    forall c | c in SENSITIVE_COLUMNS ensures !Changes(q1, stale, c) {
      assert !Changes(q, stale, c);
    }
    forall c | c in SENSITIVE_COLUMNS
      ensures !Differs(ClientFields(q1, stale, locked), c, At(FullCells(q1, stale, locked), c), Cell(locked, c))
    {
      InnocentColumn(q1, stale, locked, c);
    }
    ClientField(q1, stale, locked, KeyModeField);
    forall f | f in ClientFields(q1, stale, locked) && f != Col(Settings) ensures !f.Unknown? {
      ClientField(q1, stale, locked, f);
    }
    AllColumnsListed(Type);
    MergedIsThreeWay(q1, stale, locked, Type);
    assert Type in SENSITIVE_COLUMNS;
  }

  /** What was cleaned has none of the six keys, and so differs from what was loaded. */
  lemma CleanedIsBare(q: Request, stale: Row)
    requires Innocent(q, stale) && CleanedBefore(q, stale)
    ensures var cleaned := SettingsBeforeLock(q, stale);
      && cleaned.content.Object? && !HasSyncKeys(cleaned.content.fields)
      && !SameTrimmed(cleaned, SettingsOf(stale))
  {
    var sent := RawOf(At(q.cells, Settings));
    var f := ParseFields(sent).value;
    assert SettingsBeforeLock(q, stale) == Marshal(f - SYNC_KEYS);
    var k :| k in SYNC_KEYS && k in f;
    assert k !in f - SYNC_KEYS;
  }

  lemma MergedBare(cleaned: Raw, current: Raw, changed: bool)
    requires cleaned.content.Object? && !HasSyncKeys(cleaned.content.fields)
    ensures SourceFields(MergeRuntime(cleaned, current, changed)) == SourceFields(cleaned)
    ensures WithoutSyncKeys(cleaned) == Some(cleaned) && !ContainsSyncKeys(cleaned)
  {
    var f := cleaned.content.fields;
    assert CheckEnabled in SYNC_KEYS && AutoSync in SYNC_KEYS;
    assert CheckEnabled !in f && AutoSync !in f;
    assert ClearedRuntime(f - {AutoSync}) - RUNTIME_KEYS == f - RUNTIME_KEYS;
  }

  lemma CleanedInEffect(q: Request, stale: Row, locked: Row)
    requires Innocent(q, stale) && CleanedBefore(q, stale)
    ensures var q1, cleaned := AtLock(q, stale), SettingsBeforeLock(q, stale);
      && Col(Settings) in Effective(q1, stale, locked)
      && At(MergedCells(q1, stale, locked), Settings) == Config(cleaned)
  {
    hide SettingsBeforeLock;
    CleanedIsBare(q, stale);
    AllColumnsListed(Settings);
  }

  lemma CleanedSettles(q: Request, stale: Row, locked: Row)
    requires Innocent(q, stale) && CleanedBefore(q, stale)
    ensures var q1, cleaned := AtLock(q, stale), SettingsBeforeLock(q, stale);
      var settled := SettledFor(q1, stale, locked);
      && settled.Settled? && settled.written
      && (if RowSupports(locked) then SourceFields(RawOf(settled.value)) == SourceFields(cleaned)
          else settled.value == Config(cleaned))
  {
    hide SettingsBeforeLock, MergedCells, Effective, SourceChangedBy, MergeRuntime, WithoutSyncKeys, ContainsSyncKeys,
         SourceFields, CleanedBefore;
    var q1, cleaned := AtLock(q, stale), SettingsBeforeLock(q, stale);
    CleanedInEffect(q, stale, locked);
    CleanedIsBare(q, stale);
    OnlySettingsAsked(q, q1, stale, locked);
    var cells, eff := MergedCells(q1, stale, locked), Effective(q1, stale, locked);
    MergedBare(cleaned, SettingsOf(locked), SourceChangedBy(cells, locked, q1.multiKeyMode, eff));
  }

  lemma CleanedAskedIff(q: Request, stale: Row, locked: Row)
    requires Innocent(q, stale) && CleanedBefore(q, stale)
    ensures NeedsPermission(AtLock(q, stale), stale, locked) <==> Overtaken(SettingsBeforeLock(q, stale), locked)
  {
    hide SettingsBeforeLock, MergedCells, Effective, SettledFor, NeedsPermission, CleanedBefore, SameWithoutSyncKeys,
         SourceFields;
    var q1, cleaned := AtLock(q, stale), SettingsBeforeLock(q, stale);
    CleanedInEffect(q, stale, locked);
    CleanedSettles(q, stale, locked);
    OnlySettingsAsked(q, q1, stale, locked);
    SameTextLaws(cleaned, cleaned);
    var cells := FullCells(q1, stale, locked);
    assert At(cells, Settings) == SettledFor(q1, stale, locked).value && At(cells, Type) == Cell(locked, Type);
    assert Col(Settings) in ClientFields(q1, stale, locked) <==> !SameSourceSettings(SettingsOf(locked), cleaned);
    if cleaned == SettingsOf(locked) {
      SameTextLaws(cleaned, SettingsOf(locked));
    }
  }

  /**
   A request that sends back what was loaded passes the check before the lock, and under the lock is asked for the
   permission exactly if the handler cleaned its settings and somebody has overtaken them meanwhile.
   */
  lemma InnocentRequestAskedIff(q: Request, stale: Row, locked: Row)
    requires Innocent(q, stale) && (Col(Type) !in q.fields ==> KindOf(At(q.cells, Type)) == 0)
    ensures !NeedsPermissionBeforeLock(q, stale)
    ensures NeedsPermission(AtLock(q, stale), stale, locked) <==>
      CleanedBefore(q, stale) && Overtaken(SettingsBeforeLock(q, stale), locked)
  {
    hide NeedsPermission, NeedsPermissionBeforeLock, Innocent, CleanedBefore, Overtaken, SettingsBeforeLock;
    InnocentEditPassesBeforeLock(q, stale);
    if CleanedBefore(q, stale) {
      CleanedAskedIff(q, stale, locked);
    } else {
      UncleanedStaysInnocent(q, stale);
      InnocentEditNeedsNoPermission(AtLock(q, stale), stale, locked);
    }
  }

  // ---------------------------------------------------------------- it does happen

  /** An unsupported channel with a residual check switch, and a proxy. */
  function ProxyRow(proxy: string): Row {
    var fields := map[CheckEnabled := JBool(true), Named("proxy") := JText(proxy)];
    Row(1, 1, Info(false, 0, "", map[]), map[Settings := Config(Raw(0, Object(0, fields)))])
  }

  const SENT_BACK: Request := Request({Col(Settings)}, map[Settings := Cell(ProxyRow("a"), Settings)], None, None)

  /** The client sends back the settings it loaded, another proxy was set meanwhile, and the permission is asked for. */
  lemma InnocentRequestIsAsked()
    ensures Innocent(SENT_BACK, ProxyRow("a"))
    ensures NeedsPermission(AtLock(SENT_BACK, ProxyRow("a")), ProxyRow("a"), ProxyRow("b"))
  {
    hide NeedsPermission;
    var stale, locked := ProxyRow("a"), ProxyRow("b");
    var f, g := SettingsOf(stale).content.fields, SettingsOf(locked).content.fields;
    assert CheckEnabled in SYNC_KEYS && CheckEnabled in f;
    assert CleanedBefore(SENT_BACK, stale);
    assert SettingsBeforeLock(SENT_BACK, stale) == Marshal(f - SYNC_KEYS);
    assert (f - SYNC_KEYS)[Named("proxy")] == JText("a") && (g - SYNC_KEYS)[Named("proxy")] == JText("b");
    assert (f - SYNC_KEYS - SYNC_KEYS)[Named("proxy")] == JText("a");
    assert (g - RUNTIME_KEYS)[Named("proxy")] == JText("b");
    assert (f - SYNC_KEYS - RUNTIME_KEYS)[Named("proxy")] == JText("a");
    assert "a" != "b";
    CleanedAskedIff(SENT_BACK, stale, locked);
  }
}
