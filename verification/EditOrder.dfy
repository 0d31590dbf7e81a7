/** Two edits of one channel in either order (controller/channel.go): whether they succeed, and what they leave. */
module EditOrder {
  import opened Wrappers
  import opened Text
  import opened ModelNames
  import opened ChannelSettings
  import opened ChannelRow
  import opened ChannelEdit

  /** An edit that sends neither settings nor a key mode. */
  predicate Ordinary(q: Request) {
    Col(Settings) !in q.fields && q.keyMode.None?
  }

  /** The edit changes a sensitive column away from what is stored, or holds a field that is not classified. */
  predicate AsksSensitive(q: Request, stale: Row, locked: Row) {
    || (exists c :: c in SENSITIVE_COLUMNS && Changes(q, stale, c) && At(q.cells, c) != Cell(locked, c))
    || (exists f :: f in q.fields && f.Unknown?)
  }

  lemma OrdinarySettles(q: Request, stale: Row, locked: Row)
    requires Ordinary(q)
    ensures SettledFor(q, stale, locked).Settled? && Col(Settings) !in ClientFields(q, stale, locked)
    ensures Col(Settings) !in Effective(q, stale, locked)
  {
    hide MergedCells, SourceChangedBy, MergeRuntime, WithoutSyncKeys, ClearForSourceChange, Supports;
  }

  lemma SensitiveColumnAsked(q: Request, stale: Row, locked: Row, c: Column)
    requires c != Settings
    ensures Differs(ClientFields(q, stale, locked), c, At(FullCells(q, stale, locked), c), Cell(locked, c)) <==>
      Changes(q, stale, c) && At(q.cells, c) != Cell(locked, c)
  {
    hide FullCells, ClientFields, SettledFor;
    ClientField(q, stale, locked, Col(c));
    FullCell(q, stale, locked, c);
  }

  lemma FieldStays(q: Request, stale: Row, locked: Row, f: Field)
    requires !f.Col?
    ensures f in ClientFields(q, stale, locked) <==> f in q.fields
  {
    hide ClientFields, StaleNoop;
    ClientField(q, stale, locked, f);
  }

  lemma PermissionIff(q: Request, stale: Row, locked: Row)
    requires Ordinary(q)
    ensures NeedsPermission(q, stale, locked) <==> AsksSensitive(q, stale, locked)
  {
    hide FullCells, ClientFields, SettingsSensitive, SettledFor, Changes, Differs;
    OrdinarySettles(q, stale, locked);
    forall c | c in SENSITIVE_COLUMNS
      ensures Differs(ClientFields(q, stale, locked), c, At(FullCells(q, stale, locked), c), Cell(locked, c)) <==>
        Changes(q, stale, c) && At(q.cells, c) != Cell(locked, c)
    {
      SensitiveColumnAsked(q, stale, locked, c);
    }
    forall f: Field | f.Unknown? ensures f in ClientFields(q, stale, locked) <==> f in q.fields {
      FieldStays(q, stale, locked, f);
    }
  }

  /** An ordinary edit succeeds exactly if its mode is valid and it asks nothing the caller may not do. */
  lemma OrdinarySucceedsIff(srv: Server, q: Request, stale: Row, locked: Row, can: bool)
    requires Ordinary(q)
    ensures EditRow(srv, q, stale, locked, can).Edited? <==>
      !ModeRejected(q.multiKeyMode) && (can || !AsksSensitive(q, stale, locked))
  {
    hide NeedsPermission, AsksSensitive, SettledFor, FullCells, FullEffect, WrittenInfo, WrittenCells, SubmittedKeys;
    OrdinarySettles(q, stale, locked);
    PermissionIff(q, stale, locked);
  }

  /** An edit does not change whether a second one with disjoint changes succeeds. */
  lemma SuccessIsOrderFree(srv: Server, q1: Request, q2: Request, stale: Row, locked: Row, can1: bool, can2: bool)
    requires DisjointChanges(q1, q2, stale) && Ordinary(q1) && Ordinary(q2)
    requires EditRow(srv, q1, stale, locked, can1).Edited?
    ensures EditRow(srv, q2, stale, EditRow(srv, q1, stale, locked, can1).row, can2).Edited? <==>
      EditRow(srv, q2, stale, locked, can2).Edited?
  {
    hide EditRow, Changes, ModeRejected;
    var first := EditRow(srv, q1, stale, locked, can1).row;
    OrdinarySucceedsIff(srv, q2, stale, locked, can2);
    OrdinarySucceedsIff(srv, q2, stale, first, can2);
    forall c | c in SENSITIVE_COLUMNS && Changes(q2, stale, c) ensures Cell(first, c) == Cell(locked, c) {
      EditIsThreeWayMerge(srv, q1, stale, locked, can1, c);
    }
  }

  lemma SameOutsideIsTransitive(a: Raw, b: Raw, c: Raw)
    requires SameWithoutSyncKeys(a, b) && SameWithoutSyncKeys(b, c)
    ensures SameWithoutSyncKeys(a, c)
  {
  }

  /** Without settings in the request an edit leaves the stored ones alone, but for the six keys. */
  lemma OrdinaryKeepsSettings(srv: Server, q: Request, stale: Row, locked: Row, can: bool)
    requires Ordinary(q) && EditRow(srv, q, stale, locked, can).Edited?
    ensures SameWithoutSyncKeys(SettingsOf(EditRow(srv, q, stale, locked, can).row), SettingsOf(locked))
  {
    hide EditRow, Settle, MergedCells, Effective, SameWithoutSyncKeys;
    OrdinarySettles(q, stale, locked);
    EditedSettings(srv, q, stale, locked, can);
    SentSettings(q, stale, locked);
    SettleLaws(MergedCells(q, stale, locked), ModeInfo(locked.info, q.multiKeyMode), locked, q.multiKeyMode,
               Effective(q, stale, locked));
    SameWithoutSyncKeysLaws(SettingsOf(locked));
  }

  /**
   Two ordinary edits from the same loaded row with disjoint changes that would each succeed alone succeed in both
   orders, leave the same columns and lists, and leave the settings alone but for the six keys.
   */
  lemma OrdinaryEditsCommute(srv: Server, q1: Request, q2: Request, stale: Row, locked: Row, can1: bool, can2: bool,
                             c: Column)
    requires DisjointChanges(q1, q2, stale) && Ordinary(q1) && Ordinary(q2)
    requires EditRow(srv, q1, stale, locked, can1).Edited? && EditRow(srv, q2, stale, locked, can2).Edited?
    ensures var both := EditRow(srv, q2, stale, EditRow(srv, q1, stale, locked, can1).row, can2);
      var swapped := EditRow(srv, q1, stale, EditRow(srv, q2, stale, locked, can2).row, can1);
      && both.Edited? && swapped.Edited?
      && (c != Settings && !ListColumn(c) ==> Cell(both.row, c) == Cell(swapped.row, c))
      && (ListColumn(c) ==> GetModels(TextOf(Cell(both.row, c))) == GetModels(TextOf(Cell(swapped.row, c))))
      && SameWithoutSyncKeys(SettingsOf(both.row), SettingsOf(locked))
      && SameWithoutSyncKeys(SettingsOf(swapped.row), SettingsOf(locked))
  {
    hide EditRow, GetModels, SameWithoutSyncKeys, DisjointChanges;
    var first, second := EditRow(srv, q1, stale, locked, can1).row, EditRow(srv, q2, stale, locked, can2).row;
    DisjointIsSymmetric(q1, q2, stale);
    SuccessIsOrderFree(srv, q1, q2, stale, locked, can1, can2);
    SuccessIsOrderFree(srv, q2, q1, stale, locked, can2, can1);
    DisjointEditsCommute(srv, q1, q2, stale, locked, can1, can2, c);
    OrdinaryKeepsSettings(srv, q1, stale, locked, can1);
    OrdinaryKeepsSettings(srv, q2, stale, locked, can2);
    OrdinaryKeepsSettings(srv, q2, stale, first, can2);
    OrdinaryKeepsSettings(srv, q1, stale, second, can1);
    var both, swapped := EditRow(srv, q2, stale, first, can2).row, EditRow(srv, q1, stale, second, can1).row;
    SameOutsideIsTransitive(SettingsOf(both), SettingsOf(first), SettingsOf(locked));
    SameOutsideIsTransitive(SettingsOf(swapped), SettingsOf(second), SettingsOf(locked));
  }

  lemma DisjointIsSymmetric(q1: Request, q2: Request, stale: Row)
    requires DisjointChanges(q1, q2, stale)
    ensures DisjointChanges(q2, q1, stale)
  {
    hide Changes;
  }

  // ---------------------------------------------------------------- the six keys

  /** An unsupported channel with a residual check switch. */
  const RESIDUAL: Fields := map[CheckEnabled := JBool(true)]
  const RESIDUAL_ROW: Row := Row(1, 1, Info(false, 0, "", map[]), map[Settings := Config(Raw(0, Object(0, RESIDUAL)))])

  const TYPING: Request := Request({Col(Type)}, map[Type := Num(1)], None, None)
  const NAMING: Request := Request({Col(Name)}, map[Name := Str("n")], None, None)

  /** What settling does for an ordinary edit, by the type it ends with. */
  lemma OrdinarySettled(q: Request, stale: Row, locked: Row)
    requires Ordinary(q) && q.multiKeyMode.None? && !locked.info.isMultiKey && ParseFields(SettingsOf(locked)).Some?
    ensures var kind := KindOf(ThreeWay(q, stale, locked, Type));
      var changed := SourceChangedBy(MergedCells(q, stale, locked), locked, None, Effective(q, stale, locked));
      var settled := SettledFor(q, stale, locked);
      && (kind !in SUPPORTED_TYPES ==>
            RawOf(if settled.written then settled.value else Cell(locked, Settings)) ==
            WithoutSyncKeys(SettingsOf(locked)).value)
      && (kind in SUPPORTED_TYPES ==>
            settled == if changed && ClearForSourceChange(SettingsOf(locked)).Some?
                       then Settled(Config(ClearForSourceChange(SettingsOf(locked)).value), true)
                       else Settled(Cell(locked, Settings), false))
  {
    hide SourceChangedBy, MergeRuntime, MergedCells, Effective, ClearForSourceChange, StaleNoop, ThreeWay;
    OrdinarySettles(q, stale, locked);
    SentSettings(q, stale, locked);
    MergedType(q, stale, locked);
  }

  lemma MergedType(q: Request, stale: Row, locked: Row)
    ensures At(MergedCells(q, stale, locked), Type) == ThreeWay(q, stale, locked, Type)
  {
    AllColumnsListed(Type);
    MergedIsThreeWay(q, stale, locked, Type);
  }

  /** An edit of the type alone changes the source; one of the name alone does not. */
  lemma SourceOfTypeAndName(locked: Row)
    ensures Cell(locked, Type) == Null ==>
      SourceChangedBy(MergedCells(TYPING, RESIDUAL_ROW, locked), locked, None, Effective(TYPING, RESIDUAL_ROW, locked))
    ensures !SourceChangedBy(MergedCells(NAMING, RESIDUAL_ROW, locked), locked, None,
                             Effective(NAMING, RESIDUAL_ROW, locked))
  {
    hide SourceChangedBy, ThreeWay, MergedCells, Effective;
    MergedType(TYPING, RESIDUAL_ROW, locked);
    TypingChanges(locked);
    if Cell(locked, Type) == Null {
      NewTypeIsSource(MergedCells(TYPING, RESIDUAL_ROW, locked), locked, Effective(TYPING, RESIDUAL_ROW, locked));
    }
    OnlyName(locked);
    NameIsNoSource(MergedCells(NAMING, RESIDUAL_ROW, locked), locked, Effective(NAMING, RESIDUAL_ROW, locked));
  }

  lemma NewTypeIsSource(cells: map<Column, Value>, locked: Row, eff: set<Field>)
    requires Col(Type) in eff && At(cells, Type) != Cell(locked, Type)
    ensures SourceChangedBy(cells, locked, None, eff)
  {
    hide GetModels, Normalize, SourceSettingsChanged;
  }

  lemma OnlyName(locked: Row)
    ensures Effective(NAMING, RESIDUAL_ROW, locked) <= {Col(Name)}
  {
    hide StaleNoop;
  }

  lemma NameIsNoSource(cells: map<Column, Value>, locked: Row, eff: set<Field>)
    requires eff <= {Col(Name)}
    ensures !SourceChangedBy(cells, locked, None, eff)
  {
    hide GetModels, Normalize, SourceSettingsChanged;
  }

  lemma TypingChanges(locked: Row)
    ensures ThreeWay(TYPING, RESIDUAL_ROW, locked, Type) == Num(1)
    ensures Col(Type) in Effective(TYPING, RESIDUAL_ROW, locked)
    ensures ThreeWay(NAMING, RESIDUAL_ROW, locked, Type) == Cell(locked, Type)
  {
    assert !StaleNoop(TYPING, RESIDUAL_ROW, locked, Type);
    assert InEffect(TYPING, RESIDUAL_ROW, locked, Col(Type));
  }

  /** Within the six keys the order can matter: setting the type first saves the switch that the other order loses. */
  lemma OrderMattersForSyncKeys(srv: Server)
    ensures var row := RESIDUAL_ROW;
      var typed, named := EditRow(srv, TYPING, row, row, true), EditRow(srv, NAMING, row, row, true);
      && typed.Edited? && named.Edited?
      && var both, swapped := EditRow(srv, NAMING, row, typed.row, true), EditRow(srv, TYPING, row, named.row, true);
      && both.Edited? && swapped.Edited? && SyncOf(both.row).check && !SyncOf(swapped.row).check
  {
    hide EditRow, SettledFor, Decode, ClearForSourceChange, WithoutSyncKeys, SourceChangedBy, MergedCells, Effective,
         ThreeWay, ParseFields, AsksSensitive;
    var row := RESIDUAL_ROW;
    ResidualTexts();
    var typed := Once(srv, TYPING, row);
    var both := Once(srv, NAMING, typed);
    var named := Once(srv, NAMING, row);
    TypeAfter(srv, TYPING, row);
    TypeAfter(srv, NAMING, row);
    var swapped := Once(srv, TYPING, named);
  }

  /** One of the two edits, and what becomes of the settings. */
  lemma Once(srv: Server, q: Request, locked: Row) returns (after: Row)
    requires (q == TYPING && Cell(locked, Type) == Null) || q == NAMING
    requires !locked.info.isMultiKey && ParseFields(SettingsOf(locked)).Some?
    ensures EditRow(srv, q, RESIDUAL_ROW, locked, true) == Edited(after)
    ensures !after.info.isMultiKey
    ensures var raw, kind := SettingsOf(locked), if q == TYPING then 1 else KindOf(Cell(locked, Type));
      SettingsOf(after) ==
      if kind !in SUPPORTED_TYPES then WithoutSyncKeys(raw).value
      else if q == TYPING && ClearForSourceChange(raw).Some? then ClearForSourceChange(raw).value
      else raw
  {
    hide SettledFor, Decode, ClearForSourceChange, WithoutSyncKeys, SourceChangedBy, MergedCells, Effective, ThreeWay,
         ParseFields, AsksSensitive, NeedsPermission, FullCells, FullEffect, WrittenCells;
    OrdinarySucceedsIff(srv, q, RESIDUAL_ROW, locked, true);
    after := EditRow(srv, q, RESIDUAL_ROW, locked, true).row;
    EditedSettings(srv, q, RESIDUAL_ROW, locked, true);
    OrdinarySettled(q, RESIDUAL_ROW, locked);
    SourceOfTypeAndName(locked);
    TypingChanges(locked);
  }

  lemma TypeAfter(srv: Server, q: Request, locked: Row)
    requires (q == TYPING || q == NAMING) && EditRow(srv, q, RESIDUAL_ROW, locked, true).Edited?
    ensures Cell(EditRow(srv, q, RESIDUAL_ROW, locked, true).row, Type) ==
      if q == TYPING then Num(1) else Cell(locked, Type)
  {
    hide EditRow, ThreeWay;
    EditIsThreeWayMerge(srv, q, RESIDUAL_ROW, locked, true, Type);
    TypingChanges(locked);
  }

  lemma ResidualTexts()
    ensures var raw := SettingsOf(RESIDUAL_ROW);
      && ParseFields(raw).Some? && WithoutSyncKeys(raw).Some? && ClearForSourceChange(raw).Some?
      && var bare, cleared := WithoutSyncKeys(raw).value, ClearForSourceChange(raw).value;
      && ParseFields(bare).Some? && ParseFields(cleared).Some?
      && !Decode(bare).check && ClearForSourceChange(bare).None? && Decode(cleared).check
  {
    assert CheckEnabled in SYNC_KEYS && CheckEnabled in RESIDUAL;
    assert WithoutSyncKeys(SettingsOf(RESIDUAL_ROW)).value == Marshal(RESIDUAL - SYNC_KEYS);
  }
}
