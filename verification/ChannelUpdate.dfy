/** The edit as controller/channel.go carries it out, on a patch object that each stage changes in place. */
module ChannelUpdate {
  import opened Wrappers
  import opened Text
  import opened ModelNames
  import opened ChannelSettings
  import opened ChannelRow
  import opened ChannelKeys
  import opened UpstreamSync
  import opened ChannelEdit

  /** A decoded patch has a value for every column, sent or not. */
  ghost predicate Complete(cells: map<Column, Value>) {
    forall c: Column :: c in cells
  }

  /** Keys that are not stored yet, trimmed, each once. */
  method DedupeKeys(existing: seq<string>, submitted: seq<string>) returns (deduped: seq<string>)
    ensures deduped == Subtract(submitted, existing)
  {
    var seen: set<string> := {};
    for i := 0 to |existing|
      invariant forall x :: x in seen <==> x in TrimAll(existing[..i])
    {
      assert existing[..i + 1][..i] == existing[..i];
      var key := Trim(existing[i]);
      if key != "" {
        seen := seen + {key};
      }
    }
    assert existing[..|existing|] == existing;
    deduped := [];
    for i := 0 to |submitted|
      invariant deduped == Subtract(submitted[..i], existing)
      invariant forall x :: x in seen <==> x in Normalize(existing) || x in deduped
    {
      DedupeStep(existing, submitted, i);
      var key := Trim(submitted[i]);
      if key != "" && key !in seen {
        seen := seen + {key};
        deduped := deduped + [key];
      }
    }
    assert submitted[..|submitted|] == submitted;
  }

  lemma DedupeStep(existing: seq<string>, submitted: seq<string>, i: nat)
    requires i < |submitted|
    ensures var key, before := Trim(submitted[i]), Subtract(submitted[..i], existing);
      Subtract(submitted[..i + 1], existing) ==
      before + if key == "" || key in Normalize(existing) || key in before then [] else [key]
  {
    var key := Trim(submitted[i]);
    var front, all := submitted[..i], submitted[..i + 1];
    assert all[..i] == front && all[i] == submitted[i];
    if key != "" {
      assert TrimAll(all) == TrimAll(front) + [key];
      assert TrimAll(all)[..|TrimAll(front)|] == TrimAll(front);
      if key !in Normalize(front) {
        assert Normalize(all) == Normalize(front) + [key];
        FilterConcat(Normalize(front), [key], x => x !in Normalize(existing));
      }
    }
  }

  /** What using the locked value amounts to for one column. */
  lemma ColumnMerged(q: Request, stale: Row, locked: Row, c: Column)
    ensures var noop := Same(c, At(q.cells, c), Cell(stale, c)) && !Same(c, Cell(locked, c), Cell(stale, c));
      && (InEffect(q, stale, locked, Col(c)) <==> Col(c) in q.fields && !noop)
      && MergedCell(q, stale, locked, c) == if Col(c) !in q.fields || noop then Cell(locked, c) else At(q.cells, c)
  {
  }

  lemma OtherFieldsStay(q: Request, stale: Row, locked: Row)
    ensures forall f :: f in q.fields && !f.Col? ==> InEffect(q, stale, locked, f)
    ensures forall f :: InEffect(q, stale, locked, f) ==> f in q.fields
  {
  }

  class Patch {
    var cells: map<Column, Value>
    var info: Info
    const keyMode: Option<string>
    const multiKeyMode: Option<string>

    constructor (q: Request, i: Info)
      requires Complete(q.cells)
      ensures cells == q.cells && info == i && keyMode == q.keyMode && multiKeyMode == q.multiKeyMode
    {
      cells, info, keyMode, multiKeyMode := q.cells, i, q.keyMode, q.multiKeyMode;
    }

    ghost predicate Holds(q: Request)
      reads this
    {
      cells == q.cells && Complete(cells) && keyMode == q.keyMode && multiKeyMode == q.multiKeyMode
    }

    /** useLockedChannelFieldForStaleNoop for one column. */
    method UseLocked(eff: set<Field>, c: Column, stale: Row, locked: Row) returns (left: set<Field>)
      modifies this`cells
      ensures var noop := Same(c, At(old(cells), c), Cell(stale, c)) && !Same(c, Cell(locked, c), Cell(stale, c));
        && left == (if noop then eff - {Col(c)} else eff)
        && cells == if Col(c) !in eff || noop then old(cells)[c := Cell(locked, c)] else old(cells)
    {
      left := eff;
      if Col(c) !in eff {
        cells := cells[c := Cell(locked, c)];
      } else if Same(c, At(cells, c), Cell(stale, c)) && !Same(c, Cell(locked, c), Cell(stale, c)) {
        left := eff - {Col(c)};
        cells := cells[c := Cell(locked, c)];
      }
    }

    /** mergeLockedChannelStateForUpdate, column after column. */
    method MergeLocked(q: Request, stale: Row, locked: Row) returns (eff: set<Field>)
      requires Holds(q)
      modifies this
      ensures eff == Effective(q, stale, locked)
      ensures cells == MergedCells(q, stale, locked)
      ensures info == ModeInfo(locked.info, q.multiKeyMode)
    {
      hide InEffect, MergedCell;
      eff := q.fields;
      info := locked.info;
      for i := 0 to |ALL_COLUMNS|
        invariant forall c :: c in cells
        invariant forall c ::
                    At(cells, c) ==
                    if c in ALL_COLUMNS[..i] then MergedCell(q, stale, locked, c) else At(q.cells, c)
        invariant forall f :: f in eff <==>
                  f in q.fields && (f.Col? && f.column in ALL_COLUMNS[..i] ==> InEffect(q, stale, locked, f))
        invariant info == locked.info
      {
        var c := ALL_COLUMNS[i];
        ColumnsDistinct(i);
        assert ALL_COLUMNS[..i + 1] == ALL_COLUMNS[..i] + [c];
        assert At(cells, c) == At(q.cells, c) && (Col(c) in eff <==> Col(c) in q.fields);
        ColumnMerged(q, stale, locked, c);
        eff := UseLocked(eff, c, stale, locked);
      }
      forall c: Column ensures c in ALL_COLUMNS[..|ALL_COLUMNS|] && c in ALL_COLUMNS {
        AllColumnsListed(c);
      }
      OtherFieldsStay(q, stale, locked);
      assert cells == MergedCells(q, stale, locked);
      assert eff == Effective(q, stale, locked);
      if multiKeyMode.Some? && multiKeyMode.value != "" {
        info := info.(mode := multiKeyMode.value);
      }
    }

    /** Reconcile the settings text with the locked row; fails if it has to be cleaned and is no JSON. */
    method Reconcile(eff: set<Field>, locked: Row) returns (ok: bool, full: set<Field>)
      modifies this`cells
      ensures var settled := Settle(old(cells), info, locked, multiKeyMode, eff);
        && ok == settled.Settled?
        && (ok ==> cells == old(cells)[Settings := settled.value])
        && (ok ==> full == if settled.written then eff + {Col(Settings)} else eff)
    {
      hide MergeRuntime, ClearForSourceChange, SourceChangedBy, Supports, RawOf, ContainsSyncKeys;
      ok, full := true, eff;
      var asked := Col(Settings) in eff;
      var supported := Supports(KindOf(At(cells, Type)), info);
      var changed := supported && SourceChangedBy(cells, locked, multiKeyMode, eff);
      var value := At(cells, Settings);
      if !supported {
        var toClean := if asked then RawOf(value) else SettingsOf(locked);
        var cleaned := WithoutSyncKeys(toClean);
        if cleaned.None? {
          if asked {
            return false, eff;
          }
        } else if ContainsSyncKeys(toClean) {
          value := Config(cleaned.value);
          full := eff + {Col(Settings)};
        }
      } else if asked {
        value := Config(MergeRuntime(RawOf(value), SettingsOf(locked), changed));
      } else if changed {
        var cleared := ClearForSourceChange(SettingsOf(locked));
        if cleared.Some? {
          value := Config(cleared.value);
          full := eff + {Col(Settings)};
        }
      }
      cells := cells[Settings := value];
      assert asked ==> eff + {Col(Settings)} == eff;
    }

    /** applyPatchChannelMultiKeyUpdate */
    method ApplyKeyMode(srv: Server, q: Request, locked: Row) returns (error: Option<EditError>)
      requires keyMode == q.keyMode && multiKeyMode == q.multiKeyMode && info == ModeInfo(locked.info, multiKeyMode)
      modifies this
      ensures ModeRejected(multiKeyMode) ==> error == Some(ModeInvalid)
      ensures !ModeRejected(multiKeyMode) ==>
        if KeyedCells(srv, q, old(cells), locked).None? then error == Some(KeysInvalid)
        else error == None && cells == KeyedCells(srv, q, old(cells), locked).value &&
             info == KeyedInfo(q, old(cells), locked)
    {
      hide KeyList, SubmittedKeys, Subtract;
      if multiKeyMode.Some? && multiKeyMode.value != "" {
        var mode := Trim(multiKeyMode.value);
        if mode != "random" && mode != "polling" {
          return Some(ModeInvalid);
        }
        info := info.(mode := mode);
      }
      if keyMode.None? || !info.isMultiKey {
        return None;
      }
      if keyMode.value == "append" {
        if TextOf(Cell(locked, Key)) == "" {
          return None;
        }
        var submitted := SubmittedKeys(srv.env, cells);
        if submitted.None? {
          return Some(KeysInvalid);
        }
        var existing := KeyList(srv.env, TextOf(Cell(locked, Key)));
        var deduped := DedupeKeys(existing, submitted.value);
        cells := cells[Key := Str(Join(existing + deduped, '\n'))];
      } else if keyMode.value == "replace" {
        if Trim(TextOf(At(cells, Key))) == "" {
          return None;
        }
        info := info.(statusList := map[]);
        if srv.note.Some? {
          cells := cells[OtherInfo := srv.note.value];
        }
      }
      return None;
    }

    /** channelUpdateColumns: the columns the fields in effect name. */
    method UpdateColumns(eff: set<Field>) returns (updates: map<Column, Value>)
      ensures forall c :: c in updates <==> Col(c) in eff
      ensures forall c :: c in updates ==> updates[c] == At(cells, c)
    {
      updates := map[];
      var left := eff;
      while left != {}
        invariant left <= eff
        invariant forall c :: c in updates <==> Col(c) in eff && Col(c) !in left
        invariant forall c :: c in updates ==> updates[c] == At(cells, c)
        decreases |left|
      {
        var f :| f in left;
        left := left - {f};
        if f.Col? {
          updates := updates[f.column := At(cells, f.column)];
        }
      }
    }

    /** UpdateColumnsWithTx: normalized lists, recounted keys, and exactly the given columns. */
    method WriteColumns(table: Table, srv: Server, updates: map<Column, Value>)
      requires forall c :: c in updates ==> updates[c] == At(cells, c)
      modifies this, table
      ensures table.row == Row(old(table.row).id, srv.status,
                               PreparedInfo(srv.env, old(info), old(cells), old(table.row)),
                               map c | c in ALL_COLUMNS ::
                                 if c in updates then Prepared(c, updates[c]) else Cell(old(table.row), c))
    {
      hide KeyList, GetModels;
      var locked := table.row;
      if info.isMultiKey {
        var n := KeyCount(srv.env, cells, locked);
        info := info.(size := n, statusList := map i | i in info.statusList && i < n :: info.statusList[i]);
      }
      table.row := Row(locked.id, srv.status, info,
                       map c | c in ALL_COLUMNS :: if c in updates then Prepared(c, updates[c]) else Cell(locked, c));
    }

    /** Write what is in effect, and a note on the status even if no field asked for it. */
    method Store(table: Table, srv: Server, full: set<Field>)
      modifies this, table
      ensures var locked := old(table.row);
        table.row == Row(locked.id, srv.status, PreparedInfo(srv.env, old(info), old(cells), locked),
                         WrittenCells(old(cells), locked, full))
    {
      hide KeyList, GetModels, PreparedInfo;
      var locked := table.row;
      var updates := UpdateColumns(full);
      if At(cells, OtherInfo) != Cell(locked, OtherInfo) {
        updates := updates[OtherInfo := At(cells, OtherInfo)];
      }
      ghost var patched := cells;
      WriteColumns(table, srv, updates);
      assert table.row.cells == WrittenCells(patched, locked, full);
    }

    /** updateChannelColumnsWithLockedState: the edit, or nothing. */
    method Update(table: Table, srv: Server, q: Request, stale: Row, can: bool) returns (r: Edit)
      requires Holds(q)
      modifies this, table
      ensures r == EditRow(srv, q, stale, old(table.row), can)
      ensures table.row == if r.Edited? then r.row else old(table.row)
    {
      hide Settle, MergedCells, Effective, HasSensitiveChanges, KeyedCells, KeyedInfo, PreparedInfo, WrittenCells,
           ModeInfo, SameSourceSettings, ModeRejected;
      var locked := table.row;
      var eff := MergeLocked(q, stale, locked);
      var asked := Col(Settings) in eff;
      var sent := RawOf(At(cells, Settings));
      var ok, full := Reconcile(eff, locked);
      if !ok {
        return Rejected(SettingsInvalid);
      }
      var fields := full;
      if !asked || SameSourceSettings(SettingsOf(locked), sent) {
        fields := full - {Col(Settings)};
      }
      if HasSensitiveChanges(cells, info, keyMode, locked, fields) && !can {
        return Rejected(PermissionDenied);
      }
      var error := ApplyKeyMode(srv, q, locked);
      if error.Some? {
        return Rejected(error.value);
      }
      Store(table, srv, full);
      r := Edited(table.row);
    }
  }

  lemma ColumnsDistinct(i: nat)
    requires i < |ALL_COLUMNS|
    ensures ALL_COLUMNS[i] !in ALL_COLUMNS[..i]
  {
  }
}
