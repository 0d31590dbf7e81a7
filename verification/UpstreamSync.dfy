/**
 Upstream model synchronisation (controller/channel_upstream_update.go): detecting which models the upstream
 gained or lost, adding them at once when automatic synchronisation is on, and applying what an
 operator selected. Detection locks the row, unlocks it to ask the upstream, and locks it again.
 */
module UpstreamSync {
  import opened Wrappers
  import opened Text
  import opened ModelNames
  import opened ChannelSettings
  import opened ChannelRow

  datatype Options = Options(force: bool, allowAuto: bool, requireEnabled: bool, now: int, minInterval: int)

  datatype Error = SourceChanged | StateChanged | CheckNotEnabled | FetchFailed | Cancelled | SettingsNotJson

  /** What the upstream answered; any list, or a failure. */
  datatype Fetched = Fetched(models: seq<string>) | NoAnswer

  datatype Outcome = Persisted(modelsChanged: bool, autoAdded: seq<string>) | LeftAlone | Failed(error: Error)

  // ---------------------------------------------------------------- atomic steps on a row

  function PutSettings(row: Row, raw: Raw): Row {
    With(row, Settings, Config(raw))
  }

  predicate ContainsSyncKeys(raw: Raw) {
    ParseFields(raw).Some? && HasSyncKeys(ParseFields(raw).value)
  }

  predicate HasResidue(row: Row) {
    SyncOf(row) != NO_SYNC || ContainsSyncKeys(SettingsOf(row))
  }

  /** An unsupported channel loses its synchronisation settings. */
  function CleanedRow(row: Row): Row {
    if HasResidue(row) && Persist(SettingsOf(row), NO_SYNC).Some?
    then PutSettings(row, Persist(SettingsOf(row), NO_SYNC).value)
    else row
  }

  function AddsFor(env: Env, row: Row, upstream: seq<string>): seq<string> {
    PendingAdds(env.matches, ModelsOf(row), upstream, SyncOf(row).ignored, MappingOf(env, row))
  }

  function RemovesFor(env: Env, row: Row, upstream: seq<string>): seq<string> {
    PendingRemoves(env.matches, ModelsOf(row), upstream, SyncOf(row).ignored, MappingOf(env, row))
  }

  predicate AutoAdds(env: Env, row: Row, upstream: seq<string>, allowAuto: bool) {
    allowAuto && SyncOf(row).auto && |AddsFor(env, row, upstream)| > 0
  }

  function AutoAdded(env: Env, row: Row, upstream: seq<string>): seq<string> {
    Subtract(AddsFor(env, row, upstream), Normalize(ModelsOf(row)))
  }

  /** The models an automatic addition stores, if that makes the list longer. */
  function AutoMerged(env: Env, row: Row, upstream: seq<string>): Option<seq<string>> {
    var origin := Normalize(ModelsOf(row));
    var merged := Merge(origin, AutoAdded(env, row, upstream));
    if |merged| > |origin| then Some(merged) else None
  }

  function DetectedSync(env: Env, row: Row, upstream: seq<string>, allowAuto: bool, now: int): Sync {
    SyncOf(row).(lastCheck := now,
                 detected := if AutoAdds(env, row, upstream, allowAuto) then [] else AddsFor(env, row, upstream),
                 removed := RemovesFor(env, row, upstream))
  }

  /** One atomic detection against the list `upstream`. */
  function DetectRow(env: Env, row: Row, upstream: seq<string>, allowAuto: bool, now: int): Row {
    var merged := AutoMerged(env, row, upstream);
    var changed := AutoAdds(env, row, upstream, allowAuto) && merged.Some?;
    var row1 := if changed then With(row, Models, Str(Join(merged.value, ','))) else row;
    var raw := Persist(SettingsOf(row), DetectedSync(env, row, upstream, allowAuto, now));
    if raw.None? then row else PutSettings(row1, raw.value)
  }

  predicate TooSoon(o: Options, s: Sync) {
    !o.force && s.lastCheck > 0 && o.now - s.lastCheck < o.minInterval
  }

  predicate SameRuntimeState(a: Sync, b: Sync) {
    && a.lastCheck == b.lastCheck
    && Normalize(a.detected) == Normalize(b.detected)
    && Normalize(a.removed) == Normalize(b.removed)
  }

  /** May detection still go on with the row as it is, given the row it was started on? */
  predicate StillDue(env: Env, seen: Row, row: Row, o: Options) {
    && (o.requireEnabled ==> row.status == ENABLED_STATUS)
    && RowSupports(row) && SameSource(env, seen, row)
    && SyncOf(row).check && !TooSoon(o, SyncOf(row))
  }

  lemma CleanedRowLaws(row: Row)
    ensures HasResidue(row) ==> Persist(SettingsOf(row), NO_SYNC).Some?
    ensures SyncOf(CleanedRow(row)) == NO_SYNC
    ensures forall c :: c != Settings ==> Cell(CleanedRow(row), c) == Cell(row, c)
    ensures SameWithoutSyncKeys(SettingsOf(CleanedRow(row)), SettingsOf(row))
    ensures !ContainsSyncKeys(SettingsOf(CleanedRow(row)))
    ensures SyncOf(row) == NO_SYNC && !ContainsSyncKeys(SettingsOf(row)) ==> CleanedRow(row) == row
  {
    PersistRoundTrip(SettingsOf(row), NO_SYNC);
    assert Stored(NO_SYNC) == NO_SYNC;
  }

  /** The error a second phase that fails reports: of several reasons the first in this order. */
  function Refusal(env: Env, seen: Row, settings: Sync, row: Row, fetched: Fetched, cancelled: bool): Error {
    if cancelled then Cancelled
    else if !SameSource(env, seen, row) then SourceChanged
    else if !SyncOf(row).check then CheckNotEnabled
    else if fetched.NoAnswer? then FetchFailed
    else StateChanged
  }

  // ---------------------------------------------------------------- detection in two locked phases

  /** The channel's row; whoever holds its lock may change it. */
  class Table {
    var row: Row

    constructor (r: Row)
      ensures row == r
    {
      row := r;
    }
  }

  /** What a locked phase leaves behind when it does not persist a detection. */
  function Unpersisted(row: Row, o: Options): Row {
    if (o.requireEnabled ==> row.status == ENABLED_STATUS) && !RowSupports(row) then CleanedRow(row) else row
  }

  /** One detection: the copy of the row it works on, and the settings read from it. */
  class Detection {
    var channel: Row
    var settings: Sync

    constructor (row: Row, s: Sync)
      ensures channel == row && settings == s
    {
      channel, settings := row, s;
    }

    method Adopt(row: Row)
      modifies this
      ensures channel == row && settings == SyncOf(row)
    {
      channel, settings := row, SyncOf(row);
    }

    /** Clear the synchronisation settings of an unsupported row, and take it over. */
    method CleanUp(table: Table)
      modifies this, table
      ensures table.row == CleanedRow(old(table.row))
      ensures channel == table.row && settings == SyncOf(table.row)
    {
      CleanedRowLaws(table.row);
      var residual := ContainsSyncKeys(SettingsOf(table.row));
      var changed := SyncOf(table.row) != NO_SYNC;
      if changed || residual {
        var raw := Persist(SettingsOf(table.row), NO_SYNC);
        table.row := PutSettings(table.row, raw.value);
      }
      channel, settings := table.row, NO_SYNC;
    }

    /** First locked phase: goes on to ask the upstream exactly if detection is still due. */
    method Recheck(env: Env, table: Table, o: Options) returns (goOn: bool, r: Outcome)
      modifies this, table
      ensures goOn <==> StillDue(env, old(channel), old(table.row), o)
      ensures table.row == Unpersisted(old(table.row), o)
      ensures goOn ==> table.row == old(table.row) && channel == table.row && settings == SyncOf(table.row)
      ensures !r.Persisted?
    {
      hide CleanedRow, SameSource, Decode;
      if o.requireEnabled && table.row.status != ENABLED_STATUS {
        Adopt(table.row);
        return false, LeftAlone;
      }
      if !RowSupports(table.row) {
        CleanUp(table);
        return false, LeftAlone;
      }
      if !SameSource(env, channel, table.row) {
        return false, Failed(SourceChanged);
      }
      if !SyncOf(table.row).check {
        Adopt(table.row);
        return false, Failed(CheckNotEnabled);
      }
      if TooSoon(o, SyncOf(table.row)) {
        Adopt(table.row);
        return false, LeftAlone;
      }
      Adopt(table.row);
      return true, LeftAlone;
    }

    /** Second locked phase: revalidates the row, and persists the detection on the row as it is now. */
    method Relock(env: Env, table: Table, o: Options, fetched: Fetched, cancelled: bool) returns (r: Outcome)
      modifies this, table
      ensures r.Persisted? <==>
        && !cancelled && fetched.Fetched?
        && StillDue(env, old(channel), old(table.row), o)
        && SameRuntimeState(old(settings), SyncOf(old(table.row)))
      ensures r.Persisted? ==> table.row == DetectRow(env, old(table.row), fetched.models, o.allowAuto, o.now)
      ensures r.Persisted? ==> (
        r.autoAdded ==
        if AutoAdds(env, old(table.row), fetched.models, o.allowAuto)
        then AutoAdded(env, old(table.row), fetched.models) else [])
      ensures !r.Persisted? ==> table.row == if cancelled then old(table.row) else Unpersisted(old(table.row), o)
      ensures r.Persisted? ==> (
        r.modelsChanged <==>
        && AutoAdds(env, old(table.row), fetched.models, o.allowAuto)
        && AutoMerged(env, old(table.row), fetched.models).Some?)
      ensures r.Failed? ==> r.error == Refusal(env, old(channel), old(settings), old(table.row), fetched, cancelled)
    {
      hide CleanedRow, SameSource, Decode, Persist, Normalize, PendingAdds, PendingRemoves, Subtract, Merge, ModelsOf,
           MappingOf;
      var row := table.row;
      if cancelled {
        Adopt(row);
        return Failed(Cancelled);
      }
      if o.requireEnabled && row.status != ENABLED_STATUS {
        Adopt(row);
        return LeftAlone;
      }
      if !RowSupports(row) {
        CleanUp(table);
        return LeftAlone;
      }
      if !SameSource(env, channel, row) {
        return Failed(SourceChanged);
      }
      var locked := SyncOf(row);
      if !locked.check {
        Adopt(row);
        return Failed(CheckNotEnabled);
      }
      if TooSoon(o, locked) {
        Adopt(row);
        return LeftAlone;
      }
      if fetched.NoAnswer? {
        Adopt(row);
        return Failed(FetchFailed);
      }
      if !SameRuntimeState(settings, locked) {
        Adopt(row);
        return Failed(StateChanged);
      }
      CheckedSettingsPersist(row);
      r := PersistDetection(env, table, locked, fetched.models, o);
    }

    method PersistDetection(env: Env, table: Table, locked: Sync, upstream: seq<string>, o: Options)
        returns (r: Outcome)
      requires locked == SyncOf(table.row)
      requires forall s :: Persist(SettingsOf(table.row), s).Some?
      modifies this, table
      ensures r.Persisted?
      ensures table.row == DetectRow(env, old(table.row), upstream, o.allowAuto, o.now)
      ensures r.autoAdded ==
        if AutoAdds(env, old(table.row), upstream, o.allowAuto) then AutoAdded(env, old(table.row), upstream) else []
      ensures r.modelsChanged <==>
        AutoAdds(env, old(table.row), upstream, o.allowAuto) && AutoMerged(env, old(table.row), upstream).Some?
    {
      hide Decode, Persist, Normalize, PendingAdds, PendingRemoves, Subtract, Merge, GetModels, MappingOf;
      var row := table.row;
      var next := locked.(lastCheck := o.now);
      var adds := PendingAdds(env.matches, ModelsOf(row), upstream, locked.ignored, MappingOf(env, row));
      var removes := PendingRemoves(env.matches, ModelsOf(row), upstream, locked.ignored, MappingOf(env, row));
      var modelsChanged, autoAdded := false, [];
      if o.allowAuto && locked.auto && |adds| > 0 {
        var origin := Normalize(ModelsOf(row));
        autoAdded := Subtract(adds, origin);
        var merged := Merge(origin, autoAdded);
        if |merged| > |origin| {
          row := With(row, Models, Str(Join(merged, ',')));
          modelsChanged := true;
        }
        next := next.(detected := []);
      } else {
        next := next.(detected := adds);
      }
      next := next.(removed := removes);
      var raw := Persist(SettingsOf(row), next);
      assert SettingsOf(row) == SettingsOf(table.row);
      table.row := PutSettings(row, raw.value);
      channel, settings := table.row, next;
      r := Persisted(modelsChanged, autoAdded);
    }

    /**
     The whole detection. While the upstream is asked the row is unlocked: `others` is what other writers have
     made of it by the time it is locked again. A detection is persisted exactly if it was due at
     the start, is still due, and neither the source nor the stored state changed in between; and
     then the effect is that of one atomic detection on the row as it is at the end.
     */
    method CheckAndPersist(env: Env, table: Table, o: Options, others: Row, fetched: Fetched, cancelledInFetch: bool,
                           cancelled: bool)
      returns (r: Outcome)
      modifies this, table
      ensures r.Persisted? <==>
        && RowSupports(old(channel)) && old(settings).check && !TooSoon(o, old(settings))
        && StillDue(env, old(channel), old(table.row), o)
        && StillDue(env, old(table.row), others, o)
        && SameRuntimeState(SyncOf(old(table.row)), SyncOf(others))
        && fetched.Fetched? && !cancelledInFetch && !cancelled
      ensures r.Persisted? ==> table.row == DetectRow(env, others, fetched.models, o.allowAuto, o.now)
      ensures !r.Persisted? ==> (
        table.row ==
        if !RowSupports(old(channel))
        then (if RowSupports(old(table.row)) then old(table.row) else CleanedRow(old(table.row)))
        else if !old(settings).check || TooSoon(o, old(settings)) then old(table.row)
        else if !StillDue(env, old(channel), old(table.row), o) then Unpersisted(old(table.row), o)
        else if cancelledInFetch || cancelled then others
        else Unpersisted(others, o))
    {
      hide CleanedRow, SameSource, Decode, DetectRow, StillDue, RowSupports, TooSoon, SameRuntimeState, AutoAdds,
           AutoAdded;
      if !RowSupports(channel) {
        if RowSupports(table.row) {
          Adopt(table.row);
        } else {
          CleanUp(table);
        }
        return LeftAlone;
      }
      if !settings.check {
        return Failed(CheckNotEnabled);
      }
      if TooSoon(o, settings) {
        return LeftAlone;
      }
      var goOn, first := Recheck(env, table, o);
      if !goOn {
        return first;
      }
      table.row := others;
      if cancelledInFetch {
        return Failed(Cancelled);
      }
      r := Relock(env, table, o, fetched, cancelled);
    }
  }

  lemma CheckedSettingsPersist(row: Row)
    requires SyncOf(row).check
    ensures forall s :: Persist(SettingsOf(row), s).Some?
  {
    forall s ensures Persist(SettingsOf(row), s).Some? {
      PersistRoundTrip(SettingsOf(row), s);
    }
  }

  // ---------------------------------------------------------------- what a detection does

  /** Everything a detection changes, said without its steps. */
  lemma DetectionResult(env: Env, row: Row, upstream: seq<string>, allowAuto: bool, now: int)
    requires SyncOf(row).check && now > 0 && CommaFree(Normalize(upstream))
    ensures var after, adds := DetectRow(env, row, upstream, allowAuto, now), AddsFor(env, row, upstream);
      var auto := AutoAdds(env, row, upstream, allowAuto);
      && ModelsOf(after) == ModelsOf(row) + (if auto then adds else [])
      && SyncOf(after) == Sync(true, SyncOf(row).auto, Normalize(SyncOf(row).ignored), now,
                               if auto then [] else adds, RemovesFor(env, row, upstream))
      && SameWithoutSyncKeys(SettingsOf(after), SettingsOf(row))
      && forall c :: c != Models && c != Settings ==> Cell(after, c) == Cell(row, c)
  {
    hide Decode, AddsFor, RemovesFor, GetModels, MappingOf, Normalize, Persist, SameWithoutSyncKeys, AutoMerged,
         CommaFree;
    CheckedSettingsPersist(row);
    NormalizeNothing();
    var s := DetectedSync(env, row, upstream, allowAuto, now);
    PersistRoundTrip(SettingsOf(row), s);
    PendingFacts(env, row, upstream);
    if AutoAdds(env, row, upstream, allowAuto) {
      AutoMergedIsAppended(env, row, upstream);
    }
  }

  lemma NormalizeNothing()
    ensures Normalize([]) == []
  {
  }

  lemma PendingFacts(env: Env, row: Row, upstream: seq<string>)
    ensures Normalize(AddsFor(env, row, upstream)) == AddsFor(env, row, upstream)
    ensures Normalize(RemovesFor(env, row, upstream)) == RemovesFor(env, row, upstream)
    ensures Normalize(ModelsOf(row)) == ModelsOf(row) && CommaFree(ModelsOf(row))
    ensures CommaFree(Normalize(upstream)) ==> CommaFree(AddsFor(env, row, upstream))
    ensures forall x :: x in AddsFor(env, row, upstream) ==> x !in ModelsOf(row)
    ensures forall x :: x in RemovesFor(env, row, upstream) ==> x in ModelsOf(row)
  {
    PendingLaws(env.matches, ModelsOf(row), upstream, SyncOf(row).ignored, MappingOf(env, row));
    NormalizeFixed(AddsFor(env, row, upstream));
    NormalizeFixed(RemovesFor(env, row, upstream));
    GetModelsLaws(TextOf(Cell(row, Models)));
    NormalizeFixed(ModelsOf(row));
  }

  lemma AutoMergedIsAppended(env: Env, row: Row, upstream: seq<string>)
    requires CommaFree(Normalize(upstream)) && |AddsFor(env, row, upstream)| > 0
    ensures var merged := AutoMerged(env, row, upstream);
      merged.Some? && GetModels(Join(merged.value, ',')) == ModelsOf(row) + AddsFor(env, row, upstream)
  {
    hide GetModels, PendingAdds, Normalize, Subtract, Merge, MappingOf, Decode, Normal;
    PendingFacts(env, row, upstream);
    var local, adds := ModelsOf(row), AddsFor(env, row, upstream);
    NormalizeFixed(local);
    NormalizeFixed(adds);
    MergeOfNew(local, adds);
    StoredModels(local + adds);
  }
}
