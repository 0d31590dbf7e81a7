/**
 Applying selected upstream changes (controller/channel_upstream_update.go): an operator adds, ignores or
 removes some of the pending names. Nothing pending is lost or invented, repeating a request does
 nothing, and applying everything that was detected leaves nothing to detect.
 */
module UpstreamApply {
  import opened Text
  import opened ModelNames
  import opened ChannelSettings
  import opened ChannelRow
  import opened UpstreamSync

  datatype Selection = Selection(adds: seq<string>, ignores: seq<string>, removes: seq<string>)

  function PendingAdded(row: Row): seq<string> {
    Normalize(SyncOf(row).detected)
  }

  function PendingRemoved(row: Row): seq<string> {
    Normalize(SyncOf(row).removed)
  }

  function Adds(row: Row, sel: Selection): seq<string> {
    Intersect(sel.adds, PendingAdded(row))
  }

  function Ignores(row: Row, sel: Selection): seq<string> {
    Intersect(sel.ignores, PendingAdded(row))
  }

  function Removes(row: Row, sel: Selection): seq<string> {
    Subtract(Intersect(sel.removes, PendingRemoved(row)), Adds(row, sel))
  }

  function NextModels(row: Row, sel: Selection): seq<string> {
    ApplySelected(Normalize(ModelsOf(row)), Adds(row, sel), Removes(row, sel))
  }

  function NextIgnored(row: Row, sel: Selection): seq<string> {
    var merged := Merge(SyncOf(row).ignored, Ignores(row, sel));
    if |Adds(row, sel)| > 0 then Subtract(merged, Adds(row, sel)) else merged
  }

  function AppliedSync(row: Row, sel: Selection, now: int): Sync {
    SyncOf(row).(ignored := NextIgnored(row, sel),
                 detected := Subtract(PendingAdded(row), Adds(row, sel) + Ignores(row, sel)),
                 removed := Subtract(PendingRemoved(row), Removes(row, sel)),
                 lastCheck := now)
  }

  /** applyChannelUpstreamModelUpdatesWithTx on the locked row. */
  function ApplyRow(row: Row, sel: Selection, now: int): Row {
    var raw := Persist(SettingsOf(row), AppliedSync(row, sel, now));
    var changed := Normalize(ModelsOf(row)) != NextModels(row, sel);
    if raw.None? then row
    else PutSettings(if changed then With(row, Models, Str(Join(NextModels(row, sel), ','))) else row, raw.value)
  }

  /** What a selection does, each list in its order. */
  datatype Applied = Applied(added: seq<string>, removed: seq<string>, ignored: seq<string>, remaining: seq<string>,
                             remainingRemoves: seq<string>)
                   | NotApplied
                   | Refused(error: Error)

  /** Apply under the row's lock. */
  method ApplySelection(table: Table, sel: Selection, requireEnabled: bool, now: int) returns (r: Applied)
    modifies table
    ensures r.Applied? <==>
            && (requireEnabled ==> old(table.row).status == ENABLED_STATUS)
            && RowSupports(old(table.row)) && SyncOf(old(table.row)).check
    ensures r.Applied? ==>
      && table.row == ApplyRow(old(table.row), sel, now)
      && r.added == Adds(old(table.row), sel) && r.ignored == Ignores(old(table.row), sel) &&
         r.removed == Removes(old(table.row), sel)
      && r.remaining == AppliedSync(old(table.row), sel, now).detected
      && r.remainingRemoves == AppliedSync(old(table.row), sel, now).removed
    ensures !r.Applied? ==> (
      table.row ==
      if (requireEnabled ==> old(table.row).status == ENABLED_STATUS) && !RowSupports(old(table.row))
      then CleanedRow(old(table.row))
      else old(table.row))
  {
    hide Decode, Persist, Normalize, Subtract, Intersect, Merge, ApplySelected, GetModels, CleanedRow, RowSupports;
    var row := table.row;
    if requireEnabled && row.status != ENABLED_STATUS {
      return NotApplied;
    }
    if !RowSupports(row) {
      var cleaner := new Detection(row, SyncOf(row));
      cleaner.CleanUp(table);
      return NotApplied;
    }
    var settings := SyncOf(row);
    if !settings.check {
      return Refused(CheckNotEnabled);
    }
    CheckedSettingsPersist(row);
    var pendingAdds, pendingRemoves := Normalize(settings.detected), Normalize(settings.removed);
    var adds := Intersect(sel.adds, pendingAdds);
    var ignores := Intersect(sel.ignores, pendingAdds);
    var removes := Subtract(Intersect(sel.removes, pendingRemoves), adds);
    var origin := Normalize(ModelsOf(row));
    var next := ApplySelected(origin, adds, removes);
    var changed := origin != next;
    if changed {
      row := With(row, Models, Str(Join(next, ',')));
    }
    settings := settings.(ignored := Merge(settings.ignored, ignores));
    if |adds| > 0 {
      settings := settings.(ignored := Subtract(settings.ignored, adds));
    }
    var remaining := Subtract(pendingAdds, adds + ignores);
    var remainingRemoves := Subtract(pendingRemoves, removes);
    settings := settings.(detected := remaining, removed := remainingRemoves, lastCheck := now);
    var raw := Persist(SettingsOf(row), settings);
    assert SettingsOf(row) == SettingsOf(table.row);
    table.row := PutSettings(row, raw.value);
    r := Applied(adds, removes, ignores, remaining, remainingRemoves);
  }

  // ---------------------------------------------------------------- the row after applying

  /** Pending names stay outside the model list and are comma-free; names to remove are in the list. */
  predicate PendingFits(row: Row) {
    && (forall x :: x in PendingAdded(row) ==> x !in ModelsOf(row) && ',' !in x)
    && (forall x :: x in PendingRemoved(row) ==> x in ModelsOf(row))
  }

  lemma SelectionLaws(row: Row, sel: Selection)
    ensures Normal(Adds(row, sel)) && Normal(Ignores(row, sel)) && Normal(Removes(row, sel))
    ensures forall x :: x in Adds(row, sel) <==> x in Normalize(sel.adds) && x in PendingAdded(row)
    ensures forall x :: x in Ignores(row, sel) <==> x in Normalize(sel.ignores) && x in PendingAdded(row)
    ensures forall x :: x in Removes(row, sel) <==>
            x in Normalize(sel.removes) && x in PendingRemoved(row) && x !in Adds(row, sel)
  {
    hide Normalize, Intersect, Subtract;
    var p, q := PendingAdded(row), PendingRemoved(row);
    NormalizeFixed(p);
    NormalizeFixed(q);
    IntersectLaws(sel.adds, p);
    IntersectLaws(sel.ignores, p);
    IntersectLaws(sel.removes, q);
    NormalizeFixed(Intersect(sel.removes, q));
    NormalizeFixed(Adds(row, sel));
    SubtractLaws(Intersect(sel.removes, q), Adds(row, sel));
    NormalOf(row);
  }

  lemma NormalOf(row: Row)
    ensures Normal(PendingAdded(row)) && Normal(PendingRemoved(row)) && Normal(ModelsOf(row)) &&
            CommaFree(ModelsOf(row))
    ensures Normalize(PendingAdded(row)) == PendingAdded(row) && Normalize(PendingRemoved(row)) == PendingRemoved(row)
    ensures Normalize(ModelsOf(row)) == ModelsOf(row)
  {
    GetModelsLaws(TextOf(Cell(row, Models)));
    NormalizeFixed(PendingAdded(row));
    NormalizeFixed(PendingRemoved(row));
    NormalizeFixed(ModelsOf(row));
  }

  lemma NextModelsLaw(row: Row, sel: Selection)
    ensures NextModels(row, sel) ==
      Filter(ModelsOf(row), x => x !in Removes(row, sel)) + Filter(Adds(row, sel), x => x !in ModelsOf(row))
    ensures Normal(NextModels(row, sel))
    ensures CommaFree(Adds(row, sel)) ==> CommaFree(NextModels(row, sel))
  {
    hide Adds, Removes, Ignores, ModelsOf, ApplySelected;
    NormalOf(row);
    SelectionLaws(row, sel);
    var origin, adds, removes := ModelsOf(row), Adds(row, sel), Removes(row, sel);
    ApplySelectedLaw(origin, adds, removes);
    FilterAgree(origin, x => x !in removes || x in adds, x => x !in removes);
  }

  lemma NextIgnoredLaw(row: Row, sel: Selection)
    ensures Normal(NextIgnored(row, sel))
    ensures forall x :: x in NextIgnored(row, sel) <==>
      (x in Normalize(SyncOf(row).ignored) || x in Ignores(row, sel)) && x !in Adds(row, sel)
  {
    hide Adds, Removes, Ignores, Decode, Merge, Subtract, Normalize, Normal;
    SelectionLaws(row, sel);
    var merged := Merge(SyncOf(row).ignored, Ignores(row, sel));
    MergeLaws(SyncOf(row).ignored, Ignores(row, sel));
    NormalizeFixed(Ignores(row, sel));
    NormalizeFixed(Adds(row, sel));
    NormalizeFixed(merged);
    SubtractLaws(merged, Adds(row, sel));
  }

  lemma RemainingLaw(row: Row, sel: Selection, now: int)
    ensures var s := AppliedSync(row, sel, now);
      && Normal(s.detected) && Normal(s.removed)
      && (forall x :: x in s.detected <==> x in PendingAdded(row) && x !in Adds(row, sel) && x !in Ignores(row, sel))
      && (forall x :: x in s.removed <==> x in PendingRemoved(row) && x !in Removes(row, sel))
  {
    hide Adds, Removes, Ignores, Decode, Subtract, Normalize, NextIgnored, IsName;
    NormalOf(row);
    SelectionLaws(row, sel);
    var taken := Adds(row, sel) + Ignores(row, sel);
    NamesKept(taken);
    NormalizeFixed(Removes(row, sel));
    SubtractLaws(PendingAdded(row), taken);
    SubtractLaws(PendingRemoved(row), Removes(row, sel));
  }

  /** A list of names keeps its members when normalized. */
  lemma NamesKept(xs: seq<string>)
    requires forall x :: x in xs ==> IsName(x)
    ensures forall x :: x in Normalize(xs) <==> x in xs
  {
    TrimAllOfNames(xs);
  }

  /** Everything an application changes, said without its steps. */
  lemma ApplyResult(row: Row, sel: Selection, now: int)
    requires SyncOf(row).check && now > 0 && CommaFree(Adds(row, sel))
    ensures var after := ApplyRow(row, sel, now);
      && ModelsOf(after) == NextModels(row, sel)
      && SyncOf(after) == AppliedSync(row, sel, now)
      && SameWithoutSyncKeys(SettingsOf(after), SettingsOf(row))
      && forall c :: c != Models && c != Settings ==> Cell(after, c) == Cell(row, c)
  {
    hide Adds, Removes, Ignores, Decode, Persist, GetModels, Normalize, NextIgnored, NextModels, SameWithoutSyncKeys,
         Normal, Subtract;
    CheckedSettingsPersist(row);
    var s := AppliedSync(row, sel, now);
    PersistRoundTrip(SettingsOf(row), s);
    NextIgnoredLaw(row, sel);
    RemainingLaw(row, sel, now);
    NormalizeFixed(s.ignored);
    NormalizeFixed(s.detected);
    NormalizeFixed(s.removed);
    assert Stored(s) == s;
    NextModelsLaw(row, sel);
    NormalOf(row);
    StoredModels(NextModels(row, sel));
  }

  // ---------------------------------------------------------------- nothing pending is lost

  /** Both pending lists split without overlap, and the model and ignored lists change by exactly what was taken. */
  lemma ApplyConserves(row: Row, sel: Selection, now: int)
    requires SyncOf(row).check && now > 0 && CommaFree(Adds(row, sel))
    ensures var after := ApplyRow(row, sel, now);
      && (forall x :: x in PendingAdded(row) <==>
          x in PendingAdded(after) || x in Adds(row, sel) || x in Ignores(row, sel))
      && (forall x :: x in PendingAdded(after) ==> x !in Adds(row, sel) && x !in Ignores(row, sel))
      && (forall x :: x in PendingRemoved(row) <==> x in PendingRemoved(after) || x in Removes(row, sel))
      && (forall x :: x in PendingRemoved(after) ==> x !in Removes(row, sel))
      && ModelsOf(after) ==
           Filter(ModelsOf(row), x => x !in Removes(row, sel)) + Filter(Adds(row, sel), x => x !in ModelsOf(row))
      && NoDuplicates(ModelsOf(after))
      && (forall x :: x in SyncOf(after).ignored <==>
            (x in Normalize(SyncOf(row).ignored) || x in Ignores(row, sel)) && x !in Adds(row, sel))
      && SyncOf(after).lastCheck == now && SyncOf(after).check && SyncOf(after).auto == SyncOf(row).auto
  {
    hide Adds, Removes, Ignores, ModelsOf, SyncOf, ApplyRow, AppliedSync, NextModels, NextIgnored, Normalize;
    AfterLists(row, sel, now);
    NextModelsLaw(row, sel);
    NextIgnoredLaw(row, sel);
    SelectionLaws(row, sel);
    RemainingLaw(row, sel, now);
  }

  lemma AfterLists(row: Row, sel: Selection, now: int)
    requires SyncOf(row).check && now > 0 && CommaFree(Adds(row, sel))
    ensures var after := ApplyRow(row, sel, now);
      && ModelsOf(after) == NextModels(row, sel)
      && SyncOf(after).ignored == NextIgnored(row, sel)
      && PendingAdded(after) == AppliedSync(row, sel, now).detected
      && PendingRemoved(after) == AppliedSync(row, sel, now).removed
      && SyncOf(after).lastCheck == now && SyncOf(after).check && SyncOf(after).auto == SyncOf(row).auto
  {
    hide Adds, Removes, Ignores, ModelsOf, SyncOf, ApplyRow, NextModels, NextIgnored, Normalize, Subtract;
    ApplyResult(row, sel, now);
    RemainingLaw(row, sel, now);
    NormalizeFixed(AppliedSync(row, sel, now).detected);
    NormalizeFixed(AppliedSync(row, sel, now).removed);
  }

  // ---------------------------------------------------------------- repeating a request

  /** A name asked to be both added and removed, and pending in both lists. */
  predicate Clashes(row: Row, sel: Selection, x: string) {
    x in Adds(row, sel) && x in Normalize(sel.removes) && x in PendingRemoved(row)
  }

  predicate SameLists(a: Row, b: Row) {
    && ModelsOf(a) == ModelsOf(b) && SyncOf(a).ignored == SyncOf(b).ignored
    && PendingAdded(a) == PendingAdded(b) && PendingRemoved(a) == PendingRemoved(b)
  }

  lemma ReplayTakes(row: Row, sel: Selection, now: int)
    requires SyncOf(row).check && now > 0 && CommaFree(Adds(row, sel))
    ensures var after := ApplyRow(row, sel, now);
      && Adds(after, sel) == [] && Ignores(after, sel) == []
      && forall x :: x in Removes(after, sel) <==> Clashes(row, sel, x)
  {
    hide Adds, Removes, Ignores, ModelsOf, SyncOf, ApplyRow, Normalize;
    var after := ApplyRow(row, sel, now);
    ApplyConserves(row, sel, now);
    SelectionLaws(row, sel);
    SelectionLaws(after, sel);
    NoMembers(Adds(after, sel));
    NoMembers(Ignores(after, sel));
  }

  /** Selecting nothing changes nothing but the time of the check. */
  lemma NothingTaken(row: Row, sel: Selection, now: int)
    requires SyncOf(row).check && now > 0 && Normal(SyncOf(row).ignored)
    requires Adds(row, sel) == [] && Ignores(row, sel) == [] && Removes(row, sel) == []
    ensures SameLists(ApplyRow(row, sel, now), row)
  {
    hide Adds, Removes, Ignores, ModelsOf, SyncOf, ApplyRow, Normalize;
    AfterLists(row, sel, now);
    NextModelsLaw(row, sel);
    FilterAll(ModelsOf(row), x => x !in Removes(row, sel));
    NormalOf(row);
    NormalizeNothing();
    FilterAll(PendingAdded(row), x => x !in Normalize(Adds(row, sel) + Ignores(row, sel)));
    FilterAll(PendingRemoved(row), x => x !in Normalize(Removes(row, sel)));
    NormalizeFixed(SyncOf(row).ignored);
    MergeOfNew(SyncOf(row).ignored, []);
  }

  /**
   Sending the same request twice leaves models, ignored and pending lists as the first left them, exactly if
   no name was asked to be both added and removed while pending in both lists; disjoint pending
   lists rule that out.
   */
  lemma ReplayIsIdempotentIff(row: Row, sel: Selection, now: int, later: int)
    requires SyncOf(row).check && now > 0 && later > 0 && CommaFree(Adds(row, sel))
    ensures var once := ApplyRow(row, sel, now);
      SameLists(ApplyRow(once, sel, later), once) <==> forall x :: !Clashes(row, sel, x)
  {
    hide Adds, Removes, Ignores, ModelsOf, ApplyRow, Normalize, NextIgnored, Clashes, Decode;
    var once := ApplyRow(row, sel, now);
    ApplyResult(row, sel, now);
    ReplayTakes(row, sel, now);
    if forall x :: !Clashes(row, sel, x) {
      NoMembers(Removes(once, sel));
      NextIgnoredLaw(row, sel);
      NothingTaken(once, sel, later);
    } else {
      var x :| Clashes(row, sel, x);
      assert x in Removes(once, sel);
      SelectionLaws(once, sel);
      ApplyConserves(once, sel, later);
    }
  }

  // ---------------------------------------------------------------- pending lists always fit the models

  lemma DetectKeepsFit(env: Env, row: Row, upstream: seq<string>, allowAuto: bool, now: int)
    requires SyncOf(row).check && now > 0 && CommaFree(Normalize(upstream))
    ensures PendingFits(DetectRow(env, row, upstream, allowAuto, now))
  {
    hide DetectRow, ModelsOf, Decode, Normalize, AddsFor, RemovesFor, AutoAdds;
    DetectionResult(env, row, upstream, allowAuto, now);
    PendingFacts(env, row, upstream);
    NormalizeNothing();
  }

  lemma ApplyKeepsFit(row: Row, sel: Selection, now: int)
    requires SyncOf(row).check && now > 0 && PendingFits(row)
    ensures PendingFits(ApplyRow(row, sel, now))
  {
    hide ApplyRow, ModelsOf, SyncOf, Normalize, Adds, Ignores, Removes;
    SelectionLaws(row, sel);
    ApplyConserves(row, sel, now);
  }

  lemma NothingPendingFits(row: Row)
    requires SyncOf(row).detected == [] && SyncOf(row).removed == []
    ensures PendingFits(row)
  {
    NormalizeNothing();
  }

  /** The two lists never overlap. */
  lemma FittingListsAreDisjoint(row: Row)
    requires PendingFits(row)
    ensures forall x :: !(x in PendingAdded(row) && x in PendingRemoved(row))
  {
  }

  // ---------------------------------------------------------------- convergence

  /** All that is pending. */
  function Everything(row: Row): Selection {
    Selection(SyncOf(row).detected, [], SyncOf(row).removed)
  }

  lemma EverythingTaken(row: Row)
    requires PendingFits(row)
    ensures forall x :: x in Adds(row, Everything(row)) <==> x in PendingAdded(row)
    ensures forall x :: x in Removes(row, Everything(row)) <==> x in PendingRemoved(row)
    ensures Ignores(row, Everything(row)) == []
  {
    hide Adds, Removes, Ignores, ModelsOf, SyncOf, Normalize;
    var sel := Everything(row);
    NormalizeNothing();
    SelectionLaws(row, sel);
    NoMembers(Ignores(row, sel));
  }

  lemma EverythingApplied(row: Row, now: int)
    requires SyncOf(row).check && now > 0 && PendingFits(row)
    ensures var applied := ApplyRow(row, Everything(row), now);
      && SyncOf(applied).check && Cell(applied, ModelMapping) == Cell(row, ModelMapping)
      && Normal(SyncOf(applied).ignored)
      && (forall x :: x in SyncOf(applied).ignored <==> x in Normalize(SyncOf(row).ignored) && x !in PendingAdded(row))
      && (forall x :: x in ModelsOf(applied) <==>
          (x in ModelsOf(row) && x !in PendingRemoved(row)) || x in PendingAdded(row))
  {
    hide ModelsOf, Decode, Normalize, ApplyRow, Adds, Removes, Ignores, NextIgnored, NextModels, SameWithoutSyncKeys;
    var sel := Everything(row);
    EverythingTaken(row);
    ApplyConserves(row, sel, now);
    ApplyResult(row, sel, now);
    NextIgnoredLaw(row, sel);
  }

  /** The names that applying everything takes off the ignored list. */
  function TakenAdds(env: Env, row: Row, upstream: seq<string>, allowAuto: bool): seq<string> {
    if AutoAdds(env, row, upstream, allowAuto) then [] else AddsFor(env, row, upstream)
  }

  /** The row after detecting and applying everything, as far as the next detection can see. */
  lemma AfterEverything(env: Env, row: Row, upstream: seq<string>, allowAuto: bool, now: int, later: int)
    requires SyncOf(row).check && now > 0 && later > 0 && CommaFree(Normalize(upstream))
    ensures var detected := DetectRow(env, row, upstream, allowAuto, now);
      var applied := ApplyRow(detected, Everything(detected), later);
      && SyncOf(applied).check
      && MappingOf(env, applied) == MappingOf(env, row)
      && Normal(SyncOf(applied).ignored)
      && (forall x :: x in ModelsOf(applied) <==>
            (x in ModelsOf(row) || x in AddsFor(env, row, upstream)) && x !in RemovesFor(env, row, upstream))
      && (forall x :: x in SyncOf(applied).ignored <==>
            x in Normalize(SyncOf(row).ignored) && x !in TakenAdds(env, row, upstream, allowAuto))
  {
    hide DetectRow, ModelsOf, SyncOf, Normalize, AddsFor, RemovesFor, AutoAdds, ApplyRow, PendingFits, Everything,
         PendingAdded, PendingRemoved;
    DetectedPending(env, row, upstream, allowAuto, now);
    PendingFacts(env, row, upstream);
    DetectKeepsFit(env, row, upstream, allowAuto, now);
    EverythingApplied(DetectRow(env, row, upstream, allowAuto, now), later);
  }

  lemma DetectedPending(env: Env, row: Row, upstream: seq<string>, allowAuto: bool, now: int)
    requires SyncOf(row).check && now > 0 && CommaFree(Normalize(upstream))
    ensures var detected := DetectRow(env, row, upstream, allowAuto, now);
      var auto := AutoAdds(env, row, upstream, allowAuto);
      && SyncOf(detected).check
      && Cell(detected, ModelMapping) == Cell(row, ModelMapping)
      && Normalize(SyncOf(detected).ignored) == Normalize(SyncOf(row).ignored)
      && PendingAdded(detected) == (if auto then [] else AddsFor(env, row, upstream))
      && PendingRemoved(detected) == RemovesFor(env, row, upstream)
      && ModelsOf(detected) == ModelsOf(row) + if auto then AddsFor(env, row, upstream) else []
  {
    hide DetectRow, ModelsOf, Decode, Normalize, AddsFor, RemovesFor, AutoAdds, SameWithoutSyncKeys;
    DetectionResult(env, row, upstream, allowAuto, now);
    PendingFacts(env, row, upstream);
    NormalizeNothing();
    NormalizeFixed(Normalize(SyncOf(row).ignored));
  }

  /** An entry that is not itself taken off the list keeps the name ignored. */
  predicate StaysIgnored(env: Env, ignored: seq<string>, taken: seq<string>, x: string) {
    exists i :: 0 <= i < |ignored| && ignored[i] !in taken && EntryMatches(env.matches, ignored[i], Trim(x))
  }

  lemma IgnoredWithout(env: Env, ignored: seq<string>, taken: seq<string>, left: seq<string>, x: string)
    requires forall y :: y in left <==> y in ignored && y !in taken
    ensures IsIgnored(env.matches, x, left) <==> Trim(x) != "" && StaysIgnored(env, ignored, taken, x)
  {
    if i :| 0 <= i < |left| && EntryMatches(env.matches, left[i], Trim(x)) {
      assert left[i] in left;
      var j :| 0 <= j < |ignored| && ignored[j] == left[i];
    }
    if i :| 0 <= i < |ignored| && ignored[i] !in taken && EntryMatches(env.matches, ignored[i], Trim(x)) {
      assert ignored[i] in left;
      var j :| 0 <= j < |left| && left[j] == ignored[i];
    }
  }

  /** Only being ignored keeps the name from being pending. */
  predicate HeldBack(env: Env, row: Row, upstream: seq<string>, x: string) {
    var mapping := MappingOf(env, row);
    && IsIgnored(env.matches, x, Normalize(SyncOf(row).ignored))
    && (|| (x in Normalize(upstream) && x !in ModelsOf(row) && x !in mapping.Values)
        || (x in ModelsOf(row) && x !in mapping.Keys && x !in Normalize(upstream)))
  }

  lemma PendingAgain(env: Env, row: Row, upstream: seq<string>, allowAuto: bool, applied: Row, x: string)
    requires MappingOf(env, applied) == MappingOf(env, row) && Normal(SyncOf(applied).ignored)
    requires forall y :: y in ModelsOf(applied) <==>
      (y in ModelsOf(row) || y in AddsFor(env, row, upstream)) && y !in RemovesFor(env, row, upstream)
    requires forall y :: y in SyncOf(applied).ignored <==>
      y in Normalize(SyncOf(row).ignored) && y !in TakenAdds(env, row, upstream, allowAuto)
    ensures x in AddsFor(env, applied, upstream) || x in RemovesFor(env, applied, upstream) <==>
      && HeldBack(env, row, upstream, x)
      && !StaysIgnored(env, Normalize(SyncOf(row).ignored), TakenAdds(env, row, upstream, allowAuto), x)
  {
    hide ModelsOf, Decode, Normalize, IsIgnored, PendingAdds, PendingRemoves, MappingOf, StaysIgnored, AutoAdds,
         EntryMatches;
    PendingLaws(env.matches, ModelsOf(row), upstream, SyncOf(row).ignored, MappingOf(env, row));
    PendingLaws(env.matches, ModelsOf(applied), upstream, SyncOf(applied).ignored, MappingOf(env, applied));
    NormalOf(row);
    NormalOf(applied);
    NormalizeFixed(SyncOf(applied).ignored);
    var ignored, taken := Normalize(SyncOf(row).ignored), TakenAdds(env, row, upstream, allowAuto);
    IgnoredWithout(env, ignored, taken, SyncOf(applied).ignored, x);
    IgnoredIsNamed(env, ignored, x);
  }

  lemma IgnoredIsNamed(env: Env, ignored: seq<string>, x: string)
    ensures IsIgnored(env.matches, x, ignored) ==> Trim(x) != ""
  {
  }

  /**
   Detecting, applying everything and detecting again against the same list finds nothing, exactly if every name
   that was held back only by being ignored is matched by an entry that is not one of the added names.
   */
  lemma DetectionConvergesIff(env: Env, row: Row, upstream: seq<string>, allowAuto: bool, now: int, later: int)
    requires SyncOf(row).check && now > 0 && later > 0 && CommaFree(Normalize(upstream))
    ensures var detected := DetectRow(env, row, upstream, allowAuto, now);
      var applied := ApplyRow(detected, Everything(detected), later);
      AddsFor(env, applied, upstream) == [] && RemovesFor(env, applied, upstream) == [] <==>
      forall x :: HeldBack(env, row, upstream, x) ==>
        StaysIgnored(env, Normalize(SyncOf(row).ignored), TakenAdds(env, row, upstream, allowAuto), x)
  {
    hide DetectRow, ApplyRow, ModelsOf, SyncOf, MappingOf, AddsFor, RemovesFor, TakenAdds, HeldBack, StaysIgnored,
         Normalize, Everything;
    var detected := DetectRow(env, row, upstream, allowAuto, now);
    var applied := ApplyRow(detected, Everything(detected), later);
    AfterEverything(env, row, upstream, allowAuto, now, later);
    forall x {
      PendingAgain(env, row, upstream, allowAuto, applied, x);
    }
    NoMembers(AddsFor(env, applied, upstream));
    NoMembers(RemovesFor(env, applied, upstream));
  }

  /** With automatic addition, or with upstream names that are no patterns, detection always converges. */
  lemma PlainNamesConverge(env: Env, row: Row, upstream: seq<string>, allowAuto: bool, now: int, later: int)
    requires SyncOf(row).check && now > 0 && later > 0 && CommaFree(Normalize(upstream))
    requires AutoAdds(env, row, upstream, allowAuto) || forall x :: x in Normalize(upstream) ==> !(REGEX_PREFIX <= x)
    ensures var detected := DetectRow(env, row, upstream, allowAuto, now);
      var applied := ApplyRow(detected, Everything(detected), later);
      AddsFor(env, applied, upstream) == [] && RemovesFor(env, applied, upstream) == []
  {
    hide DetectRow, ApplyRow, ModelsOf, SyncOf, MappingOf, AddsFor, RemovesFor, AutoAdds, Normalize, Everything,
         EntryMatches;
    DetectionConvergesIff(env, row, upstream, allowAuto, now, later);
    var ignored := Normalize(SyncOf(row).ignored);
    if !AutoAdds(env, row, upstream, allowAuto) {
      PlainAddsAreUnlisted(env, row, upstream);
    }
    forall x | HeldBack(env, row, upstream, x)
      ensures StaysIgnored(env, ignored, TakenAdds(env, row, upstream, allowAuto), x)
    {
      var i :| 0 <= i < |ignored| && EntryMatches(env.matches, ignored[i], Trim(x));
      assert ignored[i] in ignored && ignored[i] !in TakenAdds(env, row, upstream, allowAuto);
    }
  }

  lemma PlainAddsAreUnlisted(env: Env, row: Row, upstream: seq<string>)
    requires forall x :: x in Normalize(upstream) ==> !(REGEX_PREFIX <= x)
    ensures forall x :: x in AddsFor(env, row, upstream) ==> x !in Normalize(SyncOf(row).ignored)
  {
    hide Decode, GetModels, MappingOf, IsIgnored, Normalize, PendingAdds, PendingRemoves;
    PendingLaws(env.matches, ModelsOf(row), upstream, SyncOf(row).ignored, MappingOf(env, row));
    forall x | x in AddsFor(env, row, upstream) ensures x !in Normalize(SyncOf(row).ignored) {
      if x in Normalize(SyncOf(row).ignored) {
        ListedIsIgnored(env.matches, x, Normalize(SyncOf(row).ignored));
      }
    }
  }

  // ---------------------------------------------------------------- a model named like a pattern

  const PATTERN: string := "regex:^y$"

  /** Checks are on, and the pattern keeps the model y out. */
  const PATTERN_ROW: Row :=
    Row(1, 1, Info(false, 0, "", map[]),
        map[Settings := Config(Raw(0, Object(0, map[CheckEnabled := JBool(true), Ignored := JNames([PATTERN])])))])

  lemma PatternIsName()
    ensures IsName(PATTERN) && IsName("y") && ',' !in PATTERN && ',' !in "y"
  {
    assert |PATTERN| == 9 && PATTERN[0] == 'r' && PATTERN[8] == '$';
  }

  lemma PatternLists()
    ensures Normalize([PATTERN]) == [PATTERN] && Normalize([PATTERN, "y"]) == [PATTERN, "y"]
    ensures CommaFree([PATTERN, "y"]) && Normalize([]) == []
  {
    hide Normalize, IsName;
    PatternIsName();
    assert forall x :: x in [PATTERN, "y"] <==> x == PATTERN || x == "y";
    assert |PATTERN| == 9;
    NormalizeFixed([PATTERN]);
    NormalizeFixed([PATTERN, "y"]);
    NormalizeNothing();
  }

  /** The pattern matches y, and not its own text. */
  lemma PatternMatches(env: Env)
    requires env.matches == iset{("^y$", "y")}
    ensures EntryMatches(env.matches, PATTERN, "y") && !EntryMatches(env.matches, PATTERN, PATTERN)
    ensures Trim("y") == "y" && Trim(PATTERN) == PATTERN
  {
    assert PATTERN[|REGEX_PREFIX|..] == "^y$";
    assert Trim("^y$") == "^y$";
  }

  /** Adding an upstream model named like that pattern takes the pattern off the list, and y becomes pending. */
  lemma PatternNameDoesNotConverge(env: Env)
    requires env.matches == iset{("^y$", "y")} && env.mappings == map[]
    ensures var upstream := [PATTERN, "y"];
      var detected := DetectRow(env, PATTERN_ROW, upstream, false, 1);
      AddsFor(env, ApplyRow(detected, Everything(detected), 1), upstream) != []
      || RemovesFor(env, ApplyRow(detected, Everything(detected), 1), upstream) != []
  {
    hide DetectRow, ApplyRow, Everything, PendingAdds, PendingRemoves, Normalize, EntryMatches, Trim;
    var row, upstream := PATTERN_ROW, [PATTERN, "y"];
    PatternLists();
    PatternMatches(env);
    assert SyncOf(row) == Sync(true, false, [PATTERN], 0, [], []);
    assert ModelsOf(row) == [] && MappingOf(env, row) == map[];
    PendingLaws(env.matches, [], upstream, [PATTERN], map[]);
    assert [PATTERN][0] == PATTERN;
    assert IsIgnored(env.matches, "y", [PATTERN]);
    assert PATTERN in AddsFor(env, row, upstream);
    assert HeldBack(env, row, upstream, "y");
    assert !StaysIgnored(env, [PATTERN], TakenAdds(env, row, upstream, false), "y");
    DetectionConvergesIff(env, row, upstream, false, 1, 1);
  }
}
