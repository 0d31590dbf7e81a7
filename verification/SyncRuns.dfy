/**
 Everything that happens to one channel: it is created, any number of detections are under way at once, each
 with its two locked phases, and in between operators apply pending changes, edit the channel and
 switch it on and off.
 */
module SyncRuns {
  import opened Wrappers
  import opened Text
  import opened ModelNames
  import opened ChannelSettings
  import opened ChannelRow
  import opened UpstreamSync
  import opened UpstreamApply
  import opened ChannelEdit

  // ---------------------------------------------------------------- creation

  function CreatedFields(fields: Fields, supported: bool): Fields {
    if !supported then fields - SYNC_KEYS
    else if Get(fields, CheckEnabled) == JBool(true) then fields - RUNTIME_KEYS
    else fields - RUNTIME_KEYS - {AutoSync}
  }

  /** normalizeChannelUpstreamModelUpdateSettingsForCreate; nothing if the settings are no JSON object. */
  function CreateRow(row: Row): Option<Row> {
    var fields := ParseFields(SettingsOf(row));
    if fields.None? then None
    else if CreatedFields(fields.value, RowSupports(row)) == fields.value then Some(row)
    else Some(PutSettings(row, Marshal(CreatedFields(fields.value, RowSupports(row)))))
  }

  /** A new channel has nothing pending, keeps its own settings, and has automatic synchronisation only with checks. */
  lemma CreationLaws(row: Row)
    requires CreateRow(row).Some?
    ensures var made := CreateRow(row).value;
      && SyncOf(made).detected == SyncOf(made).removed == [] && SyncOf(made).lastCheck == 0
      && (SyncOf(made).auto ==> SyncOf(made).check && RowSupports(row))
      && SameWithoutSyncKeys(SettingsOf(made), SettingsOf(row))
      && forall c :: c != Settings ==> Cell(made, c) == Cell(row, c)
  {
    var fields := ParseFields(SettingsOf(row)).value;
    var made := CreatedFields(fields, RowSupports(row));
    assert made - SYNC_KEYS == fields - SYNC_KEYS;
    assert LastCheck !in made && Detected !in made && Removed !in made;
  }

  // ---------------------------------------------------------------- runs

  /** A detection between its two phases: the row it saw, and how it was called. */
  datatype Looking = Looking(row: Row, o: Options)

  datatype State = State(row: Row, looking: map<nat, Looking>)

  datatype Action =
    | Recheck(d: nat, channel: Row, o: Options)
    | Relock(d: nat, fetched: Fetched, cancelled: bool)
    | Apply(sel: Selection, requireEnabled: bool, now: int)
    | Edit(srv: Server, q: Request, stale: Row, can: bool)
    | SetStatus(status: int)
    | TagEdit(cells: map<Column, Value>)       // an edit of all channels with a tag
    | RemoveModels(names: set<string>)         // models removed from all channels

  /** Assumptions on the world: clocks are positive, and no upstream model name holds a comma. */
  predicate Possible(s: State, a: Action) {
    match a
    case Recheck(_, _, o) => o.now > 0
    case Relock(d, fetched, _) => d in s.looking && (fetched.Fetched? ==> CommaFree(Normalize(fetched.models)))
    case Apply(_, _, now) => now > 0
    case _ => true
  }

  predicate Persists(env: Env, row: Row, l: Looking, fetched: Fetched, cancelled: bool) {
    && !cancelled && fetched.Fetched?
    && StillDue(env, l.row, row, l.o) && SameRuntimeState(SyncOf(l.row), SyncOf(row))
  }

  function RelockedRow(env: Env, row: Row, l: Looking, fetched: Fetched, cancelled: bool): Row {
    if Persists(env, row, l, fetched, cancelled) then DetectRow(env, row, fetched.models, l.o.allowAuto, l.o.now)
    else if cancelled then row
    else Unpersisted(row, l.o)
  }

  function AppliedRow(row: Row, sel: Selection, requireEnabled: bool, now: int): Row {
    if requireEnabled && row.status != ENABLED_STATUS then row
    else if !RowSupports(row) then CleanedRow(row)
    else if !SyncOf(row).check then row
    else ApplyRow(row, sel, now)
  }

  /** EditChannelByTag writes some columns of every channel with the tag, and never the settings. */
  function TaggedRow(row: Row, cells: map<Column, Value>): Row {
    row.(cells := map c | c in ALL_COLUMNS ::
           if c in cells && c in TAG_COLUMNS then Prepared(c, cells[c]) else Cell(row, c))
  }

  const TAG_COLUMNS: set<Column> := {Tag, ModelMapping, Models, Group, Priority, Weight, ParamOverride, HeaderOverride}

  /** Removing models leaves the others in their order, and an unchanged list as it is written. */
  function RemainingModels(row: Row, names: set<string>): seq<string> {
    Filter(ModelsOf(row), x => x !in names)
  }

  function ThinnedRow(row: Row, names: set<string>): Row {
    if |RemainingModels(row, names)| == |ModelsOf(row)| then row
    else With(row, Models, Str(Join(RemainingModels(row, names), ',')))
  }

  /** A selection is applied to an enabled (if that is asked for), supported channel with checks on, and to no other. */
  lemma AppliedWhen(row: Row, sel: Selection, requireEnabled: bool, now: int)
    ensures var after := AppliedRow(row, sel, requireEnabled, now);
      && (requireEnabled && row.status != 1 ==> after == row)
      && ((requireEnabled ==> row.status == 1) && !RowSupports(row) ==> after == CleanedRow(row))
      && ((requireEnabled ==> row.status == 1) && RowSupports(row) ==>
            after == if SyncOf(row).check then ApplyRow(row, sel, now) else row)
  {
    hide ApplyRow, CleanedRow, RowSupports, SyncOf;
  }

  function After(env: Env, s: State, a: Action): State
    requires Possible(s, a)
  {
    match a
    case Recheck(d, channel, o) =>
      if StillDue(env, channel, s.row, o) then s.(looking := s.looking[d := Looking(s.row, o)])
      else State(Unpersisted(s.row, o), s.looking - {d})
    case Relock(d, fetched, cancelled) =>
      State(RelockedRow(env, s.row, s.looking[d], fetched, cancelled), s.looking - {d})
    case Apply(sel, requireEnabled, now) => s.(row := AppliedRow(s.row, sel, requireEnabled, now))
    case Edit(srv, q, stale, can) =>
      var r := EditRow(srv, q, stale, s.row, can);
      if r.Edited? then s.(row := r.row) else s
    case SetStatus(status) => s.(row := s.row.(status := status))
    case TagEdit(cells) => s.(row := TaggedRow(s.row, cells))
    case RemoveModels(names) => s.(row := ThinnedRow(s.row, names))
  }

  ghost predicate IsRun(env: Env, run: seq<State>, actions: seq<Action>) {
    && |run| == |actions| + 1
    && run[0].looking == map[]
    && (exists row :: CreateRow(row) == Some(run[0].row))
    && forall i :: 0 <= i < |actions| ==> Possible(run[i], actions[i]) && run[i + 1] == After(env, run[i], actions[i])
  }

  // ---------------------------------------------------------------- pending lists in every reachable state

  /** What a detection saw was clocked positively. */
  predicate Clocked(s: State) {
    forall d :: d in s.looking ==> s.looking[d].o.now > 0
  }

  lemma UnpersistedKeepsFit(row: Row, o: Options)
    requires PendingFits(row)
    ensures PendingFits(Unpersisted(row, o))
  {
    hide CleanedRow, PendingFits, SyncOf;
    CleanedRowLaws(row);
    if Unpersisted(row, o) != row {
      NothingPendingFits(CleanedRow(row));
    }
  }

  /**
   Steps that write the model list past the pending lists respect them: the new list holds every name pending to be
   removed and none pending to be added, and no model is removed that is pending to be removed.
   */
  predicate Respects(row: Row, a: Action) {
    match a
    case TagEdit(cells) =>
      Models in cells ==>
        var models := GetModels(TextOf(cells[Models]));
        && (forall x :: x in PendingAdded(row) ==> x !in models)
        && (forall x :: x in PendingRemoved(row) ==> x in models)
    case RemoveModels(names) => forall x :: x in PendingRemoved(row) ==> x !in names
    case _ => true
  }

  lemma TaggedCell(row: Row, cells: map<Column, Value>, c: Column)
    ensures Cell(TaggedRow(row, cells), c) ==
      if c in cells && c in TAG_COLUMNS then Prepared(c, cells[c]) else Cell(row, c)
  {
    hide Prepared;
    AllColumnsListed(c);
  }

  lemma TaggedLists(row: Row, cells: map<Column, Value>)
    ensures SyncOf(TaggedRow(row, cells)) == SyncOf(row)
    ensures ModelsOf(TaggedRow(row, cells)) ==
      if Models in cells then GetModels(TextOf(cells[Models])) else ModelsOf(row)
  {
    hide Decode, GetModels, TaggedRow, Join;
    TaggedCell(row, cells, Settings);
    TaggedCell(row, cells, Models);
    if Models in cells {
      NormalizedText(TextOf(cells[Models]));
    }
  }

  lemma TagEditFitsIff(row: Row, cells: map<Column, Value>)
    requires PendingFits(row)
    ensures PendingFits(TaggedRow(row, cells)) <==> Respects(row, TagEdit(cells))
  {
    hide SyncOf, ModelsOf, GetModels, TaggedRow, Normalize;
    TaggedLists(row, cells);
  }

  lemma ThinnedModels(row: Row, names: set<string>)
    ensures SyncOf(ThinnedRow(row, names)) == SyncOf(row)
    ensures forall x :: x in ModelsOf(ThinnedRow(row, names)) <==> x in ModelsOf(row) && x !in names
  {
    hide Decode, GetModels;
    var models, rest := ModelsOf(row), RemainingModels(row, names);
    NormalOf(row);
    FilterNormal(models, x => x !in names);
    if |rest| == |models| {
      FilterKeepsAll(models, x => x !in names);
    } else {
      StoredModels(rest);
    }
  }

  lemma RemovalFitsIff(row: Row, names: set<string>)
    requires PendingFits(row)
    ensures PendingFits(ThinnedRow(row, names)) <==> Respects(row, RemoveModels(names))
  {
    hide SyncOf, ModelsOf, ThinnedRow, Normalize;
    ThinnedModels(row, names);
  }

  /** A step keeps the pending lists fitting exactly if it respects them. */
  lemma StepKeepsFitIff(env: Env, s: State, a: Action)
    requires Possible(s, a) && PendingFits(s.row) && Clocked(s)
    ensures PendingFits(After(env, s, a).row) <==> Respects(s.row, a)
    ensures Clocked(After(env, s, a))
  {
    hide PendingFits, Respects, After;
    match a
    case TagEdit(cells) => TagEditFitsIff(s.row, cells); StepIsClocked(env, s, a);
    case RemoveModels(names) => RemovalFitsIff(s.row, names); StepIsClocked(env, s, a);
    case _ => StepKeepsFit(env, s, a); OwnStepsRespect(s, a);
  }

  lemma StepIsClocked(env: Env, s: State, a: Action)
    requires Possible(s, a) && Clocked(s) && (a.TagEdit? || a.RemoveModels?)
    ensures Clocked(After(env, s, a))
    ensures After(env, s, a).row == if a.TagEdit? then TaggedRow(s.row, a.cells) else ThinnedRow(s.row, a.names)
  {
    hide TaggedRow, ThinnedRow;
  }

  lemma OwnStepsRespect(s: State, a: Action)
    requires !a.TagEdit? && !a.RemoveModels?
    ensures Respects(s.row, a)
  {
  }

  lemma StepKeepsFit(env: Env, s: State, a: Action)
    requires Possible(s, a) && PendingFits(s.row) && Clocked(s) && !a.TagEdit? && !a.RemoveModels?
    ensures PendingFits(After(env, s, a).row) && Clocked(After(env, s, a))
  {
    hide PendingFits, EditRow, DetectRow, ApplyRow, Unpersisted, CleanedRow, SyncOf, RowSupports, SameSource,
         SameRuntimeState, TooSoon;
    match a
    case Recheck(_, _, o) => UnpersistedKeepsFit(s.row, o);
    case Relock(d, fetched, cancelled) =>
      var l := s.looking[d];
      UnpersistedKeepsFit(s.row, l.o);
      if Persists(env, s.row, l, fetched, cancelled) {
        DetectKeepsFit(env, s.row, fetched.models, l.o.allowAuto, l.o.now);
      }
    case Apply(sel, requireEnabled, now) => AppliedKeepsFit(s.row, sel, requireEnabled, now);
    case Edit(srv, q, stale, can) =>
      if EditRow(srv, q, stale, s.row, can).Edited? {
        EditKeepsFit(srv, q, stale, s.row, can);
      }
    case SetStatus(status) => StatusKeepsFit(s.row, status);
  }

  lemma StatusKeepsFit(row: Row, status: int)
    requires PendingFits(row)
    ensures PendingFits(row.(status := status))
  {
    hide Decode, GetModels, Normalize;
    assert SyncOf(row.(status := status)) == SyncOf(row) && ModelsOf(row.(status := status)) == ModelsOf(row);
  }

  lemma AppliedKeepsFit(row: Row, sel: Selection, requireEnabled: bool, now: int)
    requires PendingFits(row) && now > 0
    ensures PendingFits(AppliedRow(row, sel, requireEnabled, now))
  {
    hide PendingFits, ApplyRow, CleanedRow, SyncOf, RowSupports;
    if AppliedRow(row, sel, requireEnabled, now) == CleanedRow(row) {
      CleanedRowLaws(row);
      NothingPendingFits(CleanedRow(row));
    } else if SyncOf(row).check {
      ApplyKeepsFit(row, sel, now);
    }
  }

  ghost predicate Respectful(run: seq<State>, actions: seq<Action>, k: nat) {
    forall i :: 0 <= i < k && i < |actions| && i < |run| ==> Respects(run[i].row, actions[i])
  }

  /**
   The names pending to be added are not among the channel's models, those pending to be removed are, and so no
   name is pending twice: up to any state of a run, exactly if every step up to it respects the pending lists.
   Creating, detecting, adding automatically, applying and editing always do.
   */
  lemma {:induction false} PendingListsFitIff(env: Env, run: seq<State>, actions: seq<Action>, k: nat)
    requires IsRun(env, run, actions) && k < |run|
    ensures (forall i :: 0 <= i <= k ==> PendingFits(run[i].row)) <==> Respectful(run, actions, k)
    ensures Respectful(run, actions, k) ==>
      Clocked(run[k]) && forall x :: !(x in PendingAdded(run[k].row) && x in PendingRemoved(run[k].row))
  {
    hide CreateRow, After, Possible, PendingFits, SyncOf, Respects, Respectful, Clocked, PendingAdded, PendingRemoved;
    if k == 0 {
      assert Respectful(run, actions, 0) && Clocked(run[0]) by {
        assert run[0].looking == map[];
        RespectfulStart(run, actions);
        NothingLooking(run[0]);
      }
      var row :| CreateRow(row) == Some(run[0].row);
      CreationLaws(row);
      NothingPendingFits(run[0].row);
    } else {
      PendingListsFitIff(env, run, actions, k - 1);
      RespectfulStep(run, actions, k);
      if Respectful(run, actions, k - 1) {
        StepKeepsFitIff(env, run[k - 1], actions[k - 1]);
      }
      assert (forall i :: 0 <= i <= k ==> PendingFits(run[i].row)) <==>
             (forall i :: 0 <= i <= k - 1 ==> PendingFits(run[i].row)) && PendingFits(run[k].row);
    }
    if Respectful(run, actions, k) {
      FittingListsAreDisjoint(run[k].row);
    }
  }

  lemma RespectfulStart(run: seq<State>, actions: seq<Action>)
    ensures Respectful(run, actions, 0)
  {
  }

  lemma NothingLooking(s: State)
    requires s.looking == map[]
    ensures Clocked(s)
  {
  }

  lemma RespectfulStep(run: seq<State>, actions: seq<Action>, k: nat)
    requires 0 < k <= |actions| && k <= |run|
    ensures Respectful(run, actions, k) <==> Respectful(run, actions, k - 1) && Respects(run[k - 1].row, actions[k - 1])
  {
    hide Respects;
  }

  /** Runs without edits by tag and without removals keep the lists fitting. */
  lemma PendingListsAlwaysFit(env: Env, run: seq<State>, actions: seq<Action>, k: nat)
    requires IsRun(env, run, actions) && k < |run|
    requires forall i :: 0 <= i < k ==> !actions[i].TagEdit? && !actions[i].RemoveModels?
    ensures PendingFits(run[k].row) && forall x :: !(x in PendingAdded(run[k].row) && x in PendingRemoved(run[k].row))
  {
    hide PendingFits, Possible, After;
    forall i | 0 <= i < k && i < |actions| && i < |run| ensures Respects(run[i].row, actions[i]) {
      OwnStepsRespect(run[i], actions[i]);
    }
    PendingListsFitIff(env, run, actions, k);
  }

  /** A channel with a model that is pending to be removed. */
  const PENDING_ROW: Row :=
    Row(1, 1, Info(false, 0, "", map[]),
        map[Models := Str("m"), Settings := Config(Raw(0, Object(0, map[Removed := JNames(["m"])])))])

  /** Clearing the models by tag leaves that name pending although it is no model any more. */
  lemma TagEditStrandsPending()
    ensures PendingFits(PENDING_ROW) && !PendingFits(TaggedRow(PENDING_ROW, map[Models := Str("")]))
  {
    hide TaggedRow, SyncOf, ModelsOf, GetModels, Normalize;
    PendingRowLists();
    assert "m" in PendingRemoved(PENDING_ROW);
    TagEditFitsIff(PENDING_ROW, map[Models := Str("")]);
    assert GetModels("") == [];
  }

  lemma PendingRowLists()
    ensures ModelsOf(PENDING_ROW) == ["m"] && PendingAdded(PENDING_ROW) == [] && PendingRemoved(PENDING_ROW) == ["m"]
    ensures GetModels("") == []
  {
    hide Normalize, Join, Split;
    OneModel();
    NormalizeNothing();
    assert SyncOf(PENDING_ROW) == Sync(false, false, [], 0, [], ["m"]);
  }

  lemma OneModel()
    ensures Normalize(["m"]) == ["m"] && GetModels("m") == ["m"]
  {
    NormalizeFixed(["m"]);
    SplitOnePart("m", ',');
  }

  /** Applying twice what fits changes no list the second time. */
  lemma FittingReplay(row: Row, sel: Selection, requireEnabled: bool, now: int, later: int)
    requires PendingFits(row) && now > 0 && later > 0
    ensures var once := AppliedRow(row, sel, requireEnabled, now);
      SameLists(AppliedRow(once, sel, requireEnabled, later), once)
  {
    hide SyncOf, ModelsOf, ApplyRow, CleanedRow, RowSupports, PendingFits, Adds, Removes, Clashes;
    var once := AppliedRow(row, sel, requireEnabled, now);
    if (requireEnabled ==> row.status == ENABLED_STATUS) && !RowSupports(row) {
      CleanedTwice(row);
    } else if (requireEnabled ==> row.status == ENABLED_STATUS) && SyncOf(row).check {
      FittingSelection(row, sel, now);
      ReplayIsIdempotentIff(row, sel, now, later);
    }
  }

  lemma CleanedTwice(row: Row)
    requires !RowSupports(row)
    ensures !RowSupports(CleanedRow(row)) && CleanedRow(row).status == row.status
    ensures SameLists(CleanedRow(CleanedRow(row)), CleanedRow(row))
  {
    hide Decode, Persist, HasResidue, GetModels, Normalize, SameWithoutSyncKeys;
    CleanedRowLaws(row);
    CleanedRowLaws(CleanedRow(row));
    assert CleanedRow(row).info == row.info;
  }

  lemma FittingSelection(row: Row, sel: Selection, now: int)
    requires PendingFits(row) && SyncOf(row).check && now > 0
    ensures CommaFree(Adds(row, sel)) && forall x :: !Clashes(row, sel, x)
    ensures var once := ApplyRow(row, sel, now);
      once.status == row.status && (RowSupports(once) <==> RowSupports(row)) && SyncOf(once).check
  {
    hide Decode, Persist, ModelsOf, Normalize, Adds, Removes, Ignores, NextModels, NextIgnored, SameWithoutSyncKeys,
         Subtract;
    SelectionLaws(row, sel);
    ApplyResult(row, sel, now);
    assert ApplyRow(row, sel, now).info == row.info;
  }

  /** In every state reached by respectful steps, sending the same selection twice changes no list the second time. */
  lemma ReplayIsIdempotent(env: Env, run: seq<State>, actions: seq<Action>, k: nat, sel: Selection,
                           requireEnabled: bool, now: int, later: int)
    requires IsRun(env, run, actions) && k < |run| && Respectful(run, actions, k) && now > 0 && later > 0
    ensures var once := AppliedRow(run[k].row, sel, requireEnabled, now);
      SameLists(AppliedRow(once, sel, requireEnabled, later), once)
  {
    hide IsRun, PendingFits, AppliedRow, SameLists, Respectful;
    PendingListsFitIff(env, run, actions, k);
    FittingReplay(run[k].row, sel, requireEnabled, now, later);
  }

  // ---------------------------------------------------------------- detections are atomic

  predicate StartsAt(run: seq<State>, actions: seq<Action>, d: nat, l: Looking, i: nat) {
    i < |actions| && i < |run| && actions[i].Recheck? && actions[i].d == d && actions[i].o == l.o && run[i].row == l.row
  }

  /** Every detection under way remembers the row as it was when its first phase held the lock. */
  lemma {:induction false} LookingRemembers(env: Env, run: seq<State>, actions: seq<Action>, k: nat, d: nat)
      returns (i: nat)
    requires IsRun(env, run, actions) && k < |run| && d in run[k].looking
    ensures i < k && StartsAt(run, actions, d, run[k].looking[d], i)
    ensures StillDue(env, actions[i].channel, run[i].row, actions[i].o)
  {
    hide CreateRow, StillDue, EditRow, RelockedRow, AppliedRow, Unpersisted, TaggedRow, ThinnedRow;
    var a := actions[k - 1];
    if a.Recheck? && a.d == d {
      i := k - 1;
    } else {
      i := LookingRemembers(env, run, actions, k - 1, d);
    }
  }

  /**
   A detection that is persisted takes effect as one atomic detection on the row as it is at that moment, and
   only if since its first phase neither the source nor the stored state changed, and the channel is
   (still) supported, checked, due and, if that is asked for, enabled. Otherwise it changes no
   more than clearing the settings of a channel that is unsupported by now.
   */
  lemma DetectionsAreAtomic(env: Env, run: seq<State>, actions: seq<Action>, k: nat) returns (i: nat)
    requires IsRun(env, run, actions) && k < |actions| && actions[k].Relock?
    ensures i < k && actions[i].Recheck? && actions[i].d == actions[k].d
    ensures StillDue(env, actions[i].channel, run[i].row, actions[i].o)
    ensures var o, before, after := actions[i].o, run[k].row, run[k + 1].row;
      var persists := && !actions[k].cancelled && actions[k].fetched.Fetched?
                      && StillDue(env, run[i].row, before, o) && SameRuntimeState(SyncOf(run[i].row), SyncOf(before));
      var cleans := !actions[k].cancelled && (o.requireEnabled ==> before.status == 1) && !RowSupports(before);
      after == if persists then DetectRow(env, before, actions[k].fetched.models, o.allowAuto, o.now)
               else if cleans then CleanedRow(before) else before
  {
    hide CreateRow, StillDue, SameRuntimeState, DetectRow, CleanedRow, RowSupports, SyncOf;
    assert Possible(run[k], actions[k]);
    i := LookingRemembers(env, run, actions, k, actions[k].d);
  }

  // ---------------------------------------------------------------- what makes a detection void

  /** A base URL as it is used when it is neither blank nor ends in a slash. */
  predicate PlainUrl(url: string) {
    url != "" && url[|url| - 1] != '/'
  }

  /** The rows differ in something that the list of models was fetched with. */
  ghost predicate SourceDiffers(env: Env, seen: Row, row: Row) {
    || seen.id != row.id || Cell(seen, Type) != Cell(row, Type) || Cell(seen, Other) != Cell(row, Other)
    || (Cell(row, Type) != Num(57) && TextOf(Cell(seen, Key)) != TextOf(Cell(row, Key)))
    || (Cell(row, Type) == Num(57) && Lasting(env, TextOf(Cell(seen, Key))) != Lasting(env, TextOf(Cell(row, Key))))
    || TextOf(Cell(seen, ModelMapping)) != TextOf(Cell(row, ModelMapping))
    || TextOf(Cell(seen, Setting)) != TextOf(Cell(row, Setting))
    || TextOf(Cell(seen, HeaderOverride)) != TextOf(Cell(row, HeaderOverride))
    || seen.info != row.info
    || UrlDiffers(Trim(TextOf(Cell(seen, BaseURL))), Trim(TextOf(Cell(row, BaseURL))))
    || (exists k :: SettingDiffers(SettingsOf(seen).content, SettingsOf(row).content, k))
  }

  /** A Codex key without its tokens. */
  function Lasting(env: Env, key: string): string {
    if key in env.credentials then env.credentials[key] else key
  }

  predicate UrlDiffers(a: string, b: string) {
    PlainUrl(a) && PlainUrl(b) && a != b
  }

  /** A setting that is no runtime state is there in one text and missing or different in the other. */
  predicate SettingDiffers(a: Content, b: Content, k: SettingKey) {
    && a.Object? && b.Object? && k != LastCheck && k != Detected && k != Removed
    && (k in a.fields || k in b.fields) && (k in a.fields && k in b.fields ==> a.fields[k] != b.fields[k])
  }

  /** The stored state of the detection differs. */
  predicate StateDiffers(a: Sync, b: Sync) {
    || a.lastCheck != b.lastCheck
    || Normalize(a.detected) != Normalize(b.detected) || Normalize(a.removed) != Normalize(b.removed)
  }

  /** Detection is switched off, not possible or not yet due for the row. */
  predicate NotDue(row: Row, o: Options) {
    || (o.requireEnabled && row.status != 1)
    || row.info.isMultiKey || KindOf(Cell(row, Type)) !in SUPPORTED_TYPES || !SyncOf(row).check
    || (!o.force && SyncOf(row).lastCheck > 0 && o.now - SyncOf(row).lastCheck < o.minInterval)
  }

  lemma PlainUrlIsUsed(env: Env, row: Row)
    requires PlainUrl(Trim(TextOf(Cell(row, BaseURL))))
    ensures BaseUrlOf(env, row) == Trim(TextOf(Cell(row, BaseURL)))
  {
  }

  /** A blank one stands for the default of the type. */
  lemma BlankUrlIsDefault(env: Env, row: Row)
    requires Trim(TextOf(Cell(row, BaseURL))) == "" && 0 <= KindOf(Cell(row, Type)) < |env.baseUrls|
    requires PlainUrl(Trim(env.baseUrls[KindOf(Cell(row, Type))]))
    ensures BaseUrlOf(env, row) == Trim(env.baseUrls[KindOf(Cell(row, Type))])
  {
  }

  lemma DifferentUrls(env: Env, seen: Row, row: Row)
    requires UrlDiffers(Trim(TextOf(Cell(seen, BaseURL))), Trim(TextOf(Cell(row, BaseURL))))
    ensures BaseUrlOf(env, seen) != BaseUrlOf(env, row)
  {
    hide BaseUrlOf;
    PlainUrlIsUsed(env, seen);
    PlainUrlIsUsed(env, row);
  }

  lemma DifferentSettings(a: Raw, b: Raw, k: SettingKey)
    requires SettingDiffers(a.content, b.content, k)
    ensures !SameSourceSettings(a, b)
  {
    assert k !in RUNTIME_KEYS;
    assert k in SourceFields(a) <==> k in a.content.fields;
    assert k in SourceFields(b) <==> k in b.content.fields;
    if k in a.content.fields && k in b.content.fields {
      assert SourceFields(a)[k] == a.content.fields[k] && SourceFields(b)[k] == b.content.fields[k];
    }
  }

  lemma DifferentSource(env: Env, seen: Row, row: Row)
    requires SourceDiffers(env, seen, row)
    ensures !SameSource(env, seen, row)
  {
    hide BaseUrlOf, SameSourceSettings, Trim, PlainUrl;
    if UrlDiffers(Trim(TextOf(Cell(seen, BaseURL))), Trim(TextOf(Cell(row, BaseURL)))) {
      DifferentUrls(env, seen, row);
    }
    if k :| SettingDiffers(SettingsOf(seen).content, SettingsOf(row).content, k) {
      DifferentSettings(SettingsOf(seen), SettingsOf(row), k);
    }
  }

  /** Apart from the source, that is all that keeps a detection from being due. */
  lemma DueIff(env: Env, seen: Row, row: Row, o: Options)
    ensures StillDue(env, seen, row, o) <==> SameSource(env, seen, row) && !NotDue(row, o)
  {
    hide SameSource, Decode;
  }

  /**
   What a detection fetched is dropped if meanwhile its source or the stored state became different, or detection
   was switched off or is no longer due, or the fetch failed or was cancelled: the row stays, or an unsupported one
   is cleaned.
   */
  lemma StaleDetectionIsDropped(env: Env, run: seq<State>, actions: seq<Action>, k: nat) returns (i: nat)
    requires IsRun(env, run, actions) && k < |actions| && actions[k].Relock?
    ensures i < k && actions[i].Recheck? && actions[i].d == actions[k].d
    ensures var seen, row := run[i].row, run[k].row;
      SourceDiffers(env, seen, row) || StateDiffers(SyncOf(seen), SyncOf(row)) || NotDue(row, actions[i].o) ||
      actions[k].cancelled || actions[k].fetched.NoAnswer? ==>
        run[k + 1].row == row || (run[k + 1].row == CleanedRow(row) && !RowSupports(row))
  {
    hide CreateRow, Possible, After, StillDue, DetectRow, CleanedRow, RowSupports, SyncOf, SourceDiffers, NotDue,
         StateDiffers;
    i := DetectionsAreAtomic(env, run, actions, k);
    var seen, row, o := run[i].row, run[k].row, actions[i].o;
    if SourceDiffers(env, seen, row) {
      DifferentSource(env, seen, row);
    }
    DueIff(env, seen, row, o);
    StateDiffersIff(SyncOf(seen), SyncOf(row));
  }

  lemma StateDiffersIff(a: Sync, b: Sync)
    ensures StateDiffers(a, b) <==> !SameRuntimeState(a, b)
  {
    hide Normalize;
  }

  /** Undisturbed, a detection that got an answer is persisted; other writers may well change the models meanwhile. */
  lemma UndisturbedDetectionPersists(env: Env, run: seq<State>, actions: seq<Action>, k: nat) returns (i: nat)
    requires IsRun(env, run, actions) && k < |actions| && actions[k].Relock?
    requires !actions[k].cancelled && actions[k].fetched.Fetched?
    ensures i < k && actions[i].Recheck? && actions[i].d == actions[k].d
    ensures run[k].row == With(run[i].row, Models, Cell(run[k].row, Models)) ==>
      run[k + 1].row == DetectRow(env, run[k].row, actions[k].fetched.models, actions[i].o.allowAuto, actions[i].o.now)
  {
    hide CreateRow, Possible, After, StillDue, DetectRow, CleanedRow, RowSupports, SyncOf, SameRuntimeState;
    i := DetectionsAreAtomic(env, run, actions, k);
    var seen, row, o := run[i].row, run[k].row, actions[i].o;
    if row == With(seen, Models, Cell(row, Models)) {
      ModelsAreNoSource(env, actions[i].channel, seen, Cell(row, Models), o);
    }
  }

  lemma ModelsAreNoSource(env: Env, channel: Row, seen: Row, models: Value, o: Options)
    requires StillDue(env, channel, seen, o)
    ensures var row := With(seen, Models, models);
      StillDue(env, seen, row, o) && SameRuntimeState(SyncOf(seen), SyncOf(row))
  {
    hide Decode, Normalize, SameSource;
    var row := With(seen, Models, models);
    assert Cell(row, Type) == Cell(seen, Type) && Cell(row, Settings) == Cell(seen, Settings);
    SameButForModels(env, seen, models);
  }

  lemma SameButForModels(env: Env, seen: Row, models: Value)
    ensures SameSource(env, seen, With(seen, Models, models))
  {
    hide Trim, TrimSlashes, SourceFields, BaseUrlOf, SameSourceKey;
    var row := With(seen, Models, models);
    assert forall c :: c != Models ==> Cell(row, c) == Cell(seen, c);
    SameUrlAndKey(env, seen, models);
  }

  lemma SameUrlAndKey(env: Env, seen: Row, models: Value)
    ensures var row := With(seen, Models, models);
      BaseUrlOf(env, seen) == BaseUrlOf(env, row) && SameSourceKey(env, seen, row)
  {
    hide Trim, TrimSlashes;
    var row := With(seen, Models, models);
    assert Cell(row, Type) == Cell(seen, Type) && Cell(row, BaseURL) == Cell(seen, BaseURL);
    assert Cell(row, Key) == Cell(seen, Key);
  }

  /** New tokens in the key of a Codex channel do not make another source. */
  lemma CodexTokensAreNoSource(env: Env, seen: Row, key: string)
    requires Cell(seen, Type) == Num(57) && Lasting(env, TextOf(Cell(seen, Key))) == Lasting(env, key)
    ensures SameSource(env, seen, With(seen, Key, Str(key)))
  {
    hide Trim, TrimSlashes, SourceFields;
    var row := With(seen, Key, Str(key));
    assert Cell(row, Key) == Str(key) && forall c :: c != Key ==> Cell(row, c) == Cell(seen, c);
  }

  /** Only text that is neither blank nor an empty object nor unreadable is a mapping. */
  lemma MappingMeans(env: Env, row: Row)
    ensures var raw := Trim(TextOf(Cell(row, ModelMapping)));
      && (raw != "" && raw != "{}" && raw in env.mappings ==> MappingOf(env, row) == env.mappings[raw])
      && (raw == "" || raw == "{}" || raw !in env.mappings ==> MappingOf(env, row) == map[])
  {
  }
}
