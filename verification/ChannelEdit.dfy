/**
 Editing a channel (controller/channel.go, controller/channel_authz.go). The client sends some fields of a row it
 loaded earlier; under the row's lock they are merged with what is stored now, the settings text is
 reconciled, sensitive changes are refused to callers without the permission for them, and the
 resulting columns are written.
 */
module ChannelEdit {
  import opened Wrappers
  import opened Text
  import opened ModelNames
  import opened ChannelSettings
  import opened ChannelRow
  import opened ChannelKeys
  import opened UpstreamSync
  import opened UpstreamApply

  /** A top-level field of the request. */
  datatype Field =
    | Col(column: Column)
    | KeyModeField | MultiKeyModeField
    | IdField | ChannelInfoField        // accepted, not written
    | StatusField                       // set elsewhere
    | ReadOnly(name: string)
    | Unknown(name: string)

  /** The decoded request: the fields present, and the values of the fields that name columns. */
  datatype Request = Request(
    fields: set<Field>, cells: map<Column, Value>, keyMode: Option<string>, multiKeyMode: Option<string>)

  /** What the edit takes from elsewhere: parsed data, and how replacing the keys changes status and its note. */
  datatype Server = Server(env: Env, status: int, note: Option<Value>)

  datatype EditError = PermissionDenied | SettingsInvalid | ModeInvalid | KeysInvalid

  datatype Edit = Edited(row: Row) | Rejected(error: EditError)

  const ALL_COLUMNS: seq<Column> :=
    [Type, Key, OpenAIOrganization, TestModel, Name, Weight, BaseURL, Other, Models, Group, ModelMapping,
     StatusCodeMapping, Priority, AutoBan, OtherInfo, Tag, Setting, ParamOverride, HeaderOverride, Remark, Settings]

  lemma AllColumnsListed(c: Column)
    ensures c in ALL_COLUMNS
  {
    match c
    case Type => assert ALL_COLUMNS[0] == c;
    case Key => assert ALL_COLUMNS[1] == c;
    case OpenAIOrganization => assert ALL_COLUMNS[2] == c;
    case TestModel => assert ALL_COLUMNS[3] == c;
    case Name => assert ALL_COLUMNS[4] == c;
    case Weight => assert ALL_COLUMNS[5] == c;
    case BaseURL => assert ALL_COLUMNS[6] == c;
    case Other => assert ALL_COLUMNS[7] == c;
    case Models => assert ALL_COLUMNS[8] == c;
    case Group => assert ALL_COLUMNS[9] == c;
    case ModelMapping => assert ALL_COLUMNS[10] == c;
    case StatusCodeMapping => assert ALL_COLUMNS[11] == c;
    case Priority => assert ALL_COLUMNS[12] == c;
    case AutoBan => assert ALL_COLUMNS[13] == c;
    case OtherInfo => assert ALL_COLUMNS[14] == c;
    case Tag => assert ALL_COLUMNS[15] == c;
    case Setting => assert ALL_COLUMNS[16] == c;
    case ParamOverride => assert ALL_COLUMNS[17] == c;
    case HeaderOverride => assert ALL_COLUMNS[18] == c;
    case Remark => assert ALL_COLUMNS[19] == c;
    case Settings => assert ALL_COLUMNS[20] == c;
  }

  function At(cells: map<Column, Value>, c: Column): Value {
    if c in cells then cells[c] else Null
  }

  // ---------------------------------------------------------------- merging with the locked row

  /** How a column's values are compared; settings texts are trimmed first. */
  predicate Same(c: Column, v: Value, w: Value) {
    if c == Settings then SameTrimmed(RawOf(v), RawOf(w)) else v == w
  }

  /** The client sent back what it had loaded, and somebody else has changed it since. */
  predicate StaleNoop(q: Request, stale: Row, locked: Row, c: Column) {
    Same(c, At(q.cells, c), Cell(stale, c)) && !Same(c, Cell(locked, c), Cell(stale, c))
  }

  predicate InEffect(q: Request, stale: Row, locked: Row, f: Field) {
    f in q.fields && !(f.Col? && StaleNoop(q, stale, locked, f.column))
  }

  function Effective(q: Request, stale: Row, locked: Row): set<Field> {
    set f | f in q.fields && InEffect(q, stale, locked, f)
  }

  function MergedCell(q: Request, stale: Row, locked: Row, c: Column): Value {
    if InEffect(q, stale, locked, Col(c)) then At(q.cells, c) else Cell(locked, c)
  }

  function MergedCells(q: Request, stale: Row, locked: Row): map<Column, Value> {
    map c | c in ALL_COLUMNS :: MergedCell(q, stale, locked, c)
  }

  function ModeInfo(info: Info, mode: Option<string>): Info {
    if mode.Some? && mode.value != "" then info.(mode := mode.value) else info
  }

  // ---------------------------------------------------------------- reconciling the settings text

  predicate Differs(eff: set<Field>, c: Column, v: Value, w: Value) {
    Col(c) in eff && v != w
  }

  /** channelUpstreamModelSourceChangedForUpdate */
  predicate SourceChangedBy(cells: map<Column, Value>, locked: Row, mode: Option<string>, eff: set<Field>) {
    || Differs(eff, Type, At(cells, Type), Cell(locked, Type))
    || Differs(eff, Key, At(cells, Key), Cell(locked, Key))
    || Differs(eff, BaseURL, At(cells, BaseURL), Cell(locked, BaseURL))
    || Differs(eff, Other, At(cells, Other), Cell(locked, Other))
    || (Col(Models) in eff && Normalize(ModelsOf(locked)) != Normalize(GetModels(TextOf(At(cells, Models)))))
    || Differs(eff, ModelMapping, At(cells, ModelMapping), Cell(locked, ModelMapping))
    || Differs(eff, Setting, At(cells, Setting), Cell(locked, Setting))
    || Differs(eff, HeaderOverride, At(cells, HeaderOverride), Cell(locked, HeaderOverride))
    || (MultiKeyModeField in eff && mode.Some? && Trim(mode.value) != "" && locked.info.mode != Trim(mode.value))
    || (Col(Settings) in eff && SourceSettingsChanged(SettingsOf(locked), RawOf(At(cells, Settings))))
  }

  /** The settings value the edit arrives at, and whether it is to be written. */
  datatype Settled = Settled(value: Value, written: bool) | Unsettled

  function Settle(cells: map<Column, Value>, info: Info, locked: Row, mode: Option<string>, eff: set<Field>): Settled {
    var asked := Col(Settings) in eff;
    var sent := At(cells, Settings);
    if !Supports(KindOf(At(cells, Type)), info) then
      var toClean := if asked then RawOf(sent) else SettingsOf(locked);
      var cleaned := WithoutSyncKeys(toClean);
      if cleaned.None? then (if asked then Unsettled else Settled(sent, false))
      else if ContainsSyncKeys(toClean) then Settled(Config(cleaned.value), true)
      else Settled(sent, asked)
    else
      var changed := SourceChangedBy(cells, locked, mode, eff);
      if asked then Settled(Config(MergeRuntime(RawOf(sent), SettingsOf(locked), changed)), true)
      else if changed && ClearForSourceChange(SettingsOf(locked)).Some? then
        Settled(Config(ClearForSourceChange(SettingsOf(locked)).value), true)
      else Settled(sent, false)
  }

  // ---------------------------------------------------------------- what needs permission

  const SENSITIVE_COLUMNS: set<Column> :=
    {Type, Key, BaseURL, OpenAIOrganization, HeaderOverride, ParamOverride, Setting, Other}

  predicate SettingsSensitive(cells: map<Column, Value>, info: Info, locked: Row) {
    var mine, theirs := RawOf(At(cells, Settings)), SettingsOf(locked);
    mine != theirs &&
    if Supports(KindOf(At(cells, Type)), info) then !SameSourceSettings(mine, theirs)
    else !SameWithoutSyncKeys(mine, theirs)
  }

  /** channelHasSensitiveChanges; a field nobody has classified counts as sensitive. */
  predicate HasSensitiveChanges(cells: map<Column, Value>, info: Info, keyMode: Option<string>, locked: Row,
                                fields: set<Field>) {
    || (exists c :: c in SENSITIVE_COLUMNS && Differs(fields, c, At(cells, c), Cell(locked, c)))
    || (Col(Settings) in fields && SettingsSensitive(cells, info, locked))
    || (KeyModeField in fields && keyMode.Some?)
    || (exists f :: f in fields && f.Unknown?)
  }

  /** The fields whose changes are the client's own. */
  function Attributed(eff: set<Field>, asked: bool, sent: Raw, locked: Row): set<Field> {
    if !asked || SameSourceSettings(SettingsOf(locked), sent) then eff - {Col(Settings)} else eff
  }

  // ---------------------------------------------------------------- keys

  predicate ReadsVertexKeys(cells: map<Column, Value>) {
    var f := ParseFields(RawOf(At(cells, Settings)));
    KindOf(At(cells, Type)) == VERTEX_AI && !(f.Some? && Get(f.value, Named("vertex_key_type")) == JText("api_key"))
  }

  /** The submitted keys; none if they do not parse. */
  function SubmittedKeys(env: Env, cells: map<Column, Value>): Option<seq<string>> {
    var key := TextOf(At(cells, Key));
    if ReadsVertexKeys(cells) then
      if "[" <= Trim(key) then (if key in env.vertexKeys then Some(env.vertexKeys[key]) else None)
      else Some([key])
    else Some(TrimAll(Split(key, '\n')))
  }

  /**
   Keys are submitted one a line; only for a Vertex channel that does not use API keys the text is one key, or a list
   of keys if it begins with a bracket.
   */
  lemma SubmittedKeysMeans(env: Env, cells: map<Column, Value>, x: string)
    ensures var key, f := TextOf(At(cells, Key)), ParseFields(RawOf(At(cells, Settings)));
      var apiKeys := f.Some? && Get(f.value, Named("vertex_key_type")) == JText("api_key");
      var lines := KindOf(At(cells, Type)) != 41 || apiKeys;
      && (lines ==> SubmittedKeys(env, cells).Some?)
      && (lines ==>
           (x in SubmittedKeys(env, cells).value <==> x != "" && exists s :: s in Split(key, '\n') && x == Trim(s)))
      && (!lines && !("[" <= Trim(key)) ==> SubmittedKeys(env, cells) == Some([key]))
      && (!lines && "[" <= Trim(key) ==>
           SubmittedKeys(env, cells) == if key in env.vertexKeys then Some(env.vertexKeys[key]) else None)
  {
    hide Split, ParseFields;
    var parts := Split(TextOf(At(cells, Key)), '\n');
    TrimmedLine(parts, x);
  }

  lemma TrimmedLine(parts: seq<string>, x: string)
    ensures x in TrimAll(parts) <==> x != "" && exists line :: line in parts && x == Trim(line)
  {
    TrimAllIs(parts);
    if line :| line in parts && x == Trim(line) {
      var i :| 0 <= i < |parts| && parts[i] == line;
      assert TrimEach(parts)[i] == x;
    }
    if x in TrimEach(parts) {
      var i :| 0 <= i < |parts| && TrimEach(parts)[i] == x;
      assert parts[i] in parts;
    }
  }

  predicate Appends(q: Request, locked: Row) {
    q.keyMode == Some("append") && locked.info.isMultiKey && TextOf(Cell(locked, Key)) != ""
  }

  predicate Replaces(q: Request, cells: map<Column, Value>, locked: Row) {
    q.keyMode == Some("replace") && locked.info.isMultiKey && Trim(TextOf(At(cells, Key))) != ""
  }

  /** The key text an append makes of the stored keys and the submitted ones. */
  function AppendedText(env: Env, locked: Row, submitted: seq<string>): string {
    Join(AppendedKeys(KeyList(env, TextOf(Cell(locked, Key))), submitted), '\n')
  }

  // ---------------------------------------------------------------- the edit as a whole

  /** Cells after keys were appended or replaced. */
  function KeyedCells(srv: Server, q: Request, cells: map<Column, Value>, locked: Row): Option<map<Column, Value>> {
    if Appends(q, locked) then
      var submitted := SubmittedKeys(srv.env, cells);
      if submitted.None? then None
      else Some(cells[Key := Str(AppendedText(srv.env, locked, submitted.value))])
    else if Replaces(q, cells, locked) && srv.note.Some? then Some(cells[OtherInfo := srv.note.value])
    else Some(cells)
  }

  predicate ModeRejected(mode: Option<string>) {
    mode.Some? && mode.value != "" && Trim(mode.value) != "random" && Trim(mode.value) != "polling"
  }

  /** prepareForUpdate: lists are stored normalized. */
  function Prepared(c: Column, v: Value): Value {
    if c == Models || c == Group then Str(Join(GetModels(TextOf(v)), ',')) else v
  }

  function KeyCount(env: Env, cells: map<Column, Value>, locked: Row): nat {
    var key := TextOf(At(cells, Key));
    |KeyList(env, if key != "" then key else TextOf(Cell(locked, Key)))|
  }

  /** The key bookkeeping after a key mode was applied: replaced keys start out enabled. */
  function KeyedInfo(q: Request, cells: map<Column, Value>, locked: Row): Info {
    var named := q.multiKeyMode.Some? && q.multiKeyMode.value != "";
    var info := if named then locked.info.(mode := Trim(q.multiKeyMode.value)) else locked.info;
    if Replaces(q, cells, locked) then info.(statusList := map[]) else info
  }

  function PreparedInfo(env: Env, info: Info, cells: map<Column, Value>, locked: Row): Info {
    if !info.isMultiKey then info
    else
      var n := KeyCount(env, cells, locked);
      info.(size := n, statusList := map i | i in info.statusList && i < n :: info.statusList[i])
  }

  function WrittenInfo(env: Env, q: Request, merged: map<Column, Value>, cells: map<Column, Value>, locked: Row): Info {
    PreparedInfo(env, KeyedInfo(q, merged, locked), cells, locked)
  }

  function WrittenCell(cells: map<Column, Value>, locked: Row, eff: set<Field>, c: Column): Value {
    if Col(c) in eff then Prepared(c, At(cells, c))
    else if c == OtherInfo then At(cells, c)
    else Cell(locked, c)
  }

  function WrittenCells(cells: map<Column, Value>, locked: Row, eff: set<Field>): map<Column, Value> {
    map c | c in ALL_COLUMNS :: WrittenCell(cells, locked, eff, c)
  }

  function SettledFor(q: Request, stale: Row, locked: Row): Settled {
    Settle(MergedCells(q, stale, locked), ModeInfo(locked.info, q.multiKeyMode), locked, q.multiKeyMode,
           Effective(q, stale, locked))
  }

  /** The merged cells with the settings text reconciled, and the fields in effect then. */
  function FullCells(q: Request, stale: Row, locked: Row): map<Column, Value> {
    var settled := SettledFor(q, stale, locked);
    if settled.Settled? then MergedCells(q, stale, locked)[Settings := settled.value] else MergedCells(q, stale, locked)
  }

  function FullEffect(q: Request, stale: Row, locked: Row): set<Field> {
    var settled := SettledFor(q, stale, locked);
    if settled.Settled? && settled.written then Effective(q, stale, locked) + {Col(Settings)}
    else Effective(q, stale, locked)
  }

  function ClientFields(q: Request, stale: Row, locked: Row): set<Field> {
    Attributed(FullEffect(q, stale, locked), Col(Settings) in Effective(q, stale, locked),
               RawOf(At(MergedCells(q, stale, locked), Settings)), locked)
  }

  predicate NeedsPermission(q: Request, stale: Row, locked: Row) {
    HasSensitiveChanges(FullCells(q, stale, locked), ModeInfo(locked.info, q.multiKeyMode), q.keyMode, locked,
                        ClientFields(q, stale, locked))
  }

  /** updateChannelColumnsWithLockedState, as a function of the locked row. */
  function EditRow(srv: Server, q: Request, stale: Row, locked: Row, can: bool): Edit {
    if SettledFor(q, stale, locked).Unsettled? then Rejected(SettingsInvalid)
    else if NeedsPermission(q, stale, locked) && !can then Rejected(PermissionDenied)
    else if ModeRejected(q.multiKeyMode) then Rejected(ModeInvalid)
    else
      var cells := FullCells(q, stale, locked);
      var keyed := KeyedCells(srv, q, cells, locked);
      if keyed.None? then Rejected(KeysInvalid)
      else Edited(Row(locked.id, srv.status, WrittenInfo(srv.env, q, cells, keyed.value, locked),
                      WrittenCells(keyed.value, locked, FullEffect(q, stale, locked))))
  }

  // ---------------------------------------------------------------- three-way merge

  /** The client sent this column, with a value other than the one it had loaded. */
  predicate Changes(q: Request, stale: Row, c: Column) {
    Col(c) in q.fields && At(q.cells, c) != Cell(stale, c)
  }

  function ThreeWay(q: Request, stale: Row, locked: Row, c: Column): Value {
    if Changes(q, stale, c) then At(q.cells, c) else Cell(locked, c)
  }

  /** Columns that are stored as sent: no list, no settings text, and not rewritten by a key mode. */
  predicate Plain(q: Request, c: Column) {
    c != Settings && c != Models && c != Group && (q.keyMode.Some? ==> c != Key && c != OtherInfo)
  }

  predicate ListColumn(c: Column) {
    c == Models || c == Group
  }

  lemma MergedIsThreeWay(q: Request, stale: Row, locked: Row, c: Column)
    requires c != Settings
    ensures MergedCell(q, stale, locked, c) == ThreeWay(q, stale, locked, c)
  {
  }

  lemma FullCell(q: Request, stale: Row, locked: Row, c: Column)
    requires c != Settings
    ensures At(FullCells(q, stale, locked), c) == MergedCell(q, stale, locked, c)
    ensures Col(c) in FullEffect(q, stale, locked) <==> InEffect(q, stale, locked, Col(c))
  {
    hide SettledFor, StaleNoop;
    AllColumnsListed(c);
  }

  lemma KeyedCell(srv: Server, q: Request, cells: map<Column, Value>, locked: Row, c: Column)
    requires q.keyMode.Some? ==> c != Key && c != OtherInfo
    ensures KeyedCells(srv, q, cells, locked).Some? ==> At(KeyedCells(srv, q, cells, locked).value, c) == At(cells, c)
  {
    hide SubmittedKeys, AppendedText, KeyList;
  }

  /** What the edit leaves in one column. */
  lemma EditedCell(srv: Server, q: Request, stale: Row, locked: Row, can: bool, c: Column)
    requires EditRow(srv, q, stale, locked, can).Edited? && c != Settings &&
             (q.keyMode.Some? ==> c != Key && c != OtherInfo)
    ensures Cell(EditRow(srv, q, stale, locked, can).row, c) ==
      if InEffect(q, stale, locked, Col(c)) then Prepared(c, At(q.cells, c)) else Cell(locked, c)
  {
    hide NeedsPermission, SettledFor, InEffect, FullCells, FullEffect, KeyedCells, WrittenInfo, Prepared;
    AllColumnsListed(c);
    KeyedCell(srv, q, FullCells(q, stale, locked), locked, c);
    FullCell(q, stale, locked, c);
  }

  /** Each plain column ends as the client's value if the client changed it, and as the locked value otherwise. */
  lemma EditIsThreeWayMerge(srv: Server, q: Request, stale: Row, locked: Row, can: bool, c: Column)
    requires EditRow(srv, q, stale, locked, can).Edited?
    ensures Plain(q, c) ==> Cell(EditRow(srv, q, stale, locked, can).row, c) == ThreeWay(q, stale, locked, c)
    ensures ListColumn(c) ==>
      GetModels(TextOf(Cell(EditRow(srv, q, stale, locked, can).row, c))) ==
      GetModels(TextOf(ThreeWay(q, stale, locked, c)))
  {
    hide EditRow, GetModels;
    if Plain(q, c) || ListColumn(c) {
      EditedCell(srv, q, stale, locked, can, c);
      MergedIsThreeWay(q, stale, locked, c);
      NormalizedText(TextOf(At(q.cells, c)));
    }
  }

  /** Model and group lists that an edit writes are stored in their normal form. */
  lemma WrittenListsAreNormal(srv: Server, q: Request, stale: Row, locked: Row, can: bool, c: Column)
    requires EditRow(srv, q, stale, locked, can).Edited? && ListColumn(c) && InEffect(q, stale, locked, Col(c))
    ensures var text := TextOf(Cell(EditRow(srv, q, stale, locked, can).row, c));
      text == Join(GetModels(text), ',') && GetModels(text) == GetModels(TextOf(At(q.cells, c)))
  {
    hide EditRow, GetModels, InEffect, Join;
    EditedCell(srv, q, stale, locked, can, c);
    NormalizedText(TextOf(At(q.cells, c)));
  }

  predicate DisjointChanges(q1: Request, q2: Request, stale: Row) {
    forall c :: !(Changes(q1, stale, c) && Changes(q2, stale, c))
  }

  /**
   Two edits that started from the same loaded row and change different columns commute, and neither loses what
   the other wrote.
   */
  lemma DisjointEditsCommute(srv: Server, q1: Request, q2: Request, stale: Row, locked: Row, can1: bool, can2: bool,
                             c: Column)
    requires DisjointChanges(q1, q2, stale)
    requires EditRow(srv, q1, stale, locked, can1).Edited?
    requires EditRow(srv, q2, stale, locked, can2).Edited?
    requires EditRow(srv, q2, stale, EditRow(srv, q1, stale, locked, can1).row, can2).Edited?
    requires EditRow(srv, q1, stale, EditRow(srv, q2, stale, locked, can2).row, can1).Edited?
    ensures var both := EditRow(srv, q2, stale, EditRow(srv, q1, stale, locked, can1).row, can2).row;
      var swapped := EditRow(srv, q1, stale, EditRow(srv, q2, stale, locked, can2).row, can1).row;
      var merged := if Changes(q1, stale, c) then At(q1.cells, c)
                    else if Changes(q2, stale, c) then At(q2.cells, c)
                    else Cell(locked, c);
      && (Plain(q1, c) && Plain(q2, c) ==> Cell(both, c) == Cell(swapped, c) == merged)
      && (ListColumn(c) ==>
            GetModels(TextOf(Cell(both, c))) == GetModels(TextOf(Cell(swapped, c))) == GetModels(TextOf(merged)))
  {
    hide EditRow, GetModels, Plain, ListColumn, Changes;
    var first, second := EditRow(srv, q1, stale, locked, can1).row, EditRow(srv, q2, stale, locked, can2).row;
    EditIsThreeWayMerge(srv, q1, stale, locked, can1, c);
    EditIsThreeWayMerge(srv, q2, stale, locked, can2, c);
    EditIsThreeWayMerge(srv, q2, stale, first, can2, c);
    EditIsThreeWayMerge(srv, q1, stale, second, can1, c);
  }

  // ---------------------------------------------------------------- the frame of an unprivileged edit

  /** A key mode was read from the field of that name, or from a spelling of it that no field list knows. */
  predicate WellDecoded(q: Request) {
    q.keyMode.Some? ==> KeyModeField in q.fields || exists f :: f in q.fields && f.Unknown?
  }

  lemma ClientField(q: Request, stale: Row, locked: Row, f: Field)
    requires f != Col(Settings)
    ensures f in ClientFields(q, stale, locked) <==> InEffect(q, stale, locked, f)
  {
    hide SettledFor, StaleNoop, SameSourceSettings;
  }

  lemma KeyModeNeedsPermission(q: Request, stale: Row, locked: Row)
    requires WellDecoded(q) && q.keyMode.Some?
    ensures NeedsPermission(q, stale, locked)
  {
    hide FullCells, SettingsSensitive, ClientFields, StaleNoop;
    if KeyModeField in q.fields {
      ClientField(q, stale, locked, KeyModeField);
    } else {
      var f :| f in q.fields && f.Unknown?;
      ClientField(q, stale, locked, f);
    }
  }

  lemma SensitiveColumnNeedsPermission(q: Request, stale: Row, locked: Row, c: Column)
    requires c in SENSITIVE_COLUMNS && InEffect(q, stale, locked, Col(c)) && At(q.cells, c) != Cell(locked, c)
    ensures NeedsPermission(q, stale, locked)
  {
    hide SettingsSensitive, InEffect, FullCells, FullEffect, ClientFields;
    FullCell(q, stale, locked, c);
    ClientField(q, stale, locked, Col(c));
    assert Differs(ClientFields(q, stale, locked), c, At(FullCells(q, stale, locked), c), Cell(locked, c));
  }

  lemma PermissionNotNeeded(srv: Server, q: Request, stale: Row, locked: Row)
    requires EditRow(srv, q, stale, locked, false).Edited?
    ensures !NeedsPermission(q, stale, locked)
  {
    hide NeedsPermission, KeyedCells, WrittenInfo, WrittenCells, SettledFor, FullCells, FullEffect;
  }

  /** An edit without the permission for sensitive changes leaves every sensitive column as locked. */
  lemma UnprivilegedEditKeepsSensitiveColumns(srv: Server, q: Request, stale: Row, locked: Row, c: Column)
    requires WellDecoded(q) && c in SENSITIVE_COLUMNS
    requires EditRow(srv, q, stale, locked, false).Edited?
    ensures Cell(EditRow(srv, q, stale, locked, false).row, c) == Cell(locked, c)
  {
    hide InEffect, WellDecoded, EditRow, NeedsPermission;
    PermissionNotNeeded(srv, q, stale, locked);
    if q.keyMode.Some? {
      KeyModeNeedsPermission(q, stale, locked);
    }
    EditedCell(srv, q, stale, locked, false, c);
    if InEffect(q, stale, locked, Col(c)) && At(q.cells, c) != Cell(locked, c) {
      SensitiveColumnNeedsPermission(q, stale, locked, c);
    }
  }

  /** Spelled out: these columns are out of reach without the permission. */
  lemma UnprivilegedEditIsConfined(srv: Server, q: Request, stale: Row, locked: Row)
    requires WellDecoded(q) && EditRow(srv, q, stale, locked, false).Edited?
    ensures var row := EditRow(srv, q, stale, locked, false).row;
      && Cell(row, Type) == Cell(locked, Type) && Cell(row, Key) == Cell(locked, Key)
      && Cell(row, BaseURL) == Cell(locked, BaseURL)
      && Cell(row, OpenAIOrganization) == Cell(locked, OpenAIOrganization)
      && Cell(row, HeaderOverride) == Cell(locked, HeaderOverride)
      && Cell(row, ParamOverride) == Cell(locked, ParamOverride)
      && Cell(row, Setting) == Cell(locked, Setting) && Cell(row, Other) == Cell(locked, Other)
  {
    hide EditRow, WellDecoded;
    UnprivilegedEditKeepsSensitiveColumns(srv, q, stale, locked, Type);
    UnprivilegedEditKeepsSensitiveColumns(srv, q, stale, locked, Key);
    UnprivilegedEditKeepsSensitiveColumns(srv, q, stale, locked, BaseURL);
    UnprivilegedEditKeepsSensitiveColumns(srv, q, stale, locked, OpenAIOrganization);
    UnprivilegedEditKeepsSensitiveColumns(srv, q, stale, locked, HeaderOverride);
    UnprivilegedEditKeepsSensitiveColumns(srv, q, stale, locked, ParamOverride);
    UnprivilegedEditKeepsSensitiveColumns(srv, q, stale, locked, Setting);
    UnprivilegedEditKeepsSensitiveColumns(srv, q, stale, locked, Other);
  }

  /** Columns that anybody who may edit may change. */
  predicate IsFree(c: Column) {
    || c.TestModel? || c.Name? || c.Weight? || c.Models? || c.Group? || c.ModelMapping? || c.StatusCodeMapping?
    || c.Priority? || c.AutoBan? || c.OtherInfo? || c.Tag? || c.Remark?
  }

  /** An edit of these alone never needs it. */
  lemma FreeEditNeedsNoPermission(q: Request, stale: Row, locked: Row)
    requires forall f :: f in q.fields && f.Col? ==> IsFree(f.column)
    requires q.keyMode.None? && forall f :: f in q.fields ==> !f.Unknown?
    ensures !NeedsPermission(q, stale, locked)
  {
    hide NeedsPermission;
    forall c | c in SENSITIVE_COLUMNS ensures Col(c) !in q.fields {
    }
    InnocentEditNeedsNoPermission(q, stale, locked);
  }

  /** The client sends nothing sensitive but what it loaded. */
  predicate Innocent(q: Request, stale: Row) {
    && (forall c :: c in SENSITIVE_COLUMNS ==> !Changes(q, stale, c))
    && (Col(Settings) in q.fields ==> SameTrimmed(RawOf(At(q.cells, Settings)), SettingsOf(stale)))
    && (KeyModeField in q.fields ==> q.keyMode.None?)
    && (forall f :: f in q.fields ==> !f.Unknown?)
  }

  /** The settings as the check before the lock sees them: cleaned, if the channel they are for is unsupported. */
  function SettingsBeforeLock(q: Request, stale: Row): Raw {
    var sent := RawOf(At(q.cells, Settings));
    var kind := KindOf(if Col(Type) in q.fields then At(q.cells, Type) else Cell(stale, Type));
    if Supports(kind, stale.info) || WithoutSyncKeys(sent).None? then sent else WithoutSyncKeys(sent).value
  }

  /** The same check, made before the lock against the row the client loaded. */
  predicate NeedsPermissionBeforeLock(q: Request, stale: Row) {
    HasSensitiveChanges(q.cells[Settings := Config(SettingsBeforeLock(q, stale))], stale.info, q.keyMode, stale,
                        q.fields)
  }

  /** An innocent request passes the check before the lock; a type that was not sent decodes to zero. */
  lemma InnocentEditPassesBeforeLock(q: Request, stale: Row)
    requires Innocent(q, stale) && (Col(Type) !in q.fields ==> KindOf(At(q.cells, Type)) == 0)
    ensures !NeedsPermissionBeforeLock(q, stale)
  {
    hide WithoutSyncKeys, SameWithoutSyncKeys, SameSourceSettings;
    var cells := q.cells[Settings := Config(SettingsBeforeLock(q, stale))];
    assert forall c :: c in SENSITIVE_COLUMNS ==> At(cells, c) == At(q.cells, c);
    if Col(Settings) in q.fields {
      SameTextLaws(RawOf(At(q.cells, Settings)), SettingsOf(stale));
    }
  }

  lemma SameTextLaws(sent: Raw, theirs: Raw)
    requires SameTrimmed(sent, theirs)
    ensures SameSourceSettings(sent, theirs) && SameWithoutSyncKeys(sent, theirs)
    ensures WithoutSyncKeys(sent).Some? ==> SameWithoutSyncKeys(WithoutSyncKeys(sent).value, theirs)
  {
    WithoutSyncKeysLaws(sent);
  }

  /**
   Under the lock the permission is asked for only where the client changed something sensitive: sending back
   what was loaded needs none, whatever others have changed since and whatever the server does to the settings.
   */
  lemma InnocentEditNeedsNoPermission(q: Request, stale: Row, locked: Row)
    requires Innocent(q, stale)
    ensures !NeedsPermission(q, stale, locked)
  {
    hide FullCells, SettingsSensitive, ClientFields, SameSourceSettings, Settle, StaleNoop;
    forall c | c in SENSITIVE_COLUMNS
      ensures !Differs(ClientFields(q, stale, locked), c, At(FullCells(q, stale, locked), c), Cell(locked, c))
    {
      InnocentColumn(q, stale, locked, c);
    }
    InnocentSettings(q, stale, locked);
    ClientField(q, stale, locked, KeyModeField);
    forall f | f in ClientFields(q, stale, locked) ensures !f.Unknown? {
      ClientField(q, stale, locked, f);
    }
  }

  lemma InnocentColumn(q: Request, stale: Row, locked: Row, c: Column)
    requires c in SENSITIVE_COLUMNS && !Changes(q, stale, c)
    ensures !Differs(ClientFields(q, stale, locked), c, At(FullCells(q, stale, locked), c), Cell(locked, c))
  {
    hide FullCells, ClientFields, SettledFor;
    ClientField(q, stale, locked, Col(c));
    FullCell(q, stale, locked, c);
  }

  lemma InnocentSettings(q: Request, stale: Row, locked: Row)
    requires Col(Settings) in q.fields ==> SameTrimmed(RawOf(At(q.cells, Settings)), SettingsOf(stale))
    ensures Col(Settings) !in ClientFields(q, stale, locked)
  {
    hide FullEffect;
    AllColumnsListed(Settings);
  }

  // ---------------------------------------------------------------- the settings text

  lemma EditedSettings(srv: Server, q: Request, stale: Row, locked: Row, can: bool)
    requires EditRow(srv, q, stale, locked, can).Edited?
    ensures var settled := SettledFor(q, stale, locked);
      && settled.Settled?
      && Cell(EditRow(srv, q, stale, locked, can).row, Settings) ==
         if settled.written then settled.value else Cell(locked, Settings)
  {
    hide NeedsPermission, MergedCells, KeyedCells, WrittenInfo, Settle, InEffect;
    AllColumnsListed(Settings);
    KeyedCell(srv, q, FullCells(q, stale, locked), locked, Settings);
    AskedIsWritten(q, stale, locked);
  }

  lemma AskedIsWritten(q: Request, stale: Row, locked: Row)
    ensures Col(Settings) in Effective(q, stale, locked) && SettledFor(q, stale, locked).Settled? ==>
            SettledFor(q, stale, locked).written
  {
    hide MergedCells, InEffect, SourceChangedBy, MergeRuntime, WithoutSyncKeys, Supports, ClearForSourceChange,
         ContainsSyncKeys;
  }

  /** What settling makes of the text: its own keys stay, the six keys are the server's. */
  lemma SettleLaws(cells: map<Column, Value>, info: Info, locked: Row, mode: Option<string>, eff: set<Field>)
    requires Settle(cells, info, locked, mode, eff).Settled?
    requires Col(Settings) !in eff ==> At(cells, Settings) == Cell(locked, Settings)
    ensures var value, sent := RawOf(Settle(cells, info, locked, mode, eff).value), RawOf(At(cells, Settings));
      if sent.content.Malformed? then value == sent else !value.content.Malformed? && SameWithoutSyncKeys(value, sent)
  {
    hide SourceChangedBy, MergeRuntime, WithoutSyncKeys, ClearForSourceChange, SameWithoutSyncKeys, Decode;
    var sent := RawOf(At(cells, Settings));
    SameWithoutSyncKeysLaws(sent);
    MergeRuntimeLaws(sent, SettingsOf(locked), SourceChangedBy(cells, locked, mode, eff));
    WithoutSyncKeysLaws(sent);
    ClearedParses(sent);
  }

  lemma SameWithoutSyncKeysLaws(raw: Raw)
    ensures SameWithoutSyncKeys(raw, raw)
  {
  }

  lemma ClearedParses(raw: Raw)
    ensures ClearForSourceChange(raw).Some? ==> !raw.content.Malformed?
    ensures ClearForSourceChange(raw).Some? ==>
      !ClearForSourceChange(raw).value.content.Malformed? && SameWithoutSyncKeys(ClearForSourceChange(raw).value, raw)
    ensures WithoutSyncKeys(raw).Some? ==> !WithoutSyncKeys(raw).value.content.Malformed?
  {
    ClearForSourceChangeLaws(raw);
  }

  /** The client's text takes effect, and exactly one of it and the stored text is no JSON object. */
  predicate MixesUpText(q: Request, stale: Row, locked: Row) {
    && Col(Settings) in Effective(q, stale, locked)
    && RawOf(At(q.cells, Settings)).content.Malformed? != SettingsOf(locked).content.Malformed?
  }

  lemma SentSettings(q: Request, stale: Row, locked: Row)
    ensures At(MergedCells(q, stale, locked), Settings) ==
      if Col(Settings) in Effective(q, stale, locked) then At(q.cells, Settings) else Cell(locked, Settings)
  {
    AllColumnsListed(Settings);
  }

  /** Settings the caller may not change: what is left when no permission is needed. */
  lemma UnpermittedSettings(q: Request, stale: Row, locked: Row)
    requires SettledFor(q, stale, locked).Settled? && !NeedsPermission(q, stale, locked)
    requires Col(Settings) in Effective(q, stale, locked)
    ensures var value, sent := RawOf(SettledFor(q, stale, locked).value), RawOf(At(q.cells, Settings));
      || SameSourceSettings(SettingsOf(locked), sent)
      || value == SettingsOf(locked)
      || SameSourceSettings(value, SettingsOf(locked))
      || SameWithoutSyncKeys(value, SettingsOf(locked))
  {
    hide Settle, InEffect, MergedCells, SameSourceSettings, SameWithoutSyncKeys;
    SentSettings(q, stale, locked);
    AskedIsWritten(q, stale, locked);
    var cells := FullCells(q, stale, locked);
    assert At(cells, Settings) == SettledFor(q, stale, locked).value;
    if !SameSourceSettings(SettingsOf(locked), RawOf(At(q.cells, Settings))) {
      assert Col(Settings) in ClientFields(q, stale, locked);
      assert !SettingsSensitive(cells, ModeInfo(locked.info, q.multiKeyMode), locked);
    }
  }

  /**
   An edit without the permission leaves the settings as they were apart from the six synchronisation keys,
   exactly if the client did not send an object where the stored text is none, or the other way round.
   */
  lemma UnprivilegedEditKeepsSettingsIff(srv: Server, q: Request, stale: Row, locked: Row)
    requires EditRow(srv, q, stale, locked, false).Edited?
    ensures SameWithoutSyncKeys(SettingsOf(EditRow(srv, q, stale, locked, false).row), SettingsOf(locked)) <==>
            !MixesUpText(q, stale, locked)
  {
    hide EditRow, NeedsPermission, Settle, MergedCells, Effective, SameSourceSettings;
    var row := EditRow(srv, q, stale, locked, false).row;
    var l, sent := SettingsOf(locked), RawOf(At(q.cells, Settings));
    PermissionNotNeeded(srv, q, stale, locked);
    EditedSettings(srv, q, stale, locked, false);
    SentSettings(q, stale, locked);
    AskedIsWritten(q, stale, locked);
    SettleLaws(MergedCells(q, stale, locked), ModeInfo(locked.info, q.multiKeyMode), locked, q.multiKeyMode,
               Effective(q, stale, locked));
    if Col(Settings) in Effective(q, stale, locked) {
      var value := RawOf(SettledFor(q, stale, locked).value);
      UnpermittedSettings(q, stale, locked);
      if SameSourceSettings(l, sent) {
        SameSourceIsSameOutsideSync(l, sent);
      } else if SameSourceSettings(value, l) {
        SameSourceIsSameOutsideSync(value, l);
      }
    }
  }

  /** A stored text that is no JSON, and a request whose object quotes it under "__raw". */
  const BROKEN_ROW: Row := Row(1, 1, Info(false, 0, "", map[]), map[Settings := Config(Raw(0, Malformed("x")))])

  const QUOTING: Fields := map[Named("__raw") := JText("x")]

  const QUOTING_REQUEST: Request :=
    Request({Col(Settings)}, map[Settings := Config(Raw(0, Object(0, QUOTING)))], None, None)

  lemma QuotingMerges()
    ensures Effective(QUOTING_REQUEST, BROKEN_ROW, BROKEN_ROW) == {Col(Settings)}
    ensures At(MergedCells(QUOTING_REQUEST, BROKEN_ROW, BROKEN_ROW), Settings) == Config(Raw(0, Object(0, QUOTING)))
    ensures At(MergedCells(QUOTING_REQUEST, BROKEN_ROW, BROKEN_ROW), Type) == Null
  {
    var q, row := QUOTING_REQUEST, BROKEN_ROW;
    assert !StaleNoop(q, row, row, Settings);
    AllColumnsListed(Type);
    AllColumnsListed(Settings);
  }

  lemma QuotingSettles()
    ensures SettledFor(QUOTING_REQUEST, BROKEN_ROW, BROKEN_ROW) == Settled(Config(Raw(0, Object(0, QUOTING))), true)
  {
    hide SourceChangedBy, MergeRuntime, ClearForSourceChange, MergedCells, Effective;
    QuotingMerges();
    assert !HasSyncKeys(QUOTING);
  }

  lemma QuotingNeedsNoPermission()
    ensures !NeedsPermission(QUOTING_REQUEST, BROKEN_ROW, BROKEN_ROW)
  {
    hide Settle, MergedCells, Effective;
    var q, row := QUOTING_REQUEST, BROKEN_ROW;
    QuotingMerges();
    QuotingSettles();
    assert SourceFields(SettingsOf(row)) == SourceFields(Raw(0, Object(0, QUOTING)));
    assert ClientFields(q, row, row) == {};
  }

  /** Such a mix-up does get through. */
  lemma MixedUpTextGetsThrough(srv: Server)
    ensures EditRow(srv, QUOTING_REQUEST, BROKEN_ROW, BROKEN_ROW, false).Edited?
    ensures !SameWithoutSyncKeys(SettingsOf(EditRow(srv, QUOTING_REQUEST, BROKEN_ROW, BROKEN_ROW, false).row),
                                 SettingsOf(BROKEN_ROW))
  {
    hide Settle, MergedCells, Effective, NeedsPermission, SubmittedKeys, AppendedText, WrittenInfo, WrittenCells,
         SameWithoutSyncKeys;
    QuotingMerges();
    QuotingSettles();
    QuotingNeedsNoPermission();
    UnprivilegedEditKeepsSettingsIff(srv, QUOTING_REQUEST, BROKEN_ROW, BROKEN_ROW);
  }

  // ---------------------------------------------------------------- pending lists after an edit

  lemma EditedModels(srv: Server, q: Request, stale: Row, locked: Row, can: bool)
    requires EditRow(srv, q, stale, locked, can).Edited?
    ensures var cells := MergedCells(q, stale, locked);
      ModelsOf(EditRow(srv, q, stale, locked, can).row) ==
      if Col(Models) in Effective(q, stale, locked) then GetModels(TextOf(At(cells, Models))) else ModelsOf(locked)
  {
    hide EditRow, GetModels, StaleNoop;
    AllColumnsListed(Models);
    EditedCell(srv, q, stale, locked, can, Models);
    NormalizedText(TextOf(At(q.cells, Models)));
  }

  /** Pending lists after settling: none, or the stored ones with the stored models. */
  lemma SettledPending(cells: map<Column, Value>, info: Info, locked: Row, mode: Option<string>, eff: set<Field>)
    requires Settle(cells, info, locked, mode, eff).Settled?
    requires Col(Settings) !in eff ==> At(cells, Settings) == Cell(locked, Settings)
    ensures var settled := Settle(cells, info, locked, mode, eff);
      var s := Decode(RawOf(if settled.written then settled.value else Cell(locked, Settings)));
      || s.detected == s.removed == []
      || (&& s.detected == SyncOf(locked).detected && s.removed == SyncOf(locked).removed
          && (Col(Models) in eff ==> GetModels(TextOf(At(cells, Models))) == ModelsOf(locked)))
  {
    hide MergeRuntime, WithoutSyncKeys, ClearForSourceChange, SameWithoutSyncKeys, GetModels, Normalize,
         SourceSettingsChanged;
    var sent := RawOf(At(cells, Settings));
    var changed := SourceChangedBy(cells, locked, mode, eff);
    if Supports(KindOf(At(cells, Type)), info) {
      MergeRuntimeLaws(sent, SettingsOf(locked), changed);
      ClearForSourceChangeLaws(SettingsOf(locked));
      if !changed && Col(Models) in eff {
        GetModelsLaws(TextOf(At(cells, Models)));
        GetModelsLaws(TextOf(Cell(locked, Models)));
        NormalizeFixed(GetModels(TextOf(At(cells, Models))));
        NormalizeFixed(ModelsOf(locked));
      }
    } else {
      WithoutSyncKeysLaws(sent);
      WithoutSyncKeysLaws(SettingsOf(locked));
    }
  }

  /** An edit keeps the pending lists only together with the models they were computed for. */
  lemma EditKeepsFit(srv: Server, q: Request, stale: Row, locked: Row, can: bool)
    requires PendingFits(locked) && EditRow(srv, q, stale, locked, can).Edited?
    ensures PendingFits(EditRow(srv, q, stale, locked, can).row)
  {
    hide EditRow, Settle, MergedCells, Effective, Decode, ModelsOf, Normalize;
    var row := EditRow(srv, q, stale, locked, can).row;
    EditedModels(srv, q, stale, locked, can);
    EditedSettings(srv, q, stale, locked, can);
    SentSettings(q, stale, locked);
    SettledPending(MergedCells(q, stale, locked), ModeInfo(locked.info, q.multiKeyMode), locked, q.multiKeyMode,
                   Effective(q, stale, locked));
    NormalizeNothing();
  }
}
