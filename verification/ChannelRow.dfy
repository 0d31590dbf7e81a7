/** A channel as stored: its columns, and what the controller reads off them. */
module ChannelRow {
  import opened Text
  import opened ModelNames
  import opened ChannelSettings

  datatype Column =
    | Type | Key | OpenAIOrganization | TestModel | Name | Weight | BaseURL | Other | Models | Group | ModelMapping
    | StatusCodeMapping | Priority | AutoBan | OtherInfo | Tag | Setting | ParamOverride | HeaderOverride
    | Remark | Settings

  /** A column's value; Null is a nil pointer. */
  datatype Value = Null | Num(n: int) | Str(s: string) | Config(raw: Raw)

  datatype Info = Info(isMultiKey: bool, size: nat, mode: string, statusList: map<nat, int>)

  datatype Row = Row(id: int, status: int, info: Info, cells: map<Column, Value>)

  /**
   Data the controller gets from elsewhere: default base URLs by channel type, the lasting part of Codex
   credentials, parsed and normalized model mappings, key lists written as JSON arrays, and which
   patterns match which names.
   */
  datatype Env = Env(
    baseUrls: seq<string>, credentials: map<string, string>, mappings: map<string, map<string, string>>,
    jsonKeys: map<string, seq<string>>, vertexKeys: map<string, seq<string>>, matches: iset<(string, string)>)

  function Cell(row: Row, c: Column): Value {
    if c in row.cells then row.cells[c] else Null
  }

  function With(row: Row, c: Column, v: Value): Row {
    row.(cells := row.cells[c := v])
  }

  /** The string in a column, empty for a nil pointer. */
  function TextOf(v: Value): string {
    if v.Str? then v.s else ""
  }

  function RawOf(v: Value): Raw {
    if v.Config? then v.raw else Raw(0, Blank)
  }

  function KindOf(v: Value): int {
    if v.Num? then v.n else 0
  }

  function SettingsOf(row: Row): Raw {
    RawOf(Cell(row, Settings))
  }

  function SyncOf(row: Row): Sync {
    Decode(SettingsOf(row))
  }

  function ModelsOf(row: Row): seq<string> {
    GetModels(TextOf(Cell(row, Models)))
  }

  const ENABLED_STATUS: int := 1
  const CODEX: int := 57
  const VERTEX_AI: int := 41

  const SUPPORTED_TYPES: set<int> :=
    {1, 4, 14, 17, 20, 23, 24, 25, 26, 27, 31, 34, 35, 40, 42, 43, 45, 47, 48, 57, 58, 59, 60}

  predicate Supports(kind: int, info: Info) {
    kind in SUPPORTED_TYPES && !info.isMultiKey
  }

  predicate RowSupports(row: Row) {
    Supports(KindOf(Cell(row, Type)), row.info)
  }

  /** normalizeChannelModelMapping */
  function MappingOf(env: Env, row: Row): map<string, string> {
    var raw := Trim(TextOf(Cell(row, ModelMapping)));
    if raw == "" || raw == "{}" || raw !in env.mappings then map[] else env.mappings[raw]
  }

  function TrimSlashes(s: string): string {
    if s != [] && s[|s| - 1] == '/' then TrimSlashes(s[..|s| - 1]) else s
  }

  function BaseUrlOf(env: Env, row: Row): string {
    var url, kind := TextOf(Cell(row, BaseURL)), KindOf(Cell(row, Type));
    TrimSlashes(Trim(if Trim(url) == "" && 0 <= kind < |env.baseUrls| then env.baseUrls[kind] else url))
  }

  /** Two Codex keys are the same source if only their tokens differ. */
  predicate SameSourceKey(env: Env, a: Row, b: Row) {
    var k, l := TextOf(Cell(a, Key)), TextOf(Cell(b, Key));
    if KindOf(Cell(a, Type)) != CODEX || KindOf(Cell(b, Type)) != CODEX then k == l
    else (if k in env.credentials then env.credentials[k] else k) ==
         (if l in env.credentials then env.credentials[l] else l)
  }

  /** sameChannelUpstreamModelSource: the stored model list is not part of it. */
  predicate SameSource(env: Env, a: Row, b: Row) {
    && a.id == b.id
    && Cell(a, Type) == Cell(b, Type)
    && SameSourceKey(env, a, b)
    && BaseUrlOf(env, a) == BaseUrlOf(env, b)
    && Cell(a, Other) == Cell(b, Other)
    && SameSourceSettings(SettingsOf(a), SettingsOf(b))
    && TextOf(Cell(a, ModelMapping)) == TextOf(Cell(b, ModelMapping))
    && TextOf(Cell(a, Setting)) == TextOf(Cell(b, Setting))
    && TextOf(Cell(a, HeaderOverride)) == TextOf(Cell(b, HeaderOverride))
    && a.info == b.info
  }
}
