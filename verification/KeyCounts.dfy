/** The key count that an edit stores with a multi-key channel (controller/channel.go, model/channel.go). */
module KeyCounts {
  import opened Wrappers
  import opened Text
  import opened ModelNames
  import opened ChannelSettings
  import opened ChannelRow
  import opened ChannelKeys
  import opened ChannelEdit

  /** The key text the edit works with: what was merged, with the submitted keys appended if that is asked for. */
  function WorkedKey(srv: Server, q: Request, stale: Row, locked: Row): string {
    var submitted := SubmittedKeys(srv.env, FullCells(q, stale, locked));
    if Appends(q, locked) && submitted.Some? then AppendedText(srv.env, locked, submitted.value)
    else TextOf(MergedCell(q, stale, locked, Key))
  }

  /**
   The edit stores an empty key text over keys that it then counts; or it appends to a key text that it does not
   store, and appending changes how many keys are read.
   */
  predicate Miscounts(srv: Server, q: Request, stale: Row, locked: Row) {
    var existing := KeyList(srv.env, TextOf(Cell(locked, Key)));
    var submitted := SubmittedKeys(srv.env, FullCells(q, stale, locked));
    if InEffect(q, stale, locked, Col(Key)) then WorkedKey(srv, q, stale, locked) == "" && existing != []
    else Appends(q, locked) && submitted.Some? && AppendChangesCount(srv.env, existing, submitted.value)
  }

  lemma WorkedKeyIsKeyed(srv: Server, q: Request, stale: Row, locked: Row)
    ensures var keyed := KeyedCells(srv, q, FullCells(q, stale, locked), locked);
      keyed.Some? ==> TextOf(At(keyed.value, Key)) == WorkedKey(srv, q, stale, locked)
  {
    hide FullCells, SubmittedKeys, AppendedText, MergedCell;
    FullCell(q, stale, locked, Key);
  }

  lemma EditedKey(srv: Server, q: Request, stale: Row, locked: Row, can: bool)
    requires EditRow(srv, q, stale, locked, can).Edited?
    ensures TextOf(Cell(EditRow(srv, q, stale, locked, can).row, Key)) ==
      if InEffect(q, stale, locked, Col(Key)) then WorkedKey(srv, q, stale, locked) else TextOf(Cell(locked, Key))
  {
    hide NeedsPermission, SettledFor, InEffect, FullCells, FullEffect, KeyedCells, WrittenInfo, WorkedKey;
    AllColumnsListed(Key);
    FullCell(q, stale, locked, Key);
    WorkedKeyIsKeyed(srv, q, stale, locked);
  }

  lemma EditedSize(srv: Server, q: Request, stale: Row, locked: Row, can: bool)
    requires EditRow(srv, q, stale, locked, can).Edited? && locked.info.isMultiKey
    ensures var row, worked := EditRow(srv, q, stale, locked, can).row, WorkedKey(srv, q, stale, locked);
      && row.info.isMultiKey
      && row.info.size == |KeyList(srv.env, if worked != "" then worked else TextOf(Cell(locked, Key)))|
      && (forall i :: i in row.info.statusList ==>
           i < row.info.size && i in locked.info.statusList && row.info.statusList[i] == locked.info.statusList[i])
      && (q.keyMode != Some("replace") ==>
            forall i :: i in locked.info.statusList && i < row.info.size ==> i in row.info.statusList)
  {
    hide NeedsPermission, SettledFor, FullCells, FullEffect, KeyedCells, WrittenCells, KeyList, WorkedKey;
    WorkedKeyIsKeyed(srv, q, stale, locked);
  }

  /**
   A disabled key stays disabled as long as it is counted, unless the keys are replaced, which enables them all; and
   the mode is the one asked for, trimmed, or stays.
   */
  lemma DisabledKeysStay(srv: Server, q: Request, stale: Row, locked: Row, can: bool)
    requires EditRow(srv, q, stale, locked, can).Edited?
    ensures var row := EditRow(srv, q, stale, locked, can).row;
      var asked := q.multiKeyMode.Some? && q.multiKeyMode.value != "";
      var sent := Trim(TextOf(MergedCell(q, stale, locked, Key))) != "";
      var replaced := q.keyMode == Some("replace") && locked.info.isMultiKey && sent;
      && row.info.isMultiKey == locked.info.isMultiKey
      && row.info.mode == (if asked then Trim(q.multiKeyMode.value) else locked.info.mode)
      && (row.info.mode != locked.info.mode ==> row.info.mode == "random" || row.info.mode == "polling")
      && (replaced ==> row.info.statusList == map[])
      && (q.keyMode != Some("replace") ==>
            forall i :: i in locked.info.statusList && (locked.info.isMultiKey ==> i < row.info.size) ==>
              i in row.info.statusList && row.info.statusList[i] == locked.info.statusList[i])
  {
    hide NeedsPermission, SettledFor, FullCells, FullEffect, KeyedCells, WrittenCells, KeyList, KeyCount, Trim;
    FullCell(q, stale, locked, Key);
  }

  /**
   After any edit, the size stored for a multi-key channel is the number of keys read from its stored text,
   exactly unless the edit miscounts; disabled keys lie within the size.
   */
  lemma KeyCountMatchesIff(srv: Server, q: Request, stale: Row, locked: Row, can: bool)
    requires EditRow(srv, q, stale, locked, can).Edited? && locked.info.isMultiKey
    ensures var row := EditRow(srv, q, stale, locked, can).row;
      && row.info.isMultiKey
      && (forall i :: i in row.info.statusList ==>
            i < row.info.size && i in locked.info.statusList && row.info.statusList[i] == locked.info.statusList[i])
      && (row.info.size == |KeyList(srv.env, TextOf(Cell(row, Key)))| <==> !Miscounts(srv, q, stale, locked))
  {
    hide EditRow, InEffect, Appends, WorkedKey, KeyList, AppendChangesCount, SubmittedKeys, FullCells;
    EditedKey(srv, q, stale, locked, can);
    EditedSize(srv, q, stale, locked, can);
    KeyListed(srv.env);
    if !InEffect(q, stale, locked, Col(Key)) {
      WorkedUnsent(srv, q, stale, locked);
    }
  }

  lemma KeyListed(env: Env)
    ensures KeyList(env, "") == []
  {
  }

  /** What the edit counts when it does not store the key column. */
  lemma WorkedUnsent(srv: Server, q: Request, stale: Row, locked: Row)
    requires !InEffect(q, stale, locked, Col(Key))
    ensures var worked, kept := WorkedKey(srv, q, stale, locked), TextOf(Cell(locked, Key));
      |KeyList(srv.env, if worked != "" then worked else kept)| != |KeyList(srv.env, kept)| <==>
      Miscounts(srv, q, stale, locked)
  {
    hide FullCells, InEffect, KeyList, AppendChangesCount, SubmittedKeys;
    var existing := KeyList(srv.env, TextOf(Cell(locked, Key)));
    var submitted := SubmittedKeys(srv.env, FullCells(q, stale, locked));
    KeyListTrimmed(srv.env, TextOf(Cell(locked, Key)));
    if Appends(q, locked) && submitted.Some? {
      AppendChangesCountIff(srv.env, existing, submitted.value);
    }
  }

  /** Where keys are stored one a line, an append that stores nothing miscounts exactly if a blank key is at an end. */
  lemma LinesMiscountIff(srv: Server, q: Request, stale: Row, locked: Row)
    requires !InEffect(q, stale, locked, Col(Key)) && Appends(q, locked)
    requires !ReadsVertexKeys(FullCells(q, stale, locked))
    requires var kept := TextOf(Cell(locked, Key));
      !ReadsAsJson(srv.env, kept) && !ReadsAsJson(srv.env, Join(KeyList(srv.env, kept), '\n'))
    ensures var existing := KeyList(srv.env, TextOf(Cell(locked, Key)));
      Miscounts(srv, q, stale, locked) <==> |existing| > 1 && (existing[0] == "" || existing[|existing| - 1] == "")
  {
    hide FullCells, InEffect, KeyList, AppendChangesCount, ReadsAsJson, ReadsVertexKeys, SubmittedKeys, Split, TrimAll,
         WorkedKey;
    SubmittedUnsent(srv, q, stale, locked);
    TextChangesCountIff(srv.env, TextOf(Cell(locked, Key)));
  }

  lemma SubmittedUnsent(srv: Server, q: Request, stale: Row, locked: Row)
    requires !InEffect(q, stale, locked, Col(Key)) && !ReadsVertexKeys(FullCells(q, stale, locked))
    ensures SubmittedKeys(srv.env, FullCells(q, stale, locked)) ==
      Some(TrimAll(Split(TextOf(Cell(locked, Key)), '\n')))
  {
    hide FullCells, InEffect, ReadsVertexKeys, Split, TrimAll;
    FullCell(q, stale, locked, Key);
  }

  // ---------------------------------------------------------------- both happen

  /** An edit that touches no settings of an unsupported channel goes through if the caller has the permission. */
  lemma PlainEditGoesThrough(srv: Server, q: Request, row: Row)
    requires Col(Settings) !in q.fields && q.multiKeyMode.None? && q.fields <= {Col(Key), KeyModeField}
    requires Cell(row, Type) == Null && Cell(row, Settings) == Null
    requires Appends(q, row) ==> SubmittedKeys(srv.env, FullCells(q, row, row)).Some?
    ensures EditRow(srv, q, row, row, true).Edited?
  {
    hide SourceChangedBy, MergeRuntime, ClearForSourceChange, SubmittedKeys, AppendedText, WrittenInfo, WrittenCells,
         NeedsPermission;
    AllColumnsListed(Type);
    AllColumnsListed(Settings);
    var cells := MergedCells(q, row, row);
    assert At(cells, Type) == Null && At(cells, Settings) == Null;
    assert SettledFor(q, row, row).Settled?;
  }

  /** A multi-key channel with the given key text. */
  function KeyRow(key: string): Row {
    Row(1, 1, Info(true, 1, "", map[]), map[Key := Str(key)])
  }

  const EMPTYING: Request := Request({Col(Key)}, map[Key := Str("")], None, None)

  /** An edit that empties the key column leaves a size of one beside an empty list. */
  lemma EmptiedKeyKeepsCount(srv: Server)
    ensures var edit := EditRow(srv, EMPTYING, KeyRow("a"), KeyRow("a"), true);
      && edit.Edited? && edit.row.info.size == 1
      && TextOf(Cell(edit.row, Key)) == "" && KeyList(srv.env, "") == []
  {
    hide EditRow, FullCells, SubmittedKeys;
    var row := KeyRow("a");
    PlainEditGoesThrough(srv, EMPTYING, row);
    assert InEffect(EMPTYING, row, row, Col(Key));
    EditedKey(srv, EMPTYING, row, row, true);
    EditedSize(srv, EMPTYING, row, row, true);
    assert Lines(["a"]);
    assert Join(["a"], '\n') == "a" && !ReadsAsJson(srv.env, "a");
    StoredKeysRereadIff(srv.env, ["a"]);
  }

  const APPENDING: Request := Request({KeyModeField}, map[], Some("append"), None)

  /** Appending without a key to a list stored as a JSON array counts the array's own text as one more key. */
  lemma UnsentAppendMiscounts(srv: Server)
    requires srv.env.jsonKeys == map["[x]" := ["x"]]
    ensures var edit := EditRow(srv, APPENDING, KeyRow("[x]"), KeyRow("[x]"), true);
      && edit.Edited? && edit.row.info.size == 2
      && |KeyList(srv.env, TextOf(Cell(edit.row, Key)))| == 1
  {
    hide EditRow, FullCells, KeyList, InEffect, WorkedKey, Join;
    var env, row := srv.env, KeyRow("[x]");
    ArrayText(env);
    UnsentKey(env);
    PlainEditGoesThrough(srv, APPENDING, row);
    WorkedAppend(srv);
    AppendedCount(env);
    EditedKey(srv, APPENDING, row, row, true);
    EditedSize(srv, APPENDING, row, row, true);
  }

  lemma WorkedAppend(srv: Server)
    requires srv.env.jsonKeys == map["[x]" := ["x"]]
    ensures WorkedKey(srv, APPENDING, KeyRow("[x]"), KeyRow("[x]")) == Join(["x"] + ["[x]"], '\n')
  {
    hide FullCells, KeyList, SubmittedKeys, Join, InEffect;
    ArrayText(srv.env);
    UnsentKey(srv.env);
    MergeOfNew(["x"], ["[x]"]);
  }

  lemma ArrayText(env: Env)
    requires env.jsonKeys == map["[x]" := ["x"]]
    ensures KeyList(env, "[x]") == ["x"] && Normal(["x"]) && Normal(["[x]"])
  {
    assert Trim("[x]") == "[x]";
  }

  lemma UnsentKey(env: Env)
    ensures var row := KeyRow("[x]");
      && !InEffect(APPENDING, row, row, Col(Key))
      && SubmittedKeys(env, FullCells(APPENDING, row, row)) == Some(["[x]"])
  {
    hide FullCells, Split, TrimAll, ParseFields, Same;
    var row := KeyRow("[x]");
    assert Col(Key) !in APPENDING.fields && Col(Type) !in APPENDING.fields;
    FullCell(APPENDING, row, row, Key);
    FullCell(APPENDING, row, row, Type);
    OneLine();
  }

  lemma OneLine()
    ensures TrimAll(Split("[x]", '\n')) == ["[x]"]
  {
    SplitOnePart("[x]", '\n');
    TrimAllOfNames(["[x]"]);
  }

  lemma AppendedCount(env: Env)
    requires env.jsonKeys == map["[x]" := ["x"]]
    ensures var text := Join(["x"] + ["[x]"], '\n'); text != "" && |KeyList(env, text)| == 2
  {
    var xs := ["x"] + ["[x]"];
    assert xs[1..] == ["[x]"];
    assert Join(xs, '\n') == "x" + ['\n'] + "[x]";
    assert Lines(xs);
    StoredKeysRereadIff(env, xs);
  }
}
