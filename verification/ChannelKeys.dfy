/** Lists of channel keys as stored text, one key a line or a JSON array (model/channel.go). */
module ChannelKeys {
  import opened Wrappers
  import opened Text
  import opened ModelNames
  import opened ChannelRow

  predicate ReadsAsJson(env: Env, keys: string) {
    "[" <= Trim(keys) && Trim(keys) in env.jsonKeys
  }

  function TrimNewlines(s: string): string
    decreases |s|
  {
    if s != [] && s[0] == '\n' then TrimNewlines(s[1..])
    else if s != [] && s[|s| - 1] == '\n' then TrimNewlines(s[..|s| - 1])
    else s
  }

  /** parseChannelKeyList: the elements of an array are trimmed and blank ones dropped, lines are trimmed and kept. */
  function KeyList(env: Env, keys: string): seq<string> {
    if keys == "" then []
    else if ReadsAsJson(env, keys) then TrimAll(env.jsonKeys[Trim(keys)])
    else TrimEach(Split(TrimNewlines(keys), '\n'))
  }

  // ---------------------------------------------------------------- appending

  function AppendedKeys(existing: seq<string>, submitted: seq<string>): seq<string> {
    existing + Subtract(submitted, existing)
  }

  /** Appending keeps the stored keys in place and adds each new key once, in the order submitted. */
  lemma AppendedKeysLaws(existing: seq<string>, submitted: seq<string>)
    ensures var all := AppendedKeys(existing, submitted);
      && existing <= all
      && Normal(all[|existing|..])
      && (forall x :: x in all[|existing|..] <==> x in Normalize(submitted) && x !in Normalize(existing))
  {
    SubtractLaws(submitted, existing);
    assert AppendedKeys(existing, submitted)[|existing|..] == Subtract(submitted, existing);
  }

  // ---------------------------------------------------------------- reading back

  /** Trimmed lines, of which the first and the last are not empty. */
  predicate Lines(xs: seq<string>) {
    && xs != [] && xs[0] != "" && xs[|xs| - 1] != ""
    && forall x :: x in xs ==> Trimmed(x) && '\n' !in x
  }

  function Newlines(s: string): nat {
    multiset(s)['\n']
  }

  lemma {:induction false} SplitCounts(s: string)
    ensures |Split(s, '\n')| == Newlines(s) + 1
  {
    if s != [] {
      SplitCounts(s[1..]);
      assert s == [s[0]] + s[1..];
    }
  }

  lemma {:induction false} JoinCounts(xs: seq<string>)
    requires xs != [] && forall x :: x in xs ==> '\n' !in x
    ensures Newlines(Join(xs, '\n')) == |xs| - 1
  {
    assert xs[0] in xs;
    if |xs| > 1 {
      JoinCounts(xs[1..]);
    }
  }

  /** Trimming newlines leaves fewer of them, unless there is nothing to trim. */
  lemma {:induction false} TrimCounts(s: string)
    ensures Newlines(TrimNewlines(s)) <= Newlines(s)
    ensures Newlines(TrimNewlines(s)) == Newlines(s) <==> TrimNewlines(s) == s
    ensures TrimNewlines(s) == s <==> s == [] || (s[0] != '\n' && s[|s| - 1] != '\n')
    decreases |s|
  {
    if s != [] && s[0] == '\n' {
      TrimCounts(s[1..]);
      assert s == [s[0]] + s[1..];
    } else if s != [] && s[|s| - 1] == '\n' {
      TrimCounts(s[..|s| - 1]);
      assert s == s[..|s| - 1] + [s[|s| - 1]];
    }
  }

  /** A joined text begins and ends with a newline exactly where the first and the last part are empty. */
  lemma {:induction false} JoinEnds(xs: seq<string>)
    requires xs != [] && forall x :: x in xs ==> '\n' !in x
    ensures var s := Join(xs, '\n');
      && (s == "" <==> xs == [""])
      && (s != "" ==> (s[0] == '\n' <==> xs[0] == ""))
      && (s != "" ==> (s[|s| - 1] == '\n' <==> xs[|xs| - 1] == ""))
  {
    assert xs[0] in xs;
    if |xs| > 1 {
      JoinEnds(xs[1..]);
      if xs[1..] == [""] {
        assert Join(xs, '\n') == xs[0] + ['\n'];
      }
    }
  }

  lemma LinesReread(xs: seq<string>)
    requires Lines(xs)
    ensures TrimEach(Split(TrimNewlines(Join(xs, '\n')), '\n')) == xs
  {
    JoinEnds(xs);
    TrimCounts(Join(xs, '\n'));
    SplitUndoesJoin(xs, '\n');
  }

  lemma OnlyLinesReread(xs: seq<string>)
    requires xs != [] && Join(xs, '\n') != "" && TrimEach(Split(TrimNewlines(Join(xs, '\n')), '\n')) == xs
    ensures Lines(xs)
  {
    var text := Join(xs, '\n');
    var parts := Split(TrimNewlines(text), '\n');
    forall x | x in xs ensures Trimmed(x) && '\n' !in x {
      var i :| 0 <= i < |xs| && xs[i] == x;
      if '\n' in x {
        TrimOnlyDrops(parts[i], '\n');
      }
    }
    SplitCounts(TrimNewlines(text));
    JoinCounts(xs);
    TrimCounts(text);
    JoinEnds(xs);
  }

  /**
   A list of keys is read back as it was stored, exactly if it is empty, or its text is a JSON array of those
   keys, or the text is no JSON array and the keys are trimmed lines with no blank one at either end.
   */
  lemma StoredKeysRereadIff(env: Env, xs: seq<string>)
    ensures var text := Join(xs, '\n');
      KeyList(env, text) == xs <==>
      (xs == [] || if ReadsAsJson(env, text) then TrimAll(env.jsonKeys[Trim(text)]) == xs else Lines(xs))
  {
    hide TrimEach, Lines, TrimNewlines;
    var text := Join(xs, '\n');
    if xs != [] && text == "" {
      EmptyTextIsNoLines(xs);
    } else if xs != [] && !ReadsAsJson(env, text) {
      if Lines(xs) {
        LinesReread(xs);
      }
      if KeyList(env, text) == xs {
        OnlyLinesReread(xs);
      }
    }
  }

  lemma EmptyTextIsNoLines(xs: seq<string>)
    requires Join(xs, '\n') == ""
    ensures !Lines(xs) && !("[" <= Trim(Join(xs, '\n')))
  {
    if Lines(xs) {
      JoinEnds(xs);
    }
  }

  /** After appending keys that are read back, every stored key is still found at its place. */
  lemma AppendKeepsPlaces(env: Env, existing: seq<string>, submitted: seq<string>, i: nat)
    requires i < |existing| && !ReadsAsJson(env, Join(AppendedKeys(existing, submitted), '\n'))
    requires Lines(AppendedKeys(existing, submitted))
    ensures var stored := KeyList(env, Join(AppendedKeys(existing, submitted), '\n'));
      |existing| <= |stored| && stored[i] == existing[i]
  {
    AppendedKeysLaws(existing, submitted);
    StoredKeysRereadIff(env, AppendedKeys(existing, submitted));
  }

  // ---------------------------------------------------------------- how many keys are read back

  /** Newlines inside the keys themselves. */
  function InnerNewlines(xs: seq<string>): nat {
    if xs == [] then 0 else Newlines(xs[0]) + InnerNewlines(xs[1..])
  }

  function LeadingBlanks(xs: seq<string>): nat {
    if xs != [] && xs[0] == "" then 1 + LeadingBlanks(xs[1..]) else 0
  }

  function TrailingBlanks(xs: seq<string>): nat {
    if xs != [] && xs[|xs| - 1] == "" then 1 + TrailingBlanks(xs[..|xs| - 1]) else 0
  }

  predicate AllBlank(xs: seq<string>) {
    forall x :: x in xs ==> x == ""
  }

  /** The blank keys at either end, which get lost; of nothing but blank keys one is left. */
  function BlankEnds(xs: seq<string>): int {
    if AllBlank(xs) then |xs| - 1 else LeadingBlanks(xs) + TrailingBlanks(xs)
  }

  lemma {:induction false} JoinCountsAll(xs: seq<string>)
    requires xs != []
    ensures Newlines(Join(xs, '\n')) == |xs| - 1 + InnerNewlines(xs)
  {
    if |xs| > 1 {
      JoinCountsAll(xs[1..]);
    }
  }

  lemma {:induction false} JoinSnoc(xs: seq<string>, x: string)
    requires xs != []
    ensures Join(xs + [x], '\n') == Join(xs, '\n') + ['\n'] + x
  {
    var all := xs + [x];
    assert all[1..] == xs[1..] + [x];
    if |xs| > 1 {
      JoinSnoc(xs[1..], x);
    }
  }

  lemma BlankHead(xs: seq<string>)
    requires |xs| > 1 && xs[0] == ""
    ensures BlankEnds(xs) == 1 + BlankEnds(xs[1..]) && Join(xs, '\n') == ['\n'] + Join(xs[1..], '\n')
  {
    var rest := xs[1..];
    assert forall x :: x in xs <==> x == "" || x in rest;
    if !AllBlank(xs) {
      SameTrailing(xs);
    }
  }

  lemma {:induction false} SameTrailing(xs: seq<string>)
    requires |xs| > 1 && !AllBlank(xs[1..])
    ensures TrailingBlanks(xs) == TrailingBlanks(xs[1..])
  {
    if xs[|xs| - 1] == "" {
      var short := xs[..|xs| - 1];
      var x :| x in xs[1..] && x != "";
      assert xs[1..][..|xs| - 2] == short[1..];
      assert x in short[1..];
      SameTrailing(short);
    }
  }

  lemma {:induction false} SameLeading(xs: seq<string>)
    requires |xs| > 1 && !AllBlank(xs[..|xs| - 1])
    ensures LeadingBlanks(xs) == LeadingBlanks(xs[..|xs| - 1])
  {
    if xs[0] == "" {
      var rest := xs[1..];
      var x :| x in xs[..|xs| - 1] && x != "";
      assert xs[..|xs| - 1][1..] == rest[..|rest| - 1];
      assert x in rest[..|rest| - 1];
      SameLeading(rest);
    }
  }

  lemma BlankLast(xs: seq<string>)
    requires |xs| > 1 && xs[|xs| - 1] == "" && xs[0] != ""
    ensures BlankEnds(xs) == 1 + BlankEnds(xs[..|xs| - 1]) && Join(xs, '\n') == Join(xs[..|xs| - 1], '\n') + ['\n']
    ensures xs[..|xs| - 1][0] == xs[0]
  {
    var short := xs[..|xs| - 1];
    assert xs == short + [""];
    assert short[0] != "" && short[0] in short && xs[0] in xs;
    SameLeading(xs);
    JoinSnoc(short, "");
  }

  lemma TrimmedEnds(xs: seq<string>)
    requires xs != [] && forall x :: x in xs ==> Trimmed(x)
    ensures var s := Join(xs, '\n');
      && (xs[0] != "" ==> s != "" && s[0] != '\n')
      && (xs[|xs| - 1] != "" ==> s != "" && s[|s| - 1] != '\n')
  {
    assert xs[0] in xs && xs[|xs| - 1] in xs;
    if |xs| > 1 {
      assert xs == xs[..|xs| - 1] + [xs[|xs| - 1]];
      JoinSnoc(xs[..|xs| - 1], xs[|xs| - 1]);
    }
  }

  /** Trimming the newlines of the joined text loses exactly the blank keys at its ends. */
  lemma {:induction false} EndsLost(xs: seq<string>)
    requires xs != [] && forall x :: x in xs ==> Trimmed(x)
    ensures Newlines(TrimNewlines(Join(xs, '\n'))) == |xs| - 1 + InnerNewlines(xs) - BlankEnds(xs)
    decreases |xs|
  {
    hide BlankEnds;
    JoinCountsAll(xs);
    if |xs| > 1 && xs[0] == "" {
      BlankHead(xs);
      EndsLost(xs[1..]);
    } else if |xs| > 1 && xs[|xs| - 1] == "" {
      BlankLast(xs);
      var short := xs[..|xs| - 1];
      EndsLost(short);
      TrimmedEnds(short);
      JoinCountsAll(short);
      assert Join(xs, '\n')[..|Join(xs, '\n')| - 1] == Join(short, '\n');
    } else {
      TrimmedEnds(xs);
      NoBlankEnds(xs);
      TrimCounts(Join(xs, '\n'));
    }
  }

  lemma NoBlankEnds(xs: seq<string>)
    requires xs != [] && (|xs| == 1 || (xs[0] != "" && xs[|xs| - 1] != ""))
    ensures BlankEnds(xs) == 0
  {
    assert xs[0] in xs;
  }

  /** The number of keys read back from trimmed keys whose text is no JSON array. */
  lemma ReadCount(env: Env, xs: seq<string>)
    requires xs != [] && (forall x :: x in xs ==> Trimmed(x))
    requires Join(xs, '\n') != "" && !ReadsAsJson(env, Join(xs, '\n'))
    ensures |KeyList(env, Join(xs, '\n'))| == |xs| + InnerNewlines(xs) - BlankEnds(xs)
  {
    EndsLost(xs);
    SplitCounts(TrimNewlines(Join(xs, '\n')));
  }

  lemma KeyListTrimmed(env: Env, keys: string)
    ensures forall x :: x in KeyList(env, keys) ==> Trimmed(x)
  {
  }

  // ---------------------------------------------------------------- appending to a text that is not stored

  /**
   Appending to the stored keys changes how many are read: the text comes out as a JSON array of another length,
   or the lines it gains, by new keys and by newlines inside keys, are not as many as the blank ones it loses.
   */
  predicate AppendChangesCount(env: Env, existing: seq<string>, submitted: seq<string>) {
    var all := AppendedKeys(existing, submitted);
    var text := Join(all, '\n');
    text != "" &&
    if ReadsAsJson(env, text) then |TrimAll(env.jsonKeys[Trim(text)])| != |existing|
    else |Subtract(submitted, existing)| + InnerNewlines(all) != BlankEnds(all)
  }

  lemma AppendChangesCountIff(env: Env, existing: seq<string>, submitted: seq<string>)
    requires forall x :: x in existing ==> Trimmed(x)
    ensures var text := Join(AppendedKeys(existing, submitted), '\n');
      AppendChangesCount(env, existing, submitted) <==> text != "" && |KeyList(env, text)| != |existing|
  {
    hide KeyList, InnerNewlines, BlankEnds, ReadsAsJson;
    var all := AppendedKeys(existing, submitted);
    var text := Join(all, '\n');
    SubtractLaws(submitted, existing);
    assert |all| == |existing| + |Subtract(submitted, existing)|;
    if text != "" {
      assert all != [];
      if ReadsAsJson(env, text) {
        ReadsArray(env, text);
      } else {
        ReadCount(env, all);
      }
    }
  }

  lemma ReadsArray(env: Env, text: string)
    requires text != "" && ReadsAsJson(env, text)
    ensures Trim(text) in env.jsonKeys && KeyList(env, text) == TrimAll(env.jsonKeys[Trim(text)])
  {
  }

  lemma {:induction false} NoInnerNewlines(xs: seq<string>)
    requires forall x :: x in xs ==> '\n' !in x
    ensures InnerNewlines(xs) == 0
  {
    if xs != [] {
      assert xs[0] in xs;
      NoInnerNewlines(xs[1..]);
    }
  }

  /** Where the keys are lines, the count changes exactly if some submitted key is not one of the keys read. */
  lemma LinesChangeCountIff(env: Env, existing: seq<string>, submitted: seq<string>)
    requires Lines(AppendedKeys(existing, submitted))
    requires !ReadsAsJson(env, Join(AppendedKeys(existing, submitted), '\n'))
    ensures AppendChangesCount(env, existing, submitted) <==> Subtract(submitted, existing) != []
  {
    var all := AppendedKeys(existing, submitted);
    NoInnerNewlines(all);
    NoBlankEnds(all);
    JoinEnds(all);
  }

  lemma {:induction false} SplitSnoc(s: string)
    ensures Split(s + ['\n'], '\n') == Split(s, '\n') + [""]
  {
    if s == [] {
      assert (s + ['\n'])[1..] == [];
    } else {
      assert (s + ['\n'])[1..] == s[1..] + ['\n'];
      SplitSnoc(s[1..]);
    }
  }

  /** Trimming newlines drops empty lines only. */
  lemma {:induction false} TrimKeepsLines(s: string, y: string)
    requires y in Split(s, '\n') && y != ""
    ensures y in Split(TrimNewlines(s), '\n')
    decreases |s|
  {
    if s != [] && s[0] == '\n' {
      assert y in Split(s[1..], '\n');
      TrimKeepsLines(s[1..], y);
    } else if s != [] && s[|s| - 1] == '\n' {
      var short := s[..|s| - 1];
      assert s == short + ['\n'];
      SplitSnoc(short);
      TrimKeepsLines(short, y);
    }
  }

  lemma LineIsRead(keys: string, x: string)
    requires x in TrimAll(Split(keys, '\n'))
    ensures x in TrimEach(Split(TrimNewlines(keys), '\n')) && IsName(x)
  {
    hide Split, TrimNewlines, TrimAll;
    var parts := Split(TrimNewlines(keys), '\n');
    var y :| y in Split(keys, '\n') && x == Trim(y);
    TrimKeepsLines(keys, y);
    var i :| 0 <= i < |parts| && parts[i] == y;
    assert TrimEach(parts)[i] == x;
  }

  lemma LinesHoldNoNewline(keys: string, x: string)
    requires x in TrimEach(Split(TrimNewlines(keys), '\n'))
    ensures '\n' !in x
  {
    hide TrimNewlines, Trim;
    var parts := Split(TrimNewlines(keys), '\n');
    var i :| 0 <= i < |parts| && TrimEach(parts)[i] == x;
    if '\n' in x {
      TrimOnlyDrops(parts[i], '\n');
    }
  }

  lemma TextLinesAreKeys(env: Env, keys: string)
    requires keys != "" && !ReadsAsJson(env, keys)
    ensures Subtract(TrimAll(Split(keys, '\n')), KeyList(env, keys)) == []
    ensures InnerNewlines(KeyList(env, keys)) == 0
  {
    hide Split, TrimNewlines, TrimAll, TrimEach, Subtract, ReadsAsJson, InnerNewlines, Normalize;
    var existing, submitted := KeyList(env, keys), TrimAll(Split(keys, '\n'));
    SubtractLaws(submitted, existing);
    forall x | x in Normalize(submitted) ensures x in Normalize(existing) {
      TrimmedTwice(submitted, x);
      LineIsRead(keys, x);
      NamesStay(existing, x);
    }
    NoMembers(Subtract(submitted, existing));
    forall x | x in existing ensures '\n' !in x {
      LinesHoldNoNewline(keys, x);
    }
    NoInnerNewlines(existing);
  }

  lemma TrimmedTwice(xs: seq<string>, x: string)
    requires x in Normalize(xs) && forall y :: y in xs ==> IsName(y)
    ensures x in xs
  {
    TrimAllOfNames(xs);
  }

  lemma NamesStay(xs: seq<string>, x: string)
    requires x in xs && IsName(x)
    ensures x in Normalize(xs)
  {
  }

  /** Appended to itself, a text of lines changes the count exactly if it begins or ends with a blank key. */
  lemma TextChangesCountIff(env: Env, keys: string)
    requires keys != "" && !ReadsAsJson(env, keys) && !ReadsAsJson(env, Join(KeyList(env, keys), '\n'))
    ensures var existing := KeyList(env, keys);
      AppendChangesCount(env, existing, TrimAll(Split(keys, '\n'))) <==>
      |existing| > 1 && (existing[0] == "" || existing[|existing| - 1] == "")
  {
    hide BlankEnds, KeyList, TrimAll, Split, Subtract, ReadsAsJson, InnerNewlines;
    var existing, submitted := KeyList(env, keys), TrimAll(Split(keys, '\n'));
    TextLinesAreKeys(env, keys);
    assert AppendedKeys(existing, submitted) == existing;
    if |existing| > 1 && existing[0] == "" {
      BlankHead(existing);
      BlankEndsPositive(existing[1..]);
    } else if |existing| > 1 && existing[|existing| - 1] == "" {
      BlankLast(existing);
      BlankEndsPositive(existing[..|existing| - 1]);
    } else if existing != [] {
      NoBlankEnds(existing);
    }
    if |existing| > 1 {
      assert Join(existing, '\n') != "";
    }
  }

  lemma BlankEndsPositive(xs: seq<string>)
    requires xs != []
    ensures BlankEnds(xs) >= 0
  {
  }
}
