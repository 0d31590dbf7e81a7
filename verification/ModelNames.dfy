/**
 The name-list algebra of controller/channel_upstream_update.go and common/normalize.go. Lists of model names
 are trimmed, without empty names and without duplicates once normalized; a channel stores its
 models joined by commas.
 */
module ModelNames {
  import opened Text

  predicate IsName(x: string) {
    x != "" && Trimmed(x)
  }

  predicate NoDuplicates(xs: seq<string>) {
    forall i, j :: 0 <= i < j < |xs| ==> xs[i] != xs[j]
  }

  /** What a normalized list looks like. */
  predicate Normal(xs: seq<string>) {
    NoDuplicates(xs) && forall x :: x in xs ==> IsName(x)
  }

  function Filter(xs: seq<string>, p: string -> bool): (r: seq<string>)
    ensures forall x :: x in r <==> x in xs && p(x)
  {
    if xs == [] then []
    else
      var rest := Filter(xs[1..], p);
      assert xs == [xs[0]] + xs[1..];
      if p(xs[0]) then [xs[0]] + rest else rest
  }

  function Uniq(xs: seq<string>): (r: seq<string>)
    ensures forall x :: x in r <==> x in xs
    ensures NoDuplicates(r)
  {
    if xs == [] then []
    else
      var last := xs[|xs| - 1];
      var front := Uniq(xs[..|xs| - 1]);
      assert xs == xs[..|xs| - 1] + [last];
      if last in front then front else front + [last]
  }

  function TrimAll(xs: seq<string>): (r: seq<string>)
    ensures forall x :: x in r ==> IsName(x)
    ensures forall x :: x in xs && IsName(x) ==> x in r
    ensures forall x :: x in r ==> exists y :: y in xs && x == Trim(y)
  {
    if xs == [] then []
    else
      var last := Trim(xs[|xs| - 1]);
      var front := TrimAll(xs[..|xs| - 1]);
      assert xs == xs[..|xs| - 1] + [xs[|xs| - 1]];
      if last == "" then front else front + [last]
  }

  /** normalizeModelNames: trim, drop empty names, keep the first of equal ones. */
  function Normalize(xs: seq<string>): (r: seq<string>)
    ensures Normal(r)
    ensures forall x :: x in r <==> x in TrimAll(xs)
  {
    Uniq(TrimAll(xs))
  }

  lemma {:induction false} TrimAllOfNames(xs: seq<string>)
    requires forall x :: x in xs ==> IsName(x)
    ensures TrimAll(xs) == xs
  {
    if xs != [] {
      TrimAllOfNames(xs[..|xs| - 1]);
      assert xs[|xs| - 1] in xs;
      assert xs == xs[..|xs| - 1] + [xs[|xs| - 1]];
    }
  }

  lemma {:induction false} UniqOfDistinct(xs: seq<string>)
    requires NoDuplicates(xs)
    ensures Uniq(xs) == xs
  {
    if xs != [] {
      UniqOfDistinct(xs[..|xs| - 1]);
      assert xs == xs[..|xs| - 1] + [xs[|xs| - 1]];
    }
  }

  /** Normalizing is a projection onto the normal lists. */
  lemma NormalizeFixed(xs: seq<string>)
    ensures Normal(xs) <==> Normalize(xs) == xs
  {
    if Normal(xs) {
      TrimAllOfNames(xs);
      UniqOfDistinct(xs);
    }
  }

  /** The first place of a name in a list. */
  function First(xs: seq<string>, x: string): (i: nat)
    requires x in xs
    ensures i < |xs| && xs[i] == x && x !in xs[..i]
  {
    if xs[0] == x then 0
    else
      assert xs == [xs[0]] + xs[1..];
      assert forall j :: 0 <= j < |xs| - 1 ==> xs[1..][j] == xs[j + 1];
      1 + First(xs[1..], x)
  }

  lemma FirstInFront(xs: seq<string>, last: string, x: string)
    requires x in xs
    ensures x in xs + [last] && First(xs + [last], x) == First(xs, x)
  {
    var all, i, j := xs + [last], First(xs + [last], x), First(xs, x);
    assert all[j] == x && all[..j] == xs[..j];
    assert i <= j <= i;
  }

  /** Of equal names the first one stays: the names come in the order of their first places. */
  lemma {:induction false} UniqKeepsFirst(xs: seq<string>)
    ensures forall i, j :: 0 <= i < j < |Uniq(xs)| ==> First(xs, Uniq(xs)[i]) < First(xs, Uniq(xs)[j])
  {
    if xs != [] {
      var front, last := xs[..|xs| - 1], xs[|xs| - 1];
      assert xs == front + [last];
      UniqKeepsFirst(front);
      var all := Uniq(xs);
      forall i, j | 0 <= i < j < |all| ensures First(xs, all[i]) < First(xs, all[j]) {
        assert all[i] == Uniq(front)[i] && all[i] in front;
        FirstInFront(front, last, all[i]);
        if j < |Uniq(front)| {
          assert all[j] == Uniq(front)[j] && all[j] in front;
          FirstInFront(front, last, all[j]);
        } else {
          assert all[j] == last && last !in front;
          assert First(xs, last) == |front|;
        }
      }
    }
  }

  /** Trimming a list trims each entry, in place, and drops the blank ones. */
  lemma {:induction false} TrimAllIs(xs: seq<string>)
    ensures TrimAll(xs) == Filter(TrimEach(xs), x => x != "")
  {
    if xs != [] {
      var front, last := xs[..|xs| - 1], Trim(xs[|xs| - 1]);
      hide Trim, Filter;
      TrimAllIs(front);
      assert TrimEach(xs) == TrimEach(front) + [last];
      FilterConcat(TrimEach(front), [last], x => x != "");
      FilterOne(last, x => x != "");
    }
  }

  lemma FilterOne(x: string, p: string -> bool)
    ensures Filter([x], p) == if p(x) then [x] else []
  {
  }

  /** NormalizeNameList of common/normalize.go: the one-pass loop with a set of seen names. */
  method NormalizeNameList(values: seq<string>) returns (normalized: seq<string>)
    ensures normalized == Normalize(values)
  {
    var seen: set<string> := {};
    normalized := [];
    for i := 0 to |values|
      invariant normalized == Normalize(values[..i])
      invariant forall x :: x in seen <==> x in normalized
    {
      assert values[..i + 1][..i] == values[..i] && values[..i + 1][i] == values[i];
      var name := Trim(values[i]);
      if name != "" {
        ghost var trimmed := TrimAll(values[..i + 1]);
        assert trimmed == TrimAll(values[..i]) + [name];
        assert trimmed[..|trimmed| - 1] == TrimAll(values[..i]);
        if name !in seen {
          seen := seen + {name};
          normalized := normalized + [name];
        }
      }
    }
    assert values[..|values|] == values;
  }

  lemma NoMembers(xs: seq<string>)
    ensures (forall x :: x !in xs) ==> xs == []
  {
    if xs != [] {
      assert xs[0] in xs;
    }
  }

  // ---------------------------------------------------------------- filters

  lemma {:induction false} FilterDistinct(xs: seq<string>, p: string -> bool)
    requires NoDuplicates(xs)
    ensures NoDuplicates(Filter(xs, p))
  {
    if xs != [] {
      FilterDistinct(xs[1..], p);
      assert NoDuplicates(xs[1..]);
      assert xs[0] !in xs[1..];
    }
  }

  lemma FilterNormal(xs: seq<string>, p: string -> bool)
    requires Normal(xs)
    ensures Normal(Filter(xs, p))
    ensures Normalize(Filter(xs, p)) == Filter(xs, p)
  {
    FilterDistinct(xs, p);
    NormalizeFixed(Filter(xs, p));
  }

  lemma {:induction false} FilterAgree(xs: seq<string>, p: string -> bool, q: string -> bool)
    requires forall x :: x in xs ==> p(x) == q(x)
    ensures Filter(xs, p) == Filter(xs, q)
  {
    if xs != [] {
      FilterAgree(xs[1..], p, q);
      assert xs[0] in xs;
      assert forall x :: x in xs[1..] ==> x in xs;
    }
  }

  lemma {:induction false} FilterAll(xs: seq<string>, p: string -> bool)
    requires forall x :: x in xs ==> p(x)
    ensures Filter(xs, p) == xs
  {
    if xs != [] {
      assert forall x :: x in xs[1..] ==> x in xs;
      FilterAll(xs[1..], p);
      assert xs[0] in xs;
    }
  }

  lemma {:induction false} FilterShrinks(xs: seq<string>, p: string -> bool)
    ensures |Filter(xs, p)| <= |xs|
  {
    if xs != [] {
      FilterShrinks(xs[1..], p);
    }
  }

  /** A filter that drops nothing keeps everything. */
  lemma {:induction false} FilterKeepsAll(xs: seq<string>, p: string -> bool)
    requires |Filter(xs, p)| == |xs|
    ensures Filter(xs, p) == xs
  {
    if xs != [] {
      FilterShrinks(xs[1..], p);
      FilterKeepsAll(xs[1..], p);
    }
  }

  lemma {:induction false} FilterConcat(xs: seq<string>, ys: seq<string>, p: string -> bool)
    ensures Filter(xs + ys, p) == Filter(xs, p) + Filter(ys, p)
  {
    if xs == [] {
      assert xs + ys == ys;
    } else {
      assert (xs + ys)[1..] == xs[1..] + ys;
      FilterConcat(xs[1..], ys, p);
    }
  }

  // ---------------------------------------------------------------- merge, subtract, intersect

  function Subtract(base: seq<string>, removed: seq<string>): seq<string> {
    Filter(Normalize(base), x => x !in Normalize(removed))
  }

  function Intersect(base: seq<string>, allowed: seq<string>): seq<string> {
    Filter(Normalize(base), x => x in Normalize(allowed))
  }

  function Merge(base: seq<string>, appended: seq<string>): seq<string> {
    Normalize(base) + Subtract(appended, base)
  }

  function Extended(origin: seq<string>, extra: seq<string>): seq<string> {
    origin + Filter(extra, x => x !in origin)
  }

  lemma ExtendedStep(origin: seq<string>, extra: seq<string>, i: nat)
    requires i < |extra| && NoDuplicates(extra)
    ensures Extended(origin, extra[..i + 1]) ==
      Extended(origin, extra[..i]) + if extra[i] in Extended(origin, extra[..i]) then [] else [extra[i]]
  {
    assert extra[..i + 1] == extra[..i] + [extra[i]];
    FilterConcat(extra[..i], [extra[i]], x => x !in origin);
    assert extra[i] !in extra[..i];
  }

  lemma MergeByExtension(base: seq<string>, appended: seq<string>)
    ensures Merge(base, appended) == Extended(Normalize(base), Normalize(appended))
    ensures NoDuplicates(Normalize(appended))
    ensures Extended(Normalize(base), []) == Normalize(base)
  {
    FilterAgree(Normalize(appended), x => x !in Normalize(base), x => x !in Normalize(base));
  }

  /** mergeModelNames as the source loops. */
  method MergeModelNames(base: seq<string>, appended: seq<string>) returns (merged: seq<string>)
    ensures merged == Merge(base, appended)
  {
    var origin := Normalize(base);
    var extra := Normalize(appended);
    hide Extended, Filter, NoDuplicates;
    merged := origin;
    MergeByExtension(base, appended);
    var seen := set x | x in merged;
    for i := 0 to |extra|
      invariant merged == Extended(origin, extra[..i])
      invariant forall x :: x in seen <==> x in merged
    {
      ExtendedStep(origin, extra, i);
      if extra[i] !in seen {
        seen := seen + {extra[i]};
        merged := merged + [extra[i]];
      }
    }
    assert extra[..|extra|] == extra;
  }

  lemma SubtractLaws(base: seq<string>, removed: seq<string>)
    ensures Normal(Subtract(base, removed))
    ensures forall x :: x in Subtract(base, removed) <==> x in Normalize(base) && x !in Normalize(removed)
  {
    FilterNormal(Normalize(base), x => x !in Normalize(removed));
  }

  lemma IntersectLaws(base: seq<string>, allowed: seq<string>)
    ensures Normal(Intersect(base, allowed))
    ensures forall x :: x in Intersect(base, allowed) <==> x in Normalize(base) && x in Normalize(allowed)
  {
    FilterNormal(Normalize(base), x => x in Normalize(allowed));
  }

  lemma ConcatDistinct(xs: seq<string>, ys: seq<string>)
    requires NoDuplicates(xs) && NoDuplicates(ys) && forall x :: x in ys ==> x !in xs
    ensures NoDuplicates(xs + ys)
  {
    forall i, j | 0 <= i < j < |xs + ys| ensures (xs + ys)[i] != (xs + ys)[j] {
      if i < |xs| <= j {
        assert ys[j - |xs|] in ys;
      }
    }
  }

  lemma MergeLaws(base: seq<string>, appended: seq<string>)
    ensures Normal(Merge(base, appended))
    ensures forall x :: x in Merge(base, appended) <==> x in Normalize(base) || x in Normalize(appended)
  {
    SubtractLaws(appended, base);
    ConcatDistinct(Normalize(base), Subtract(appended, base));
  }

  /** Merging in names that are all new appends them. */
  lemma MergeOfNew(base: seq<string>, extra: seq<string>)
    requires Normal(base) && Normal(extra) && forall x :: x in extra ==> x !in base
    ensures Subtract(extra, base) == extra && Merge(base, extra) == base + extra && Normal(base + extra)
  {
    NormalizeFixed(base);
    NormalizeFixed(extra);
    FilterAll(extra, x => x !in Normalize(base));
    ConcatDistinct(base, extra);
  }

  /** applySelectedModelChanges: an addition wins over a removal of the same name. */
  function ApplySelected(origin: seq<string>, adds: seq<string>, removes: seq<string>): seq<string> {
    Subtract(Merge(origin, Normalize(adds)), Subtract(Normalize(removes), Normalize(adds)))
  }

  /** Survivors keep their order and come before the additions, which keep theirs; nothing else is in the list. */
  lemma ApplySelectedLaw(origin: seq<string>, adds: seq<string>, removes: seq<string>)
    requires Normal(origin) && Normal(adds) && Normal(removes)
    ensures ApplySelected(origin, adds, removes) ==
      Filter(origin, x => x !in removes || x in adds) + Filter(adds, x => x !in origin)
    ensures Normal(ApplySelected(origin, adds, removes))
  {
    NormalizeFixed(origin);
    NormalizeFixed(adds);
    NormalizeFixed(removes);
    var dropped := Subtract(removes, adds);
    SubtractLaws(removes, adds);
    NormalizeFixed(dropped);
    MergeLaws(origin, adds);
    var merged := Merge(origin, adds);
    NormalizeFixed(merged);
    var added := Subtract(adds, origin);
    SubtractLaws(adds, origin);
    FilterConcat(origin, added, x => x !in dropped);
    FilterAgree(origin, x => x !in dropped, x => x !in removes || x in adds);
    FilterAll(added, x => x !in dropped);
    FilterAgree(adds, x => x !in Normalize(origin), x => x !in origin);
    SubtractLaws(merged, dropped);
    FilterAgree(merged, x => x !in Normalize(dropped), x => x !in dropped);
  }

  // ---------------------------------------------------------------- the stored list

  function GetModels(models: string): seq<string> {
    if models == "" then [] else Normalize(Split(models, ','))
  }

  predicate CommaFree(xs: seq<string>) {
    forall x :: x in xs ==> ',' !in x
  }

  lemma GetModelsLaws(models: string)
    ensures Normal(GetModels(models)) && CommaFree(GetModels(models))
  {
    forall x | x in GetModels(models) ensures ',' !in x {
      var y :| y in Split(models, ',') && x == Trim(y);
      if ',' in x {
        TrimOnlyDrops(y, ',');
      }
    }
  }

  /** A normalized list of comma-free names survives being stored. */
  lemma StoredModels(xs: seq<string>)
    requires Normal(xs) && CommaFree(xs)
    ensures GetModels(Join(xs, ',')) == xs
  {
    if xs != [] {
      SplitUndoesJoin(xs, ',');
      NormalizeFixed(xs);
      assert xs[0] in xs;
      assert Join(xs, ',') != "";
    }
  }

  /** Writing back the normalized form does not change the list. */
  lemma NormalizedText(models: string)
    ensures GetModels(Join(GetModels(models), ',')) == GetModels(models)
  {
    GetModelsLaws(models);
    StoredModels(GetModels(models));
  }

  // ---------------------------------------------------------------- what is pending

  const REGEX_PREFIX: string := "regex:"

  /** One entry of the ignored list; `matches` holds a pattern and a name if the pattern compiles and matches. */
  predicate EntryMatches(matches: iset<(string, string)>, entry: string, name: string) {
    if REGEX_PREFIX <= entry then
      var pattern := Trim(entry[|REGEX_PREFIX|..]);
      pattern != "" && (pattern, name) in matches
    else entry == name
  }

  predicate IsIgnored(matches: iset<(string, string)>, name: string, ignored: seq<string>) {
    Trim(name) != "" && exists i :: 0 <= i < |ignored| && EntryMatches(matches, ignored[i], Trim(name))
  }

  /** A listed name that is no pattern is ignored. */
  lemma ListedIsIgnored(matches: iset<(string, string)>, name: string, ignored: seq<string>)
    requires IsName(name) && name in ignored && !(REGEX_PREFIX <= name)
    ensures IsIgnored(matches, name, ignored)
  {
    var i :| 0 <= i < |ignored| && ignored[i] == name;
    assert EntryMatches(matches, ignored[i], Trim(name));
  }

  predicate WantsAdd(matches: iset<(string, string)>, local: seq<string>, ignored: seq<string>,
                     mapping: map<string, string>, x: string) {
    x !in local && x !in mapping.Values && !IsIgnored(matches, x, ignored)
  }

  predicate WantsRemove(matches: iset<(string, string)>, upstream: seq<string>, ignored: seq<string>,
                        mapping: map<string, string>, x: string) {
    x !in mapping.Keys && !IsIgnored(matches, x, ignored) && x !in upstream
  }

  function PendingAdds(matches: iset<(string, string)>, local: seq<string>, upstream: seq<string>,
                       ignored: seq<string>, mapping: map<string, string>): seq<string> {
    Normalize(Filter(Normalize(upstream), x => WantsAdd(matches, Normalize(local), Normalize(ignored), mapping, x)))
  }

  function PendingRemoves(matches: iset<(string, string)>, local: seq<string>, upstream: seq<string>,
                          ignored: seq<string>, mapping: map<string, string>): seq<string> {
    Normalize(Filter(Normalize(local), x => WantsRemove(matches, Normalize(upstream), Normalize(ignored), mapping, x)))
  }

  /** Pending work is real work: additions are upstream and not local, removals are local and not upstream. */
  lemma PendingLaws(matches: iset<(string, string)>, local: seq<string>, upstream: seq<string>, ignored: seq<string>,
                    mapping: map<string, string>)
    ensures var adds := PendingAdds(matches, local, upstream, ignored, mapping);
      && Normal(adds)
      && forall x :: x in adds <==>
           x in Normalize(upstream) && WantsAdd(matches, Normalize(local), Normalize(ignored), mapping, x)
    ensures var removes := PendingRemoves(matches, local, upstream, ignored, mapping);
      && Normal(removes)
      && forall x :: x in removes <==>
           x in Normalize(local) && WantsRemove(matches, Normalize(upstream), Normalize(ignored), mapping, x)
  {
    FilterNormal(Normalize(upstream), x => WantsAdd(matches, Normalize(local), Normalize(ignored), mapping, x));
    FilterNormal(Normalize(local), x => WantsRemove(matches, Normalize(upstream), Normalize(ignored), mapping, x));
  }

  /** Both lists are empty exactly when local and upstream names agree, up to ignored and redirected ones. */
  lemma NothingPendingIff(matches: iset<(string, string)>, local: seq<string>, upstream: seq<string>,
                          ignored: seq<string>, mapping: map<string, string>)
    ensures PendingAdds(matches, local, upstream, ignored, mapping) == [] <==>
      forall x :: x in Normalize(upstream) ==> !WantsAdd(matches, Normalize(local), Normalize(ignored), mapping, x)
    ensures PendingRemoves(matches, local, upstream, ignored, mapping) == [] <==>
      forall x :: x in Normalize(local) ==> !WantsRemove(matches, Normalize(upstream), Normalize(ignored), mapping, x)
  {
    PendingLaws(matches, local, upstream, ignored, mapping);
    var adds := PendingAdds(matches, local, upstream, ignored, mapping);
    var removes := PendingRemoves(matches, local, upstream, ignored, mapping);
    if adds != [] {
      assert adds[0] in adds;
    }
    if removes != [] {
      assert removes[0] in removes;
    }
  }

  /** What is pending, down to the single entries: no definition of this module but normalizing is used. */
  lemma PendingMeans(matches: iset<(string, string)>, local: seq<string>, upstream: seq<string>,
                     ignored: seq<string>, mapping: map<string, string>, x: string)
    ensures x in PendingAdds(matches, local, upstream, ignored, mapping) <==>
      && x in Normalize(upstream) && x !in Normalize(local) && (forall k :: k in mapping ==> mapping[k] != x)
      && !Excluded(matches, Normalize(ignored), x)
    ensures x in PendingRemoves(matches, local, upstream, ignored, mapping) <==>
      && x in Normalize(local) && x !in Normalize(upstream) && x !in mapping
      && !Excluded(matches, Normalize(ignored), x)
  {
    hide Normalize, PendingAdds, PendingRemoves, IsIgnored, Excluded;
    PendingLaws(matches, local, upstream, ignored, mapping);
    if x in Normalize(upstream) || x in Normalize(local) {
      assert IsName(x);
      IgnoredMeans(matches, Normalize(ignored), x);
    }
    assert x in mapping.Values <==> exists k :: k in mapping && mapping[k] == x;
  }

  /** Some entry is the name itself, or "regex:" followed by a pattern that matches it. */
  ghost predicate Excluded(matches: iset<(string, string)>, ignored: seq<string>, x: string) {
    || (x in ignored && !("regex:" <= x))
    || (exists e :: e in ignored && "regex:" <= e && Trim(e[6..]) != "" && (Trim(e[6..]), x) in matches)
  }

  lemma IgnoredMeans(matches: iset<(string, string)>, ignored: seq<string>, x: string)
    requires IsName(x)
    ensures IsIgnored(matches, x, ignored) <==> Excluded(matches, ignored, x)
  {
    if i :| 0 <= i < |ignored| && EntryMatches(matches, ignored[i], Trim(x)) {
      assert ignored[i] in ignored;
    }
    if x in ignored && !("regex:" <= x) {
      ListedIsIgnored(matches, x, ignored);
    }
    if e :| e in ignored && "regex:" <= e && Trim(e[6..]) != "" && (Trim(e[6..]), x) in matches {
      var i :| 0 <= i < |ignored| && ignored[i] == e;
      assert EntryMatches(matches, ignored[i], Trim(x));
    }
  }
}
