/**
 What callers of the shared cache can do (common/disk_cache_config.go): each operation has a run in which it succeeds,
 and each way of failing has a step.
 */
module SharedLifecycle {
  import opened Wrappers
  import opened DiskCacheShared
  import opened DiskCacheOverfill

  /** Whoever seeks the lock may wait or give up, and may take over a lock of more than ten minutes. */
  lemma SeekersMayGiveUp(cap: int, p: Policy, e: Env, t: Slot, op: Op)
    requires t.phase == Seeking(op)
    ensures Moves(cap, p, e, t, e, t)
    ensures Moves(cap, p, e, t, e, match op case OpReserve(_) => IDLE
                                            case OpExtend(_) => t.(phase := Open)
                                            case OpFinish(commit) => if commit then t.(phase := Open) else IDLE)
    ensures e.lock.Lock? && e.clock - e.lock.created > 600 ==>
      && Moves(cap, p, e, t, e, t.(phase := TakingOver(op)))
      && Moves(cap, p, e, t.(phase := TakingOver(op)), e.(lock := NoLock), t)
      && Moves(cap, p, e, t.(phase := TakingOver(op)), e, t)
    ensures e.lock.Lock? && e.clock - e.lock.created <= 600 ==> !Moves(cap, p, e, t, e, t.(phase := TakingOver(op)))
  {
  }

  /** An open reservation may be extended, committed once it has a file, and released once it has none. */
  lemma HoldersMayGoOn(cap: int, p: Policy, e: Env, t: Slot, more: int)
    requires t.phase.Open? && t.marker.Some? && more > 0
    ensures Moves(cap, p, e, t, e, t.(phase := Seeking(OpExtend(more))))
    ensures OwnsFile(e, t) ==> Moves(cap, p, e, t, e, t.(phase := Seeking(OpFinish(true))))
    ensures t.file.None? ==> Moves(cap, p, e, t, e, t.(phase := Seeking(OpFinish(false))))
    ensures OwnsFile(e, t) ==> Moves(cap, p, e, t, SetKind(e, t.file.value, Gone), t.(file := None))
  {
    if OwnsFile(e, t) {
      assert FileMoves(p, e, t, SetKind(e, t.file.value, Gone), t.(file := None));
    }
  }

  /** A marker is purged after fifteen minutes, and counted before. */
  lemma MarkersAreCounted(p: Policy, e: Env, t: Slot, id: nat, e': Env, t': Slot)
    requires t.phase.Scanning? && id in t.phase.todo && id < |e.items| && e.items[id].kind.Marker? && !p.missesFiles
    requires StatMoves(p, e, t, id, e', t')
    ensures t'.phase.Scanning?
    ensures e.clock - e.items[id].modified <= 900 ==> e' == e && t'.phase.total == t.phase.total + e.items[id].size
    ensures e.clock - e.items[id].modified > 900 ==> e'.items[id].kind.Gone? && t'.phase.total == t.phase.total
  {
  }

  /** With the total of a scan, a reservation is granted only and always possible if it fits below the cap. */
  lemma ReserveDecision(cap: int, p: Policy, e: Env, token: nat, total: int, want: int, e': Env, t': Slot)
    requires want > 0
    ensures var t := IDLE.(phase := Deciding(OpReserve(want), token, total));
      && (Moves(cap, p, e, t, e', t') && t'.size > 0 ==> total + want <= cap)
      && (total + want <= cap ==>
            Moves(cap, p, e, t, e.(items := e.items + [Item(BASE_DIR, want, Marker, e.clock)]),
                  Slot(Unlocking(token, AtOpen), want, Some(|e.items|), None)))
      && Moves(cap, p, e, t, e, IDLE.(phase := Unlocking(token, AtIdle)))
      && (total + want <= cap ==>
            Moves(cap, p, e, t, e.(items := e.items + [Item(BASE_DIR, 0, Marker, e.clock)]),
                  IDLE.(phase := Unlocking(token, AtIdle))))
  {
  }

  /** So is an extension, unless the marker is lost. */
  lemma ExtendDecision(cap: int, p: Policy, e: Env, t: Slot, token: nat, total: int, more: int, e': Env, t': Slot)
    requires more > 0 && t.phase == Deciding(OpExtend(more), token, total) && OwnsMarker(e, t)
    ensures Moves(cap, p, e, t, e', t') && t'.size > t.size ==> total + more <= cap && !Lost(e, t)
    ensures total + more <= cap && !Lost(e, t) ==>
      var longer := e.items[t.marker.value].(size := t.size + more, modified := e.clock);
      Moves(cap, p, e, t, e.(items := e.items[t.marker.value := longer]),
            t.(phase := Unlocking(token, AtOpen), size := t.size + more))
    ensures Moves(cap, p, e, t, e, t.(phase := Unlocking(token, AtOpen)))
  {
  }

  /** A release ends with nothing, whether or not the marker could be removed and the directories be read. */
  lemma ReleaseEnds(cap: int, p: Policy, e: Env, t: Slot, token: nat, total: int)
    requires OwnsMarker(e, t) && t.file.None?
    ensures var done := Slot(Unlocking(token, AtIdle), 0, None, None);
      && Moves(cap, p, e, t.(phase := Removing(false, token)), e, done)
      && Moves(cap, p, e, t.(phase := Removing(false, token)), SetKind(e, t.marker.value, Gone),
               t.(phase := FreshScan(OpFinish(false), token)))
      && Moves(cap, p, e, t.(phase := FreshScan(OpFinish(false), token)), e, done)
      && Moves(cap, p, e, t.(phase := Deciding(OpFinish(false), token, total)), e, done)
  {
    assert Unmarked(e, t.(phase := Removing(false, token))) == SetKind(e, t.marker.value, Gone);
  }

  /** A finalized or refused file may be kept for a while, and deleted. */
  lemma FilesMayBeDeleted(cap: int, p: Policy, e: Env, t: Slot)
    requires (t.phase.Filed? || t.phase.Spoiled?) && OwnsFile(e, t)
    ensures Moves(cap, p, e, t, e, t) && Moves(cap, p, e, t, SetKind(e, t.file.value, Gone), IDLE)
  {
  }

  // ---------------------------------------------------------------- one reservation from beginning to end

  /** The only slot scans a cache that holds its own marker and nothing else, and counts it. */
  lemma CountsOwnMarker(cap: int, p: Policy, s: State, op: Op, token: nat, size: nat)
    requires Reachable(cap, p, s) && Calm(s.env) && |s.slots| == 2
    requires s.slots[0].phase == FreshScan(op, token) && s.env.items == [Item(BASE_DIR, size, Marker, 0)]
    ensures Reachable(cap, p, Next(s, 0, s.env, s.slots[0].(phase := Deciding(op, token, size))))
  {
    hide Reachable;
    var e, t := s.env, s.slots[0];
    var s1 := Listing(cap, p, s, op, token, {0, 1, 2, BASE_DIR}, 0);
    var s2 := Listing(cap, p, s1, op, token, {0, 1, 2, BASE_DIR} - {0}, 1);
    var s3 := Listing(cap, p, s2, op, token, {0, 1, 2, BASE_DIR} - {0} - {1}, 2);
    assert {0, 1, 2, BASE_DIR} - {0} - {1} - {2} == {BASE_DIR};
    var all := t.(phase := Scanning(op, token, {}, {0}, 0));
    assert Listed(e.items, BASE_DIR) == {0};
    assert {BASE_DIR} - {BASE_DIR} == {} && {} + Listed(e.items, BASE_DIR) == {0};
    assert ListMoves(e, s3.slots[0], BASE_DIR, e, all);
    GoTo(cap, p, s3, 0, all.phase);
    var s4 := Next(s3, 0, e, all);
    var counted := t.(phase := Scanning(op, token, {}, {}, size));
    assert {0} - {0} == {};
    assert StatMoves(p, e, all, 0, e, counted);
    GoTo(cap, p, s4, 0, counted.phase);
    var s5 := Next(s4, 0, e, counted);
    GoTo(cap, p, s5, 0, Deciding(op, token, size));
    assert s5.slots[0 := t.(phase := Deciding(op, token, size))] ==
           s.slots[0 := t.(phase := Deciding(op, token, size))];
  }

  lemma Listing(cap: int, p: Policy, s: State, op: Op, token: nat, left: set<nat>, dir: nat) returns (s': State)
    requires Reachable(cap, p, s) && Calm(s.env) && |s.slots| == 2 && dir in left && dir < BASE_DIR
    requires s.slots[0].phase == Scanning(op, token, left, {}, 0)
    requires |s.env.items| == 1 && s.env.items[0].dir == BASE_DIR
    ensures s' == Next(s, 0, s.env, s.slots[0].(phase := Scanning(op, token, left - {dir}, {}, 0)))
    ensures Reachable(cap, p, s')
  {
    hide Reachable;
    var phase := Scanning(op, token, left - {dir}, {}, 0);
    assert Listed(s.env.items, dir) == {};
    assert {} + Listed(s.env.items, dir) == {};
    assert ListMoves(s.env, s.slots[0], dir, s.env, s.slots[0].(phase := phase));
    GoTo(cap, p, s, 0, phase);
    s' := Next(s, 0, s.env, s.slots[0].(phase := phase));
  }

  /** Reserve a, extend by b. */
  lemma ReservesAndExtends(cap: int, p: Policy, a: nat, b: nat) returns (s: State)
    requires 0 < a && 0 < b && a + b <= cap
    ensures Reachable(cap, p, s)
    ensures s == State(Env(0, 2, NoLock, [Item(BASE_DIR, a + b, Marker, 0)]), [Slot(Open, a + b, Some(0), None), IDLE])
  {
    hide Reachable;
    var op, marker := OpExtend(b), Item(BASE_DIR, a, Marker, 0);
    Begin(cap, p, START);
    Reserves(cap, p, START, 0, a);
    var t := Slot(Open, a, Some(0), None);
    var s1 := Next(START, 0, START.env.(serial := 1, items := [] + [marker]), t);
    Enter(cap, p, s1, 0, op);
    var s2 := Next(s1, 0, s1.env.(serial := 2, lock := Lock(Some(1), 0)), t.(phase := FreshScan(op, 1)));
    CountsOwnMarker(cap, p, s2, op, 1, a);
    var s3 := Next(s2, 0, s2.env, t.(phase := Deciding(op, 1, a)));
    var longer := Item(BASE_DIR, a + b, Marker, 0);
    var s4 := Next(s3, 0, s3.env.(items := [longer]), Slot(Unlocking(1, AtOpen), a + b, Some(0), None));
    assert s4.env.items == s3.env.items[0 := longer];
    Go(cap, p, s3, 0, s4.env, s4.slots[0]);
    Leave(cap, p, s4, 0);
    s := Next(s4, 0, s4.env.(lock := NoLock), Slot(Open, a + b, Some(0), None));
  }

  /** Then write as much and commit: the reservation turns into the file. */
  lemma CommitsWhole(cap: int, p: Policy, a: nat, b: nat) returns (s: State)
    requires 0 < a && 0 < b && a + b <= cap
    ensures Reachable(cap, p, s) && Calm(s.env)
    ensures s.slots == [Slot(Filed, 0, None, Some(1)), IDLE] && s.env.lock.NoLock?
    ensures s.env.items == [Item(BASE_DIR, a + b, Gone, 0), Item(0, a + b, Final, 0)]
  {
    hide Reachable;
    var s4, t := RemovesMarker(cap, p, a, b);
    var total := ScanEnds(cap, p, s4, 0);
    var s5 := Next(s4, 0, s4.env, t.(phase := Deciding(OpFinish(true), 2, total)));
    var s6 := Next(s5, 0, SetKind(s5.env, 1, Final), Slot(Unlocking(2, AtFiled), 0, None, Some(1)));
    Go(cap, p, s5, 0, s6.env, s6.slots[0]);
    Leave(cap, p, s6, 0);
    s := Next(s6, 0, s6.env.(lock := NoLock), Slot(Filed, 0, None, Some(1)));
  }

  /** A commit up to where its marker is removed and the directories are to be scanned. */
  lemma RemovesMarker(cap: int, p: Policy, a: nat, b: nat) returns (s: State, t: Slot)
    requires 0 < a && 0 < b && a + b <= cap
    ensures Reachable(cap, p, s) && t == Slot(Open, a + b, Some(0), Some(1))
    ensures s.slots == [t.(phase := FreshScan(OpFinish(true), 2)), IDLE]
    ensures s.env.items == [Item(BASE_DIR, a + b, Gone, 0), Item(0, a + b, Exposed, 0)]
    ensures Calm(s.env) && s.env.serial == 3 && s.env.lock == Lock(Some(2), 0)
  {
    hide Reachable;
    var n := a + b;
    var s1 := ReservesAndExtends(cap, p, a, b);
    WritesFile(cap, p, s1, 0, n);
    t := Slot(Open, n, Some(0), Some(1));
    var s2 := Next(s1, 0, s1.env.(items := s1.env.items + [Item(0, n, Partial, 0)]), t);
    Enter(cap, p, s2, 0, OpFinish(true));
    var s3 := Next(s2, 0, s2.env.(serial := 3, lock := Lock(Some(2), 0)), t.(phase := Removing(true, 2)));
    s := Next(s3, 0, Unmarked(s3.env, s3.slots[0]), t.(phase := FreshScan(OpFinish(true), 2)));
    Go(cap, p, s3, 0, s.env, s.slots[0]);
  }

  /** And deleting the file leaves nothing behind. */
  lemma WholeLife(cap: int, p: Policy, a: nat, b: nat) returns (filed: State, end: State)
    requires 0 < a && 0 < b && a + b <= cap
    ensures Reachable(cap, p, filed) && Reachable(cap, p, end)
    ensures filed.slots == [Slot(Filed, 0, None, Some(1)), IDLE] && filed.env.lock.NoLock?
    ensures filed.env.items == [Item(BASE_DIR, a + b, Gone, 0), Item(0, a + b, Final, 0)]
    ensures end.slots == [IDLE, IDLE] && end.env.lock.NoLock? && Taken(end.env.items) == 0
  {
    hide Reachable;
    var gone, file := Item(BASE_DIR, a + b, Gone, 0), Item(0, a + b, Gone, 0);
    filed := CommitsWhole(cap, p, a, b);
    end := Next(filed, 0, SetKind(filed.env, 1, Gone), IDLE);
    Go(cap, p, filed, 0, end.env, IDLE);
    assert end.env.items == [] + [gone] + [file];
    TakenAppend([], gone);
    TakenAppend([] + [gone], file);
  }
}
