/**
 Lock files of the shared cache that are left behind (common/disk_cache_config.go): when that happens, and what it
 costs everybody else.
 */
module SharedLock {
  import opened Wrappers
  import opened DiskCacheShared
  import opened DiskCacheOverfill

  /** A lock file is there only while somebody is inside the lock. */
  predicate Held(s: State) {
    s.env.lock.Lock? ==> exists i :: 0 <= i < |s.slots| && Holds(s.slots[i].phase)
  }

  // ---------------------------------------------------------------- when a lock file is left behind

  /** A slot that releases the lock reads its own token there, and goes on to remove the file. */
  predicate ReadsToken(t: Slot, t': Slot) {
    t.phase.Unlocking? ==> t' == t || t'.phase == Deleting(t.phase.token, t.phase.after)
  }

  /** The slot has failed to write or to close the lock file it created. */
  predicate GivesUpNaming(t: Slot, t': Slot) {
    t.phase.Naming? && !t'.phase.Naming? && !t'.phase.Removing? && !t'.phase.Scanning?
  }

  /** Removing the lock file, after reading the token or after giving up, succeeds. */
  predicate RemovesFile(t: Slot, e': Env, t': Slot) {
    (t.phase.Deleting? && t' != t) || GivesUpNaming(t, t') ==> e'.lock.NoLock?
  }

  predicate LeavesClean(s: State, s': State) {
    forall i :: 0 <= i < |s.slots| && i < |s'.slots| ==>
      ReadsToken(s.slots[i], s'.slots[i]) && RemovesFile(s.slots[i], s'.env, s'.slots[i])
  }

  lemma MoveLeavesIff(cap: int, p: Policy, e: Env, t: Slot, e': Env, t': Slot)
    requires Ready(cap, p, e, t) && Moves(cap, p, e, t, e', t')
    ensures ReadsToken(t, t') && RemovesFile(t, e', t') <==> !(Holds(t.phase) && !Holds(t'.phase) && e'.lock.Lock?)
    ensures LockStep(e, t, e', t')
  {
    hide Passed, FileMoves, MarkedMoves, EmptyMoves, Careful;
    if t.phase.Open? {
      MoveEffect(cap, p, e, t, e', t');
    }
  }

  lemma StepLeavesCleanIff(cap: int, p: Policy, s: State, s': State)
    requires Inv(cap, p, s) && Inv(cap, p, s') && Fresh(s) && Step(cap, p, s, s') && Held(s)
    ensures Held(s') <==> LeavesClean(s, s')
  {
    hide Passed, Owned, Moves, Sized, Claims, LockIsOwn;
    if i :| 0 <= i < |s.slots| && |s'.slots| == |s.slots| && s'.slots == s.slots[i := s'.slots[i]] &&
            Moves(cap, p, s.env, s.slots[i], s'.env, s'.slots[i]) {
      assert Ready(cap, p, s.env, s.slots[i]);
      MoveLeavesIff(cap, p, s.env, s.slots[i], s'.env, s'.slots[i]);
      assert forall j :: 0 <= j < |s.slots| && j != i ==> s'.slots[j] == s.slots[j];
      if s'.env.lock.Lock? && Holds(s'.slots[i].phase) {
        assert Held(s');
      } else if h :| 0 <= h < |s.slots| && Holds(s.slots[h].phase) && h != i {
        assert s'.slots[h] == s.slots[h];
      }
    } else {
      assert s'.slots == s.slots && s'.env.lock == s.env.lock;
    }
  }

  /**
   In every state of the run the lock file is that of a slot still inside, exactly if every release could read
   its token and every removal of a lock file succeeded.
   */
  lemma NoOrphanLockIff(cap: int, p: Policy, run: seq<State>)
    requires 0 <= cap && IsRun(cap, p, run)
    ensures (forall k :: 0 <= k < |run| ==> Held(run[k])) <==>
            (forall k :: 0 <= k < |run| - 1 ==> LeavesClean(run[k], run[k + 1]))
  {
    hide Inv, Step, Fresh, Held, LeavesClean;
    if forall k :: 0 <= k < |run| ==> Held(run[k]) {
      forall k | 0 <= k < |run| - 1 ensures LeavesClean(run[k], run[k + 1]) {
        RunHolds(cap, p, run, k);
        RunHolds(cap, p, run, k + 1);
        StepLeavesCleanIff(cap, p, run[k], run[k + 1]);
      }
    }
    if forall k :: 0 <= k < |run| - 1 ==> LeavesClean(run[k], run[k + 1]) {
      forall k | 0 <= k < |run| ensures Held(run[k]) {
        CleanRunHeld(cap, p, run, k);
      }
    }
  }

  lemma {:induction false} CleanRunHeld(cap: int, p: Policy, run: seq<State>, k: nat)
    requires 0 <= cap && IsRun(cap, p, run) && k < |run|
    requires forall k :: 0 <= k < |run| - 1 ==> LeavesClean(run[k], run[k + 1])
    ensures Held(run[k])
  {
    hide Inv, Step, Fresh, LeavesClean;
    if k > 0 {
      CleanRunHeld(cap, p, run, k - 1);
      RunHolds(cap, p, run, k - 1);
      RunHolds(cap, p, run, k);
      StepLeavesCleanIff(cap, p, run[k - 1], run[k]);
    }
  }

  /** It does happen: a lock file is created, cannot be written, and cannot be removed. */
  lemma OrphanedByNaming(cap: int, p: Policy) returns (s: State)
    requires 0 < cap
    ensures Reachable(cap, p, s) && !Held(s) && s.slots == [IDLE, IDLE]
  {
    hide Reachable;
    var op := OpReserve(cap);
    Begin(cap, p, START);
    var s1 := Next(START, 0, START.env, IDLE.(phase := Seeking(op)));
    GoTo(cap, p, START, 0, Seeking(op));
    var s2 := Next(s1, 0, s1.env.(lock := Lock(None, 0)), IDLE.(phase := Naming(op)));
    Go(cap, p, s1, 0, s2.env, s2.slots[0]);
    s := Next(s2, 0, s2.env, IDLE);
    Go(cap, p, s2, 0, s2.env, IDLE);
  }

  /** And a reservation that succeeds can leave one behind: its release cannot read the file. */
  lemma OrphanedByRelease(cap: int, p: Policy) returns (s: State)
    requires 0 < cap
    ensures Reachable(cap, p, s) && !Held(s) && s.slots == [Slot(Open, cap, Some(0), None), IDLE]
  {
    hide Reachable;
    var op, marker := OpReserve(cap), Item(BASE_DIR, cap, Marker, 0);
    Begin(cap, p, START);
    Enter(cap, p, START, 0, op);
    var s1 := Next(START, 0, START.env.(serial := 1, lock := Lock(Some(0), 0)), IDLE.(phase := FreshScan(op, 0)));
    var total := ScanEnds(cap, p, s1, 0);
    var s2 := Next(s1, 0, s1.env, IDLE.(phase := Deciding(op, 0, total)));
    var s3 := Next(s2, 0, s2.env.(items := [] + [marker]), Slot(Unlocking(0, AtOpen), cap, Some(0), None));
    Go(cap, p, s2, 0, s3.env, s3.slots[0]);
    s := Next(s3, 0, s3.env, Slot(Open, cap, Some(0), None));
    Go(cap, p, s3, 0, s3.env, s.slots[0]);
  }

  // ---------------------------------------------------------------- what it costs

  /** A lock file is there, and nobody is inside. */
  predicate Orphaned(s: State) {
    s.env.lock.Lock? && forall i :: 0 <= i < |s.slots| ==> !Holds(s.slots[i].phase)
  }

  /** A slot outside a lock that is there stays outside: whoever seeks it waits or gives up. */
  lemma MoveIsShutOut(cap: int, p: Policy, e: Env, t: Slot, e': Env, t': Slot)
    requires Ready(cap, p, e, t) && Moves(cap, p, e, t, e', t') && e.lock.Lock? && !Holds(t.phase)
    ensures !Holds(t'.phase) && e'.lock == e.lock
    ensures t.phase.Seeking? ==> e' == e && (t' == t || t' == GiveUp(t, t.phase.op))
    ensures t'.marker.Some? ==> t'.marker == t.marker && t'.size == t.size
  {
    hide Passed, Careful;
  }

  lemma StepIsShutOut(cap: int, p: Policy, s: State, s': State)
    requires Inv(cap, p, s) && Fresh(s) && Step(cap, p, s, s') && Orphaned(s)
    ensures Orphaned(s') && s'.env.lock == s.env.lock && |s'.slots| == |s.slots|
    ensures forall i :: 0 <= i < |s'.slots| && s'.slots[i].marker.Some? ==>
      s'.slots[i].marker == s.slots[i].marker && s'.slots[i].size == s.slots[i].size
  {
    hide Passed, Owned, Moves, Sized, Claims, LockIsOwn;
    if i :| 0 <= i < |s.slots| && |s'.slots| == |s.slots| && s'.slots == s.slots[i := s'.slots[i]] &&
            Moves(cap, p, s.env, s.slots[i], s'.env, s'.slots[i]) {
      assert Ready(cap, p, s.env, s.slots[i]);
      MoveIsShutOut(cap, p, s.env, s.slots[i], s'.env, s'.slots[i]);
    }
  }

  /**
   Until it is stale, a lock left behind shuts everybody out: from then on it stays, nobody is inside, and no
   reservation with a marker is gained or grows.
   */
  lemma {:induction false} OrphanShutsOut(cap: int, p: Policy, run: seq<State>, k: nat, m: nat)
    requires 0 <= cap && IsRun(cap, p, run) && k <= m < |run| && Orphaned(run[k])
    ensures Orphaned(run[m]) && run[m].env.lock == run[k].env.lock && |run[m].slots| == |run[k].slots|
    ensures forall i :: 0 <= i < |run[m].slots| && run[m].slots[i].marker.Some? ==>
      run[m].slots[i].marker == run[k].slots[i].marker && run[m].slots[i].size == run[k].slots[i].size
  {
    hide Inv, Step, Fresh, Orphaned;
    if k < m {
      OrphanShutsOut(cap, p, run, k, m - 1);
      RunHolds(cap, p, run, m - 1);
      StepIsShutOut(cap, p, run[m - 1], run[m]);
    }
  }
}
