/**
 How the shared cache is filled to twice its cap: one run for each liberty that a careful use of it does without.
 Together with the safety of careful use this makes the condition for the cap exact.
 */
module DiskCacheOverfill {
  import opened Wrappers
  import opened DiskCacheShared

  ghost predicate EndsIn(cap: int, p: Policy, run: seq<State>, s: State) {
    IsRun(cap, p, run) && run[|run| - 1] == s
  }

  ghost predicate Reachable(cap: int, p: Policy, s: State) {
    exists run :: EndsIn(cap, p, run, s)
  }

  /** Everything happens within one second. */
  predicate Calm(e: Env) {
    && e.clock == 0 && (e.lock.Lock? ==> e.lock.created == 0)
    && forall id :: 0 <= id < |e.items| ==> e.items[id].modified == 0
  }

  function Next(s: State, i: nat, e': Env, t': Slot): State
    requires i < |s.slots|
  {
    State(e', s.slots[i := t'])
  }

  lemma Begin(cap: int, p: Policy, s: State)
    requires Init(s) && Calm(s.env)
    ensures Reachable(cap, p, s)
  {
    assert EndsIn(cap, p, [s], s);
  }

  /** One more step of slot i. */
  lemma Go(cap: int, p: Policy, s: State, i: nat, e': Env, t': Slot)
    requires Reachable(cap, p, s) && i < |s.slots| && Calm(e')
    requires Moves(cap, p, s.env, s.slots[i], e', t')
    ensures Reachable(cap, p, Next(s, i, e', t'))
  {
    hide Moves;
    var run :| EndsIn(cap, p, run, s);
    var s' := Next(s, i, e', t');
    assert Fresh(s');
    assert s'.slots == s.slots[i := s'.slots[i]];
    assert Step(cap, p, s, s');
    assert EndsIn(cap, p, run + [s'], s');
  }

  /** A step that changes the slot's phase only. */
  lemma GoTo(cap: int, p: Policy, s: State, i: nat, phase: Phase)
    requires Reachable(cap, p, s) && i < |s.slots| && Calm(s.env)
    requires Moves(cap, p, s.env, s.slots[i], s.env, s.slots[i].(phase := phase))
    ensures Reachable(cap, p, Next(s, i, s.env, s.slots[i].(phase := phase)))
  {
    hide Moves, Reachable;
    Go(cap, p, s, i, s.env, s.slots[i].(phase := phase));
  }

  // ---------------------------------------------------------------- parts of runs

  predicate AllEmpty(items: seq<Item>) {
    forall id :: 0 <= id < |items| && !items[id].kind.Gone? ==> items[id].size == 0
  }

  /** A scan can always be finished; it adds nothing up if there is nothing, or if it misses everything. */
  lemma {:induction false} ScanEnds(cap: int, p: Policy, s: State, i: nat) returns (total: int)
    requires Reachable(cap, p, s) && i < |s.slots| && Calm(s.env) && s.slots[i].phase.Scanning?
    requires forall id :: id in s.slots[i].phase.todo ==> id < |s.env.items|
    ensures var t := s.slots[i];
      Reachable(cap, p, Next(s, i, s.env, t.(phase := Deciding(t.phase.op, t.phase.token, total))))
    ensures p.missesFiles || AllEmpty(s.env.items) ==> total == s.slots[i].phase.total
    decreases |s.slots[i].phase.left|, |s.slots[i].phase.todo|
  {
    hide Reachable;
    var e, t := s.env, s.slots[i];
    var Scanning(op, token, left, todo, sum) := t.phase;
    var next: Phase;
    if todo != {} {
      var id :| id in todo;
      next := if p.missesFiles || e.items[id].kind.Gone? then Scanning(op, token, left, todo - {id}, sum)
              else Scanning(op, token, left, todo - {id}, sum + e.items[id].size);
      assert StatMoves(p, e, t, id, e, t.(phase := next));
    } else if left != {} {
      var dir :| dir in left;
      next := Scanning(op, token, left - {dir}, todo + Listed(e.items, dir), sum);
      assert ListMoves(e, t, dir, e, t.(phase := next));
    } else {
      GoTo(cap, p, s, i, Deciding(op, token, sum));
      return sum;
    }
    GoTo(cap, p, s, i, next);
    var s' := Next(s, i, e, t.(phase := next));
    total := ScanEnds(cap, p, s', i);
    assert s'.slots[i := t.(phase := Deciding(op, token, total))] ==
           s.slots[i := t.(phase := Deciding(op, token, total))];
  }

  /** From outside the lock into it, up to the first step that depends on what is wanted. */
  lemma Enter(cap: int, p: Policy, s: State, i: nat, op: Op)
    requires Reachable(cap, p, s) && i < |s.slots| && Calm(s.env) && s.env.lock.NoLock?
    requires Moves(cap, p, s.env, s.slots[i], s.env, s.slots[i].(phase := Seeking(op)))
    ensures var e := s.env;
      var inside := if op.OpFinish? then Removing(op.commit, e.serial) else FreshScan(op, e.serial);
      Reachable(cap, p,
                Next(s, i, e.(serial := e.serial + 1, lock := Lock(Some(e.serial), 0)), s.slots[i].(phase := inside)))
  {
    hide Reachable;
    var e, t := s.env, s.slots[i];
    var inside := if op.OpFinish? then Removing(op.commit, e.serial) else FreshScan(op, e.serial);
    var s1 := Next(s, i, e, t.(phase := Seeking(op)));
    GoTo(cap, p, s, i, Seeking(op));
    var s2 := Next(s1, i, e.(lock := Lock(None, 0)), t.(phase := Naming(op)));
    Go(cap, p, s1, i, s2.env, s2.slots[i]);
    var s3 := Next(s2, i, e.(serial := e.serial + 1, lock := Lock(Some(e.serial), 0)), t.(phase := inside));
    Go(cap, p, s2, i, s3.env, s3.slots[i]);
    assert s3.slots == s.slots[i := t.(phase := inside)];
  }

  /** Out of the lock, removing its file. */
  lemma Leave(cap: int, p: Policy, s: State, i: nat)
    requires Reachable(cap, p, s) && i < |s.slots| && Calm(s.env) && s.slots[i].phase.Unlocking?
    requires s.env.lock == Lock(Some(s.slots[i].phase.token), 0)
    ensures Reachable(cap, p, Next(s, i, s.env.(lock := NoLock), s.slots[i].(phase := Goto(s.slots[i].phase.after))))
  {
    hide Reachable;
    var t := s.slots[i];
    var s1 := Next(s, i, s.env, t.(phase := Deleting(t.phase.token, t.phase.after)));
    GoTo(cap, p, s, i, s1.slots[i].phase);
    Go(cap, p, s1, i, s.env.(lock := NoLock), t.(phase := Goto(t.phase.after)));
    assert s1.slots[i := t.(phase := Goto(t.phase.after))] == s.slots[i := t.(phase := Goto(t.phase.after))];
  }

  /** An idle slot reserves up to the whole cap, if its scan sees nothing. */
  lemma Reserves(cap: int, p: Policy, s: State, i: nat, want: int)
    requires 0 < want <= cap && Reachable(cap, p, s) && i < |s.slots| && Calm(s.env) && s.env.lock.NoLock?
    requires s.slots[i] == IDLE && (p.missesFiles || AllEmpty(s.env.items))
    ensures var items := s.env.items + [Item(BASE_DIR, want, Marker, 0)];
      Reachable(cap, p,
                Next(s, i, s.env.(serial := s.env.serial + 1, items := items),
                     Slot(Open, want, Some(|s.env.items|), None)))
  {
    hide Reachable;
    var e, op, token := s.env, OpReserve(want), s.env.serial;
    Enter(cap, p, s, i, op);
    var s1 := Next(s, i, e.(serial := token + 1, lock := Lock(Some(token), 0)), IDLE.(phase := FreshScan(op, token)));
    var total := ScanEnds(cap, p, s1, i);
    var s2 := Next(s1, i, s1.env, IDLE.(phase := Deciding(op, token, total)));
    var marked := s2.env.(items := e.items + [Item(BASE_DIR, want, Marker, 0)]);
    var s3 := Next(s2, i, marked, Slot(Unlocking(token, AtOpen), want, Some(|e.items|), None));
    Go(cap, p, s2, i, s3.env, s3.slots[i]);
    Leave(cap, p, s3, i);
    assert s3.slots[i := Slot(Open, want, Some(|e.items|), None)] ==
           s.slots[i := Slot(Open, want, Some(|e.items|), None)];
  }

  /** An open reservation without a file gets one of the given size. */
  lemma WritesFile(cap: int, p: Policy, s: State, i: nat, size: nat)
    requires Reachable(cap, p, s) && i < |s.slots| && Calm(s.env) && !Lost(s.env, s.slots[i])
    requires s.slots[i].phase.Open? && s.slots[i].file.None?
    ensures var items := s.env.items + [Item(0, size, Partial, 0)];
      Reachable(cap, p, Next(s, i, s.env.(items := items), s.slots[i].(file := Some(|s.env.items|))))
  {
    hide Reachable;
    var t, id := s.slots[i], |s.env.items|;
    var s1 := Next(s, i, s.env.(items := s.env.items + [Item(0, 0, Partial, 0)]), t.(file := Some(id)));
    assert WriteMoves(s.env, t, s1.env, s1.slots[i]);
    Go(cap, p, s, i, s1.env, s1.slots[i]);
    var e2 := s.env.(items := s.env.items + [Item(0, size, Partial, 0)]);
    assert e2.items == s1.env.items[id := Item(0, size, Partial, 0)];
    assert WriteMoves(s1.env, s1.slots[i], e2, s1.slots[i]);
    Go(cap, p, s1, i, e2, s1.slots[i]);
    assert s1.slots[i := s1.slots[i]] == s1.slots;
  }

  // ---------------------------------------------------------------- four ways to overfill

  const START := State(Env(0, 0, NoLock, []), [IDLE, IDLE])

  lemma TakenAppend(items: seq<Item>, item: Item)
    ensures Taken(items + [item]) == Taken(items) + if item.kind.Marker? || item.kind.Final? then item.size else 0
  {
    assert (items + [item])[..|items|] == items;
  }

  /** A reservation of zero bytes, extended to the whole cap inside its own process, and committed. */
  lemma EmptyFills(cap: int, p: Policy, s: State, i: nat)
    requires 0 < cap && p.extendsEmpty && Reachable(cap, p, s) && i < |s.slots| && Calm(s.env) && s.slots[i] == IDLE
    ensures var items := s.env.items + [Item(0, cap, Final, 0)];
      Reachable(cap, p, Next(s, i, s.env.(items := items), Slot(Filed, 0, None, Some(|s.env.items|))))
  {
    hide Reachable;
    var e, id := s.env, |s.env.items|;
    var s1 := Next(s, i, e, Slot(Open, 0, None, None));
    Go(cap, p, s, i, e, s1.slots[i]);
    var s2 := Next(s1, i, e, Slot(Open, cap, None, None));
    Go(cap, p, s1, i, e, s2.slots[i]);
    WritesFile(cap, p, s2, i, cap);
    var s3 := Next(s2, i, e.(items := e.items + [Item(0, cap, Partial, 0)]), Slot(Open, cap, None, Some(id)));
    var e4 := e.(items := e.items + [Item(0, cap, Final, 0)]);
    assert e4.items == s3.env.items[id := Item(0, cap, Final, 0)];
    Go(cap, p, s3, i, e4, Slot(Filed, 0, None, Some(id)));
    assert s3.slots[i := Slot(Filed, 0, None, Some(id))] == s.slots[i := Slot(Filed, 0, None, Some(id))];
  }

  lemma EmptyOverfills(cap: int, p: Policy) returns (s: State)
    requires 0 < cap && p.extendsEmpty
    ensures Reachable(cap, p, s) && Taken(s.env.items) == 2 * cap
  {
    hide Reachable;
    Begin(cap, p, START);
    EmptyFills(cap, p, START, 0);
    var file := Item(0, cap, Final, 0);
    var s1 := Next(START, 0, START.env.(items := [] + [file]), Slot(Filed, 0, None, Some(0)));
    EmptyFills(cap, p, s1, 1);
    s := Next(s1, 1, s1.env.(items := s1.env.items + [file]), Slot(Filed, 0, None, Some(1)));
    TakenAppend([], file);
    TakenAppend([] + [file], file);
  }

  /** Two reservations of the whole cap, the second by a scan that could not stat the first one's marker. */
  lemma MissedOverfills(cap: int, p: Policy) returns (s: State)
    requires 0 < cap && p.missesFiles
    ensures Reachable(cap, p, s) && Taken(s.env.items) == 2 * cap
  {
    hide Reachable;
    var marker := Item(BASE_DIR, cap, Marker, 0);
    Begin(cap, p, START);
    Reserves(cap, p, START, 0, cap);
    var s1 := Next(START, 0, START.env.(serial := 1, items := [] + [marker]), Slot(Open, cap, Some(0), None));
    Reserves(cap, p, s1, 1, cap);
    s := Next(s1, 1, s1.env.(serial := 2, items := s1.env.items + [marker]), Slot(Open, cap, Some(1), None));
    TakenAppend([], marker);
    TakenAppend([] + [marker], marker);
  }

  /** A file of twice the cap, refused by the first Commit and accepted by the second. */
  lemma RefusedOverfills(cap: int, p: Policy) returns (s: State)
    requires 0 < cap && p.keepsRefused
    ensures Reachable(cap, p, s) && Taken(s.env.items) == 2 * cap
  {
    hide Reachable;
    var e := START.env;
    Begin(cap, p, START);
    var s1 := Next(START, 0, e, Slot(Open, 0, None, None));
    Go(cap, p, START, 0, e, s1.slots[0]);
    WritesFile(cap, p, s1, 0, 2 * cap);
    var s2 := Next(s1, 0, e.(items := [] + [Item(0, 2 * cap, Partial, 0)]), Slot(Open, 0, None, Some(0)));
    var s3 := Next(s2, 0, s2.env, Slot(Spoiled, 0, None, Some(0)));
    Go(cap, p, s2, 0, s3.env, s3.slots[0]);
    var file := Item(0, 2 * cap, Final, 0);
    s := Next(s3, 0, e.(items := [] + [file]), Slot(Filed, 0, None, Some(0)));
    assert s.env == SetKind(s3.env, 0, Final);
    Go(cap, p, s3, 0, s.env, s.slots[0]);
    TakenAppend([], file);
  }

  /** The first slot reserves the cap, creates its file, and fails a Commit after its marker was removed. */
  lemma LosesMarker(cap: int, p: Policy) returns (s: State)
    requires 0 < cap
    ensures Reachable(cap, p, s)
    ensures s == State(Env(0, 2, NoLock, [Item(BASE_DIR, cap, Gone, 0), Item(0, 0, Exposed, 0)]),
                       [Slot(Open, cap, Some(0), Some(1)), IDLE])
  {
    hide Reachable;
    var marker, file := Item(BASE_DIR, cap, Marker, 0), Item(0, 0, Partial, 0);
    Begin(cap, p, START);
    Reserves(cap, p, START, 0, cap);
    var s1 := Next(START, 0, START.env.(serial := 1, items := [] + [marker]), Slot(Open, cap, Some(0), None));
    WritesFile(cap, p, s1, 0, 0);
    var s2 := Next(s1, 0, s1.env.(items := s1.env.items + [file]), Slot(Open, cap, Some(0), Some(1)));
    Enter(cap, p, s2, 0, OpFinish(true));
    var s3 := Next(s2, 0, s2.env.(serial := 2, lock := Lock(Some(1), 0)), s2.slots[0].(phase := Removing(true, 1)));
    var s4 := Next(s3, 0, Unmarked(s3.env, s3.slots[0]), s3.slots[0].(phase := FreshScan(OpFinish(true), 1)));
    Go(cap, p, s3, 0, s4.env, s4.slots[0]);
    var s5 := Next(s4, 0, s4.env, s4.slots[0].(phase := Unlocking(1, AtOpen)));
    GoTo(cap, p, s4, 0, Unlocking(1, AtOpen));
    Leave(cap, p, s5, 0);
    s := Next(s5, 0, s5.env.(lock := NoLock), s5.slots[0].(phase := Open));
  }

  /** It then writes the whole cap, although another process has reserved the cap since, and commits again. */
  lemma LostOverfills(cap: int, p: Policy) returns (s: State)
    requires 0 < cap && p.writesLost
    ensures Reachable(cap, p, s) && Taken(s.env.items) == 2 * cap
  {
    hide Reachable;
    var lost, marker := Item(BASE_DIR, cap, Gone, 0), Item(BASE_DIR, cap, Marker, 0);
    var s1 := LosesMarker(cap, p);
    Reserves(cap, p, s1, 1, cap);
    var s2 := Next(s1, 1, s1.env.(serial := 3, items := s1.env.items + [marker]), Slot(Open, cap, Some(2), None));
    var t := s2.slots[0];
    var s3 := Next(s2, 0, s2.env.(items := [lost, Item(0, cap, Exposed, 0), marker]), t);
    assert s3.env.items == s2.env.items[1 := Item(0, cap, Exposed, 0)];
    assert WriteMoves(s2.env, t, s3.env, t);
    Go(cap, p, s2, 0, s3.env, t);
    Enter(cap, p, s3, 0, OpFinish(true));
    var s4 := Next(s3, 0, s3.env.(serial := 4, lock := Lock(Some(3), 0)), t.(phase := Removing(true, 3)));
    assert Unmarked(s4.env, s4.slots[0]).items == s4.env.items;
    var s5 := Next(s4, 0, s4.env, t.(phase := FreshScan(OpFinish(true), 3)));
    Go(cap, p, s4, 0, s5.env, s5.slots[0]);
    var total := ScanEnds(cap, p, s5, 0);
    var s6 := Next(s5, 0, s5.env, t.(phase := Deciding(OpFinish(true), 3, total)));
    s := Next(s6, 0, SetKind(s6.env, 1, Final), Slot(Unlocking(3, AtFiled), 0, None, Some(1)));
    Go(cap, p, s6, 0, s.env, s.slots[0]);
    LostTaken(cap, s.env.items);
  }

  lemma LostTaken(cap: int, items: seq<Item>)
    requires items == [Item(BASE_DIR, cap, Gone, 0), Item(0, cap, Final, 0), Item(BASE_DIR, cap, Marker, 0)]
    ensures Taken(items) == 2 * cap
  {
    TakenAppend([], items[0]);
    TakenAppend([] + [items[0]], items[1]);
    TakenAppend([] + [items[0]] + [items[1]], items[2]);
    assert items == [] + [items[0]] + [items[1]] + [items[2]];
  }

  // ---------------------------------------------------------------- exactly when the cap holds

  /**
   Across all processes, in every run without stale locks or live stale markers, finalized files and markers stay
   within the cap, exactly if callers never extend a reservation opened with zero bytes, never write to a file
   after a Commit that lost its marker failed, never keep a file whose Commit was refused, and no file that is
   there is missed by a scan.
   */
  lemma CapHoldsIff(cap: int, p: Policy)
    requires 0 < cap
    ensures CapSafe(cap, p) <==> Careful(p)
  {
    hide Reachable, CapSafe, Taken;
    if Careful(p) {
      CarefulIsSafe(cap, p);
    } else {
      var s;
      if p.extendsEmpty {
        s := EmptyOverfills(cap, p);
      } else if p.missesFiles {
        s := MissedOverfills(cap, p);
      } else if p.keepsRefused {
        s := RefusedOverfills(cap, p);
      } else {
        s := LostOverfills(cap, p);
      }
      ReachableIsUnsafe(cap, p, s);
    }
  }

  lemma ReachableIsUnsafe(cap: int, p: Policy, s: State)
    requires Reachable(cap, p, s) && Taken(s.env.items) > cap
    ensures !CapSafe(cap, p)
  {
    hide Taken;
    var run :| EndsIn(cap, p, run, s);
    assert IsRun(cap, p, run) && |run| - 1 < |run|;
  }
}
