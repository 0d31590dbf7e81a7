/**
 The byte allocator of common/disk_cache_config.go when several processes share one cache
 directory.  They coordinate through a lock file and one marker file per reservation, whose
 length is the reserved size.  A slot is one goroutine of some process.  Creating, writing,
 statting, renaming and removing a file are separate steps, a directory scan is many steps,
 and files are written and deleted by their owners without taking the lock.  Any operation on a
 file may fail.  A reservation is used by one goroutine, up to its first Release or successful Commit.
 */
module DiskCacheShared {
  import opened Wrappers

  // ---------------------------------------------------------------- files

  datatype Kind =
    | Marker     // stands for the bytes of a reservation
    | Partial    // a file being written under a reservation
    | Exposed    // a file that fits its reservation, whose marker is gone although it is not committed
    | Final      // a file whose reservation was committed
    | Gone       // removed, or a marker past its age, which no scan counts any more

  datatype Item = Item(dir: nat, size: int, kind: Kind, modified: int)

  /** The three cache directories are 0, 1 and 2; markers live in the base directory. */
  const BASE_DIR: nat := 3
  const LOCK_STALE := 600
  const MARKER_STALE := 900

  /** What a process has to reckon with: markers, finalized files, and files that may yet be finalized unmarked. */
  function Charge(item: Item): int {
    if item.kind.Marker? || item.kind.Exposed? || item.kind.Final? then item.size else 0
  }

  /** An item's part in a scan that has yet to list the directories `left` and to read the items `todo`. */
  function Share(items: seq<Item>, left: set<nat>, todo: set<nat>, id: nat): int
    requires id < |items|
  {
    if items[id].dir in left || id in todo then 0 else Charge(items[id])
  }

  /** The charge that such a scan has passed. */
  function Passed(items: seq<Item>, left: set<nat>, todo: set<nat>): int {
    if items == [] then 0
    else Passed(items[..|items| - 1], left, todo) + Share(items, left, todo, |items| - 1)
  }

  function Charged(items: seq<Item>): int {
    Passed(items, {}, {})
  }

  /** What the cap is about: finalized files and markers. */
  function Taken(items: seq<Item>): int {
    if items == [] then 0
    else
      var last := items[|items| - 1];
      Taken(items[..|items| - 1]) + if last.kind.Marker? || last.kind.Final? then last.size else 0
  }

  function Listed(items: seq<Item>, dir: nat): set<nat> {
    set id | 0 <= id < |items| && items[id].dir == dir && !items[id].kind.Gone? :: id
  }

  // ---------------------------------------------------------------- slots

  /**
   What callers and the file system may do: extend a reservation opened with zero bytes; write to a file after
   a Commit that had already lost the marker failed; keep a file whose Commit was refused as too
   large; and fail to stat a file that is there.
   */
  datatype Policy = Policy(extendsEmpty: bool, writesLost: bool, keepsRefused: bool, missesFiles: bool)

  predicate Careful(p: Policy) {
    !p.extendsEmpty && !p.writesLost && !p.keepsRefused && !p.missesFiles
  }

  datatype Op = OpReserve(want: int) | OpExtend(more: int) | OpFinish(commit: bool)

  /** Where a slot is once it has released the lock. */
  datatype After = AtIdle | AtOpen | AtFiled | AtSpoiled

  datatype Phase =
    | Idle
    | Open                                                            // holds a reservation
    | Seeking(op: Op)                                                 // trying to create the lock file
    | TakingOver(op: Op)                                              // judged the lock stale, about to rename it
    | Naming(op: Op)                                                  // created the lock file, about to write its token
    | Scanning(op: Op, token: nat, left: set<nat>, todo: set<nat>, total: int)
    | Deciding(op: Op, token: nat, total: int)
    | Removing(commit: bool, token: nat)                              // about to remove its marker
    | Unlocking(token: nat, after: After)                             // about to compare the lock's token
    | Deleting(token: nat, after: After)                              // about to remove the lock file
    | Filed                                                           // owns a finalized file
    | Spoiled                                                         // must delete a file larger than its reservation

  datatype Slot = Slot(phase: Phase, size: int, marker: Option<nat>, file: Option<nat>)

  datatype LockFile = NoLock | Lock(content: Option<nat>, created: int)

  datatype Env = Env(clock: int, serial: nat, lock: LockFile, items: seq<Item>)

  const IDLE := Slot(Idle, 0, None, None)

  function Goto(after: After): Phase {
    match after
    case AtIdle => Idle
    case AtOpen => Open
    case AtFiled => Filed
    case AtSpoiled => Spoiled
  }

  /** Giving up on the lock. A release that gives up leaves its marker behind. */
  function GiveUp(t: Slot, op: Op): Slot {
    match op
    case OpReserve(_) => IDLE
    case OpExtend(_) => t.(phase := Open)
    case OpFinish(commit) => if commit then t.(phase := Open) else IDLE
  }

  predicate OwnsFile(e: Env, t: Slot) {
    t.file.Some? && t.file.value < |e.items|
  }

  predicate OwnsMarker(e: Env, t: Slot) {
    t.marker.Some? && t.marker.value < |e.items|
  }

  /** The reservation is open, but its marker was removed by a Commit that failed afterwards. */
  predicate Lost(e: Env, t: Slot) {
    OwnsMarker(e, t) && e.items[t.marker.value].kind.Gone?
  }

  function SetKind(e: Env, id: nat, kind: Kind): Env
    requires id < |e.items|
  {
    e.(items := e.items[id := e.items[id].(kind := kind)])
  }

  // ---------------------------------------------------------------- steps

  /** A reservation's file is created, written and deleted without the lock. */
  predicate FileMoves(p: Policy, e: Env, t: Slot, e': Env, t': Slot) {
    || ((Lost(e, t) ==> p.writesLost) && WriteMoves(e, t, e', t'))
    || (OwnsFile(e, t) && (e' == e || e' == SetKind(e, t.file.value, Gone)) && t' == t.(file := None))
  }

  predicate WriteMoves(e: Env, t: Slot, e': Env, t': Slot) {
    || (t.file.None? && t' == t.(file := Some(|e.items|)) && |e'.items| == |e.items| + 1 &&
        var item := e'.items[|e.items|];
        item.dir < BASE_DIR && item.kind.Partial? && item.size == 0 && e' == e.(items := e.items + [item]))
    || (OwnsFile(e, t) && t' == t && |e'.items| == |e.items| &&
        var id := t.file.value;
        e'.items[id].size >= e.items[id].size &&
        e' == e.(items := e.items[id := e.items[id].(size := e'.items[id].size)]))
  }

  /** Extend, Commit and Release of a reservation with a marker go through the lock. */
  predicate MarkedMoves(e: Env, t: Slot, e': Env, t': Slot) {
    t.marker.Some? && e' == e && t'.phase.Seeking? && t' == t.(phase := t'.phase) &&
    (|| (t'.phase.op.OpExtend? && t'.phase.op.more > 0)
     || (t'.phase.op == OpFinish(true) && OwnsFile(e, t))
     || (t'.phase.op == OpFinish(false) && t.file.None?))
  }

  /** A reservation of zero bytes has no marker: it is extended and finished inside its own process. */
  predicate EmptyMoves(cap: int, p: Policy, e: Env, t: Slot, e': Env, t': Slot) {
    t.marker.None? &&
    (|| (p.extendsEmpty && e' == e && t'.size > t.size && t'.size <= cap && t' == t.(size := t'.size))
     || (OwnsFile(e, t) &&
         if e.items[t.file.value].size <= t.size
         then e' == SetKind(e, t.file.value, Final) && t' == Slot(Filed, 0, None, t.file)
         else e' == e && t' == Slot(Spoiled, 0, None, t.file))
     || (t.file.None? && e' == e && t' == IDLE))
  }

  predicate OpenMoves(cap: int, p: Policy, e: Env, t: Slot, e': Env, t': Slot) {
    || (e' == e && t' == t)
    || FileMoves(p, e, t, e', t')
    || MarkedMoves(e, t, e', t')
    || EmptyMoves(cap, p, e, t, e', t')
  }

  /** Steps towards the lock, and the two ways of losing the attempt. */
  predicate LockMoves(e: Env, t: Slot, op: Op, e': Env, t': Slot) {
    match t.phase
    case Seeking(_) =>
      || (e' == e && (t' == t || t' == GiveUp(t, op)))
      || (e.lock.NoLock? && e' == e.(lock := Lock(None, e.clock)) && t' == t.(phase := Naming(op)))
      || (e.lock.Lock? && e.clock - e.lock.created > LOCK_STALE && e' == e && t' == t.(phase := TakingOver(op)))
    case TakingOver(_) =>
      (e' == e || e' == e.(lock := NoLock)) && t' == t.(phase := Seeking(op))
    case Naming(_) =>
      || (AbandonsLock(e, e') && t' == GiveUp(t, op))
      || (e' == Named(e) && t' == 
          t.(phase := if op.OpFinish? then Removing(op.commit, e.serial) else FreshScan(op, e.serial)))
    case _ => false
  }

  /** The lock file with the token of the slot that created it. */
  function Named(e: Env): Env {
    e.(serial := e.serial + 1, lock := if e.lock.Lock? then e.lock.(content := Some(e.serial)) else NoLock)
  }

  /** Writing or closing the new lock file failed; removing it may fail as well. */
  predicate AbandonsLock(e: Env, e': Env) {
    e' == e.(lock := NoLock) || e' == e || e' == Named(e)
  }

  function FreshScan(op: Op, token: nat): Phase {
    Scanning(op, token, {0, 1, 2, BASE_DIR}, {}, 0)
  }

  function Released(token: nat): Slot {
    Slot(Unlocking(token, AtIdle), 0, None, None)
  }

  /** A directory could not be read. Only a Release does not mind. */
  function ScanFailed(t: Slot, op: Op, token: nat): Slot {
    match op
    case OpReserve(_) => t.(phase := Unlocking(token, AtIdle))
    case OpExtend(_) => t.(phase := Unlocking(token, AtOpen))
    case OpFinish(commit) => if commit then t.(phase := Unlocking(token, AtOpen)) else Released(token)
  }

  /** One step of reading the directories; a marker judged stale is removed and not counted. */
  ghost predicate ScanMoves(p: Policy, e: Env, t: Slot, e': Env, t': Slot)
    requires t.phase.Scanning?
  {
    var Scanning(op, token, left, todo, total) := t.phase;
    || (e' == e && t' == ScanFailed(t, op, token))
    || (left == {} && todo == {} && e' == e && t' == t.(phase := Deciding(op, token, total)))
    || (exists dir :: ListMoves(e, t, dir, e', t'))
    || (exists id :: StatMoves(p, e, t, id, e', t'))
  }

  predicate ListMoves(e: Env, t: Slot, dir: nat, e': Env, t': Slot)
    requires t.phase.Scanning?
  {
    dir in t.phase.left && e' == e &&
    t' == t.(phase := t.phase.(left := t.phase.left - {dir}, todo := t.phase.todo + Listed(e.items, dir)))
  }

  predicate StatMoves(p: Policy, e: Env, t: Slot, id: nat, e': Env, t': Slot)
    requires t.phase.Scanning?
  {
    var Scanning(op, token, left, todo, total) := t.phase;
    id in todo && id < |e.items| &&
    var item := e.items[id];
    var skipped := t.(phase := Scanning(op, token, left, todo - {id}, total));
    || (p.missesFiles && e' == e && t' == skipped)
    || (if item.kind.Gone? then e' == e && t' == skipped
        else if item.kind.Marker? && e.clock - item.modified > MARKER_STALE
        then e' == SetKind(e, id, Gone) && t' == skipped
        else e' == e && t' == t.(phase := Scanning(op, token, left, todo - {id}, total + item.size)))
  }

  /** What follows a complete scan: the decision of Reserve and Extend, and the end of Commit and Release. */
  predicate DecideMoves(cap: int, e: Env, t: Slot, e': Env, t': Slot)
    requires t.phase.Deciding?
  {
    var Deciding(op, token, total) := t.phase;
    match op
    case OpReserve(want) =>
      || (e' == e && t' == t.(phase := Unlocking(token, AtIdle)))
      || (total <= cap && want <= cap - total && |e'.items| == |e.items| + 1 &&
          var size := e'.items[|e.items|].size;
          e' == e.(items := e.items + [Item(BASE_DIR, size, Marker, e.clock)]) &&
          (|| (size == want && t' == Slot(Unlocking(token, AtOpen), want, Some(|e.items|), None))
           // sizing or closing the marker failed, and so did removing it
           || ((size == 0 || size == want) && t' == t.(phase := Unlocking(token, AtIdle)))))
    case OpExtend(more) =>
      || (e' == e && t' == t.(phase := Unlocking(token, AtOpen)))
      || (total <= cap && more <= cap - total && OwnsMarker(e, t) && !Lost(e, t) &&
          var longer := e.items[t.marker.value].(size := t.size + more, modified := e.clock);
          e' == e.(items := e.items[t.marker.value := longer]) &&
          t' == t.(phase := Unlocking(token, AtOpen), size := t.size + more))
    case OpFinish(commit) =>
      || (!commit && e' == e && t' == Released(token))
      || (commit && OwnsFile(e, t) && e.items[t.file.value].size <= t.size &&
          e' == SetKind(e, t.file.value, Final) && t' == Slot(Unlocking(token, AtFiled), 0, None, t.file))
      || (commit && OwnsFile(e, t) && e.items[t.file.value].size > t.size &&
          e' == e && t' == Slot(Unlocking(token, AtSpoiled), 0, None, t.file))
  }

  /** Without the marker, a file that fits its reservation is on its own. */
  function Unmarked(e: Env, t: Slot): Env
    requires OwnsMarker(e, t)
  {
    var bare := SetKind(e, t.marker.value, Gone);
    if OwnsFile(e, t) && bare.items[t.file.value].kind.Partial? && bare.items[t.file.value].size <= t.size
    then SetKind(bare, t.file.value, Exposed) else bare
  }

  /** Commit and Release remove the marker first, and then scan to refresh the statistics. */
  predicate RemoveMoves(e: Env, t: Slot, e': Env, t': Slot)
    requires t.phase.Removing?
  {
    var Removing(commit, token) := t.phase;
    OwnsMarker(e, t) &&
    (|| (e' == Unmarked(e, t) && t' == t.(phase := FreshScan(OpFinish(commit), token)))
     || (e' == e && t' == ScanFailed(t, OpFinish(commit), token)))              // the marker could not be removed
  }

  /** Releasing removes a lock that still carries the holder's token; reading and removing it may fail. */
  predicate UnlockMoves(e: Env, t: Slot, e': Env, t': Slot) {
    match t.phase
    case Unlocking(token, after) =>
      e' == e && (|| (e.lock.Lock? && e.lock.content == Some(token) && t' == t.(phase := Deleting(token, after)))
                  || t' == t.(phase := Goto(after)))
    case Deleting(_, after) =>
      (e' == e || e' == e.(lock := NoLock)) && t' == t.(phase := Goto(after))
    case _ => false
  }

  /** A file that was finalized or refused is deleted; a refused one may be taken for finalized by a second Commit. */
  predicate DoneMoves(p: Policy, e: Env, t: Slot, e': Env, t': Slot) {
    || (e' == e && t' == t)
    || (OwnsFile(e, t) && (e' == e || e' == SetKind(e, t.file.value, Gone)) && t' == IDLE)
    || (p.keepsRefused && t.phase.Spoiled? && OwnsFile(e, t) &&
        e' == SetKind(e, t.file.value, Final) && t' == t.(phase := Filed))
  }

  ghost predicate Moves(cap: int, p: Policy, e: Env, t: Slot, e': Env, t': Slot) {
    match t.phase
    case Idle =>
      // Reserve: a negative size is an error, a zero size takes neither lock nor marker
      e' == e && (t' == t || t' == Slot(Open, 0, None, None) ||
                  (t'.phase.Seeking? && t'.phase.op.OpReserve? && t'.phase.op.want > 0 && t' == t.(phase := t'.phase)))
    case Open => OpenMoves(cap, p, e, t, e', t')
    case Seeking(op) => LockMoves(e, t, op, e', t')
    case TakingOver(op) => LockMoves(e, t, op, e', t')
    case Naming(op) => LockMoves(e, t, op, e', t')
    case Scanning(_, _, _, _, _) => ScanMoves(p, e, t, e', t')
    case Deciding(_, _, _) => DecideMoves(cap, e, t, e', t')
    case Removing(_, _) => RemoveMoves(e, t, e', t')
    case Unlocking(_, _) => UnlockMoves(e, t, e', t')
    case Deleting(_, _) => UnlockMoves(e, t, e', t')
    case Filed => DoneMoves(p, e, t, e', t')
    case Spoiled => DoneMoves(p, e, t, e', t')
  }

  datatype State = State(env: Env, slots: seq<Slot>)

  ghost predicate Step(cap: int, p: Policy, s: State, s': State) {
    || (s'.slots == s.slots && s'.env.clock >= s.env.clock && s'.env == s.env.(clock := s'.env.clock))
    || (|s'.slots| == |s.slots| &&
        exists i :: 0 <= i < |s.slots| && s'.slots == s.slots[i := s'.slots[i]] &&
                    Moves(cap, p, s.env, s.slots[i], s'.env, s'.slots[i]))
  }

  predicate Init(s: State) {
    && s.env.lock.NoLock? && s.env.items == []
    && forall i :: 0 <= i < |s.slots| ==> s.slots[i] == IDLE
  }

  /** No lock and no marker of an open reservation has reached the age at which it may be taken for dead. */
  predicate Fresh(s: State) {
    && (s.env.lock.Lock? ==> s.env.clock - s.env.lock.created <= LOCK_STALE)
    && (forall i :: 0 <= i < |s.slots| && OwnsMarker(s.env, s.slots[i]) && !Lost(s.env, s.slots[i]) ==>
          s.env.clock - s.env.items[s.slots[i].marker.value].modified <= MARKER_STALE)
  }

  ghost predicate IsRun(cap: int, p: Policy, run: seq<State>) {
    && |run| > 0 && Init(run[0])
    && (forall k :: 0 <= k < |run| ==> Fresh(run[k]))
    && (forall k :: 0 <= k < |run| - 1 ==> Step(cap, p, run[k], run[k + 1]))
  }

  // ---------------------------------------------------------------- sums

  /** A scan passes no more when no item's share grows and new items have none. */
  lemma {:induction false} PassedLe(items: seq<Item>, left: set<nat>, todo: set<nat>, items': seq<Item>,
                                    left': set<nat>, todo': set<nat>)
    requires |items| <= |items'|
    requires forall id :: 0 <= id < |items| ==> Share(items', left', todo', id) <= Share(items, left, todo, id)
    requires forall id :: |items| <= id < |items'| ==> Share(items', left', todo', id) <= 0
    ensures Passed(items', left', todo') <= Passed(items, left, todo)
    decreases |items'|
  {
    if items' != [] {
      var short' := items'[..|items'| - 1];
      var short := if |items| == |items'| then items[..|items| - 1] else items;
      forall id | 0 <= id < |short| ensures Share(short', left', todo', id) <= Share(short, left, todo, id) {
        assert Share(items', left', todo', id) <= Share(items, left, todo, id);
      }
      forall id | |short| <= id < |short'| ensures Share(short', left', todo', id) <= 0 {
        assert Share(items', left', todo', id) <= 0;
      }
      PassedLe(short, left, todo, short', left', todo');
    }
  }

  lemma {:induction false} PassedUpdate(items: seq<Item>, left: set<nat>, todo: set<nat>, id: nat, item: Item)
    requires id < |items|
    ensures Passed(items[id := item], left, todo)
         == Passed(items, left, todo) - Share(items, left, todo, id) + Share(items[id := item], left, todo, id)
    decreases |items|
  {
    var last := |items| - 1;
    if id == last {
      assert items[id := item][..last] == items[..last];
    } else {
      assert items[id := item][..last] == items[..last][id := item];
      PassedUpdate(items[..last], left, todo, id, item);
    }
  }

  lemma {:induction false} PassedStat(items: seq<Item>, left: set<nat>, todo: set<nat>, id: nat)
    requires id < |items| && forall i :: 0 <= i < |items| ==> items[i].size >= 0
    ensures Passed(items, left, todo - {id}) <= Passed(items, left, todo) + Charge(items[id])
    decreases |items|
  {
    var last := |items| - 1;
    if id == last {
      PassedLe(items[..last], left, todo, items[..last], left, todo - {id});
    } else {
      PassedStat(items[..last], left, todo, id);
    }
  }

  lemma ChargedAppend(items: seq<Item>, item: Item)
    ensures Charged(items + [item]) == Charged(items) + Charge(item)
  {
    assert (items + [item])[..|items|] == items;
  }

  // ---------------------------------------------------------------- the invariant

  predicate Holds(p: Phase) {
    p.Naming? || p.Scanning? || p.Deciding? || p.Removing? || p.Unlocking? || p.Deleting?
  }

  /** A slot inside the lock sees its own lock file there, with its own token once written. */
  predicate LockIsOwn(e: Env, p: Phase) {
    Holds(p) ==> e.lock.Lock? && (!p.Naming? ==> e.lock.content == Some(p.token))
  }

  predicate OpFits(t: Slot, op: Op) {
    match op
    case OpReserve(want) => want > 0 && t.marker.None? && t.file.None? && t.size == 0
    case OpExtend(more) => more > 0 && t.marker.Some?
    case OpFinish(commit) => t.marker.Some? && (commit <==> t.file.Some?)
  }

  predicate Arrives(t: Slot, after: After) {
    match after
    case AtIdle => t.marker.None? && t.file.None? && t.size == 0
    case AtOpen => true
    case AtFiled => t.marker.None? && t.file.Some? && t.size == 0
    case AtSpoiled => t.marker.None? && t.file.Some? && t.size == 0
  }

  predicate Finalized(p: Phase) {
    p.Filed? || ((p.Unlocking? || p.Deleting?) && p.after.AtFiled?)
  }

  /** A file on its own fits its reservation, or is too large ever to be finalized. */
  predicate FileFits(p: Policy, e: Env, t: Slot)
    requires OwnsFile(e, t)
  {
    var item := e.items[t.file.value];
    if Finalized(t.phase) then item.kind.Final?
    else
      && (item.kind.Partial? || item.kind.Exposed?)
      && (Careful(p) ==> (item.kind.Exposed? <==> Lost(e, t) && item.size <= t.size))
  }

  predicate MarkerFits(e: Env, t: Slot)
    requires OwnsMarker(e, t)
  {
    Lost(e, t) || (e.items[t.marker.value].kind.Marker? && e.items[t.marker.value].size == t.size)
  }

  /** What a slot owns on disk, and what it knows there. */
  predicate Owned(p: Policy, e: Env, t: Slot) {
    && t.size >= 0
    && (t.marker.Some? ==> OwnsMarker(e, t) && MarkerFits(e, t))
    && (t.file.Some? ==> OwnsFile(e, t) && t.marker != t.file && FileFits(p, e, t))
    && (t.marker.None? && Careful(p) ==> t.size == 0)
    && match t.phase
       case Idle => t == IDLE
       case Open => true
       case Seeking(op) => OpFits(t, op)
       case TakingOver(op) => false
       case Naming(op) => OpFits(t, op)
       case Scanning(op, _, left, todo, total) =>
         OpFits(t, op) && if op.OpFinish? then Lost(e, t) else Careful(p) ==> Passed(e.items, left, todo) <= total
       case Deciding(op, _, total) =>
         OpFits(t, op) && if op.OpFinish? then Lost(e, t) else Careful(p) ==> Charged(e.items) <= total
       case Removing(commit, _) => OpFits(t, OpFinish(commit))
       case Unlocking(_, after) => Arrives(t, after)
       case Deleting(_, after) => Arrives(t, after)
       case Filed => Arrives(t, AtFiled)
       case Spoiled => Arrives(t, AtSpoiled)
  }

  function Claims(t: Slot): set<nat> {
    (if t.marker.Some? then {t.marker.value} else {}) + (if t.file.Some? then {t.file.value} else {})
  }

  ghost predicate Exclusive(slots: seq<Slot>) {
    && (forall i, j :: 0 <= i < j < |slots| ==> Claims(slots[i]) !! Claims(slots[j]))
    && (forall i, j :: 0 <= i < j < |slots| ==> !(Holds(slots[i].phase) && Holds(slots[j].phase)))
  }

  ghost predicate Inv(cap: int, p: Policy, s: State) {
    && (forall i :: 0 <= i < |s.slots| ==> Owned(p, s.env, s.slots[i]) && LockIsOwn(s.env, s.slots[i].phase))
    && Exclusive(s.slots)
    && Sized(s.env)
    && (Careful(p) ==> Charged(s.env.items) <= cap)
  }

  // ---------------------------------------------------------------- what one step does to the files

  /** No item is charged more than before, and nothing new is charged. */
  predicate Benign(items: seq<Item>, items': seq<Item>) {
    && |items| <= |items'|
    && (forall id :: 0 <= id < |items| ==> items'[id].dir == items[id].dir && Charge(items'[id]) <= Charge(items[id]))
    && (forall id :: |items| <= id < |items'| ==> Charge(items'[id]) <= 0)
  }

  lemma BenignPassed(items: seq<Item>, items': seq<Item>, left: set<nat>, todo: set<nat>)
    requires Benign(items, items')
    ensures Passed(items', left, todo) <= Passed(items, left, todo)
  {
    PassedLe(items, left, todo, items', left, todo);
  }

  /** Only the slot's own files, new files, and markers taken for dead are touched. */
  predicate Touches(e: Env, t: Slot, e': Env) {
    && |e.items| <= |e'.items|
    && forall id :: 0 <= id < |e.items| && id !in Claims(t) ==>
         || e'.items[id] == e.items[id]
         || (e.items[id].kind.Marker? && e.clock - e.items[id].modified > MARKER_STALE)
  }

  predicate Sized(e: Env) {
    forall id :: 0 <= id < |e.items| ==> e.items[id].size >= 0 && e.items[id].dir <= BASE_DIR
  }

  /** A slot entering the lock found none, and one outside leaves it alone. */
  predicate LockStep(e: Env, t: Slot, e': Env, t': Slot) {
    !Holds(t.phase) ==> if Holds(t'.phase) then e.lock.NoLock? else e'.lock == e.lock
  }

  /** Everything the whole system needs to know about one step of one slot. */
  predicate Effect(cap: int, p: Policy, e: Env, t: Slot, e': Env, t': Slot) {
    && Owned(p, e', t') && LockIsOwn(e', t'.phase) && LockStep(e, t, e', t')
    && Touches(e, t, e') && Sized(e') && e'.clock == e.clock
    && (forall id :: id in Claims(t') ==> id in Claims(t) || id >= |e.items|)
    && (Careful(p) && !Holds(t.phase) ==> Benign(e.items, e'.items))
    && (Careful(p) ==> Charged(e'.items) <= cap)
  }

  /** What the slot may rely on before its step. */
  predicate Ready(cap: int, p: Policy, e: Env, t: Slot) {
    && Owned(p, e, t) && LockIsOwn(e, t.phase) && Sized(e)
    && (Careful(p) ==> Charged(e.items) <= cap)
    && (e.lock.Lock? ==> e.clock - e.lock.created <= LOCK_STALE)
    && (OwnsMarker(e, t) && !Lost(e, t) ==> e.clock - e.items[t.marker.value].modified <= MARKER_STALE)
  }

  lemma FileEffect(cap: int, p: Policy, e: Env, t: Slot, e': Env, t': Slot)
    requires Ready(cap, p, e, t) && t.phase.Open? && FileMoves(p, e, t, e', t')
    ensures Effect(cap, p, e, t, e', t')
  {
    hide Effect, Passed;
    if t'.file.None? {
      DeleteEffect(cap, p, e, t, e', t');
    } else {
      WriteEffect(cap, p, e, t, e', t');
    }
  }

  lemma WriteEffect(cap: int, p: Policy, e: Env, t: Slot, e': Env, t': Slot)
    requires Ready(cap, p, e, t) && t.phase.Open? && (Lost(e, t) ==> p.writesLost) && WriteMoves(e, t, e', t')
    ensures Effect(cap, p, e, t, e', t')
  {
    hide Passed;
    if Careful(p) {
      assert Benign(e.items, e'.items);
      BenignPassed(e.items, e'.items, {}, {});
    }
  }

  lemma DeleteEffect(cap: int, p: Policy, e: Env, t: Slot, e': Env, t': Slot)
    requires Ready(cap, p, e, t) && t.phase.Open? && OwnsFile(e, t) && t' == t.(file := None)
    requires e' == e || e' == SetKind(e, t.file.value, Gone)
    ensures Effect(cap, p, e, t, e', t')
  {
    hide Passed;
    assert Benign(e.items, e'.items);
    BenignPassed(e.items, e'.items, {}, {});
  }

  lemma EmptyEffect(cap: int, p: Policy, e: Env, t: Slot, e': Env, t': Slot)
    requires Ready(cap, p, e, t) && t.phase.Open? && EmptyMoves(cap, p, e, t, e', t')
    ensures Effect(cap, p, e, t, e', t')
  {
    hide Passed;
    if Careful(p) {
      assert Benign(e.items, e'.items);
      BenignPassed(e.items, e'.items, {}, {});
    }
  }

  lemma LockEffect(cap: int, p: Policy, e: Env, t: Slot, op: Op, e': Env, t': Slot)
    requires Ready(cap, p, e, t) && (t.phase == Seeking(op) || t.phase == Naming(op)) && LockMoves(e, t, op, e', t')
    ensures Effect(cap, p, e, t, e', t')
  {
    hide Passed;
    NothingPassed(e.items, {0, 1, 2, BASE_DIR});
  }

  lemma {:induction false} NothingPassed(items: seq<Item>, left: set<nat>)
    requires forall id :: 0 <= id < |items| ==> items[id].dir in left
    ensures Passed(items, left, {}) == 0
  {
    if items != [] {
      NothingPassed(items[..|items| - 1], left);
    }
  }

  lemma ScanEffect(cap: int, p: Policy, e: Env, t: Slot, e': Env, t': Slot)
    requires Ready(cap, p, e, t) && t.phase.Scanning? && ScanMoves(p, e, t, e', t')
    ensures Effect(cap, p, e, t, e', t')
  {
    hide Passed;
    var Scanning(op, token, left, todo, total) := t.phase;
    if dir :| ListMoves(e, t, dir, e', t') {
      PassedLe(e.items, left, todo, e.items, left - {dir}, todo + Listed(e.items, dir));
    } else if id :| StatMoves(p, e, t, id, e', t') {
      StatEffect(cap, p, e, t, id, e', t');
    }
  }

  lemma StatEffect(cap: int, p: Policy, e: Env, t: Slot, id: nat, e': Env, t': Slot)
    requires Ready(cap, p, e, t) && t.phase.Scanning? && StatMoves(p, e, t, id, e', t')
    ensures Effect(cap, p, e, t, e', t')
  {
    hide Passed;
    var Scanning(op, token, left, todo, total) := t.phase;
    if e' != e {
      assert Benign(e.items, e'.items);
      BenignPassed(e.items, e'.items, {}, {});
      PassedLe(e.items, left, todo, e'.items, left, todo - {id});
    } else {
      PassedStat(e.items, left, todo, id);
    }
  }

  lemma DecideEffect(cap: int, p: Policy, e: Env, t: Slot, e': Env, t': Slot)
    requires Ready(cap, p, e, t) && t.phase.Deciding? && DecideMoves(cap, e, t, e', t')
    ensures Effect(cap, p, e, t, e', t')
  {
    hide Passed;
    var Deciding(op, token, total) := t.phase;
    if op.OpFinish? {
      FinishEffect(cap, p, e, t, e', t');
    } else if e' != e && op.OpReserve? {
      ChargedAppend(e.items, e'.items[|e.items|]);
    } else if e' != e {
      var id := t.marker.value;
      PassedUpdate(e.items, {}, {}, id, e'.items[id]);
    }
  }

  lemma FinishEffect(cap: int, p: Policy, e: Env, t: Slot, e': Env, t': Slot)
    requires Ready(cap, p, e, t) && t.phase.Deciding? && t.phase.op.OpFinish? && DecideMoves(cap, e, t, e', t')
    ensures Effect(cap, p, e, t, e', t')
  {
    hide Passed;
    if e' != e {
      PassedUpdate(e.items, {}, {}, t.file.value, e'.items[t.file.value]);
    }
  }

  /** Losing the marker uncovers no more than the marker stood for. */
  lemma UnmarkedCharge(cap: int, p: Policy, e: Env, t: Slot)
    requires Ready(cap, p, e, t) && t.phase.Removing?
    ensures OwnsMarker(e, t) && (Careful(p) ==> Charged(Unmarked(e, t).items) <= Charged(e.items))
  {
    hide Passed;
    var bare := SetKind(e, t.marker.value, Gone);
    PassedUpdate(e.items, {}, {}, t.marker.value, bare.items[t.marker.value]);
    if t.file.Some? {
      PassedUpdate(bare.items, {}, {}, t.file.value, bare.items[t.file.value].(kind := Exposed));
    }
  }

  lemma RemoveEffect(cap: int, p: Policy, e: Env, t: Slot, e': Env, t': Slot)
    requires Ready(cap, p, e, t) && t.phase.Removing? && RemoveMoves(e, t, e', t')
    ensures Effect(cap, p, e, t, e', t')
  {
    hide Passed;
    UnmarkedCharge(cap, p, e, t);
  }

  lemma EndEffect(cap: int, p: Policy, e: Env, t: Slot, e': Env, t': Slot)
    requires Ready(cap, p, e, t) && Moves(cap, p, e, t, e', t')
    requires t.phase.Unlocking? || t.phase.Deleting? || t.phase.Idle?
    ensures Effect(cap, p, e, t, e', t')
  {
    hide Passed;
  }

  lemma DoneEffect(cap: int, p: Policy, e: Env, t: Slot, e': Env, t': Slot)
    requires Ready(cap, p, e, t) && DoneMoves(p, e, t, e', t') && (t.phase.Filed? || t.phase.Spoiled?)
    ensures Effect(cap, p, e, t, e', t')
  {
    hide Passed;
    if Careful(p) {
      assert Benign(e.items, e'.items);
      BenignPassed(e.items, e'.items, {}, {});
    }
  }

  lemma MoveEffect(cap: int, p: Policy, e: Env, t: Slot, e': Env, t': Slot)
    requires Ready(cap, p, e, t) && Moves(cap, p, e, t, e', t')
    ensures Effect(cap, p, e, t, e', t')
  {
    hide Passed, Effect;
    match t.phase
    case Open =>
      if FileMoves(p, e, t, e', t') {
        FileEffect(cap, p, e, t, e', t');
      } else if EmptyMoves(cap, p, e, t, e', t') {
        EmptyEffect(cap, p, e, t, e', t');
      } else {
        MarkedEffect(cap, p, e, t, e', t');
      }
    case Seeking(op) => LockEffect(cap, p, e, t, op, e', t');
    case Naming(op) => LockEffect(cap, p, e, t, op, e', t');
    case Scanning(_, _, _, _, _) => ScanEffect(cap, p, e, t, e', t');
    case Deciding(_, _, _) => DecideEffect(cap, p, e, t, e', t');
    case Removing(_, _) => RemoveEffect(cap, p, e, t, e', t');
    case Filed => DoneEffect(cap, p, e, t, e', t');
    case Spoiled => DoneEffect(cap, p, e, t, e', t');
    case _ => EndEffect(cap, p, e, t, e', t');
  }

  lemma MarkedEffect(cap: int, p: Policy, e: Env, t: Slot, e': Env, t': Slot)
    requires Ready(cap, p, e, t) && t.phase.Open?
    requires (e' == e && t' == t) || MarkedMoves(e, t, e', t')
    ensures Effect(cap, p, e, t, e', t')
  {
    hide Passed;
  }

  // ---------------------------------------------------------------- the whole system

  /** A step of one slot leaves every other slot's files, lock and scan as they were. */
  lemma OthersUnaffected(cap: int, p: Policy, e: Env, t: Slot, e': Env, t': Slot, o: Slot)
    requires Effect(cap, p, e, t, e', t')
    requires Ready(cap, p, e, o) && Claims(t) !! Claims(o) && !(Holds(t.phase) && Holds(o.phase))
    ensures Owned(p, e', o) && LockIsOwn(e', o.phase)
    ensures Claims(t') !! Claims(o) && !(Holds(t'.phase) && Holds(o.phase))
  {
    hide Passed;
    forall id | id in Claims(o) ensures id < |e.items| && e'.items[id] == e.items[id] {
    }
    if Holds(o.phase) && Careful(p) {
      var left, todo := if o.phase.Scanning? then o.phase.left else {}, if o.phase.Scanning? then o.phase.todo else {};
      BenignPassed(e.items, e'.items, left, todo);
    }
  }

  lemma StepHolds(cap: int, p: Policy, s: State, s': State)
    requires Inv(cap, p, s) && Fresh(s) && Step(cap, p, s, s')
    ensures Inv(cap, p, s')
  {
    hide Passed, Effect;
    if i :| 0 <= i < |s.slots| && |s'.slots| == |s.slots| && s'.slots == s.slots[i := s'.slots[i]] &&
            Moves(cap, p, s.env, s.slots[i], s'.env, s'.slots[i]) {
      SlotStepHolds(cap, p, s, s', i);
    } else {
      forall j | 0 <= j < |s.slots| ensures Owned(p, s'.env, s'.slots[j]) {
        assert Owned(p, s.env, s.slots[j]);
      }
    }
  }

  lemma SlotStepHolds(cap: int, p: Policy, s: State, s': State, i: nat)
    requires Inv(cap, p, s) && Fresh(s) && i < |s.slots| == |s'.slots|
    requires s'.slots == s.slots[i := s'.slots[i]]
    requires Moves(cap, p, s.env, s.slots[i], s'.env, s'.slots[i])
    ensures Inv(cap, p, s')
  {
    hide Passed, Moves, Owned, LockIsOwn, Claims, Holds;
    var t, t' := s.slots[i], s'.slots[i];
    assert forall j :: 0 <= j < |s.slots| ==> Ready(cap, p, s.env, s.slots[j]);
    MoveEffect(cap, p, s.env, t, s'.env, t');
    forall j | 0 <= j < |s.slots| && j != i
      ensures Owned(p, s'.env, s'.slots[j]) && LockIsOwn(s'.env, s'.slots[j].phase)
      ensures Claims(t') !! Claims(s'.slots[j]) && !(Holds(t'.phase) && Holds(s'.slots[j].phase))
    {
      OthersUnaffected(cap, p, s.env, t, s'.env, t', s.slots[j]);
    }
  }

  lemma {:induction false} RunHolds(cap: int, p: Policy, run: seq<State>, k: nat)
    requires 0 <= cap && IsRun(cap, p, run) && k < |run|
    ensures Inv(cap, p, run[k])
  {
    if k > 0 {
      RunHolds(cap, p, run, k - 1);
      StepHolds(cap, p, run[k - 1], run[k]);
    }
  }

  /** At most one slot of any process is ever inside the lock. */
  lemma AtMostOneHolder(cap: int, p: Policy, run: seq<State>, k: nat, i: nat, j: nat)
    requires 0 <= cap && IsRun(cap, p, run) && k < |run|
    requires i < |run[k].slots| && j < |run[k].slots| && Holds(run[k].slots[i].phase) && Holds(run[k].slots[j].phase)
    ensures i == j && run[k].env.lock.Lock?
  {
    RunHolds(cap, p, run, k);
  }

  // ---------------------------------------------------------------- the cap

  lemma {:induction false} TakenIsCharged(items: seq<Item>)
    requires forall id :: 0 <= id < |items| ==> items[id].size >= 0
    ensures Taken(items) <= Charged(items)
  {
    if items != [] {
      TakenIsCharged(items[..|items| - 1]);
    }
  }

  /** Finalized files plus markers stay within the cap in every state of every run. */
  ghost predicate CapSafe(cap: int, p: Policy) {
    forall run: seq<State>, k: nat :: IsRun(cap, p, run) && k < |run| ==> Taken(run[k].env.items) <= cap
  }

  lemma CarefulIsSafe(cap: int, p: Policy)
    requires 0 < cap && Careful(p)
    ensures CapSafe(cap, p)
  {
    hide Passed, Taken, IsRun;
    forall run: seq<State>, k: nat | IsRun(cap, p, run) && k < |run| ensures Taken(run[k].env.items) <= cap {
      RunHolds(cap, p, run, k);
      TakenIsCharged(run[k].env.items);
    }
  }
}
