/**
 The byte allocator of common/disk_cache_config.go inside one process.  Any number of goroutines
 share two atomic counters.  A slot is one goroutine using one reservation at a time; every load,
 compare-and-swap, add and store of the source is a step of its own, and a run is any interleaving.
 */
module DiskCacheLocal {

  datatype Counters = Counters(usage: int, files: int)

  /** Where a slot goes once it has given bytes back. */
  datatype Then = ToIdle | ToCounting(actual: int)

  datatype Phase =
    | Idle
    | Reserving(want: int)                               // about to load the usage counter
    | ReserveSwapping(want: int, seen: int)              // about to compare-and-swap it
    | Open(size: int)                                    // holds a reservation
    | Extending(size: int, more: int)                    // about to load the usage counter
    | ExtendSwapping(size: int, more: int, seen: int)    // about to compare-and-swap it
    | ExtendSwapped(size: int, more: int)                // bytes taken, reservation size not yet raised
    | Returning(bytes: int, next: Then)                  // about to subtract from the usage counter
    | Clamping(next: Then)                               // the subtraction went below zero
    | Counting(actual: int)                              // about to count the committed file
    | Filed(actual: int)                                 // owns a live committed file
    | Removed(actual: int)                               // file deleted, still counted
    | ClampingFiles(actual: int)                         // the file count went below zero

  /** The release helper does nothing for zero bytes. */
  function GiveBack(bytes: int, next: Then): Phase {
    if bytes > 0 then Returning(bytes, next) else Goto(next)
  }

  function Goto(next: Then): Phase {
    match next
    case ToIdle => Idle
    case ToCounting(actual) => Counting(actual)
  }

  predicate Fits(size: int, usage: int, cap: int) {
    usage <= cap && size <= cap - usage
  }

  /** One atomic step of a slot in phase `p`. A cap that is not positive means no limit. */
  predicate Moves(cap: int, c: Counters, p: Phase, c': Counters, p': Phase) {
    match p
    case Idle =>
      // Reserve: a negative size is an error, a zero size touches no counter
      c' == c && (p' == Idle || p' == Open(0) || (p'.Reserving? && p'.want > 0))
    case Reserving(want) =>
      if cap <= 0 then c' == c.(usage := c.usage + want) && p' == Open(want)
      else c' == c && p' == if Fits(want, c.usage, cap) then ReserveSwapping(want, c.usage) else Idle
    case ReserveSwapping(want, seen) =>
      if c.usage == seen then c' == c.(usage := seen + want) && p' == Open(want)
      else c' == c && p' == Reserving(want)
    case Open(size) =>
      && c' == c
      && (|| p' == p                                                            // Extend of nothing
          || (p'.Extending? && p'.size == size && p'.more > 0)                  // Extend
          || (exists actual: nat :: actual <= size && p' == GiveBack(size - actual, ToCounting(actual)))  // Commit
          || p' == GiveBack(size, ToIdle))                                      // Release, or Commit of too much
    case Extending(size, more) =>
      if cap <= 0 then c' == c.(usage := c.usage + more) && p' == ExtendSwapped(size, more)
      else c' == c && p' == if Fits(more, c.usage, cap) then ExtendSwapping(size, more, c.usage) else Open(size)
    case ExtendSwapping(size, more, seen) =>
      if c.usage == seen then c' == c.(usage := seen + more) && p' == ExtendSwapped(size, more)
      else c' == c && p' == Extending(size, more)
    case ExtendSwapped(size, more) =>
      c' == c && p' == Open(size + more)
    case Returning(bytes, next) =>
      c' == c.(usage := c.usage - bytes) && p' == if c.usage - bytes < 0 then Clamping(next) else Goto(next)
    case Clamping(next) =>
      c' == c.(usage := 0) && p' == Goto(next)
    case Counting(actual) =>
      c' == c.(files := c.files + 1) && p' == Filed(actual)
    case Filed(actual) =>
      c' == c && (p' == p || p' == Removed(actual))
    case Removed(actual) =>
      c' == c.(files := c.files - 1) &&
      p' == if c.files - 1 < 0 then ClampingFiles(actual) else GiveBack(actual, ToIdle)
    case ClampingFiles(actual) =>
      c' == c.(files := 0) && p' == GiveBack(actual, ToIdle)
  }

  datatype State = State(counters: Counters, slots: seq<Phase>)

  ghost predicate Step(cap: int, s: State, s': State) {
    |s'.slots| == |s.slots| &&
    exists i :: 0 <= i < |s.slots| && s'.slots == s.slots[i := s'.slots[i]] &&
                Moves(cap, s.counters, s.slots[i], s'.counters, s'.slots[i])
  }

  predicate Init(s: State) {
    s.counters == Counters(0, 0) && forall i :: 0 <= i < |s.slots| ==> s.slots[i] == Idle
  }

  /** Any interleaving of any number of slots, from an empty cache. */
  ghost predicate IsRun(cap: int, run: seq<State>) {
    && |run| > 0 && Init(run[0])
    && forall i :: 0 <= i < |run| - 1 ==> Step(cap, run[i], run[i + 1])
  }

  // ---------------------------------------------------------------- what a slot answers for

  function Owed(next: Then): int {
    if next.ToCounting? then next.actual else 0
  }

  /** The bytes a slot accounts for: its reservation, its file, or what it is about to return. */
  function Bytes(p: Phase): int {
    match p
    case Idle => 0
    case Reserving(_) => 0
    case ReserveSwapping(_, _) => 0
    case Open(size) => size
    case Extending(size, _) => size
    case ExtendSwapping(size, _, _) => size
    case ExtendSwapped(size, more) => size + more
    case Returning(bytes, next) => bytes + Owed(next)
    case Clamping(next) => Owed(next)
    case Counting(actual) => actual
    case Filed(actual) => actual
    case Removed(actual) => actual
    case ClampingFiles(actual) => actual
  }

  function Files(p: Phase): int {
    if p.Filed? || p.Removed? then 1 else 0
  }

  function SumBytes(slots: seq<Phase>): int {
    if slots == [] then 0 else Bytes(slots[0]) + SumBytes(slots[1..])
  }

  function SumFiles(slots: seq<Phase>): int {
    if slots == [] then 0 else Files(slots[0]) + SumFiles(slots[1..])
  }

  lemma {:induction false} SumUpdate(slots: seq<Phase>, i: nat, p: Phase)
    requires i < |slots|
    ensures SumBytes(slots[i := p]) == SumBytes(slots) - Bytes(slots[i]) + Bytes(p)
    ensures SumFiles(slots[i := p]) == SumFiles(slots) - Files(slots[i]) + Files(p)
  {
    if i == 0 {
      assert slots[i := p][1..] == slots[1..];
    } else {
      SumUpdate(slots[1..], i - 1, p);
      assert slots[i := p][1..] == slots[1..][i - 1 := p];
    }
  }

  predicate Sound(cap: int, p: Phase) {
    match p
    case Idle => true
    case Reserving(want) => want > 0
    case ReserveSwapping(want, seen) => want > 0 && Fits(want, seen, cap)
    case Open(size) => size >= 0
    case Extending(size, more) => size >= 0 && more > 0
    case ExtendSwapping(size, more, seen) => size >= 0 && more > 0 && Fits(more, seen, cap)
    case ExtendSwapped(size, more) => size >= 0 && more > 0
    case Returning(bytes, next) => bytes > 0 && (next.ToCounting? ==> next.actual >= 0)
    case Counting(actual) => actual >= 0
    case Filed(actual) => actual >= 0
    case Removed(actual) => actual >= 0
    case Clamping(_) => false
    case ClampingFiles(_) => false
  }

  lemma {:induction false} SumBounds(cap: int, slots: seq<Phase>, i: nat)
    requires i < |slots| && forall j :: 0 <= j < |slots| ==> Sound(cap, slots[j])
    ensures SumBytes(slots) >= Bytes(slots[i]) >= 0 && SumFiles(slots) >= Files(slots[i]) >= 0
  {
    assert Sound(cap, slots[i]) && Sound(cap, slots[0]);
    if |slots| > 1 {
      SumBounds(cap, slots[1..], if i == 0 then 0 else i - 1);
    }
  }

  ghost predicate Inv(cap: int, s: State) {
    && s.counters.usage == SumBytes(s.slots)
    && s.counters.files == SumFiles(s.slots)
    && (cap > 0 ==> s.counters.usage <= cap)
    && (forall i :: 0 <= i < |s.slots| ==> Sound(cap, s.slots[i]))
  }

  lemma InitHolds(cap: int, s: State)
    requires Init(s)
    ensures Inv(cap, s)
  {
    AllIdleSumsToZero(s.slots);
  }

  lemma {:induction false} AllIdleSumsToZero(slots: seq<Phase>)
    requires forall i :: 0 <= i < |slots| ==> slots[i] == Idle
    ensures SumBytes(slots) == 0 && SumFiles(slots) == 0
  {
    if slots != [] {
      AllIdleSumsToZero(slots[1..]);
    }
  }

  lemma StepHolds(cap: int, s: State, s': State)
    requires Inv(cap, s) && Step(cap, s, s')
    ensures Inv(cap, s')
  {
    var i :| 0 <= i < |s.slots| && s'.slots == s.slots[i := s'.slots[i]] &&
             Moves(cap, s.counters, s.slots[i], s'.counters, s'.slots[i]);
    SumUpdate(s.slots, i, s'.slots[i]);
    SumBounds(cap, s.slots, i);
    assert Sound(cap, s.slots[i]);
    MoveIsSound(cap, s.counters, s.slots[i], s'.counters, s'.slots[i]);
  }

  /** A step changes the counters by exactly what it changes in the slot, and never clamps. */
  lemma MoveIsSound(cap: int, c: Counters, p: Phase, c': Counters, p': Phase)
    requires Moves(cap, c, p, c', p') && Sound(cap, p)
    requires c.usage >= Bytes(p) && c.files >= Files(p) && (cap > 0 ==> c.usage <= cap)
    ensures Sound(cap, p')
    ensures c'.usage - c.usage == Bytes(p') - Bytes(p)
    ensures c'.files - c.files == Files(p') - Files(p)
    ensures cap > 0 ==> c'.usage <= cap
  {
    if p.Open? || p.Returning? || p.Counting? || p.Filed? || p.Removed? {
      SettlingIsSound(cap, c, p, c', p');
    } else {
      TakingIsSound(cap, c, p, c', p');
    }
  }

  lemma TakingIsSound(cap: int, c: Counters, p: Phase, c': Counters, p': Phase)
    requires Moves(cap, c, p, c', p') && Sound(cap, p)
    requires c.usage >= Bytes(p) && (cap > 0 ==> c.usage <= cap)
    requires !(p.Open? || p.Returning? || p.Counting? || p.Filed? || p.Removed?)
    ensures Sound(cap, p') && Files(p') == Files(p) && c'.files == c.files
    ensures c'.usage - c.usage == Bytes(p') - Bytes(p)
    ensures cap > 0 ==> c'.usage <= cap
  {
    hide GiveBack, Goto;
  }

  lemma GivesBack(cap: int, bytes: int, next: Then)
    requires bytes >= 0 && (next.ToCounting? ==> next.actual >= 0)
    ensures Sound(cap, GiveBack(bytes, next)) && Bytes(GiveBack(bytes, next)) == bytes + Owed(next) &&
            Files(GiveBack(bytes, next)) == 0
    ensures Sound(cap, Goto(next)) && Bytes(Goto(next)) == Owed(next) && Files(Goto(next)) == 0
  {
  }

  lemma SettlingIsSound(cap: int, c: Counters, p: Phase, c': Counters, p': Phase)
    requires Moves(cap, c, p, c', p') && Sound(cap, p)
    requires c.usage >= Bytes(p) && c.files >= Files(p) && (cap > 0 ==> c.usage <= cap)
    requires p.Open? || p.Returning? || p.Counting? || p.Filed? || p.Removed?
    ensures Sound(cap, p')
    ensures c'.usage - c.usage == Bytes(p') - Bytes(p)
    ensures c'.files - c.files == Files(p') - Files(p)
    ensures cap > 0 ==> c'.usage <= cap
  {
    hide GiveBack, Goto, Fits;
    match p
    case Open(size) =>
      GivesBack(cap, size, ToIdle);
      if actual: nat :| actual <= size && p' == GiveBack(size - actual, ToCounting(actual)) {
        GivesBack(cap, size - actual, ToCounting(actual));
      }
    case Returning(bytes, next) => GivesBack(cap, 0, next);
    case Removed(actual) => GivesBack(cap, actual, ToIdle);
    case _ =>
  }

  /**
   Conservation and the cap, for every interleaving: at every point of every run the usage counter
   is exactly the bytes the slots account for, it lies between zero and the cap, the file counter
   is the number of counted files, and no slot ever reaches a clamp to zero.
   */
  lemma {:induction false} RunConserves(cap: int, run: seq<State>, k: nat)
    requires IsRun(cap, run) && k < |run|
    ensures Inv(cap, run[k]) && run[k].counters.usage >= 0 && run[k].counters.files >= 0
    ensures forall i :: 0 <= i < |run[k].slots| ==> !run[k].slots[i].Clamping? && !run[k].slots[i].ClampingFiles?
  {
    if k == 0 {
      InitHolds(cap, run[0]);
    } else {
      RunConserves(cap, run, k - 1);
      StepHolds(cap, run[k - 1], run[k]);
    }
    if run[k].slots != [] {
      SumBounds(cap, run[k].slots, 0);
    }
  }

  // ---------------------------------------------------------------- at rest

  /** No call is under way: every slot is idle, holds a reservation or owns a file. */
  predicate AtRest(s: State) {
    forall i :: 0 <= i < |s.slots| ==> s.slots[i].Idle? || s.slots[i].Open? || s.slots[i].Filed?
  }

  function OpenBytes(slots: seq<Phase>): int {
    if slots == [] then 0
    else (if slots[0].Open? then slots[0].size else 0) + OpenBytes(slots[1..])
  }

  function FiledBytes(slots: seq<Phase>): int {
    if slots == [] then 0
    else (if slots[0].Filed? then slots[0].actual else 0) + FiledBytes(slots[1..])
  }

  lemma {:induction false} RestSplits(slots: seq<Phase>)
    requires forall i :: 0 <= i < |slots| ==> slots[i].Idle? || slots[i].Open? || slots[i].Filed?
    ensures SumBytes(slots) == OpenBytes(slots) + FiledBytes(slots)
  {
    if slots != [] {
      RestSplits(slots[1..]);
    }
  }

  /** Whenever no call is under way, usage is the open reservations plus the live files. */
  lemma RestConserves(cap: int, run: seq<State>, k: nat)
    requires IsRun(cap, run) && k < |run| && AtRest(run[k])
    ensures run[k].counters.usage == OpenBytes(run[k].slots) + FiledBytes(run[k].slots)
  {
    RunConserves(cap, run, k);
    RestSplits(run[k].slots);
  }

  /** Nothing leaks: once every reservation and file is gone the counters are back at zero. */
  lemma NothingLeaks(cap: int, run: seq<State>, k: nat)
    requires IsRun(cap, run) && k < |run|
    requires forall i :: 0 <= i < |run[k].slots| ==> run[k].slots[i] == Idle
    ensures run[k].counters == Counters(0, 0)
  {
    RunConserves(cap, run, k);
    AllIdleSumsToZero(run[k].slots);
  }

  // ---------------------------------------------------------------- decisions

  /** Undisturbed by others, a reservation is granted exactly if it fits below the cap, and is then charged in full. */
  lemma ReserveAlone(cap: int, c: Counters, want: int, c': Counters, p': Phase, c'': Counters, p'': Phase)
    requires want > 0 && cap > 0
    requires Moves(cap, c, Reserving(want), c', p') && (p' == Idle || Moves(cap, c', p', c'', p''))
    ensures c' == c && (p' == Idle <==> c.usage + want > cap)
    ensures p' != Idle ==> p'' == Open(want) && c'' == c.(usage := c.usage + want)
  {
  }

  /** So is an extension; one that does not fit leaves the reservation as it was. */
  lemma ExtendAlone(cap: int, c: Counters, size: int, more: int, c': Counters, p': Phase, c'': Counters, p'': Phase)
    requires size >= 0 && more > 0 && cap > 0
    requires Moves(cap, c, Extending(size, more), c', p') && (p' == Open(size) || Moves(cap, c', p', c'', p''))
    ensures c' == c && (p' == Open(size) <==> c.usage + more > cap)
    ensures p' != Open(size) ==> p'' == ExtendSwapped(size, more) && c'' == c.(usage := c.usage + more)
  {
  }

  /** Without a cap both are granted at once. */
  lemma UncappedGrants(cap: int, c: Counters, size: int, more: int, c': Counters, p': Phase)
    requires cap <= 0
    ensures Moves(cap, c, Reserving(more), c', p') ==> p' == Open(more) && c'.usage == c.usage + more
    ensures Moves(cap, c, Extending(size, more), c', p') ==>
      p' == ExtendSwapped(size, more) && c'.usage == c.usage + more
    ensures Moves(cap, c, ExtendSwapped(size, more), c', p') ==> p' == Open(size + more) && c' == c
  {
  }

  /** Every call can be made: reserve, extend, release, and delete a committed file. */
  lemma CallsCanBeMade(cap: int, c: Counters, size: nat, more: int, actual: nat)
    requires more > 0
    ensures Moves(cap, c, Idle, c, Reserving(more)) && Moves(cap, c, Idle, c, Open(0))
    ensures Moves(cap, c, Open(size), c, Extending(size, more))
    ensures Moves(cap, c, Open(size), c, if size > 0 then Returning(size, ToIdle) else Idle)
    ensures Moves(cap, c, Filed(actual), c, Removed(actual))
  {
  }

  /** And commit: what was reserved too much goes back, and the file is counted. */
  lemma CommitAlone(cap: int, c: Counters, size: nat, actual: nat)
    requires actual <= size <= c.usage
    ensures var back := c.(usage := c.usage - (size - actual));
      && (actual == size ==> Moves(cap, c, Open(size), c, Counting(actual)))
      && (actual < size ==> Moves(cap, c, Open(size), c, Returning(size - actual, ToCounting(actual))))
      && (actual < size ==> Moves(cap, c, Returning(size - actual, ToCounting(actual)), back, Counting(actual)))
      && Moves(cap, back, Counting(actual), back.(files := back.files + 1), Filed(actual))
  {
    assert GiveBack(size - actual, ToCounting(actual)) ==
           if actual < size then Returning(size - actual, ToCounting(actual)) else Counting(actual);
  }
}
