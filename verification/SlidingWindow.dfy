/**
 The reference limiter: it keeps the whole history of every key and never evicts anything.
 A request counts while it is younger than the key's window; a reservation counts until it
 is completed.  The heap-based limiter in module RateLimit is proved to decide every call as
 this one does, and the rate bounds below are proved of this one over whole runs.
 */
module SlidingWindow {

  const NANOS_PER_SECOND := 1_000_000_000

  /** Seconds of an instant given in nanoseconds. */
  function Unix(instant: int): int {
    instant / NANOS_PER_SECOND
  }

  lemma UnixIsSeconds(seconds: int, nanos: int)
    requires 0 <= nanos < 1_000_000_000
    ensures Unix(seconds * 1_000_000_000 + nanos) == seconds
  {
  }

  predicate Live(stamp: int, now: int, window: int) {
    now - stamp < window
  }

  /** The accepted requests that still count at second `now`, oldest first. */
  function LiveOnly(stamps: seq<int>, now: int, window: int): (live: seq<int>)
    ensures |live| <= |stamps|
  {
    if stamps == [] then []
    else if Live(stamps[0], now, window) then [stamps[0]] + LiveOnly(stamps[1..], now, window)
    else LiveOnly(stamps[1..], now, window)
  }

  function LiveCount(stamps: seq<int>, now: int, window: int): nat {
    |LiveOnly(stamps, now, window)|
  }

  predicate Sorted(stamps: seq<int>) {
    forall i, j :: 0 <= i < j < |stamps| ==> stamps[i] <= stamps[j]
  }

  // ---------------------------------------------------------------- facts about live requests

  lemma {:induction false} LiveOnlyOfExpired(stamps: seq<int>, now: int, window: int)
    requires forall i :: 0 <= i < |stamps| ==> !Live(stamps[i], now, window)
    ensures LiveOnly(stamps, now, window) == []
  {
    if stamps != [] {
      LiveOnlyOfExpired(stamps[1..], now, window);
    }
  }

  lemma {:induction false} LiveOnlyConcat(a: seq<int>, b: seq<int>, now: int, window: int)
    ensures LiveOnly(a + b, now, window) == LiveOnly(a, now, window) + LiveOnly(b, now, window)
  {
    if a == [] {
      assert a + b == b;
    } else {
      assert (a + b)[1..] == a[1..] + b;
      LiveOnlyConcat(a[1..], b, now, window);
    }
  }

  lemma {:induction false} LiveOnlyOfLive(stamps: seq<int>, now: int, window: int)
    requires forall i :: 0 <= i < |stamps| ==> Live(stamps[i], now, window)
    ensures LiveOnly(stamps, now, window) == stamps
  {
    if stamps != [] {
      LiveOnlyOfLive(stamps[1..], now, window);
    }
  }

  /** In a sorted list the expired requests form a prefix. */
  lemma LiveOnlyOfSorted(stamps: seq<int>, k: nat, now: int, window: int)
    requires Sorted(stamps) && k <= |stamps|
    requires forall i :: 0 <= i < k ==> !Live(stamps[i], now, window)
    requires k < |stamps| ==> Live(stamps[k], now, window)
    ensures LiveOnly(stamps, now, window) == stamps[k..]
  {
    hide LiveOnly;
    var expired, live := stamps[..k], stamps[k..];
    assert stamps == expired + live;
    LiveOnlyOfExpired(expired, now, window);
    forall i | 0 <= i < |live| ensures Live(live[i], now, window) {
      assert stamps[k] <= stamps[k + i];
    }
    LiveOnlyOfLive(live, now, window);
    LiveOnlyConcat(expired, live, now, window);
  }

  /** As time passes fewer of the recorded requests count. */
  lemma {:induction false} LiveCountShrinks(stamps: seq<int>, now: int, later: int, window: int)
    requires now <= later
    ensures LiveCount(stamps, later, window) <= LiveCount(stamps, now, window)
  {
    if stamps != [] {
      LiveCountShrinks(stamps[1..], now, later, window);
    }
  }

  // ---------------------------------------------------------------- what a shortened history keeps

  /**
   `kept` is a suffix of `history`, everything before it has left the window at second `now`.
   */
  ghost predicate Tracks(kept: seq<int>, history: seq<int>, now: int, window: int) {
    && |kept| <= |history|
    && kept == history[|history| - |kept|..]
    && forall i :: 0 <= i < |history| - |kept| ==> !Live(history[i], now, window)
  }

  /** A shortened history gives the same live requests as the full one, now and ever after. */
  lemma TracksCounts(kept: seq<int>, history: seq<int>, now: int, later: int, window: int)
    requires Tracks(kept, history, now, window) && now <= later
    ensures LiveOnly(kept, later, window) == LiveOnly(history, later, window)
  {
    var cut := |history| - |kept|;
    LiveOnlyOfExpired(history[..cut], later, window);
    LiveOnlyConcat(history[..cut], kept, later, window);
    assert history == history[..cut] + kept;
  }

  /** Dropping exactly the expired requests keeps the history tracked. */
  lemma TracksPruned(kept: seq<int>, history: seq<int>, now: int, later: int, window: int)
    requires Tracks(kept, history, now, window) && now <= later && Sorted(history)
    ensures Tracks(LiveOnly(kept, later, window), history, later, window)
  {
    var cut := FirstLive(history, later, window);
    LiveOnlyOfSorted(history, cut, later, window);
    TracksCounts(kept, history, now, later, window);
  }

  function FirstLive(stamps: seq<int>, now: int, window: int): (k: nat)
    ensures k <= |stamps|
    ensures forall i :: 0 <= i < k ==> !Live(stamps[i], now, window)
    ensures k < |stamps| ==> Live(stamps[k], now, window)
  {
    if stamps == [] || Live(stamps[0], now, window) then 0
    else 1 + FirstLive(stamps[1..], now, window)
  }

  // ---------------------------------------------------------------- the reference limiter

  datatype Key = Key(name: string)

  /** One key: every accepted request ever recorded, and the reservations still open. */
  datatype Bucket = Bucket(history: seq<int>, held: nat)

  type Ledger = map<Key, Bucket>

  function BucketOf(ledger: Ledger, key: Key): Bucket {
    if key in ledger then ledger[key] else Bucket([], 0)
  }

  datatype Call =
    | Request(key: Key, max: int, window: int, now: int)
    | Reserve(key: Key, max: int, window: int, now: int)
    | Complete(key: Key, success: bool, now: int)

  predicate Admits(bucket: Bucket, call: Call) {
    match call
    case Request(_, max, window, now) => LiveCount(bucket.history, now, window) < max
    case Reserve(_, max, window, now) => LiveCount(bucket.history, now, window) + bucket.held < max
    case Complete(_, _, _) => bucket.held > 0
  }

  /** What one call does to its key's bucket. A call that is not admitted changes nothing. */
  function After(bucket: Bucket, call: Call): Bucket {
    if !Admits(bucket, call) then bucket
    else match call
      case Request(_, _, _, now) => bucket.(history := bucket.history + [now])
      case Reserve(_, _, _, _) => bucket.(held := bucket.held + 1)
      case Complete(_, success, now) =>
        Bucket(if success then bucket.history + [now] else bucket.history, bucket.held - 1)
  }

  function Record(ledger: Ledger, call: Call): Ledger {
    ledger[call.key := After(BucketOf(ledger, call.key), call)]
  }

  // ---------------------------------------------------------------- whole runs

  function Run(bucket: Bucket, calls: seq<Call>): Bucket
    decreases |calls|
  {
    if calls == [] then bucket else Run(After(bucket, calls[0]), calls[1..])
  }

  function RunLedger(ledger: Ledger, calls: seq<Call>): Ledger
    decreases |calls|
  {
    if calls == [] then ledger else RunLedger(Record(ledger, calls[0]), calls[1..])
  }

  function CallsFor(calls: seq<Call>, key: Key): (own: seq<Call>)
    ensures forall i :: 0 <= i < |own| ==> own[i].key == key && own[i] in calls
  {
    if calls == [] then []
    else if calls[0].key == key then [calls[0]] + CallsFor(calls[1..], key)
    else CallsFor(calls[1..], key)
  }

  /** Keys do not influence one another: a key's bucket depends on its own calls alone. */
  lemma {:induction false} KeysAreIndependent(ledger: Ledger, calls: seq<Call>, key: Key)
    ensures BucketOf(RunLedger(ledger, calls), key) == Run(BucketOf(ledger, key), CallsFor(calls, key))
    decreases |calls|
  {
    if calls != [] {
      KeysAreIndependent(Record(ledger, calls[0]), calls[1..], key);
      if calls[0].key == key {
        assert CallsFor(calls, key)[1..] == CallsFor(calls[1..], key);
      }
    }
  }

  /** Every call of the run uses the one limit of its key, and the clock never goes back. */
  ghost predicate Regular(calls: seq<Call>, max: int, window: int, since: int) {
    && (forall i :: 0 <= i < |calls| ==> since <= calls[i].now)
    && (forall i, j :: 0 <= i < j < |calls| ==> calls[i].now <= calls[j].now)
    && (forall i :: 0 <= i < |calls| ==>
          (calls[i].Request? || calls[i].Reserve? ==> calls[i].max == max && calls[i].window == window))
  }

  /** No `window` seconds hold more than `max` recorded requests. */
  ghost predicate RateBounded(history: seq<int>, max: nat, window: int) {
    forall i, j :: 0 <= i && i + max <= j < |history| ==> history[j] - history[i] >= window
  }

  /** What holds between two calls of a run that never mixes Request with Reserve. */
  ghost predicate Steady(bucket: Bucket, max: nat, window: int, now: int) {
    && Sorted(bucket.history)
    && (forall i :: 0 <= i < |bucket.history| ==> bucket.history[i] <= now)
    && RateBounded(bucket.history, max, window)
    && LiveCount(bucket.history, now, window) + bucket.held <= max
  }

  /** Recording one more request at a moment when fewer than `max` count keeps the bound. */
  lemma RecordKeepsBound(history: seq<int>, max: nat, window: int, now: int)
    requires Sorted(history) && RateBounded(history, max, window)
    requires forall i :: 0 <= i < |history| ==> history[i] <= now
    requires LiveCount(history, now, window) < max
    ensures RateBounded(history + [now], max, window) && Sorted(history + [now])
    ensures LiveCount(history + [now], now, window) <= LiveCount(history, now, window) + 1
  {
    LiveOnlyConcat(history, [now], now, window);
    var cut := FirstLive(history, now, window);
    LiveOnlyOfSorted(history, cut, now, window);
    var longer := history + [now];
    forall i, j | 0 <= i && i + max <= j < |longer| ensures longer[j] - longer[i] >= window {
      if j == |history| {
        assert i < cut;
        assert !Live(history[i], now, window);
      }
    }
  }

  lemma StepIsSteady(bucket: Bucket, call: Call, max: nat, window: int, since: int)
    requires Steady(bucket, max, window, since) && since <= call.now
    requires !call.Complete? ==> call.max == max && call.window == window
    requires call.Request? ==> bucket.held == 0
    ensures Steady(After(bucket, call), max, window, call.now)
    ensures !call.Reserve? ==> After(bucket, call).held <= bucket.held
  {
    LiveCountShrinks(bucket.history, since, call.now, window);
    var records := Admits(bucket, call) && (call.Request? || (call.Complete? && call.success));
    if records {
      RecordKeepsBound(bucket.history, max, window, call.now);
    }
  }

  /**
   The bound on a key used through Request alone or through Reserve and Complete alone:
   over any run, recorded plus in-flight requests never exceed the maximum and no window
   holds more than the maximum.
   */
  lemma {:induction false} RunIsSteady(bucket: Bucket, calls: seq<Call>, max: nat, window: int, since: int)
    requires Steady(bucket, max, window, since) && Regular(calls, max, window, since)
    requires || (bucket.held == 0 && forall i :: 0 <= i < |calls| ==> calls[i].Request?)
             || (forall i :: 0 <= i < |calls| ==> !calls[i].Request?)
    ensures Steady(Run(bucket, calls), max, window, if calls == [] then since else calls[|calls| - 1].now)
    decreases |calls|
  {
    if calls != [] {
      StepIsSteady(bucket, calls[0], max, window, since);
      RunIsSteady(After(bucket, calls[0]), calls[1..], max, window, calls[0].now);
    }
  }

  /**
   Request does not look at open reservations.  On a key that also has some, an admitted
   Request keeps the bound exactly when the reservations were covered as well.
   */
  lemma MixedRequestIsSafeIff(bucket: Bucket, call: Call, max: nat, window: int, since: int)
    requires Steady(bucket, max, window, since) && since <= call.now && 0 < window
    requires call.Request? && call.max == max && call.window == window && Admits(bucket, call)
    ensures Steady(After(bucket, call), max, window, call.now)
       <==> LiveCount(bucket.history, call.now, window) + bucket.held < max
  {
    RecordKeepsBound(bucket.history, max, window, call.now);
    LiveOnlyConcat(bucket.history, [call.now], call.now, window);
    assert LiveOnly([call.now], call.now, window) == [call.now];
  }

  /** Mixing the two on one key breaks the bound: Request does not see open reservations. */
  lemma MixingBreaksTheBound()
    ensures var calls := [Reserve(Key("k"), 1, 60, 0), Request(Key("k"), 1, 60, 0)];
            Regular(calls, 1, 60, 0) &&
            !Steady(Run(Bucket([], 0), calls), 1, 60, 0)
  {
    var first := Reserve(Key("k"), 1, 60, 0);
    var second := Request(Key("k"), 1, 60, 0);
    var calls := [first, second];
    assert After(Bucket([], 0), first) == Bucket([], 1);
    assert After(Bucket([], 1), second) == Bucket([0], 1) by {
      assert [] + [0] == [0];
    }
    assert calls[1..] == [second] && calls[1..][1..] == [];
    assert Run(Bucket([], 0), calls) == Run(Bucket([], 1), [second]) == Run(Bucket([0], 1), []);
    assert LiveOnly([0], 0, 60) == [0];
  }

  // ---------------------------------------------------------------- what a run accepts, from its calls alone

  /** How many of the stamps are younger than the window. */
  function Young(stamps: seq<int>, now: int, window: int): nat {
    |set i | 0 <= i < |stamps| && now - stamps[i] < window|
  }

  /** The moments at which requests were accepted: of an accepted Request, and of a Complete that reports success. */
  function Accepted(calls: seq<Call>): seq<int>
    decreases |calls|, 1
  {
    if calls == [] then []
    else
      var before, call := calls[..|calls| - 1], calls[|calls| - 1];
      var records := call.Request? || (call.Complete? && call.success);
      Accepted(before) + if Granted(before, call) && records then [call.now] else []
  }

  /** The reservations granted and not completed. */
  function InFlight(calls: seq<Call>): int
    decreases |calls|, 1
  {
    if calls == [] then 0
    else
      var before, call := calls[..|calls| - 1], calls[|calls| - 1];
      InFlight(before) + if !Granted(before, call) || call.Request? then 0 else if call.Reserve? then 1 else -1
  }

  /** The decision on a call after the calls `before`, counted afresh. */
  predicate Granted(before: seq<Call>, call: Call)
    decreases |before| + 1, 0
  {
    match call
    case Request(_, max, window, now) => Young(Accepted(before), now, window) < max
    case Reserve(_, max, window, now) => Young(Accepted(before), now, window) + InFlight(before) < max
    case Complete(_, _, _) => InFlight(before) > 0
  }

  lemma {:induction false} LiveIsYoung(stamps: seq<int>, now: int, window: int)
    ensures LiveCount(stamps, now, window) == Young(stamps, now, window)
  {
    if stamps != [] {
      var n := |stamps| - 1;
      var front, last := stamps[..n], stamps[n];
      assert stamps == front + [last];
      LiveIsYoung(front, now, window);
      LiveOnlyConcat(front, [last], now, window);
      assert |LiveOnly([last], now, window)| == if now - last < window then 1 else 0;
      var young := set i | 0 <= i < |front| && now - front[i] < window;
      assert (set i | 0 <= i < |stamps| && now - stamps[i] < window) == young + if now - last < window then {n} else {};
    } else {
      NoYoung(now, window);
    }
  }

  lemma NoYoung(now: int, window: int)
    ensures Young([], now, window) == 0
  {
  }

  lemma {:induction false} RunSnoc(bucket: Bucket, calls: seq<Call>, call: Call)
    ensures Run(bucket, calls + [call]) == After(Run(bucket, calls), call)
    decreases |calls|
  {
    if calls != [] {
      assert (calls + [call])[1..] == calls[1..] + [call];
      RunSnoc(After(bucket, calls[0]), calls[1..], call);
    }
  }

  /** From the start, a key's bucket holds exactly what its calls were granted, in order. */
  lemma {:induction false} RunRecordsAccepted(calls: seq<Call>)
    ensures Run(Bucket([], 0), calls).history == Accepted(calls)
    ensures Run(Bucket([], 0), calls).held == InFlight(calls)
    decreases |calls|
  {
    if calls != [] {
      var before, call := calls[..|calls| - 1], calls[|calls| - 1];
      assert calls == before + [call];
      RunRecordsAccepted(before);
      RunSnoc(Bucket([], 0), before, call);
      if !call.Complete? {
        LiveIsYoung(Accepted(before), call.now, call.window);
      }
    }
  }

  /** The reference limiter decides on every call as the afresh count does. */
  lemma AdmitsIsGranted(before: seq<Call>, call: Call)
    ensures Admits(Run(Bucket([], 0), before), call) <==> Granted(before, call)
  {
    RunRecordsAccepted(before);
    if !call.Complete? {
      LiveIsYoung(Accepted(before), call.now, call.window);
    }
  }

  /**
   The rate bound on the accepted requests themselves, for a key used through Request alone or through Reserve
   and Complete alone: any two of them that have the maximum between them are a window apart, and those still
   young plus those in flight never exceed the maximum.
   */
  lemma AcceptedAreBounded(calls: seq<Call>, max: nat, window: int)
    requires Regular(calls, max, window, 0) && calls != []
    requires || (forall i :: 0 <= i < |calls| ==> calls[i].Request?)
             || (forall i :: 0 <= i < |calls| ==> !calls[i].Request?)
    ensures var stamps, now := Accepted(calls), calls[|calls| - 1].now;
      && (forall i, j :: 0 <= i && i + max <= j < |stamps| ==> stamps[j] - stamps[i] >= window)
      && Young(stamps, now, window) + InFlight(calls) <= max
  {
    RunIsSteady(Bucket([], 0), calls, max, window, 0);
    RunRecordsAccepted(calls);
    LiveIsYoung(Accepted(calls), calls[|calls| - 1].now, window);
  }
}
