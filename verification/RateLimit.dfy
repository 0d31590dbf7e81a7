/**
 The in-memory sliding-window limiter of common/rate-limit.go: one linked queue of accepted
 requests per key, a map from keys to entries, a least-recently-used list for evicting idle
 keys, and in-flight reservations kept apart from that list.
 Instants are nanoseconds; a window is given in seconds, as in the source.
 */
module RateLimit {
  import opened SlidingWindow

  class RequestNode {
    var next: RequestNode?
    const timestamp: int
    ghost var owner: RequestQueue?

    constructor (timestamp: int, ghost owner: RequestQueue)
      ensures this.next == null && this.timestamp == timestamp && this.owner == owner
    {
      this.next, this.timestamp, this.owner := null, timestamp, owner;
    }
  }

  /** Accepted requests of one key, oldest first. */
  class RequestQueue {
    var head: RequestNode?
    var tail: RequestNode?
    var length: int
    ghost var nodes: seq<RequestNode>
    ghost var stamps: seq<int>
    ghost const owner: Key

    ghost predicate Valid()
      reads this, nodes
    {
      && length == |nodes| == |stamps|
      && (forall i :: 0 <= i < |nodes| ==> nodes[i].owner == this && nodes[i].timestamp == stamps[i])
      && (forall i, j :: 0 <= i < j < |nodes| ==> nodes[i] != nodes[j])
      && (if nodes == [] then head == null && tail == null
          else head == nodes[0] && tail == nodes[|nodes| - 1] && tail.next == null)
      && (forall i {:trigger nodes[i].next} :: 0 <= i < |nodes| - 1 ==> nodes[i].next == nodes[i + 1])
    }

    constructor (ghost owner: Key)
      ensures Valid() && stamps == [] && nodes == [] && this.owner == owner
    {
      head, tail, length := null, null, 0;
      nodes, stamps, this.owner := [], [], owner;
    }

    method Append(timestamp: int)
      requires Valid()
      modifies this, nodes
      ensures Valid() && stamps == old(stamps) + [timestamp] && length == |stamps|
      ensures forall n :: n in nodes ==> n.owner == this && (fresh(n) || n in old(nodes))
    {
      var request := new RequestNode(timestamp, this);
      if tail == null {
        head, tail := request, request;
      } else {
        tail.next := request;
        tail := request;
      }
      length := length + 1;
      nodes, stamps := nodes + [request], stamps + [timestamp];
    }

    method Clear()
      modifies this
      ensures Valid() && stamps == [] && nodes == []
    {
      head, tail, length := null, null, 0;
      nodes, stamps := [], [];
    }

    method DropHead()
      requires Valid() && |nodes| > 1
      modifies this, nodes
      ensures Valid() && nodes == old(nodes)[1..] && stamps == old(stamps)[1..]
    {
      var expired := head;
      assert nodes[0].next == nodes[1];
      head := expired.next;
      expired.next := null;
      length := length - 1;
      nodes, stamps := nodes[1..], stamps[1..];
    }

    /** Drops exactly the requests that left the window; the loop never runs off the list. */
    method RemoveExpired(now: int, window: int)
      requires Valid() && Sorted(stamps)
      modifies this, nodes
      ensures Valid() && stamps == LiveOnly(old(stamps), now, window) && length == |stamps|
      ensures forall n :: n in nodes ==> n.owner == this && n in old(nodes)
    {
      if head == null || now - head.timestamp < window {
        LiveOnlyOfSorted(stamps, 0, now, window);
        return;
      }
      if now - tail.timestamp >= window {
        LiveOnlyOfSorted(stamps, |stamps|, now, window);
        Clear();
        return;
      }
      ghost var k := 0;
      while now - head.timestamp >= window
        invariant 0 <= k < |old(nodes)| && Valid()
        invariant nodes == old(nodes)[k..] && stamps == old(stamps)[k..]
        invariant forall i :: 0 <= i < k ==> !Live(old(stamps)[i], now, window)
        decreases length
      {
        DropHead();
        k := k + 1;
      }
      LiveOnlyOfSorted(old(stamps), k, now, window);
    }
  }

  /** A key's bucket, and its place in the least-recently-used list. */
  class Entry {
    const key: Key
    var lastActive: int
    const requests: RequestQueue

    constructor (key: Key, now: int)
      ensures this.key == key && lastActive == now
      ensures fresh(requests) && requests.Valid() && requests.stamps == [] && requests.nodes == [] &&
              requests.owner == key
    {
      this.key, lastActive := key, now;
      requests := new RequestQueue(key);
    }
  }

  // ---------------------------------------------------------------- what the limiter remembers

  /** The stamps held in memory, per key. */
  type Kept = map<Key, seq<int>>

  function KeptOf(kept: Kept, key: Key): seq<int> {
    if key in kept then kept[key] else []
  }

  /** The one window, in seconds, that each key is used with. */
  type Windows = map<Key, int>

  function WindowOf(windows: Windows, key: Key): int {
    if key in windows then windows[key] else 0
  }

  ghost predicate KeyFaithful(kept: seq<int>, history: seq<int>, now: int, window: int) {
    && Sorted(history)
    && (forall i :: 0 <= i < |history| ==> history[i] <= now)
    && Tracks(kept, history, now, window)
  }

  /** For every key, what is held in memory counts as the full history does, from `now` on. */
  ghost predicate Faithful(kept: Kept, ledger: Ledger, now: int, windows: Windows) {
    forall k :: KeyFaithful(KeptOf(kept, k), BucketOf(ledger, k).history, now, WindowOf(windows, k))
  }

  lemma FaithfulLater(kept: Kept, ledger: Ledger, now: int, later: int, windows: Windows)
    requires Faithful(kept, ledger, now, windows) && now <= later
    ensures Faithful(kept, ledger, later, windows)
  {
    forall k ensures KeyFaithful(KeptOf(kept, k), BucketOf(ledger, k).history, later, WindowOf(windows, k)) {
      assert KeyFaithful(KeptOf(kept, k), BucketOf(ledger, k).history, now, WindowOf(windows, k));
    }
  }

  /** Changing what is kept of one key, and its history, concerns that key alone. */
  lemma FaithfulUpdate(kept: Kept, kept': Kept, ledger: Ledger, ledger': Ledger, key: Key, now: int, windows: Windows)
    requires Faithful(kept, ledger, now, windows)
    requires forall k :: k != key ==>
      KeptOf(kept', k) == KeptOf(kept, k) && BucketOf(ledger', k).history == BucketOf(ledger, k).history
    requires KeyFaithful(KeptOf(kept', key), BucketOf(ledger', key).history, now, WindowOf(windows, key))
    ensures Faithful(kept', ledger', now, windows)
  {
    hide KeyFaithful;
    forall k ensures KeyFaithful(KeptOf(kept', k), BucketOf(ledger', k).history, now, WindowOf(windows, k)) {
      assert KeyFaithful(KeptOf(kept, k), BucketOf(ledger, k).history, now, WindowOf(windows, k));
    }
  }

  lemma FaithfulTouched(kept: Kept, ledger: Ledger, key: Key, now: int, windows: Windows)
    requires Faithful(kept, ledger, now, windows)
    ensures Faithful(kept[key := KeptOf(kept, key)], ledger, now, windows)
    ensures Sorted(KeptOf(kept, key))
  {
    assert KeyFaithful(KeptOf(kept, key), BucketOf(ledger, key).history, now, WindowOf(windows, key));
    FaithfulUpdate(kept, kept[key := KeptOf(kept, key)], ledger, ledger, key, now, windows);
  }

  lemma FaithfulSameHistory(kept: Kept, ledger: Ledger, key: Key, bucket: Bucket, now: int, windows: Windows)
    requires Faithful(kept, ledger, now, windows) && bucket.history == BucketOf(ledger, key).history
    ensures Faithful(kept, ledger[key := bucket], now, windows)
  {
    hide KeyFaithful;
    assert KeyFaithful(KeptOf(kept, key), BucketOf(ledger, key).history, now, WindowOf(windows, key));
    FaithfulUpdate(kept, kept, ledger, ledger[key := bucket], key, now, windows);
  }

  lemma FaithfulPruned(kept: Kept, ledger: Ledger, key: Key, now: int, windows: Windows)
    requires Faithful(kept, ledger, now, windows)
    ensures LiveOnly(KeptOf(kept, key), now, WindowOf(windows, key)) ==
            LiveOnly(BucketOf(ledger, key).history, now, WindowOf(windows, key))
    ensures Faithful(kept[key := LiveOnly(KeptOf(kept, key), now, WindowOf(windows, key))], ledger, now, windows)
  {
    var history := BucketOf(ledger, key).history;
    assert KeyFaithful(KeptOf(kept, key), history, now, WindowOf(windows, key));
    TracksPruned(KeptOf(kept, key), history, now, now, WindowOf(windows, key));
    TracksCounts(KeptOf(kept, key), history, now, now, WindowOf(windows, key));
    FaithfulUpdate(kept, kept[key := LiveOnly(KeptOf(kept, key), now, WindowOf(windows, key))], ledger, ledger, key,
                   now, windows);
  }

  lemma KeyFaithfulRecorded(kept: seq<int>, history: seq<int>, now: int, window: int)
    requires KeyFaithful(kept, history, now, window)
    ensures KeyFaithful(kept + [now], history + [now], now, window)
  {
  }

  lemma FaithfulRecorded(kept: Kept, ledger: Ledger, key: Key, bucket: Bucket, now: int, windows: Windows)
    requires Faithful(kept, ledger, now, windows)
    requires bucket.history == BucketOf(ledger, key).history + [now]
    ensures Faithful(kept[key := KeptOf(kept, key) + [now]], ledger[key := bucket], now, windows)
  {
    KeyFaithfulRecorded(KeptOf(kept, key), BucketOf(ledger, key).history, now, WindowOf(windows, key));
    FaithfulUpdate(kept, kept[key := KeptOf(kept, key) + [now]], ledger, ledger[key := bucket], key, now, windows);
  }

  /** Forgetting a key altogether is harmless once all its kept requests have left the window. */
  lemma FaithfulForgotten(kept: Kept, ledger: Ledger, key: Key, now: int, windows: Windows)
    requires Faithful(kept, ledger, now, windows)
    requires forall t :: t in KeptOf(kept, key) ==> !Live(t, now, WindowOf(windows, key))
    ensures Faithful(kept - {key}, ledger, now, windows)
  {
    var history := BucketOf(ledger, key).history;
    var before := KeptOf(kept, key);
    assert KeyFaithful(before, history, now, WindowOf(windows, key));
    forall i | 0 <= i < |history| ensures !Live(history[i], now, WindowOf(windows, key)) {
      var cut := |history| - |before|;
      if cut <= i {
        assert history[i] == before[i - cut];
      }
    }
    FaithfulUpdate(kept, kept - {key}, ledger, ledger, key, now, windows);
  }

  // ---------------------------------------------------------------- open reservations

  ghost function HeldBy(outstanding: set<Reservation>, key: Key): set<Reservation> {
    set r | r in outstanding && r.key == key
  }

  /** The reservation map holds, for every key, the number of its uncompleted reservations. */
  ghost predicate Counted(outstanding: set<Reservation>, reservations: map<Key, int>, ledger: Ledger) {
    forall k :: KeyCounted(|HeldBy(outstanding, k)|, reservations, BucketOf(ledger, k), k)
  }

  ghost predicate KeyCounted(held: nat, reservations: map<Key, int>, bucket: Bucket, key: Key) {
    && bucket.held == held
    && (key in reservations <==> held > 0)
    && (key in reservations ==> reservations[key] == held)
  }

  lemma CountedRecorded(outstanding: set<Reservation>, reservations: map<Key, int>, ledger: Ledger, key: Key,
                        bucket: Bucket)
    requires Counted(outstanding, reservations, ledger)
    requires bucket.held == BucketOf(ledger, key).held
    ensures Counted(outstanding, reservations, ledger[key := bucket])
  {
    forall k ensures KeyCounted(|HeldBy(outstanding, k)|, reservations, BucketOf(ledger[key := bucket], k), k) {
      assert KeyCounted(|HeldBy(outstanding, k)|, reservations, BucketOf(ledger, k), k);
    }
  }

  lemma HeldOpened(outstanding: set<Reservation>, r: Reservation, key: Key)
    requires r !in outstanding
    ensures |HeldBy(outstanding + {r}, key)| == |HeldBy(outstanding, key)| + if key == r.key then 1 else 0
  {
    assert HeldBy(outstanding + {r}, key) == HeldBy(outstanding, key) + if key == r.key then {r} else {};
  }

  lemma CountedOpened(outstanding: set<Reservation>, reservations: map<Key, int>, ledger: Ledger, r: Reservation,
                      bucket: Bucket, more: map<Key, int>)
    requires Counted(outstanding, reservations, ledger) && r !in outstanding
    requires bucket.held == BucketOf(ledger, r.key).held + 1
    requires more == reservations[r.key := (if r.key in reservations then reservations[r.key] else 0) + 1]
    ensures Counted(outstanding + {r}, more, ledger[r.key := bucket])
  {
    forall k ensures KeyCounted(|HeldBy(outstanding + {r}, k)|, more, BucketOf(ledger[r.key := bucket], k), k) {
      assert KeyCounted(|HeldBy(outstanding, k)|, reservations, BucketOf(ledger, k), k);
      HeldOpened(outstanding, r, k);
    }
  }

  lemma CountedHeld(outstanding: set<Reservation>, reservations: map<Key, int>, ledger: Ledger, r: Reservation)
    requires Counted(outstanding, reservations, ledger) && r in outstanding
    ensures r.key in reservations && reservations[r.key] == BucketOf(ledger, r.key).held > 0
  {
    assert r in HeldBy(outstanding, r.key);
    assert KeyCounted(|HeldBy(outstanding, r.key)|, reservations, BucketOf(ledger, r.key), r.key);
  }

  lemma CountedClosed(outstanding: set<Reservation>, reservations: map<Key, int>, ledger: Ledger, r: Reservation,
                      bucket: Bucket)
    requires Counted(outstanding, reservations, ledger) && r in outstanding
    requires bucket.held == BucketOf(ledger, r.key).held - 1
    ensures r.key in reservations && reservations[r.key] > 0
    ensures var less := reservations[r.key := reservations[r.key] - 1];
            Counted(outstanding - {r}, if less[r.key] == 0 then less - {r.key} else less, ledger[r.key := bucket])
  {
    assert r in HeldBy(outstanding, r.key);
    assert KeyCounted(|HeldBy(outstanding, r.key)|, reservations, BucketOf(ledger, r.key), r.key);
    var less := reservations[r.key := reservations[r.key] - 1];
    var rest := if less[r.key] == 0 then less - {r.key} else less;
    forall k ensures KeyCounted(|HeldBy(outstanding - {r}, k)|, rest, BucketOf(ledger[r.key := bucket], k), k) {
      assert KeyCounted(|HeldBy(outstanding, k)|, reservations, BucketOf(ledger, k), k);
      assert HeldBy(outstanding - {r}, k) == HeldBy(outstanding, k) - if k == r.key then {r} else {};
    }
  }

  // ---------------------------------------------------------------- the shape of the heap

  /** The map holds exactly the member entries, each under its own key. */
  ghost predicate Linked(store: map<Key, Entry>, members: set<Entry>) {
    && (forall e :: e in members ==> e.requests.owner == e.key && e.key in store && store[e.key] == e)
    && (forall k :: k in store ==> store[k] in members && store[k].key == k)
  }

  /** The list holds the same entries, each once, from the most to the least recently active. */
  ghost predicate Recency(lru: seq<Entry>, members: set<Entry>, now: int)
    reads members
  {
    && (forall i, j :: 0 <= i < j < |lru| ==> lru[i] != lru[j])
    && (forall e :: e in members ==> e in lru) && (forall e :: e in lru ==> e in members)
    && (forall e :: e in members ==> e.lastActive <= now)
    && (forall i, j :: 0 <= i < j < |lru| ==> lru[i].lastActive >= lru[j].lastActive)
  }

  /** Every entry owns a well-formed queue, and no two queues share a node. */
  ghost predicate Queues(members: set<Entry>, queues: set<RequestQueue>, nodes: set<RequestNode>)
    reads queues, nodes
  {
    && (forall e :: e in members ==> e.requests in queues)
    && (forall e, n :: e in members && n in e.requests.nodes ==> n in nodes && n.owner == e.requests)
    && (forall e :: e in members ==> e.requests.Valid())
  }

  /** `kept` records what the queues hold. */
  ghost predicate Matches(members: set<Entry>, queues: set<RequestQueue>, kept: Kept)
    reads queues
  {
    forall e :: e in members ==> e.key in kept && e.requests in queues && e.requests.stamps == kept[e.key]
  }

  /** No request is younger than the last activity of its entry. */
  ghost predicate Aged(members: set<Entry>, kept: Kept)
    reads members
  {
    forall e, t :: e in members && t in KeptOf(kept, e.key) ==> t <= Unix(e.lastActive)
  }

  lemma LinkedGrown(store: map<Key, Entry>, members: set<Entry>, entry: Entry)
    requires Linked(store, members) && entry.key !in store && entry.requests.owner == entry.key
    ensures Linked(store[entry.key := entry], members + {entry})
  {
  }

  lemma RecencyGrown(lru: seq<Entry>, members: set<Entry>, entry: Entry, now: int)
    requires Recency(lru, members, now) && entry !in members && entry.lastActive == now
    ensures Recency([entry] + lru, members + {entry}, now)
  {
  }

  /** Moving the entry just marked active to the front restores the order. */
  lemma RecencyMoved(lru: seq<Entry>, members: set<Entry>, i: nat, now: int)
    requires i < |lru| && lru[i].lastActive == now
    requires forall i, j :: 0 <= i < j < |lru| ==> lru[i] != lru[j]
    requires (forall e :: e in members ==> e in lru) && (forall e :: e in lru ==> e in members)
    requires forall e :: e in members ==> e.lastActive <= now
    requires forall j, k :: 0 <= j < k < |lru| && j != i && k != i ==> lru[j].lastActive >= lru[k].lastActive
    ensures Recency([lru[i]] + lru[..i] + lru[i + 1..], members, now)
  {
    MovedIndex(lru, i);
  }

  lemma RecencyLater(lru: seq<Entry>, members: set<Entry>, now: int, later: int)
    requires Recency(lru, members, now) && now <= later
    ensures Recency(lru, members, later)
  {
  }

  function MovedTo(i: nat, j: nat): nat {
    if j == 0 then i else if j <= i then j - 1 else j
  }

  lemma MovedIndex<T>(s: seq<T>, i: nat)
    requires i < |s|
    ensures var moved := [s[i]] + s[..i] + s[i + 1..];
      && |moved| == |s|
      && (forall j {:trigger moved[j]} :: 0 <= j < |s| ==> moved[j] == s[MovedTo(i, j)])
      && (forall x :: x in s ==> x in moved)
  {
    var moved := [s[i]] + s[..i] + s[i + 1..];
    forall x | x in s ensures x in moved {
      assert s == s[..i] + [s[i]] + s[i + 1..];
    }
  }

  lemma QueuesGrown(members: set<Entry>, queues: set<RequestQueue>, nodes: set<RequestNode>, entry: Entry)
    requires Queues(members, queues, nodes) && entry.requests.Valid() && entry.requests.nodes == []
    ensures Queues(members + {entry}, queues + {entry.requests}, nodes)
  {
    hide RequestQueue.Valid;
  }

  ghost function NodesOf(entry: Entry): set<RequestNode>
    reads entry.requests
  {
    set n | n in entry.requests.nodes
  }

  lemma OwnQueue(members: set<Entry>, queues: set<RequestQueue>, nodes: set<RequestNode>, entry: Entry)
    requires Queues(members, queues, nodes) && entry in members
    ensures entry.requests in queues && forall n :: n in entry.requests.nodes ==> n in nodes
  {
    hide RequestQueue.Valid;
  }

  /** One entry's queue can be set apart from all the others, ... */
  lemma SetApart(store: map<Key, Entry>, members: set<Entry>, queues: set<RequestQueue>, nodes: set<RequestNode>,
                 kept: Kept, entry: Entry)
    requires Linked(store, members) && Queues(members, queues, nodes) && Matches(members, queues, kept) &&
             entry in members
    ensures Queues(members - {entry}, queues - {entry.requests}, nodes - NodesOf(entry))
    ensures Matches(members - {entry}, queues - {entry.requests}, kept)
    ensures entry.requests.Valid() && entry.key in kept && entry.requests.stamps == kept[entry.key]
    ensures NodesOf(entry) <= nodes
  {
    hide RequestQueue.Valid;
    forall e, n | e in members - {entry} && n in e.requests.nodes ensures n in nodes - NodesOf(entry) {
      assert n.owner == e.requests != entry.requests;
    }
  }

  /** ... changed on its own, and put back. */
  lemma PutBack(store: map<Key, Entry>, members: set<Entry>, queues: set<RequestQueue>, nodes: set<RequestNode>,
                kept: Kept, entry: Entry, own: set<RequestNode>)
    requires Linked(store, members) && entry in members && entry.requests in queues
    requires Queues(members - {entry}, queues - {entry.requests}, nodes - own)
    requires Matches(members - {entry}, queues - {entry.requests}, kept)
    requires entry.requests.Valid() && forall n :: n in entry.requests.nodes ==> n.owner == entry.requests
    ensures Queues(members, queues, nodes + NodesOf(entry))
    ensures Matches(members, queues, kept[entry.key := entry.requests.stamps])
  {
    hide RequestQueue.Valid;
    var all := nodes + NodesOf(entry);
    forall e, n | e in members && n in e.requests.nodes ensures n in all && n.owner == e.requests {
      if e == entry {
        assert n in NodesOf(entry);
      } else {
        assert e in members - {entry} && n in nodes - own;
      }
    }
    forall e | e in members ensures e.requests in queues && e.requests.Valid() {
      assert e == entry || e in members - {entry};
    }
  }

  lemma MatchesGrown(members: set<Entry>, queues: set<RequestQueue>, kept: Kept, entry: Entry)
    requires Matches(members, queues, kept) && entry.key !in kept && entry.requests.stamps == []
    ensures Matches(members + {entry}, queues + {entry.requests}, kept[entry.key := []])
  {
  }

  lemma AgedGrown(members: set<Entry>, kept: Kept, entry: Entry)
    requires Aged(members, kept) && entry.key !in kept
    ensures Aged(members + {entry}, kept[entry.key := []])
  {
    var more, kept' := members + {entry}, kept[entry.key := []];
    forall e, t | e in more && t in KeptOf(kept', e.key) ensures t <= Unix(e.lastActive) {
      assert e in members && t in KeptOf(kept, e.key);
    }
  }

  /** What one entry keeps may change as long as it keeps nothing younger than its activity. */
  lemma AgedUpdated(members: set<Entry>, store: map<Key, Entry>, kept: Kept, entry: Entry, stamps: seq<int>)
    requires Aged(members, kept) && Linked(store, members) && entry in members
    requires forall t :: t in stamps ==> t in KeptOf(kept, entry.key) || t == Unix(entry.lastActive)
    ensures Aged(members, kept[entry.key := stamps])
  {
    var kept' := kept[entry.key := stamps];
    forall e, t | e in members && t in KeptOf(kept', e.key) ensures t <= Unix(e.lastActive) {
      assert e == entry || t in KeptOf(kept, e.key);
    }
  }

  lemma {:induction false} LiveOnlyIsSublist(stamps: seq<int>, now: int, window: int)
    ensures forall t :: t in LiveOnly(stamps, now, window) ==> t in stamps
  {
    if stamps != [] {
      LiveOnlyIsSublist(stamps[1..], now, window);
    }
  }

  lemma RecencyShrunk(lru: seq<Entry>, members: set<Entry>, now: int)
    requires Recency(lru, members, now) && lru != []
    ensures Recency(lru[..|lru| - 1], members - {lru[|lru| - 1]}, now) && lru[|lru| - 1] in members
  {
    var rest := lru[..|lru| - 1];
    assert lru == rest + [lru[|lru| - 1]];
  }

  /** Once the idle end of the list is active, so is every entry. */
  lemma OrderedSurvive(lru: seq<Entry>, members: set<Entry>, now: int, tick: int, expiration: int)
    requires Recency(lru, members, now)
    requires lru != [] ==> tick - lru[|lru| - 1].lastActive < expiration
    ensures forall e :: e in members ==> tick - e.lastActive < expiration
  {
    forall e | e in members ensures tick - e.lastActive < expiration {
      var i :| 0 <= i < |lru| && lru[i] == e;
      assert i == |lru| - 1 || lru[i].lastActive >= lru[|lru| - 1].lastActive;
    }
  }

  lemma LinkedShrunk(store: map<Key, Entry>, members: set<Entry>, queues: set<RequestQueue>, kept: Kept, entry: Entry)
    requires Linked(store, members) && entry in members
    requires Matches(members - {entry}, queues, kept)
    ensures Linked(store - {entry.key}, members - {entry})
    ensures Matches(members - {entry}, queues, kept - {entry.key})
    ensures entry.key in store && store[entry.key] == entry
  {
  }

  lemma AgedShrunk(store: map<Key, Entry>, members: set<Entry>, kept: Kept, entry: Entry)
    requires Linked(store, members) && Aged(members, kept) && entry in members
    ensures Aged(members - {entry}, kept - {entry.key})
  {
    var rest, kept' := members - {entry}, kept - {entry.key};
    forall e, t | e in rest && t in KeptOf(kept', e.key) ensures t <= Unix(e.lastActive) {
      assert e in members && t in KeptOf(kept, e.key);
    }
  }

  /** An entry idle for the expiration time, which no window exceeds, keeps nothing that counts. */
  lemma IdleIsExpired(members: set<Entry>, kept: Kept, entry: Entry, tick: int, now: int, window: int, expiration: int)
    requires Aged(members, kept) && entry in members && tick <= now
    requires tick - entry.lastActive >= expiration >= window * NANOS_PER_SECOND
    ensures forall t :: t in KeptOf(kept, entry.key) ==> !Live(t, Unix(now), window)
  {
    assert Unix(now) >= Unix(entry.lastActive) + window;
  }

  // ---------------------------------------------------------------- the limiter

  class Limiter {
    var store: map<Key, Entry>
    var lru: seq<Entry>                 // most recently active first
    var reservations: map<Key, int>
    const expirationDuration: int       // nanoseconds; eviction is off unless positive
    ghost const windows: Windows
    ghost var clock: int
    ghost var kept: Kept
    ghost var ledger: Ledger
    ghost var outstanding: set<Reservation>
    ghost var members: set<Entry>
    ghost var queues: set<RequestQueue>
    ghost var nodes: set<RequestNode>

    ghost predicate Heap(now: int)
      reads this`store, this`lru, this`members, this`kept, this`queues, this`nodes, members, queues, nodes
    {
      && Linked(store, members)
      && Queues(members, queues, nodes)
      && Recency(lru, members, now)
      && Matches(members, queues, kept)
      && Aged(members, kept)
      && kept.Keys == store.Keys
    }

    ghost predicate Valid()
      reads this, members, queues, nodes
    {
      && Heap(clock)
      && (expirationDuration > 0 ==> forall k :: WindowOf(windows, k) * NANOS_PER_SECOND <= expirationDuration)
      && Faithful(kept, ledger, Unix(clock), windows)
      && Counted(outstanding, reservations, ledger)
      && (forall r :: r in outstanding ==> r.limiter == this)
    }

    constructor (expirationDuration: int, ghost windows: Windows)
      requires expirationDuration > 0 ==> forall k :: WindowOf(windows, k) * NANOS_PER_SECOND <= expirationDuration
      ensures Valid() && ledger == map[] && outstanding == {} && clock == 0 && store == map[]
      ensures members == {} && queues == {} && nodes == {}
      ensures this.expirationDuration == expirationDuration && this.windows == windows
    {
      store, lru, reservations := map[], [], map[];
      this.expirationDuration, this.windows := expirationDuration, windows;
      clock, kept, ledger, outstanding := 0, map[], map[], {};
      members, queues, nodes := {}, {}, {};
      new;
      assert forall k :: HeldBy(outstanding, k) == {};
    }

    // -------------------------------------------------------------- steps on one entry

    method CreateEntry(key: Key, now: int) returns (entry: Entry)
      requires Heap(now) && key !in store
      modifies this`store, this`lru, this`members, this`kept, this`queues
      ensures Heap(now) && fresh(entry) && entry.key == key && key in store && entry.lastActive == now
      ensures members == old(members) + {entry} && kept == old(kept)[key := []]
      ensures queues == old(queues) + {entry.requests} && fresh(entry.requests)
    {
      hide RequestQueue.Valid, Linked, Queues, Recency, Matches, Aged;
      entry := new Entry(key, now);
      LinkedGrown(store, members, entry);
      QueuesGrown(members, queues, nodes, entry);
      RecencyGrown(lru, members, entry, now);
      MatchesGrown(members, queues, kept, entry);
      AgedGrown(members, kept, entry);
      lru := [entry] + lru;
      store := store[key := entry];
      members := members + {entry};
      kept := kept[key := []];
      queues := queues + {entry.requests};
    }

    /** Marks an entry active and moves it to the front of the list. */
    method Reactivate(entry: Entry, now: int)
      requires Recency(lru, members, now) && Aged(members, kept) && entry in members
      modifies this`lru, entry`lastActive
      ensures Recency(lru, members, now) && Aged(members, kept) && entry.lastActive == now
    {
      var i :| 0 <= i < |lru| && lru[i] == entry;
      entry.lastActive := now;
      RecencyMoved(lru, members, i, now);
      lru := [entry] + lru[..i] + lru[i + 1..];
    }

    /** The key's entry, created on demand, moved to the front and marked active. */
    method TouchEntry(key: Key, now: int) returns (entry: Entry)
      requires Heap(now)
      modifies this`store, this`lru, this`members, this`kept, this`queues, members`lastActive
      ensures Heap(now) && entry in members && entry.key == key && key in store && entry.lastActive == now
      ensures kept == old(kept)[key := KeptOf(old(kept), key)]
      ensures fresh(queues - old(queues)) && fresh(members - old(members)) && old(members) <= members
    {
      hide RequestQueue.Valid, Queues, Matches, Recency, Aged;
      if key !in store {
        entry := CreateEntry(key, now);
      } else {
        entry := store[key];
        Reactivate(entry, now);
      }
    }

    /** Prunes one entry's queue, leaving all the others alone. */
    method Prune(entry: Entry, now: int, window: int)
      requires Linked(store, members) && Queues(members, queues, nodes) && Matches(members, queues, kept)
      requires entry in members && entry.requests in queues && Sorted(KeptOf(kept, entry.key))
      modifies this`kept, this`nodes, entry.requests, entry.requests.nodes
      ensures Queues(members, queues, nodes) && Matches(members, queues, kept)
      ensures kept == old(kept)[entry.key := LiveOnly(KeptOf(old(kept), entry.key), now, window)]
      ensures entry.requests.length == |kept[entry.key]| && fresh(nodes - old(nodes))
    {
      hide RequestQueue.Valid, Linked, Queues, Matches;
      SetApart(store, members, queues, nodes, kept, entry);
      entry.requests.RemoveExpired(now, window);
      PutBack(store, members, queues, nodes, kept, entry, old(NodesOf(entry)));
      kept := kept[entry.key := entry.requests.stamps];
      nodes := nodes + NodesOf(entry);
    }

    /** Records a request in one entry's queue, leaving all the others alone. */
    method Push(entry: Entry, stamp: int)
      requires Linked(store, members) && Queues(members, queues, nodes) && Matches(members, queues, kept)
      requires entry in members && entry.requests in queues
      modifies this`kept, this`nodes, entry.requests, entry.requests.nodes
      ensures Queues(members, queues, nodes) && Matches(members, queues, kept)
      ensures kept == old(kept)[entry.key := KeptOf(old(kept), entry.key) + [stamp]]
      ensures fresh(nodes - old(nodes))
    {
      hide RequestQueue.Valid, Linked, Queues, Matches;
      SetApart(store, members, queues, nodes, kept, entry);
      entry.requests.Append(stamp);
      PutBack(store, members, queues, nodes, kept, entry, old(NodesOf(entry)));
      kept := kept[entry.key := entry.requests.stamps];
      nodes := nodes + NodesOf(entry);
    }

    // -------------------------------------------------------------- steps of the whole limiter

    /** A call arrives for a key: time passes and its entry becomes the most recent one. */
    method Arrive(key: Key, now: int) returns (entry: Entry)
      requires Valid() && clock <= now
      modifies this`store, this`lru, this`members, this`kept, this`queues, this`clock, members`lastActive
      ensures Valid() && clock == now && entry in members && entry.key == key && key in store && entry.lastActive == now
      ensures old(members) <= members && fresh(members - old(members)) && fresh(queues - old(queues))
    {
      hide RequestQueue.Valid, Linked, Queues, Matches, Recency, Aged, Faithful, Counted;
      RecencyLater(lru, members, clock, now);
      FaithfulLater(kept, ledger, Unix(clock), Unix(now), windows);
      FaithfulTouched(kept, ledger, key, Unix(now), windows);
      clock := now;
      entry := TouchEntry(key, now);
    }

    /** Pruning an entry changes nothing that counts; its length becomes the reference count. */
    method PruneEntry(entry: Entry, now: int, window: int)
      requires Valid() && now == Unix(clock) && entry in members && entry.key in store &&
               window == WindowOf(windows, entry.key)
      modifies this`kept, this`nodes, queues, nodes
      ensures Valid() && fresh(nodes - old(nodes))
      ensures entry.requests.length == LiveCount(BucketOf(ledger, entry.key).history, Unix(clock), window)
    {
      hide RequestQueue.Valid, Linked, Queues, Matches, Recency, Aged, Faithful, Counted;
      ghost var live := LiveOnly(KeptOf(kept, entry.key), Unix(clock), window);
      OwnQueue(members, queues, nodes, entry);
      FaithfulTouched(kept, ledger, entry.key, Unix(clock), windows);
      FaithfulPruned(kept, ledger, entry.key, Unix(clock), windows);
      LiveOnlyIsSublist(KeptOf(kept, entry.key), Unix(clock), window);
      AgedUpdated(members, store, kept, entry, live);
      Prune(entry, now, window);
    }

    /** The key's bucket, opened for a decision. */
    method Open(key: Key, now: int, window: int) returns (entry: Entry)
      requires Valid() && clock <= now && window == WindowOf(windows, key)
      modifies this`store, this`lru, this`members, this`kept, this`queues, this`nodes, this`clock,
               members, queues, nodes
      ensures Valid() && clock == now && entry in members && entry.key == key && key in store && entry.lastActive == now
      ensures fresh(members - old(members)) && fresh(queues - old(queues)) && fresh(nodes - old(nodes))
      ensures entry.requests.length == LiveCount(BucketOf(ledger, key).history, Unix(now), window)
    {
      hide *;
      entry := Arrive(key, now);
      PruneEntry(entry, Unix(now), window);
    }

    /** Records an accepted request of the key that has just become active. */
    method Accept(entry: Entry, stamp: int)
      requires Valid() && entry in members && entry.key in store && entry.lastActive == clock && stamp == Unix(clock)
      modifies this`kept, this`nodes, this`ledger, queues, nodes
      ensures Valid() && fresh(nodes - old(nodes))
      ensures var bucket := BucketOf(old(ledger), entry.key);
              ledger == old(ledger)[entry.key := bucket.(history := bucket.history + [stamp])]
    {
      hide RequestQueue.Valid, Linked, Queues, Matches, Recency, Aged, Faithful, Counted;
      ghost var bucket := BucketOf(ledger, entry.key);
      ghost var longer := bucket.(history := bucket.history + [stamp]);
      OwnQueue(members, queues, nodes, entry);
      FaithfulRecorded(kept, ledger, entry.key, longer, stamp, windows);
      CountedRecorded(outstanding, reservations, ledger, entry.key, longer);
      AgedUpdated(members, store, kept, entry, KeptOf(kept, entry.key) + [stamp]);
      Push(entry, stamp);
      ledger := ledger[entry.key := longer];
    }

    /** Counts the call in the reference ledger although it changed nothing there. */
    ghost method Refuse(key: Key)
      requires Valid()
      modifies this`ledger
      ensures Valid() && ledger == old(ledger)[key := BucketOf(old(ledger), key)]
    {
      hide RequestQueue.Valid, Linked, Queues, Matches, Recency, Aged, Faithful, Counted;
      FaithfulSameHistory(kept, ledger, key, BucketOf(ledger, key), Unix(clock), windows);
      CountedRecorded(outstanding, reservations, ledger, key, BucketOf(ledger, key));
      ledger := ledger[key := BucketOf(ledger, key)];
    }

    /** Decides as the reference limiter does, and records what it records. */
    method Request(key: Key, max: int, window: int, now: int) returns (allowed: bool)
      requires Valid() && clock <= now && window == WindowOf(windows, key)
      modifies this`store, this`lru, this`members, this`kept, this`queues, this`nodes, this`clock, this`ledger,
               members, queues, nodes
      ensures Valid() && clock == now
      ensures fresh(members - old(members)) && fresh(queues - old(queues)) && fresh(nodes - old(nodes))
      ensures var call := SlidingWindow.Request(key, max, window, Unix(now));
              allowed == Admits(BucketOf(old(ledger), key), call) && ledger == Record(old(ledger), call)
    {
      hide Valid;
      var entry := Open(key, now, window);
      allowed := entry.requests.length < max;
      if allowed {
        Accept(entry, Unix(now));
      } else {
        Refuse(key);
      }
    }

    /** Admits a reservation exactly when recorded plus in-flight requests are below the maximum. */
    method Reserve(key: Key, max: int, window: int, now: int) returns (r: Reservation?)
      requires Valid() && clock <= now && window == WindowOf(windows, key)
      modifies this`store, this`lru, this`members, this`kept, this`queues, this`nodes, this`clock, this`ledger,
               this`reservations, this`outstanding, members, queues, nodes
      ensures Valid() && clock == now
      ensures fresh(members - old(members)) && fresh(queues - old(queues)) && fresh(nodes - old(nodes))
      ensures var call := SlidingWindow.Reserve(key, max, window, Unix(now));
              (r != null) == Admits(BucketOf(old(ledger), key), call) && ledger == Record(old(ledger), call)
      ensures r == null ==> outstanding == old(outstanding)
      ensures r != null ==> fresh(r) && r.limiter == this && r.key == key && !r.once
      ensures r != null ==> outstanding == old(outstanding) + {r}
    {
      hide Valid;
      var entry := Open(key, now, window);
      var inFlight := InFlight(key);
      if entry.requests.length + inFlight >= max {
        Refuse(key);
        return null;
      }
      r := Hold(key);
    }

    /** The reservations of the key that are in flight, as the reference limiter counts them. */
    method InFlight(key: Key) returns (n: int)
      requires Valid()
      ensures n == BucketOf(ledger, key).held
    {
      hide RequestQueue.Valid, Linked, Queues, Matches, Recency, Aged, Faithful;
      assert KeyCounted(|HeldBy(outstanding, key)|, reservations, BucketOf(ledger, key), key);
      n := if key in reservations then reservations[key] else 0;
    }

    /** Opens one more reservation of the key. */
    method Hold(key: Key) returns (r: Reservation)
      requires Valid()
      modifies this`reservations, this`ledger, this`outstanding
      ensures Valid() && fresh(r) && r.limiter == this && r.key == key && !r.once
      ensures outstanding == old(outstanding) + {r}
      ensures var bucket := BucketOf(old(ledger), key);
              ledger == old(ledger)[key := bucket.(held := bucket.held + 1)]
    {
      hide RequestQueue.Valid, Linked, Queues, Matches, Recency, Aged, Faithful, Counted;
      ghost var bucket := BucketOf(ledger, key).(held := BucketOf(ledger, key).held + 1);
      r := new Reservation(this, key);
      var more := reservations[key := (if key in reservations then reservations[key] else 0) + 1];
      CountedOpened(outstanding, reservations, ledger, r, bucket, more);
      FaithfulSameHistory(kept, ledger, key, bucket, Unix(clock), windows);
      reservations := more;
      ledger := ledger[key := bucket];
      outstanding := outstanding + {r};
    }

    /** Closes one reservation: its slot is free again. */
    method Free(r: Reservation)
      requires Valid() && r in outstanding
      modifies this`reservations, this`ledger, this`outstanding
      ensures Valid() && outstanding == old(outstanding) - {r}
      ensures var bucket := BucketOf(old(ledger), r.key);
              bucket.held > 0 && ledger == old(ledger)[r.key := bucket.(held := bucket.held - 1)]
    {
      hide RequestQueue.Valid, Linked, Queues, Matches, Recency, Aged, Faithful, Counted;
      ghost var bucket := BucketOf(ledger, r.key);
      CountedHeld(outstanding, reservations, ledger, r);
      ghost var less := bucket.(held := bucket.held - 1);
      CountedClosed(outstanding, reservations, ledger, r, less);
      FaithfulSameHistory(kept, ledger, r.key, less, Unix(clock), windows);
      reservations := reservations[r.key := reservations[r.key] - 1];
      if reservations[r.key] == 0 {
        reservations := reservations - {r.key};
      }
      ledger := ledger[r.key := less];
      outstanding := outstanding - {r};
    }

    /** Forgets the least recently used entry, all of whose requests have left the window. */
    method Evict(tick: int)
      requires Valid() && lru != [] && tick <= clock
      requires expirationDuration > 0 && tick - lru[|lru| - 1].lastActive >= expirationDuration
      modifies this`store, this`lru, this`members, this`kept, this`queues, this`nodes, queues
      ensures Valid() && lru == old(lru)[..|old(lru)| - 1]
      ensures members == old(members) - {old(lru)[|old(lru)| - 1]} && queues <= old(queues) && nodes <= old(nodes)
      ensures store == old(store) - {old(lru)[|old(lru)| - 1].key}
      ensures var idle := old(lru)[|old(lru)| - 1]; idle.key in old(store) && old(store)[idle.key] == idle
    {
      hide RequestQueue.Valid, Linked, Queues, Matches, Recency, Aged, Faithful, Counted;
      var entry := lru[|lru| - 1];
      RecencyShrunk(lru, members, clock);
      OwnQueue(members, queues, nodes, entry);
      SetApart(store, members, queues, nodes, kept, entry);
      LinkedShrunk(store, members, queues - {entry.requests}, kept, entry);
      AgedShrunk(store, members, kept, entry);
      IdleIsExpired(members, kept, entry, tick, clock, WindowOf(windows, entry.key), expirationDuration);
      FaithfulForgotten(kept, ledger, entry.key, Unix(clock), windows);
      store := store - {entry.key};
      lru := lru[..|lru| - 1];
      members := members - {entry};
      kept := kept - {entry.key};
      queues, nodes := queues - {entry.requests}, nodes - NodesOf(entry);
      entry.requests.Clear();
    }

    /** The keys a scan of the whole map would keep at `tick`. */
    ghost predicate Survives(e: Entry, tick: int)
      reads e
    {
      tick - e.lastActive < expirationDuration
    }

    /**
     Walks the list from its idle end and stops at the first active key, and yet removes
     exactly the keys that a scan of every entry would remove.  No count changes.
     */
    method DeleteExpiredEntries(tick: int, ghost now: int)
      requires Valid() && clock <= now && tick <= now
      modifies this`store, this`lru, this`members, this`kept, this`queues, this`nodes, this`clock, queues
      ensures Valid() && clock == now
      ensures expirationDuration <= 0 ==> store == old(store)
      ensures forall k :: k in store ==> k in old(store) && store[k] == old(store)[k]
      ensures expirationDuration > 0 ==>
        forall k :: k in old(store) ==> (k in store <==> tick - old(store)[k].lastActive < expirationDuration)
    {
      hide Valid;
      Wait(now);
      if expirationDuration <= 0 {
        return;
      }
      while lru != [] && tick - lru[|lru| - 1].lastActive >= expirationDuration
        invariant Valid() && clock == now
        invariant members <= old(members) && queues <= old(queues) && nodes <= old(nodes)
        invariant forall k :: k in store ==> k in old(store) && store[k] == old(store)[k]
        invariant forall k :: k in old(store) && k !in store ==> !Survives(old(store)[k], tick)
        decreases |lru|
      {
        Evict(tick);
      }
      AllSurvive(tick);
    }

    lemma AllSurvive(tick: int)
      requires Valid() && (lru != [] ==> tick - lru[|lru| - 1].lastActive < expirationDuration)
      ensures forall k :: k in store ==> Survives(store[k], tick)
    {
      hide RequestQueue.Valid, Queues, Matches, Recency, Aged, Faithful, Counted;
      OrderedSurvive(lru, members, clock, tick, expirationDuration);
    }

    ghost method Wait(now: int)
      requires Valid() && clock <= now
      modifies this`clock
      ensures Valid() && clock == now
    {
      hide RequestQueue.Valid, Linked, Queues, Matches, Recency, Aged, Faithful, Counted;
      RecencyLater(lru, members, clock, now);
      FaithfulLater(kept, ledger, Unix(clock), Unix(now), windows);
      clock := now;
    }
  }

  class Reservation {
    const limiter: Limiter
    const key: Key
    var once: bool

    constructor (limiter: Limiter, key: Key)
      ensures this.limiter == limiter && this.key == key && !once
    {
      this.limiter, this.key, once := limiter, key, false;
    }

    ghost predicate Valid()
      reads this, limiter, limiter.members, limiter.queues, limiter.nodes
    {
      limiter.Valid() && (once <==> this !in limiter.outstanding)
    }

    /** Completing frees the slot and, on success, records the request; repeating it has no effect. */
    method Complete(success: bool, now: int)
      requires Valid() && limiter.clock <= now
      modifies this, limiter, limiter.members, limiter.queues, limiter.nodes
      ensures Valid() && once
      ensures limiter.outstanding == old(limiter.outstanding) - {this}
      ensures old(once) ==> limiter.ledger == old(limiter.ledger) && limiter.store == old(limiter.store)
                            && limiter.reservations == old(limiter.reservations)
      ensures !old(once) ==>
        var call := SlidingWindow.Complete(key, success, Unix(now));
        Admits(BucketOf(old(limiter.ledger), key), call) && limiter.ledger == Record(old(limiter.ledger), call)
    {
      hide Limiter.Valid;
      if once {
        return;
      }
      once := true;
      limiter.Free(this);
      if success {
        var entry := limiter.Arrive(key, now);
        limiter.Accept(entry, Unix(now));
      }
    }
  }
}
