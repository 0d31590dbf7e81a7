/**
 Request-body storage of common/body_storage.go: the streaming copy that grows its reservation,
 the memory and the disk backend, and the choice between them.
 */
module BodyStorage {
  import opened DiskCache

  type byte = b: int | 0 <= b < 256

  const COPY_BUFFER := 32 * 1024
  const EXTEND_STEP := 1048576

  function Min(a: int, b: int): int {
    if a < b then a else b
  }

  // ---------------------------------------------------------------- readers and files

  /** How a stream ends once its bytes are used up. */
  datatype End = Eof | Broken

  /** What one Read does: nothing at all, or up to `count` bytes, perhaps already with the end. */
  datatype Chop = Stall | Give(count: nat, withEnd: bool)

  datatype ReadErr = NoErr | Ended(end: End)

  /** A stream of bytes followed by an end, delivered in pieces chosen by an arbitrary script. */
  class Reader {
    var remaining: seq<byte>
    const end: End
    var script: seq<Chop>

    constructor (stream: seq<byte>, end: End, script: seq<Chop>)
      ensures remaining == stream && this.end == end && this.script == script
    {
      remaining, this.end, this.script := stream, end, script;
    }

    /** Never returns zero bytes without an error. */
    ghost predicate Prompt()
      reads this`script
    {
      forall c :: c in script ==> c.Give? && c.count > 0
    }

    method Read(max: nat) returns (chunk: seq<byte>, err: ReadErr)
      requires max > 0
      modifies this`remaining, this`script
      ensures old(remaining) == chunk + remaining && |chunk| <= max
      ensures err.Ended? ==> err.end == end && remaining == []
      ensures |script| < |old(script)| || (script == old(script) == [] && (chunk != [] || err.Ended?))
      ensures old(Prompt()) ==> Prompt() && (chunk != [] || err.Ended?)
    {
      var chop := Give(max, false);
      if script != [] {
        chop := script[0];
        script := script[1..];
      }
      if chop.Stall? {
        return [], NoErr;
      }
      var n := Min(chop.count, Min(max, |remaining|));
      chunk, remaining := remaining[..n], remaining[n..];
      err := if remaining == [] && (chop.withEnd || n == 0) then Ended(end) else NoErr;
    }
  }

  /** A file on a disk with room for so many more bytes. */
  class TempFile {
    var data: seq<byte>
    var room: int
    const silent: bool   // a short write is not reported as an error

    constructor (room: int, silent: bool)
      ensures data == [] && this.room == room && this.silent == silent
    {
      data, this.room, this.silent := [], room, silent;
    }

    method Write(p: seq<byte>) returns (n: nat, ok: bool)
      modifies this
      ensures n <= |p| && data == old(data) + p[..n] && room == old(room) - n
      ensures |p| <= old(room) ==> n == |p| && ok
      ensures n < |p| ==> |p| > old(room) && ok == silent
      ensures p != [] && |p| > old(room) ==> n < |p|
    {
      if |p| <= room {
        data, room, n, ok := data + p, room - |p|, |p|, true;
        assert p[..|p|] == p;
      } else {
        n := if room < 0 then 0 else room;
        data, room, ok := data + p[..n], room - n, silent;
      }
    }
  }

  // ---------------------------------------------------------------- the streaming copy

  datatype CopyErr = Copied | BodyTooLarge | OutOfCapacity | NoProgress | ReadFailed | WriteFailed | ShortWrite

  /** What a prompt reader and a sound disk must lead to when the reservation can grow as needed. */
  function Expected(stream: seq<byte>, end: End, maxBytes: int): CopyErr {
    if |stream| > maxBytes then BodyTooLarge else if end.Eof? then Copied else ReadFailed
  }

  /** A stream that is too long is refused as such, and one that fits is copied exactly if it ends cleanly. */
  lemma ExpectedMeans(stream: seq<byte>, end: End, maxBytes: int)
    ensures Expected(stream, end, maxBytes) == BodyTooLarge <==> |stream| > maxBytes
    ensures Expected(stream, end, maxBytes) == Copied <==> |stream| <= maxBytes && end == Eof
    ensures Expected(stream, end, maxBytes) == ReadFailed <==> |stream| <= maxBytes && end == Broken
  {
  }

  /** With the limit reached, one more read tells whether the stream is over. */
  method ProbeEnd(reader: Reader) returns (err: CopyErr)
    modifies reader
    ensures err.Copied? ==> old(reader.remaining) == [] && reader.end.Eof?
    ensures old(reader.Prompt()) ==> err == Expected(old(reader.remaining), reader.end, 0)
    ensures err in {Copied, BodyTooLarge, ReadFailed, NoProgress} && (err.NoProgress? ==> !old(reader.Prompt()))
  {
    var probe, probeErr := reader.Read(1);
    if |probe| > 0 {
      return BodyTooLarge;
    } else if probeErr.NoErr? {
      return NoProgress;
    } else if probeErr.end.Eof? {
      return Copied;
    } else {
      return ReadFailed;
    }
  }

  /** Moves one piece of the stream to the file, and says whether the copy goes on. */
  method CopyChunk(file: TempFile, reader: Reader, readBytes: nat) returns (n: nat, more: bool, err: CopyErr)
    requires readBytes > 0
    modifies file, reader
    ensures n <= readBytes && n <= |old(reader.remaining)|
    ensures file.data == old(file.data) + old(reader.remaining)[..n] && file.room == old(file.room) - n
    ensures more ==> n > 0 && reader.remaining == old(reader.remaining)[n..]
    ensures old(reader.Prompt()) ==> reader.Prompt()
    ensures !more && err.Copied? ==> n == |old(reader.remaining)| && reader.end.Eof?
    ensures !more && old(reader.Prompt()) && |old(reader.remaining)| <= old(file.room) ==>
              n == |old(reader.remaining)| && err == Expected([], reader.end, 0)
    ensures !err.BodyTooLarge? && !err.OutOfCapacity? && (err.NoProgress? && !more ==> !old(reader.Prompt()))
    ensures (err.WriteFailed? ==> !file.silent) && (err.ShortWrite? ==> file.silent)
    ensures err.WriteFailed? || err.ShortWrite? ==> n < |old(reader.remaining)| && readBytes > old(file.room)
  {
    ghost var stream := reader.remaining;
    var chunk, readErr := reader.Read(readBytes);
    assert stream[..|chunk|] == chunk;
    n, more := 0, false;
    if |chunk| > 0 {
      var wn, ok := file.Write(chunk);
      assert chunk[..wn] == stream[..wn];
      n := wn;
      if !ok {
        return n, false, WriteFailed;
      }
      if wn != |chunk| {
        return n, false, ShortWrite;
      }
    }
    if readErr == Ended(Eof) {
      return n, false, Copied;
    }
    if readErr.Ended? {
      return n, false, ReadFailed;
    }
    return n, n > 0, NoProgress;
  }

  method CopyReaderToReserved(file: TempFile, reader: Reader, maxBytes: int, reservation: Reservation,
                              reservedBytes: int)
      returns (written: int, err: CopyErr)
    requires reservation.Held() && reservation.size == reservedBytes
    modifies file, reader, reservation`size, reservation.counters`usage
    // what was written is a prefix of the stream, within the reservation and the limit
    ensures 0 <= written <= |old(reader.remaining)| && (0 < maxBytes ==> written <= maxBytes)
    ensures file.data == old(file.data) + old(reader.remaining)[..written]
    ensures reservation.Held() && written <= reservation.size
    ensures reservation.size - old(reservation.size) == reservation.counters.usage - old(reservation.counters.usage)
    ensures 0 < reservedBytes <= maxBytes ==> reservation.size <= maxBytes
    // success means the whole stream, in full and within the limit
    ensures err.Copied? ==> written == |old(reader.remaining)| && reader.end.Eof?
    // otherwise the failure is the one the stream, the disk or the cap calls for
    ensures 0 < maxBytes && 0 < reservedBytes && old(reader.Prompt()) && !err.OutOfCapacity? &&
            |old(reader.remaining)| <= old(file.room) ==>
              err == Expected(old(reader.remaining), reader.end, maxBytes)
    ensures err.NoProgress? ==> !old(reader.Prompt())
    ensures err.OutOfCapacity? && 0 < reservedBytes ==>
              var counters, next := reservation.counters, Min(1048576, maxBytes - reservation.size);
              next > 0 && counters.cap > 0 && counters.usage + next > counters.cap
    ensures var counters := reservation.counters;
              counters.cap > 0 && old(counters.usage) <= counters.cap ==> counters.usage <= counters.cap
  {
    ghost var stream := reader.remaining;
    if maxBytes <= 0 {
      return 0, BodyTooLarge;
    }
    if reservedBytes <= 0 {
      return 0, OutOfCapacity;
    }
    written := 0;
    var reserved := reservedBytes;
    while true
      invariant 0 <= written <= |stream| && stream[written..] == reader.remaining && written <= maxBytes
      invariant file.data == old(file.data) + stream[..written] && file.room == old(file.room) - written
      invariant reservation.Held() && reserved == reservation.size && written <= reserved
      invariant reservation.size - old(reservation.size) == reservation.counters.usage - old(reservation.counters.usage)
      invariant 0 < reservedBytes <= maxBytes ==> reservation.size <= maxBytes
      invariant old(reader.Prompt()) ==> reader.Prompt()
      invariant var counters := reservation.counters;
                counters.cap > 0 && old(counters.usage) <= counters.cap ==> counters.usage <= counters.cap
      decreases |reader.remaining|
    {
      if written >= maxBytes {
        err := ProbeEnd(reader);
        return written, err;
      }
      if written >= reserved {
        var extendBytes := Min(EXTEND_STEP, maxBytes - reserved);
        assert extendBytes > 0;
        var extended := reservation.Extend(extendBytes);
        if !extended {
          return written, OutOfCapacity;
        }
        reserved := reserved + extendBytes;
      }
      var readBytes := Min(reserved - written, Min(maxBytes - written, COPY_BUFFER));
      var n, more;
      n, more, err := CopyChunk(file, reader, readBytes);
      assert stream[..written] + stream[written..][..n] == stream[..written + n];
      written := written + n;
      if !more {
        return written, err;
      }
    }
  }

  // ---------------------------------------------------------------- what a storage answers

  /** A stored body as its user sees it. */
  datatype Body = Body(data: seq<byte>, pos: nat, closed: bool)

  datatype Whence = FromStart | FromCurrent | FromEnd

  datatype Call = Read(count: nat) | Seek(offset: int, whence: Whence) | Bytes | Replay | Close

  datatype Reply = Data(bytes: seq<byte>) | AtEof | Position(pos: nat) | Invalid | Closed | Done

  function Take(v: Body, count: nat): seq<byte> {
    if v.pos >= |v.data| then [] else v.data[v.pos..Min(v.pos + count, |v.data|)]
  }

  function Target(v: Body, offset: int, whence: Whence): int {
    offset + match whence case FromStart => 0 case FromCurrent => v.pos case FromEnd => |v.data|
  }

  /** A byte reader at its end reports the end even to a read of no bytes; a file does not. */
  function ReadReply(v: Body, count: nat, onDisk: bool): Reply {
    if onDisk && count == 0 then Data([])
    else if v.pos >= |v.data| then AtEof
    else Data(Take(v, count))
  }

  function Answer(v: Body, call: Call, onDisk: bool): (Body, Reply) {
    if call.Close? then (v.(closed := true), Done)
    else if v.closed then (v, Closed)
    else match call
      case Read(count) => (v.(pos := v.pos + |Take(v, count)|), ReadReply(v, count, onDisk))
      case Seek(offset, whence) =>
        var target := Target(v, offset, whence);
        if target < 0 then (v, Invalid) else (v.(pos := target), Position(target))
      case Bytes => (v, Data(v.data))
      case Replay => (v, Data(v.data))
  }

  function Replies(v: Body, calls: seq<Call>, onDisk: bool): seq<Reply>
    decreases |calls|
  {
    if calls == [] then []
    else [Answer(v, calls[0], onDisk).1] + Replies(Answer(v, calls[0], onDisk).0, calls[1..], onDisk)
  }

  /** A read of no bytes at the end of an open body: the one call that tells the backends apart. */
  predicate TellsApart(v: Body, call: Call) {
    call == Read(0) && v.pos >= |v.data| && !v.closed
  }

  /** The two backends always go on alike, and answer one call alike exactly unless it tells them apart. */
  lemma AnswersAgreeIff(v: Body, call: Call)
    ensures Answer(v, call, true).0 == Answer(v, call, false).0
    ensures Answer(v, call, true).1 == Answer(v, call, false).1 <==> !TellsApart(v, call)
  {
  }

  /** Some call of the session, when its turn comes, tells the backends apart. */
  predicate SessionTells(v: Body, calls: seq<Call>)
    decreases |calls|
  {
    calls != [] && (TellsApart(v, calls[0]) || SessionTells(Answer(v, calls[0], false).0, calls[1..]))
  }

  /** Whole sessions get the same replies from both backends, exactly unless a call reached tells them apart. */
  lemma {:induction false} SessionsAgreeIff(v: Body, calls: seq<Call>)
    ensures Replies(v, calls, true) == Replies(v, calls, false) <==> !SessionTells(v, calls)
    decreases |calls|
  {
    if calls != [] {
      var next := Answer(v, calls[0], true).0;
      AnswersAgreeIff(v, calls[0]);
      SessionsAgreeIff(next, calls[1..]);
      assert Replies(v, calls, true)[1..] == Replies(next, calls[1..], true);
      assert Replies(v, calls, false)[1..] == Replies(next, calls[1..], false);
      assert Replies(v, calls, true)[0] == Answer(v, calls[0], true).1;
      assert Replies(v, calls, false)[0] == Answer(v, calls[0], false).1;
    }
  }

  // ---------------------------------------------------------------- what reads and seeks add up to

  /** The bytes among the replies, in order. */
  function Collected(replies: seq<Reply>): seq<byte> {
    if replies == [] then [] else (if replies[0].Data? then replies[0].bytes else []) + Collected(replies[1..])
  }

  function Wanted(calls: seq<Call>): nat {
    if calls == [] then 0 else (if calls[0].Read? then calls[0].count else 0) + Wanted(calls[1..])
  }

  /** However a body is read, the pieces add up to its bytes from the position on, as many as were asked for. */
  lemma {:induction false} ReadsAddUp(v: Body, calls: seq<Call>, onDisk: bool)
    requires !v.closed && v.pos <= |v.data| && forall c :: c in calls ==> c.Read?
    ensures Collected(Replies(v, calls, onDisk)) == v.data[v.pos..Min(v.pos + Wanted(calls), |v.data|)]
    decreases |calls|
  {
    hide Answer, Collected, Replies;
    if calls == [] {
      NoReplies(v, onDisk);
      assert Min(v.pos, |v.data|) == v.pos;
    } else {
      var count, rest := calls[0].count, calls[1..];
      assert calls[0] in calls && calls[0] == Read(count);
      var next := Answer(v, Read(count), onDisk).0;
      OneRead(v, count, onDisk);
      ReadsAddUp(next, rest, onDisk);
      FirstReply(v, calls, onDisk);
      Pieces(v.data, v.pos, next.pos, Min(next.pos + Wanted(rest), |v.data|));
    }
  }

  lemma NoReplies(v: Body, onDisk: bool)
    ensures Collected(Replies(v, [], onDisk)) == []
  {
  }

  lemma FirstReply(v: Body, calls: seq<Call>, onDisk: bool)
    requires calls != []
    ensures var next, reply := Answer(v, calls[0], onDisk).0, Answer(v, calls[0], onDisk).1;
      Collected(Replies(v, calls, onDisk)) ==
      (if reply.Data? then reply.bytes else []) + Collected(Replies(next, calls[1..], onDisk))
  {
    hide Answer;
    var next, reply := Answer(v, calls[0], onDisk).0, Answer(v, calls[0], onDisk).1;
    assert Replies(v, calls, onDisk)[1..] == Replies(next, calls[1..], onDisk);
  }

  lemma Pieces(data: seq<byte>, i: nat, j: nat, k: nat)
    requires i <= j <= k <= |data|
    ensures data[i..j] + data[j..k] == data[i..k]
  {
  }

  lemma OneRead(v: Body, count: nat, onDisk: bool)
    requires !v.closed && v.pos <= |v.data|
    ensures var next, reply := Answer(v, Read(count), onDisk).0, Answer(v, Read(count), onDisk).1;
      && next == v.(pos := Min(v.pos + count, |v.data|))
      && (if reply.Data? then reply.bytes else []) == v.data[v.pos..next.pos]
  {
  }

  /** Where a seek goes, what a read says at the end, and that a closed body answers nothing. */
  lemma BodyLaws(v: Body, offset: int, count: nat, onDisk: bool)
    ensures !v.closed && offset >= 0 ==>
      Answer(v, Seek(offset, FromStart), onDisk) == (v.(pos := offset), Position(offset))
    ensures !v.closed && v.pos + offset >= 0 ==>
      Answer(v, Seek(offset, FromCurrent), onDisk) == (v.(pos := v.pos + offset), Position(v.pos + offset))
    ensures !v.closed && |v.data| + offset >= 0 ==>
      Answer(v, Seek(offset, FromEnd), onDisk) == (v.(pos := |v.data| + offset), Position(|v.data| + offset))
    ensures !v.closed && offset < 0 ==> Answer(v, Seek(offset, FromStart), onDisk) == (v, Invalid)
    ensures !v.closed && count > 0 ==> (Answer(v, Read(count), onDisk).1 == AtEof <==> v.pos >= |v.data|)
    ensures !v.closed ==> Answer(v, Bytes, onDisk) == Answer(v, Replay, onDisk) == (v, Data(v.data))
    ensures forall c: Call :: v.closed && !c.Close? ==> Answer(v, c, onDisk) == (v, Closed)
    ensures Answer(v, Close, onDisk).0 == v.(closed := true)
  {
  }

  // ---------------------------------------------------------------- the memory backend

  class MemoryStorage {
    const counters: Counters
    const data: seq<byte>
    var offset: nat
    var closed: bool

    ghost function AsBody(): Body
      reads this
    {
      Body(data, offset, closed)
    }

    constructor (data: seq<byte>, counters: Counters)
      modifies counters`memoryBuffers, counters`memoryUsage
      ensures AsBody() == Body(data, 0, false) && this.counters == counters
      ensures counters.memoryBuffers == old(counters.memoryBuffers) + 1
      ensures counters.memoryUsage == old(counters.memoryUsage) + |data|
    {
      this.data, this.counters, offset, closed := data, counters, 0, false;
      counters.memoryBuffers := counters.memoryBuffers + 1;
      counters.memoryUsage := counters.memoryUsage + |data|;
    }

    method Read(count: nat) returns (reply: Reply)
      modifies this
      ensures (AsBody(), reply) == Answer(old(AsBody()), Call.Read(count), false)
    {
      if closed {
        return Closed;
      }
      if offset >= |data| {
        return AtEof;
      }
      var n := Min(count, |data| - offset);
      reply := Data(data[offset..offset + n]);
      offset := offset + n;
    }

    method Seek(delta: int, whence: Whence) returns (reply: Reply)
      modifies this
      ensures (AsBody(), reply) == Answer(old(AsBody()), Call.Seek(delta, whence), false)
    {
      if closed {
        return Closed;
      }
      var target := delta + match whence case FromStart => 0 case FromCurrent => offset case FromEnd => |data|;
      if target < 0 {
        return Invalid;
      }
      offset := target;
      return Position(target);
    }

    method Bytes() returns (reply: Reply)
      ensures (AsBody(), reply) == Answer(old(AsBody()), Call.Bytes, false)
    {
      reply := if closed then Closed else Data(data);
    }

    method NewReader() returns (reply: Reply)
      ensures (AsBody(), reply) == Answer(old(AsBody()), Call.Replay, false)
    {
      reply := if closed then Closed else Data(data);
    }

    /** The counters are settled by the first Close and by no other. */
    method Close()
      modifies this, counters`memoryBuffers, counters`memoryUsage
      ensures AsBody() == Answer(old(AsBody()), Call.Close, false).0
      ensures counters.memoryBuffers == old(counters.memoryBuffers) - if old(closed) then 0 else 1
      ensures counters.memoryUsage == old(counters.memoryUsage) - if old(closed) then 0 else |data|
    {
      if !closed {
        closed := true;
        counters.memoryBuffers := counters.memoryBuffers - 1;
        counters.memoryUsage := counters.memoryUsage - |data|;
      }
    }
  }

  // ---------------------------------------------------------------- the disk backend

  class DiskStorage {
    const counters: Counters
    const content: seq<byte>     // what the committed file holds
    const size: int
    var offset: nat              // position of the open file
    var closed: bool

    ghost predicate Valid() {
      size == |content|
    }

    ghost function AsBody(): Body
      reads this
    {
      Body(content, offset, closed)
    }

    constructor (content: seq<byte>, counters: Counters)
      ensures Valid() && AsBody() == Body(content, 0, false) && this.counters == counters
    {
      this.content, this.size, this.counters, offset, closed := content, |content|, counters, 0, false;
    }

    method ReadFile(count: nat) returns (reply: Reply)
      modifies this`offset
      ensures reply == ReadReply(old(AsBody()), count, true)
      ensures offset == old(offset) + |Take(old(AsBody()), count)|
    {
      if count == 0 {
        return Data([]);
      }
      if offset >= |content| {
        return AtEof;
      }
      var n := Min(count, |content| - offset);
      reply := Data(content[offset..offset + n]);
      offset := offset + n;
    }

    method Read(count: nat) returns (reply: Reply)
      modifies this
      ensures (AsBody(), reply) == Answer(old(AsBody()), Call.Read(count), true)
    {
      if closed {
        return Closed;
      }
      reply := ReadFile(count);
    }

    method Seek(delta: int, whence: Whence) returns (reply: Reply)
      modifies this
      ensures (AsBody(), reply) == Answer(old(AsBody()), Call.Seek(delta, whence), true)
    {
      if closed {
        return Closed;
      }
      var target := delta + match whence case FromStart => 0 case FromCurrent => offset case FromEnd => |content|;
      if target < 0 {
        return Invalid;
      }
      offset := target;
      return Position(target);
    }

    /** Reads the file from its start and puts the read position back. */
    method Bytes() returns (reply: Reply)
      requires Valid()
      modifies this`offset
      ensures (AsBody(), reply) == Answer(old(AsBody()), Call.Bytes, true)
    {
      if closed {
        return Closed;
      }
      var currentPos := offset;
      offset := 0;
      var data := [];
      while |data| < size
        invariant 0 <= offset == |data| <= size && data == content[..|data|] && closed == old(closed)
      {
        var piece := ReadFile(size - |data|);
        data := data + piece.bytes;
      }
      offset := currentPos;
      assert data == content;
      return Data(data);
    }

    method NewReader() returns (reply: Reply)
      ensures (AsBody(), reply) == Answer(old(AsBody()), Call.Replay, true)
    {
      reply := if closed then Closed else Data(content);
    }

    /** The file is uncounted by the first Close and by no other. */
    method Close()
      modifies this, counters`files, counters`usage
      ensures AsBody() == Answer(old(AsBody()), Call.Close, true).0
      ensures old(closed) ==> counters.files == old(counters.files) && counters.usage == old(counters.usage)
      ensures !old(closed) && old(counters.files) >= 1 && 0 <= size <= old(counters.usage) ==>
                counters.files == old(counters.files) - 1 && counters.usage == old(counters.usage) - size
    {
      if !closed {
        closed := true;
        counters.DecrementFiles(size);
      }
    }
  }

  // ---------------------------------------------------------------- choosing a backend

  datatype Stored = OnDisk(disk: DiskStorage) | InMemory(memory: MemoryStorage) | Rejected

  /** The stored body, or nothing if the request was turned down. */
  ghost function Outcome(r: Stored): Body
    requires !r.Rejected?
    reads if r.OnDisk? then {r.disk} else {}, if r.InMemory? then {r.memory} else {}
  {
    if r.OnDisk? then r.disk.AsBody() else r.memory.AsBody()
  }

  /** The disk under the cache: whether files can be created and how much fits on it. */
  datatype Disk = Disk(canCreate: bool, room: int)

  /** The process counters never claim fewer bytes than are out on loan. */
  predicate Settled(c: Counters)
    reads c
  {
    c.usage >= 0
  }

  method NewDiskStorage(data: seq<byte>, counters: Counters, disk: Disk) returns (r: Stored)
    requires Settled(counters)
    modifies counters`usage, counters`files
    ensures r.OnDisk? || r.Rejected?
    ensures r.OnDisk? ==>
              fresh(r.disk) && r.disk.Valid() && r.disk.AsBody() == Body(data, 0, false) && r.disk.counters == counters
    ensures counters.usage == old(counters.usage) + if r.OnDisk? then |data| else 0
    ensures counters.files == old(counters.files) + if r.OnDisk? then 1 else 0
    ensures disk.room >= 0 ==>
              (r.OnDisk? <==>
                 && (data == [] || counters.cap <= 0 || old(counters.usage) + |data| <= counters.cap)
                 && disk.canCreate && |data| <= disk.room)
    ensures counters.cap > 0 && old(counters.usage) <= counters.cap ==> counters.usage <= counters.cap
  {
    var reserved := counters.Reserve(|data|);
    if reserved.Err? {
      return Rejected;
    }
    var reservation := reserved.value;
    if !disk.canCreate {
      reservation.Release();
      return Rejected;
    }
    var file := new TempFile(disk.room, false);
    var n, ok := file.Write(data);
    if !ok || n != |data| {
      reservation.Release();
      return Rejected;
    }
    var committed := reservation.Commit(n);
    assert data[..n] == data;
    var storage := new DiskStorage(file.data, counters);
    return OnDisk(storage);
  }

  /**
   Streams a body to disk: nothing is left reserved on failure, exactly its size is charged on
   success, and with room enough it succeeds exactly for acceptable streams.
   */
  method NewDiskStorageFromReader(reader: Reader, maxBytes: int, diskMaxBytes: int, counters: Counters, disk: Disk)
      returns (r: Stored)
    requires Settled(counters)
    modifies reader, counters`usage, counters`files
    ensures r.OnDisk? || r.Rejected?
    ensures r.OnDisk? ==> fresh(r.disk) && r.disk.Valid() && r.disk.counters == counters
    ensures r.OnDisk? ==> r.disk.AsBody() == Body(old(reader.remaining), 0, false)
    ensures r.OnDisk? ==> |old(reader.remaining)| <= maxBytes && reader.end.Eof?
    ensures counters.usage == old(counters.usage) + if r.OnDisk? then |old(reader.remaining)| else 0
    ensures counters.files == old(counters.files) + if r.OnDisk? then 1 else 0
    ensures 0 < maxBytes && disk.canCreate && |old(reader.remaining)| <= disk.room && old(reader.Prompt()) &&
            (counters.cap <= 0 || old(counters.usage) + maxBytes <= counters.cap) ==>
              (r.OnDisk? <==> |old(reader.remaining)| <= maxBytes && reader.end.Eof?)
    ensures counters.cap > 0 && old(counters.usage) <= counters.cap ==> counters.usage <= counters.cap
  {
    if maxBytes <= 0 {
      return Rejected;
    }
    var reserveBytes := if diskMaxBytes <= 0 || diskMaxBytes > maxBytes then maxBytes else diskMaxBytes;
    var reserved := counters.Reserve(reserveBytes);
    if reserved.Err? {
      return Rejected;
    }
    var reservation := reserved.value;
    if !disk.canCreate {
      reservation.Release();
      return Rejected;
    }
    var file := new TempFile(disk.room, false);
    var written, err := CopyReaderToReserved(file, reader, maxBytes, reservation, reserveBytes);
    if !err.Copied? {
      reservation.Release();
      return Rejected;
    }
    var committed := reservation.Commit(written);
    assert committed;
    assert old(reader.remaining)[..written] == old(reader.remaining);
    var storage := new DiskStorage(file.data, counters);
    return OnDisk(storage);
  }

  /** Reads at most `limit` bytes, until the end of the stream. */
  method ReadAllLimited(reader: Reader, limit: nat) returns (data: seq<byte>, ok: bool)
    modifies reader
    ensures ok ==> data == old(reader.remaining)[..Min(limit, |old(reader.remaining)|)]
    ensures ok && |old(reader.remaining)| < limit ==> reader.end.Eof?
    ensures !ok ==> reader.end.Broken?
  {
    ghost var stream := reader.remaining;
    data := [];
    while |data| < limit
      invariant |data| <= limit && |data| <= |stream| && data == stream[..|data|] &&
                stream[|data|..] == reader.remaining
      decreases |reader.script| + |reader.remaining|
    {
      var chunk, err := reader.Read(Min(512, limit - |data|));
      assert stream[|data|..][..|chunk|] == chunk;
      data := data + chunk;
      if err.Ended? {
        return data, err.end.Eof?;
      }
    }
    return data, true;
  }

  /** A stored body is charged once, to the counters of its own backend; a rejected one is charged nowhere. */
  ghost predicate Charges(c: Counters, r: Stored, size: int, usage: int, files: int, buffers: int, memory: int)
    reads c
  {
    && c.usage == usage + (if r.OnDisk? then size else 0) && c.files == files + (if r.OnDisk? then 1 else 0)
    && c.memoryBuffers == buffers + (if r.InMemory? then 1 else 0)
    && c.memoryUsage == memory + if r.InMemory? then size else 0
  }

  method CreateBodyStorage(data: seq<byte>, enabled: bool, threshold: int, counters: Counters, disk: Disk)
      returns (r: Stored)
    requires Settled(counters)
    modifies counters
    ensures !r.Rejected? && Outcome(r) == Body(data, 0, false)
    ensures r.OnDisk? ==> fresh(r.disk) && r.disk.Valid()
    ensures r.InMemory? ==> fresh(r.memory)
    ensures Charges(counters, r, |data|, old(counters.usage), old(counters.files),
                    old(counters.memoryBuffers), old(counters.memoryUsage))
    ensures r.OnDisk? ==> enabled && |data| >= threshold
    ensures disk.room >= 0 ==>
              (r.OnDisk? <==>
                 && enabled && |data| >= threshold
                 && (counters.cap <= 0 || old(counters.usage) + |data| <= counters.cap)
                 && disk.canCreate && |data| <= disk.room)
    ensures counters.cap > 0 && old(counters.usage) <= counters.cap ==> counters.usage <= counters.cap
  {
    if enabled && |data| >= threshold && counters.Fits(|data|) {
      r := NewDiskStorage(data, counters, disk);
      if r.OnDisk? {
        return;
      }
    }
    var memory := new MemoryStorage(data, counters);
    return InMemory(memory);
  }

  /**
   Whichever backend the configuration picks, an acceptable stream is stored byte for byte at
   position zero, and no other stream is.
   */
  method CreateBodyStorageFromReader(reader: Reader, contentLength: int, maxBytes: int, enabled: bool, threshold: int,
                                     counters: Counters, disk: Disk) returns (r: Stored)
    requires Settled(counters)
    modifies reader, counters
    ensures 0 < maxBytes && !r.Rejected? ==>
              |old(reader.remaining)| <= maxBytes && reader.end.Eof? &&
              Outcome(r) == Body(old(reader.remaining), 0, false)
    ensures 0 < maxBytes && disk.canCreate && |old(reader.remaining)| <= disk.room && old(reader.Prompt()) &&
            (counters.cap <= 0 || old(counters.usage) + maxBytes <= counters.cap) ==>
              (!r.Rejected? <==> |old(reader.remaining)| <= maxBytes && reader.end.Eof?)
    ensures enabled && (if contentLength <= 0 then maxBytes else contentLength) >= threshold ==> !r.InMemory?
    ensures !enabled ==> !r.OnDisk?
    ensures counters.cap > 0 && old(counters.usage) <= counters.cap ==> counters.usage <= counters.cap
    ensures Charges(counters, r, |old(reader.remaining)|, old(counters.usage), old(counters.files),
                    old(counters.memoryBuffers), old(counters.memoryUsage))
  {
    var expectedSize := if contentLength <= 0 then maxBytes else contentLength;
    if enabled && expectedSize >= threshold {
      var reserveBytes := expectedSize;
      if contentLength <= 0 {
        reserveBytes := if threshold <= 0 then EXTEND_STEP else threshold;
      }
      if reserveBytes <= 0 || reserveBytes > maxBytes {
        reserveBytes := maxBytes;
      }
      r := NewDiskStorageFromReader(reader, maxBytes, reserveBytes, counters, disk);
      return;
    }
    var limit := if maxBytes + 1 < 0 then 0 else maxBytes + 1;
    ghost var stream := reader.remaining;
    var data, ok := ReadAllLimited(reader, limit);
    if !ok || |data| > maxBytes {
      return Rejected;
    }
    r := CreateBodyStorage(data, enabled, threshold, counters, disk);
  }
}
