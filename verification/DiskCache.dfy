/**
 The allocator of common/disk_cache_config.go as one goroutine sees it between the steps of
 others: the counters of a process and a reservation that is extended, committed or released.
 Module DiskCacheLocal covers what happens when such calls interleave.
 */
module DiskCache {

  datatype Failure = TooLarge | NoCapacity

  datatype Result<T> = Ok(value: T) | Err(error: Failure)

  class Counters {
    const cap: int            // bytes; no limit unless positive
    var usage: int
    var files: int
    var memoryBuffers: int
    var memoryUsage: int

    constructor (cap: int)
      ensures this.cap == cap && usage == 0 && files == 0 && memoryBuffers == 0 && memoryUsage == 0
    {
      this.cap, usage, files, memoryBuffers, memoryUsage := cap, 0, 0, 0, 0;
    }

    predicate Fits(size: int)
      reads this
    {
      cap <= 0 || (usage <= cap && size <= cap - usage)
    }

    method ReleaseBytes(size: int)
      modifies this`usage
      ensures usage == if size <= 0 then old(usage) else if old(usage) < size then 0 else old(usage) - size
    {
      if size <= 0 {
        return;
      }
      usage := usage - size;
      if usage < 0 {
        usage := 0;
      }
    }

    method Reserve(size: int) returns (r: Result<Reservation>)
      modifies this`usage
      ensures size < 0 ==> r == Err(TooLarge)
      ensures size > 0 && cap > 0 && old(usage) + size > cap ==> r == Err(NoCapacity)
      ensures r.Ok? <==> size == 0 || (size > 0 && (cap <= 0 || old(usage) + size <= cap))
      ensures cap > 0 && old(usage) <= cap ==> usage <= cap
      ensures r.Ok? ==> fresh(r.value) && r.value.counters == this && r.value.size == size && !r.value.done
      ensures usage == if r.Ok? then old(usage) + size else old(usage)
    {
      if size < 0 {
        return Err(TooLarge);
      }
      if size > 0 {
        if !Fits(size) {
          return Err(NoCapacity);
        }
        usage := usage + size;
      }
      var reservation := new Reservation(this, size);
      return Ok(reservation);
    }

    method DecrementFiles(size: int)
      modifies this`usage, this`files
      ensures files == if old(files) < 1 then 0 else old(files) - 1
      ensures usage == if size <= 0 then old(usage) else if old(usage) < size then 0 else old(usage) - size
    {
      files := files - 1;
      if files < 0 {
        files := 0;
      }
      ReleaseBytes(size);
    }
  }

  class Reservation {
    const counters: Counters
    var size: int
    var done: bool

    constructor (counters: Counters, size: int)
      ensures this.counters == counters && this.size == size && !done
    {
      this.counters, this.size, done := counters, size, false;
    }

    /** An open reservation whose bytes are part of the usage. */
    ghost predicate Held()
      reads this, counters
    {
      !done && 0 <= size <= counters.usage
    }

    method Extend(more: int) returns (ok: bool)
      modifies this`size, counters`usage
      ensures ok <==> done || more <= 0 || counters.cap <= 0 || old(counters.usage) + more <= counters.cap
      ensures counters.cap > 0 && old(counters.usage) <= counters.cap ==> counters.usage <= counters.cap
      ensures var grown := if ok && !done && more > 0 then more else 0;
              size == old(size) + grown && counters.usage == old(counters.usage) + grown
    {
      if more <= 0 || done {
        return true;
      }
      if !counters.Fits(more) {
        return false;
      }
      counters.usage := counters.usage + more;
      size := size + more;
      return true;
    }

    /**
     Turns the reservation into a counted file of the actual size, or gives everything back.
     Committing a finished reservation has no effect.
     */
    method Commit(actual: int) returns (ok: bool)
      requires !done ==> Held()
      modifies this`done, counters`usage, counters`files
      ensures ok <==> 0 <= actual && (old(done) || actual <= size)
      ensures done == (old(done) || actual >= 0)
      ensures counters.files == if !old(done) && ok then old(counters.files) + 1 else old(counters.files)
      ensures counters.usage == if old(done) || actual < 0 then old(counters.usage)
                                else old(counters.usage) - size + if ok then actual else 0
      ensures 0 <= counters.usage <= old(counters.usage) || old(done) || actual < 0
    {
      if actual < 0 {
        return false;
      }
      if done {
        return true;
      }
      done := true;
      if actual > size {
        counters.ReleaseBytes(size);
        return false;
      }
      counters.ReleaseBytes(size - actual);
      counters.files := counters.files + 1;
      return true;
    }

    /** Gives the bytes back once; releasing a finished reservation has no effect. */
    method Release()
      requires !done ==> Held()
      modifies this`done, counters`usage
      ensures done && counters.usage == if old(done) then old(counters.usage) else old(counters.usage) - size
      ensures counters.usage <= old(counters.usage)
    {
      if !done {
        done := true;
        counters.ReleaseBytes(size);
      }
    }
  }
}
