/**
 A pipe: pipe.c.

 Each method is one stretch that a process runs with the pipe's lock held, from acquire (or from
 its return from sleep) to release (or to its next sleep).  Such stretches never overlap, so a run
 of any number of readers and writers is a sequence of calls of these methods in any order, and
 what every method keeps holds in every run whenever the lock is free.  That sleep() and wakeup(),
 which take more than one step, behave as these stretches assume is the subject of PipeProtocol.dfy.

 `written` and `taken` are all the bytes that have ever gone in and out.  `writers` and `readers`
 are the processes asleep on &p->nwrite and &p->nread.
 */
module Pipe {
  import opened Common

  const PIPESIZE := 512

  datatype WriteEnd = WroteAll | WriteFailed | WriterSleeps
  datatype ReadEnd = Got(bytes: seq<Byte>) | ReadFailed | ReaderSleeps

  /** The tests for a full and an empty pipe, on counters that wrap. */
  lemma FullTest(w: nat, r: nat)
    requires r <= w <= r + PIPESIZE
    ensures w % UINT_LIMIT == (r % UINT_LIMIT + PIPESIZE) % UINT_LIMIT <==> w == r + PIPESIZE
    ensures w % UINT_LIMIT == r % UINT_LIMIT <==> w == r
  {
  }

  /** A wrapped counter gives the same place in the buffer, and counts on. */
  lemma Wraps(w: nat)
    ensures w % UINT_LIMIT % PIPESIZE == w % PIPESIZE
    ensures (w % UINT_LIMIT + 1) % UINT_LIMIT == (w + 1) % UINT_LIMIT
  {
  }

  /** Fewer than PIPESIZE bytes ahead is another place in the buffer. */
  lemma OtherPlace(k: nat, w: nat)
    requires k < w < k + PIPESIZE
    ensures k % PIPESIZE != w % PIPESIZE
  {
  }

  /** The buffer holds what is written and not yet taken. */
  ghost predicate Holds(data: seq<Byte>, written: seq<Byte>, r: nat) {
    && |data| == PIPESIZE && r <= |written| <= r + PIPESIZE
    && forall k :: r <= k < |written| ==> data[k % PIPESIZE] == written[k]
  }

  lemma PutHolds(data: seq<Byte>, written: seq<Byte>, r: nat, x: Byte)
    requires Holds(data, written, r) && |written| < r + PIPESIZE
    ensures Holds(data[|written| % PIPESIZE := x], written + [x], r)
  {
    var w2 := written + [x];
    forall k | r <= k < |w2| ensures data[|written| % PIPESIZE := x][k % PIPESIZE] == w2[k] {
      if k < |written| {
        OtherPlace(k, |written|);
      }
    }
  }

  class Channel {
    const data: array<Byte>
    var nread: Uint
    var nwrite: Uint
    var readopen: bool
    var writeopen: bool
    ghost var written: seq<Byte>
    ghost var taken: nat
    ghost var writers: set<nat>
    ghost var readers: set<nat>
    ghost var stranded: bool

    ghost predicate Valid()
      reads this, data
    {
      && Holds(data[..], written, taken) && nwrite == |written| % UINT_LIMIT && nread == taken % UINT_LIMIT
      // nobody waits for room unless there is none, and someone may still make some
      && (writers != {} ==> |written| == taken + PIPESIZE && readopen)
      // nobody waits for bytes unless there are none, and someone may still send some
      && (readers != {} ==> writeopen) && (readers != {} && !stranded ==> |written| == taken)
      && (stranded ==> readers != {} && taken < |written|)
    }

    constructor ()
      ensures Valid() && fresh(data) && readopen && writeopen && written == [] && taken == 0
      ensures writers == {} && readers == {} && !stranded
    {
      data := new Byte[PIPESIZE];
      nread, nwrite, readopen, writeopen := 0, 0, true, true;
      written, taken, writers, readers, stranded := [], 0, {}, {}, false;
    }

    /** p->data[p->nwrite++ % PIPESIZE] = x, with room for it. */
    method Put(x: Byte)
      requires Holds(data[..], written, taken) && nwrite == |written| % UINT_LIMIT && |written| < taken + PIPESIZE
      modifies this`nwrite, this`written, data
      ensures Holds(data[..], written, taken) && nwrite == |written| % UINT_LIMIT && written == old(written) + [x]
    {
      PutHolds(data[..], written, taken, x);
      Wraps(|written|);
      data[nwrite % PIPESIZE] := x;
      nwrite := (nwrite + 1) % UINT_LIMIT;
      written := written + [x];
    }

    /**
     pipewrite() by process p, from byte i of buf on: it puts in bytes until all are in, or until
     the pipe is full; then it fails if nobody can read or p was killed, and sleeps otherwise.
     */
    method Write(p: nat, buf: seq<Byte>, i: nat, killed: bool) returns (j: nat, end: WriteEnd)
      requires Valid() && i <= |buf| && p !in writers && p !in readers
      requires readers != {} ==> readopen
      modifies this, data
      ensures Valid() && readopen == old(readopen) && writeopen == old(writeopen) && taken == old(taken)
      ensures i <= j <= |buf| && written == old(written) + buf[i..j]
      ensures end == WroteAll <==> j == |buf|
      ensures j < |buf| ==> |written| == taken + PIPESIZE && (end == WriteFailed <==> !readopen || killed)
      ensures writers == (if end == WriterSleeps then old(writers) + {p} else old(writers))
      ensures readers == (if end == WriteFailed then old(readers) else {})
      ensures stranded <==> killed && old(readers) != {} && |old(written)| + |buf| - i > old(taken) + PIPESIZE
    {
      j := i;
      while j < |buf|
        invariant i <= j <= |buf| && written == old(written) + buf[i..j]
        invariant Holds(data[..], written, taken) && nwrite == |written| % UINT_LIMIT && nread == taken % UINT_LIMIT
        invariant writers == old(writers) && readers == old(readers) && stranded == old(stranded) && taken == old(taken)
        invariant readopen == old(readopen) && writeopen == old(writeopen)
        invariant writers != {} ==> j == i
      {
        FullTest(|written|, taken);
        if nwrite == (nread + PIPESIZE) % UINT_LIMIT {
          if !readopen || killed {
            stranded := readers != {};
            return j, WriteFailed;
          }
          readers, stranded := {}, false;
          writers := writers + {p};
          return j, WriterSleeps;
        }
        Put(buf[j]);
        j := j + 1;
      }
      readers, stranded := {}, false;
      return j, WroteAll;
    }

    /**
     piperead() by process p: it sleeps (or fails, when killed) while the pipe is empty and open for
     writing; otherwise it takes as many bytes as there are, up to n, in the order they were written.
     */
    method Read(p: nat, n: nat, killed: bool) returns (end: ReadEnd)
      requires Valid() && p !in writers && p !in readers
      modifies this
      ensures Valid() && readopen == old(readopen) && writeopen == old(writeopen) && written == old(written)
      ensures old(taken) == |written| && writeopen <==> !end.Got?
      ensures end == ReaderSleeps ==>
                !killed && taken == old(taken) && writers == old(writers) && readers == old(readers) + {p}
      ensures end == ReadFailed ==> killed && taken == old(taken) && writers == old(writers) && readers == old(readers)
      ensures end.Got? ==>
                && taken == old(taken) + |end.bytes| <= |written| && end.bytes == written[old(taken)..taken]
                && (|end.bytes| == n || (|end.bytes| < n && taken == |written|))
                && writers == {} && readers == old(readers)
      ensures stranded ==> old(stranded)
    {
      FullTest(|written|, taken);
      if nread == nwrite && writeopen {
        if killed {
          return ReadFailed;
        }
        readers, stranded := readers + {p}, false;
        return ReaderSleeps;
      }
      var buf: seq<Byte> := [];
      var i := 0;
      while i < n
        invariant 0 <= i <= n && |buf| == i && taken == old(taken) + i <= |written|
        invariant buf == written[old(taken)..taken] && written == old(written)
        invariant Holds(data[..], written, taken) && nread == taken % UINT_LIMIT && nwrite == |written| % UINT_LIMIT
        invariant writers == old(writers) && readers == old(readers) && stranded == old(stranded)
        invariant readopen == old(readopen) && writeopen == old(writeopen)
      {
        FullTest(|written|, taken);
        if nread == nwrite {
          break;
        }
        assert data[..][taken % PIPESIZE] == written[taken];
        Wraps(taken);
        buf := buf + [data[nread % PIPESIZE]];
        nread := (nread + 1) % UINT_LIMIT;
        taken := taken + 1;
        i := i + 1;
      }
      writers := {};
      stranded := stranded && taken < |written|;
      return Got(buf);
    }

    /** What kill() of process p does here: a sleeper runs again. */
    method Kill(p: nat)
      requires Valid()
      modifies this
      ensures Valid() && written == old(written) && taken == old(taken) && readopen == old(readopen) &&
              writeopen == old(writeopen)
      ensures writers == old(writers) - {p} && readers == old(readers) - {p} && (stranded ==> old(stranded))
    {
      writers, readers := writers - {p}, readers - {p};
      stranded := stranded && readers != {};
    }

    /**
     pipeclose() of one end, whose last descriptor is gone, so that no process is asleep in a call
     on that end.  The processes at the other end are awake, also when the pipe is freed.
     */
    method Close(writable: bool) returns (freed: bool)
      requires Valid() && (if writable then writers == {} else readers == {})
      modifies this
      ensures Valid() && written == old(written) && taken == old(taken)
      ensures writeopen == (old(writeopen) && !writable) && readopen == (old(readopen) && writable)
      ensures writers == {} && readers == {}
      ensures freed <==> !readopen && !writeopen
    {
      if writable {
        writeopen := false;
        readers, stranded := {}, false;
      } else {
        readopen := false;
        writers := {};
      }
      return !readopen && !writeopen;
    }
  }

  /**
   A reader can stay asleep on a pipe that is not empty: it went to sleep, a writer filled the pipe
   and was killed, and Write's last postcondition says that nothing less than a kill does this.
   */
  method StrandedReader() returns (q: Channel)
    ensures q.Valid() && q.readers != {} && q.taken < |q.written| && q.writeopen
  {
    q := new Channel();
    var r := q.Read(0, 1, false);
    var buf: seq<Byte> := seq(PIPESIZE + 1, _ => 0);
    var j, w := q.Write(1, buf, 0, true);
  }
}
