/** pipewrite, piperead and pipeclose of `xv6/pipe.c` on the ring in memory. */
module PipeCode {
  import opened Common
  import opened PipeRing

  class PipeBuffer {
    const data: array<int>
    var nread: nat
    var nwrite: nat
    var readopen: bool
    var writeopen: bool
    var readers: bool   // somebody sleeps on nread
    var writers: bool   // somebody sleeps on nwrite

    ghost predicate Valid()
      reads this
    {
      0 < data.Length && nread < WORD32 && nwrite < WORD32
    }

    ghost function Now(): Pipe
      reads this, data
    {
      Pipe(data[..], nread, nwrite, readopen, writeopen, readers, writers)
    }

    /** pipealloc. */
    constructor (size: nat)
      requires 0 < size
      ensures Valid() && fresh(data) && data.Length == size && Now() == NewPipe(data[..])
    {
      data := new int[size](_ => 0);
      nread, nwrite, readopen, writeopen, readers, writers := 0, 0, true, true, false, false;
    }

    /**
     pipewrite from byte `from` on, until it returns or sleeps.  `i` is the number of bytes stored
     so far; a sleeping writer goes on from there.
     */
    method Pipewrite(addr: seq<int>, from: nat, killed: bool) returns (out: Outcome, i: nat)
      requires Valid() && from <= |addr|
      modifies this, data
      ensures Valid() && (Now(), out, i) == Write(old(Now()), addr, from, killed)
      ensures WritesWhatFits(old(Now()), Now(), out, addr, from, i, killed)
      ensures readopen == old(readopen) && writeopen == old(writeopen) && nread == old(nread)
      ensures readers == (old(readers) && out.Failed?) && writers == (old(writers) || out.Asleep?)
    {
      WriteIsWhatFits(Now(), addr, from, killed);
      WriteFlags(Now(), addr, from, killed);
      i := from;
      while i < |addr|
        invariant Valid() && from <= i <= |addr| && nread == old(nread)
        invariant Write(Now(), addr, i, killed) == Write(old(Now()), addr, from, killed)
      {
        if nwrite == (nread + data.Length) % WORD32 {
          if !readopen || killed {
            return Failed, i;
          }
          readers := false;
          writers := true;
          return Asleep(i), i;
        }
        Put(addr[i]);
        i := i + 1;
      }
      readers := false;
      out := Done(|addr|);
    }

    method Put(b: int)
      requires Valid()
      modifies this`nwrite, data
      ensures Valid() && Now() == Store(old(Now()), b)
    {
      data[nwrite % data.Length] := b;
      nwrite := (nwrite + 1) % WORD32;
      assert data[..] == old(data[..])[old(nwrite) % data.Length := b];
    }

    /** piperead until it returns or sleeps. */
    method Piperead(n: nat, killed: bool) returns (out: Outcome)
      requires Valid()
      modifies this
      ensures Valid() && (Now(), out) == Read(old(Now()), n, killed)
      ensures ReadsOldest(old(Now()), Now(), out, n, killed)
      ensures readopen == old(readopen) && writeopen == old(writeopen) && nwrite == old(nwrite)
      ensures readers == (old(readers) || out.Asleep?) && writers == (old(writers) && !out.Got?)
    {
      ReadIsOldest(Now(), n, killed);
      if nread == nwrite && writeopen {
        if killed {
          return Failed;
        }
        readers := true;
        return Asleep(0);
      }
      var bytes := CopyOut(n);
      writers := false;
      out := Got(bytes);
    }

    /** The copy loop of piperead. */
    method CopyOut(n: nat) returns (bytes: seq<int>)
      requires Valid()
      modifies this`nread
      ensures Valid() && (Now(), bytes) == Copy(old(Now()), n)
    {
      bytes := [];
      var i := 0;
      assert [] + Copy(Now(), n).1 == Copy(Now(), n).1;
      while i < n
        invariant Valid() && i <= n
        invariant Copy(old(Now()), n) == (Copy(Now(), n - i).0, bytes + Copy(Now(), n - i).1)
      {
        ghost var s := Now();
        CopyTurn(s, n - i, bytes);
        if nread == nwrite {
          break;
        }
        bytes := bytes + [data[nread % data.Length]];
        nread := (nread + 1) % WORD32;
        assert Now() == Fetch(s);
        i := i + 1;
      }
      CopyTurn(Now(), n - i, bytes);
    }

    method Pipeclose(writable: bool)
      modifies this
      ensures Now() == Close(old(Now()), writable)
      ensures writeopen == (old(writeopen) && !writable) && readopen == (old(readopen) && writable)
      ensures readers == (old(readers) && !writable) && writers == (old(writers) && writable)
      ensures nread == old(nread) && nwrite == old(nwrite)
    {
      if writable {
        writeopen := false;
        readers := false;
      } else {
        readopen := false;
        writers := false;
      }
    }
  }
}
