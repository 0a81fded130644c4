/** A device stream with one event: copies issued in order that the DMA engine may complete at
    any moment, one byte at a time, up to the next synchronisation. */
module Stream {
  import opened Layout
  import opened Vmm

  /** One byte of an asynchronous copy between staging cell `host` and device byte base + idx. */
  datatype Op = ToHost(host: nat, base: nat, idx: nat) | ToDevice(host: nat, base: nat, idx: nat)

  function MakeOp(toHost: bool, host: nat, base: nat, idx: nat): Op {
    if toHost then ToHost(host, base, idx) else ToDevice(host, base, idx)
  }

  /** `log` is `before` followed by the bytes of one asynchronous copy, in order. */
  ghost predicate Appended(log: seq<Op>, before: seq<Op>, toHost: bool, host: nat, base: nat, idx: nat, n: nat) {
    && |log| == |before| + n
    && (forall t | 0 <= t < |before| :: log[t] == before[t])
    && (forall t | |before| <= t < |log| :: log[t] == MakeOp(toHost, host + t - |before|, base, idx + t - |before|))
  }

  predicate Present(mem: Memory, op: Op) {
    op.base in mem.mapped && op.idx < |mem.mapped[op.base].bytes|
  }

  /** The device byte an op reads or writes. */
  function Source(mem: Memory, op: Op): byte
    requires Present(mem, op)
  {
    mem.mapped[op.base].bytes[op.idx]
  }

  /** Where staging buffer number b lives: staging_buf[b & 1], each half s bytes long. */
  function Half(b: nat, s: nat): (h: nat) {
    if b % 2 == 0 then 0 else s
  }

  /** The two halves alternate. */
  lemma {:induction false} OtherHalf(b: nat, s: nat)
    ensures Half(b + 1, s) == s - Half(b, s)
  {
  }

  class GpuStream {
    const dev: Device
    const staging: array<byte>
    var log: seq<Op>   // every byte copy issued so far, in order
    var done: nat      // how many of them have completed
    var mark: nat      // how many had been issued when the event was last recorded

    constructor (dev: Device, staging: array<byte>)
      ensures this.dev == dev && this.staging == staging
      ensures log == [] && done == 0 && mark == 0
    {
      this.dev, this.staging := dev, staging;
      log, done, mark := [], 0, 0;
    }

    ghost predicate Valid()
      reads this, dev
    {
      && done <= |log| && mark <= |log|
      && forall t | 0 <= t < |log| :: Executable(dev.mem, log[t])
    }

    ghost predicate Executable(mem: Memory, op: Op) {
      op.host < staging.Length && Present(mem, op)
    }

    /** cudaMemcpyAsync: fails on an unmapped or inaccessible range, and may fail anyway. */
    method MemcpyAsync(toHost: bool, host: nat, base: nat, idx: nat, n: nat) returns (ok: bool)
      requires Valid() && host + n <= staging.Length
      modifies this`log
      ensures Valid()
      ensures ok ==> dev.mem.Readable(base, idx + n) && Appended(log, old(log), toHost, host, base, idx, n)
      ensures !ok ==> log == old(log)
      ensures dev.obliging && dev.mem.Readable(base, idx + n) ==> ok
    {
      var accepted := dev.Accepts();
      ok := accepted && dev.mem.Readable(base, idx + n);
      if ok {
        ghost var before := log;
        var copy := seq(n, i requires 0 <= i < n => MakeOp(toHost, host + i, base, idx + i));
        log := log + copy;
        forall t | |before| <= t < |log|
          ensures log[t] == MakeOp(toHost, host + t - |before|, base, idx + t - |before|) && Executable(dev.mem, log[t])
        {
          assert log[t] == copy[t - |before|];
        }
      }
    }

    method RecordEvent()
      requires Valid()
      modifies this`mark
      ensures Valid() && mark == |log|
    {
      mark := |log|;
    }

    /** The DMA engine writes the next byte into the staging buffer. */
    method CompleteToHost()
      requires Valid() && done < |log| && log[done].ToHost?
      modifies this`done, staging
      ensures Valid() && done == old(done) + 1
      ensures forall c | 0 <= c < staging.Length ::
                staging[c] == if c == log[old(done)].host
                              then Source(dev.mem, log[old(done)])
                              else old(staging[c])
    {
      var op := log[done];
      staging[op.host] := Source(dev.mem, op);
      done := done + 1;
    }

    /** The DMA engine reads the next byte out of the staging buffer, as it is at that moment. */
    method CompleteToDevice()
      requires Valid() && done < |log| && log[done].ToDevice?
      modifies this`done, dev
      ensures Valid() && done == old(done) + 1
      ensures dev.mem == old(dev.mem).Write(log[old(done)].base, log[old(done)].idx, staging[log[old(done)].host])
    {
      var op := log[done];
      dev.mem := dev.mem.Write(op.base, op.idx, staging[op.host]);
      done := done + 1;
    }
  }
}
