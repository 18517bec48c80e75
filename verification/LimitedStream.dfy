/** Rate-limited reads and writes as poll state machines (limit/stream.rs). The inner stream and
    the limiter answer arbitrarily; their ghost fields record what they answered. */
module LimitedStream {
  import opened Primitives

  const MAX_IO_CHUNK: nat := 262144

  function Min(a: nat, b: nat): nat {
    if a <= b then a else b
  }

  datatype ReadPoll = ReadPending | ReadFailed | ReadReady(bytes: seq<Byte>)

  datatype WritePoll = WritePending | WriteFailed | Wrote(n: nat)

  datatype FlushPoll = FlushPending | FlushFailed | Flushed

  /** The stream underneath: any answer at any poll. */
  class Inner {
    ghost var taken: seq<Byte>  // bytes handed out by reads
    ghost var sunk: seq<Byte>   // bytes accepted by writes
    ghost var eofs: nat         // reads that reported the end
    ghost var faults: nat       // reads that failed
    ghost var flushes: nat      // flushes that were polled
    ghost var pendings: nat     // polls of any kind that were pending
    ghost var refusals: nat     // writes that failed or accepted nothing, and flushes that failed
    ghost var asked: nat        // the room of the last read

    constructor ()
      ensures taken == [] && sunk == [] && eofs == 0 && faults == 0 && flushes == 0 && pendings == 0 && refusals == 0
    {
      taken, sunk, eofs, faults, flushes, pendings, refusals, asked := [], [], 0, 0, 0, 0, 0, 0;
    }

    method PollRead(room: nat) returns (r: ReadPoll)
      requires room > 0
      modifies this
      ensures sunk == old(sunk) && flushes == old(flushes) && refusals == old(refusals) && asked == room
      ensures r.ReadReady? ==> |r.bytes| <= room && taken == old(taken) + r.bytes
      ensures !r.ReadReady? ==> taken == old(taken)
      ensures eofs == old(eofs) + (if r == ReadReady([]) then 1 else 0)
      ensures faults == old(faults) + (if r.ReadFailed? then 1 else 0)
      ensures pendings == old(pendings) + (if r.ReadPending? then 1 else 0)
    {
      asked := room;
      var bytes: seq<Byte> := *;
      var pending, failed := *, *;
      if pending {
        pendings := pendings + 1;
        return ReadPending;
      }
      if failed {
        faults := faults + 1;
        return ReadFailed;
      }
      bytes := bytes[..Min(|bytes|, room)];
      taken := taken + bytes;
      if bytes == [] {
        eofs := eofs + 1;
      }
      r := ReadReady(bytes);
    }

    method PollWrite(bytes: seq<Byte>) returns (r: WritePoll)
      modifies this
      ensures taken == old(taken) && eofs == old(eofs) && faults == old(faults) && flushes == old(flushes) && asked == old(asked)
      ensures r.Wrote? ==> r.n <= |bytes| && sunk == old(sunk) + bytes[..r.n]
      ensures !r.Wrote? ==> sunk == old(sunk)
      ensures pendings == old(pendings) + (if r.WritePending? then 1 else 0)
      ensures refusals == old(refusals) + (if r.WriteFailed? || (r.Wrote? && r.n == 0) then 1 else 0)
    {
      var n: nat := *;
      var pending, failed := *, *;
      if pending {
        pendings := pendings + 1;
        return WritePending;
      }
      if failed {
        refusals := refusals + 1;
        return WriteFailed;
      }
      n := Min(n, |bytes|);
      sunk := sunk + bytes[..n];
      if n == 0 {
        refusals := refusals + 1;
      }
      r := Wrote(n);
    }

    method PollFlush() returns (r: FlushPoll)
      modifies this`flushes, this`pendings, this`refusals
      ensures flushes == old(flushes) + 1
      ensures pendings == old(pendings) + (if r.FlushPending? then 1 else 0)
      ensures refusals == old(refusals) + (if r.FlushFailed? then 1 else 0)
    {
      flushes := flushes + 1;
      var pending, failed := *, *;
      if pending {
        pendings := pendings + 1;
        return FlushPending;
      }
      if failed {
        refusals := refusals + 1;
        return FlushFailed;
      }
      r := Flushed;
    }
  }

  /** The shared limiter, seen by one stream: any answer, but never more than the burst at once. */
  class Limiter {
    const burst: nat
    ghost var net: int       // tokens this stream was granted minus those it returned
    ghost var pendings: nat  // polls of a wait that were pending

    constructor (burst: nat)
      ensures this.burst == burst && net == 0 && pendings == 0
    {
      this.burst := burst;
      net, pendings := 0, 0;
    }

    method TryWaitN(n: nat) returns (ok: bool)
      modifies this`net
      ensures n == 0 ==> ok
      ensures ok ==> n <= burst || n == 0
      ensures net == old(net) + (if ok then n else 0)
    {
      var granted := *;
      ok := n == 0 || (granted && n <= burst);
      net := net + (if ok then n else 0);
    }

    method ReturnN(n: nat)
      modifies this`net
      ensures net == old(net) - n
    {
      net := net - n;
    }

    /** A poll of the future wait_n(n); for n within the burst it takes all of n or nothing. */
    method PollWait(n: nat) returns (ready: bool)
      modifies this
      ensures net == old(net) + (if ready then n else 0)
      ensures pendings == old(pendings) + (if ready then 0 else 1)
    {
      ready := *;
      net := net + (if ready then n else 0);
      pendings := pendings + (if ready then 0 else 1);
    }
  }

  datatype ReadPhase = ReadIdle | ReadWait(data: seq<Byte>, off: nat) | ReadDeliver(data: seq<Byte>, off: nat)

  datatype WritePhase = WriteIdle | WriteWait(chunk: nat) | Write(chunk: nat, written: nat)

  /** Bytes taken from the inner stream and not yet delivered. */
  function HeldBy(p: ReadPhase): seq<Byte> {
    match p
    case ReadIdle => []
    case ReadWait(data, off) => if off <= |data| then data[off..] else []
    case ReadDeliver(data, off) => if off <= |data| then data[off..] else []
  }

  /** Of the bytes held, those whose tokens are spent. */
  function PaidBy(p: ReadPhase): nat {
    if p.ReadDeliver? then |HeldBy(p)| else 0
  }

  predicate ReadSound(p: ReadPhase) {
    match p
    case ReadIdle => true
    case ReadWait(data, off) => off == 0 && data != []
    case ReadDeliver(data, off) => off < |data|
  }

  lemma SplitHeld(delivered: seq<Byte>, data: seq<Byte>, off: nat, n: nat)
    requires off + n <= |data|
    ensures delivered + data[off..] == delivered + data[off..off + n] + HeldBy(ReadDeliver(data, off + n))
    ensures off + n == |data| ==> HeldBy(ReadDeliver(data, off + n)) == []
  {
    assert data[off..] == data[off..off + n] + data[off + n..];
  }

  /** Of data written up to `done` and some way into the rest, a front part has gone out. */
  lemma FrontOfTheRest(start: seq<Byte>, data: seq<Byte>, done: nat, sunk: seq<Byte>)
    requires done <= |data|
    ensures start + data[..done] <= sunk && sunk <= start + data[..done] + data[done..] ==> sunk <= start + data
  {
    assert data[..done] + data[done..] == data;
    assert start + data[..done] + data[done..] == start + data;
  }

  /** What the inner stream accepts of the rest of a chunk continues what it accepted before. */
  lemma ChunkAdvances(base: seq<Byte>, chunk: seq<Byte>, written: nat, n: nat)
    requires written + n <= |chunk|
    ensures base + chunk[..written] + chunk[written..|chunk|][..n] == base + chunk[..written + n]
    ensures written + n == |chunk| ==> chunk[..written + n] == chunk
  {
    assert chunk[..written] + chunk[written..|chunk|][..n] == chunk[..written + n];
  }

  class LimitedStream {
    const inner: Inner
    const limiter: Limiter
    var readPhase: ReadPhase
    var writePending: seq<Byte>
    var writeReport: nat
    var writePhase: WritePhase

    ghost var delivered: seq<Byte>  // everything reads have returned
    ghost var base: seq<Byte>       // what the inner stream had accepted when the write in flight began
    ghost var lost: nat             // tokens of chunks that failed before they were written out
    ghost var drained: nat          // flushes that sent a write in flight to its end

    /** Some write has been started and not yet been reported. */
    predicate InFlight()
      reads this
    {
      !writePhase.WriteIdle?
    }

    /** Bytes of the chunk being written that the inner stream has accepted. */
    function Written(): nat
      reads this
    {
      if writePhase.Write? then writePhase.written else 0
    }

    /** Tokens granted for bytes of the chunk not yet written. */
    function Ahead(): int
      reads this
    {
      if writePhase.Write? then |writePending| - writePhase.written else 0
    }

    ghost predicate ReadValid()
      reads this, inner
    {
      ReadSound(readPhase) && inner.taken == delivered + HeldBy(readPhase)
    }

    /** The whole write in flight is pending: its front part has reached the inner stream. */
    ghost predicate WriteValid()
      reads this, inner
    {
      && (writePending == [] ==> writePhase.WriteIdle? && writeReport == 0)
      && (writePending != [] ==> |writePending| == writeReport <= ChunkCap())
      && (writePhase.WriteWait? ==> writePhase.chunk == |writePending|)
      && (writePhase.Write? ==> writePhase.chunk == |writePending| && writePhase.written < |writePending|)
      && (writePending != [] ==> inner.sunk == base + writePending[..Written()])
    }

    /** Net tokens are spent on exactly the bytes delivered, the bytes held ready to deliver,
        the bytes written out, and the rest of the chunk being written - or lost to a fault. */
    ghost predicate TokensBalance()
      reads this, inner, limiter
    {
      limiter.net == |delivered| + PaidBy(readPhase) + |inner.sunk| + Ahead() + lost
    }

    ghost predicate Valid()
      reads this, inner, limiter
    {
      ReadValid() && WriteValid() && TokensBalance() && (writePending == [] <==> !InFlight())
    }

    /** Never more than the burst, which could not be granted at once, nor than 256 KiB; and never 0. */
    function ChunkCap(): (cap: nat)
      ensures 1 <= cap <= 262144 && (limiter.burst >= 1 ==> cap <= limiter.burst)
      ensures cap == 262144 || cap == 1 || cap == limiter.burst
      ensures 1 < limiter.burst ==> cap > 1
    {
      Min(if limiter.burst == 0 then 1 else limiter.burst, MAX_IO_CHUNK)
    }

    constructor (inner: Inner, limiter: Limiter)
      requires inner.taken == [] && inner.sunk == [] && limiter.net == 0
      ensures Valid() && this.inner == inner && this.limiter == limiter
      ensures delivered == [] && !InFlight()
    {
      this.inner, this.limiter := inner, limiter;
      readPhase, writePending, writeReport, writePhase := ReadIdle, [], 0, WriteIdle;
      delivered, base, lost := [], [], 0;
    }

    /** A read returns the next bytes of the inner stream in order. It comes back empty from a
        non-empty buffer only when the inner stream reported its end, fails only when the inner
        stream failed, and then nothing is lost. The write side is not touched. */
    method PollRead(room: nat) returns (r: ReadPoll)
      requires Valid()
      modifies this`readPhase, this`delivered, inner, limiter
      ensures Valid()
      ensures inner.sunk == old(inner.sunk)
      ensures r.ReadReady? ==> |r.bytes| <= room && delivered == old(delivered) + r.bytes
      ensures !r.ReadReady? ==> delivered == old(delivered)
      ensures room > 0 ==> (r == ReadReady([]) <==> inner.eofs == old(inner.eofs) + 1)
      ensures r.ReadFailed? <==> inner.faults == old(inner.faults) + 1
      ensures old(inner.eofs) <= inner.eofs <= old(inner.eofs) + 1
      ensures room == 0 && old(readPhase).ReadIdle? ==> r == ReadReady([])
      ensures inner.pendings + limiter.pendings == old(inner.pendings + limiter.pendings) + (if r.ReadPending? then 1 else 0)
      ensures old(readPhase).ReadDeliver? ==> r.ReadReady?
      ensures old(readPhase).ReadWait? ==> (r.ReadPending? <==> limiter.pendings > old(limiter.pendings))
      ensures old(readPhase).ReadDeliver? || (old(readPhase).ReadWait? && !r.ReadPending?) ==>
                inner.taken == old(inner.taken)
                && r == ReadReady(old(HeldBy(readPhase))[..Min(|old(HeldBy(readPhase))|, room)])
      ensures old(readPhase).ReadIdle? && room > 0 ==> inner.asked == Min(room, ChunkCap())
    {
      while true
        invariant Valid() && inner.sunk == old(inner.sunk) && delivered == old(delivered)
        invariant inner.eofs == old(inner.eofs) && inner.faults == old(inner.faults)
        invariant inner.pendings + limiter.pendings == old(inner.pendings + limiter.pendings)
        invariant !old(readPhase).ReadIdle? ==>
                    && !readPhase.ReadIdle? && HeldBy(readPhase) == old(HeldBy(readPhase)) && inner.taken == old(inner.taken)
                    && limiter.pendings == old(limiter.pendings) && (old(readPhase).ReadDeliver? ==> readPhase.ReadDeliver?)
        invariant old(readPhase).ReadIdle? && room > 0 ==> readPhase.ReadIdle? || inner.asked == Min(room, ChunkCap())
        invariant room == 0 ==> readPhase.ReadIdle? == old(readPhase).ReadIdle?
        decreases if readPhase.ReadIdle? then 2 else if readPhase.ReadWait? then 1 else 0
      {
        match readPhase {
          case ReadIdle =>
            var again;
            again, r := ReadFromInner(room);
            if !again {
              return;
            }
          case ReadWait(data, off) =>
            var ready := limiter.PollWait(|data|);
            if !ready {
              return ReadPending;
            }
            readPhase := ReadDeliver(data, off);
          case ReadDeliver(_, _) =>
            r := Deliver(room);
            return;
        }
      }
    }

    /** The Idle phase: with tokens in hand the inner stream is read straight into the buffer and
        the unused tokens go back; without, what it gives is held until tokens come. */
    method ReadFromInner(room: nat) returns (again: bool, r: ReadPoll)
      requires Valid() && readPhase.ReadIdle?
      modifies this`readPhase, this`delivered, inner, limiter
      ensures Valid() && inner.sunk == old(inner.sunk)
      ensures again ==> readPhase.ReadWait? && room > 0 && delivered == old(delivered)
      ensures again ==> inner.eofs == old(inner.eofs) && inner.faults == old(inner.faults)
      ensures !again ==> readPhase.ReadIdle?
      ensures !again && r.ReadReady? ==> |r.bytes| <= room && delivered == old(delivered) + r.bytes
      ensures !again && !r.ReadReady? ==> delivered == old(delivered)
      ensures !again ==> inner.eofs == old(inner.eofs) + (if room > 0 && r == ReadReady([]) then 1 else 0)
      ensures !again ==> inner.faults == old(inner.faults) + (if r.ReadFailed? then 1 else 0)
      ensures room == 0 ==> r == ReadReady([])
      ensures limiter.pendings == old(limiter.pendings)
      ensures inner.pendings == old(inner.pendings) + (if !again && r.ReadPending? then 1 else 0)
      ensures room > 0 ==> inner.asked == Min(room, ChunkCap())
    {
      again := false;
      var want := Min(room, ChunkCap());
      if want == 0 {
        return false, ReadReady([]);
      }
      var granted := limiter.TryWaitN(want);
      if granted {
        r := ReadWithTokens(want);
        return;
      }
      r := inner.PollRead(want);
      if !r.ReadReady? || r.bytes == [] {
        return;
      }
      again := Hold(r.bytes);
    }

    /** With `want` tokens in hand: what is not used of them goes back. */
    method ReadWithTokens(want: nat) returns (r: ReadPoll)
      requires ReadValid() && WriteValid() && readPhase.ReadIdle? && (writePending == [] <==> !InFlight()) && want > 0
      requires limiter.net == |delivered| + PaidBy(readPhase) + |inner.sunk| + Ahead() + lost + want
      modifies this`delivered, inner, limiter
      ensures Valid() && inner.sunk == old(inner.sunk)
      ensures r.ReadReady? ==> |r.bytes| <= want && delivered == old(delivered) + r.bytes
      ensures !r.ReadReady? ==> delivered == old(delivered)
      ensures inner.eofs == old(inner.eofs) + (if r == ReadReady([]) then 1 else 0)
      ensures inner.faults == old(inner.faults) + (if r.ReadFailed? then 1 else 0)
      ensures limiter.pendings == old(limiter.pendings) && inner.asked == want
      ensures inner.pendings == old(inner.pendings) + (if r.ReadPending? then 1 else 0)
    {
      r := inner.PollRead(want);
      if !r.ReadReady? {
        limiter.ReturnN(want);
        return;
      }
      if |r.bytes| < want {
        limiter.ReturnN(want - |r.bytes|);
      }
      delivered := delivered + r.bytes;
    }

    /** Bytes read without tokens: delivered at once if there are tokens now, else held. */
    method Hold(bytes: seq<Byte>) returns (isHeld: bool)
      requires WriteValid() && TokensBalance() && readPhase.ReadIdle? && (writePending == [] <==> !InFlight())
      requires bytes != [] && inner.taken == delivered + bytes
      modifies this`readPhase, this`delivered, limiter
      ensures Valid()
      ensures isHeld ==> readPhase.ReadWait? && delivered == old(delivered)
      ensures !isHeld ==> readPhase.ReadIdle? && delivered == old(delivered) + bytes
      ensures limiter.pendings == old(limiter.pendings)
    {
      var granted := limiter.TryWaitN(|bytes|);
      if granted {
        delivered := delivered + bytes;
      } else {
        readPhase := ReadWait(bytes, 0);
      }
      isHeld := !granted;
    }

    method Deliver(room: nat) returns (r: ReadPoll)
      requires Valid() && readPhase.ReadDeliver?
      modifies this`readPhase, this`delivered
      ensures Valid()
      ensures r.ReadReady? && |r.bytes| <= room && delivered == old(delivered) + r.bytes
      ensures room > 0 ==> r.bytes != []
      ensures r.bytes == old(HeldBy(readPhase))[..Min(|old(HeldBy(readPhase))|, room)]
    {
      var ReadDeliver(data, off) := readPhase;
      var n := Min(|data| - off, room);
      var bytes := data[off..off + n];
      SplitHeld(delivered, data, off, n);
      readPhase := if off + n < |data| then ReadDeliver(data, off + n) else ReadIdle;
      delivered := delivered + bytes;
      r := ReadReady(bytes);
    }

    /** Any number of reads into buffers of any sizes: what they return, in order, followed by
        what the stream still holds, is what was taken from the inner stream. */
    method ReadMany(rooms: seq<nat>) returns (out: seq<Byte>)
      requires Valid() && delivered == []
      modifies this`readPhase, this`delivered, inner, limiter
      ensures Valid() && inner.taken == out + HeldBy(readPhase)
    {
      out := [];
      for i := 0 to |rooms|
        invariant Valid() && delivered == out
      {
        var r := PollRead(rooms[i]);
        if r.ReadReady? {
          out := out + r.bytes;
        }
      }
    }

    /** A write in flight is finished whatever `buf` is; a new one takes the front of `buf`.
        So if the caller re-polls with a buffer that extends the one in flight, a reported `n`
        means that exactly the first `n` bytes of `buf` went to the inner stream, once and in
        order. The read side is not touched. */
    method PollWrite(buf: seq<Byte>) returns (r: WritePoll)
      requires Valid()
      modifies this`writePending, this`writeReport, this`writePhase, this`base, this`lost, inner, limiter
      ensures Valid()
      ensures inner.taken == old(inner.taken) && inner.flushes == old(inner.flushes)
      ensures inner.pendings + limiter.pendings == old(inner.pendings + limiter.pendings) + (if r.WritePending? then 1 else 0)
      ensures inner.refusals == old(inner.refusals) + (if r.WriteFailed? then 1 else 0)
      ensures r.Wrote? ==> !InFlight()
      ensures r.Wrote? && old(InFlight()) ==>
                r.n == |old(writePending)| && inner.sunk == old(base) + old(writePending)
      ensures r.Wrote? && !old(InFlight()) ==>
                r.n == Min(|buf|, ChunkCap()) && inner.sunk == old(inner.sunk) + buf[..r.n]
      ensures r.WritePending? ==> InFlight()
      ensures r.WritePending? && old(InFlight()) ==> writePending == old(writePending) && base == old(base)
      ensures r.WritePending? && !old(InFlight()) ==>
                writePending == buf[..Min(|buf|, ChunkCap())] && base == old(inner.sunk)
      ensures r.WriteFailed? ==> !InFlight() && lost > old(lost)
      ensures r.WriteFailed? && old(InFlight()) ==>
                old(base) <= inner.sunk && inner.sunk <= old(base) + old(writePending)
      ensures r.WriteFailed? && !old(InFlight()) ==> inner.sunk <= old(inner.sunk) + buf[..Min(|buf|, ChunkCap())]
      ensures !r.WriteFailed? ==> lost == old(lost)
      ensures old(inner.sunk) <= inner.sunk
    {
      if writePhase.WriteIdle? && writePending == [] {
        if buf == [] {
          return Wrote(0);
        }
        var take := Min(|buf|, ChunkCap());
        writeReport := take;
        writePending := buf[..take];
        base := inner.sunk;
      }
      ghost var origin := writePending;
      ghost var start := base;
      while true
        invariant ReadValid() && WriteValid() && TokensBalance()
        invariant inner.taken == old(inner.taken) && old(inner.sunk) <= inner.sunk && inner.flushes == old(inner.flushes)
        invariant inner.pendings + limiter.pendings == old(inner.pendings + limiter.pendings) && inner.refusals == old(inner.refusals)
        invariant start == base && origin == writePending && origin != [] && lost == old(lost)
        decreases |writePending| - Written(), if InFlight() then 0 else 1, if writePhase.WriteWait? then 1 else 0
      {
        match writePhase {
          case WriteIdle =>
            var chunk := Min(|writePending|, ChunkCap());
            var granted := limiter.TryWaitN(chunk);
            writePhase := if granted then Write(chunk, 0) else WriteWait(chunk);
          case WriteWait(chunk) =>
            var ready := limiter.PollWait(chunk);
            if !ready {
              return WritePending;
            }
            writePhase := Write(chunk, 0);
          case Write(_, _) =>
            r := WriteToInner();
            if !InFlight() || r.WritePending? {
              return;
            }
        }
      }
    }

    /** The Write phase: one poll of the inner stream with the rest of the chunk. The last byte
        of the chunk ends the write in flight, which is then reported. */
    method WriteToInner() returns (r: WritePoll)
      requires ReadValid() && WriteValid() && TokensBalance() && writePhase.Write?
      modifies this`writePending, this`writeReport, this`writePhase, this`lost, inner
      ensures ReadValid() && WriteValid() && TokensBalance()
      ensures inner.taken == old(inner.taken) && old(inner.sunk) <= inner.sunk && inner.flushes == old(inner.flushes)
      ensures inner.pendings == old(inner.pendings) + (if r.WritePending? then 1 else 0)
      ensures inner.refusals == old(inner.refusals) + (if r.WriteFailed? then 1 else 0)
      ensures InFlight() ==> writePhase.Write? && writePending == old(writePending)
      ensures InFlight() && !r.WritePending? ==> Written() > old(Written())
      ensures !InFlight() ==> writePending == [] && (r.Wrote? || r.WriteFailed?)
      ensures !InFlight() && r.Wrote? ==> r.n == |old(writePending)| && inner.sunk == base + old(writePending)
      ensures r.WriteFailed? ==> !InFlight() && lost > old(lost)
      ensures r.WriteFailed? ==> base <= inner.sunk && inner.sunk <= base + old(writePending)
      ensures !r.WriteFailed? ==> lost == old(lost)
    {
      var Write(chunk, written) := writePhase;
      r := inner.PollWrite(writePending[written..chunk]);
      if r.WritePending? {
        return;
      }
      if r.WriteFailed? || r.n == 0 {
        assert inner.sunk == base + writePending[..written];
        lost := lost + |writePending| - written;
        writePending, writeReport, writePhase := [], 0, WriteIdle;
        return WriteFailed;
      }
      ChunkAdvances(base, writePending, written, r.n);
      if written + r.n >= chunk {
        r := Wrote(writeReport);
        writePending, writeReport, writePhase := [], 0, WriteIdle;
      } else {
        writePhase := Write(chunk, written + r.n);
      }
    }

    /** A successful flush leaves nothing pending: the write in flight has gone out entirely. So
        it has, too, whenever the flush leaves no write in flight and no write failed: then only
        the inner flush is pending or has failed. Otherwise the write in flight is still the same,
        and the inner stream was not asked to flush. */
    method PollFlush() returns (r: FlushPoll)
      requires Valid()
      modifies this`writePending, this`writeReport, this`writePhase, this`base, this`lost, this`drained, inner, limiter
      ensures Valid()
      ensures r.Flushed? ==> !InFlight() && writePending == [] && lost == old(lost)
      ensures inner.taken == old(inner.taken) && old(inner.sunk) <= inner.sunk
      ensures lost == old(lost) && !InFlight() ==>
                && inner.sunk == (if old(InFlight()) then old(base) + old(writePending) else old(inner.sunk))
                && inner.flushes == old(inner.flushes) + 1
      ensures InFlight() ==>
                && r.FlushPending? && lost == old(lost) && inner.flushes == old(inner.flushes)
                && old(InFlight()) && writePending == old(writePending) && base == old(base)
      ensures lost != old(lost) ==>
                && r.FlushFailed? && lost > old(lost) && !InFlight() && old(InFlight())
                && old(base) <= inner.sunk && inner.sunk <= old(base) + old(writePending)
      ensures drained == old(drained) + if old(InFlight()) && !InFlight() && lost == old(lost) then 1 else 0
      ensures inner.pendings + limiter.pendings == old(inner.pendings + limiter.pendings) + (if r.FlushPending? then 1 else 0)
      ensures inner.refusals == old(inner.refusals) + (if r.FlushFailed? then 1 else 0)
    {
      ghost var began := InFlight();
      while writePending != [] || !writePhase.WriteIdle?
        invariant Valid() && inner.taken == old(inner.taken) && old(inner.sunk) <= inner.sunk && lost == old(lost)
        invariant inner.flushes == old(inner.flushes) && drained == old(drained)
        invariant inner.pendings + limiter.pendings == old(inner.pendings + limiter.pendings) && inner.refusals == old(inner.refusals)
        invariant InFlight() ==> old(InFlight()) && writePending == old(writePending) && base == old(base)
        invariant !InFlight() ==>
                    inner.sunk == if old(InFlight()) then old(base) + old(writePending) else old(inner.sunk)
        decreases InFlight()
      {
        var w := PollWrite([]);
        match w {
          case WritePending => return FlushPending;
          case WriteFailed => return FlushFailed;
          case Wrote(_) =>
        }
      }
      drained := drained + if began then 1 else 0;
      r := inner.PollFlush();
    }

    /** A caller that keeps polling with what is left of `data`, as AsyncWrite asks: after `done`
        bytes have been reported, exactly those, once and in order, have reached the inner
        stream, followed at most by a part of the next chunk. */
    method WriteMany(data: seq<Byte>, polls: nat) returns (done: nat, failed: bool)
      requires Valid() && !InFlight()
      modifies this`writePending, this`writeReport, this`writePhase, this`base, this`lost, inner, limiter
      ensures Valid() && done <= |data|
      ensures !failed && !InFlight() ==> inner.sunk == old(inner.sunk) + data[..done]
      ensures !failed && InFlight() ==>
                writePending <= data[done..] && inner.sunk == old(inner.sunk) + data[..done] + data[done..][..Written()]
      ensures failed ==> old(inner.sunk) + data[..done] <= inner.sunk && inner.sunk <= old(inner.sunk) + data
    {
      done, failed := 0, false;
      ghost var start := inner.sunk;
      for i := 0 to polls
        invariant Valid() && done <= |data| && !failed
        invariant !InFlight() ==> inner.sunk == start + data[..done]
        invariant InFlight() ==> writePending <= data[done..] && base == start + data[..done]
      {
        var r := PollWrite(data[done..]);
        match r {
          case WriteFailed =>
            FrontOfTheRest(start, data, done, inner.sunk);
            return done, true;
          case WritePending =>
          case Wrote(n) =>
            assert data[..done] + data[done..][..n] == data[..done + n];
            done := done + n;
        }
      }
      if InFlight() {
        assert writePending[..Written()] == data[done..][..Written()];
      }
    }

    /** What a write took of `buf`, when the inner stream had accepted `start`, is still in flight,
        or else the inner stream has all of it. */
    ghost predicate Took(start: seq<Byte>, buf: seq<Byte>)
      reads this, inner, limiter
    {
      var chunk := buf[..Min(|buf|, ChunkCap())];
      if InFlight() then base == start && writePending == chunk else chunk != [] && inner.sunk == start + chunk
    }

    /** The next poll after a poll that was answered with Pending, and after any flushes without a
        failed write. What it reports has gone out once exactly when the write is still in flight at
        the call; otherwise a new write begins, and what was taken before goes out again. */
    method PollAgain(ghost start: seq<Byte>, ghost buf: seq<Byte>, all: seq<Byte>) returns (r: WritePoll)
      requires Valid() && buf <= all
      modifies this`writePending, this`writeReport, this`writePhase, this`base, this`lost, inner, limiter
      ensures Valid() && inner.flushes == old(inner.flushes) && (!r.WriteFailed? ==> lost == old(lost))
      ensures old(Took(start, buf)) && r.Wrote? ==>
                && r.n <= |all|
                && (inner.sunk == start + all[..r.n] <==> old(InFlight()))
                && (!old(InFlight()) ==> inner.sunk == start + buf[..Min(|buf|, ChunkCap())] + all[..r.n])
    {
      ghost var chunk := buf[..Min(|buf|, ChunkCap())];
      assert chunk == all[..|chunk|];
      ghost var anew := !InFlight();
      r := PollWrite(all);
      if anew && r.Wrote? {
        assert chunk != [] ==> |start + chunk + all[..r.n]| > |start + all[..r.n]|;
      }
    }

    /** A flush between Pending and the next poll. Unless a write failed, what that poll reports
        has gone out once exactly when the flush never came to flushing the inner stream, which
        only a pending flush can leave undone; else it has gone out twice. */
    method FlushBetweenPolls(buf: seq<Byte>, more: seq<Byte>) returns (first: WritePoll, flush: FlushPoll, second: WritePoll)
      requires Valid() && !InFlight()
      modifies this`writePending, this`writeReport, this`writePhase, this`base, this`lost, this`drained, inner, limiter
      ensures Valid()
      ensures first.WritePending? && second.Wrote? && lost == old(lost) ==>
                && second.n <= |buf + more|
                && (inner.sunk == old(inner.sunk) + (buf + more)[..second.n] <==> inner.flushes == old(inner.flushes))
                && (inner.flushes == old(inner.flushes) ==> flush.FlushPending?)
                && (inner.flushes != old(inner.flushes) ==>
                      inner.sunk == old(inner.sunk) + buf[..Min(|buf|, ChunkCap())] + (buf + more)[..second.n])
    {
      first := PollWrite(buf);
      flush := PollFlush();
      assert first.WritePending? && lost == old(lost) ==> Took(old(inner.sunk), buf);
      second := PollAgain(old(inner.sunk), buf, buf + more);
    }

    /** A caller that keeps polling with what is left of `data` and flushes whenever it likes. As
        long as nothing fails, exactly what was reported has reached the inner stream, once and in
        order, followed at most by a part of the next chunk, if and only if no flush sent a write in
        flight to its end. */
    method WriteWithFlushes(data: seq<Byte>, polls: nat) returns (done: nat, failed: bool)
      requires Valid() && !InFlight()
      modifies this`writePending, this`writeReport, this`writePhase, this`base, this`lost, this`drained, inner, limiter
      ensures Valid() && done <= |data| && drained >= old(drained)
      ensures !failed && !InFlight() ==>
                (inner.sunk == old(inner.sunk) + data[..done] <==> drained == old(drained))
      ensures !failed && InFlight() ==>
                && writePending <= data[done..]
                && (inner.sunk == old(inner.sunk) + data[..done] + data[done..][..Written()] <==> drained == old(drained))
    {
      done, failed := 0, false;
      ghost var start := inner.sunk;
      ghost var again: nat := 0;
      for i := 0 to polls
        invariant Valid() && done <= |data| && !failed && drained >= old(drained)
        invariant again > 0 <==> drained > old(drained)
        invariant Settled() == |start| + done + again
        invariant again == 0 && !InFlight() ==> inner.sunk == start + data[..done]
        invariant InFlight() ==> writePending <= data[done..]
        invariant again == 0 && InFlight() ==> base == start + data[..done]
      {
        var flush: bool := *;
        if flush {
          ghost var chunk := if InFlight() then |writePending| else 0;
          var f := PollFlush();
          if f.FlushFailed? {
            return done, true;
          }
          again := again + if InFlight() then 0 else chunk;
        } else {
          var r := PollWrite(data[done..]);
          match r {
            case WriteFailed => return done, true;
            case WritePending =>
            case Wrote(n) =>
              assert data[..done] + data[done..][..n] == data[..done + n];
              done := done + n;
          }
        }
      }
      if InFlight() {
        assert writePending[..Written()] == data[done..][..Written()];
      }
    }

    /** How many bytes the inner stream had accepted when no write was in flight last. */
    ghost function Settled(): nat
      reads this, inner
    {
      if InFlight() then |base| else |inner.sunk|
    }
  }
}
