/** One ELM session over two links (lib/elm/src/link_mux.h and link_mux.cpp): which link owns the
    session, and how output to the TCP client is held and sent in chunks. */
module Links {
  import opened CanTypes
  import opened IsoTp

  const LINK_CLOSED := -2
  const NOTHING := -1
  const TCP_CHUNK := 1400
  const TCP_FLUSH_MS := 20
  const IN_BUFFER := 64

  /** USB, or the TCP server, as the core sees it. What the outside world does is a finite script:
      the byte runs that arrive, and the answers to `accept` and `connected`. */
  class ByteLink {
    var arriving: seq<seq<byte>>
    var accepts: seq<bool>
    var connections: seq<bool>
    ghost var sent: seq<string>

    /** Up to `capacity` received bytes, none if none is waiting. */
    method Read(capacity: nat) returns (bytes: seq<byte>)
      requires capacity > 0
      modifies this`arriving
      ensures |bytes| <= capacity && bytes + Waiting(arriving) == Waiting(old(arriving))
      ensures bytes == [] ==> Waiting(arriving) == []
    {
      bytes := [];
      while arriving != [] && bytes == []
        invariant |bytes| <= capacity && bytes + Waiting(arriving) == Waiting(old(arriving))
        decreases |arriving|, bytes == []
      {
        var run := arriving[0];
        if |run| <= capacity {
          bytes, arriving := run, arriving[1..];
        } else {
          bytes, arriving := run[..capacity], [run[capacity..]] + arriving[1..];
          assert run == bytes + run[capacity..];
        }
      }
    }

    method Write(bytes: string)
      modifies this`sent
      ensures sent == old(sent) + [bytes]
    {
      sent := sent + [bytes];
    }

    /** A client is waiting to be taken; the client is still there. */
    ghost predicate Calling()
      reads this`accepts
    {
      accepts != [] && accepts[0]
    }

    ghost predicate Up()
      reads this`connections
    {
      connections != [] && connections[0]
    }

    method Accept() returns (taken: bool)
      modifies this`accepts
      ensures taken == old(Calling())
    {
      if accepts == [] { return false; }
      taken, accepts := accepts[0], accepts[1..];
    }

    method Connected() returns (up: bool)
      modifies this`connections
      ensures up == old(Up())
    {
      if connections == [] { return false; }
      up, connections := connections[0], connections[1..];
    }
  }

  /** The bytes that are going to arrive, in order. */
  function Waiting(runs: seq<seq<byte>>): seq<byte> {
    if runs == [] then [] else runs[0] + Waiting(runs[1..])
  }

  /** What `Deadline::passed` really says of something `t - since` old: it sees the low 32 bits. */
  lemma PassedModulo(since: int, t: int, ms: nat)
    requires since <= t && ms < WORD / 2
    ensures After(since % WORD, ms).Passed(t % WORD) <==> (t - since - ms) % WORD < WORD / 2
  {
    var k := t / WORD - since / WORD - (since % WORD + ms) / WORD;
    assert t % WORD - (since % WORD + ms) % WORD == t - since - ms - WORD * k;
    WholeWords(t - since - ms, k);
  }

  lemma DifferenceWraps(a: int, b: int)
    ensures (a % WORD - b % WORD) % WORD == (a - b) % WORD
  {
    var k := a / WORD - b / WORD;
    assert a % WORD - b % WORD == a - b - WORD * k;
    WholeWords(a - b, k);
  }

  lemma WholeWords(d: int, k: int)
    ensures (d - WORD * k) % WORD == d % WORD
  {
  }

  /** It is exact for anything younger than 24 days ... */
  lemma PassedExactly(since: int, t: int, ms: nat)
    requires since <= t < since + WORD / 2 && ms < WORD / 2
    ensures After(since % WORD, ms).Passed(t % WORD) <==> t - since >= ms
  {
    PassedModulo(since, t, ms);
  }

  /** ... and misses output that nothing looked at for longer than that. */
  lemma OverlookedAfter24Days()
    ensures !After(0, TCP_FLUSH_MS).Passed((TCP_FLUSH_MS + WORD / 2) % WORD)
  {
    PassedModulo(0, TCP_FLUSH_MS + WORD / 2, TCP_FLUSH_MS);
  }

  class LinkMux {
    const usb: ByteLink
    const tcp: ByteLink
    var onTcp: bool
    var switches: byte
    const inBuf: array<byte>
    var inLen: nat
    var inPos: nat
    const outBuf: array<char>
    var outLen: nat
    var firstOutMs: uint32

    /** How often the session has moved, without wrap-around. */
    ghost var epoch: nat
    /** The session in which the unread input bytes were received. */
    ghost var inFrom: nat
    /** Since the last switch: everything written, and the chunks sent; `mark` is how many the TCP
        link had sent before. */
    ghost var written: string
    ghost var chunks: seq<string>
    ghost var mark: nat
    /** On a clock that never wraps: when the oldest held byte was written, and the last time its
        age was looked at. `timely` as long as no two such looks at held output are 24 days apart. */
    ghost var heldAt: int
    ghost var checkedAt: int
    ghost var timely: bool

    ghost function Repr(): set<object> { {this, usb, tcp, inBuf, outBuf} }

    ghost function Held(): string
      reads this`outLen, outBuf
      requires outLen <= outBuf.Length
    {
      outBuf[..outLen]
    }

    /** The session's input that has not been read yet, in order. */
    ghost function Unread(): seq<byte>
      reads this`inPos, this`inLen, this`onTcp, inBuf, usb`arriving, tcp`arriving
      requires inPos <= inLen <= inBuf.Length
    {
      inBuf[inPos..inLen] + Waiting(if onTcp then tcp.arriving else usb.arriving)
    }

    /** The chunks are really what went to the TCP link. */
    ghost predicate Sent()
      reads this`chunks, this`mark, tcp`sent
    {
      mark <= |tcp.sent| && tcp.sent[mark..] == chunks
    }

    ghost predicate Valid()
      reads this, outBuf, tcp`sent
    {
      Sent() && usb != tcp && inBuf.Length == IN_BUFFER && outBuf.Length == TCP_CHUNK
      && inPos <= inLen <= IN_BUFFER && outLen < TCP_CHUNK
      && switches == epoch % 0x100 && (inPos < inLen ==> inFrom == epoch)
      && (!onTcp ==> outLen == 0 && written == "" && chunks == [])
      && Conserved(written, chunks, Held())
      && (outLen > 0 ==> firstOutMs == heldAt % WORD && heldAt <= checkedAt)
      && (outLen > 0 && timely ==> checkedAt < heldAt + TCP_FLUSH_MS)
    }

    constructor (usb: ByteLink, tcp: ByteLink)
      requires usb != tcp
      ensures Valid() && fresh(inBuf) && fresh(outBuf) && this.usb == usb && this.tcp == tcp
      ensures !onTcp && epoch == 0 && checkedAt == 0
    {
      this.usb, this.tcp := usb, tcp;
      onTcp, switches, inLen, inPos, outLen, firstOutMs := false, 0, 0, 0, 0, 0;
      inBuf := new byte[IN_BUFFER];
      outBuf := new char[TCP_CHUNK];
      epoch, inFrom, written, chunks, heldAt, checkedAt := 0, 0, "", [], 0, 0;
      mark, timely := |tcp.sent|, true;
    }

    /** Whether a look at time t still keeps `timely`. */
    ghost predicate InTime(t: int)
      reads this
    {
      outLen == 0 || (timely && t < checkedAt + WORD / 2 - TCP_FLUSH_MS)
    }

    method SwitchTo(toTcp: bool)
      requires Valid()
      modifies this
      ensures Valid() && onTcp == toTcp && epoch == old(epoch) + 1
      ensures inLen == inPos && outLen == 0 && written == "" && chunks == [] && checkedAt == old(checkedAt)
      ensures timely == old(timely)
    {
      hide Conserved;
      onTcp := toTcp;
      NextCount(epoch);
      switches := (switches + 1) % 0x100;
      inLen, inPos, outLen := 0, 0, 0;
      epoch, written, chunks, mark := epoch + 1, "", [], |tcp.sent|;
      NothingWritten(Held());
    }

    /** When held output has to go: 20 ms after its oldest byte. */
    function FlushDue(): Deadline
      reads this`outLen, this`firstOutMs
    {
      if outLen == 0 then Never else After(firstOutMs, TCP_FLUSH_MS)
    }

    method Flush()
      requires outLen <= outBuf.Length == TCP_CHUNK && Balanced(written, chunks, Held()) && Sent()
      modifies this`outLen, this`chunks, tcp`sent
      ensures Sent()
      ensures outLen == 0 && Conserved(written, chunks, "")
      ensures old(outLen) == 0 ==> chunks == old(chunks)
      ensures old(outLen) > 0 ==> chunks == old(chunks) + [old(Held())] && tcp.sent == old(tcp.sent) + [old(Held())]
    {
      if outLen == 0 { return; }
      tcp.Write(outBuf[..outLen]);
      ChunkSent(written, chunks, Held());
      chunks := chunks + [outBuf[..outLen]];
      outLen := 0;
    }

    /** Sends what is held at once. */
    method FlushHeld()
      requires Valid()
      modifies this`outLen, this`chunks, tcp`sent
      ensures Valid() && outLen == 0 && old(chunks) <= chunks
    {
      hide Conserved, Balanced;
      HeldBalanced(written, chunks, Held());
      Flush();
      NothingHeld(written, chunks, Held());
    }

    /** Sends what is held if it is due. It stays held exactly as long as the wrapping clock says it
        is younger than 20 ms, which is so if it is looked at in time. */
    method FlushIfDue(now: uint32, ghost t: int)
      requires outLen < outBuf.Length == TCP_CHUNK && Conserved(written, chunks, Held()) && t % WORD == now && Sent()
      requires outLen > 0 ==> firstOutMs == heldAt % WORD && heldAt <= t
      modifies this`outLen, this`chunks, tcp`sent
      ensures Sent() && outLen <= old(outLen) && Conserved(written, chunks, Held()) && old(chunks) <= chunks
      ensures old(outLen) > 0 ==>
        outLen == if (t - heldAt - TCP_FLUSH_MS) % WORD < WORD / 2 then 0 else old(outLen)
      ensures outLen > 0 && t < heldAt + WORD / 2 ==> t < heldAt + TCP_FLUSH_MS
      ensures old(outLen) == 0 ==> chunks == old(chunks)
    {
      hide Conserved, Balanced;
      if outLen > 0 {
        PassedModulo(heldAt, t, TCP_FLUSH_MS);
        if t < heldAt + WORD / 2 { PassedExactly(heldAt, t, TCP_FLUSH_MS); }
      }
      if FlushDue().Passed(now) {
        HeldBalanced(written, chunks, Held());
        Flush();
        NothingHeld(written, chunks, Held());
      }
    }

    /** The session has to move: a new client calls, or the one that has it is gone. */
    ghost predicate MustMove()
      reads this`onTcp, tcp`accepts, tcp`connections
    {
      tcp.Calling() || (onTcp && !tcp.Up())
    }

    /** Between commands: one switch if the session has to move, else held output that is due goes
        out. `t` is the clock without wrap-around. */
    method Poll(now: uint32, ghost t: int)
      requires Valid() && t % WORD == now && checkedAt <= t
      modifies this, usb`arriving, tcp
      ensures Valid() && checkedAt == t && timely == old(InTime(t))
      ensures epoch == old(epoch) ||
        (epoch == old(epoch) + 1 && inLen == inPos && written == "" && chunks == [])
      ensures epoch == old(epoch) ==>
        onTcp == old(onTcp) && written == old(written) && old(chunks) <= chunks
        && inPos == old(inPos) && inLen == old(inLen) && inFrom == old(inFrom) && Unread() == old(Unread())
      ensures epoch != old(epoch) <==> old(MustMove())
      ensures onTcp == if old(MustMove()) then old(tcp.Calling()) else old(onTcp)
      ensures old(onTcp) ==> Waiting(usb.arriving) == []
    {
      hide Conserved, Waiting, Sent;
      ghost var inTime := InTime(t);
      if onTcp { DiscardUsb(); }
      var moved := FollowLinks();
      if moved { timely, checkedAt := inTime, t; } else { Look(now, t); }
    }

    /** Held output is looked at: it goes out, or is still younger than 20 ms. */
    method Look(now: uint32, ghost t: int)
      requires Valid() && t % WORD == now && checkedAt <= t
      modifies this`outLen, this`chunks, this`checkedAt, this`timely, tcp`sent
      ensures Valid() && checkedAt == t && timely == old(InTime(t)) && old(chunks) <= chunks
    {
      hide Conserved;
      timely := InTime(t);
      FlushIfDue(now, t);
      checkedAt := t;
    }

    /** A new TCP client takes the session; a client that has gone gives it back to USB. */
    method FollowLinks() returns (moved: bool)
      requires Valid()
      modifies this, tcp`accepts, tcp`connections
      ensures Valid() && checkedAt == old(checkedAt) && timely == old(timely)
      ensures if moved then epoch == old(epoch) + 1 && inLen == inPos && outLen == 0 && written == "" && chunks == []
              else unchanged(this)
      ensures moved == old(MustMove()) && (moved ==> onTcp == old(tcp.Calling()))
    {
      hide Conserved, Sent;
      var taken := tcp.Accept();
      if taken {
        SwitchTo(true);
        return true;
      }
      if !onTcp { return false; }
      var up := tcp.Connected();
      if up { return false; }
      SwitchTo(false);
      return true;
    }

    /** What is typed on USB while a TCP client owns the session never runs. */
    method DiscardUsb()
      modifies usb`arriving
      ensures Waiting(usb.arriving) == []
    {
      hide Waiting;
      var discarded := usb.Read(IN_BUFFER);
      while discarded != []
        invariant discarded == [] ==> Waiting(usb.arriving) == []
        decreases |Waiting(usb.arriving)| + |discarded|
      {
        discarded := usb.Read(IN_BUFFER);
      }
    }

    /** The next byte of the session, NOTHING, or LINK_CLOSED once the client has gone; `from` is
        the session the byte was received in. */
    method ReadByte() returns (c: int, ghost from: nat)
      requires Valid()
      modifies this`inLen, this`inPos, this`inFrom, inBuf, usb`arriving, tcp`arriving, tcp`connections
      ensures Valid()
      ensures c == NOTHING || c == LINK_CLOSED || 0 <= c < 0x100
      ensures c >= 0 ==> from == epoch
      ensures if c >= 0 then [c] + Unread() == old(Unread())
              else old(Unread()) == [] && (c == LINK_CLOSED <==> onTcp && !old(tcp.Up()))
    {
      hide Conserved, Waiting, Sent;
      if inPos == inLen {
        Fill();
        if inLen == 0 {
          if !onTcp { return NOTHING, epoch; }
          var up := tcp.Connected();
          return if up then NOTHING else LINK_CLOSED, epoch;
        }
      }
      ghost var unread := Unread();
      c, from := inBuf[inPos], inFrom;
      assert inBuf[inPos..inLen] == [inBuf[inPos]] + inBuf[inPos + 1..inLen];
      inPos := inPos + 1;
      assert [c] + Unread() == unread;
    }

    /** Takes what the session link has received. */
    method Fill()
      requires Valid()
      modifies this`inLen, this`inPos, this`inFrom, inBuf, usb`arriving, tcp`arriving
      ensures Valid() && inPos == 0 && inFrom == epoch
      ensures old(inPos) == old(inLen) ==> Unread() == old(Unread())
      ensures inLen == 0 ==> Unread() == []
    {
      hide Conserved, Waiting, Sent;
      ghost var before := inBuf[inPos..inLen];
      assert inPos == inLen ==> before == [];
      var got;
      if onTcp { got := tcp.Read(IN_BUFFER); } else { got := usb.Read(IN_BUFFER); }
      forall i | 0 <= i < |got| { inBuf[i] := got[i]; }
      inPos, inLen, inFrom := 0, |got|, epoch;
      assert inBuf[inPos..inLen] == got;
    }

    /** Copies one part into the buffer. */
    method Hold(part: string, now: uint32, ghost t: int)
      requires outBuf.Length == TCP_CHUNK && outLen + |part| <= TCP_CHUNK && t % WORD == now
      requires Conserved(written, chunks, Held())
      modifies this`outLen, this`firstOutMs, this`heldAt, this`written, outBuf
      ensures outLen == old(outLen) + |part| && written == old(written) + part
      ensures Balanced(written, chunks, Held()) && ('>' !in part ==> Conserved(written, chunks, Held()))
      ensures if old(outLen) == 0 then firstOutMs == now && heldAt == t
              else firstOutMs == old(firstOutMs) && heldAt == old(heldAt)
    {
      hide Conserved, Balanced;
      if outLen == 0 {
        firstOutMs := now;
        heldAt := t;
      }
      ghost var held := Held();
      forall i | 0 <= i < |part| { outBuf[outLen + i] := part[i]; }
      outLen := outLen + |part|;
      assert Held() == held + part;
      HeldGrows(written, chunks, held, part);
      written := written + part;
    }

    /** Output of the session. To TCP it is held until the prompt, a full chunk, or 20 ms. */
    method Write(bytes: string, now: uint32, ghost t: int)
      requires Valid() && t % WORD == now && checkedAt <= t
      modifies this`outLen, this`firstOutMs, this`written, this`chunks, this`heldAt, this`checkedAt, this`timely
      modifies outBuf, usb`sent, tcp`sent
      ensures Valid() && checkedAt == t && timely == old(InTime(t))
      ensures onTcp ==> written == old(written) + bytes && old(chunks) <= chunks && usb.sent == old(usb.sent)
      ensures !onTcp ==> usb.sent == old(usb.sent) + [bytes] && tcp.sent == old(tcp.sent)
    {
      hide Conserved, Balanced;
      timely := InTime(t);
      if !onTcp {
        usb.Write(bytes);
        checkedAt := t;
        return;
      }
      HoldAll(bytes, now, t);
      FlushIfDue(now, t);
      checkedAt := t;
    }

    /** Fills the buffer part by part; a part with the prompt, or a full buffer, goes out. */
    method HoldAll(bytes: string, now: uint32, ghost t: int)
      requires Sent() && outLen < TCP_CHUNK == outBuf.Length && Conserved(written, chunks, Held()) && t % WORD == now
      requires outLen > 0 ==> firstOutMs == heldAt % WORD
      modifies this`outLen, this`firstOutMs, this`written, this`chunks, this`heldAt, outBuf, tcp`sent
      ensures Sent() && outLen < TCP_CHUNK && Conserved(written, chunks, Held())
      ensures written == old(written) + bytes && old(chunks) <= chunks
      ensures outLen > 0 ==>
        firstOutMs == heldAt % WORD && (heldAt == t || (old(outLen) > 0 && heldAt == old(heldAt)))
    {
      hide Conserved, Balanced, Sent;
      ghost var w0 := written;
      var done := 0;
      assert w0 + bytes[..done] == w0;
      while done < |bytes|
        invariant done <= |bytes| && outLen < TCP_CHUNK && Sent()
        invariant written == w0 + bytes[..done] && old(chunks) <= chunks
        invariant Conserved(written, chunks, Held())
        invariant outLen > 0 ==> firstOutMs == heldAt % WORD && (heldAt == t || (old(outLen) > 0 && heldAt == old(heldAt)))
      {
        var n := TCP_CHUNK - outLen;
        if n > |bytes| - done { n := |bytes| - done; }
        NextPart(w0, bytes, done, n);
        HoldPart(bytes[done..done + n], now, t);
        done := done + n;
      }
      assert bytes[..done] == bytes;
    }

    /** One part; with the prompt, or when the buffer is full, everything held goes out. */
    method HoldPart(part: string, now: uint32, ghost t: int)
      requires Sent() && outLen + |part| <= TCP_CHUNK == outBuf.Length && Conserved(written, chunks, Held())
      requires t % WORD == now && (outLen > 0 ==> firstOutMs == heldAt % WORD)
      modifies this`outLen, this`firstOutMs, this`written, this`chunks, this`heldAt, outBuf, tcp`sent
      ensures Sent() && outLen < TCP_CHUNK && Conserved(written, chunks, Held())
      ensures written == old(written) + part && old(chunks) <= chunks
      ensures outLen > 0 ==>
        firstOutMs == heldAt % WORD && (heldAt == t || (old(outLen) > 0 && heldAt == old(heldAt)))
    {
      hide Conserved, Balanced, Sent;
      Hold(part, now, t);
      if '>' in part || outLen == TCP_CHUNK {
        Flush();
        NothingHeld(written, chunks, Held());
      }
    }
  }

  lemma NextPart(before: string, bytes: string, done: nat, n: nat)
    requires done + n <= |bytes|
    ensures before + bytes[..done] + bytes[done..done + n] == before + bytes[..done + n]
  {
    assert bytes[..done] + bytes[done..done + n] == bytes[..done + n];
  }

  /** Chunks sent, then the bytes held, are everything written, in order. */
  predicate Balanced(written: string, chunks: seq<string>, held: string) {
    Flatten(chunks) + held == written
    && forall i :: 0 <= i < |chunks| ==> 1 <= |chunks[i]| <= TCP_CHUNK
  }

  /** ... and what is held never contains the prompt. */
  predicate Conserved(written: string, chunks: seq<string>, held: string) {
    Balanced(written, chunks, held) && '>' !in held
  }

  lemma ChunkSent(written: string, chunks: seq<string>, held: string)
    requires Balanced(written, chunks, held) && 0 < |held| <= TCP_CHUNK
    ensures Conserved(written, chunks + [held], "")
  {
    assert (chunks + [held])[..|chunks|] == chunks;
    assert Flatten(chunks + [held]) == Flatten(chunks) + held;
  }

  lemma HeldBalanced(written: string, chunks: seq<string>, held: string)
    requires Conserved(written, chunks, held)
    ensures Balanced(written, chunks, held)
  {
  }

  lemma NothingHeld(written: string, chunks: seq<string>, held: string)
    requires Conserved(written, chunks, "") && |held| == 0
    ensures Conserved(written, chunks, held)
  {
    assert held == "";
  }

  lemma NothingWritten(held: string)
    requires |held| == 0
    ensures Conserved("", [], held)
  {
    assert held == "";
  }

  lemma NextCount(n: nat)
    ensures (n % 0x100 + 1) % 0x100 == (n + 1) % 0x100
  {
  }

  lemma HeldGrows(written: string, chunks: seq<string>, held: string, part: string)
    requires Conserved(written, chunks, held)
    ensures Balanced(written + part, chunks, held + part)
    ensures '>' !in part ==> Conserved(written + part, chunks, held + part)
  {
    assert Flatten(chunks) + held + part == Flatten(chunks) + (held + part);
  }
}
