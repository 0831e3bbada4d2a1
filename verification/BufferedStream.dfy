/**
 The buffered stream between the client and its device (BufferedDataStream): a window into a byte
 buffer for incoming data, and an output buffer that a timer flushes.
 Buffer sizes are taken to stay below 2^31, where the C++ int positions end.
 */
module BufferedStream {

  const INT_RANGE := 0x1_0000_0000
  const INT_LIMIT := 0x8000_0000

  /** The conversion of a 64-bit count to int in qMin<int>. */
  function ToInt32(n: int): int {
    var m := n % INT_RANGE;
    if m < INT_LIMIT then m else m - INT_RANGE
  }

  function Min(a: int, b: int): int {
    if a < b then a else b
  }

  /** What readData leaves of a window. */
  function Left(window: string, maxlen: nat): string {
    if maxlen < |window| then window[maxlen..] else ""
  }

  lemma SplitSlice(s: string, i: nat, j: nat, k: nat)
    requires i <= j <= k <= |s|
    ensures s[i..k] == s[i..j] + s[j..k]
  {
  }

  class BufferedDataStream {
    var buffer: array<char>
    var offset: nat
    var len: nat
    var outBuffer: string
    var timerActive: bool
    ghost var received: string     // everything that came in
    ghost var consumed: string     // everything that readData returned
    ghost var sinceDrain: nat      // bytes received since the window was last emptied
    ghost var written: string      // everything given to writeData
    ghost var sent: string         // everything written to the device
    ghost var lossless: bool       // no readData call has dropped bytes

    /** The bytes waiting to be read. */
    ghost function Window(): string
      reads this, buffer
      requires offset + len <= buffer.Length
    {
      buffer[offset..offset + len]
    }

    /** The space bound. */
    ghost predicate Bounded()
      reads this
    {
      && offset + len <= buffer.Length
      && offset + len == sinceDrain
      && (buffer.Length <= 1024 || buffer.Length <= sinceDrain) && buffer.Length < INT_LIMIT
    }

    ghost predicate Valid()
      reads this, buffer
    {
      && Bounded()
      && (lossless ==> consumed + Window() == received)
      && sent + outBuffer == written
      && (outBuffer != "" ==> timerActive)
    }

    constructor ()
      ensures Valid() && received == "" && written == "" && lossless && fresh(buffer)
    {
      buffer := new char[0];
      offset, len, outBuffer, timerActive := 0, 0, "", false;
      received, consumed, sinceDrain, written, sent, lossless := "", "", 0, "", "", true;
    }

    /** A buffer of another size with as much of the contents as fits. */
    method Resize(size: nat)
      requires offset + len <= buffer.Length && offset + len <= size
      modifies `buffer
      ensures fresh(buffer) && buffer.Length == size && Window() == old(Window())
    {
      var copy := new char[size](_ => '\0');
      var n := Min(size, buffer.Length);
      for i := 0 to n
        invariant buffer == old(buffer)
        invariant forall k :: 0 <= k < i ==> copy[k] == buffer[k]
      {
        copy[i] := buffer[i];
      }
      assert copy[offset..offset + len] == buffer[offset..offset + len];
      buffer := copy;
    }

    method EnsureSize(size: nat)
      requires offset + len <= buffer.Length
      modifies `buffer
      ensures buffer == old(buffer) || fresh(buffer)
      ensures buffer.Length == if old(buffer.Length) < offset + len + size then offset + len + size
                               else old(buffer.Length)
      ensures Window() == old(Window())
    {
      if buffer.Length - offset - len < size {
        Resize(offset + len + size);
      }
    }

    /** The device's read into the buffer behind the window. */
    method Fill(data: string)
      requires offset + len + |data| <= buffer.Length
      modifies buffer
      ensures Window() == old(Window()) && buffer[offset + len..offset + len + |data|] == data
    {
      var end := offset + len;
      for i := 0 to |data|
        invariant buffer[..end] == old(buffer[..end]) && buffer[end..end + i] == data[..i]
      {
        buffer[end + i] := data[i];
      }
      assert data[..|data|] == data;
      assert buffer[offset..end] == buffer[..end][offset..];
    }

    /** The part of incomingDataReady that moves the window's end. */
    method Append(data: string)
      requires Bounded() && offset + len + |data| < INT_LIMIT
      modifies `buffer, `len, `sinceDrain, buffer
      ensures Bounded() && Window() == old(Window()) + data
    {
      EnsureSize(|data|);
      Fill(data);
      ghost var end := offset + len;
      assert buffer[offset..end + |data|] == buffer[offset..end] + buffer[end..end + |data|];
      len := len + |data|;
      sinceDrain := sinceDrain + |data|;
    }

    /** incomingDataReady: the device has these bytes. */
    method IncomingDataReady(data: string)
      requires Valid() && offset + len + |data| < INT_LIMIT
      modifies this, buffer
      ensures Valid() && received == old(received) + data && Window() == old(Window()) + data
      ensures lossless == old(lossless) && consumed == old(consumed)
      ensures written == old(written) && sent == old(sent)
    {
      ghost var window := Window();
      assert consumed + (window + data) == consumed + window + data;
      Append(data);
      received := received + data;
    }

    /** The part of readData that moves the window. */
    method Advance(maxlen: nat)
      requires Bounded()
      modifies `buffer, `offset, `len, `sinceDrain
      ensures Bounded() && Window() == Left(old(Window()), maxlen)
    {
      if maxlen < len {
        len := len - maxlen;
        offset := offset + maxlen;
      } else {
        offset := 0;
        len := 0;
        sinceDrain := 0;
        Resize(Min(1024, buffer.Length));
      }
    }

    /** readData. A count whose conversion to int is negative would be the length of a copy. */
    method ReadData(maxlen: nat) returns (data: string)
      requires Valid() && maxlen % 0x1_0000_0000 < 0x8000_0000
      modifies this
      ensures Valid() && received == old(received)
      ensures var n := maxlen % 0x1_0000_0000;
              data == old(Window()[..if n < len then n else len])
      ensures Window() == old(if maxlen < len then Window()[maxlen..] else "")
      ensures consumed == old(consumed) + data
      ensures lossless == (old(lossless) && (maxlen < 0x8000_0000 || old(len) <= maxlen % 0x1_0000_0000))
      ensures written == old(written) && sent == old(sent)
    {
      hide ToInt32, Left;
      ghost var window := Window();
      ReadIs(window, maxlen);
      var n := Min(ToInt32(maxlen), len);
      data := buffer[offset..offset + n];
      SplitSlice(buffer[..], offset, offset + n, offset + len);
      assert window == data + buffer[offset + n..offset + len];
      ghost var rest := Left(window, maxlen);
      assert consumed + (data + rest) == consumed + data + rest;
      consumed := consumed + data;
      lossless := lossless && (maxlen < INT_LIMIT || len <= ToInt32(maxlen));
      Advance(maxlen);
    }

    method WriteData(data: string) returns (n: nat)
      requires Valid()
      modifies this
      ensures Valid() && n == |data| && written == old(written) + data && Window() == old(Window())
      ensures received == old(received) && sent == old(sent) && lossless == old(lossless)
    {
      if |data| == 0 {
        assert written + data == written;
        return 0;
      }
      assert sent + (outBuffer + data) == sent + outBuffer + data;
      outBuffer := outBuffer + data;
      if !timerActive {
        timerActive := true;
      }
      written := written + data;
      return |data|;
    }

    method Flush() returns (data: string)
      requires Valid()
      modifies this
      ensures Valid() && outBuffer == "" && data == old(outBuffer) && sent == old(sent) + data
      ensures sent == written && written == old(written) && timerActive == old(timerActive)
      ensures Window() == old(Window()) && received == old(received) && lossless == old(lossless)
    {
      data := outBuffer;
      sent := sent + outBuffer;
      outBuffer := "";
      assert sent + "" == sent;
    }

    /** timerEvent for the flush timer. */
    method TimerEvent() returns (data: string)
      requires Valid()
      modifies this
      ensures Valid() && !timerActive && outBuffer == "" && data == old(outBuffer) && sent == written == old(written)
      ensures Window() == old(Window()) && received == old(received) && lossless == old(lossless)
    {
      data := Flush();
      timerActive := false;
    }
  }

  lemma ReadIs(window: string, maxlen: nat)
    requires |window| < INT_LIMIT && maxlen % 0x1_0000_0000 < 0x8000_0000
    ensures ToInt32(maxlen) == maxlen % 0x1_0000_0000
    ensures Left(window, maxlen) == if maxlen < |window| then window[maxlen..] else ""
    ensures maxlen < INT_LIMIT || |window| <= ToInt32(maxlen) ==>
              window[..Min(ToInt32(maxlen), |window|)] + Left(window, maxlen) == window
  {
    ReadKeepsBytes(window, maxlen);
  }

  /** A read, which returns as much as the low half of the count asks for and leaves what is behind the
      whole count, keeps every byte exactly if the count does not lose its high bits, or what is left of
      it still covers the window. */
  lemma {:induction false} ReadKeepsBytes(window: string, maxlen: nat)
    requires |window| < 0x8000_0000 && maxlen % 0x1_0000_0000 < 0x8000_0000
    ensures var n := maxlen % 0x1_0000_0000;
            window[..if n < |window| then n else |window|] + (if maxlen < |window| then window[maxlen..] else "")
              == window
            <==> maxlen < 0x8000_0000 || |window| <= n
  {
  }

  /** Reading with a count of 2^32 returns nothing and empties the window. */
  method ReadCanDropBytes(s: BufferedDataStream) returns (data: string)
    requires s.Valid()
    modifies s
    ensures s.Valid() && data == "" && s.Window() == ""
    ensures old(s.lossless && s.len > 0) ==> !s.lossless
  {
    data := s.ReadData(0x1_0000_0000);
  }
}
