/**
 The HTTP CONNECT proxy handshake (HttpConnect) and the byte queue below it (ByteStream): a reply
 that arrives in arbitrary blocks is cut into header lines, and what follows the first empty line
 is delivered to the reader.
 */
module HttpConnect {
  import opened Bytes
  import opened Wrappers

  datatype Error = ErrProxyNeg | ErrProxyAuth | ErrHostNotFound | ErrConnectionRefused

  /** Still reading the header; connected; refused; or stopped at a header without a status line,
      where the code takes the first element of an empty list. */
  datatype Phase = Header | Active | Failed(error: Error) | NoStatusLine

  /** `delivered` is everything put into the read buffer so far. */
  datatype State = State(phase: Phase, recvBuf: string, headerLines: seq<string>, delivered: string)

  const START := State(Header, "", [], "")

  // ---------------------------------------------------------------- lines

  /** Where the first CR LF is, or -1. */
  function FindLine(s: string): (i: int)
    ensures i == -1 ==> forall k :: 0 <= k < |s| - 1 ==> !(s[k] == '\r' && s[k + 1] == '\n')
    ensures i != -1 ==> 0 <= i < |s| - 1 && s[i] == '\r' && s[i + 1] == '\n'
                        && forall k :: 0 <= k < i ==> !(s[k] == '\r' && s[k + 1] == '\n')
  {
    if |s| < 2 then -1
    else if s[0] == '\r' && s[1] == '\n' then 0
    else
      var i := FindLine(s[1..]);
      assert forall k :: 0 < k < |s| - 1 ==> s[k] == s[1..][k - 1] && s[k + 1] == s[1..][k];
      if i == -1 then -1 else i + 1
  }

  lemma {:induction false} FindLineStable(a: string, b: string)
    requires FindLine(a) != -1
    ensures FindLine(a + b) == FindLine(a)
  {
    var i := FindLine(a);
    assert (a + b)[i] == '\r' && (a + b)[i + 1] == '\n';
    assert forall k :: 0 <= k < |a| ==> (a + b)[k] == a[k];
  }

  /** The text of a line: QString::fromAscii stops at a NUL byte. */
  function Text(line: string): string {
    var i := IndexOf(line, '\0');
    if i == -1 then line else line[..i]
  }

  /** Taking complete lines off a buffer up to the first one with an empty text. */
  datatype Lines = Lines(lines: seq<string>, rest: string, ended: bool)

  function TakeLines(s: string): (l: Lines)
    ensures |l.rest| <= |s|
    decreases |s|
  {
    var i := FindLine(s);
    if i == -1 then Lines([], s, false)
    else if Text(s[..i]) == "" then Lines([], s[i + 2..], true)
    else
      var more := TakeLines(s[i + 2..]);
      Lines([Text(s[..i])] + more.lines, more.rest, more.ended)
  }

  lemma {:induction false} TakeLinesAppend(a: string, b: string)
    ensures var l := TakeLines(a);
            TakeLines(a + b) ==
              if l.ended then Lines(l.lines, l.rest + b, true)
              else var m := TakeLines(l.rest + b); Lines(l.lines + m.lines, m.rest, m.ended)
    decreases |a|
  {
    hide FindLine, Text;
    var i := FindLine(a);
    if i == -1 {
      assert [] + TakeLines(a + b).lines == TakeLines(a + b).lines;
    } else {
      FindLineStable(a, b);
      assert (a + b)[i + 2..] == a[i + 2..] + b;
      assert (a + b)[..i] == a[..i];
      if Text(a[..i]) != "" {
        TakeLinesAppend(a[i + 2..], b);
        ConsAppend(Text(a[..i]), TakeLines(a[i + 2..]).lines);
      }
    }
  }

  lemma ConsAppend(line: string, lines: seq<string>)
    ensures forall more: seq<string> :: [line] + (lines + more) == [line] + lines + more
  {
  }

  // ---------------------------------------------------------------- the status line

  /** extractMainHeader: the code of a status line, or None. `toInt` is the conversion of text to
      a number. */
  function StatusCode(line: string, toInt: string -> int): Option<int> {
    var n := IndexOf(line, ' ');
    if n == -1 then None
    else
      var n2 := IndexOf(line, ' ', n + 1);
      if n2 == -1 then None else Some(toInt(line[n + 1..n2]))
  }

  function ErrorFor(code: int): Error {
    if code == 407 then ErrProxyAuth
    else if code == 404 then ErrHostNotFound
    else if code == 403 then ErrProxyNeg
    else if code == 503 then ErrConnectionRefused
    else ErrProxyNeg
  }

  /** What a complete header leads to. */
  function Verdict(lines: seq<string>, toInt: string -> int): Phase {
    if lines == [] then NoStatusLine
    else
      match StatusCode(lines[0], toInt)
      case None => Failed(ErrProxyNeg)
      case Some(code) => if code == 200 then Active else Failed(ErrorFor(code))
  }

  /** sock_readyRead for one block. */
  function ReadyRead(s: State, block: string, toInt: string -> int): State {
    match s.phase
    case Active => s.(delivered := s.delivered + block)
    case Failed(_) => s.(recvBuf := s.recvBuf + block)
    case NoStatusLine => s
    case Header =>
      var l := TakeLines(s.recvBuf + block);
      var lines := s.headerLines + l.lines;
      if !l.ended then State(Header, l.rest, lines, s.delivered)
      else
        match Verdict(lines, toInt)
        case Active => State(Active, "", lines[1..], s.delivered + l.rest)
        case Failed(e) => State(Failed(e), "", lines[if lines == [] then 0 else 1..], "")
        case _ => State(NoStatusLine, "", [], "")
  }

  function ReadAll(s: State, blocks: seq<string>, toInt: string -> int): State
    decreases |blocks|
  {
    if blocks == [] then s else ReadAll(ReadyRead(s, blocks[0], toInt), blocks[1..], toInt)
  }

  // ---------------------------------------------------------------- the class

  /** ByteStream's read buffer. */
  class ByteQueue {
    var buf: string

    constructor ()
      ensures buf == ""
    {
      buf := "";
    }

    /** appendArray */
    method Append(block: string)
      modifies this
      ensures buf == old(buf) + block
    {
      buf := buf + block;
    }

    /** takeArray: all bytes for a size of 0, otherwise up to `size` bytes, removed if `del`. */
    method Take(size: nat, del: bool) returns (a: string)
      modifies this
      ensures a <= old(buf) && |a| == if size == 0 || size > |old(buf)| then |old(buf)| else size
      ensures if del then a + buf == old(buf) else buf == old(buf)
    {
      if size == 0 {
        a := buf;
        if del {
          buf := "";
        }
      } else {
        var n := if size > |buf| then |buf| else size;
        a := buf[..n];
        if del {
          buf := buf[n..];
        }
      }
    }
  }

  class Connection {
    const toInt: string -> int
    const readBuf: ByteQueue
    var phase: Phase
    var recvBuf: string
    var headerLines: seq<string>
    var inHeader: bool
    var toWrite: nat
    ghost var taken: string     // read by the user so far
    ghost var request: nat      // length of the CONNECT request
    ghost var written: nat      // bytes handed to the socket
    ghost var acked: nat        // bytes the socket reported as written
    ghost var reported: nat     // bytes reported upward

    ghost predicate Valid()
      reads this, readBuf
    {
      && (inHeader <==> phase == Header)
      && toWrite == (if acked < request then request - acked else 0)
      && acked <= written && request <= written
      && (phase == Header || phase.NoStatusLine? ==> written == request && reported == 0)
      && (phase.Active? ==> reported == if acked < request then 0 else acked - request)
    }

    ghost function Abs(): State
      reads this, readBuf
    {
      State(phase, recvBuf, headerLines, taken + readBuf.buf)
    }

    /** connectToHost followed by sock_connected with a CONNECT request of this length. */
    constructor (toInt: string -> int, request: nat)
      ensures Valid() && Abs() == START && fresh(readBuf)
      ensures this.toInt == toInt && this.request == request && written == request && acked == 0
    {
      this.toInt := toInt;
      readBuf := new ByteQueue();
      phase, recvBuf, headerLines, inHeader := Header, "", [], true;
      toWrite := request;
      taken, this.request, written, acked, reported := "", request, request, 0, 0;
      new;
      assert "" + "" == "";
    }

    /** The line loop of sock_readyRead. */
    method GrabLines()
      requires inHeader
      modifies `recvBuf, `headerLines, `inHeader
      ensures var l := TakeLines(old(recvBuf));
              recvBuf == l.rest && headerLines == old(headerLines) + l.lines && inHeader == !l.ended
    {
      hide Text, FindLine;
      ghost var all := TakeLines(recvBuf);
      while inHeader
        invariant if inHeader
                  then var l := TakeLines(recvBuf);
                       && headerLines + l.lines == old(headerLines) + all.lines
                       && l.rest == all.rest && l.ended == all.ended
                  else headerLines == old(headerLines) + all.lines && recvBuf == all.rest && all.ended
        decreases inHeader, |recvBuf|
      {
        var index := FindLine(recvBuf);
        if index == -1 {
          assert headerLines + [] == headerLines;
          return;
        }
        var line := Text(recvBuf[..index]);
        ghost var more := TakeLines(recvBuf[index + 2..]);
        recvBuf := recvBuf[index + 2..];
        if line == "" {
          assert headerLines + [] == headerLines;
          inHeader := false;
        } else {
          assert headerLines + ([line] + more.lines) == headerLines + [line] + more.lines;
          headerLines := headerLines + [line];
        }
      }
    }

    method OnReadyRead(block: string)
      requires Valid()
      modifies this, readBuf
      ensures Valid() && Abs() == ReadyRead(old(Abs()), block, toInt)
      ensures request == old(request) && written == old(written) && acked == old(acked) && reported == old(reported)
    {
      if phase.NoStatusLine? {
        return;
      }
      if !phase.Active? {
        recvBuf := recvBuf + block;
        if inHeader {
          GrabLines();
          if !inHeader {
            HeaderDone();
          }
        }
      } else {
        readBuf.Append(block);
        assert taken + (old(readBuf.buf) + block) == taken + old(readBuf.buf) + block;
      }
    }

    /** The part of sock_readyRead behind the empty line. */
    method HeaderDone()
      requires phase == Header && !inHeader
      modifies this, readBuf
      ensures var l := old(headerLines);
              var v := Verdict(l, toInt);
              Abs() == match v
                       case Active => State(Active, "", l[1..], old(Abs()).delivered + old(recvBuf))
                       case Failed(e) => State(Failed(e), "", l[if l == [] then 0 else 1..], "")
                       case _ => State(NoStatusLine, "", [], "")
      ensures !inHeader && toWrite == old(toWrite)
      ensures request == old(request) && written == old(written) && acked == old(acked) && reported == old(reported)
    {
      if headerLines == [] {
        phase, recvBuf, taken := NoStatusLine, "", "";
        readBuf.buf := "";
        return;
      }
      var str := headerLines[0];
      headerLines := headerLines[1..];
      var code := StatusCode(str, toInt);
      if code == Some(200) {
        phase := Active;
        if recvBuf != "" {
          assert taken + (readBuf.buf + recvBuf) == taken + readBuf.buf + recvBuf;
          readBuf.Append(recvBuf);
          recvBuf := "";
        } else {
          assert taken + readBuf.buf + "" == taken + readBuf.buf;
        }
      } else {
        phase := Failed(if code.None? then ErrProxyNeg else ErrorFor(code.value));
        recvBuf, taken := "", "";
        readBuf.buf := "";
      }
    }

    /** Reading takes bytes out in the order they were delivered. */
    method Read(size: nat) returns (bytes: string)
      requires Valid()
      modifies this, readBuf
      ensures Valid() && Abs() == old(Abs()) && taken == old(taken) + bytes
    {
      bytes := readBuf.Take(size, true);
      assert taken + bytes + readBuf.buf == taken + (bytes + readBuf.buf);
      taken := taken + bytes;
    }

    method Write(size: nat)
      requires Valid()
      modifies this
      ensures Valid() && Abs() == old(Abs()) && acked == old(acked) && request == old(request)
      ensures written == old(written) + if phase.Active? then size else 0
    {
      if phase.Active? {
        written := written + size;
      }
    }

    /** sock_bytesWritten: the CONNECT request is not reported. */
    method OnBytesWritten(x: nat) returns (signal: nat)
      requires Valid() && acked + x <= written
      modifies this
      ensures Valid() && Abs() == old(Abs()) && written == old(written) && request == old(request)
      ensures acked == old(acked) + x && reported == old(reported) + signal
      ensures phase.Active? ==> reported == if acked < request then 0 else acked - request
    {
      var left := x;
      if toWrite > 0 {
        var size := if toWrite < x then toWrite else x;
        toWrite := toWrite - size;
        left := left - size;
      }
      acked := acked + x;
      signal := if phase.Active? && left > 0 then left else 0;
      reported := reported + signal;
    }
  }

  // ---------------------------------------------------------------- blocks do not matter

  /** Two blocks in a row are one, as far as outcome and delivered bytes go. */
  predicate SameOutcome(s: State, t: State) {
    && s.phase == t.phase && s.delivered == t.delivered && s.headerLines == t.headerLines
    && (s.phase == Header ==> s.recvBuf == t.recvBuf)
  }

  lemma {:induction false} ReadTwice(s: State, a: string, b: string, toInt: string -> int)
    ensures SameOutcome(ReadyRead(ReadyRead(s, a, toInt), b, toInt), ReadyRead(s, a + b, toInt))
  {
    hide Verdict, TakeLines;
    if s.phase.Active? {
      assert s.delivered + a + b == s.delivered + (a + b);
    } else if s.phase == Header {
      var l := TakeLines(s.recvBuf + a);
      assert s.recvBuf + (a + b) == s.recvBuf + a + b;
      TakeLinesAppend(s.recvBuf + a, b);
      if l.ended {
        assert s.delivered + (l.rest + b) == s.delivered + l.rest + b;
      } else {
        var m := TakeLines(l.rest + b);
        assert s.headerLines + l.lines + m.lines == s.headerLines + (l.lines + m.lines);
      }
    }
  }

  /** States with the same outcome stay so. */
  lemma {:induction false} ReadSame(s: State, t: State, block: string, toInt: string -> int)
    requires SameOutcome(s, t)
    ensures SameOutcome(ReadyRead(s, block, toInt), ReadyRead(t, block, toInt))
  {
  }

  lemma {:induction false} ReadAllSame(s: State, t: State, blocks: seq<string>, toInt: string -> int)
    requires SameOutcome(s, t)
    ensures SameOutcome(ReadAll(s, blocks, toInt), ReadAll(t, blocks, toInt))
    decreases |blocks|
  {
    hide ReadyRead, SameOutcome;
    if blocks != [] {
      ReadSame(s, t, blocks[0], toInt);
      ReadAllSame(ReadyRead(s, blocks[0], toInt), ReadyRead(t, blocks[0], toInt), blocks[1..], toInt);
    }
  }

  lemma SameTransitive(s: State, t: State, u: State)
    requires SameOutcome(s, t) && SameOutcome(t, u)
    ensures SameOutcome(s, u)
  {
  }

  /** However the reply is split into blocks, the outcome is that of the whole reply. */
  lemma {:induction false} BlocksDoNotMatter(s: State, blocks: seq<string>, toInt: string -> int)
    requires blocks != []
    ensures SameOutcome(ReadAll(s, blocks, toInt), ReadyRead(s, Flatten(blocks), toInt))
    decreases |blocks|
  {
    hide ReadyRead, SameOutcome;
    var s1 := ReadyRead(s, blocks[0], toInt);
    if |blocks| == 1 {
      assert blocks[1..] == [];
      assert Flatten(blocks) == blocks[0] + "" == blocks[0];
      SameReflexive(s1);
    } else {
      BlocksDoNotMatter(s1, blocks[1..], toInt);
      ReadTwice(s, blocks[0], Flatten(blocks[1..]), toInt);
      SameTransitive(
        ReadAll(s, blocks, toInt), ReadyRead(s1, Flatten(blocks[1..]), toInt), ReadyRead(s, Flatten(blocks), toInt));
    }
  }

  lemma SameReflexive(s: State)
    ensures SameOutcome(s, s)
  {
  }

  // ---------------------------------------------------------------- the outcome, independently

  predicate Crlf(s: string, k: nat) {
    k + 1 < |s| && s[k] == '\r' && s[k + 1] == '\n'
  }

  predicate LineStart(s: string, k: nat) {
    k == 0 || (k >= 2 && Crlf(s, k - 2))
  }

  /** A line from k up to its CR LF at e that is empty to the code: it has no bytes, or starts with NUL. */
  predicate EmptyLine(s: string, k: nat, e: nat) {
    k <= e && LineStart(s, k) && Crlf(s, e) && (forall j :: k <= j < e ==> !Crlf(s, j)) && (k == e || s[k] == '\0')
  }

  ghost predicate NoEmptyLine(s: string) {
    forall k: nat, e: nat :: !EmptyLine(s, k, e)
  }

  ghost predicate FirstEmptyLine(s: string, k: nat, e: nat) {
    EmptyLine(s, k, e) && forall j: nat, f: nat :: EmptyLine(s, j, f) ==> k <= j
  }

  /** An empty line is the first line, or one of the remainder. */
  lemma {:induction false} EmptyLinesBehind(s: string, i: nat, k: nat, e: nat)
    requires FindLine(s) == i && EmptyLine(s, k, e)
    ensures if k == 0 then e == i && Text(s[..i]) == ""
            else k >= i + 2 && EmptyLine(s[i + 2..], k - (i + 2), e - (i + 2))
  {
    var t := s[i + 2..];
    assert Crlf(s, i);
    if k != 0 {
      assert k >= i + 2;
      assert forall j :: 0 <= j < |t| ==> t[j] == s[j + i + 2];
      assert forall j: nat :: Crlf(t, j) == Crlf(s, j + i + 2);
    }
  }

  lemma {:induction false} EmptyLinesAhead(s: string, i: nat, k: nat, e: nat)
    requires FindLine(s) == i && EmptyLine(s[i + 2..], k, e)
    ensures EmptyLine(s, k + i + 2, e + i + 2)
  {
    var t := s[i + 2..];
    assert Crlf(s, i);
    assert forall j :: 0 <= j < |t| ==> t[j] == s[j + i + 2];
    assert forall j: nat :: Crlf(t, j) == Crlf(s, j + i + 2);
    assert forall j :: k + i + 2 <= j < e + i + 2 ==> Crlf(s, j) == Crlf(t, j - (i + 2));
  }

  lemma DropTwice(s: string, a: nat, b: nat)
    requires a + b <= |s|
    ensures s[a..][b..] == s[a + b..]
  {
  }

  /** The header ends at the first empty line, which may be the first line of all. */
  lemma {:induction false} HeaderEndsAtEmptyLine(s: string) returns (k: nat, e: nat)
    ensures var l := TakeLines(s);
            if l.ended then
              && FirstEmptyLine(s, k, e) && l.rest == s[e + 2..] && (k == 0 <==> l.lines == [])
              && (k != 0 ==> FindLine(s) != -1 && l.lines[0] == Text(s[..FindLine(s)]))
            else NoEmptyLine(s)
    decreases |s|
  {
    hide EmptyLine, FirstEmptyLine, NoEmptyLine, FindLine, Text;
    var i := FindLine(s);
    k, e := 0, 0;
    if i == -1 {
      NoLineNoEmptyLine(s);
    } else if Text(s[..i]) == "" {
      FirstLineIsEmpty(s);
      e := i;
    } else {
      k, e := HeaderEndsAtEmptyLine(s[i + 2..]);
      BehindFirstLine(s, k, e);
      k, e := k + i + 2, e + i + 2;
    }
  }

  /** What is behind a first line that is not empty. */
  lemma {:induction false} BehindFirstLine(s: string, k: nat, e: nat)
    requires FindLine(s) != -1 && Text(s[..FindLine(s)]) != ""
    ensures var i := FindLine(s);
            && (NoEmptyLine(s[i + 2..]) ==> NoEmptyLine(s))
            && (FirstEmptyLine(s[i + 2..], k, e) ==>
                  FirstEmptyLine(s, k + i + 2, e + i + 2) && e + i + 4 <= |s| && s[i + 2..][e + 2..] == s[e + i + 4..])
  {
    hide FindLine, Text;
    var i := FindLine(s);
    forall j: nat, f: nat | EmptyLine(s, j, f) ensures j >= i + 2 && EmptyLine(s[i + 2..], j - (i + 2), f - (i + 2)) {
      EmptyLinesBehind(s, i, j, f);
    }
    if FirstEmptyLine(s[i + 2..], k, e) {
      EmptyLinesAhead(s, i, k, e);
      DropTwice(s, i + 2, e + 2);
    }
  }

  lemma FirstLineIsEmpty(s: string)
    requires FindLine(s) != -1 && Text(s[..FindLine(s)]) == ""
    ensures FirstEmptyLine(s, 0, FindLine(s))
  {
    var i := FindLine(s);
    assert Crlf(s, i);
    assert i > 0 ==> s[..i][0] == s[0];
  }

  lemma NoLineNoEmptyLine(s: string)
    requires FindLine(s) == -1
    ensures NoEmptyLine(s)
  {
  }

  lemma OneFirstEmptyLine(s: string, k: nat, e: nat, j: nat, f: nat)
    requires FirstEmptyLine(s, k, e) && FirstEmptyLine(s, j, f)
    ensures k == j && e == f
  {
  }

  /** The handshake by its bytes, for any reply: before the first empty line nothing is decided; behind
      it the first line decides, and on success exactly the bytes behind the empty line have been
      delivered; without a line before it the code reaches for a status line that is not there. */
  lemma {:induction false} OutcomeOfReply(blocks: seq<string>, toInt: string -> int)
    requires blocks != []
    ensures var s := Flatten(blocks);
            var r := ReadAll(START, blocks, toInt);
            && (NoEmptyLine(s) ==> r.phase == Header && r.delivered == "")
            && (forall k: nat, e: nat :: FirstEmptyLine(s, k, e) ==>
                  if k == 0 then r.phase == NoStatusLine
                  else
                    && FindLine(s) != -1 && r.phase == Verdict([Text(s[..FindLine(s)])], toInt)
                    && r.delivered == if r.phase.Active? then s[e + 2..] else "")
  {
    hide ReadAll, TakeLines, StatusCode, ErrorFor, EmptyLine, FindLine, FirstEmptyLine, Text;
    var s := Flatten(blocks);
    BlocksDoNotMatter(START, blocks, toInt);
    var k, e := HeaderEndsAtEmptyLine(s);
    WholeReply(s, toInt);
    if TakeLines(s).ended {
      IsEmptyLine(s, k, e);
    }
    forall j: nat, f: nat | FirstEmptyLine(s, j, f) ensures TakeLines(s).ended && j == k && f == e {
      IsEmptyLine(s, j, f);
      if TakeLines(s).ended {
        OneFirstEmptyLine(s, k, e, j, f);
      }
    }
  }

  /** A complete header behind whose first line the words are these: the code alone decides. */
  lemma {:induction false} CodeDecides(
      blocks: seq<string>, toInt: string -> int, k: nat, e: nat, proto: string, code: string, msg: string)
    requires blocks != [] && FirstEmptyLine(Flatten(blocks), k, e) && k != 0
    requires FindLine(Flatten(blocks)) != -1 ==>
               Text(Flatten(blocks)[..FindLine(Flatten(blocks))]) == proto + " " + code + " " + msg
    requires ' ' !in proto && ' ' !in code
    ensures var phase := ReadAll(START, blocks, toInt).phase;
            && (phase == Active <==> toInt(code) == 200)
            && (toInt(code) == 407 ==> phase == Failed(ErrProxyAuth))
            && (toInt(code) == 404 ==> phase == Failed(ErrHostNotFound))
            && (toInt(code) == 503 ==> phase == Failed(ErrConnectionRefused))
            && (toInt(code) !in {200, 404, 407, 503} ==> phase == Failed(ErrProxyNeg))
  {
    hide ReadAll, FirstEmptyLine, FindLine, Text, StatusCode;
    OutcomeOfReply(blocks, toInt);
    CodeOfWords(proto, code, msg, toInt);
  }

  lemma {:induction false} CodeOfWords(proto: string, code: string, msg: string, toInt: string -> int)
    requires ' ' !in proto && ' ' !in code
    ensures StatusCode(proto + " " + code + " " + msg, toInt) == Some(toInt(code))
  {
    var line, n := proto + " " + code + " " + msg, |proto|;
    assert line == proto + ([' '] + (code + ([' '] + msg)));
    assert line[n] == ' ' && line[n + 1 + |code|] == ' ';
    assert forall i :: 0 <= i < n ==> line[i] == proto[i];
    assert forall i :: n < i < n + 1 + |code| ==> line[i] == code[i - n - 1];
    assert line[n + 1..n + 1 + |code|] == code;
  }

  /** A first line with fewer than two blanks is refused. */
  lemma {:induction false} TooFewWords(blocks: seq<string>, toInt: string -> int, k: nat, e: nat)
    requires blocks != [] && FirstEmptyLine(Flatten(blocks), k, e) && k != 0
    requires FindLine(Flatten(blocks)) != -1 ==>
               var line := Text(Flatten(blocks)[..FindLine(Flatten(blocks))]);
               forall i, j :: 0 <= i < j < |line| ==> !(line[i] == ' ' && line[j] == ' ')
    ensures ReadAll(START, blocks, toInt).phase == Failed(ErrProxyNeg)
  {
    hide ReadAll, FirstEmptyLine, FindLine, Text, StatusCode;
    OutcomeOfReply(blocks, toInt);
    var s := Flatten(blocks);
    assert FindLine(s) != -1;
    var line := Text(s[..FindLine(s)]);
    assert forall i, j :: 0 <= i < j < |line| ==> !(line[i] == ' ' && line[j] == ' ');
    FewBlanksNoCode(line, toInt);
  }

  lemma FewBlanksNoCode(line: string, toInt: string -> int)
    requires forall i, j :: 0 <= i < j < |line| ==> !(line[i] == ' ' && line[j] == ' ')
    ensures StatusCode(line, toInt) == None
  {
    var n := IndexOf(line, ' ');
    if n != -1 {
      assert IndexOf(line, ' ', n + 1) == -1;
    }
  }

  /** A reply of a status line alone, cut anywhere: on 200 it connects, and delivers what follows. */
  lemma {:induction false} ShortReply(
      blocks: seq<string>, toInt: string -> int, proto: string, code: string, msg: string, rest: string)
    requires blocks != [] && Flatten(blocks) == proto + " " + code + " " + msg + "\r\n\r\n" + rest
    requires ' ' !in proto && ' ' !in code
    requires forall c :: c in proto || c in code || c in msg ==> c != '\r' && c != '\0'
    ensures var r := ReadAll(START, blocks, toInt);
            && (r.phase == Active <==> toInt(code) == 200)
            && r.delivered == if toInt(code) == 200 then rest else ""
  {
    hide ReadAll, FindLine, FirstEmptyLine, Text, StatusCode;
    var s, line := Flatten(blocks), proto + " " + code + " " + msg;
    assert s == line + "\r\n\r\n" + rest;
    assert forall c :: c in line ==> c == ' ' || c in proto || c in code || c in msg;
    LineAndEmptyLine(s, line, rest);
    CodeDecides(blocks, toInt, |line| + 2, |line| + 2, proto, code, msg);
    OutcomeOfReply(blocks, toInt);
  }

  lemma LineAndEmptyLine(s: string, line: string, rest: string)
    requires s == line + "\r\n\r\n" + rest && line != ""
    requires forall c :: c in line ==> c != '\r' && c != '\0'
    ensures FindLine(s) == |line| && Text(s[..|line|]) == line
    ensures FirstEmptyLine(s, |line| + 2, |line| + 2) && s[|line| + 4..] == rest
  {
    hide FindLine;
    var n := |line|;
    assert s[n] == '\r' && s[n + 1] == '\n' && s[n + 2] == '\r' && s[n + 3] == '\n';
    assert forall k :: 0 <= k < n ==> s[k] == line[k] && line[k] in line;
    assert s[..n] == line;
    assert EmptyLine(s, n + 2, n + 2);
  }

  lemma IsEmptyLine(s: string, k: nat, e: nat)
    requires FirstEmptyLine(s, k, e)
    ensures EmptyLine(s, k, e)
  {
  }

  /** The code reaches for a status line that is not there exactly if the first line of the reply is
      empty or starts with NUL. */
  lemma {:induction false} StatusLineMissing(blocks: seq<string>, toInt: string -> int)
    requires blocks != []
    ensures var s := Flatten(blocks);
            ReadAll(START, blocks, toInt).phase.NoStatusLine?
            <==> FindLine(s) == 0 || (FindLine(s) > 0 && s[0] == '\0')
  {
    hide ReadAll, StatusCode, ErrorFor, EmptyLine, FindLine;
    var s := Flatten(blocks);
    BlocksDoNotMatter(START, blocks, toInt);
    WholeReply(s, toInt);
    var i := FindLine(s);
    if i != -1 {
      assert i > 0 ==> s[..i][0] == s[0];
      if Text(s[..i]) != "" {
        assert TakeLines(s).lines != [];
      }
    }
  }

  /** A reply of one empty line. */
  lemma EmptyReplyHasNoStatusLine(toInt: string -> int)
    ensures ReadAll(START, ["\r\n"], toInt).phase == NoStatusLine
  {
    hide ReadAll;
    StatusLineMissing(["\r\n"], toInt);
    assert Flatten(["\r\n"]) == "\r\n";
  }

  /** The whole reply in one block. */
  lemma WholeReply(s: string, toInt: string -> int)
    ensures var l := TakeLines(s);
            var r := ReadyRead(START, s, toInt);
            if !l.ended then r.phase == Header && r.delivered == ""
            else if l.lines == [] then r.phase == NoStatusLine
            else r.phase == Verdict([l.lines[0]], toInt) && r.delivered == if r.phase.Active? then l.rest else ""
  {
    hide TakeLines, StatusCode, ErrorFor;
    assert "" + s == s;
    var l := TakeLines(s);
    assert [] + l.lines == l.lines;
    assert "" + l.rest == l.rest;
  }
}
