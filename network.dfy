/** The socket side of a network client: cutting the received byte stream into
    lines (CNetworkClient::_HandleNewData) and the queue of outgoing lines of
    which at most one is being written at a time. */
module Network {
  import opened Ascii
  import opened Irc
  import opened Wrappers

  /** m_InputBuffer holds up to IrcMessageLength - 1 characters left over from
      the last read, up to IrcMessageLength new ones and a terminating NUL. */
  const InputBufferSize := 2 * IrcMessageLength

  datatype Outcome = Continue | Disconnect(reason: string) | Closed

  /** The lines handed to _ReceiveMessage, how the read ended, and the unfinished
      line kept for the next read. */
  datatype ReadResult = ReadResult(delivered: seq<string>, outcome: Outcome, remainder: string)

  function Prepend(ms: seq<string>, r: ReadResult): ReadResult
  {
    ReadResult(ms + r.delivered, r.outcome, r.remainder)
  }

  lemma PrependTwice(a: seq<string>, b: seq<string>, r: ReadResult)
    ensures Prepend(a, Prepend(b, r)) == Prepend(a + b, r)
  {
    assert (a + b) + r.delivered == a + (b + r.delivered);
  }

  /** The message of the line from `start` to the line feed at `lf`: a carriage
      return right before the line feed belongs to the terminator when the scan
      looked at its position, that is when it is at or after `scanStart`. */
  function LineMessage(v: string, start: nat, lf: nat, scanStart: nat): string
    requires start <= lf < |v|
  {
    if start < lf && v[lf - 1] == '\r' && lf - 1 >= scanStart then v[start..lf - 1] else v[start..lf]
  }

  /** The lines of `v` from `start` on, found by a scan for line endings that
      began at `scanStart`; `closed(i)` tells whether handling the i-th line of
      this read closed the socket. A line whose length with its terminator exceeds
      IrcMessageLength, or an unfinished one of IrcMessageLength characters or
      more, ends the connection with "Message too long". */
  function FrameFrom(v: string, start: nat, scanStart: nat, closed: nat -> bool, index: nat): ReadResult
    requires start <= |v|
    decreases |v| - start
  {
    var lf := Find(v, '\n', start);
    if lf == |v| then
      if |v| - start >= IrcMessageLength then ReadResult([], Disconnect("Message too long"), "")
      else ReadResult([], Continue, v[start..])
    else if lf + 1 - start > IrcMessageLength then ReadResult([], Disconnect("Message too long"), "")
    else
      var m := LineMessage(v, start, lf, scanStart);
      if closed(index) then ReadResult([m], Closed, "")
      else Prepend([m], FrameFrom(v, lf + 1, scanStart, closed, index + 1))
  }

  /** One read as _HandleNewData is meant to treat it: the new characters, up to
      the first NUL, are appended to the remainder and every line ending in the
      result is found. */
  function Frame(remainder: string, chunk: string, closed: nat -> bool): ReadResult
  {
    FrameFrom(remainder + CString(chunk), 0, 0, closed, 0)
  }

  /** One read as _HandleNewData is written: the scan for line endings starts at
      the first new character, so a carriage return that ended the previous read
      is not seen as part of a CR LF. */
  function FrameAsWritten(remainder: string, chunk: string, closed: nat -> bool): ReadResult
  {
    FrameFrom(remainder + CString(chunk), 0, |remainder|, closed, 0)
  }

  /** "NICK a" CR arrives in one read and LF in the next: as written, the
      carriage return stays in the message. */
  lemma SplitCrLfAsWritten(closed: nat -> bool)
    requires !closed(0)
    ensures FrameAsWritten("NICK a\r", "\n", closed).delivered == ["NICK a\r"]
    ensures Frame("NICK a\r", "\n", closed).delivered == ["NICK a"]
  {
    assert CString("\n") == "\n";
    var v := "NICK a\r\n";
    assert "NICK a\r" + CString("\n") == v;
    FindUnique(v, '\n', 0, 7);
    FindAbsent(v, '\n', 8);
    assert FrameFrom(v, 8, 7, closed, 1).delivered == [];
    assert FrameFrom(v, 8, 0, closed, 1).delivered == [];
    assert LineMessage(v, 0, 7, 7) == v[..7] == "NICK a\r";
    assert LineMessage(v, 0, 7, 0) == v[..6] == "NICK a";
  }

  function StripCR(s: string): string
  {
    if |s| > 0 && s[|s| - 1] == '\r' then s[..|s| - 1] else s
  }

  /** The messages of the complete lines among `parts`: all but the last piece,
      each without one trailing carriage return. */
  function Messages(parts: seq<string>): (r: seq<string>)
    requires |parts| >= 1
    ensures |r| == |parts| - 1
    ensures forall i :: 0 <= i < |r| ==> r[i] == StripCR(parts[i])
  {
    seq(|parts| - 1, i requires 0 <= i < |parts| - 1 => StripCR(parts[i]))
  }

  lemma LineMessageIsStripped(v: string, start: nat, lf: nat)
    requires start <= lf < |v|
    ensures LineMessage(v, start, lf, 0) == StripCR(v[start..lf])
  {
  }

  /** The first piece after `start` ends at the first line feed `lf`. */
  lemma SplitAtLine(v: string, start: nat, lf: nat)
    requires start <= lf < |v| && Find(v, '\n', start) == lf
    ensures Split(v[start..], '\n') == [v[start..lf]] + Split(v[lf + 1..], '\n')
  {
    FindSuffix(v, '\n', start);
    SuffixSlices(v, start, lf);
  }

  /** Without a line feed after `start` the rest is one piece. */
  lemma SplitAtEnd(v: string, start: nat)
    requires start <= |v| && Find(v, '\n', start) == |v|
    ensures Split(v[start..], '\n') == [v[start..]]
  {
    FindSuffix(v, '\n', start);
  }

  /** The corrected read stated on the pieces between line feeds. */
  function FrameParts(parts: seq<string>, closed: nat -> bool, index: nat): ReadResult
    requires |parts| >= 1
  {
    if |parts| == 1 then
      if |parts[0]| >= IrcMessageLength then ReadResult([], Disconnect("Message too long"), "")
      else ReadResult([], Continue, parts[0])
    else if |parts[0]| + 1 > IrcMessageLength then ReadResult([], Disconnect("Message too long"), "")
    else if closed(index) then ReadResult([StripCR(parts[0])], Closed, "")
    else Prepend([StripCR(parts[0])], FrameParts(parts[1..], closed, index + 1))
  }

  /** What one complete line of `piece` does to the read that follows it. */
  function AfterLine(piece: string, closed: nat -> bool, index: nat, next: ReadResult): ReadResult
  {
    if |piece| + 1 > IrcMessageLength then ReadResult([], Disconnect("Message too long"), "")
    else if closed(index) then ReadResult([StripCR(piece)], Closed, "")
    else Prepend([StripCR(piece)], next)
  }

  /** The first of several pieces is one line. */
  lemma FramePartsCons(piece: string, rest: seq<string>, closed: nat -> bool, index: nat)
    requires |rest| >= 1
    ensures FrameParts([piece] + rest, closed, index) == AfterLine(piece, closed, index, FrameParts(rest, closed, index + 1))
  {
    assert ([piece] + rest)[1..] == rest;
  }

  /** The line up to the first line feed after `start`. */
  lemma FrameFromLine(v: string, start: nat, lf: nat, closed: nat -> bool, index: nat)
    requires start <= lf < |v| && Find(v, '\n', start) == lf
    ensures FrameFrom(v, start, 0, closed, index) == AfterLine(v[start..lf], closed, index, FrameFrom(v, lf + 1, 0, closed, index + 1))
  {
    LineMessageIsStripped(v, start, lf);
  }

  lemma {:induction false} FrameFromIsFrameParts(v: string, start: nat, closed: nat -> bool, index: nat)
    requires start <= |v|
    ensures FrameFrom(v, start, 0, closed, index) == FrameParts(Split(v[start..], '\n'), closed, index)
    decreases |v| - start
  {
    var lf := Find(v, '\n', start);
    if lf < |v| {
      var rest := Split(v[lf + 1..], '\n');
      SplitAtLine(v, start, lf);
      FrameFromIsFrameParts(v, lf + 1, closed, index + 1);
      FrameFromLine(v, start, lf, closed, index);
      FramePartsCons(v[start..lf], rest, closed, index);
    } else {
      FrameFromLast(v, start, closed, index);
    }
  }

  /** No line feed after `start`: the rest is the unfinished line. */
  lemma FrameFromLast(v: string, start: nat, closed: nat -> bool, index: nat)
    requires start <= |v| && Find(v, '\n', start) == |v|
    ensures FrameFrom(v, start, 0, closed, index) == FrameParts(Split(v[start..], '\n'), closed, index)
  {
    SplitAtEnd(v, start);
  }

  /** The stream splits at each line feed and each line loses one carriage return;
      the pieces are short, and the last one is kept for the next read. */
  lemma {:induction false} FramePartsSplits(parts: seq<string>, closed: nat -> bool, index: nat)
    requires |parts| >= 1
    ensures var r := FrameParts(parts, closed, index);
            |r.delivered| <= |parts| - 1 &&
            r.delivered == Messages(parts)[..|r.delivered|] &&
            (r.outcome == Continue ==>
               |r.delivered| == |parts| - 1 && r.remainder == parts[|parts| - 1] &&
               forall i :: 0 <= i < |parts| ==> |parts[i]| < IrcMessageLength)
    decreases |parts|
  {
    if |parts| > 1 && |parts[0]| + 1 <= IrcMessageLength && !closed(index) {
      FramePartsSplits(parts[1..], closed, index + 1);
      assert Messages(parts) == [StripCR(parts[0])] + Messages(parts[1..]);
    }
  }

  /** What the corrected read delivers, stated on the whole stream. */
  lemma FrameSplits(remainder: string, chunk: string, closed: nat -> bool)
    ensures var r := Frame(remainder, chunk, closed);
            var parts := Split(remainder + CString(chunk), '\n');
            |r.delivered| <= |parts| - 1 &&
            r.delivered == Messages(parts)[..|r.delivered|] &&
            (r.outcome == Continue ==>
               r.delivered == Messages(parts) && r.remainder == parts[|parts| - 1] &&
               |r.remainder| < IrcMessageLength)
  {
    var parts := Split(remainder + CString(chunk), '\n');
    FrameOfText(remainder, chunk, closed);
    FramePartsSplits(parts, closed, 0);
    assert Messages(parts)[..|parts| - 1] == Messages(parts);
  }

  /** The lines before the k-th were delivered in full: what the read does is
      decided by the pieces from the k-th on. */
  lemma {:induction false} FramePartsAfter(parts: seq<string>, closed: nat -> bool, j: nat, k: nat)
    requires j <= k < |parts|
    requires forall i :: 0 <= i < k ==> |parts[i]| + 1 <= IrcMessageLength && !closed(i)
    ensures FrameParts(parts[j..], closed, j) == Prepend(Messages(parts)[j..k], FrameParts(parts[k..], closed, k))
    decreases k - j
  {
    if j == k {
      assert Messages(parts)[j..k] == [];
    } else {
      FramePartsAfter(parts, closed, j + 1, k);
      assert parts[j..][1..] == parts[j + 1..];
      assert FrameParts(parts[j..], closed, j) == Prepend([StripCR(parts[j])], FrameParts(parts[j + 1..], closed, j + 1));
      assert Messages(parts)[j..k] == [StripCR(parts[j])] + Messages(parts)[j + 1..k];
      PrependTwice([StripCR(parts[j])], Messages(parts)[j + 1..k], FrameParts(parts[k..], closed, k));
    }
  }

  /** The pieces after position `start` of `v` are the pieces of `v` from the k-th on. */
  ghost predicate SplitFrom(v: string, start: nat, parts: seq<string>, k: nat)
  {
    start <= |v| && k < |parts| && Split(v[start..], '\n') == parts[k..]
  }

  lemma SplitFromLine(v: string, start: nat, lf: nat, parts: seq<string>, k: nat)
    requires SplitFrom(v, start, parts, k)
    requires start <= lf < |v| && Find(v, '\n', start) == lf
    ensures k + 1 < |parts| && parts[k] == v[start..lf] && SplitFrom(v, lf + 1, parts, k + 1)
  {
    SplitAtLine(v, start, lf);
    assert parts[k..] == [v[start..lf]] + Split(v[lf + 1..], '\n');
    assert parts[k..][1..] == parts[k + 1..];
  }

  /** The lines before `start` were delivered whole: each is short enough and
      none of them closed the socket. */
  ghost predicate Scanned(v: string, start: nat, parts: seq<string>, delivered: seq<string>, closed: nat -> bool)
  {
    SplitFrom(v, start, parts, |delivered|) &&
    delivered == Messages(parts)[..|delivered|] &&
    forall i :: 0 <= i < |delivered| ==> |parts[i]| + 1 <= IrcMessageLength && !closed(i)
  }

  /** The lines delivered so far come first in the whole read. */
  lemma ScannedPrefix(v: string, start: nat, parts: seq<string>, delivered: seq<string>, closed: nat -> bool)
    requires Scanned(v, start, parts, delivered, closed)
    ensures FrameParts(parts, closed, 0) == Prepend(delivered, FrameParts(parts[|delivered|..], closed, |delivered|))
  {
    var k := |delivered|;
    FramePartsAfter(parts, closed, 0, k);
    assert parts[0..] == parts;
    assert Messages(parts)[0..k] == Messages(parts)[..k];
  }

  /** The scan met a line ending at `p` (CR LF when `width` is 2, a bare LF
      when it is 1): the message is the text before `p`, which is the line
      without its carriage return. */
  lemma LineText(v: string, start: nat, p: nat, width: nat)
    requires start <= p && (width == 1 || width == 2) && p + width <= |v|
    requires width == 2 ==> v[p] == '\r'
    requires width == 1 ==> (p > start ==> v[p - 1] != '\r')
    ensures v[start..p] == StripCR(v[start..p + width - 1])
  {
    if width == 2 {
      assert v[start..p + 1][..p - start] == v[start..p];
    }
  }

  /** The line ending at the line feed `lf` is the next piece. */
  lemma LineStep(v: string, start: nat, lf: nat, parts: seq<string>, k: nat)
    requires SplitFrom(v, start, parts, k)
    requires start <= lf < |v| && v[lf] == '\n'
    requires forall q :: start <= q < lf ==> v[q] != '\n'
    ensures k + 1 < |parts| && parts[k] == v[start..lf]
    ensures SplitFrom(v, lf + 1, parts, k + 1)
  {
    FindUnique(v, '\n', start, lf);
    SplitFromLine(v, start, lf, parts, k);
  }

  /** A line too long ends the read before it is handed on. */
  lemma LineTooLong(parts: seq<string>, delivered: seq<string>, closed: nat -> bool)
    requires |delivered| + 1 < |parts| && |parts[|delivered|]| + 1 > IrcMessageLength
    requires FrameParts(parts, closed, 0) == Prepend(delivered, FrameParts(parts[|delivered|..], closed, |delivered|))
    ensures FrameParts(parts, closed, 0) == ReadResult(delivered, Disconnect("Message too long"), "")
  {
  }

  /** A line that closes the socket is the last one handed on. */
  lemma LineCloses(parts: seq<string>, delivered: seq<string>, closed: nat -> bool)
    requires |delivered| + 1 < |parts| && |parts[|delivered|]| + 1 <= IrcMessageLength && closed(|delivered|)
    requires FrameParts(parts, closed, 0) == Prepend(delivered, FrameParts(parts[|delivered|..], closed, |delivered|))
    ensures FrameParts(parts, closed, 0) == ReadResult(delivered + [StripCR(parts[|delivered|])], Closed, "")
  {
  }

  /** Any other line is handed on and the scan goes on after it. */
  lemma LineNext(v: string, start: nat, next: nat, parts: seq<string>, delivered: seq<string>, m: string, closed: nat -> bool)
    requires Scanned(v, start, parts, delivered, closed)
    requires |delivered| + 1 < |parts| && SplitFrom(v, next, parts, |delivered| + 1)
    requires |parts[|delivered|]| + 1 <= IrcMessageLength && !closed(|delivered|)
    requires m == StripCR(parts[|delivered|])
    ensures Scanned(v, next, parts, delivered + [m], closed)
  {
    assert Messages(parts)[..|delivered| + 1] == Messages(parts)[..|delivered|] + [StripCR(parts[|delivered|])];
  }

  /** The scan reached the NUL with `start` at the unfinished k-th line. */
  lemma LastStep(v: string, start: nat, parts: seq<string>, delivered: seq<string>, closed: nat -> bool)
    requires Scanned(v, start, parts, delivered, closed)
    requires forall j :: start <= j < |v| ==> v[j] != '\n'
    ensures FrameParts(parts, closed, 0) == LastLine(delivered, v[start..])
  {
    var k := |delivered|;
    FindAbsent(v, '\n', start);
    SplitFromLast(v, start, parts, k);
    FramePartsAfter(parts, closed, 0, k);
    assert parts[0..] == parts;
    assert Messages(parts)[0..k] == Messages(parts)[..k];
    assert parts[k..] == [v[start..]];
  }

  /** The read after the lines `delivered` when the unfinished line `rest` is
      left: it is kept unless it already fills a message. */
  function LastLine(delivered: seq<string>, rest: string): ReadResult
  {
    if |rest| >= IrcMessageLength then ReadResult(delivered, Disconnect("Message too long"), "")
    else ReadResult(delivered, Continue, rest)
  }

  lemma SplitFromLast(v: string, start: nat, parts: seq<string>, k: nat)
    requires SplitFrom(v, start, parts, k)
    requires Find(v, '\n', start) == |v|
    ensures k == |parts| - 1 && parts[k] == v[start..]
  {
    SplitAtEnd(v, start);
    assert parts[k..] == [v[start..]];
  }

  function Framed(messages: seq<string>): (r: seq<string>)
    ensures |r| == |messages|
    ensures forall i :: 0 <= i < |r| ==> r[i] == messages[i] + "\r\n"
  {
    seq(|messages|, i requires 0 <= i < |messages| => messages[i] + "\r\n")
  }

  /** The line begun at `start` ends at `p` with a line ending of `width`
      characters: CR LF when `width` is 2, a bare LF, not preceded by a
      carriage return of the line, when it is 1. */
  ghost predicate EndsLine(v: string, start: nat, p: nat, width: nat)
  {
    start <= p && (width == 1 || width == 2) && p + width <= |v| &&
    (forall q :: start <= q < p ==> v[q] != '\n') &&
    (width == 2 ==> v[p] == '\r' && v[p + 1] == '\n') &&
    (width == 1 ==> v[p] == '\n' && (p > start ==> v[p - 1] != '\r'))
  }

  /** The scan met a line ending of `width` characters at `p` (CR LF when
      `width` is 2, a bare LF otherwise) that ends the k-th line: the message is
      the text before `p`, and the line ends the read when it is too long or
      when handling it closes the socket. */
  lemma EndOfLine(v: string, start: nat, p: nat, width: nat, parts: seq<string>, delivered: seq<string>, closed: nat -> bool)
    requires Scanned(v, start, parts, delivered, closed) && EndsLine(v, start, p, width)
    ensures p + width - start > IrcMessageLength ==>
              FrameParts(parts, closed, 0) == ReadResult(delivered, Disconnect("Message too long"), "")
    ensures p + width - start <= IrcMessageLength && closed(|delivered|) ==>
              FrameParts(parts, closed, 0) == ReadResult(delivered + [v[start..p]], Closed, "")
    ensures p + width - start <= IrcMessageLength && !closed(|delivered|) ==>
              Scanned(v, p + width, parts, delivered + [v[start..p]], closed)
  {
    var lf := p + width - 1;
    LineShape(v, start, p, width);
    if p + width - start > IrcMessageLength {
      EndTooLong(v, start, lf, parts, delivered, closed);
    } else if closed(|delivered|) {
      EndCloses(v, start, lf, v[start..p], parts, delivered, closed);
    } else {
      EndNext(v, start, lf, v[start..p], parts, delivered, closed);
    }
  }

  /** A line ending of `width` characters at `p` puts the line feed at
      p + width - 1, the first after `start`, and leaves the text before `p`
      as the line without its carriage return. */
  lemma LineShape(v: string, start: nat, p: nat, width: nat)
    requires EndsLine(v, start, p, width)
    ensures LineAt(v, start, p + width - 1)
    ensures v[start..p] == StripCR(v[start..p + width - 1])
  {
    LineText(v, start, p, width);
  }

  /** `lf` holds the first line feed after `start`. */
  ghost predicate LineAt(v: string, start: nat, lf: nat)
  {
    start <= lf < |v| && v[lf] == '\n' && forall q :: start <= q < lf ==> v[q] != '\n'
  }

  lemma EndTooLong(v: string, start: nat, lf: nat, parts: seq<string>, delivered: seq<string>, closed: nat -> bool)
    requires Scanned(v, start, parts, delivered, closed) && LineAt(v, start, lf)
    requires lf + 1 - start > IrcMessageLength
    ensures FrameParts(parts, closed, 0) == ReadResult(delivered, Disconnect("Message too long"), "")
  {
    LineStep(v, start, lf, parts, |delivered|);
    ScannedPrefix(v, start, parts, delivered, closed);
    LineTooLong(parts, delivered, closed);
  }

  lemma EndCloses(v: string, start: nat, lf: nat, m: string, parts: seq<string>, delivered: seq<string>, closed: nat -> bool)
    requires Scanned(v, start, parts, delivered, closed) && LineAt(v, start, lf)
    requires m == StripCR(v[start..lf])
    requires lf + 1 - start <= IrcMessageLength && closed(|delivered|)
    ensures FrameParts(parts, closed, 0) == ReadResult(delivered + [m], Closed, "")
  {
    LineStep(v, start, lf, parts, |delivered|);
    ScannedPrefix(v, start, parts, delivered, closed);
    LineCloses(parts, delivered, closed);
  }

  lemma EndNext(v: string, start: nat, lf: nat, m: string, parts: seq<string>, delivered: seq<string>, closed: nat -> bool)
    requires Scanned(v, start, parts, delivered, closed) && LineAt(v, start, lf)
    requires m == StripCR(v[start..lf])
    requires lf + 1 - start <= IrcMessageLength && !closed(|delivered|)
    ensures Scanned(v, lf + 1, parts, delivered + [m], closed)
  {
    LineStep(v, start, lf, parts, |delivered|);
    LineNext(v, start, lf + 1, parts, delivered, m, closed);
  }

  lemma SliceOf(a: array<char>, v: string, start: nat, end: nat)
    requires start <= end <= a.Length && end <= |v|
    requires forall q :: start <= q < end ==> a[q] == v[q]
    ensures a[start..end] == v[start..end]
  {
  }

  /** The text the scan works on: the remainder and the new characters up to
      the first NUL, followed by a NUL. */
  lemma Loaded(a: array<char>, rem: string, chunk: string)
    requires |rem| + |chunk| < a.Length
    requires a[..|rem| + |chunk| + 1] == rem + chunk + ['\0']
    requires '\0' !in rem
    ensures var v := rem + CString(chunk);
            |v| < a.Length && a[|v|] == '\0' &&
            forall q :: 0 <= q < |v| ==> a[q] == v[q] && v[q] != '\0'
  {
    var v := rem + CString(chunk);
    var n := Find(chunk, '\0', 0);
    assert CString(chunk) == chunk[..n];
    forall q | 0 <= q < |v| ensures a[q] == v[q] && v[q] != '\0' {
      assert a[..|rem| + |chunk| + 1][q] == a[q];
      if q >= |rem| {
        assert v[q] == chunk[q - |rem|];
      }
    }
    assert a[..|rem| + |chunk| + 1][|rem| + n] == a[|rem| + n];
  }

  /** The unfinished line moved to the front holds no line feed and no NUL. */
  lemma Kept(a: array<char>, v: string, start: nat)
    requires start <= |v| <= a.Length && a[..|v| - start] == v[start..]
    requires forall q :: start <= q < |v| ==> v[q] != '\n' && v[q] != '\0'
    ensures forall i :: 0 <= i < |v| - start ==> a[i] != '\n' && a[i] != '\0'
  {
    forall i | 0 <= i < |v| - start ensures a[i] != '\n' && a[i] != '\0' {
      assert a[..|v| - start][i] == v[start + i];
    }
  }

  /** The corrected read stated on the pieces of the text. */
  lemma FrameOfText(rem: string, chunk: string, closed: nat -> bool)
    ensures Frame(rem, chunk, closed) == FrameParts(Split(rem + CString(chunk), '\n'), closed, 0)
  {
    var v := rem + CString(chunk);
    assert v[0..] == v;
    FrameFromIsFrameParts(v, 0, closed, 0);
  }

  /** Where the scan of `v` stands: no line feed lies between the start of the
      current line and `p`, and the lines before it were delivered. */
  ghost predicate Scanning(v: string, parts: seq<string>, closed: nat -> bool, msgStart: nat, p: nat, delivered: seq<string>)
  {
    msgStart <= p <= |v| &&
    (forall q :: msgStart <= q < p ==> v[q] != '\n') &&
    (p > msgStart && p < |v| ==> !(v[p - 1] == '\r' && v[p] == '\n')) &&
    Scanned(v, msgStart, parts, delivered, closed)
  }

  /** What the scan sees at position `p`: a CR LF (`width` 2), a bare LF
      (`width` 1), or no line ending (`width` 0). */
  predicate LineEnding(v: string, p: nat, width: nat)
    requires p < |v|
  {
    width <= 2 &&
    (width == 2 <==> v[p] == '\r' && p + 1 < |v| && v[p + 1] == '\n') &&
    (width == 1 <==> v[p] == '\n')
  }

  /** A line ending met by the scan ends the line begun at `msgStart`. */
  lemma ScanningEnds(v: string, parts: seq<string>, closed: nat -> bool, msgStart: nat, p: nat, delivered: seq<string>, width: nat)
    requires Scanning(v, parts, closed, msgStart, p, delivered) && p < |v|
    requires LineEnding(v, p, width) && width > 0
    ensures EndsLine(v, msgStart, p, width) && Scanned(v, msgStart, parts, delivered, closed)
  {
  }

  /** Scanning passes a character that ends no line. */
  lemma ScanningAdvance(v: string, parts: seq<string>, closed: nat -> bool, msgStart: nat, p: nat, delivered: seq<string>)
    requires Scanning(v, parts, closed, msgStart, p, delivered) && p < |v|
    requires LineEnding(v, p, 0)
    ensures Scanning(v, parts, closed, msgStart, p + 1, delivered)
  {
  }

  /** Scanning starts a new message right after a line ending. */
  lemma ScanningRestart(v: string, parts: seq<string>, closed: nat -> bool, start: nat, delivered: seq<string>)
    requires start <= |v| && Scanned(v, start, parts, delivered, closed)
    ensures Scanning(v, parts, closed, start, start, delivered)
  {
  }

  class NetworkClient {
    const inputBuffer: array<char>
    /** m_InputBufferPointer - m_InputBuffer: the length of the kept remainder. */
    var inputBufferPointer: nat
    var sendQueue: seq<string>
    var sendBuffer: string
    var sendBufferSize: nat
    /** Every buffer handed to the socket's asynchronous write, in order. */
    var written: seq<string>
    /** Every line given to SendIRCMessage, in order. */
    ghost var history: seq<string>

    /** The remainder holds no line feed and no NUL; the lines go out in the order
        they were sent, each followed by CR LF; the queue waits only while a write
        is in progress. */
    ghost predicate Valid()
      reads this, inputBuffer
    {
      inputBuffer.Length == InputBufferSize &&
      inputBufferPointer < IrcMessageLength &&
      (forall i :: 0 <= i < inputBufferPointer ==> inputBuffer[i] != '\n' && inputBuffer[i] != '\0') &&
      QueueValid() &&
      (sendQueue != [] ==> sendBufferSize > 0)
    }

    ghost predicate QueueValid()
      reads this
    {
      written + sendQueue == Framed(history) &&
      (sendBufferSize > 0 ==> sendBufferSize == |sendBuffer| && written != [] && sendBuffer == written[|written| - 1])
    }

    ghost function Remainder(): string
      reads this, inputBuffer
      requires Valid()
    {
      inputBuffer[..inputBufferPointer]
    }

    constructor ()
      ensures Valid() && fresh(inputBuffer)
      ensures inputBufferPointer == 0 && sendQueue == [] && sendBufferSize == 0
      ensures written == [] && history == []
    {
      inputBuffer := new char[InputBufferSize];
      inputBufferPointer := 0;
      sendQueue := [];
      sendBuffer := "";
      sendBufferSize := 0;
      written := [];
      history := [];
    }

    /** _HandleNewData after a read of `chunk` into the buffer behind the
        remainder (the read asks for at most InputBufferSize - 1 - remainder
        characters). The scan for line endings starts one character before the
        new data, so that a CR LF split across two reads is recognised. */
    method HandleNewData(error: Option<string>, chunk: string, closed: nat -> bool)
      returns (delivered: seq<string>, outcome: Outcome)
      requires Valid()
      requires |chunk| <= InputBufferSize - 1 - inputBufferPointer
      modifies inputBuffer, this`inputBufferPointer
      ensures error.Some? ==> delivered == [] && outcome == Disconnect(error.value)
      ensures error.Some? ==> inputBufferPointer == old(inputBufferPointer) && unchanged(inputBuffer)
      ensures error.None? ==>
                var r := Frame(old(Remainder()), chunk, closed);
                delivered == r.delivered && outcome == r.outcome &&
                (outcome == Continue ==> Valid() && Remainder() == r.remainder)
    {
      if error.Some? {
        return [], Disconnect(error.value);
      }
      ghost var rem := Remainder();
      var ptr := inputBufferPointer;
      Read(chunk);
      ghost var v := rem + CString(chunk);
      Loaded(inputBuffer, rem, chunk);
      FrameOfText(rem, chunk, closed);
      var msgStart, p;
      delivered, outcome, msgStart, p := ScanLines(v, ptr, closed);
      if outcome != Continue {
        return;
      }
      if p - msgStart >= IrcMessageLength {
        return delivered, Disconnect("Message too long");
      }
      KeepRemainder(v, msgStart, p);
    }

    /** The asynchronous read: the new characters land behind the remainder and a
        NUL follows them. */
    method Read(chunk: string)
      requires inputBuffer.Length == InputBufferSize
      requires inputBufferPointer + |chunk| < InputBufferSize
      modifies inputBuffer
      ensures inputBuffer[..inputBufferPointer + |chunk| + 1] == old(inputBuffer[..inputBufferPointer]) + chunk + ['\0']
    {
      var ptr := inputBufferPointer;
      for i := 0 to |chunk|
        invariant forall j :: 0 <= j < ptr ==> inputBuffer[j] == old(inputBuffer[j])
        invariant forall j :: 0 <= j < i ==> inputBuffer[ptr + j] == chunk[j]
      {
        inputBuffer[ptr + i] := chunk[i];
      }
      inputBuffer[ptr + |chunk|] := '\0';
    }

    /** The buffer holds `v` from `from` on, followed by a NUL. */
    ghost predicate Buffered(v: string, from: nat)
      reads inputBuffer
    {
      inputBuffer.Length == InputBufferSize && |v| < InputBufferSize && from <= |v| &&
      (forall q :: from <= q < |v| ==> inputBuffer[q] == v[q] && v[q] != '\0') &&
      inputBuffer[|v|] == '\0'
    }

    /** The loop of _HandleNewData over the NUL-terminated text `v` in the buffer,
        of which the first `ptr` characters are the remainder. */
    method ScanLines(ghost v: string, ptr: nat, closed: nat -> bool)
      returns (delivered: seq<string>, outcome: Outcome, msgStart: nat, p: nat)
      requires inputBuffer.Length == InputBufferSize && |v| < InputBufferSize
      requires forall q :: 0 <= q < |v| ==> inputBuffer[q] == v[q] && v[q] != '\0'
      requires inputBuffer[|v|] == '\0'
      requires ptr <= |v| && forall q :: 0 <= q < ptr ==> v[q] != '\n'
      modifies inputBuffer
      ensures outcome != Continue ==> FrameParts(Split(v, '\n'), closed, 0) == ReadResult(delivered, outcome, "")
      ensures outcome == Continue ==>
                msgStart <= p == |v| &&
                (forall q :: msgStart <= q < |v| ==> inputBuffer[q] == v[q] && v[q] != '\n' && v[q] != '\0') &&
                FrameParts(Split(v, '\n'), closed, 0) == LastLine(delivered, v[msgStart..])
    {
      ghost var parts := Split(v, '\n');
      assert v[0..] == v;
      msgStart := 0;
      p := if ptr > 0 then ptr - 1 else 0;
      delivered := [];
      outcome := Continue;
      assert Buffered(v, msgStart) && Scanning(v, parts, closed, msgStart, p, delivered);
      while inputBuffer[p] != '\0'
        invariant outcome == Continue && Buffered(v, msgStart) && Scanning(v, parts, closed, msgStart, p, delivered)
        decreases |v| - p
      {
        delivered, outcome, msgStart, p := ScanStep(v, parts, closed, msgStart, p, delivered);
        if outcome != Continue {
          return;
        }
      }
      assert p == |v|;
      LastStep(v, msgStart, parts, delivered, closed);
    }

    /** One pass of the loop body: the character at `p` is looked at, and a line
        ending there is handed on, or ends the read. */
    method ScanStep(ghost v: string, ghost parts: seq<string>, closed: nat -> bool, msgStart: nat, p: nat, delivered: seq<string>)
      returns (delivered': seq<string>, outcome: Outcome, msgStart': nat, p': nat)
      requires Buffered(v, msgStart) && Scanning(v, parts, closed, msgStart, p, delivered)
      requires inputBuffer[p] != '\0'
      modifies inputBuffer
      ensures outcome != Continue ==> FrameParts(parts, closed, 0) == ReadResult(delivered', outcome, "")
      ensures outcome == Continue ==> p < p' && Buffered(v, msgStart') && Scanning(v, parts, closed, msgStart', p', delivered')
    {
      var lineEndingLength := LineEndingAt(v, p);
      if lineEndingLength > 0 {
        ScanningEnds(v, parts, closed, msgStart, p, delivered, lineEndingLength);
        EndOfLine(v, msgStart, p, lineEndingLength, parts, delivered, closed);
        delivered', outcome, msgStart' := EndLine(v, closed, msgStart, p, lineEndingLength, delivered);
        p' := p + lineEndingLength;
        if outcome == Continue {
          ScanningRestart(v, parts, closed, p', delivered');
        }
      } else {
        ScanningAdvance(v, parts, closed, msgStart, p, delivered);
        delivered', outcome, msgStart', p' := delivered, Continue, msgStart, p + 1;
      }
    }

    /** The length of the line ending at `p`: 2 for CR LF, 1 for a bare LF
        (an LF right after a CR is found one step earlier), 0 for none. */
    method LineEndingAt(ghost v: string, p: nat) returns (width: nat)
      requires Buffered(v, p) && p < |v|
      ensures LineEnding(v, p, width)
    {
      width := 0;
      if inputBuffer[p] == '\r' && inputBuffer[p + 1] == '\n' {
        width := 2;
      } else if inputBuffer[p] == '\n' {
        width := 1;
      }
    }

    /** A line ending of `width` characters at `p` ends the current line: it is
        handed on unless it is too long, and the scan goes on after it unless
        handling it closed the socket. */
    method EndLine(ghost v: string, closed: nat -> bool, msgStart: nat, p: nat, width: nat, delivered: seq<string>)
      returns (delivered': seq<string>, outcome: Outcome, msgStart': nat)
      requires Buffered(v, msgStart)
      requires msgStart <= p && (width == 1 || width == 2) && p + width <= |v|
      modifies inputBuffer
      ensures p + width - msgStart > IrcMessageLength ==>
                outcome == Disconnect("Message too long") && delivered' == delivered
      ensures p + width - msgStart <= IrcMessageLength ==>
                delivered' == delivered + [v[msgStart..p]] &&
                (closed(|delivered|) ==> outcome == Closed) &&
                (!closed(|delivered|) ==> outcome == Continue)
      ensures outcome == Continue ==> msgStart' == p + width && Buffered(v, msgStart')
    {
      if p - msgStart + width > IrcMessageLength {
        return delivered, Disconnect("Message too long"), msgStart;
      }
      inputBuffer[p] := '\0';
      SliceOf(inputBuffer, v, msgStart, p);
      var message := inputBuffer[msgStart..p];
      delivered' := delivered + [message];
      if closed(|delivered'| - 1) {
        return delivered', Closed, msgStart;
      }
      msgStart' := p + width;
      outcome := Continue;
    }

    /** The memcpy of the unfinished line to the front of the buffer, which
        becomes the remainder for the next read. */
    method KeepRemainder(ghost v: string, msgStart: nat, end: nat)
      requires end == |v| && msgStart <= |v| && |v| - msgStart < IrcMessageLength
      requires inputBuffer.Length == InputBufferSize && |v| < InputBufferSize
      requires forall q :: msgStart <= q < |v| ==> inputBuffer[q] == v[q] && v[q] != '\n' && v[q] != '\0'
      requires QueueValid() && (sendQueue != [] ==> sendBufferSize > 0)
      modifies inputBuffer, this`inputBufferPointer
      ensures Valid() && Remainder() == v[msgStart..]
    {
      for i := 0 to end - msgStart
        invariant forall j :: 0 <= j < i ==> inputBuffer[j] == v[msgStart + j]
        invariant forall q :: msgStart + i <= q < |v| ==> inputBuffer[q] == v[q]
      {
        inputBuffer[i] := inputBuffer[msgStart + i];
      }
      inputBufferPointer := end - msgStart;
      assert inputBuffer[..inputBufferPointer] == v[msgStart..];
      Kept(inputBuffer, v, msgStart);
    }

    /** _ProcessSendQueue: when no write is in progress, the first queued line is
        moved into the send buffer and written. */
    method ProcessSendQueue()
      requires QueueValid()
      modifies this`sendQueue, this`sendBuffer, this`sendBufferSize, this`written
      ensures QueueValid()
      ensures old(sendQueue) != [] && old(sendBufferSize) == 0 ==>
                written == old(written) + [old(sendQueue)[0]] && sendQueue == old(sendQueue)[1..] &&
                sendBufferSize > 0
      ensures !(old(sendQueue) != [] && old(sendBufferSize) == 0) ==>
                written == old(written) && sendQueue == old(sendQueue) &&
                sendBufferSize == old(sendBufferSize) && sendBuffer == old(sendBuffer)
    {
      if sendQueue != [] && sendBufferSize == 0 {
        var front := sendQueue[0];
        assert front == Framed(history)[|written|];
        sendBufferSize := |front|;
        sendBuffer := front;
        sendQueue := sendQueue[1..];
        written := written + [sendBuffer];
      }
    }

    /** SendIRCMessage: the line and CR LF are queued, and written at once when
        the socket is idle. */
    method SendIRCMessage(message: string)
      requires Valid()
      modifies this`sendQueue, this`sendBuffer, this`sendBufferSize, this`written, this`history
      ensures Valid()
      ensures history == old(history) + [message]
      ensures old(sendBufferSize) == 0 ==>
                written == old(written) + [message + "\r\n"] && sendQueue == []
      ensures old(sendBufferSize) > 0 ==>
                written == old(written) && sendQueue == old(sendQueue) + [message + "\r\n"] &&
                sendBufferSize == old(sendBufferSize)
    {
      history := history + [message];
      sendQueue := sendQueue + [message + "\r\n"];
      assert written + sendQueue == Framed(history);
      ProcessSendQueue();
    }

    /** _HandleSend: a failed write ends the connection; a finished one frees the
        send buffer for the next queued line. */
    method HandleSend(error: Option<string>) returns (outcome: Outcome)
      requires Valid()
      modifies this`sendQueue, this`sendBuffer, this`sendBufferSize, this`written
      ensures error.Some? ==> outcome == Disconnect(error.value) && unchanged(this)
      ensures error.None? ==> outcome == Continue && Valid()
      ensures error.None? && old(sendQueue) != [] ==>
                written == old(written) + [old(sendQueue)[0]] && sendQueue == old(sendQueue)[1..]
      ensures error.None? && old(sendQueue) == [] ==>
                written == old(written) && sendQueue == [] && sendBufferSize == 0
    {
      if error.Some? {
        return Disconnect(error.value);
      }
      sendBufferSize := 0;
      ProcessSendQueue();
      outcome := Continue;
    }
  }
}
