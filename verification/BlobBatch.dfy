/** The answer of `git cat-file --batch` as `scripts/release_gate.py` reads it back: one frame for
    every requested blob, in order, and nothing else. */
module BlobBatch {
  import opened Options
  import opened Decimals
  import opened Encoding

  const NEWLINE: byte := 10
  const SPACE: byte := 32
  const PLUS: byte := 43
  const MINUS: byte := 45
  const UNDERSCORE: byte := 95

  /** "blob". */
  const BLOB: Bytes := [98, 108, 111, 98]

  datatype Problem = Truncated | MalformedHeader | WrongIdentity | WrongDelimiter | TrailingData

  datatype Result = Blobs(blobs: seq<Bytes>) | Refused(problem: Problem)

  // ── Integers as Python reads them ───────────────────────────────────────────

  predicate IsDigit(b: byte) {
    48 <= b <= 57
  }

  /** ASCII white space that `int` strips. */
  predicate IsBlank(b: byte) {
    b == SPACE || 9 <= b <= 13
  }

  function LeftStripped(t: Bytes): Bytes {
    if |t| > 0 && IsBlank(t[0]) then LeftStripped(t[1..]) else t
  }

  function RightStripped(t: Bytes): Bytes {
    if |t| > 0 && IsBlank(t[|t| - 1]) then RightStripped(t[..|t| - 1]) else t
  }

  /** Digits, with at most one underscore between two of them. */
  function Grouped(t: Bytes): Option<nat> {
    var n := |t| - 1;
    if n < 0 || !IsDigit(t[n]) then None
    else if n == 0 then Some((t[n] - 48) as nat)
    else
      var before := Grouped(if t[n - 1] == UNDERSCORE then t[..n - 1] else t[..n]);
      if before.None? then None else Some(before.value * 10 + (t[n] - 48) as nat)
  }

  /** `int` of an ASCII text: white space around it, a sign, leading zeros and underscores allowed. */
  function PythonInt(t: Bytes): Option<int> {
    var text := RightStripped(LeftStripped(t));
    if |text| > 0 && (text[0] == PLUS || text[0] == MINUS) then
      var size := Grouped(text[1..]);
      if size.None? then None
      else
        var n: int := size.value;
        Some(if text[0] == MINUS then -n else n)
    else
      var size := Grouped(text);
      if size.None? then None else Some(size.value)
  }

  lemma {:induction false} GroupedReadsDigits(t: Bytes, d: seq<nat>)
    requires |t| == |d| > 0 && forall k :: 0 <= k < |t| ==> d[k] < 10 && t[k] == 48 + d[k] as byte
    ensures Grouped(t) == Some(Value(d))
  {
    var n := |t| - 1;
    if n > 0 {
      GroupedReadsDigits(t[..n], d[..n]);
    } else {
      assert Value(d[..0]) == 0;
    }
  }

  /** A decimal numeral is read back as its number. */
  lemma NumeralsRoundTrip(n: nat)
    ensures PythonInt(Numeral(n)) == Some(n)
  {
    var t := Numeral(n);
    assert LeftStripped(t) == t && RightStripped(t) == t;
    GroupedReadsDigits(t, Digits(n));
    DigitsHaveValue(n);
  }

  /** Other texts are read as the number too: " +0_5" and a tab as 5. */
  lemma SizesAreLenient()
    ensures PythonInt([PLUS, 48, UNDERSCORE, 53, 9]) == Some(5)
  {
    var t: Bytes := [PLUS, 48, UNDERSCORE, 53];
    assert LeftStripped(t + [9]) == t + [9];
    assert RightStripped(t) == t && (t + [9])[..4] == t;
    assert RightStripped(t + [9]) == t;
    var u: Bytes := [48, UNDERSCORE, 53];
    assert t[1..] == u && u[..1] == [48];
    assert Grouped([48]) == Some(0) && Grouped(u) == Some(5);
    assert t + [9] == [PLUS, 48, UNDERSCORE, 53, 9];
  }

  // ── Reading one frame ───────────────────────────────────────────────────────

  /** The first place of a mark, or the length when there is none. */
  function Find(s: Bytes, mark: byte): (k: nat)
    ensures k <= |s| && (k < |s| ==> s[k] == mark) && forall i :: 0 <= i < k ==> s[i] != mark
  {
    if |s| == 0 || s[0] == mark then 0 else Find(s[1..], mark) + 1
  }

  /** The pieces between the marks. */
  function Split(s: Bytes, mark: byte): (pieces: seq<Bytes>)
    ensures |pieces| > 0
  {
    var k := Find(s, mark);
    if k == |s| then [s] else [s[..k]] + Split(s[k + 1..], mark)
  }

  lemma MarkIsFound(a: Bytes, mark: byte, rest: Bytes)
    requires mark !in a
    ensures Find(a + [mark] + rest, mark) == |a|
    ensures (a + [mark] + rest)[..|a|] == a && (a + [mark] + rest)[|a| + 1..] == rest
  {
    FieldEnds(mark, a, rest, a + [mark] + rest);
  }

  lemma SplitStep(a: Bytes, mark: byte, rest: Bytes)
    requires mark !in a
    ensures Split(a + [mark] + rest, mark) == [a] + Split(rest, mark)
  {
    MarkIsFound(a, mark, rest);
  }

  lemma SplitLast(a: Bytes, mark: byte)
    requires mark !in a
    ensures Split(a, mark) == [a]
  {
    forall i | 0 <= i < |a| ensures a[i] != mark {
      assert a[i] in a;
    }
  }

  function ThreeFields(a: Bytes, b: Bytes, c: Bytes): Bytes {
    a + [SPACE] + (b + [SPACE] + c)
  }

  /** A header of three fields splits into them, and only such a header splits into three pieces. */
  lemma HeaderSplitsIff(header: Bytes, a: Bytes, b: Bytes, c: Bytes)
    ensures Split(header, SPACE) == [a, b, c]
            <==> SPACE !in a && SPACE !in b && SPACE !in c && header == ThreeFields(a, b, c)
  {
    if SPACE !in a && SPACE !in b && SPACE !in c && header == ThreeFields(a, b, c) {
      FieldsSplit(a, b, c);
    }
    if Split(header, SPACE) == [a, b, c] {
      SplitIsFields(header, a, b, c);
    }
  }

  lemma FieldsSplit(a: Bytes, b: Bytes, c: Bytes)
    requires SPACE !in a && SPACE !in b && SPACE !in c
    ensures Split(ThreeFields(a, b, c), SPACE) == [a, b, c]
  {
    SplitStep(a, SPACE, b + [SPACE] + c);
    SplitStep(b, SPACE, c);
    SplitLast(c, SPACE);
  }

  lemma SplitIsFields(header: Bytes, a: Bytes, b: Bytes, c: Bytes)
    requires Split(header, SPACE) == [a, b, c]
    ensures SPACE !in a && SPACE !in b && SPACE !in c && header == ThreeFields(a, b, c)
  {
    FirstPiece(header, [b, c]);
    var rest := header[|a| + 1..];
    FirstPiece(rest, [c]);
    OnePiece(rest[|b| + 1..]);
  }

  lemma FirstPiece(s: Bytes, others: seq<Bytes>)
    requires |others| > 0 && Split(s, SPACE)[1..] == others
    ensures var a := Split(s, SPACE)[0];
            |a| < |s| && SPACE !in a && s == a + [SPACE] + s[|a| + 1..] && Split(s[|a| + 1..], SPACE) == others
  {
    var k := Find(s, SPACE);
    assert k < |s|;
    assert s == s[..k] + [SPACE] + s[k + 1..];
    assert ([s[..k]] + Split(s[k + 1..], SPACE))[1..] == Split(s[k + 1..], SPACE);
  }

  lemma OnePiece(s: Bytes)
    requires |Split(s, SPACE)| == 1
    ensures Split(s, SPACE) == [s] && SPACE !in s
  {
    assert Find(s, SPACE) == |s|;
  }

  predicate IsAscii(s: Bytes) {
    forall k :: 0 <= k < |s| ==> s[k] < 128
  }

  /** A frame read, and how many bytes it took; or what is wrong with it. */
  datatype Frame = Frame(blob: Bytes, length: nat) | BadFrame(problem: Problem)

  function ReadFrame(oid: Bytes, rest: Bytes): Frame {
    var newline := Find(rest, NEWLINE);
    if newline == |rest| then BadFrame(Truncated)
    else
      var pieces := Split(rest[..newline], SPACE);
      if !IsAscii(rest[..newline]) || |pieces| != 3 then BadFrame(MalformedHeader)
      else
        var size := PythonInt(pieces[2]);
        if size.None? then BadFrame(MalformedHeader)
        else
          var end := newline + 1 + size.value;
          if pieces[0] != oid || pieces[1] != BLOB || size.value < 0 || end >= |rest| then BadFrame(WrongIdentity)
          else if rest[end] != NEWLINE then BadFrame(WrongDelimiter)
          else Frame(rest[newline + 1..end], end + 1)
  }

  /** The frames of the requested blobs, one after the other, and nothing after them. */
  function Read(requested: seq<Bytes>, rest: Bytes): Result {
    if |requested| == 0 then
      if |rest| == 0 then Blobs([]) else Refused(TrailingData)
    else
      var first := ReadFrame(requested[0], rest);
      if first.BadFrame? then Refused(first.problem)
      else
        FrameWithin(requested[0], rest);
        var others := Read(requested[1..], rest[first.length..]);
        if others.Refused? then others else Blobs([first.blob] + others.blobs)
  }

  lemma FrameWithin(oid: Bytes, rest: Bytes)
    requires ReadFrame(oid, rest).Frame?
    ensures ReadFrame(oid, rest).length <= |rest|
  {
  }

  // ── What a frame is ─────────────────────────────────────────────────────────

  function FrameBytes(oid: Bytes, size: Bytes, blob: Bytes): Bytes {
    ThreeFields(oid, BLOB, size) + [NEWLINE] + (blob + [NEWLINE])
  }

  /** A field of a header. */
  predicate IsField(s: Bytes) {
    IsAscii(s) && SPACE !in s && NEWLINE !in s
  }

  /** A text that is read as a size. */
  predicate IsSize(size: Bytes, n: nat) {
    IsField(size) && PythonInt(size) == Some(n)
  }

  ghost predicate IsFrame(oid: Bytes, blob: Bytes, length: nat, rest: Bytes, size: Bytes) {
    && IsField(oid) && IsSize(size, |blob|)
    && length == |FrameBytes(oid, size, blob)| <= |rest|
    && rest[..length] == FrameBytes(oid, size, blob)
  }

  lemma HeaderIsField(oid: Bytes, size: Bytes)
    requires IsField(oid) && IsField(size)
    ensures IsAscii(ThreeFields(oid, BLOB, size)) && NEWLINE !in ThreeFields(oid, BLOB, size)
    ensures SPACE !in BLOB
  {
  }

  lemma FieldsOfHeader(header: Bytes, a: Bytes, b: Bytes, c: Bytes)
    requires header == ThreeFields(a, b, c) && IsAscii(header) && NEWLINE !in header
    ensures IsAscii(a) && NEWLINE !in a && IsAscii(c) && NEWLINE !in c
  {
    forall k | 0 <= k < |a| ensures a[k] < 128 && a[k] != NEWLINE {
      assert header[k] == a[k];
    }
    forall k | 0 <= k < |c| ensures c[k] < 128 && c[k] != NEWLINE {
      assert header[|a| + 1 + |b| + 1 + k] == c[k];
    }
  }

  /** A frame, as it was written, is read back whatever follows it. */
  lemma FramesAreRead(oid: Bytes, blob: Bytes, length: nat, rest: Bytes, size: Bytes)
    requires IsFrame(oid, blob, length, rest, size)
    ensures ReadFrame(oid, rest) == Frame(blob, length)
  {
    var header := ThreeFields(oid, BLOB, size);
    HeaderIsField(oid, size);
    HeaderSplitsIff(header, oid, BLOB, size);
    var after := blob + [NEWLINE] + rest[length..];
    WholeFrame(oid, blob, length, rest, size);
    MarkIsFound(header, NEWLINE, after);
    var end := |header| + 1 + |blob|;
    assert rest[|header| + 1..] == after;
    assert rest[|header| + 1..end] == after[..|blob|] == blob;
    assert rest[end] == after[|blob|] == NEWLINE;
  }

  lemma WholeFrame(oid: Bytes, blob: Bytes, length: nat, rest: Bytes, size: Bytes)
    requires IsFrame(oid, blob, length, rest, size)
    ensures rest == ThreeFields(oid, BLOB, size) + [NEWLINE] + (blob + [NEWLINE] + rest[length..])
    ensures length == |ThreeFields(oid, BLOB, size)| + 1 + |blob| + 1
  {
    var header := ThreeFields(oid, BLOB, size);
    assert rest == rest[..length] + rest[length..];
    Regroup(header + [NEWLINE], blob + [NEWLINE], rest[length..]);
  }

  /** A header, its end, so many bytes and a newline make a frame. */
  lemma PartsMakeFrame(oid: Bytes, rest: Bytes, newline: nat, size: Bytes, blob: Bytes)
    requires newline + 1 + |blob| < |rest| && rest[newline] == NEWLINE && NEWLINE !in rest[..newline]
             && IsAscii(rest[..newline])
    requires Split(rest[..newline], SPACE) == [oid, BLOB, size] && PythonInt(size) == Some(|blob|)
    requires rest[newline + 1..newline + 1 + |blob|] == blob && rest[newline + 1 + |blob|] == NEWLINE
    ensures IsFrame(oid, blob, newline + 1 + |blob| + 1, rest, size)
  {
    HeaderSplitsIff(rest[..newline], oid, BLOB, size);
    FieldsOfHeader(rest[..newline], oid, BLOB, size);
    FieldsMakeFrame(oid, rest, newline, size, blob);
  }

  lemma FieldsMakeFrame(oid: Bytes, rest: Bytes, newline: nat, size: Bytes, blob: Bytes)
    requires newline + 1 + |blob| < |rest| && rest[newline] == NEWLINE && rest[newline + 1 + |blob|] == NEWLINE
    requires rest[..newline] == ThreeFields(oid, BLOB, size) && IsField(oid) && IsSize(size, |blob|)
    requires rest[newline + 1..newline + 1 + |blob|] == blob
    ensures IsFrame(oid, blob, newline + 1 + |blob| + 1, rest, size)
  {
    FrameLaidOut(rest, newline, |blob|);
    HeaderMakesFrame(rest[..newline], oid, size, blob);
  }

  lemma HeaderMakesFrame(header: Bytes, oid: Bytes, size: Bytes, blob: Bytes)
    requires header == ThreeFields(oid, BLOB, size)
    ensures FrameBytes(oid, size, blob) == header + [NEWLINE] + (blob + [NEWLINE])
    ensures |FrameBytes(oid, size, blob)| == |header| + 1 + |blob| + 1
  {
  }

  /** The bytes up to the end of a frame, piece by piece. */
  lemma FrameLaidOut(rest: Bytes, newline: nat, size: nat)
    requires newline + 1 + size < |rest|
    ensures rest[..newline + 1 + size + 1]
         == rest[..newline] + [rest[newline]] + (rest[newline + 1..newline + 1 + size] + [rest[newline + 1 + size]])
  {
  }

  /** What is read as a frame was written as one. */
  lemma ReadIsFrame(oid: Bytes, rest: Bytes, f: Frame) returns (size: Bytes)
    requires f == ReadFrame(oid, rest) && f.Frame?
    ensures IsFrame(oid, f.blob, f.length, rest, size)
  {
    var newline := Find(rest, NEWLINE);
    var pieces := Split(rest[..newline], SPACE);
    size := pieces[2];
    assert pieces == [oid, BLOB, size];
    PartsMakeFrame(oid, rest, newline, size, f.blob);
  }

  function WithFirst(blobs: seq<Bytes>, others: Result): Result {
    if others.Refused? then others else Blobs(blobs + others.blobs)
  }

  // ── The batch ───────────────────────────────────────────────────────────────

  /** The frames of all blobs, in request order. */
  function BatchBytes(requested: seq<Bytes>, sizes: seq<Bytes>, blobs: seq<Bytes>): Bytes
    requires |requested| == |sizes| == |blobs|
  {
    if |requested| == 0 then []
    else FrameBytes(requested[0], sizes[0], blobs[0]) + BatchBytes(requested[1..], sizes[1..], blobs[1..])
  }

  /** An output that is exactly the frames of these blobs for these requests. */
  ghost predicate IsBatch(requested: seq<Bytes>, blobs: seq<Bytes>, output: Bytes, sizes: seq<Bytes>) {
    && |requested| == |sizes| == |blobs|
    && (forall k :: 0 <= k < |requested| ==> IsField(requested[k]) && IsSize(sizes[k], |blobs[k]|))
    && output == BatchBytes(requested, sizes, blobs)
  }

  /** A batch starts with a frame that is read as its first blob, and goes on as a batch. */
  lemma BatchStarts(requested: seq<Bytes>, blobs: seq<Bytes>, output: Bytes, sizes: seq<Bytes>) returns (length: nat)
    requires IsBatch(requested, blobs, output, sizes) && |requested| > 0
    ensures length <= |output| && ReadFrame(requested[0], output) == Frame(blobs[0], length)
    ensures IsBatch(requested[1..], blobs[1..], output[length..], sizes[1..])
  {
    var frame := FrameBytes(requested[0], sizes[0], blobs[0]);
    length := |frame|;
    assert output[..|frame|] == frame && output[|frame|..] == BatchBytes(requested[1..], sizes[1..], blobs[1..]);
    FramesAreRead(requested[0], blobs[0], length, output, sizes[0]);
  }

  lemma ReadStep(requested: seq<Bytes>, rest: Bytes, blob: Bytes, length: nat)
    requires |requested| > 0 && length <= |rest| && ReadFrame(requested[0], rest) == Frame(blob, length)
    ensures Read(requested, rest) == WithFirst([blob], Read(requested[1..], rest[length..]))
  {
  }

  lemma FirstAndRest(s: seq<Bytes>)
    requires |s| > 0
    ensures s == [s[0]] + s[1..]
  {
  }

  lemma {:induction false} BatchesAreRead(requested: seq<Bytes>, blobs: seq<Bytes>, output: Bytes, sizes: seq<Bytes>)
    requires IsBatch(requested, blobs, output, sizes)
    ensures Read(requested, output) == Blobs(blobs)
  {
    if |requested| > 0 {
      var length := BatchStarts(requested, blobs, output, sizes);
      ReadStep(requested, output, blobs[0], length);
      BatchesAreRead(requested[1..], blobs[1..], output[length..], sizes[1..]);
      FirstAndRest(blobs);
    } else {
      assert blobs == [];
    }
  }

  lemma {:induction false} ReadIsBatch(requested: seq<Bytes>, output: Bytes, blobs: seq<Bytes>)
    returns (sizes: seq<Bytes>)
    requires Read(requested, output) == Blobs(blobs)
    ensures IsBatch(requested, blobs, output, sizes)
  {
    if |requested| == 0 {
      sizes := [];
    } else {
      var f := ReadFrame(requested[0], output);
      FrameWithin(requested[0], output);
      ReadStep(requested, output, f.blob, f.length);
      var others := ReadIsBatch(requested[1..], output[f.length..], blobs[1..]);
      var size := ReadIsFrame(requested[0], output, f);
      sizes := [size] + others;
      BatchJoins(requested, sizes, blobs, output, f.length);
    }
  }

  lemma BatchJoins(requested: seq<Bytes>, sizes: seq<Bytes>, blobs: seq<Bytes>, output: Bytes, length: nat)
    requires |requested| == |sizes| == |blobs| > 0 && length <= |output|
    requires IsFrame(requested[0], blobs[0], length, output, sizes[0])
    requires IsBatch(requested[1..], blobs[1..], output[length..], sizes[1..])
    ensures IsBatch(requested, blobs, output, sizes)
  {
    assert output == output[..length] + output[length..];
    forall k | 0 <= k < |requested| ensures IsField(requested[k]) && IsSize(sizes[k], |blobs[k]|) {
      if k > 0 {
        assert requested[1..][k - 1] == requested[k] && sizes[1..][k - 1] == sizes[k] && blobs[1..][k - 1] == blobs[k];
      }
    }
  }

  /** The output is accepted as these blobs exactly when it is their frames in request order, with
      no gap, nothing missing and nothing after them. */
  lemma ReadsExactlyBatches(requested: seq<Bytes>, output: Bytes, blobs: seq<Bytes>)
    ensures Read(requested, output) == Blobs(blobs) <==> exists sizes :: IsBatch(requested, blobs, output, sizes)
  {
    if Read(requested, output) == Blobs(blobs) {
      var sizes := ReadIsBatch(requested, output, blobs);
    }
    if sizes :| IsBatch(requested, blobs, output, sizes) {
      BatchesAreRead(requested, blobs, output, sizes);
    }
  }

  /** The sizes as git writes them. */
  function Sizes(blobs: seq<Bytes>): seq<Bytes> {
    seq(|blobs|, k requires 0 <= k < |blobs| => Numeral(|blobs[k]|))
  }

  lemma NumeralsAreSizes(n: nat)
    ensures IsSize(Numeral(n), n)
  {
    NumeralsRoundTrip(n);
  }

  /** Whatever the blobs hold, the answer to a request is read back as they are. */
  lemma BatchRoundTrip(requested: seq<Bytes>, blobs: seq<Bytes>)
    requires |requested| == |blobs| && forall k :: 0 <= k < |requested| ==> IsField(requested[k])
    ensures Read(requested, BatchBytes(requested, Sizes(blobs), blobs)) == Blobs(blobs)
  {
    forall k | 0 <= k < |blobs| ensures IsSize(Sizes(blobs)[k], |blobs[k]|) {
      NumeralsAreSizes(|blobs[k]|);
    }
    BatchesAreRead(requested, blobs, BatchBytes(requested, Sizes(blobs), blobs), Sizes(blobs));
  }

  /** So an answer that git does not write is accepted: a size of five written as a plus, two digits
      with an underscore between them, and a tab. */
  lemma LenientAnswerIsRead(oid: Bytes, blob: Bytes)
    requires IsField(oid) && |blob| == 5
    ensures var size := [PLUS, 48, UNDERSCORE, 53, 9];
            size != Numeral(5) && Read([oid], FrameBytes(oid, size, blob)) == Blobs([blob])
  {
    var size: Bytes := [PLUS, 48, UNDERSCORE, 53, 9];
    SizesAreLenient();
    assert IsSize(size, 5);
    assert BatchBytes([oid], [size], [blob]) == FrameBytes(oid, size, blob) by {
      assert BatchBytes([oid][1..], [size][1..], [blob][1..]) == [];
    }
    assert IsBatch([oid], [blob], FrameBytes(oid, size, blob), [size]);
    BatchesAreRead([oid], [blob], FrameBytes(oid, size, blob), [size]);
  }

  // ── The reader ──────────────────────────────────────────────────────────────

  /** An entry of a commit's tree. */
  datatype Entry = Entry(mode: string, kind: string, oid: Bytes, path: Bytes)

  function Requested(entries: seq<Entry>): seq<Bytes> {
    if |entries| == 0 then []
    else (if entries[0].kind == "blob" then [entries[0].oid] else []) + Requested(entries[1..])
  }

  /** One turn of the loop: the frame at the cursor. */
  method ReadAt(oid: Bytes, output: Bytes, start: nat) returns (frame: Frame)
    requires start <= |output|
    ensures frame == ReadFrame(oid, output[start..])
    ensures frame.Frame? ==> start + frame.length <= |output|
  {
    ghost var rest := output[start..];
    var newline := start + Find(output[start..], NEWLINE);
    if newline == |output| {
      return BadFrame(Truncated);
    }
    var header := output[start..newline];
    assert header == rest[..newline - start];
    var pieces := Split(header, SPACE);
    if !IsAscii(header) || |pieces| != 3 {
      return BadFrame(MalformedHeader);
    }
    var size := PythonInt(pieces[2]);
    if size.None? {
      return BadFrame(MalformedHeader);
    }
    var cursor := newline + 1;
    var end := cursor + size.value;
    if pieces[0] != oid || pieces[1] != BLOB || size.value < 0 || end >= |output| {
      return BadFrame(WrongIdentity);
    }
    if output[end] != NEWLINE {
      return BadFrame(WrongDelimiter);
    }
    assert rest[cursor - start..end - start] == output[cursor..end];
    return Frame(output[cursor..end], end + 1 - start);
  }

  /** The blobs of the entries, read from git's answer by moving a cursor over it. */
  method BatchGitBlobs(entries: seq<Entry>, output: Bytes) returns (result: Result)
    ensures result == Read(Requested(entries), output)
  {
    var requested := Requested(entries);
    var cursor: nat := 0;
    var blobs: seq<Bytes> := [];
    assert output[0..] == output && WithFirst([], Read(requested, output)) == Read(requested, output);
    for n := 0 to |requested|
      invariant cursor <= |output|
      invariant Read(requested, output) == WithFirst(blobs, Read(requested[n..], output[cursor..]))
    {
      var frame := ReadAt(requested[n], output, cursor);
      NextFrame(requested, output, n, cursor, blobs);
      if frame.BadFrame? {
        return Refused(frame.problem);
      }
      blobs, cursor := blobs + [frame.blob], cursor + frame.length;
    }
    if cursor != |output| {
      return Refused(TrailingData);
    }
    return Blobs(blobs);
  }

  /** How the rest of the answer is read after the frame at the cursor. */
  lemma NextFrame(requested: seq<Bytes>, output: Bytes, n: nat, cursor: nat, blobs: seq<Bytes>)
    requires n < |requested| && cursor <= |output|
    ensures var f := ReadFrame(requested[n], output[cursor..]);
            if f.BadFrame? then WithFirst(blobs, Read(requested[n..], output[cursor..])) == Refused(f.problem)
            else cursor + f.length <= |output| &&
                 WithFirst(blobs, Read(requested[n..], output[cursor..]))
                 == WithFirst(blobs + [f.blob], Read(requested[n + 1..], output[cursor + f.length..]))
  {
    var f := ReadFrame(requested[n], output[cursor..]);
    assert requested[n..][0] == requested[n] && requested[n..][1..] == requested[n + 1..];
    if f.Frame? {
      FrameWithin(requested[n], output[cursor..]);
      ReadStep(requested[n..], output[cursor..], f.blob, f.length);
      assert output[cursor..][f.length..] == output[cursor + f.length..];
      var others := Read(requested[n + 1..], output[cursor + f.length..]);
      if others.Blobs? {
        Associates(blobs, [f.blob], others.blobs);
      }
    }
  }

  lemma Associates(a: seq<Bytes>, b: seq<Bytes>, c: seq<Bytes>)
    ensures a + (b + c) == a + b + c
  {
  }
}
