/** client/client.cpp: the client's end of one connection.

    The functions say what a reply does to the mirror; class Client is the driver. A connection
    delivers a fixed byte string, `incoming`, and then ends; every read takes any non-empty part of
    what is left, so every segmentation is covered. A failed or closed connection is an `incoming`
    that stops early. */
module Clients {
  import opened Wire
  import opened Numbers
  import opened Option
  import opened Hashing
  import opened Nodes
  import opened SharedMaps
  import opened Protocol

  type Mirror = map<string, Node>

  /** `handle_errors`: two of the codes say something about the mirror. */
  function ErrorEffect(mirror: Mirror, node: Node, code: int): Mirror {
    if code == FILE_ALREADY_EXISTS then InsertNew(mirror, node.AbsolutePath(), node)
    else if code == FILE_NOT_FOUND then mirror - {node.AbsolutePath()}
    else mirror
  }

  predicate IsError(params: seq<string>) { |params| == 2 && params[0] == "ERROR" }

  predicate IsOkay(params: seq<string>) { |params| == 2 && params[0] == "OK" }

  /** The error branch of a reply; `None` if its code is no number and the read of it throws. */
  function OnError(mirror: Mirror, node: Node, params: seq<string>): Option<Mirror>
    requires |params| == 2
  {
    match Stoi(params[1])
    case None => None
    case Some(code) => Some(ErrorEffect(mirror, node, code))
  }

  /** The mirror after the last reply to a PUT. */
  function OnPutReply(mirror: Mirror, node: Node, params: seq<string>): Option<Mirror> {
    if IsOkay(params) then Some(InsertNew(mirror, node.AbsolutePath(), node))
    else if IsError(params) then OnError(mirror, node, params)
    else Some(mirror)
  }

  /** The mirror after the reply to a DELETE. */
  function OnDeleteReply(mirror: Mirror, node: Node, params: seq<string>): Mirror {
    if IsOkay(params) then mirror - {node.AbsolutePath()} else mirror
  }

  /** The mirror after a reply to a GET that brings no file. */
  function OnGetRefused(mirror: Mirror, node: Node, params: seq<string>): Option<Mirror> {
    if IsError(params) then OnError(mirror, node, params) else Some(mirror)
  }

  /** A node parsed from a snapshot. */
  function SnapshotNode(path: string, hash: string): Node {
    Node(path, false, [hash], None, 0)
  }

  /** The lines of a snapshot that name a path and a hash. */
  function Entries(lines: seq<Bytes>): seq<(string, string)> {
    if |lines| == 0 then []
    else
      var arguments := Split(lines[|lines| - 1], PARAM_DELIMITER);
      Entries(lines[..|lines| - 1])
      + (if lines[|lines| - 1] != "" && |arguments| == 2 then [(arguments[0], arguments[1])] else [])
  }

  function InsertAll(mirror: Mirror, entries: seq<(string, string)>): Mirror {
    if |entries| == 0 then mirror
    else
      var e := entries[|entries| - 1];
      InsertNew(InsertAll(mirror, entries[..|entries| - 1]), e.0, SnapshotNode(e.0, e.1))
  }

  /** The mirror after the body of a snapshot. */
  function OnSnapshotBody(mirror: Mirror, body: Bytes): Mirror {
    InsertAll(mirror, Entries(Split(body, REQUEST_DELIMITER)))
  }

  /** What one more line adds. */
  lemma {:induction false} LineAdded(mirror: Mirror, lines: seq<Bytes>, i: nat)
    requires i < |lines|
    ensures var arguments := Split(lines[i], PARAM_DELIMITER);
            InsertAll(mirror, Entries(lines[..i + 1]))
            == if lines[i] != "" && |arguments| == 2 then
                 InsertNew(InsertAll(mirror, Entries(lines[..i])), arguments[0],
                           SnapshotNode(arguments[0], arguments[1]))
               else InsertAll(mirror, Entries(lines[..i]))
  {
    assert lines[..i + 1][..i] == lines[..i];
    var arguments, es := Split(lines[i], PARAM_DELIMITER), Entries(lines[..i]);
    if lines[i] != "" && |arguments| == 2 {
      var e := (arguments[0], arguments[1]);
      assert Entries(lines[..i + 1]) == es + [e] && (es + [e])[..|es|] == es;
    } else {
      assert Entries(lines[..i + 1]) == es + [] == es;
    }
  }

  /** The parameters of the first message in a stream, if there is one. */
  function FirstHeader(stream: Bytes): Option<seq<string>> {
    var i := Find(stream, REQUEST_DELIMITER);
    if i == |stream| then None else Some(Params(stream[..i]))
  }

  function AfterHeader(stream: Bytes): Bytes
    requires FirstHeader(stream).Some?
  {
    stream[Find(stream, REQUEST_DELIMITER) + 2..]
  }

  lemma {:induction false} FindInLonger(a: Bytes, b: Bytes, d: Delimiter)
    requires !Free(a, d)
    ensures Find(a + b, d) == Find(a, d) < |a| - 1
  {
    var i := Find(a, d);
    assert At(a + b, d, i);
    forall j: nat | j < i ensures !At(a + b, d, j) {
      assert !At(a, d, j);
    }
    FindIs(a + b, d, i);
  }

  /** Bytes to ask for next, out of `size`. */
  function Portion(size: int): nat
    requires size > 0
  {
    if size > LEN_BUFF then LEN_BUFF else size
  }

  /** The writes of `send_file_chunked` that put `size` bytes on the wire: each sends a part of its
      chunk, at least a byte. */
  predicate Writes(size: int, cuts: seq<nat>)
    decreases |cuts|
  {
    if size <= 0 then cuts == []
    else |cuts| > 0 && 1 <= cuts[0] <= Portion(size) && Writes(size - cuts[0], cuts[1..])
  }

  /** Each of the writes sends all of its chunk. */
  predicate WholeWrites(size: int, cuts: seq<nat>)
    requires Writes(size, cuts)
    decreases |cuts|
  {
    size > 0 ==> cuts[0] == Portion(size) && WholeWrites(size - cuts[0], cuts[1..])
  }

  function ReadFrom(content: Bytes, pos: nat, n: nat): Bytes
    requires pos <= |content|
  {
    if pos + n <= |content| then content[pos..pos + n] else content[pos..]
  }

  /** How many of them there are, and how long: ten thousand bytes each, the last what is left. */
  lemma {:induction false} WholeWritesAre(size: int, cuts: seq<nat>)
    requires Writes(size, cuts)
    ensures WholeWrites(size, cuts)
            <==> forall i :: 0 <= i < |cuts| ==> cuts[i] == if size - 10000 * i > 10000 then 10000 else size - 10000 * i
    decreases |cuts|
  {
    if size > 0 {
      var rest := cuts[1..];
      WholeWritesAre(size - cuts[0], rest);
      if cuts[0] == Portion(size) {
        forall i | 0 < i < |cuts| ensures cuts[i] == rest[i - 1] { }
        if size <= LEN_BUFF { assert rest == []; }
      }
    }
  }

  /** What is sent by those writes: every turn parts on in the file, over what the buffer held, and
      sends the first `cuts[0]` bytes of it; the rest of the chunk is not sent again. */
  function Transmitted(content: Bytes, pos: nat, buffer: Bytes, size: int, cuts: seq<nat>): Bytes
    requires pos <= |content| && |buffer| == LEN_BUFF && Writes(size, cuts)
    decreases |cuts|
  {
    if size <= 0 then ""
    else
      var part := ReadFrom(content, pos, Portion(size));
      var data := part + buffer[|part|..];
      data[..cuts[0]] + Transmitted(content, pos + |part|, data, size - cuts[0], cuts[1..])
  }

  /** Between two turns of the loop: whatever writes are still to come, all of the writes together
      send what is sent so far and then what those to come send. */
  ghost predicate Progress(content: Bytes, buffer0: Bytes, size0: int, cuts: seq<nat>, done: Bytes, pos: nat,
                           buffer: Bytes, size: int)
    requires pos <= |content| && |buffer| == LEN_BUFF && |buffer0| == LEN_BUFF
  {
    forall more :: Writes(size, more) ==>
      Writes(size0, cuts + more)
      && Transmitted(content, 0, buffer0, size0, cuts + more) == done + Transmitted(content, pos, buffer, size, more)
  }

  lemma ProgressStep(content: Bytes, buffer0: Bytes, size0: int, cuts: seq<nat>, done: Bytes, pos: nat, buffer: Bytes,
                     size: int, r: nat)
    requires pos <= |content| && |buffer| == LEN_BUFF && |buffer0| == LEN_BUFF
    requires Progress(content, buffer0, size0, cuts, done, pos, buffer, size)
    requires size > 0 && 1 <= r <= Portion(size)
    ensures var part := ReadFrom(content, pos, Portion(size));
            var data := part + buffer[|part|..];
            Progress(content, buffer0, size0, cuts + [r], done + data[..r], pos + |part|, data, size - r)
  {
    var part := ReadFrom(content, pos, Portion(size));
    var data := part + buffer[|part|..];
    forall more | Writes(size - r, more)
      ensures Writes(size0, cuts + [r] + more)
      ensures Transmitted(content, 0, buffer0, size0, cuts + [r] + more)
              == done + data[..r] + Transmitted(content, pos + |part|, data, size - r, more)
    {
      var longer := [r] + more;
      assert longer[1..] == more;
      assert Writes(size, longer);
      assert cuts + longer == cuts + [r] + more;
      var tail := Transmitted(content, pos + |part|, data, size - r, more);
      assert Transmitted(content, pos, buffer, size, longer) == data[..r] + tail;
      assert done + (data[..r] + tail) == done + data[..r] + tail;
    }
  }

  /** `ProgressStep` in terms of what a turn of the loop has at hand. */
  lemma ChunkSent(content: Bytes, buffer0: Bytes, size0: int, cuts: seq<nat>, done: Bytes, pos: nat, buffer: Bytes,
                  size: int,
                  r: nat, part: Bytes, out: Bytes)
    requires pos <= |content| && |buffer| == LEN_BUFF && |buffer0| == LEN_BUFF
    requires Progress(content, buffer0, size0, cuts, done, pos, buffer, size)
    requires size > 0 && 1 <= r <= Portion(size) && part == ReadFrom(content, pos, Portion(size))
    requires out == (part + buffer[|part|..])[..Portion(size)][..r]
    ensures Progress(content, buffer0, size0, cuts + [r], done + out, pos + |part|, part + buffer[|part|..], size - r)
  {
    var data := part + buffer[|part|..];
    assert data[..Portion(size)][..r] == data[..r];
    ProgressStep(content, buffer0, size0, cuts, done, pos, buffer, size, r);
  }

  lemma ProgressStart(content: Bytes, buffer: Bytes, size: int)
    requires |buffer| == LEN_BUFF
    ensures Progress(content, buffer, size, [], "", 0, buffer, size)
  {
    forall more: seq<nat> ensures [] + more == more { }
    forall out: Bytes ensures "" + out == out { }
  }

  lemma ProgressEnd(content: Bytes, buffer0: Bytes, size0: int, cuts: seq<nat>, done: Bytes, pos: nat, buffer: Bytes,
                    size: int)
    requires pos <= |content| && |buffer| == LEN_BUFF && |buffer0| == LEN_BUFF
    requires Progress(content, buffer0, size0, cuts, done, pos, buffer, size) && size <= 0
    ensures Writes(size0, cuts) && Transmitted(content, 0, buffer0, size0, cuts) == done
  {
    var more: seq<nat> := [];
    assert Writes(size, more) && cuts + more == cuts;
    assert Transmitted(content, pos, buffer, size, more) == "" && done + "" == done;
  }

  /** However short the writes, the announced number of bytes is sent. */
  lemma {:induction false} TransmittedLength(content: Bytes, pos: nat, buffer: Bytes, size: int, cuts: seq<nat>)
    requires pos <= |content| && |buffer| == LEN_BUFF && Writes(size, cuts)
    ensures |Transmitted(content, pos, buffer, size, cuts)| == if size > 0 then size else 0
    decreases |cuts|
  {
    if size > 0 {
      var part := ReadFrom(content, pos, Portion(size));
      TransmittedLength(content, pos + |part|, part + buffer[|part|..], size - cuts[0], cuts[1..]);
    }
  }

  /** If every write sends its whole chunk, what is sent is the file. */
  lemma {:induction false} TransmittedWhole(content: Bytes, pos: nat, buffer: Bytes, size: int, cuts: seq<nat>)
    requires pos <= |content| && |buffer| == LEN_BUFF && Writes(size, cuts)
    requires WholeWrites(size, cuts) && 0 <= size <= |content| - pos
    ensures Transmitted(content, pos, buffer, size, cuts) == content[pos..pos + size]
    decreases |cuts|
  {
    if size > 0 {
      var n := Portion(size);
      var part := ReadFrom(content, pos, n);
      var data := part + buffer[|part|..];
      TransmittedWhole(content, pos + n, data, size - n, cuts[1..]);
      assert data[..n] == content[pos..pos + n];
      assert content[pos..pos + n] + content[pos + n..pos + size] == content[pos..pos + size];
    }
  }

  /** `n` times the byte `c`. */
  function Run(c: char, n: nat): (s: Bytes)
    ensures |s| == n && forall i :: 0 <= i < n ==> s[i] == c
  {
    seq(n, i => c)
  }

  /** When some write falls short, there is a file that starts with `sent` and does not arrive from
      there on: one that differs from all around it just where that write stopped. */
  lemma {:induction false} ShortWriteShows(sent: Bytes, buffer: Bytes, size: int,
                                           cuts: seq<nat>) returns (content: Bytes)
    requires |buffer| == LEN_BUFF && Writes(size, cuts) && !WholeWrites(size, cuts)
    ensures |content| == |sent| + size && content[..|sent|] == sent
    ensures Transmitted(content, |sent|, buffer, size, cuts) != content[|sent|..]
    decreases |cuts|
  {
    var n := Portion(size);
    if cuts[0] == n {
      var more := sent + Run('a', n);
      var data := Run('a', n) + buffer[n..];
      content := ShortWriteShows(more, data, size - n, cuts[1..]);
      WholeTurn(content, sent, n, buffer, size, cuts);
    } else {
      content := sent + (Run('a', cuts[0]) + "b" + Run('a', size - cuts[0] - 1));
      assert content[..|sent|] == sent && content[|sent|..][cuts[0]] == 'b';
      var a, rest := ShortTurn(content, |sent|, buffer, size, cuts);
      DiffersAt(a, rest, content[|sent|..]);
    }
  }

  /** One turn of the loop, while there is enough of the file. */
  lemma {:induction false} OneTurn(content: Bytes, pos: nat, buffer: Bytes, size: int, cuts: seq<nat>)
    requires pos + size == |content| && |buffer| == LEN_BUFF && Writes(size, cuts) && size > 0
    ensures var n := Portion(size);
            var data := content[pos..pos + n] + buffer[n..];
            Transmitted(content, pos, buffer, size, cuts)
              == data[..cuts[0]] + Transmitted(content, pos + n, data, size - cuts[0], cuts[1..])
  {
    assert ReadFrom(content, pos, Portion(size)) == content[pos..pos + Portion(size)];
  }

  /** After a turn that sent its whole chunk, what arrives is wrong if what arrives of the rest is. */
  lemma {:induction false} WholeTurn(content: Bytes, sent: Bytes, n: nat, buffer: Bytes, size: int, cuts: seq<nat>)
    requires |buffer| == LEN_BUFF && size > 0 && Writes(size, cuts) && n == Portion(size) == cuts[0]
    requires |content| == |sent| + size && content[..|sent| + n] == sent + Run('a', n)
    requires Transmitted(content, |sent| + n, Run('a', n) + buffer[n..], size - n, cuts[1..]) != content[|sent| + n..]
    ensures content[..|sent|] == sent && Transmitted(content, |sent|, buffer, size, cuts) != content[|sent|..]
  {
    var pos := |sent|;
    assert content[..pos] == content[..pos + n][..pos];
    assert content[pos..pos + n] == content[..pos + n][pos..] == Run('a', n);
    OneTurn(content, pos, buffer, size, cuts);
    var data := Run('a', n) + buffer[n..];
    assert data[..n] == Run('a', n) && content[pos..][n..] == content[pos + n..];
    DiffersFrom(data[..n], Transmitted(content, pos + n, data, size - n, cuts[1..]), content[pos..]);
  }

  lemma DiffersFrom(a: Bytes, b: Bytes, c: Bytes)
    requires |a| <= |c| && b != c[|a|..]
    ensures a + b != c
  {
    assert (a + b)[|a|..] == b;
  }

  lemma DiffersAt(a: Bytes, b: Bytes, c: Bytes)
    requires |b| > 0 && |a| < |c| && b[0] != c[|a|]
    ensures a + b != c
  {
    assert (a + b)[|a|] == b[0];
  }

  /** The next byte sent is the next of the file, or what the buffer starts with if there is none. */
  lemma {:induction false} NextSent(content: Bytes, pos: nat, buffer: Bytes, size: int, cuts: seq<nat>, c: char)
    requires pos <= |content| && |buffer| == LEN_BUFF && Writes(size, cuts) && size > 0
    requires c == if pos < |content| then content[pos] else buffer[0]
    ensures var out := Transmitted(content, pos, buffer, size, cuts); |out| > 0 && out[0] == c
  {
    var part := ReadFrom(content, pos, Portion(size));
    var data := part + buffer[|part|..];
    assert data[..cuts[0]][0] == data[0];
  }

  /** After a turn that fell short the next byte sent is the first of the next chunk, or the first of
      this one again, and not the one at which the write stopped. */
  lemma {:induction false} ShortTurn(content: Bytes, pos: nat, buffer: Bytes, size: int, cuts: seq<nat>)
    returns (a: Bytes, rest: Bytes)
    requires |buffer| == LEN_BUFF && size > 0 && Writes(size, cuts) && cuts[0] < Portion(size)
    requires pos + size == |content| && content[pos] == 'a'
    requires pos + Portion(size) < |content| ==> content[pos + Portion(size)] == 'a'
    ensures Transmitted(content, pos, buffer, size, cuts) == a + rest
    ensures |a| == cuts[0] && |rest| > 0 && rest[0] == 'a'
  {
    var n := Portion(size);
    var data := content[pos..pos + n] + buffer[n..];
    assert Writes(size - cuts[0], cuts[1..]);
    NextSent(content, pos + n, data, size - cuts[0], cuts[1..], 'a');
    a, rest := data[..cuts[0]], Transmitted(content, pos + n, data, size - cuts[0], cuts[1..]);
    OneTurn(content, pos, buffer, size, cuts);
  }

  /** Files arrive as they are, for the writes that happened, if and only if every write sent its whole
      chunk. */
  lemma {:induction false} SentAsIsExactly(buffer: Bytes, size: int, cuts: seq<nat>)
    requires |buffer| == LEN_BUFF && Writes(size, cuts)
    ensures (forall content: Bytes :: |content| == size ==> Transmitted(content, 0, buffer, size, cuts) == content)
            <==> WholeWrites(size, cuts)
  {
    if WholeWrites(size, cuts) {
      forall content: Bytes | |content| == size ensures Transmitted(content, 0, buffer, size, cuts) == content {
        TransmittedWhole(content, 0, buffer, size, cuts);
        assert content[0..size] == content;
      }
    } else {
      var content := ShortWriteShows("", buffer, size, cuts);
      assert content[0..] == content;
    }
  }

  /** A short write loses what it did not send: "abc" in two writes arrives as "aab". */
  lemma ShortWriteSkips(buffer: Bytes)
    requires |buffer| == LEN_BUFF
    ensures Writes(3, [1, 2]) && Transmitted("abc", 0, buffer, 3, [1, 2]) == "aab"
  {
    var cuts: seq<nat> := [1, 2];
    assert cuts[1..] == [2] && cuts[1..][1..] == [];
    assert Writes(3 - 1, cuts[1..]);
    var data := "abc" + buffer[3..];
    assert ReadFrom("abc", 0, 3) == "abc";
    assert ReadFrom("abc", 3, 2) == "";
    assert "" + data[0..] == data;
    assert data[..1] == "a" && data[..2] == "ab";
    assert Transmitted("abc", 3, data, 2, [2]) == "ab";
  }

  /** A C string: the bytes before the first NUL. */
  function CString(s: Bytes): (r: Bytes)
    ensures |r| <= |s| && r == s[..|r|] && (|r| < |s| ==> s[|r|] == '\0')
    ensures forall i :: 0 <= i < |r| ==> r[i] != '\0'
    ensures (forall i :: 0 <= i < |s| ==> s[i] != '\0') ==> r == s
  {
    if |s| == 0 || s[0] == '\0' then "" else [s[0]] + CString(s[1..])
  }

  /** Bytes the snapshot reader asks for: one less than a full buffer, unless just that is left. */
  function SnapshotPortion(size: int): nat
    requires size > 0
  {
    if size > LEN_BUFF then LEN_BUFF - 1 else size
  }

  /** The parts of the snapshot reader for `size` bytes; one that fills the buffer is the last. */
  predicate SnapshotReads(size: int, parts: seq<nat>)
    decreases |parts|
  {
    if size <= 0 then parts == []
    else
      && |parts| > 0 && 1 <= parts[0] <= SnapshotPortion(size)
      && if parts[0] == LEN_BUFF then parts[1..] == [] else SnapshotReads(size - parts[0], parts[1..])
  }

  predicate FillsBuffer(parts: seq<nat>) { LEN_BUFF in parts }

  lemma {:induction false} SmallReadsFit(size: int, parts: seq<nat>)
    requires SnapshotReads(size, parts) && size < LEN_BUFF
    ensures !FillsBuffer(parts)
    decreases |parts|
  {
    if size > 0 {
      SmallReadsFit(size - parts[0], parts[1..]);
    }
  }

  function Sum(parts: seq<nat>): nat {
    if |parts| == 0 then 0 else parts[0] + Sum(parts[1..])
  }

  /** A read fills the buffer only when exactly a buffer is left. */
  lemma {:induction false} FillsWhenExact(size: int, parts: seq<nat>)
    requires SnapshotReads(size, parts) && FillsBuffer(parts)
    ensures |parts| > 0 && parts[|parts| - 1] == 10000 && Sum(parts) == size
    ensures forall i :: 0 <= i < |parts| - 1 ==> 1 <= parts[i] <= 9999
    decreases |parts|
  {
    var rest := parts[1..];
    if parts[0] != LEN_BUFF {
      FillsWhenExact(size - parts[0], rest);
      forall i | 0 < i < |parts| ensures parts[i] == rest[i - 1] { }
    }
  }

  ghost predicate AlwaysFits(length: nat) {
    forall left: nat, parts :: left <= length && SnapshotReads(left, parts) ==> !FillsBuffer(parts)
  }

  /** Reading a snapshot stays inside its buffer, however much of it came with the header and
      whatever the segmentation of the rest, if and only if the payload is shorter than the buffer. */
  lemma SnapshotSafeExactly(length: nat)
    ensures AlwaysFits(length) <==> length < LEN_BUFF
  {
    if length < LEN_BUFF {
      forall left: nat, parts | left <= length && SnapshotReads(left, parts) ensures !FillsBuffer(parts) {
        SmallReadsFit(left, parts);
      }
    } else {
      var parts: seq<nat> := [LEN_BUFF];
      assert parts[1..] == [];
      var left: nat := LEN_BUFF;
      assert SnapshotReads(left, parts) && FillsBuffer(parts);
    }
  }

  ghost predicate NoNul(s: Bytes) {
    forall i :: 0 <= i < |s| ==> s[i] != '\0'
  }

  lemma NoNulParts(a: Bytes, b: Bytes)
    ensures NoNul(a + b) <==> NoNul(a) && NoNul(b)
    ensures NoNul(b) ==> CString(b) == b
    ensures CString(b) == b ==> NoNul(b)
  {
    CStringExact(b);
    if NoNul(a + b) {
      forall i | 0 <= i < |a| ensures a[i] != '\0' { assert (a + b)[i] == a[i]; }
      forall i | 0 <= i < |b| ensures b[i] != '\0' { assert (a + b)[|a| + i] == b[i]; }
    }
  }

  lemma {:induction false} CStringExact(s: Bytes)
    ensures CString(s) == s <==> NoNul(s)
  {
    if |s| > 0 && s[0] != '\0' {
      CStringExact(s[1..]);
      assert s == [s[0]] + s[1..];
      if NoNul(s) { assert NoNul(s[1..]); }
      if CString(s) == s {
        assert CString(s)[1..] == CString(s[1..]);
        forall i | 0 <= i < |s| ensures s[i] != '\0' { if i > 0 { assert s[1..][i - 1] == s[i]; } }
      }
    }
  }

  ghost predicate ReadsSoFar(total: int, parts: seq<nat>, size: int) {
    forall more :: SnapshotReads(size, more) ==> SnapshotReads(total, parts + more)
  }

  lemma ReadsStep(total: int, parts: seq<nat>, size: int, r: nat)
    requires ReadsSoFar(total, parts, size) && size > 0 && 1 <= r <= SnapshotPortion(size)
    ensures ReadsSoFar(total, parts + [r], size - r)
  {
    forall more | SnapshotReads(size - r, more) ensures SnapshotReads(total, parts + [r] + more) {
      var longer := [r] + more;
      assert longer[1..] == more;
      assert SnapshotReads(size, longer);
      assert parts + longer == parts + [r] + more;
    }
  }

  /** A first reply to a PUT that the client has no branch for. */
  predicate Unforeseen(params: seq<string>) {
    params != ["OK"] && !IsError(params)
  }

  /** What a client has after a reply that arrives as `stream`: see `Handled`. */
  ghost predicate Responded(digest: Sha256, req: Request, saves: bool, stream: Bytes, m0: Mirror, m1: Mirror,
                            l0: map<string, Bytes>, l1: map<string, Bytes>)
    requires FirstHeader(stream).Some?
  {
    Handled(digest, req, saves, FirstHeader(stream).value, AfterHeader(stream), m0, m1, l0, l1)
  }

  /** What a client has after the reply to a DELETE, a GET or a SNAPSHOT with the header `params` and
      `rest` after it, for any segmentation: from the mirror `m0` and the files `l0` it comes to `m1`
      and `l1`. A body is followed when it is as long as announced, and a file when it can be opened
      and closed. */
  ghost predicate Handled(digest: Sha256, req: Request, saves: bool, params: seq<string>, rest: Bytes, m0: Mirror,
                          m1: Mirror,
                          l0: map<string, Bytes>, l1: map<string, Bytes>)
  {
    var key := req.node.AbsolutePath();
    match req.verb
    case DELETE => m1 == OnDeleteReply(m0, req.node, params) && l1 == l0
    case GET =>
      if !IsOkay(params) then m1 == OnGetRefused(m0, req.node, params).GetOr(m0) && l1 == l0
      else if Announced(Stol(params[1]), rest) && saves then
        && l1 == l0[LocalKey(key) := rest]
        && m1 == InsertNew(m0, key, req.node.SetLastHash(Sha(digest, rest)))
      else SameBut(m0, m1, key) && SameBut(l0, l1, LocalKey(key))
    case SNAPSHOT =>
      && l1 == l0
      && if !SnapshotOkay(params) then m1 == m0
         else Announced(Stoi(params[2]), rest) && NoNul(rest) ==> m1 == OnSnapshotBody(m0, rest)
    case PUT => m1 == OnPutReply(m0, req.node, params).GetOr(m0) && l1 == l0
    case PATCH => true
  }

  /** The mirror after a PUT whose first reply was not to go on. */
  ghost predicate PutAnswered(node: Node, params: seq<string>, m0: Mirror, m1: Mirror) {
    params != ["OK"] ==> m1 == OnGetRefused(m0, node, params).GetOr(m0)
  }

  /** The mirror and the connection after the last reply to a PUT, on a stream that starts with it. */
  ghost predicate LastReply(node: Node, stream: Bytes, connected: bool, m0: Mirror, m1: Mirror) {
    match FirstHeader(stream)
    case None => !connected && m1 == m0
    case Some(params) =>
      m1 == OnPutReply(m0, node, params).GetOr(m0) && (connected <==> OnPutReply(m0, node, params).Some?)
  }

  /** The same, the stream being what the first header read did not take: what it took beyond its header
      is lost when the second one clears the buffer. */
  ghost predicate LastReplyBeyond(node: Node, rest: Bytes, connected: bool, m0: Mirror, m1: Mirror) {
    exists taken :: 0 <= taken <= |rest| && LastReply(node, rest[taken..], connected, m0, m1)
  }

  /** A header went out with one write, as much of it as that took, and after it `more`. */
  ghost predicate Wrote(text: Bytes, more: Bytes, before: Bytes, after: Bytes) {
    exists n :: 0 <= n <= |text| && after == before + text[..n] + more
  }

  lemma WroteMore(text: Bytes, before: Bytes, after: Bytes, more: Bytes)
    requires Wrote(text, "", before, after)
    ensures Wrote(text, more, before, after + more)
  {
    var n :| 0 <= n <= |text| && after == before + text[..n] + "";
    assert after + more == before + text[..n] + more;
  }

  /** When all writes are whole, what goes out is the file. */
  lemma WholeFileSent(content: Bytes, buffer: Bytes, size: int, cuts: seq<nat>)
    requires |buffer| == LEN_BUFF && Writes(size, cuts)
    ensures size == |content| && WholeWrites(size, cuts) ==> Transmitted(content, 0, buffer, size, cuts) == content
  {
    if size == |content| && WholeWrites(size, cuts) {
      TransmittedWhole(content, 0, buffer, size, cuts);
      assert content[0..size] == content;
    }
  }

  /** The header the client writes for a request. */
  function HeaderText(req: Request): Bytes
    requires req.verb.PUT? ==> req.node.size.Some? && |req.node.hashes| > 0
  {
    match req.verb
    case PUT => "PUT" + PARAM_DELIMITER + req.node.PathSizeTimeHash() + REQUEST_DELIMITER
    case DELETE => "DELETE" + PARAM_DELIMITER + req.node.AbsolutePath() + REQUEST_DELIMITER
    case GET => "GET" + PARAM_DELIMITER + req.node.AbsolutePath() + REQUEST_DELIMITER
    case SNAPSHOT => "SNAPSHOT" + REQUEST_DELIMITER
    case PATCH => ""
  }

  /** An exception is thrown over a reply: a number of it does not parse, or it lacks its numbers. */
  predicate Throws(req: Request, params: seq<string>) {
    match req.verb
    case PUT => OnPutReply(map[], req.node, params).None?
    case DELETE => false
    case GET => (IsOkay(params) && Stol(params[1]).None?) || OnGetRefused(map[], req.node, params).None?
    case SNAPSHOT => |params| < 1 || (params[0] == "OK" && !SnapshotOkay(params))
    case PATCH => false
  }

  /** The stream ends before the file it announced: the reader gets nothing more, and goes on. */
  predicate EndsEarly(req: Request, params: seq<string>, openOk: bool, rest: Bytes) {
    req.verb.GET? && IsOkay(params) && Stol(params[1]).Some? && openOk && ToInt32(Stol(params[1]).value) > |rest|
  }

  predicate SnapshotOkay(params: seq<string>) {
    |params| >= 3 && params[0] == "OK" && Stoi(params[1]).Some? && Stoi(params[2]).Some?
  }

  /** The announced length, as an `int`, is that of what follows. */
  predicate Announced(length: Option<int>, rest: Bytes) {
    length.Some? && ToInt32(length.value) == |rest|
  }

  /** Everything but one key of a map is as before. */
  ghost predicate SameBut<V>(m: map<string, V>, m1: map<string, V>, key: string) {
    m1 - {key} == m - {key}
  }

  /** A header that is complete in the buffer is the header of the stream. */
  lemma HeadOf(buf: Bytes, rest: Bytes)
    requires Find(buf, REQUEST_DELIMITER) < |buf|
    ensures var i := Find(buf, REQUEST_DELIMITER);
            && Find(buf + rest, REQUEST_DELIMITER) == i
            && (buf + rest)[..i] == buf[..i] && (buf + rest)[i + 2..] == buf[i + 2..] + rest
  {
    FindInLonger(buf, rest, REQUEST_DELIMITER);
  }

  class Socket {
    /** What this connection still delivers before it ends. */
    var incoming: Bytes
    var outgoing: Bytes

    constructor (incoming: Bytes)
      ensures this.incoming == incoming && outgoing == ""
    {
      this.incoming, outgoing := incoming, "";
    }

    /** Takes any non-empty part, at most `max`; nothing once the stream has ended. */
    method ReadSome(max: nat) returns (data: Bytes)
      requires max > 0
      modifies this`incoming
      ensures old(incoming) == data + incoming && |data| <= max
      ensures old(incoming) != "" ==> |data| >= 1
    {
      if incoming == "" {
        return "";
      }
      var n :| 1 <= n <= max && n <= |incoming|;
      data := incoming[..n];
      incoming := incoming[n..];
    }

    /** Sends any non-empty part, or fails. */
    method WriteSome(data: Bytes) returns (sent: nat, failed: bool)
      modifies this`outgoing
      ensures sent <= |data| && outgoing == old(outgoing) + data[..sent]
      ensures !failed && |data| > 0 ==> sent >= 1
    {
      failed := *;
      if failed || data == "" {
        return 0, failed;
      }
      sent :| 1 <= sent <= |data|;
      outgoing := outgoing + data[..sent];
    }
  }

  /** The loop of `send_file_chunked`. */
  method SendChunks(socket: Socket, content: Bytes, buffer: Bytes, length: int)
    returns (thrown: bool, cuts: seq<nat>, data: Bytes)
    requires |buffer| == LEN_BUFF
    modifies socket`outgoing
    ensures |data| == LEN_BUFF
    ensures !thrown ==>
              Writes(length, cuts)
              && socket.outgoing == old(socket.outgoing) + Transmitted(content, 0, buffer, length, cuts)
  {
    var size, pos: nat := length, 0;
    data, cuts := buffer, [];
    ghost var done: Bytes := "";
    ProgressStart(content, buffer, length);
    while size > 0
      invariant |data| == LEN_BUFF && pos <= |content|
      invariant socket.outgoing == old(socket.outgoing) + done
      invariant Progress(content, buffer, length, cuts, done, pos, data, size)
      decreases size
    {
      var portion := if size > LEN_BUFF then LEN_BUFF else size;
      var part := ReadFrom(content, pos, portion);
      ghost var before, oldPos := data, pos;
      data := part + data[|part|..];
      pos := pos + |part|;
      var r, failed := socket.WriteSome(data[..portion]);
      if failed {
        return true, cuts, data;
      }
      ghost var out := data[..portion][..r];
      ChunkSent(content, buffer, length, cuts, done, oldPos, before, size, r, part, out);
      Regrouped(old(socket.outgoing), done, out);
      done := done + out;
      size := size - r;
      cuts := cuts + [r];
    }
    ProgressEnd(content, buffer, length, cuts, done, pos, data, size);
    thrown := false;
  }

  /** How `read_and_save_file` goes: saved, given up, or turning forever on a stream that ended. */
  datatype Saving = Saved | GivenUp | Spinning

  /** How a request ends for the thread that handles it. */
  datatype Ending = Returned | SpinsForever | BufferOverrun | Terminated

  /** How the snapshot reader goes; an exception inside it is swallowed. `Overrun`: it read a full
      buffer, with no room for the terminator its C string needs. */
  datatype Reading = Read | Swallowed | Overrun

  lemma Regrouped(a: Bytes, b: Bytes, c: Bytes)
    ensures a + (b + c) == a + b + c
  {
  }

  /** The first half of the snapshot reader: the residue of the header read, then reads into a
      zeroed buffer, each added as a C string. */
  method ReadSnapshotBody(socket: Socket, inputBuffer: Bytes, len: int)
    returns (result: Reading, tmp: Bytes, parts: seq<nat>)
    modifies socket`incoming
    ensures result != Swallowed ==> SnapshotReads(len - |inputBuffer|, parts)
    ensures result == Overrun ==> FillsBuffer(parts)
    ensures var stream := inputBuffer + old(socket.incoming);
            |inputBuffer| <= len <= |stream| && NoNul(stream[..len]) ==>
              && result == (if FillsBuffer(parts) then Overrun else Read)
              && (result == Read ==> tmp == stream[..len] && socket.incoming == stream[len..])
  {
    var size := len;
    parts, tmp := [], "";
    ghost var stream := inputBuffer + socket.incoming;
    ghost var taken := inputBuffer;
    if |inputBuffer| > 0 {
      size := size - |inputBuffer|;
      tmp := tmp + CString(inputBuffer);
    }
    assert forall more: seq<nat> {:trigger parts + more} :: parts + more == more;
    while size > 0
      invariant taken + socket.incoming == stream && |taken| + size == len
      invariant |inputBuffer| <= len ==> size >= 0
      invariant NoNul(taken) ==> tmp == taken
      invariant FillsBuffer(parts) ==> size == 0 && !NoNul(taken)
      invariant ReadsSoFar(len - |inputBuffer|, parts, size)
      decreases size
    {
      var toRead := if size > LEN_BUFF then LEN_BUFF - 1 else size;
      var part := socket.ReadSome(toRead);
      if part == "" {
        return Swallowed, tmp, parts;
      }
      ReadsStep(len - |inputBuffer|, parts, size, |part|);
      parts := parts + [|part|];
      if |part| == LEN_BUFF && CString(part) == part {
        assert SnapshotReads(0, []) && parts + [] == parts;
        return Overrun, tmp, parts;
      }
      PartAdded(taken, tmp, part);
      Regrouped(taken, part, socket.incoming);
      taken := taken + part;
      tmp := tmp + CString(part);
      size := size - |part|;
    }
    assert SnapshotReads(size, []) && parts + [] == parts;
    AllTaken(taken, socket.incoming);
    result := Read;
  }

  lemma AllTaken(taken: Bytes, rest: Bytes)
    ensures (taken + rest)[..|taken|] == taken && (taken + rest)[|taken|..] == rest
  {
  }

  /** A part without a NUL is added as it is. */
  lemma PartAdded(taken: Bytes, tmp: Bytes, part: Bytes)
    requires NoNul(taken) ==> tmp == taken
    ensures NoNul(taken + part) ==> tmp + CString(part) == taken + part
    ensures CString(part) != part ==> !NoNul(taken + part)
  {
    NoNulParts(taken, part);
  }

  class Client {
    const digest: Sha256
    const name: string
    const pwd: string
    var socket: Socket
    const remote: SharedMap<Node>
    const pending: SharedMap<bool>
    var connected: bool
    var inputBuffer: Bytes
    var data: Bytes
    /** The files of the client, by local key. */
    var local: map<string, Bytes>

    constructor (digest: Sha256, name: string, pwd: string, socket: Socket, remote: SharedMap<Node>,
                 pending: SharedMap<bool>,
                 local: map<string, Bytes>)
      ensures this.digest == digest && this.name == name && this.pwd == pwd && this.socket == socket
      ensures this.remote == remote && this.pending == pending
      ensures this.local == local && connected && inputBuffer == "" && |data| == LEN_BUFF
    {
      this.name, this.pwd := name, pwd;
      this.digest, this.socket, this.remote, this.pending, this.local := digest, socket, remote, pending, local;
      connected, inputBuffer, data := true, "", seq(LEN_BUFF, i => '\0');
    }

    /** `do_write_str_sync`: one write, whose count is not looked at. */
    method DoWriteStr(str: Bytes) returns (failed: bool)
      modifies socket`outgoing
      ensures Wrote(str, "", old(socket.outgoing), socket.outgoing)
    {
      var n, lost := socket.WriteSome(str);
      assert socket.outgoing == old(socket.outgoing) + str[..n] + "";
      failed := lost;
    }

    /** `read_sync_until_delimiter`: for any segmentation the first message of the stream, what was
        read beyond it staying in the buffer. `None`: the stream ended before, and this throws. */
    method ReadSyncUntilDelimiter() returns (res: Option<Bytes>)
      modifies this`inputBuffer, socket`incoming
      ensures var i := Find(old(socket.incoming), REQUEST_DELIMITER);
              if i == |old(socket.incoming)| then res.None?
              else res == Some(old(socket.incoming)[..i])
                   && inputBuffer + socket.incoming == old(socket.incoming)[i + 2..]
    {
      inputBuffer := "";
      ghost var stream := socket.incoming;
      assert stream == inputBuffer + socket.incoming;
      while Find(inputBuffer, REQUEST_DELIMITER) == |inputBuffer|
        invariant stream == inputBuffer + socket.incoming
        decreases |socket.incoming|
      {
        var max: nat :| max > 0;
        var part := socket.ReadSome(max);
        if part == "" {
          assert stream == inputBuffer;
          return None;
        }
        assert inputBuffer + (part + socket.incoming) == inputBuffer + part + socket.incoming;
        inputBuffer := inputBuffer + part;
      }
      HeadOf(inputBuffer, socket.incoming);
      var n := Find(inputBuffer, REQUEST_DELIMITER) + 2;
      res := Some(inputBuffer[..n - 2]);
      inputBuffer := inputBuffer[n..];
    }

    /** `read_header` */
    method ReadHeader() returns (params: Option<seq<string>>)
      modifies this`inputBuffer, socket`incoming
      ensures params == FirstHeader(old(socket.incoming))
      ensures params.Some? ==> inputBuffer + socket.incoming == AfterHeader(old(socket.incoming))
    {
      var header := ReadSyncUntilDelimiter();
      match header {
        case None => params := None;
        case Some(h) =>
          var ps := ExtractParams(h);
          params := Some(ps);
      }
    }

    /** `send_file_chunked` of a file that opens; `thrown` if the connection fails. */
    method SendFileChunked(content: Bytes, length: nat) returns (thrown: bool, cuts: seq<nat>)
      requires |data| == LEN_BUFF
      modifies this`data, socket`outgoing
      ensures |data| == LEN_BUFF
      ensures !thrown ==>
                Writes(ToInt32(length), cuts)
                && socket.outgoing == old(socket.outgoing) + Transmitted(content, 0, old(data), ToInt32(length), cuts)
    {
      thrown, cuts, data := SendChunks(socket, content, data, ToInt32(length));
    }

    /** `read_and_save_file`: what is left of the header read, then the rest of `filesize` in parts of
        any length. */
    method ReadAndSaveFile(n: Node, filesize: int, openOk: bool, closeOk: bool) returns (result: Saving)
      modifies this`local, socket`incoming
      ensures SameBut(old(local), local, LocalKey(n.AbsolutePath()))
      ensures !openOk ==> result == GivenUp && local == old(local) && socket.incoming == old(socket.incoming)
      ensures var stream := inputBuffer + old(socket.incoming);
              openOk ==>
                if filesize > |stream| then result == Spinning
                else var content := if filesize <= |inputBuffer| then inputBuffer else stream[..filesize];
                     && content + socket.incoming == stream
                     && local == old(local)[LocalKey(n.AbsolutePath()) := content]
                     && (result == if closeOk then Saved else GivenUp)
    {
      if !openOk {
        return GivenUp;
      }
      var size := filesize;
      var content: Bytes := "";
      ghost var stream := inputBuffer + socket.incoming;
      if |inputBuffer| > 0 {
        size := size - |inputBuffer|;
        content := content + inputBuffer;
      }
      assert content == inputBuffer;
      while size > 0
        invariant local == old(local) && content + socket.incoming == stream
        invariant size + |content| == filesize && |inputBuffer| <= |content|
        invariant filesize <= |inputBuffer| ==> content == inputBuffer
        invariant filesize > |inputBuffer| ==> size >= 0
        decreases size
      {
        var toReceive := if size > LEN_BUFF then LEN_BUFF else size;
        var part := socket.ReadSome(toReceive);
        if part == "" {
          return Spinning;
        }
        assert content + (part + socket.incoming) == content + part + socket.incoming;
        content := content + part;
        size := size - |part|;
      }
      assert content == stream[..|content|];
      assert filesize > |inputBuffer| ==> |content| == filesize;
      local := local[LocalKey(n.AbsolutePath()) := content];
      result := if closeOk then Saved else GivenUp;
    }

    /** `read_chunked_snapshot_and_set` */
    method ReadChunkedSnapshotAndSet(len: int) returns (result: Reading, parts: seq<nat>)
      modifies remote, socket`incoming
      ensures remote.removals == old(remote.removals)
      ensures result != Read ==> remote.contents == old(remote.contents)
      ensures result != Swallowed ==> SnapshotReads(len - |inputBuffer|, parts)
      ensures result == Overrun ==> FillsBuffer(parts)
      ensures var stream := inputBuffer + old(socket.incoming);
              |inputBuffer| <= len <= |stream| && NoNul(stream[..len]) ==>
                && result == (if FillsBuffer(parts) then Overrun else Read)
                && (result == Read ==>
                      && remote.contents == OnSnapshotBody(old(remote.contents), stream[..len])
                      && socket.incoming == stream[len..])
    {
      var tmp: Bytes;
      result, tmp, parts := ReadSnapshotBody(socket, inputBuffer, len);
      if result == Read {
        ReadLines(tmp);
      }
    }

    /** The second half of the snapshot reader: each line that names a path and a hash is set. */
    method ReadLines(tmp: Bytes)
      modifies remote
      ensures remote.contents == OnSnapshotBody(old(remote.contents), tmp)
      ensures remote.removals == old(remote.removals)
    {
      var lines := Split(tmp, REQUEST_DELIMITER);
      ghost var before := remote.contents;
      for i := 0 to |lines|
        invariant remote.contents == InsertAll(before, Entries(lines[..i]))
        invariant remote.removals == old(remote.removals)
      {
        var line := lines[i];
        LineAdded(before, lines, i);
        if line != "" {
          var arguments := Split(line, PARAM_DELIMITER);
          if |arguments| == 2 {
            var path, hash := arguments[0], arguments[1];
            remote.Set(path, SnapshotNode(path, hash));
          }
        }
      }
      assert lines[..|lines|] == lines;
    }

    /** `handle_errors` */
    method HandleErrors(code: int, node: Node)
      modifies remote
      ensures remote.contents == ErrorEffect(old(remote.contents), node, code)
    {
      if code == FILE_ALREADY_EXISTS {
        remote.Set(node.AbsolutePath(), node);
      } else if code == FILE_NOT_FOUND {
        remote.Remove(node.AbsolutePath());
      }
    }

    /** `handle_errors(stoi(...))`: throws if the code is no number. */
    method HandleErrorReply(params: seq<string>, node: Node) returns (thrown: bool)
      requires |params| == 2
      modifies remote
      ensures match OnError(old(remote.contents), node, params)
              case Some(m) => !thrown && remote.contents == m
              case None => thrown && remote.contents == old(remote.contents)
    {
      var code := Stoi(params[1]);
      if code.None? {
        return true;
      }
      HandleErrors(code.value, node);
      thrown := false;
    }

    /** The last reply to a PUT. */
    method PutReply(node: Node, params: seq<string>) returns (thrown: bool)
      modifies remote
      ensures match OnPutReply(old(remote.contents), node, params)
              case Some(m) => !thrown && remote.contents == m
              case None => thrown && remote.contents == old(remote.contents)
    {
      thrown := false;
      if IsOkay(params) {
        remote.Set(node.AbsolutePath(), node);
      }
      if IsError(params) {
        thrown := HandleErrorReply(params, node);
      }
    }

    /** The reply to a GET, with the file if there is one. */
    method GetReply(node: Node, params: seq<string>, openOk: bool, closeOk: bool) returns (thrown: bool, spins: bool)
      modifies this`local, socket`incoming, remote
      ensures SameBut(old(remote.contents), remote.contents, node.AbsolutePath())
      ensures SameBut(old(local), local, LocalKey(node.AbsolutePath()))
      ensures remote.removals == old(remote.removals) || IsError(params)
      ensures IsOkay(params) && Stol(params[1]).None? ==>
                thrown && !spins && local == old(local) && remote.contents == old(remote.contents)
      ensures IsOkay(params) && Stol(params[1]).Some? ==>
                var stream, n := inputBuffer + old(socket.incoming), ToInt32(Stol(params[1]).value);
                !thrown && (spins <==> openOk && n > |stream|)
                && (!openOk ==> local == old(local) && remote.contents == old(remote.contents))
                && (openOk && n <= |stream| ==>
                      var content := if n <= |inputBuffer| then inputBuffer else stream[..n];
                      && content + socket.incoming == stream
                         && local == old(local)[LocalKey(node.AbsolutePath()) := content]
                      && remote.contents
                         == if closeOk then InsertNew(old(remote.contents), node.AbsolutePath(),
                                                      node.SetLastHash(Sha(digest, content)))
                            else old(remote.contents))
      ensures !IsOkay(params) ==> !spins && local == old(local)
      ensures !IsOkay(params) ==>
                match OnGetRefused(old(remote.contents), node, params)
                case Some(m) => !thrown && remote.contents == m
                case None => thrown && remote.contents == old(remote.contents)
    {
      thrown, spins := false, false;
      if IsOkay(params) {
        var filesize := Stol(params[1]);
        if filesize.None? {
          return true, false;
        }
        var ris := ReadAndSaveFile(node, ToInt32(filesize.value), openOk, closeOk);
        if ris == Spinning {
          return false, true;
        }
        if ris == Saved {
          var hash := GetSha(digest, local[LocalKey(node.AbsolutePath())]);
          remote.Set(node.AbsolutePath(), node.SetLastHash(hash));
        }
      }
      if IsError(params) {
        thrown := HandleErrorReply(params, node);
      }
    }

    /** The reply to a SNAPSHOT, with its body. */
    method SnapshotReply(params: seq<string>) returns (thrown: bool, overrun: bool)
      modifies socket`incoming, remote
      ensures remote.removals == old(remote.removals)
      ensures thrown <==> |params| < 1 || (params[0] == "OK" && !SnapshotOkay(params))
      ensures !SnapshotOkay(params) || overrun ==> remote.contents == old(remote.contents)
      ensures overrun ==> SnapshotOkay(params) && Stoi(params[2]).value >= LEN_BUFF + |inputBuffer|
      ensures SnapshotOkay(params) ==>
                var stream, n := inputBuffer + old(socket.incoming), Stoi(params[2]).value;
                |inputBuffer| <= n <= |stream| && NoNul(stream[..n]) && !overrun ==>
                  remote.contents == OnSnapshotBody(old(remote.contents), stream[..n]) && socket.incoming == stream[n..]
    {
      thrown, overrun := false, false;
      if |params| < 1 || (params[0] == "OK" && |params| < 3) {
        return true, false;
      }
      if params[0] == "OK" {
        var entries, size := Stoi(params[1]), Stoi(params[2]);
        if entries.None? || size.None? {
          return true, false;
        }
        var result, parts := ReadChunkedSnapshotAndSet(size.value);
        overrun := result == Overrun;
        if overrun && size.value - |inputBuffer| < LEN_BUFF {
          SmallReadsFit(size.value - |inputBuffer|, parts);
        }
      }
    }

    method Disconnect()
      modifies this`connected
      ensures !connected
    {
      connected := false;
    }

    /** `connect`: a new connection, if there is one to be had, and its LOGIN; may throw. */
    method Connect(next: Option<Socket>) returns (thrown: bool)
      modifies this`connected, this`socket, this`inputBuffer, SocketsOf(next)
      ensures socket == if next.Some? then next.value else old(socket)
      ensures next.None? ==> !thrown && connected == old(connected)
      ensures next.Some? ==>
                && connected && (FirstHeader(old(next.value.incoming)).None? ==> thrown)
                && Wrote(Message(["LOGIN", name, pwd]), "", old(next.value.outgoing), socket.outgoing)
      ensures next.Some? && !thrown ==> inputBuffer + socket.incoming == AfterHeader(old(next.value.incoming))
    {
      thrown := false;
      if next.Some? {
        connected := true;
        socket := next.value;
        var failed := DoWriteStr(Message(["LOGIN", name, pwd]));
        if failed {
          return true;
        }
        var response := ReadHeader();
        thrown := response.None?;
      }
    }

    /** The branches of `handle_response`, once the header is read. */
    method Branch(req: Request, params: seq<string>, openOk: bool, closeOk: bool) returns (thrown: bool, end: Ending)
      requires !req.verb.PATCH?
      modifies this`local, socket`incoming, remote
      ensures end != Terminated && (req.verb.PUT? || req.verb.DELETE? ==> end == Returned)
      ensures !req.verb.SNAPSHOT? ==> SameBut(old(remote.contents), remote.contents, req.node.AbsolutePath())
      ensures !req.verb.GET? ==> local == old(local)
      ensures end == SpinsForever <==> EndsEarly(req, params, openOk, inputBuffer + old(socket.incoming))
      ensures end == BufferOverrun ==> req.verb.SNAPSHOT?
      ensures end == Returned ==> (thrown <==> Throws(req, params))
      ensures end == Returned ==>
                Handled(digest, req, openOk && closeOk, params, inputBuffer + old(socket.incoming),
                        old(remote.contents), remote.contents, old(local), local)
    {
      thrown, end := false, Returned;
      ghost var stream := inputBuffer + socket.incoming;
      match req.verb {
        case PUT =>
          thrown := PutReply(req.node, params);
        case DELETE =>
          if IsOkay(params) {
            remote.Remove(req.node.AbsolutePath());
          }
        case GET =>
          var spins;
          thrown, spins := GetReply(req.node, params, openOk, closeOk);
          if spins {
            end := SpinsForever;
          }
        case SNAPSHOT =>
          var overrun;
          thrown, overrun := SnapshotReply(params);
          if overrun {
            end := BufferOverrun;
          }
      }
      assert stream[..|stream|] == stream;
    }

    /** `handle_response` on a live connection. */
    method HandleResponse(req: Request, openOk: bool, closeOk: bool) returns (end: Ending)
      requires !req.verb.PATCH? && (req.verb.SNAPSHOT? ==> req.node.path == "SNAPSHOT")
      modifies this`inputBuffer, this`local, this`connected, socket`incoming, remote, pending
      ensures end == Returned ==>
                RemovedOnce(old(pending.removals), pending.removals, old(pending.contents), pending.contents,
                            req.node.path)
      ensures end != Terminated && (req.verb.PUT? || req.verb.DELETE? ==> end == Returned)
      ensures end == SpinsForever <==>
                && FirstHeader(old(socket.incoming)).Some?
                && EndsEarly(req, FirstHeader(old(socket.incoming)).value, openOk, AfterHeader(old(socket.incoming)))
      ensures !req.verb.SNAPSHOT? ==> SameBut(old(remote.contents), remote.contents, req.node.AbsolutePath())
      ensures end == Returned && FirstHeader(old(socket.incoming)).Some? ==>
                Responded(digest, req, openOk && closeOk, old(socket.incoming),
                               old(remote.contents), remote.contents, old(local), local)
      ensures FirstHeader(old(socket.incoming)).None? ==>
                !connected && remote.contents == old(remote.contents) && local == old(local)
      ensures end == Returned && FirstHeader(old(socket.incoming)).Some? ==>
                connected == (old(connected) && !Throws(req, FirstHeader(old(socket.incoming)).value))
      ensures !req.verb.GET? ==> local == old(local)
    {
      var header := ReadHeader();
      var thrown := header.None?;
      if header.Some? {
        thrown, end := Branch(req, header.value, openOk, closeOk);
        if end != Returned {
          return end;
        }
      }
      if !thrown {
        pending.Remove(if req.verb.SNAPSHOT? then "SNAPSHOT" else req.node.path);
      } else {
        pending.Remove(req.node.path);
        Disconnect();
      }
      end := Returned;
    }

    /** PUT once it has been told to go on: the file, and the last reply. `cuts` are the lengths the
        writes had. */
    method PutBody(req: Request, openOk: bool) returns (thrown: bool, ghost cuts: seq<nat>)
      requires |data| == LEN_BUFF && req.verb.PUT? && req.node.size.Some?
      modifies this`inputBuffer, this`local, this`connected, this`data, socket, remote, pending
      ensures |data| == LEN_BUFF && local == old(local)
      ensures SameBut(old(remote.contents), remote.contents, req.node.AbsolutePath())
      ensures thrown ==> pending.removals == old(pending.removals) && pending.contents == old(pending.contents)
      ensures !thrown ==>
                RemovedOnce(old(pending.removals), pending.removals, old(pending.contents), pending.contents,
                            req.node.path)
      ensures var key := LocalKey(req.node.AbsolutePath());
              !thrown && (!openOk || key !in old(local)) ==>
                !connected && remote.contents == old(remote.contents) && socket.outgoing == old(socket.outgoing)
      ensures var key, size := LocalKey(req.node.AbsolutePath()), ToInt32(req.node.size.value);
              !thrown && openOk && key in old(local) ==>
                && Writes(size, cuts)
                && socket.outgoing == old(socket.outgoing) + Transmitted(old(local)[key], 0, old(data), size, cuts)
                && (size == |old(local)[key]| && WholeWrites(size, cuts) ==>
                      socket.outgoing == old(socket.outgoing) + old(local)[key])
      ensures !thrown && openOk && LocalKey(req.node.AbsolutePath()) in old(local) && old(connected) ==>
                LastReply(req.node, old(socket.incoming), connected, old(remote.contents), remote.contents)
    {
      thrown, cuts := false, [];
      var key := LocalKey(req.node.AbsolutePath());
      if openOk && key in local {
        var lengths;
        thrown, lengths := SendFileChunked(local[key], req.node.size.value);
        if thrown {
          return;
        }
        cuts := lengths;
        WholeFileSent(local[key], old(data), ToInt32(req.node.size.value), cuts);
        var _ := HandleResponse(req, true, true);
      } else {
        pending.Remove(req.node.path);
        Disconnect();
      }
    }

    /** The branch of `handle_request` for PUT; `thrown` is an exception caught by `handle_request`,
        not one that `handle_response` caught itself. */
    method PutFile(req: Request, openOk: bool) returns (thrown: bool, ghost cuts: seq<nat>)
      requires |data| == LEN_BUFF && req.verb.PUT?
      requires req.node.size.Some? && |req.node.hashes| > 0
      modifies this`inputBuffer, this`local, this`connected, this`data, socket, remote, pending
      ensures |data| == LEN_BUFF && local == old(local)
      ensures SameBut(old(remote.contents), remote.contents, req.node.AbsolutePath())
      ensures thrown ==> pending.removals == old(pending.removals) && pending.contents == old(pending.contents)
      ensures !thrown ==> FirstHeader(old(socket.incoming)).Some?
      ensures !thrown ==>
                if Unforeseen(FirstHeader(old(socket.incoming)).value) then
                  pending.removals == old(pending.removals) && pending.contents == old(pending.contents)
                else
                  RemovedOnce(old(pending.removals), pending.removals, old(pending.contents), pending.contents,
                              req.node.path)
      ensures !thrown ==>
                PutAnswered(req.node, FirstHeader(old(socket.incoming)).value, old(remote.contents), remote.contents)
      ensures var key, size := LocalKey(req.node.AbsolutePath()), ToInt32(req.node.size.value);
              !thrown && FirstHeader(old(socket.incoming)).value == ["OK"] ==>
                if openOk && key in old(local) then
                  && Writes(size, cuts)
                  && Wrote(HeaderText(req), Transmitted(old(local)[key], 0, old(data), size, cuts),
                           old(socket.outgoing), socket.outgoing)
                  && (size == |old(local)[key]| && WholeWrites(size, cuts) ==>
                        Wrote(HeaderText(req), old(local)[key], old(socket.outgoing), socket.outgoing))
                  && (old(connected) ==>
                        LastReplyBeyond(req.node, AfterHeader(old(socket.incoming)), connected, old(remote.contents),
                                        remote.contents))
                else !connected
    {
      cuts := [];
      var failed := DoWriteStr(HeaderText(req));
      if failed {
        return true, [];
      }
      var params := ReadHeader();
      if params.None? {
        return true, [];
      }
      thrown := false;
      if params.value == ["OK"] {
        ghost var rest, taken, wrote := AfterHeader(old(socket.incoming)), |inputBuffer|, socket.outgoing;
        assert rest[taken..] == socket.incoming;
        thrown, cuts := PutBody(req, openOk);
        ghost var key := LocalKey(req.node.AbsolutePath());
        if !thrown && openOk && key in old(local) {
          WroteMore(HeaderText(req), old(socket.outgoing), wrote,
                    Transmitted(old(local)[key], 0, old(data), ToInt32(req.node.size.value), cuts));
          WholeFileSent(old(local)[key], old(data), ToInt32(req.node.size.value), cuts);
        }
      } else if IsError(params.value) {
        thrown := HandleErrorReply(params.value, req.node);
        if !thrown {
          pending.Remove(req.node.path);
        }
      }
    }

    /** `handle_request`. `next` is the connection a reconnect would get. */
    method HandleRequest(req: Request, openOk: bool, closeOk: bool, next: Option<Socket>)
      returns (end: Ending, ghost cuts: seq<nat>)
      requires |data| == LEN_BUFF
      requires req.verb.SNAPSHOT? ==> req.node.path == "SNAPSHOT"
      requires req.verb.PUT? ==> req.node.size.Some? && |req.node.hashes| > 0
      modifies this`inputBuffer, this`local, this`connected, this`data, this`socket
      modifies socket, remote, pending, SocketsOf(next)
      ensures |data| == LEN_BUFF
      ensures end == Terminated ==> !old(connected) && next.Some?
      ensures end == SpinsForever ==>
                && old(connected) && FirstHeader(old(socket.incoming)).Some?
                && EndsEarly(req, FirstHeader(old(socket.incoming)).value, openOk, AfterHeader(old(socket.incoming)))
      ensures !old(connected) ==>
                && remote.contents == old(remote.contents) && local == old(local)
                && connected == next.Some? && socket == (if next.Some? then next.value else old(socket))
                && (next.Some? ==> Wrote(Message(["LOGIN", name, pwd]), "", old(next.value.outgoing), socket.outgoing))
      ensures old(connected) && connected && end == Returned && !req.verb.PATCH? ==>
                && FirstHeader(old(socket.incoming)).Some?
                && if req.verb.PUT? then
                     var first := FirstHeader(old(socket.incoming)).value;
                     && PutAnswered(req.node, first, old(remote.contents), remote.contents)
                     && (first == ["OK"] ==>
                           var key, size := LocalKey(req.node.AbsolutePath()), ToInt32(req.node.size.value);
                           && key in old(local) && Writes(size, cuts)
                           && Wrote(HeaderText(req), Transmitted(old(local)[key], 0, old(data), size, cuts),
                                    old(socket.outgoing), socket.outgoing)
                           && (size == |old(local)[key]| && WholeWrites(size, cuts) ==>
                                 Wrote(HeaderText(req), old(local)[key], old(socket.outgoing), socket.outgoing))
                           && LastReplyBeyond(req.node, AfterHeader(old(socket.incoming)), true, old(remote.contents),
                                              remote.contents))
                   else
                     Wrote(HeaderText(req), "", old(socket.outgoing), socket.outgoing) &&
                     Responded(digest, req, openOk && closeOk, old(socket.incoming),
                               old(remote.contents), remote.contents, old(local), local)
      ensures !req.verb.SNAPSHOT? ==> SameBut(old(remote.contents), remote.contents, req.node.AbsolutePath())
      ensures end == Returned ==>
                || RemovedOnce(old(pending.removals), pending.removals, old(pending.contents), pending.contents,
                               req.node.path)
                || (pending.removals == old(pending.removals) && pending.contents == old(pending.contents)
                    && old(connected)
                    && (req.verb.PATCH?
                        || (req.verb.PUT? && FirstHeader(old(socket.incoming)).Some?
                            && Unforeseen(FirstHeader(old(socket.incoming)).value))))
    {
      cuts := [];
      if !connected {
        var lost := Connect(next);
        if lost {
          return Terminated, [];
        }
        pending.Remove(req.node.path);
        return Returned, [];
      }
      end := Returned;
      var thrown, failed := false, false;
      match req.verb {
        case PUT =>
          thrown, cuts := PutFile(req, openOk);
        case DELETE =>
          failed := DoWriteStr(HeaderText(req));
          if !failed { end := HandleResponse(req, openOk, closeOk); }
        case GET =>
          failed := DoWriteStr(HeaderText(req));
          if !failed { end := HandleResponse(req, openOk, closeOk); }
        case PATCH =>
        case SNAPSHOT =>
          failed := DoWriteStr(HeaderText(req));
          if !failed { end := HandleResponse(req, openOk, closeOk); }
      }
      if thrown || failed {
        pending.Remove(req.node.path);
        Disconnect();
      }
    }
  }

  ghost function SocketsOf(s: Option<Socket>): set<object> {
    if s.Some? then {s.value} else {}
  }

  /** Exactly one more key was given to `remove`, and it is gone. */
  ghost predicate RemovedOnce(removals0: seq<string>, removals: seq<string>, m0: map<string, bool>, m: map<string,
                              bool>, key: string) {
    removals == removals0 + [key] && m == m0 - {key}
  }
}
