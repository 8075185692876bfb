/** shared/const.h and the reply writers of server/session.cpp. */
module Protocol {
  import opened Wire
  import opened Numbers
  import opened Hashing

  const WRONG_CREDENTIALS := 1
  const UNKNOWN_COMMAND := 2
  const WRONG_N_ARGS := 3
  const UNKNOWN_ERROR := 5
  const FILE_CREATE_ERROR := 6
  const FILE_HASH_MISMATCH := 7
  const FILE_ALREADY_EXISTS := 8
  const FILE_DELETE_ERROR := 9
  const FILE_NOT_FOUND := 10
  const FILE_OPEN_ERROR := 11
  const USER_NOT_LOGGED := 12

  /** A message: its parameters joined, ended by CR LF. */
  function Message(fields: seq<Bytes>): Bytes {
    Join(fields, PARAM_DELIMITER) + REQUEST_DELIMITER
  }

  /** What the server writes: the four kinds of reply header, and the bytes of a body. */
  datatype Reply =
    | Okay
    | OkayWith(param: Bytes)
    | OkayWithTwo(param1: Bytes, param2: Bytes)
    | Failed(code: int)
    | Raw(data: Bytes)

  function Encode(r: Reply): Bytes {
    match r
    case Okay => Message(["OK"])
    case OkayWith(p) => Message(["OK", p])
    case OkayWithTwo(p, q) => Message(["OK", p, q])
    case Failed(code) => Message(["ERROR", ToString(code)])
    case Raw(data) => data
  }

  function EncodeAll(rs: seq<Reply>): Bytes {
    if |rs| == 0 then "" else EncodeAll(rs[..|rs| - 1]) + Encode(rs[|rs| - 1])
  }

  /** What a field of a message must be for the other end to read it as it was sent: not empty, free
      of both delimiters, and not ending in '#'. */
  ghost predicate CleanField(f: Bytes) {
    f != "" && Free(f, PARAM_DELIMITER) && Free(f, REQUEST_DELIMITER) && f[|f| - 1] != '#'
  }

  ghost predicate CleanFields(fields: seq<Bytes>) {
    forall i :: 0 <= i < |fields| ==> CleanField(fields[i])
  }

  lemma {:induction false} JoinHasNoCrLf(fields: seq<Bytes>)
    requires CleanFields(fields)
    ensures Free(Join(fields, PARAM_DELIMITER), REQUEST_DELIMITER)
  {
    if |fields| > 1 {
      assert CleanFields(fields[1..]);
      JoinHasNoCrLf(fields[1..]);
      var j := Join(fields, PARAM_DELIMITER);
      var head, tail := fields[0], Join(fields[1..], PARAM_DELIMITER);
      assert CleanField(head);
      forall i: nat ensures !At(j, REQUEST_DELIMITER, i) {
        if At(j, REQUEST_DELIMITER, i) {
          if i + 1 < |head| { assert At(head, REQUEST_DELIMITER, i); }
          else if i >= |head| + 2 { assert At(tail, REQUEST_DELIMITER, i - |head| - 2); }
        }
      }
    } else if |fields| == 1 {
      assert CleanField(fields[0]);
    }
  }

  /** A message of clean fields crosses the wire: the reader finds its end where it is, whatever
      follows it, and reads the fields that were sent. */
  lemma MessageCrosses(fields: seq<Bytes>, rest: Bytes)
    requires CleanFields(fields)
    ensures Find(Message(fields) + rest, REQUEST_DELIMITER) == |Message(fields)| - 2
    ensures Params((Message(fields) + rest)[..|Message(fields)| - 2]) == fields
  {
    var j := Join(fields, PARAM_DELIMITER);
    JoinHasNoCrLf(fields);
    FrameExact(j, rest);
    assert Message(fields) + rest == j + REQUEST_DELIMITER + rest;
    assert (Message(fields) + rest)[..|j|] == j;
    forall i | 0 <= i < |fields|
      ensures fields[i] != "" && Free(fields[i], PARAM_DELIMITER) && !HalfEnd(fields[i], PARAM_DELIMITER)
    {
      assert CleanField(fields[i]);
    }
    CodecExact(fields, PARAM_DELIMITER);
  }

  lemma NumberIsCleanField(n: int)
    ensures CleanField(ToString(n))
  {
    NumberIsClean(n);
  }

  lemma HashIsCleanField(digest: Sha256, content: Bytes)
    ensures CleanField(Sha(digest, content))
  {
    PrintedHash(digest, content);
    HashIsClean(Sha(digest, content));
  }
}
