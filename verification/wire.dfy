/** The wire format: parameters separated by "##", messages ended by CR LF.

    A byte is a `char` here, as it is in the std::string of the program. Both delimiters have two
    characters; "##" can overlap itself, CR LF cannot, and that is the whole difference between what
    the two of them demand of the text they separate. */
module Wire {
  type Bytes = string
  type Delimiter = d: string | |d| == 2 witness "##"

  const PARAM_DELIMITER: Delimiter := "##"
  const REQUEST_DELIMITER: Delimiter := "\r\n"
  const LEN_BUFF: nat := 10000

  predicate At(s: Bytes, d: Delimiter, i: nat) {
    i + 1 < |s| && s[i] == d[0] && s[i + 1] == d[1]
  }

  /** `d` does not occur in `s`. */
  ghost predicate Free(s: Bytes, d: Delimiter) {
    forall i: nat :: !At(s, d, i)
  }

  /** `s` ends in half of a delimiter that can overlap itself. */
  predicate HalfEnd(s: Bytes, d: Delimiter) {
    d[0] == d[1] && |s| > 0 && s[|s| - 1] == d[0]
  }

  /** Position of the leftmost occurrence of `d` in `s`, or `|s|`. */
  function Find(s: Bytes, d: Delimiter): (r: nat)
    ensures r <= |s|
    ensures r < |s| ==> At(s, d, r) && forall j: nat :: j < r ==> !At(s, d, j)
    ensures r == |s| ==> Free(s, d)
  {
    if |s| < 2 then |s|
    else if At(s, d, 0) then 0
    else
      var r := Find(s[1..], d);
      assert forall j: nat :: At(s, d, j + 1) == At(s[1..], d, j);
      assert forall j: nat :: j > 0 ==> At(s, d, j) == At(s[1..], d, j - 1);
      r + 1
  }

  lemma FindIs(s: Bytes, d: Delimiter, i: nat)
    requires At(s, d, i) && forall j: nat :: j < i ==> !At(s, d, j)
    ensures Find(s, d) == i
  {
  }

  /** Leftmost, non-overlapping split; adjacent delimiters give empty tokens. */
  function Split(s: Bytes, d: Delimiter): (r: seq<Bytes>)
    ensures |r| >= 1
    decreases |s|
  {
    var i := Find(s, d);
    if i == |s| then [s] else [s[..i]] + Split(s[i + 2..], d)
  }

  function Join(fields: seq<Bytes>, d: Delimiter): Bytes {
    if |fields| == 0 then ""
    else if |fields| == 1 then fields[0]
    else fields[0] + d + Join(fields[1..], d)
  }

  function DropEmpty(tokens: seq<Bytes>): (r: seq<Bytes>)
    ensures forall f :: f in r ==> f != ""
    ensures |r| <= |tokens|
  {
    if |tokens| == 0 then []
    else if tokens[0] == "" then DropEmpty(tokens[1..])
    else [tokens[0]] + DropEmpty(tokens[1..])
  }

  /** The parameters of a message, as both ends read them. */
  function Params(s: Bytes): (r: seq<Bytes>)
    ensures forall f :: f in r ==> f != ""
  {
    DropEmpty(Split(s, PARAM_DELIMITER))
  }

  /** The condition on fields under which splitting undoes joining. */
  ghost predicate Tidy(fields: seq<Bytes>, d: Delimiter) {
    forall i :: 0 <= i < |fields| ==>
      Free(fields[i], d) && (i < |fields| - 1 ==> !HalfEnd(fields[i], d))
  }

  ghost predicate AllNonEmpty(fields: seq<Bytes>) {
    forall i :: 0 <= i < |fields| ==> fields[i] != ""
  }

  /** A delimiter that follows `h` is found exactly at the end of `h` if and only if `h` neither
      contains it nor ends in half of it. */
  lemma FindAfter(h: Bytes, d: Delimiter, rest: Bytes)
    ensures Find(h + d + rest, d) == |h| <==> Free(h, d) && !HalfEnd(h, d)
  {
    var s := h + d + rest;
    assert At(s, d, |h|);
    if Free(h, d) && !HalfEnd(h, d) {
      forall j: nat | j < |h| ensures !At(s, d, j) {
        assert !At(h, d, j);
        if j == |h| - 1 { assert s[j] == h[j]; assert s[j + 1] == d[0]; }
      }
      FindIs(s, d, |h|);
    } else if !Free(h, d) {
      var i: nat :| At(h, d, i);
      assert At(s, d, i);
    } else {
      assert At(s, d, |h| - 1);
    }
  }

  lemma SplitAfter(h: Bytes, d: Delimiter, rest: Bytes)
    requires Free(h, d) && !HalfEnd(h, d)
    ensures Split(h + d + rest, d) == [h] + Split(rest, d)
  {
    var s := h + d + rest;
    FindAfter(h, d, rest);
    assert s[..|h|] == h && s[|h| + 2..] == rest;
  }

  lemma SplitFree(s: Bytes, d: Delimiter)
    requires Free(s, d)
    ensures Split(s, d) == [s]
  {
  }

  lemma {:induction false} DropEmptyConcat(a: seq<Bytes>, b: seq<Bytes>)
    ensures DropEmpty(a + b) == DropEmpty(a) + DropEmpty(b)
  {
    if a == [] {
      assert a + b == b;
    } else {
      assert (a + b)[1..] == a[1..] + b;
      DropEmptyConcat(a[1..], b);
    }
  }

  lemma DropEmptyId(a: seq<Bytes>)
    requires AllNonEmpty(a)
    ensures DropEmpty(a) == a
  {
  }

  /** What a split produces always meets the condition. */
  lemma {:induction false} SplitIsTidy(s: Bytes, d: Delimiter)
    ensures Tidy(Split(s, d), d)
    decreases |s|
  {
    var i := Find(s, d);
    if i < |s| {
      SplitIsTidy(s[i + 2..], d);
      var tok := s[..i];
      forall j: nat ensures !At(tok, d, j) {
        if At(tok, d, j) { assert At(s, d, j); }
      }
      if HalfEnd(tok, d) { assert At(s, d, i - 1); }
      var rest := Split(s[i + 2..], d);
      forall k | 0 <= k < |Split(s, d)|
        ensures Free(Split(s, d)[k], d) && (k < |Split(s, d)| - 1 ==> !HalfEnd(Split(s, d)[k], d))
      {
        if k > 0 { assert Split(s, d)[k] == rest[k - 1]; }
      }
    }
  }

  lemma {:induction false} DropEmptyKeepsTidy(ts: seq<Bytes>, d: Delimiter)
    requires Tidy(ts, d)
    ensures Tidy(DropEmpty(ts), d)
  {
    if |ts| > 0 {
      assert Tidy(ts[1..], d) by {
        forall k | 0 <= k < |ts[1..]|
          ensures Free(ts[1..][k], d) && (k < |ts[1..]| - 1 ==> !HalfEnd(ts[1..][k], d))
        {
          assert ts[1..][k] == ts[k + 1];
        }
      }
      DropEmptyKeepsTidy(ts[1..], d);
      if ts[0] != "" {
        var rest := DropEmpty(ts[1..]);
        var r := DropEmpty(ts);
        forall k | 0 <= k < |r| ensures Free(r[k], d) && (k < |r| - 1 ==> !HalfEnd(r[k], d)) {
          if k > 0 { assert r[k] == rest[k - 1]; }
        }
      }
    }
  }

  lemma {:induction false} SplitJoin(fields: seq<Bytes>, d: Delimiter)
    requires |fields| > 0 && Tidy(fields, d)
    ensures Split(Join(fields, d), d) == fields
  {
    if |fields| == 1 {
      SplitFree(fields[0], d);
    } else {
      forall k | 0 <= k < |fields[1..]|
        ensures Free(fields[1..][k], d) && (k < |fields[1..]| - 1 ==> !HalfEnd(fields[1..][k], d))
      {
        assert fields[1..][k] == fields[k + 1];
      }
      SplitJoin(fields[1..], d);
      SplitAfter(fields[0], d, Join(fields[1..], d));
    }
  }

  /** Codec exactness, for any two-character delimiter: splitting and dropping empties inverts
      joining exactly when the fields are tidy. */
  lemma CodecExact(fields: seq<Bytes>, d: Delimiter)
    requires AllNonEmpty(fields)
    ensures DropEmpty(Split(Join(fields, d), d)) == fields <==> Tidy(fields, d)
  {
    if Tidy(fields, d) {
      if |fields| > 0 {
        SplitJoin(fields, d);
        DropEmptyId(fields);
      } else {
        SplitFree("", d);
      }
    } else {
      SplitIsTidy(Join(fields, d), d);
      DropEmptyKeepsTidy(Split(Join(fields, d), d), d);
    }
  }

  /** Codec exactness for the parameters of a header. */
  lemma ParamsExact(fields: seq<Bytes>)
    requires AllNonEmpty(fields)
    ensures Params(Join(fields, PARAM_DELIMITER)) == fields <==>
            forall i :: 0 <= i < |fields| ==>
              Free(fields[i], PARAM_DELIMITER) && (i < |fields| - 1 ==> fields[i][|fields[i]| - 1] != '#')
  {
    CodecExact(fields, PARAM_DELIMITER);
  }

  /** CR LF framing: the reader of `h` CR LF `rest` gets exactly `h` if and only if `h` has no CR LF
      in it; how `h` ends does not matter, a final CR included. */
  lemma FrameExact(h: Bytes, rest: Bytes)
    ensures Find(h + REQUEST_DELIMITER + rest, REQUEST_DELIMITER) == |h| <==> Free(h, REQUEST_DELIMITER)
  {
    FindAfter(h, REQUEST_DELIMITER, rest);
  }

  /** `extract_params` of either end: split, then keep the tokens that are not empty. */
  method ExtractParams(str: Bytes) returns (params: seq<Bytes>)
    ensures params == Params(str)
  {
    var tmp := Split(str, PARAM_DELIMITER);
    params := [];
    for i := 0 to |tmp|
      invariant params == DropEmpty(tmp[..i])
    {
      DropEmptyConcat(tmp[..i], [tmp[i]]);
      assert tmp[..i + 1] == tmp[..i] + [tmp[i]];
      if tmp[i] != "" {
        params := params + [tmp[i]];
      }
    }
    assert tmp[..|tmp|] == tmp;
  }
}
