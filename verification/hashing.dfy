/** shared/hasher.h: the chunked hash of a file and its printed form.

    SHA-256 itself is a parameter, `digest`: any function from byte strings to 32 byte values. The
    context of the incremental interface is the byte string fed to it so far, which is what
    SHA256_Update promises and all that the callers rely on. */
module Hashing {
  import opened Wire

  newtype Octet = n: int | 0 <= n < 256
  const DIGEST_LENGTH: nat := 32
  const FILE_BUFFER: nat := 4096
  type Digest = d: seq<Octet> | |d| == DIGEST_LENGTH witness seq(DIGEST_LENGTH, i => 0)
  type Sha256 = Bytes -> Digest

  function HexDigit(n: nat): char
    requires n < 16
  {
    "0123456789abcdef"[n]
  }

  function HexOctet(o: Octet): (s: Bytes)
    ensures |s| == 2
  {
    [HexDigit(o as nat / 16), HexDigit(o as nat % 16)]
  }

  function Hex(d: seq<Octet>): (s: Bytes)
    ensures |s| == 2 * |d|
  {
    if |d| == 0 then "" else Hex(d[..|d| - 1]) + HexOctet(d[|d| - 1])
  }

  /** The printed hash of a byte string. */
  function Sha(digest: Sha256, content: Bytes): (s: Bytes)
    ensures |s| == 64
  {
    Hex(digest(content))
  }

  const SALT: Bytes := "pdsproject201920"

  function PswSha(digest: Sha256, psw: Bytes): (s: Bytes)
    ensures |s| == 64
  {
    Sha(digest, psw + SALT)
  }

  predicate IsHexDigit(c: char) {
    '0' <= c <= '9' || 'a' <= c <= 'f'
  }

  ghost predicate IsPrintedHash(s: Bytes) {
    |s| == 64 && forall i :: 0 <= i < |s| ==> IsHexDigit(s[i])
  }

  lemma {:induction false} HexIsHex(d: seq<Octet>)
    ensures forall i :: 0 <= i < |Hex(d)| ==> IsHexDigit(Hex(d)[i])
  {
    if |d| > 0 {
      HexIsHex(d[..|d| - 1]);
    }
  }

  lemma {:induction false} HexInjective(a: seq<Octet>, b: seq<Octet>)
    requires |a| == |b| && Hex(a) == Hex(b)
    ensures a == b
  {
    if |a| > 0 {
      var n := |a| - 1;
      SameTails(Hex(a[..n]), HexOctet(a[n]), Hex(b[..n]), HexOctet(b[n]));
      HexInjective(a[..n], b[..n]);
      HexOctetInjective(a[n], b[n]);
      assert a == a[..n] + [a[n]] && b == b[..n] + [b[n]];
    }
  }

  lemma SameTails(a: Bytes, x: Bytes, b: Bytes, y: Bytes)
    requires |a| == |b| && a + x == b + y
    ensures a == b && x == y
  {
    assert (a + x)[..|a|] == a && (b + y)[..|b|] == b;
    assert (a + x)[|a|..] == x && (b + y)[|b|..] == y;
  }

  lemma HexOctetInjective(x: Octet, y: Octet)
    requires HexOctet(x) == HexOctet(y)
    ensures x == y
  {
    assert HexOctet(x)[0] == HexOctet(y)[0] && HexOctet(x)[1] == HexOctet(y)[1];
    HexDigitInjective(x as nat / 16, y as nat / 16);
    HexDigitInjective(x as nat % 16, y as nat % 16);
  }

  lemma HexDigitInjective(m: nat, n: nat)
    requires m < 16 && n < 16 && HexDigit(m) == HexDigit(n)
    ensures m == n
  {
  }

  /** The digits in the order of their values. */
  lemma HexDigitValue(n: nat)
    requires n < 16
    ensures HexDigit(n) == if n < 10 then '0' + n as char else 'a' + (n - 10) as char
  {
  }

  /** Octet by octet: first the digit of the upper four bits, then that of the lower. */
  lemma {:induction false} HexAt(d: seq<Octet>, i: nat)
    requires i < |d|
    ensures Hex(d)[2 * i] == HexDigit(d[i] as nat / 16) && Hex(d)[2 * i + 1] == HexDigit(d[i] as nat % 16)
  {
    var n := |d| - 1;
    if i < n { HexAt(d[..n], i); }
  }

  /** A printed hash, digit by digit. */
  lemma ShaAt(digest: Sha256, content: Bytes, i: nat)
    requires i < 32
    ensures var o, s := digest(content)[i], Sha(digest, content);
            s[2 * i] == HexDigit(o as nat / 16) && s[2 * i + 1] == HexDigit(o as nat % 16)
  {
    HexAt(digest(content), i);
  }

  /** Two passwords have the same stored hash if and only if the digest cannot tell them, salted, apart. */
  lemma SamePassword(digest: Sha256, a: Bytes, b: Bytes)
    ensures PswSha(digest, a) == Sha(digest, a + "pdsproject201920")
    ensures PswSha(digest, a) == PswSha(digest, b) <==> digest(a + "pdsproject201920") == digest(b + "pdsproject201920")
  {
    PrintedHash(digest, a + SALT);
  }

  /** A printed hash is 64 lower-case hex digits, so it holds neither delimiter, neither starts nor
      ends one, and is never the empty string that stands for "no entry"; and it determines the
      digest. */
  lemma PrintedHash(digest: Sha256, a: Bytes)
    ensures IsPrintedHash(Sha(digest, a))
    ensures Free(Sha(digest, a), PARAM_DELIMITER) && Free(Sha(digest, a), REQUEST_DELIMITER)
    ensures forall b :: Sha(digest, a) == Sha(digest, b) <==> digest(a) == digest(b)
  {
    HexIsHex(digest(a));
    forall b | Sha(digest, a) == Sha(digest, b) ensures digest(a) == digest(b) {
      HexInjective(digest(a), digest(b));
    }
  }

  lemma HashIsClean(s: Bytes)
    requires IsPrintedHash(s)
    ensures s != "" && Free(s, PARAM_DELIMITER) && Free(s, REQUEST_DELIMITER)
    ensures s[0] != '#' && s[|s| - 1] != '#'
  {
  }

  /** `shaToString`: two digits an octet, most significant first. */
  method ShaToString(sha: Digest) returns (s: Bytes)
    ensures s == Hex(sha) && |s| == 64
    ensures forall i :: 0 <= i < DIGEST_LENGTH ==>
              s[2 * i] == HexDigit(sha[i] as nat / 16) && s[2 * i + 1] == HexDigit(sha[i] as nat % 16)
  {
    s := "";
    for i := 0 to DIGEST_LENGTH
      invariant s == Hex(sha[..i])
    {
      assert sha[..i + 1][..i] == sha[..i];
      s := s + HexOctet(sha[i]);
    }
    assert sha[..DIGEST_LENGTH] == sha;
    forall i | 0 <= i < DIGEST_LENGTH
      ensures s[2 * i] == HexDigit(sha[i] as nat / 16) && s[2 * i + 1] == HexDigit(sha[i] as nat % 16)
    {
      HexAt(sha, i);
    }
  }

  /** `getSHA`: feeds the file to the context in blocks of 4096 bytes, the last one short. */
  method GetSha(digest: Sha256, file: Bytes) returns (s: Bytes)
    ensures s == Sha(digest, file)
  {
    var ctx: Bytes := "";
    var pos: nat := 0;
    var fileBuffer: Bytes := if |file| < FILE_BUFFER then file else file[..FILE_BUFFER];
    while |fileBuffer| > 0
      invariant pos <= |file| && ctx == file[..pos]
      invariant |fileBuffer| == if |file| - pos < FILE_BUFFER then |file| - pos else FILE_BUFFER
      invariant fileBuffer == file[pos..][..|fileBuffer|]
      decreases |file| - pos
    {
      assert file[..pos] + file[pos..][..|fileBuffer|] == file[..pos + |fileBuffer|];
      ctx := ctx + fileBuffer;
      pos := pos + |fileBuffer|;
      var rest := file[pos..];
      fileBuffer := if |rest| < FILE_BUFFER then rest else rest[..FILE_BUFFER];
    }
    assert ctx == file;
    s := ShaToString(digest(ctx));
  }
}
