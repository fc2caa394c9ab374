/** The binary crash blob: a writer that fills a preallocated buffer and a parser
    that must undo it. */
module CrashBlob {
  import opened Prelude

  const MAGIC: Bytes := [0x47, 0x43, 0x52, 0x58]
  const VERSION: Byte := 1
  const MAX_FRAMES: nat := 64
  const VERSION_STRING_LEN: nat := 32
  const HEADER_SIZE: nat := 64

  // ----- little-endian integers

  function Pow256(k: nat): nat {
    if k == 0 then 1 else 256 * Pow256(k - 1)
  }

  function Le(n: nat, k: nat): (b: Bytes)
    ensures |b| == k
  {
    if k == 0 then [] else [n % 256] + Le(n / 256, k - 1)
  }

  function FromLe(b: Bytes): nat {
    if b == [] then 0 else b[0] + 256 * FromLe(b[1..])
  }

  lemma {:induction false} LeRoundTrip(n: nat, k: nat)
    requires n < Pow256(k)
    ensures FromLe(Le(n, k)) == n
  {
    if k != 0 {
      LeRoundTrip(n / 256, k - 1);
      assert Le(n, k)[1..] == Le(n / 256, k - 1);
    }
  }

  lemma {:induction false} FromLeRoundTrip(b: Bytes)
    ensures Le(FromLe(b), |b|) == b
    ensures FromLe(b) < Pow256(|b|)
  {
    if b != [] {
      FromLeRoundTrip(b[1..]);
      assert FromLe(b) / 256 == FromLe(b[1..]) && FromLe(b) % 256 == b[0];
    }
  }

  lemma {:induction false} AtLeastOnce(m: nat, d: nat)
    requires 1 <= m
    ensures d <= m * d
  {
    if 1 < m {
      AtLeastOnce(m - 1, d);
      assert m * d == (m - 1) * d + d;
    }
  }

  /** `q` is `n` divided by `d`, rounded down. */
  ghost predicate Quotient(n: nat, d: nat, q: nat) {
    q * d <= n < q * d + d
  }

  lemma OneQuotient(n: nat, d: nat, q: nat, q': nat)
    requires Quotient(n, d, q) && Quotient(n, d, q')
    ensures q <= q'
  {
    if q' < q {
      assert (q - q') * d == q * d - q' * d < d;
      AtLeastOnce(q - q', d);
    }
  }

  lemma IsDivision(n: nat, d: nat)
    requires 0 < d
    ensures Quotient(n, d, n / d)
  {
    assert n == (n / d) * d + n % d;
  }

  lemma DivisionIs(n: nat, d: nat, q: nat)
    requires 0 < d && Quotient(n, d, q)
    ensures n / d == q
  {
    IsDivision(n, d);
    OneQuotient(n, d, q, n / d);
    OneQuotient(n, d, n / d, q);
  }

  lemma QuotientTwice(n: nat, m: nat, p: nat, q: nat)
    requires Quotient(n, 256, m) && Quotient(m, p, q)
    ensures Quotient(n, 256 * p, q)
  {
    assert q * (256 * p) == 256 * (q * p);
  }

  lemma DivideTwice(n: nat, p: nat)
    requires 0 < p
    ensures n / 256 / p == n / (256 * p)
  {
    IsDivision(n, 256);
    IsDivision(n / 256, p);
    QuotientTwice(n, n / 256, p, n / 256 / p);
    DivisionIs(n, 256 * p, n / 256 / p);
  }

  /** Byte `i` is the one of weight 256 to the `i`: the least significant comes first. */
  lemma {:induction false} LeByte(n: nat, k: nat, i: nat)
    requires i < k
    ensures 0 < Pow256(i) && Le(n, k)[i] == n / Pow256(i) % 256
  {
    if i != 0 {
      LeByte(n / 256, k - 1, i - 1);
      DivideTwice(n, Pow256(i - 1));
    }
  }

  lemma Powers()
    ensures Pow256(2) == 0x1_0000 && Pow256(4) == 0x1_0000_0000 && Pow256(8) == 0x1_0000_0000_0000_0000
  {
    assert Pow256(2) == 256 * Pow256(1) == 0x1_0000;
    assert Pow256(4) == 256 * (256 * Pow256(2));
    assert Pow256(6) == 256 * (256 * Pow256(4));
    assert Pow256(8) == 256 * (256 * Pow256(6));
  }

  // ----- the version field

  predicate Continues(b: Byte) {
    0x80 <= b <= 0xBF
  }

  /** Well-formed UTF-8, as in table 3-7 of the Unicode Standard. */
  predicate ValidUtf8(s: Bytes) {
    if s == [] then true
    else if s[0] < 0x80 then ValidUtf8(s[1..])
    else if 0xC2 <= s[0] <= 0xDF then
      2 <= |s| && Continues(s[1]) && ValidUtf8(s[2..])
    else if 0xE0 <= s[0] <= 0xEF then
      && 3 <= |s| && Continues(s[1]) && Continues(s[2])
      && (s[0] == 0xE0 ==> 0xA0 <= s[1]) && (s[0] == 0xED ==> s[1] <= 0x9F)
      && ValidUtf8(s[3..])
    else if 0xF0 <= s[0] <= 0xF4 then
      && 4 <= |s| && Continues(s[1]) && Continues(s[2]) && Continues(s[3])
      && (s[0] == 0xF0 ==> 0x90 <= s[1]) && (s[0] == 0xF4 ==> s[1] <= 0x8F)
      && ValidUtf8(s[4..])
    else false
  }

  function Zeros(n: nat): (z: Bytes)
    ensures |z| == n
    ensures forall i :: 0 <= i < n ==> z[i] == 0
  {
    if n == 0 then [] else [0] + Zeros(n - 1)
  }

  lemma {:induction false} ZerosAreUtf8(n: nat)
    ensures ValidUtf8(Zeros(n))
  {
    if n != 0 {
      ZerosAreUtf8(n - 1);
      assert Zeros(n)[1..] == Zeros(n - 1);
    }
  }

  lemma {:induction false} PaddingIsUtf8(s: Bytes, n: nat)
    requires ValidUtf8(s)
    ensures ValidUtf8(s + Zeros(n))
    decreases |s|
  {
    if s == [] {
      ZerosAreUtf8(n);
      assert s + Zeros(n) == Zeros(n);
    } else {
      var k := if s[0] < 0x80 then 1 else if s[0] <= 0xDF then 2 else if s[0] <= 0xEF then 3 else 4;
      assert (s + Zeros(n))[k..] == s[k..] + Zeros(n);
      PaddingIsUtf8(s[k..], n);
    }
  }

  function TrimNul(s: Bytes): Bytes {
    if s != [] && s[|s| - 1] == 0 then TrimNul(s[..|s| - 1]) else s
  }

  lemma {:induction false} TrimNulPadded(s: Bytes, n: nat)
    ensures TrimNul(s + Zeros(n)) == TrimNul(s)
    decreases n
  {
    if n == 0 {
      assert s + Zeros(0) == s;
    } else {
      var t := s + Zeros(n);
      assert Zeros(n)[n - 1] == 0;
      assert t[..|t| - 1] == s + Zeros(n - 1) by {
        assert Zeros(n)[..n - 1] == Zeros(n - 1);
      }
      TrimNulPadded(s, n - 1);
    }
  }

  lemma {:induction false} TrimNulShorter(s: Bytes)
    ensures |TrimNul(s)| <= |s|
    ensures TrimNul(s) == s <==> (s == [] || s[|s| - 1] != 0)
    ensures s == TrimNul(s) + Zeros(|s| - |TrimNul(s)|)
    decreases |s|
  {
    if s != [] && s[|s| - 1] == 0 {
      var front := s[..|s| - 1];
      TrimNulShorter(front);
      var n := |front| - |TrimNul(front)|;
      assert Zeros(n + 1) == Zeros(n) + [0];
    }
  }

  /** The null-padded, possibly cut, 32-byte field for a version string. */
  function VersionField(v: Bytes): (f: Bytes)
    ensures |f| == VERSION_STRING_LEN
  {
    if |v| <= VERSION_STRING_LEN then v + Zeros(VERSION_STRING_LEN - |v|) else v[..VERSION_STRING_LEN]
  }

  /** What the parser makes of the field; invalid UTF-8 reads as empty. */
  function FieldText(f: Bytes): Bytes {
    if ValidUtf8(f) then TrimNul(f) else []
  }

  /** A version string survives exactly when it fits and does not end in NUL. */
  lemma VersionRoundTripIff(v: Bytes)
    requires ValidUtf8(v)
    ensures FieldText(VersionField(v)) == v <==> |v| <= VERSION_STRING_LEN && (v == [] || v[|v| - 1] != 0)
  {
    if |v| <= VERSION_STRING_LEN {
      FittingVersion(v);
      TrimNulFixes(v);
    } else {
      LongVersion(v);
    }
  }

  lemma FittingVersion(v: Bytes)
    requires ValidUtf8(v) && |v| <= VERSION_STRING_LEN
    ensures FieldText(VersionField(v)) == TrimNul(v)
  {
    var n: nat := VERSION_STRING_LEN - |v|;
    PaddedFieldText(v, n);
    FieldIsPadded(v, n);
  }

  lemma FieldIsPadded(v: Bytes, n: nat)
    requires |v| + n == VERSION_STRING_LEN
    ensures VersionField(v) == v + Zeros(n)
  {
  }

  lemma LongVersion(v: Bytes)
    requires VERSION_STRING_LEN < |v|
    ensures |FieldText(VersionField(v))| <= VERSION_STRING_LEN
  {
    FieldTextIsShort(VersionField(v));
  }

  lemma TrimNulFixes(v: Bytes)
    ensures TrimNul(v) == v <==> (v == [] || v[|v| - 1] != 0)
  {
    TrimNulShorter(v);
  }

  lemma PaddedFieldText(v: Bytes, n: nat)
    requires ValidUtf8(v)
    ensures FieldText(v + Zeros(n)) == TrimNul(v)
  {
    PaddingIsUtf8(v, n);
    TrimNulPadded(v, n);
  }

  lemma FieldTextIsShort(f: Bytes)
    ensures |FieldText(f)| <= |f|
  {
    TrimNulShorter(f);
  }

  // ----- the blob

  datatype Crash = Crash(signal: Byte, code: int, addr: nat, pid: nat, timestamp: nat, frames: seq<nat>, version: Bytes)

  /** The ranges of the source's integer types. */
  predicate InRange(c: Crash) {
    && -0x8000_0000 <= c.code < 0x8000_0000
    && c.addr < 0x1_0000_0000_0000_0000 && c.pid < 0x1_0000_0000 && c.timestamp < 0x1_0000_0000_0000_0000
    && |c.frames| <= MAX_FRAMES
    && (forall i :: 0 <= i < |c.frames| ==> c.frames[i] < 0x1_0000_0000_0000_0000)
  }

  function ToUnsigned(i: int): nat
    requires -0x8000_0000 <= i < 0x8000_0000
  {
    if i < 0 then i + 0x1_0000_0000 else i
  }

  function ToSigned(n: nat): int {
    if n < 0x8000_0000 then n else n - 0x1_0000_0000
  }

  function Prologue(c: Crash): Bytes {
    MAGIC + [VERSION, c.signal]
  }

  function Frames(frames: seq<nat>): (b: Bytes)
    ensures |b| == 8 * |frames|
  {
    if frames == [] then [] else Frames(frames[..|frames| - 1]) + Le(frames[|frames| - 1], 8)
  }

  /** The header fields in order, 64 bytes in all. */
  function Header(c: Crash): (b: Bytes)
    requires -0x8000_0000 <= c.code < 0x8000_0000
    ensures |b| == HEADER_SIZE
  {
    Prologue(c) + Le(ToUnsigned(c.code), 4) + Le(c.addr, 8) + Le(c.pid, 4) + Le(c.timestamp, 8)
    + Le(|c.frames|, 2) + VersionField(c.version)
  }

  function Encoded(c: Crash): (b: Bytes)
    requires InRange(c)
    ensures |b| == HEADER_SIZE + 8 * |c.frames|
  {
    Header(c) + Frames(c.frames)
  }

  function FramesFrom(data: Bytes, n: nat): (frames: seq<nat>)
    requires HEADER_SIZE + 8 * n <= |data|
    ensures |frames| == n
  {
    if n == 0 then []
    else FramesFrom(data, n - 1) + [FromLe(data[HEADER_SIZE + 8 * (n - 1)..HEADER_SIZE + 8 * n])]
  }

  function Decoded(data: Bytes): Option<Crash> {
    if |data| < HEADER_SIZE || data[0..4] != MAGIC || data[4] != VERSION then None
    else
      var n := FromLe(data[30..32]);
      if n > MAX_FRAMES || |data| < HEADER_SIZE + 8 * n then None
      else
        Some(Crash(
          data[5],
          ToSigned(FromLe(data[6..10])),
          FromLe(data[10..18]),
          FromLe(data[18..22]),
          FromLe(data[22..30]),
          FramesFrom(data, n),
          FieldText(data[32..64])))
  }

  // ----- parsing undoes writing

  lemma SliceInner(a: Bytes, b: Bytes, c: Bytes, i: nat, n: nat)
    requires i + n <= |b|
    ensures (a + b + c)[|a| + i..|a| + i + n] == b[i..i + n]
  {
  }

  /** Where each field sits in the header. */
  lemma HeaderSlices(c: Crash)
    requires InRange(c)
    ensures
      var h := Header(c);
      && h[0..4] == MAGIC && h[4] == VERSION && h[5] == c.signal
      && h[6..10] == Le(ToUnsigned(c.code), 4) && h[10..18] == Le(c.addr, 8)
      && h[18..22] == Le(c.pid, 4) && h[22..30] == Le(c.timestamp, 8)
      && h[30..32] == Le(|c.frames|, 2) && h[32..64] == VersionField(c.version)
  {
    var p := Prologue(c);
    var code, addr, pid := Le(ToUnsigned(c.code), 4), Le(c.addr, 8), Le(c.pid, 4);
    var time, count, ver := Le(c.timestamp, 8), Le(|c.frames|, 2), VersionField(c.version);
    FieldSlices(p, code, addr, pid, time, count, ver);
  }

  lemma FieldSlices(p: Bytes, code: Bytes, addr: Bytes, pid: Bytes, time: Bytes, count: Bytes, ver: Bytes)
    requires |p| == 6 && |code| == 4 && |addr| == 8 && |pid| == 4 && |time| == 8 && |count| == 2 && |ver| == 32
    ensures
      var h := p + code + addr + pid + time + count + ver;
      && h[0..4] == p[0..4] && h[4] == p[4] && h[5] == p[5]
      && h[6..10] == code && h[10..18] == addr && h[18..22] == pid && h[22..30] == time
      && h[30..32] == count && h[32..64] == ver
  {
  }

  lemma {:induction false} FramesRead(data: Bytes, frames: seq<nat>, n: nat)
    requires n <= |frames| && HEADER_SIZE + 8 * |frames| <= |data|
    requires forall i :: 0 <= i < |frames| ==>
               FromLe(data[HEADER_SIZE + 8 * i..HEADER_SIZE + 8 * i + 8]) == frames[i]
    ensures FramesFrom(data, n) == frames[..n]
  {
    if n != 0 {
      FramesRead(data, frames, n - 1);
      assert frames[..n] == frames[..n - 1] + [frames[n - 1]];
      assert FromLe(data[HEADER_SIZE + 8 * (n - 1)..HEADER_SIZE + 8 * (n - 1) + 8]) == frames[n - 1];
    }
  }

  lemma FramesRoundTrip(head: Bytes, frames: seq<nat>, rest: Bytes)
    requires |head| == HEADER_SIZE
    requires forall i :: 0 <= i < |frames| ==> frames[i] < 0x1_0000_0000_0000_0000
    ensures FramesFrom(head + Frames(frames) + rest, |frames|) == frames
  {
    var data := head + Frames(frames) + rest;
    forall i | 0 <= i < |frames|
      ensures FromLe(data[HEADER_SIZE + 8 * i..HEADER_SIZE + 8 * i + 8]) == frames[i]
    {
      FrameSlice(frames, i);
      SliceInner(head, Frames(frames), rest, 8 * i, 8);
      FrameRoundTrip(frames[i]);
    }
    FramesRead(data, frames, |frames|);
    assert frames[..|frames|] == frames;
  }

  lemma FrameRoundTrip(frame: nat)
    requires frame < 0x1_0000_0000_0000_0000
    ensures FromLe(Le(frame, 8)) == frame
  {
    Powers();
    LeRoundTrip(frame, 8);
  }

  lemma {:induction false} FrameSlice(frames: seq<nat>, i: nat)
    requires i < |frames|
    ensures Frames(frames)[8 * i..8 * i + 8] == Le(frames[i], 8)
    decreases |frames|
  {
    var k := |frames| - 1;
    if i < k {
      FrameSlice(frames[..k], i);
      assert frames[..k][i] == frames[i];
      var a, b := Frames(frames[..k]), Le(frames[k], 8);
      assert (a + b)[8 * i..8 * i + 8] == a[8 * i..8 * i + 8];
    }
  }

  lemma FieldsRoundTrip(c: Crash)
    requires InRange(c)
    ensures
      var h := Header(c);
      && ToSigned(FromLe(h[6..10])) == c.code && FromLe(h[10..18]) == c.addr && FromLe(h[18..22]) == c.pid
      && FromLe(h[22..30]) == c.timestamp && FromLe(h[30..32]) == |c.frames|
  {
    HeaderSlices(c);
    Powers();
    LeRoundTrip(ToUnsigned(c.code), 4);
    LeRoundTrip(c.addr, 8);
    LeRoundTrip(c.pid, 4);
    LeRoundTrip(c.timestamp, 8);
    LeRoundTrip(|c.frames|, 2);
  }

  /** Parsing a written blob, with any bytes after it, gives back every field but
      possibly the version. */
  lemma ParseAfterWrite(c: Crash, rest: Bytes)
    requires InRange(c)
    ensures Decoded(Encoded(c) + rest) == Some(c.(version := FieldText(VersionField(c.version))))
  {
    var h, data := Header(c), Header(c) + Frames(c.frames) + rest;
    HeaderSlices(c);
    FieldsRoundTrip(c);
    HeaderPrefix(h, Frames(c.frames) + rest, data);
    FramesRoundTrip(h, c.frames, rest);
    assert data[0..4] == h[0..4] && data[6..10] == h[6..10] && data[10..18] == h[10..18];
    assert data[18..22] == h[18..22] && data[22..30] == h[22..30] && data[30..32] == h[30..32];
    assert data[32..64] == h[32..64];
  }

  /** The version comes back too, exactly when it fits its field and does not end
      in NUL. */
  lemma ParseUndoesWriteIff(c: Crash, rest: Bytes)
    requires InRange(c) && ValidUtf8(c.version)
    ensures Decoded(Encoded(c) + rest) == Some(c) <==>
            |c.version| <= VERSION_STRING_LEN && (c.version == [] || c.version[|c.version| - 1] != 0)
  {
    ParseAfterWrite(c, rest);
    VersionRoundTripIff(c.version);
  }

  /** Reading inside the header does not depend on what follows it. */
  lemma HeaderPrefix(h: Bytes, rest: Bytes, data: Bytes)
    requires |h| == HEADER_SIZE && data == h + rest
    ensures forall i, j :: 0 <= i <= j <= HEADER_SIZE ==> data[i..j] == h[i..j]
    ensures forall i :: 0 <= i < HEADER_SIZE ==> data[i] == h[i]
  {
  }

  /** Every proper prefix of a written blob is rejected. */
  lemma PrefixesAreRejected(c: Crash, k: nat)
    requires InRange(c) && k < |Encoded(c)|
    ensures Decoded(Encoded(c)[..k]).None?
  {
    if HEADER_SIZE <= k {
      var data := Encoded(c)[..k];
      HeaderSlices(c);
      assert data == Header(c) + Frames(c.frames)[..k - HEADER_SIZE];
      HeaderPrefix(Header(c), Frames(c.frames)[..k - HEADER_SIZE], data);
      Powers();
      LeRoundTrip(|c.frames|, 2);
    }
  }

  // ----- writing undoes parsing

  lemma {:induction false} FramesRewritten(data: Bytes, n: nat)
    requires HEADER_SIZE + 8 * n <= |data|
    ensures Frames(FramesFrom(data, n)) == data[HEADER_SIZE..HEADER_SIZE + 8 * n]
    ensures forall i :: 0 <= i < n ==> FramesFrom(data, n)[i] < 0x1_0000_0000_0000_0000
  {
    if n != 0 {
      var at := HEADER_SIZE + 8 * (n - 1);
      var front := FramesFrom(data, n - 1);
      FramesRewritten(data, n - 1);
      FrameRewritten(data[at..at + 8]);
      FramesSnoc(front, FromLe(data[at..at + 8]));
      JoinSlices(data, HEADER_SIZE, at, at + 8);
    }
  }

  lemma FrameRewritten(b: Bytes)
    requires |b| == 8
    ensures Le(FromLe(b), 8) == b && FromLe(b) < 0x1_0000_0000_0000_0000
  {
    FromLeRoundTrip(b);
    Powers();
  }

  lemma FramesSnoc(frames: seq<nat>, frame: nat)
    ensures Frames(frames + [frame]) == Frames(frames) + Le(frame, 8)
  {
    assert (frames + [frame])[..|frames|] == frames;
  }

  lemma JoinSlices(data: Bytes, i: nat, j: nat, k: nat)
    requires i <= j <= k <= |data|
    ensures data[i..j] + data[j..k] == data[i..k]
  {
  }

  lemma SignedRoundTrip(n: nat)
    requires n < 0x1_0000_0000
    ensures -0x8000_0000 <= ToSigned(n) < 0x8000_0000 && ToUnsigned(ToSigned(n)) == n
  {
  }

  /** Any accepted blob with a well-formed version field is the encoding of what it
      parses to: there is one encoding per crash. */
  lemma WriteUndoesParse(data: Bytes)
    requires Decoded(data).Some? && ValidUtf8(data[32..64])
    ensures InRange(Decoded(data).value)
    ensures var c := Decoded(data).value;
            Encoded(c) == data[..HEADER_SIZE + 8 * |c.frames|]
  {
    var c := Decoded(data).value;
    DecodedInRange(data);
    HeaderRewritten(data);
    FramesRewritten(data, |c.frames|);
    assert data[..HEADER_SIZE] + data[HEADER_SIZE..HEADER_SIZE + 8 * |c.frames|] == data[..HEADER_SIZE + 8 * |c.frames|];
  }

  lemma DecodedInRange(data: Bytes)
    requires Decoded(data).Some?
    ensures InRange(Decoded(data).value)
  {
    Powers();
    FromLeRoundTrip(data[6..10]);
    FromLeRoundTrip(data[10..18]);
    FromLeRoundTrip(data[18..22]);
    FromLeRoundTrip(data[22..30]);
    FramesRewritten(data, |Decoded(data).value.frames|);
  }

  lemma HeaderRewritten(data: Bytes)
    requires Decoded(data).Some? && ValidUtf8(data[32..64]) && InRange(Decoded(data).value)
    ensures Header(Decoded(data).value) == data[..HEADER_SIZE]
  {
    Powers();
    FromLeRoundTrip(data[6..10]);
    FromLeRoundTrip(data[10..18]);
    FromLeRoundTrip(data[18..22]);
    FromLeRoundTrip(data[22..30]);
    FromLeRoundTrip(data[30..32]);
    SignedRoundTrip(FromLe(data[6..10]));
    VersionRewritten(data[32..64]);
    assert Prologue(Decoded(data).value) == data[0..6];
    JoinFields(data);
  }

  lemma VersionRewritten(f: Bytes)
    requires |f| == VERSION_STRING_LEN && ValidUtf8(f)
    ensures VersionField(FieldText(f)) == f
  {
    TrimNulShorter(f);
  }

  lemma JoinFields(d: Bytes)
    requires HEADER_SIZE <= |d|
    ensures d[0..6] + d[6..10] + d[10..18] + d[18..22] + d[22..30] + d[30..32] + d[32..64] == d[..HEADER_SIZE]
  {
  }

  // ----- the writer on its buffer, and the parser's loop

  method CopyInto(buf: array<Byte>, at: nat, bytes: Bytes)
    requires at + |bytes| <= buf.Length
    modifies buf
    ensures buf[..at] == old(buf[..at])
    ensures buf[at..at + |bytes|] == bytes
    ensures buf[at + |bytes|..] == old(buf[at + |bytes|..])
  {
    for i := 0 to |bytes|
      invariant buf[..at] == old(buf[..at])
      invariant buf[at..at + i] == bytes[..i]
      invariant buf[at + i..] == old(buf[at + i..])
    {
      assert old(buf[at + i..])[1..] == old(buf[at + i + 1..]);
      buf[at + i] := bytes[i];
    }
  }

  /** Copying the next field extends the finished part of the buffer. */
  method Append(buf: array<Byte>, at: nat, bytes: Bytes, ghost done: Bytes)
    requires at + |bytes| <= buf.Length && |done| == at && buf[..at] == done
    modifies buf
    ensures buf[..at + |bytes|] == done + bytes
    ensures forall i :: at + |bytes| <= i < buf.Length ==> buf[i] == old(buf[i])
  {
    CopyInto(buf, at, bytes);
    assert buf[..at + |bytes|] == buf[..at] + buf[at..at + |bytes|];
    forall i | at + |bytes| <= i < buf.Length ensures buf[i] == old(buf[i]) {
      assert buf[at + |bytes|..][i - at - |bytes|] == old(buf[at + |bytes|..])[i - at - |bytes|];
    }
  }

  /** Fill the version field with zeros, then copy what fits. */
  method WriteVersion(buf: array<Byte>, version: Bytes, ghost done: Bytes)
    requires HEADER_SIZE <= buf.Length && |done| == 32 && buf[..32] == done
    modifies buf
    ensures buf[..HEADER_SIZE] == done + VersionField(version)
    ensures forall i :: HEADER_SIZE <= i < buf.Length ==> buf[i] == old(buf[i])
  {
    Append(buf, 32, Zeros(VERSION_STRING_LEN), done);
    var n := if |version| < VERSION_STRING_LEN then |version| else VERSION_STRING_LEN;
    ghost var padded := buf[..];
    assert padded[..32] == done && padded[32..HEADER_SIZE] == Zeros(32);
    CopyInto(buf, 32, version[..n]);
    assert buf[..HEADER_SIZE] == buf[..32] + buf[32..32 + n] + buf[32 + n..HEADER_SIZE];
    forall i | 32 + n <= i < buf.Length ensures buf[i] == padded[i] {
      assert buf[32 + n..][i - 32 - n] == padded[32 + n..][i - 32 - n];
    }
    assert buf[32 + n..HEADER_SIZE] == Zeros(32)[n..] == Zeros(32 - n);
  }

  /** Fill the header, leaving the rest of the buffer alone. */
  method WriteHeader(buf: array<Byte>, c: Crash) returns (next: nat)
    requires HEADER_SIZE <= buf.Length && InRange(c)
    modifies buf
    ensures next == HEADER_SIZE && buf[..HEADER_SIZE] == Header(c)
    ensures forall i :: HEADER_SIZE <= i < buf.Length ==> buf[i] == old(buf[i])
  {
    ghost var done: Bytes := Prologue(c);
    Append(buf, 0, MAGIC + [VERSION, c.signal], []);
    Append(buf, 6, Le(ToUnsigned(c.code), 4), done);
    done := done + Le(ToUnsigned(c.code), 4);
    Append(buf, 10, Le(c.addr, 8), done);
    done := done + Le(c.addr, 8);
    Append(buf, 18, Le(c.pid, 4), done);
    done := done + Le(c.pid, 4);
    Append(buf, 22, Le(c.timestamp, 8), done);
    done := done + Le(c.timestamp, 8);
    Append(buf, 30, Le(|c.frames|, 2), done);
    done := done + Le(|c.frames|, 2);
    WriteVersion(buf, c.version, done);
    next := HEADER_SIZE;
  }

  method WriteFrame(buf: array<Byte>, offset: nat, frame: nat, ghost done: Bytes) returns (next: nat)
    requires offset + 8 <= buf.Length && |done| == offset && buf[..offset] == done
    modifies buf
    ensures next == offset + 8 && buf[..next] == done + Le(frame, 8)
    ensures forall i :: next <= i < buf.Length ==> buf[i] == old(buf[i])
  {
    Append(buf, offset, Le(frame, 8), done);
    next := offset + 8;
  }

  /** Header, then each frame: the buffer starts with the encoding. */
  method WriteBlob(buf: array<Byte>, c: Crash) returns (next: nat)
    requires InRange(c) && HEADER_SIZE + 8 * |c.frames| <= buf.Length
    modifies buf
    ensures next == HEADER_SIZE + 8 * |c.frames| && buf[..next] == Encoded(c)
  {
    next := WriteHeader(buf, c);
    assert Header(c) + [] == Header(c);
    for n := 0 to |c.frames|
      invariant next == HEADER_SIZE + 8 * n
      invariant buf[..next] == Header(c) + Frames(c.frames[..n])
    {
      assert c.frames[..n + 1][..n] == c.frames[..n];
      ghost var done := buf[..next];
      next := WriteFrame(buf, next, c.frames[n], done);
      assert done + Le(c.frames[n], 8) == Header(c) + (Frames(c.frames[..n]) + Le(c.frames[n], 8));
    }
    assert c.frames[..|c.frames|] == c.frames;
  }

  /** The parser. */
  method Parse(data: Bytes) returns (r: Option<Crash>)
    ensures r == Decoded(data)
  {
    if |data| < HEADER_SIZE || data[0..4] != MAGIC || data[4] != VERSION {
      return None;
    }
    var n := FromLe(data[30..32]);
    if n > MAX_FRAMES || |data| < HEADER_SIZE + 8 * n {
      return None;
    }
    var frames: seq<nat> := [];
    for i := 0 to n
      invariant frames == FramesFrom(data, i)
    {
      var offset := HEADER_SIZE + i * 8;
      frames := frames + [FromLe(data[offset..offset + 8])];
    }
    r := Some(Crash(data[5], ToSigned(FromLe(data[6..10])), FromLe(data[10..18]), FromLe(data[18..22]),
                    FromLe(data[22..30]), frames, FieldText(data[32..64])));
  }
}
