/**
 * The PSRAM-backed storage region of modules/py_frozen/psram.py.
 *
 * The PSRAM window is modelled as one owned byte array `mem` of PSRAM_SIZE
 * bytes; aperture address PSRAM_BASE + i is `mem[i]`.  A region of `length`
 * bytes starts at index `Start()`, and its 16-byte header occupies the 16
 * bytes just before it.
 */
module Psram {
  import opened Wrappers
  import opened Bits

  const PSRAM_BASE: int := 0x1100_0000
  const PSRAM_SIZE: int := 8 * 1024 * 1024
  const HEADER_SIZE: int := 16
  /** The largest size the constructor refuses: sizes must be below 0xffffffff. */
  const MAX_LENGTH: int := 0xffff_ffff

  /** The magic stamp b"PSRAM_____". */
  const MAGIC: seq<bv8> := [0x50, 0x53, 0x52, 0x41, 0x4D, 0x5F, 0x5F, 0x5F, 0x5F, 0x5F]

  // ---------------------------------------------------------------------------
  // CRC16: crc = 0; per byte crc ^= b << 8, then eight MSB-first shift steps.
  // ---------------------------------------------------------------------------

  /**
   * One shift step of the inner loop of viper_crc16.  The mask 0x8001 is not
   * a standard CRC16 polynomial; it is kept exactly as the source has it.
   */
  function Shift(crc: bv32): (r: bv32)
    ensures r <= 0xFFFF
  {
    if crc & 0x8000 != 0 then ((crc << 1) ^ 0x8001) & 0xFFFF else (crc << 1) & 0xFFFF
  }

  /** `n` shift steps. */
  function ShiftN(crc: bv32, n: nat): bv32
  {
    if n == 0 then crc else Shift(ShiftN(crc, n - 1))
  }

  /** The two branches of the inner loop of viper_crc16 compute one shift step. */
  lemma SetBranch(c: bv32)
    requires c & (1 << 15) != 0
    ensures ((c << 1) ^ 0x8001) & 0xffff == Shift(c)
  {}
  lemma ClearBranch(c: bv32)
    requires c & (1 << 15) == 0
    ensures (c << 1) & 0xffff == Shift(c)
  {}

  /** The effect of one input byte on the running CRC. */
  function UpdateByte(crc: bv32, b: bv8): bv32
  {
    ShiftN(crc ^ ((b as bv32) << 8), 8)
  }

  /** The CRC16 of a byte sequence, processed in address order. */
  function Crc16(s: seq<bv8>): (r: bv32)
    ensures r <= 0xFFFF
    decreases |s|
  {
    if |s| == 0 then 0 else UpdateByte(Crc16(s[..|s| - 1]), s[|s| - 1])
  }

  /**
   * viper_crc16(data, num) over `num` bytes of `data` from index `start`.
   * A count of zero or less leaves the loop at once and returns 0.
   */
  method ViperCrc16(data: array<bv8>, start: nat, num: int) returns (crc: bv32)
    requires start <= data.Length && start + num <= data.Length
    ensures crc == Crc16(data[start..start + (if num < 0 then 0 else num)])
  {
    ghost var bytes := data[start..start + (if num < 0 then 0 else num)];
    crc := 0x0000;
    var i := 0;
    while i < num
      invariant 0 <= i <= |bytes|
      invariant crc == Crc16(bytes[..i])
    {
      ghost var fed := crc ^ ((data[start + i] as bv32) << 8);
      crc := crc ^ ((data[start + i] as bv32) << 8);
      var j := 8;
      while j > 0
        invariant 0 <= j <= 8
        invariant crc == ShiftN(fed, 8 - j)
      {
        ghost var prev := crc;
        if crc & (1 << 15) != 0 {
          SetBranch(prev);
          crc := ((crc << 1) ^ 0x8001) & 0xffff;
        } else {
          ClearBranch(prev);
          crc := (crc << 1) & 0xffff;
        }
        j := j - 1;
      }
      Crc16Snoc(bytes, i);
      i := i + 1;
    }
    assert bytes[..i] == bytes;
  }

  lemma Crc16Snoc(s: seq<bv8>, i: nat)
    requires i < |s|
    ensures Crc16(s[..i + 1]) == UpdateByte(Crc16(s[..i]), s[i])
  {
    assert s[..i + 1][..i] == s[..i];
  }

  // ---------------------------------------------------------------------------
  // Every CRC step is injective, so a change confined to one byte is detected.
  // ---------------------------------------------------------------------------

  // Small bit-vector facts behind ShiftInjective, each cheap on its own.
  lemma LowBitsDetermine(a: bv32, b: bv32)
    requires a <= 0xFFFF && b <= 0xFFFF && a != b && a & 0x8000 == b & 0x8000
    ensures (a << 1) & 0xFFFF != (b << 1) & 0xFFFF
  {}

  lemma MaskCancel(p: bv32, q: bv32)
    requires p & 0xFFFF != q & 0xFFFF
    ensures (p ^ 0x8001) & 0xFFFF != (q ^ 0x8001) & 0xFFFF
  {}

  lemma LowBitDiffers(a: bv32, b: bv32)
    ensures ((a << 1) ^ 0x8001) & 0xFFFF != (b << 1) & 0xFFFF
  {}

  /**
   * A shift step never maps two distinct 16-bit states to the same state:
   * bit 0 of the result records whether bit 15 was set.
   */
  lemma ShiftInjective(a: bv32, b: bv32)
    requires a <= 0xFFFF && b <= 0xFFFF && a != b
    ensures Shift(a) != Shift(b)
  {
    if a & 0x8000 != 0 && b & 0x8000 != 0 {
      assert a & 0x8000 == b & 0x8000;
      LowBitsDetermine(a, b);
      MaskCancel(a << 1, b << 1);
    } else if a & 0x8000 != 0 {
      LowBitDiffers(a, b);
    } else if b & 0x8000 != 0 {
      LowBitDiffers(b, a);
    } else {
      LowBitsDetermine(a, b);
    }
  }

  lemma {:induction false} ShiftNInjective(a: bv32, b: bv32, n: nat)
    requires a <= 0xFFFF && b <= 0xFFFF && a != b
    ensures ShiftN(a, n) != ShiftN(b, n)
    ensures ShiftN(a, n) <= 0xFFFF && ShiftN(b, n) <= 0xFFFF
  {
    if n > 0 {
      ShiftNInjective(a, b, n - 1);
      ShiftInjective(ShiftN(a, n - 1), ShiftN(b, n - 1));
    }
  }

  // Three small facts about feeding a byte into the high half of the state.
  lemma InSameByte(c: bv32, d: bv32, x: bv8)
    requires c != d
    ensures c ^ ((x as bv32) << 8) != d ^ ((x as bv32) << 8)
  {}

  lemma InOtherByte(c: bv32, x: bv8, y: bv8)
    requires x != y
    ensures c ^ ((x as bv32) << 8) != c ^ ((y as bv32) << 8)
  {}

  lemma InBound(c: bv32, x: bv8)
    requires c <= 0xFFFF
    ensures c ^ ((x as bv32) << 8) <= 0xFFFF
  {}

  /** Inputs that differ in exactly one of state and byte feed distinct 16-bit values. */
  lemma FeedDiffers(c: bv32, d: bv32, x: bv8, y: bv8)
    requires c <= 0xFFFF && d <= 0xFFFF
    requires (c != d && x == y) || (c == d && x != y)
    ensures c ^ ((x as bv32) << 8) != d ^ ((y as bv32) << 8)
    ensures c ^ ((x as bv32) << 8) <= 0xFFFF && d ^ ((y as bv32) << 8) <= 0xFFFF
  {
    if c != d { InSameByte(c, d, x); } else { InOtherByte(c, x, y); }
    InBound(c, x);
    InBound(d, y);
  }

  /** Distinct fed values stay distinct through the eight shift steps. */
  lemma UpdateByteInjective(c: bv32, d: bv32, x: bv8, y: bv8)
    requires c ^ ((x as bv32) << 8) != d ^ ((y as bv32) << 8)
    requires c ^ ((x as bv32) << 8) <= 0xFFFF && d ^ ((y as bv32) << 8) <= 0xFFFF
    ensures UpdateByte(c, x) != UpdateByte(d, y)
  {
    ShiftNInjective(c ^ ((x as bv32) << 8), d ^ ((y as bv32) << 8), 8);
  }

  lemma {:induction false} CrcDiverges(s: seq<bv8>, t: seq<bv8>, k: nat, n: nat)
    requires |s| == |t| && k < n <= |s|
    requires s[..k] == t[..k] && s[k] != t[k]
    requires forall i :: k < i < |s| ==> s[i] == t[i]
    ensures Crc16(s[..n]) != Crc16(t[..n])
    decreases n
  {
    var m := n - 1;
    assert s[..n][..m] == s[..m] && t[..n][..m] == t[..m];
    if m > k {
      CrcDiverges(s, t, k, m);
    }
    FeedDiffers(Crc16(s[..m]), Crc16(t[..m]), s[m], t[m]);
    UpdateByteInjective(Crc16(s[..m]), Crc16(t[..m]), s[m], t[m]);
  }

  /** Tamper detection: changing any one byte changes the CRC16. */
  lemma Crc16DetectsByteChange(s: seq<bv8>, k: nat, v: bv8)
    requires k < |s| && v != s[k]
    ensures Crc16(s[k := v]) != Crc16(s)
  {
    var t := s[k := v];
    assert s[..|s|] == s && t[..|t|] == t;
    CrcDiverges(t, s, k, |s|);
  }

  // ---------------------------------------------------------------------------
  // The viper byte helpers: copy, fill and delimiter search.
  // ---------------------------------------------------------------------------

  /** The number of iterations of `for i in range(n)`. */
  function Count(n: int): (r: nat)
    ensures n <= 0 ==> r == 0
    ensures n >= 0 ==> r == n
  {
    if n < 0 then 0 else n
  }

  /** The smaller of two integers, as Python's min. */
  function Min(a: int, b: int): (r: int)
    ensures r <= a && r <= b && (r == a || r == b)
  {
    if a <= b then a else b
  }

  /** `a` with the bytes from index `at` replaced by `b`. */
  function Overwrite(a: seq<bv8>, at: nat, b: seq<bv8>): (r: seq<bv8>)
    requires at + |b| <= |a|
    ensures |r| == |a|
    ensures forall k :: 0 <= k < |a| ==> r[k] == if at <= k < at + |b| then b[k - at] else a[k]
  {
    a[..at] + b + a[at + |b|..]
  }

  /** `n` copies of `v`. */
  function Fill(v: bv8, n: nat): (r: seq<bv8>)
    ensures |r| == n && forall k :: 0 <= k < n ==> r[k] == v
  {
    seq(n, _ => v)
  }

  /**
   * viper_memcpy: copies `num` bytes of `src` to `dest` from index `at`, and
   * returns `num` whatever its sign.  A count of zero or less copies nothing.
   */
  method Memcpy(dest: array<bv8>, at: int, src: seq<bv8>, num: int) returns (n: int)
    requires num > 0 ==> 0 <= at && at + num <= dest.Length && num <= |src|
    modifies dest
    ensures n == num
    ensures num <= 0 ==> dest[..] == old(dest[..])
    ensures num > 0 ==> dest[..] == Overwrite(old(dest[..]), at, src[..num])
  {
    var i := 0;
    while i < num
      invariant 0 <= i <= Count(num)
      invariant forall k :: 0 <= k < dest.Length ==>
        dest[k] == if at <= k < at + i then src[k - at] else old(dest[k])
    {
      dest[at + i] := src[i];
      i := i + 1;
    }
    n := num;
  }

  /** viper_memset: sets `num` bytes of `dest` from index `at` to `value`. */
  method Memset(dest: array<bv8>, at: nat, value: bv8, num: int)
    requires at + Count(num) <= dest.Length
    modifies dest
    ensures dest[..] == Overwrite(old(dest[..]), at, Fill(value, Count(num)))
  {
    var i := 0;
    while i < num
      invariant 0 <= i <= Count(num)
      invariant forall k :: 0 <= k < dest.Length ==>
        dest[k] == if at <= k < at + i then value else old(dest[k])
    {
      dest[at + i] := value;
      i := i + 1;
    }
  }

  /**
   * The result of viper_mem8_findnext on the bytes `s`: one past the first
   * occurrence of `d`, or |s| when there is none.
   */
  function Delimited(s: seq<bv8>, d: bv8): (k: nat)
    ensures k <= |s| && (|s| > 0 ==> k > 0)
  {
    if |s| == 0 then 0
    else if s[0] == d then 1
    else 1 + Delimited(s[1..], d)
  }

  /** Delimited ends just after the first `d`, or at the end when there is none. */
  lemma {:induction false} DelimitedFirst(s: seq<bv8>, d: bv8)
    ensures forall i :: 0 <= i < Delimited(s, d) - 1 ==> s[i] != d
    ensures d in s ==> s[Delimited(s, d) - 1] == d
    ensures d !in s ==> Delimited(s, d) == |s|
  {
    if |s| > 0 && s[0] != d {
      DelimitedFirst(s[1..], d);
      assert s == [s[0]] + s[1..];
    }
  }

  /**
   * viper_mem8_findnext over `num` bytes of `a` from index `at`: a count of
   * zero or less is returned unchanged.
   */
  method FindNext(a: array<bv8>, at: int, num: int, delimiter: bv8) returns (k: int)
    requires num > 0 ==> 0 <= at && at + num <= a.Length
    ensures num <= 0 ==> k == num
    ensures num > 0 ==> k == Delimited(a[at..at + num], delimiter)
  {
    var i := 0;
    while i < num
      invariant 0 <= i <= Count(num)
      invariant num > 0 ==> Delimited(a[at..at + num], delimiter) == i + Delimited(a[at + i..at + num], delimiter)
    {
      if a[at + i] == delimiter {
        return i + 1;
      }
      assert a[at + i..at + num][1..] == a[at + i + 1..at + num];
      i := i + 1;
    }
    return num;
  }

  /** The count readline passes to read selects exactly the line. */
  lemma LineLimit(rest: seq<bv8>, k: int, length: nat)
    requires |rest| <= length
    requires |rest| == 0 ==> k == 0
    requires |rest| > 0 ==> k == Delimited(rest, 0x0A)
    ensures k == Delimited(rest, 0x0A)
    ensures Min(|rest|, Want(Some(k), length)) == k
  {
    if |rest| > 0 {
      assert rest[0] == 0x0A || rest[0] != 0x0A;
      assert 0x0A in rest ==> k > 0;
    }
  }

  // ---------------------------------------------------------------------------
  // The 16-byte header, struct format "<10sIH": magic, u32 length, u16 crc.
  // ---------------------------------------------------------------------------

  /** The four little-endian bytes of a 32-bit length (struct format "I"). */
  function LengthBytes(n: bv32): (r: seq<bv8>)
    ensures |r| == 4
  {
    [(n & 0xff) as bv8, ((n >> 8) & 0xff) as bv8, ((n >> 16) & 0xff) as bv8, ((n >> 24) & 0xff) as bv8]
  }

  /** The 32-bit length stored as four little-endian bytes. */
  function LengthFromBytes(b0: bv8, b1: bv8, b2: bv8, b3: bv8): bv32
  {
    (b0 as bv32) | ((b1 as bv32) << 8) | ((b2 as bv32) << 16) | ((b3 as bv32) << 24)
  }

  lemma LengthBytesRoundTrip(n: bv32)
    ensures var b := LengthBytes(n); LengthFromBytes(b[0], b[1], b[2], b[3]) == n
  {}

  lemma LengthFromBytesRoundTrip(b0: bv8, b1: bv8, b2: bv8, b3: bv8)
    ensures LengthBytes(LengthFromBytes(b0, b1, b2, b3)) == [b0, b1, b2, b3]
  {}

  /** The two little-endian bytes of a 16-bit CRC (struct format "H"). */
  function CrcBytes(c: bv32): (r: seq<bv8>)
    ensures |r| == 2
  {
    [(c & 0xff) as bv8, ((c >> 8) & 0xff) as bv8]
  }

  /** The 16-bit CRC stored as the little-endian bytes `lo`, `hi`. */
  function CrcFromBytes(lo: bv8, hi: bv8): (r: bv32)
    ensures r <= 0xFFFF
  {
    (lo as bv32) | ((hi as bv32) << 8)
  }

  lemma CrcBytesRoundTrip(c: bv32)
    requires c <= 0xFFFF
    ensures CrcFromBytes(CrcBytes(c)[0], CrcBytes(c)[1]) == c
  {}

  lemma CrcFromBytesRoundTrip(lo: bv8, hi: bv8)
    ensures CrcBytes(CrcFromBytes(lo, hi)) == [lo, hi]
  {}

  /** The fields struct.unpack("<10sIH", ...) returns, length and CRC as machine words. */
  datatype Header = Header(magic: seq<bv8>, length: bv32, crc: bv32)

  /** struct.pack("<10sIH", HEADER, length, crc). */
  function PackHeader(length: bv32, crc: bv32): (r: seq<bv8>)
    ensures |r| == HEADER_SIZE && r[..10] == MAGIC
  {
    MAGIC + LengthBytes(length) + CrcBytes(crc)
  }

  /** struct.unpack("<10sIH", b). */
  function UnpackHeader(b: seq<bv8>): (h: Header)
    requires |b| == HEADER_SIZE
    ensures |h.magic| == 10 && h.crc <= 0xFFFF
  {
    Header(b[..10], LengthFromBytes(b[10], b[11], b[12], b[13]), CrcFromBytes(b[14], b[15]))
  }

  /** Unpacking a packed header gives back its three fields. */
  lemma UnpackPackHeader(length: bv32, crc: bv32)
    requires crc <= 0xFFFF
    ensures UnpackHeader(PackHeader(length, crc)) == Header(MAGIC, length, crc)
  {
    var b := PackHeader(length, crc);
    assert b[10..14] == LengthBytes(length);
    assert b[14] == CrcBytes(crc)[0] && b[15] == CrcBytes(crc)[1];
    LengthBytesRoundTrip(length);
    CrcBytesRoundTrip(crc);
  }

  /** A stamped header is exactly the packing of the fields it unpacks to. */
  lemma PackUnpackHeader(b: seq<bv8>)
    requires |b| == HEADER_SIZE && b[..10] == MAGIC
    ensures PackHeader(UnpackHeader(b).length, UnpackHeader(b).crc) == b
  {
    LengthFromBytesRoundTrip(b[10], b[11], b[12], b[13]);
    CrcFromBytesRoundTrip(b[14], b[15]);
    assert b == b[..10] + [b[10], b[11], b[12], b[13]] + [b[14], b[15]];
  }

  /** calculate_crc: 0 when the CRC is skipped, else the CRC16 of the body. */
  function CrcOf(body: seq<bv8>, skipCrc: bool): (c: bv32)
    ensures c <= 0xFFFF
    ensures skipCrc ==> c == 0
  {
    if skipCrc then 0 else Crc16(body)
  }

  /** The verdict of _read_header: magic, stored length and stored CRC all agree. */
  predicate HeaderValid(header: seq<bv8>, body: seq<bv8>, length: bv32, skipCrc: bool)
    requires |header| == HEADER_SIZE
  {
    var h := UnpackHeader(header);
    h.magic == MAGIC && h.length == length && h.crc == CrcOf(body, skipCrc)
  }

  /** A header written for a body is valid for that body. */
  lemma WrittenHeaderValid(body: seq<bv8>, length: bv32, skipCrc: bool)
    ensures HeaderValid(PackHeader(length, CrcOf(body, skipCrc)), body, length, skipCrc)
  {
    UnpackPackHeader(length, CrcOf(body, skipCrc));
  }

  /** With the CRC checked, changing any one body byte invalidates the header. */
  lemma TamperInvalidatesHeader(header: seq<bv8>, body: seq<bv8>, length: bv32, k: nat, v: bv8)
    requires |header| == HEADER_SIZE && k < |body| && v != body[k]
    requires HeaderValid(header, body, length, false)
    ensures !HeaderValid(header, body[k := v], length, false)
  {
    Crc16DetectsByteChange(body, k, v);
  }

  /** With the CRC skipped, validity does not depend on the body at all. */
  lemma SkippedCrcIgnoresBody(header: seq<bv8>, body: seq<bv8>, other: seq<bv8>, length: bv32)
    requires |header| == HEADER_SIZE
    ensures HeaderValid(header, body, length, true) == HeaderValid(header, other, length, true)
  {
  }

  // ---------------------------------------------------------------------------
  // Slices of an overwritten sequence.
  // ---------------------------------------------------------------------------

  /** Overwriting inside [lo, hi) is overwriting the slice. */
  lemma OverwriteInside(a: seq<bv8>, at: nat, b: seq<bv8>, lo: nat, hi: nat)
    requires lo <= at && at + |b| <= hi <= |a|
    ensures Overwrite(a, at, b)[lo..hi] == Overwrite(a[lo..hi], at - lo, b)
  {
    var l := Overwrite(a, at, b)[lo..hi];
    var r := Overwrite(a[lo..hi], at - lo, b);
    assert forall k :: 0 <= k < hi - lo ==> l[k] == r[k];
  }

  /** Overwriting outside [lo, hi) leaves the slice alone. */
  lemma OverwriteOutside(a: seq<bv8>, at: nat, b: seq<bv8>, lo: nat, hi: nat)
    requires at + |b| <= |a| && lo <= hi <= |a|
    requires at + |b| <= lo || hi <= at
    ensures Overwrite(a, at, b)[lo..hi] == a[lo..hi]
  {
    var l := Overwrite(a, at, b)[lo..hi];
    assert forall k :: 0 <= k < hi - lo ==> l[k] == a[lo + k];
  }

  /** Writing the header slot before `start` changes neither the body nor the rest. */
  lemma HeaderWriteFrames(before: seq<bv8>, header: seq<bv8>, start: nat, len: nat)
    requires HEADER_SIZE <= start && start + len <= |before| && |header| == HEADER_SIZE
    ensures Overwrite(before, start - HEADER_SIZE, header)[start - HEADER_SIZE..start] == header
    ensures Overwrite(before, start - HEADER_SIZE, header)[start..start + len] == before[start..start + len]
    ensures Overwrite(before, start - HEADER_SIZE, header)[..start - HEADER_SIZE] == before[..start - HEADER_SIZE]
    ensures Overwrite(before, start - HEADER_SIZE, header)[start + len..] == before[start + len..]
  {
    var h := start - HEADER_SIZE;
    OverwriteInside(before, h, header, h, start);
    assert Overwrite(before[h..start], 0, header) == header;
    OverwriteOutside(before, h, header, start, start + len);
    OverwriteOutside(before, h, header, 0, h);
    OverwriteOutside(before, h, header, start + len, |before|);
  }

  /** Writing `b` at `at` inside the body [start, start+len) touches nothing else. */
  lemma BodyWriteFrames(before: seq<bv8>, at: nat, b: seq<bv8>, start: nat, len: nat)
    requires HEADER_SIZE <= start <= at && at + |b| <= start + len <= |before|
    ensures Overwrite(before, at, b)[start..start + len] == Overwrite(before[start..start + len], at - start, b)
    ensures Overwrite(before, at, b)[start - HEADER_SIZE..start] == before[start - HEADER_SIZE..start]
    ensures Overwrite(before, at, b)[..start - HEADER_SIZE] == before[..start - HEADER_SIZE]
    ensures Overwrite(before, at, b)[start + len..] == before[start + len..]
  {
    OverwriteInside(before, at, b, start, start + len);
    OverwriteOutside(before, at, b, start - HEADER_SIZE, start);
    OverwriteOutside(before, at, b, 0, start - HEADER_SIZE);
    OverwriteOutside(before, at, b, start + len, |before|);
  }

  // ---------------------------------------------------------------------------
  // Construction arguments: size, offset and block size.
  // ---------------------------------------------------------------------------

  /** The errors the constructor raises, plus one the model adds. */
  datatype Error =
    | TooLarge          // size >= 0xffffffff
    | ZeroDivision      // divmod by a zero block size
    | NotBlockMultiple  // size % blocksize != 0
    | OutsideAperture   // header or body would fall outside the PSRAM window
    | Untrusted         // invalid header and create is False

  /** Python's `|` on non-negative integers, bit by bit. */
  function BitOr(a: nat, b: nat): (r: nat)
    ensures r >= a && r >= b
  {
    if a == 0 then b
    else if b == 0 then a
    else 2 * BitOr(a / 2, b / 2) + (if a % 2 == 1 || b % 2 == 1 then 1 else 0)
  }

  /** OR-ing a value into zero low bits adds it. */
  lemma {:induction false} BitOrDisjoint(x: nat, k: nat, y: nat)
    requires y < Pow2(k)
    ensures BitOr(x * Pow2(k), y) == x * Pow2(k) + y
  {
    if k > 0 && x != 0 && y != 0 {
      var h := x * Pow2(k - 1);
      assert x * Pow2(k) == 2 * h;
      assert (2 * h) / 2 == h && (2 * h) % 2 == 0;
      BitOrDisjoint(x, k - 1, y / 2);
    }
  }

  /** The region's address PSRAM_BASE | offset is PSRAM_BASE + offset inside the window. */
  lemma BaseOrOffset(off: nat)
    requires off <= PSRAM_SIZE
    ensures BitOr(PSRAM_BASE, off) == PSRAM_BASE + off
  {
    assert Pow2(24) == 0x100_0000 by {
      assert Pow2(8) == 0x100;
      assert Pow2(16) == 0x1_0000 by { PowAdd(8, 8); }
      PowAdd(16, 8);
    }
    BitOrDisjoint(0x11, 24, off);
  }

  lemma {:induction false} PowAdd(a: nat, b: nat)
    ensures Pow2(a + b) == Pow2(a) * Pow2(b)
  {
    if b > 0 {
      PowAdd(a, b - 1);
    }
  }

  lemma ExactDivision(a: int, b: int)
    requires b != 0 && a % b == 0
    ensures (a / b) * b == a
  {}

  /** What the constructor settles before it reads the header. */
  datatype Layout = Layout(blocks: int, blocksize: int, length: nat, address: int)

  /** The region's offset in the window: PSRAM_SIZE - size unless one is given. */
  function OffsetOf(size: int, offset: Option<int>): (off: int)
    ensures offset == None ==> off == PSRAM_SIZE - size
  {
    if offset.None? then PSRAM_SIZE - size else offset.value
  }

  /** The region fits, header included, inside the window. */
  predicate Fits(size: int, off: int)
  {
    0 <= size && HEADER_SIZE <= off && off + size <= PSRAM_SIZE
  }

  /**
   * The checks of PSRAM.__init__ in order, up to the header check.  Dafny's
   * `%` and `/` agree with Python's divmod on whether the remainder is zero
   * and on the exact quotient, whatever the signs.
   */
  function Configure(size: int, offset: Option<int>, blocksize: int): (r: Result<Layout, Error>)
    ensures size >= MAX_LENGTH ==> r == Failure(TooLarge)
    ensures size < MAX_LENGTH && blocksize == 0 ==> r == Failure(ZeroDivision)
    ensures size < MAX_LENGTH && blocksize != 0 && size % blocksize != 0 ==> r == Failure(NotBlockMultiple)
    ensures r.Success? <==>
      size < MAX_LENGTH && blocksize != 0 && size % blocksize == 0 && Fits(size, OffsetOf(size, offset))
    ensures r.Success? ==>
      r.value.length == size && r.value.blocksize == blocksize &&
      r.value.blocks * blocksize == size &&
      r.value.address == PSRAM_BASE + OffsetOf(size, offset)
  {
    if size >= MAX_LENGTH then Failure(TooLarge)
    else if blocksize == 0 then Failure(ZeroDivision)
    else if size % blocksize != 0 then Failure(NotBlockMultiple)
    else
      var off := OffsetOf(size, offset);
      if !Fits(size, off) then Failure(OutsideAperture)
      else
        BaseOrOffset(off);
        ExactDivision(size, blocksize);
        Success(Layout(size / blocksize, blocksize, size, BitOr(PSRAM_BASE, off)))
  }

  // ---------------------------------------------------------------------------
  // The region object.
  // ---------------------------------------------------------------------------

  /** The number of bytes `read(length)` asks for: `length or self.length`. */
  function Want(n: Option<int>, length: nat): (w: int)
    ensures n == None || n == Some(0) ==> w == length
    ensures n.Some? && n.value != 0 ==> w == n.value
  {
    if n.None? || n.value == 0 then length else n.value
  }

  class Psram {
    /** The PSRAM window; `mem[i]` is the byte at address PSRAM_BASE + i. */
    const mem: array<bv8>
    const blocks: int
    const blocksize: int
    const length: nat
    /** The absolute address of the region's first byte. */
    const offset: int
    const skipCrc: bool
    /** The stream cursor, relative to the region's start. */
    var ptr: int

    ghost predicate Valid()
    {
      mem.Length == PSRAM_SIZE &&
      PSRAM_BASE + HEADER_SIZE <= offset && offset - PSRAM_BASE + length <= PSRAM_SIZE &&
      length < MAX_LENGTH && blocks * blocksize == length
    }

    /** The index in `mem` of the region's first byte. */
    function Start(): (i: nat)
      requires Valid()
      ensures HEADER_SIZE <= i && i + length <= mem.Length
    {
      offset - PSRAM_BASE
    }

    /** The `length` bytes of the region. */
    ghost function Body(): (b: seq<bv8>)
      reads mem
      requires Valid()
      ensures |b| == length
    {
      mem[Start()..Start() + length]
    }

    /** The 16 header bytes just before the region. */
    ghost function HeaderBytes(): (h: seq<bv8>)
      reads mem
      requires Valid()
      ensures |h| == HEADER_SIZE
    {
      mem[Start() - HEADER_SIZE..Start()]
    }

    /** Everything in the window that is neither header nor region. */
    ghost function Outside(): seq<bv8>
      reads mem
      requires Valid()
    {
      mem[..Start() - HEADER_SIZE] + mem[Start() + length..]
    }

    /** A slice of the body is the matching slice of the window. */
    lemma BodySlice(a: nat, b: nat)
      requires Valid() && a <= b <= length
      ensures Body()[a..b] == mem[Start() + a..Start() + b]
    {
      assert forall k :: 0 <= k < b - a ==> Body()[a..b][k] == mem[Start() + a + k];
    }

    ghost predicate HeaderOk()
      reads mem
      requires Valid()
    {
      HeaderValid(HeaderBytes(), Body(), length as bv32, skipCrc)
    }

    constructor (mem: array<bv8>, layout: Layout, skipCrc: bool)
      requires mem.Length == PSRAM_SIZE
      requires PSRAM_BASE + HEADER_SIZE <= layout.address
      requires layout.address - PSRAM_BASE + layout.length <= PSRAM_SIZE
      requires layout.length < MAX_LENGTH && layout.blocks * layout.blocksize == layout.length
      ensures Valid() && this.mem == mem && this.skipCrc == skipCrc
      ensures blocks == layout.blocks && blocksize == layout.blocksize
      ensures length == layout.length && offset == layout.address
      ensures ptr == 0
    {
      this.mem := mem;
      blocks := layout.blocks;
      blocksize := layout.blocksize;
      length := layout.length;
      offset := layout.address;
      this.skipCrc := skipCrc;
      ptr := 0;
    }

    /** calculate_crc. */
    method CalculateCrc() returns (c: bv32)
      requires Valid()
      ensures c == CrcOf(Body(), skipCrc)
    {
      if skipCrc {
        return 0;
      }
      c := ViperCrc16(mem, Start(), length);
    }

    /** _read_header: the unpacked fields and whether all three agree. */
    method ReadHeader() returns (h: Header, valid: bool)
      requires Valid()
      ensures h == UnpackHeader(HeaderBytes())
      ensures valid == HeaderOk()
    {
      var header := new bv8[HEADER_SIZE];
      var _ := Memcpy(header, 0, mem[Start() - HEADER_SIZE..], HEADER_SIZE);
      assert header[..] == HeaderBytes();
      h := UnpackHeader(header[..]);
      var crc := CalculateCrc();
      valid := h.magic == MAGIC && h.crc == crc && h.length == length as bv32;
    }

    /** _write_header: stamps magic, length and the body's CRC. */
    method WriteHeader()
      requires Valid()
      modifies mem
      ensures HeaderBytes() == PackHeader(length as bv32, CrcOf(Body(), skipCrc))
      ensures Body() == old(Body()) && Outside() == old(Outside())
      ensures HeaderOk()
    {
      var crc := CalculateCrc();
      var header := PackHeader(length as bv32, crc);
      ghost var before := mem[..];
      var _ := Memcpy(mem, Start() - HEADER_SIZE, header, HEADER_SIZE);
      assert header[..HEADER_SIZE] == header;
      HeaderWriteFrames(before, header, Start(), length);
      WrittenHeaderValid(Body(), length as bv32, skipCrc);
    }

    /** clear: rewinds and zero-fills the region. */
    method Clear()
      requires Valid()
      modifies this, mem
      ensures ptr == 0
      ensures Body() == Fill(0, length)
      ensures HeaderBytes() == old(HeaderBytes()) && Outside() == old(Outside())
    {
      ptr := 0;
      ghost var before := mem[..];
      Memset(mem, Start(), 0, length);
      BodyWriteFrames(before, Start(), Fill(0, length), Start(), length);
    }

    /**
     * check_header: keeps a region whose header is valid; otherwise refuses
     * (`ok` false, nothing written) unless `create`, in which case it clears
     * the region and stamps a fresh header.
     */
    method CheckHeader(create: bool) returns (ok: bool)
      requires Valid()
      modifies this, mem
      ensures ok <==> old(HeaderOk()) || create
      ensures ok ==> HeaderOk()
      ensures old(HeaderOk()) || !create ==> ptr == old(ptr) && mem[..] == old(mem[..])
      ensures !old(HeaderOk()) && create ==> ptr == 0 && Body() == Fill(0, length)
      ensures Outside() == old(Outside())
    {
      var h, valid := ReadHeader();
      if !valid {
        if !create {
          return false;
        }
        Clear();
        WriteHeader();
      }
      return true;
    }

    /** seek: any position is accepted. */
    method Seek(to: int)
      modifies this
      ensures ptr == to
    {
      ptr := to;
    }

    /** tell. */
    method Tell() returns (p: int)
      ensures p == ptr
    {
      return ptr;
    }

    /**
     * read: up to `Want(n)` bytes from the cursor, clipped at the end of the
     * region.  A negative count is bytearray's ValueError, here None.
     */
    method Read(n: Option<int>) returns (r: Option<seq<bv8>>)
      requires Valid() && 0 <= ptr
      modifies this
      ensures Min(length - old(ptr), Want(n, length)) < 0 ==> r == None && ptr == old(ptr)
      ensures var limit := Min(length - old(ptr), Want(n, length));
        limit >= 0 ==> r == Some(Body()[old(ptr)..old(ptr) + limit]) && ptr == old(ptr) + limit
    {
      var limit := Min(length - ptr, Want(n, length));
      if limit < 0 {
        return None;
      }
      var buffer := new bv8[limit];
      var c := Memcpy(buffer, 0, mem[Start() + ptr..], limit);
      assert buffer[..] == Body()[ptr..ptr + limit];
      ptr := ptr + c;
      return Some(buffer[..]);
    }

    /**
     * readinto: copies up to `buffer.Length` bytes from the cursor into
     * `buffer`, then SETS the cursor to the number copied.
     */
    method ReadInto(buffer: array<bv8>) returns (limit: int)
      requires Valid() && 0 <= ptr && buffer != mem
      modifies this, buffer
      ensures limit == Min(length - old(ptr), buffer.Length)
      ensures ptr == limit
      ensures limit <= 0 ==> buffer[..] == old(buffer[..])
      ensures limit > 0 ==> buffer[..] == Overwrite(old(buffer[..]), 0, Body()[old(ptr)..old(ptr) + limit])
    {
      limit := Min(length - ptr, buffer.Length);
      var src := if ptr <= length then mem[Start() + ptr..] else [];
      if limit > 0 {
        BodySlice(ptr, ptr + limit);
        assert src[..limit] == mem[Start() + ptr..Start() + ptr + limit];
      }
      ptr := Memcpy(buffer, 0, src, limit);
    }

    /**
     * readline: the bytes up to and including the next newline, or up to the
     * end of the region.
     */
    method ReadLine() returns (r: Option<seq<bv8>>)
      requires Valid() && 0 <= ptr
      modifies this
      ensures old(ptr) > length ==> r == None && ptr == old(ptr)
      ensures old(ptr) <= length ==>
        var rest := Body()[old(ptr)..];
        var line := rest[..Delimited(rest, 0x0A)];
        r == Some(line) && ptr == old(ptr) + |line|
    {
      var k := FindNext(mem, Start() + ptr, length - ptr, 0x0A);
      LineWindow(ptr, k);
      r := Read(Some(k));
    }

    /** The count readline passes to read: the line's length, or a negative count past the end. */
    lemma LineWindow(at: int, k: int)
      requires Valid() && 0 <= at
      requires length - at <= 0 ==> k == length - at
      requires length - at > 0 ==> k == Delimited(mem[Start() + at..Start() + at + (length - at)], 0x0A)
      ensures at > length ==> Min(length - at, Want(Some(k), length)) < 0
      ensures at <= length ==> 0 <= k && Min(length - at, Want(Some(k), length)) == k
      ensures at <= length ==> k == Delimited(Body()[at..], 0x0A) && Body()[at..at + k] == Body()[at..][..k]
    {
      if at <= length {
        var rest := Body()[at..];
        BodySlice(at, length);
        assert rest == mem[Start() + at..Start() + at + (length - at)];
        LineLimit(rest, k, length);
      }
    }

    /**
     * write: copies up to the rest of the region from `buffer` at the cursor,
     * advances the cursor by the count, and rewrites the header.
     */
    method Write(buffer: seq<bv8>)
      requires Valid() && 0 <= ptr
      modifies this, mem
      ensures ptr == old(ptr) + Min(length - old(ptr), |buffer|)
      ensures var limit := Min(length - old(ptr), |buffer|);
        limit > 0 ==> Body() == Overwrite(old(Body()), old(ptr), buffer[..limit])
      ensures Min(length - old(ptr), |buffer|) <= 0 ==> Body() == old(Body())
      ensures Outside() == old(Outside())
      ensures HeaderOk()
    {
      var limit := Min(length - ptr, |buffer|);
      ghost var before := mem[..];
      ghost var body := Body();
      ghost var outside := Outside();
      var at := Start() + ptr;
      var c := Memcpy(mem, at, buffer, limit);
      if limit > 0 {
        BodyWriteFrames(before, at, buffer[..limit], Start(), length);
        assert Body() == Overwrite(body, at - Start(), buffer[..limit]);
      } else {
        assert mem[..] == before;
        assert Body() == body;
      }
      assert Outside() == outside;
      ptr := ptr + c;
      WriteHeader();
    }

    /** getvalue: a copy of the whole region. */
    method GetValue() returns (r: seq<bv8>)
      requires Valid()
      ensures r == Body()
    {
      var buffer := new bv8[length];
      var _ := Memcpy(buffer, 0, mem[Start()..], length);
      assert buffer[..] == Body();
      return buffer[..];
    }

    /** The region offset readblocks and writeblocks act at. */
    function BlockPosition(blockNum: int, off: int): int
    {
      blockNum * blocksize + off
    }

    /** readblocks: readinto at the block's position, cursor restored. */
    method ReadBlocks(blockNum: int, buf: array<bv8>, off: int)
      requires Valid() && 0 <= BlockPosition(blockNum, off) && buf != mem
      modifies this, buf
      ensures ptr == old(ptr)
      ensures var p := BlockPosition(blockNum, off);
        var limit := Min(length - p, buf.Length);
        (limit <= 0 ==> buf[..] == old(buf[..])) &&
        (limit > 0 ==> buf[..] == Overwrite(old(buf[..]), 0, Body()[p..p + limit]))
    {
      var saved := ptr;
      ptr := BlockPosition(blockNum, off);
      var _ := ReadInto(buf);
      ptr := saved;
    }

    /** writeblocks: write at the block's position, cursor restored. */
    method WriteBlocks(blockNum: int, buf: seq<bv8>, off: int)
      requires Valid() && 0 <= BlockPosition(blockNum, off)
      modifies this, mem
      ensures ptr == old(ptr)
      ensures var p := BlockPosition(blockNum, off);
        var limit := Min(length - p, |buf|);
        (limit <= 0 ==> Body() == old(Body())) &&
        (limit > 0 ==> Body() == Overwrite(old(Body()), p, buf[..limit]))
      ensures Outside() == old(Outside())
      ensures HeaderOk()
    {
      var saved := ptr;
      ptr := BlockPosition(blockNum, off);
      Write(buf);
      ptr := saved;
    }

    /**
     * ioctl for MicroPython's block-device protocol: 1 init and 2 shutdown
     * answer None, 3 sync and 6 erase answer 0, 4 the block count, 5 the
     * block size, and any other op falls through to None.
     */
    function Ioctl(op: int, arg: int): (r: Option<int>)
      ensures op == 1 || op == 2 ==> r == None
      ensures op == 3 || op == 6 ==> r == Some(0)
      ensures op == 4 ==> r == Some(blocks)
      ensures op == 5 ==> r == Some(blocksize)
      ensures !(1 <= op <= 6) ==> r == None
    {
      if op == 1 then None
      else if op == 2 then None
      else if op == 3 then Some(0)
      else if op == 4 then Some(blocks)
      else if op == 5 then Some(blocksize)
      else if op == 6 then Some(0)
      else None
    }

    /** The geometry ioctl reports covers exactly the region. */
    lemma IoctlGeometry(arg: int)
      requires Valid()
      ensures Ioctl(4, arg).Some? && Ioctl(5, arg).Some?
      ensures Ioctl(4, arg).value * Ioctl(5, arg).value == length
    {
    }
  }

  /**
   * The window m already holds a valid region of size bytes at index off:
   * the 16 bytes before it are a header with the magic, that length and
   * the body's CRC (or 0 when the CRC is skipped).
   */
  predicate StoredValid(m: seq<bv8>, size: int, off: int, skipCrc: bool)
    requires 0 <= size < MAX_LENGTH && HEADER_SIZE <= off && off + size <= |m|
  {
    HeaderValid(m[off - HEADER_SIZE..off], m[off..off + size], size as bv32, skipCrc)
  }

  /** A region's header check reads the window as StoredValid does. */
  lemma HeaderOkStored(p: Psram)
    requires p.Valid()
    ensures p.HeaderOk() == StoredValid(p.mem[..], p.length, p.Start(), p.skipCrc)
  {
    assert p.HeaderBytes() == p.mem[..][p.Start() - HEADER_SIZE..p.Start()];
    assert p.Body() == p.mem[..][p.Start()..p.Start() + p.length];
  }

  /**
   * m2 agrees with m1 everywhere in the window except the 16 header bytes
   * and the size bytes of the region at index off.
   */
  predicate SameOutside(m1: seq<bv8>, m2: seq<bv8>, size: int, off: int)
    requires Fits(size, off) && |m1| == |m2| == PSRAM_SIZE
  {
    m1[..off - HEADER_SIZE] == m2[..off - HEADER_SIZE] && m1[off + size..] == m2[off + size..]
  }

  /** Outside() read off a snapshot of the window. */
  lemma OutsideOf(p: Psram, before: seq<bv8>)
    requires p.Valid() && before == p.mem[..]
    ensures p.Outside() == before[..p.Start() - HEADER_SIZE] + before[p.Start() + p.length..]
  {
  }

  /** A region whose Outside() is as in before leaves the rest of the window as it was. */
  lemma OutsideSame(p: Psram, before: seq<bv8>)
    requires p.Valid() && |before| == PSRAM_SIZE
    requires p.Outside() == before[..p.Start() - HEADER_SIZE] + before[p.Start() + p.length..]
    ensures SameOutside(before, p.mem[..], p.length, p.Start())
  {
    var lo, hi := p.Start() - HEADER_SIZE, p.Start() + p.length;
    var m := p.mem[..];
    assert p.Outside() == m[..lo] + m[hi..];
    assert m[..lo] == p.Outside()[..lo] == before[..lo];
    assert m[hi..] == p.Outside()[lo..] == before[hi..];
  }

  /**
   * PSRAM(size, offset, create, blocksize, skip_crc) over the window `mem`:
   * the constructor's checks, then check_header(create).
   */
  method Open(mem: array<bv8>, size: int, offset: Option<int>, create: bool, blocksize: int, skipCrc: bool)
    returns (r: Result<Psram, Error>)
    requires mem.Length == PSRAM_SIZE
    modifies mem
    ensures Configure(size, offset, blocksize).Failure? ==>
      r == Failure(Configure(size, offset, blocksize).error) && mem[..] == old(mem[..])
    ensures r.Success? ==>
      var p := r.value;
      Configure(size, offset, blocksize).Success? &&
      p.Valid() && p.mem == mem && p.ptr == 0 && p.skipCrc == skipCrc &&
      p.length == size && p.blocksize == blocksize && p.blocks * blocksize == size &&
      p.offset == PSRAM_BASE + OffsetOf(size, offset) && p.HeaderOk()
    ensures r.Failure? && Configure(size, offset, blocksize).Success? ==>
      r.error == Untrusted && !create && mem[..] == old(mem[..])
    ensures Configure(size, offset, blocksize).Success? ==>
      (r.Success? <==> create || StoredValid(old(mem[..]), size, OffsetOf(size, offset), skipCrc))
    ensures Configure(size, offset, blocksize).Success? && StoredValid(old(mem[..]), size, OffsetOf(size, offset), skipCrc) ==>
      mem[..] == old(mem[..])
    ensures Configure(size, offset, blocksize).Success? && create && !StoredValid(old(mem[..]), size, OffsetOf(size, offset), skipCrc) ==>
      r.Success? && r.value.Body() == Fill(0, size)
    ensures Configure(size, offset, blocksize).Success? ==>
      SameOutside(old(mem[..]), mem[..], size, OffsetOf(size, offset))
  {
    var layout := Configure(size, offset, blocksize);
    if layout.Failure? {
      return Failure(layout.error);
    }
    ghost var before := mem[..];
    ghost var off := OffsetOf(size, offset);
    ghost var stored := StoredValid(before, size, off, skipCrc);
    var p := new Psram(mem, layout.value, skipCrc);
    assert p.Start() == off && p.length == size;
    HeaderOkStored(p);
    OutsideOf(p, before);
    var ok := p.CheckHeader(create);
    OutsideSame(p, before);
    assert ok <==> create || stored;
    if !ok {
      return Failure(Untrusted);
    }
    return Success(p);
  }

  /**
   * The block device reads back what it wrote: writeblocks then readblocks
   * of the same block, with a buffer of the same size inside the region,
   * gives the written bytes and leaves the cursor where it was.
   */
  method BlockRoundTrip(p: Psram, blockNum: int, off: int, data: seq<bv8>, buf: array<bv8>)
    requires p.Valid() && 0 <= p.BlockPosition(blockNum, off) && buf != p.mem
    requires buf.Length == |data| && p.BlockPosition(blockNum, off) + |data| <= p.length
    modifies p, p.mem, buf
    ensures buf[..] == data && p.ptr == old(p.ptr) && p.HeaderOk()
  {
    ghost var at := p.BlockPosition(blockNum, off);
    p.WriteBlocks(blockNum, data, off);
    ghost var body := p.Body();
    assert |data| > 0 ==> body[at..at + |data|] == data;
    p.ReadBlocks(blockNum, buf, off);
    assert p.Body() == body;
  }

  /** The CRC is skipped for regions larger than 256 KiB. */
  function SkipCrcFor(size: int): bool
  {
    size > 1024 * 256
  }

  /**
   * mktmpfs without the filesystem: a region created at the top of the window
   * with 256-byte blocks, skipping the CRC above 256 KiB.
   */
  method MkTmpfs(mem: array<bv8>, size: int) returns (r: Result<Psram, Error>)
    requires mem.Length == PSRAM_SIZE
    modifies mem
    ensures r.Success? <==> Configure(size, None, 256).Success?
    ensures r.Success? ==>
      r.value.Valid() && r.value.HeaderOk() && r.value.skipCrc == (size > 256 * 1024) &&
      r.value.length == size && r.value.blocksize == 256
    ensures Configure(size, None, 256).Success? && StoredValid(old(mem[..]), size, PSRAM_SIZE - size, SkipCrcFor(size)) ==>
      mem[..] == old(mem[..])
    ensures Configure(size, None, 256).Success? && !StoredValid(old(mem[..]), size, PSRAM_SIZE - size, SkipCrcFor(size)) ==>
      r.Success? && r.value.Body() == Fill(0, size)
    ensures Configure(size, None, 256).Success? ==>
      SameOutside(old(mem[..]), mem[..], size, PSRAM_SIZE - size)
    ensures r.Success? ==> r.value.offset == PSRAM_BASE + PSRAM_SIZE - size
  {
    r := Open(mem, size, None, true, 256, SkipCrcFor(size));
  }
}
