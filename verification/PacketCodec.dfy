/** Packet_printf and Packet_scanf of src/common/net.cpp.  A format string is given as the sequence
    of its conversions; anything else in a format string is the conversion Unknown. */
module PacketCodec {
  import opened Arithmetic
  import opened Sockbufs

  datatype Conv = C | D | U | HD | HU | LD | LU | SmallStr | BigStr | Unknown {
    predicate IsString() {
      SmallStr? || BigStr?
    }
  }

  /** A C string carries no NUL of its own; the terminator is implicit. */
  datatype Value = Num(v: int) | Str(s: seq<byte>)

  const MAX_CHARS: nat := 80
  const MSG_LEN: nat := 256

  function Width(c: Conv): nat {
    match c
    case C => 1
    case HD | HU => 2
    case _ => 4
  }

  function MaxStr(c: Conv): nat {
    if c == BigStr then MSG_LEN else MAX_CHARS
  }

  /** The arguments a caller has to pass for a format. */
  ghost predicate Matches(fmt: seq<Conv>, args: seq<Value>) {
    && |args| == |fmt|
    && forall i :: 0 <= i < |fmt| ==> Fits(fmt[i], args[i])
  }

  ghost predicate Fits(c: Conv, v: Value) {
    c != Unknown ==> if c.IsString() then v.Str? && 0 !in v.s else v.Num?
  }

  // ---- what one conversion puts on the wire and takes off it

  /** The low `width` bytes of v, most significant first: what shifting by 24, 16, 8 and 0 keeps. */
  function EncodeInt(v: int, width: nat): (bytes: seq<byte>)
    ensures |bytes| == width
    decreases width
  {
    if width == 0 then [] else EncodeInt(v / 256, width - 1) + [(v % 256) as byte]
  }

  function Unsigned(bytes: seq<byte>): nat {
    if bytes == [] then 0 else Unsigned(bytes[..|bytes| - 1]) * 256 + bytes[|bytes| - 1] as int
  }

  function DecodeInt(c: Conv, bytes: seq<byte>): int
    requires |bytes| == Width(c)
  {
    var u := Unsigned(bytes);
    match c
    case D | LD => if u >= 0x8000_0000 then u - 0x1_0000_0000 else u
    case HD => if u >= 0x8000 then u - 0x1_0000 else u
    case _ => u
  }

  ghost predicate InRange(c: Conv, v: int) {
    match c
    case C => 0 <= v < 0x100
    case D | LD => -0x8000_0000 <= v < 0x8000_0000
    case U | LU => 0 <= v < 0x1_0000_0000
    case HD => -0x8000 <= v < 0x8000
    case HU => 0 <= v < 0x1_0000
    case _ => false
  }

  // ---- printing

  datatype PrintResult = Printed(bytes: seq<byte>) | NoRoom | BadFormat

  function Prepend(bytes: seq<byte>, r: PrintResult): PrintResult {
    if r.Printed? then Printed(bytes + r.bytes) else r
  }

  /** The bytes of a string that get printed when `room` bytes are left: with the NUL, unless cut. */
  function PrintedStr(c: Conv, s: seq<byte>, room: nat): (bytes: seq<byte>)
    ensures |bytes| <= room
  {
    (s + [0])[..Min(|s| + 1, Min(room, MaxStr(c)))]
  }

  /** One conversion, with `room` bytes left. */
  function PrintItem(c: Conv, v: Value, room: int): PrintResult
    requires Fits(c, v)
  {
    if c == Unknown then BadFormat
    else if c.IsString() then if room < 0 then NoRoom else Printed(PrintedStr(c, v.s, room))
    else if room <= Width(c) then NoRoom
    else Printed(EncodeInt(v.v, Width(c)))
  }

  /** The conversions from the i-th on. */
  function Print(fmt: seq<Conv>, args: seq<Value>, i: nat, room: int): PrintResult
    requires Matches(fmt, args) && i <= |fmt|
    decreases |fmt| - i
  {
    if i == |fmt| then Printed([])
    else
      var item := PrintItem(fmt[i], args[i], room);
      if item.Printed? then Prepend(item.bytes, Print(fmt, args, i + 1, room - |item.bytes|)) else item
  }

  /** Room left for a packet: all but the last packet of a frame leave some bytes spare. */
  function Room(size: nat, len: nat, lastPacketOfFrame: bool): int {
    size - (if lastPacketOfFrame then 0 else SOCKBUF_WRITE_SPARE) - len
  }

  /** A packet that can be read back comes behind what was there, whole exactly when there is room for it. */
  ghost predicate WholeIfRoom(fmt: seq<Conv>, args: seq<Value>, room: int, was: seq<byte>, now: seq<byte>) {
    Representable(fmt, args) && fmt != [] ==>
      var n := |Wire(fmt, args, 0)|;
      now == was + Wire(fmt, args, 0) <==> n < room || (n == room && fmt[|fmt| - 1].IsString())
  }

  lemma PrependNothing(r: PrintResult)
    ensures Prepend([], r) == r
  {
    if r.Printed? {
      assert [] + r.bytes == r.bytes;
    }
  }

  lemma PrependTwice(a: seq<byte>, b: seq<byte>, r: PrintResult)
    ensures Prepend(a, Prepend(b, r)) == Prepend(a + b, r)
  {
    if r.Printed? {
      assert a + (b + r.bytes) == a + b + r.bytes;
    }
  }

  /** Copies a string and its NUL behind the cursor, up to `stop`. */
  method CopyString(sb: Sockbuf, s: seq<byte>, start: nat, stop: nat) returns (cur: nat)
    requires sb.Valid() && sb.len <= start <= stop <= sb.size
    modifies sb.buf
    ensures cur == start + Min(|s| + 1, stop - start)
    ensures sb.buf[..start] == old(sb.buf[..start])
    ensures sb.buf[start..cur] == (s + [0])[..cur - start]
  {
    cur := start;
    ghost var z: seq<byte> := s + [0];
    while cur < stop
      invariant start <= cur <= stop && cur - start <= |s|
      invariant sb.buf[..start] == old(sb.buf[..start])
      invariant sb.buf[start..cur] == z[..cur - start]
    {
      var c := if cur - start < |s| then s[cur - start] else 0;
      assert c == z[cur - start];
      label Before:
      sb.buf[cur] := c;
      assert sb.buf[start..cur] == old@Before(sb.buf[start..cur]);
      assert sb.buf[start..cur + 1] == sb.buf[start..cur] + [c] == z[..cur + 1 - start];
      cur := cur + 1;
      if cur - start == |s| + 1 {
        break;
      }
    }
  }

  /** What a write behind the cursor leaves alone. */
  lemma Appended(now: seq<byte>, before: seq<byte>, a: nat, b: nat, c: nat)
    requires a <= b <= c <= |now| == |before| && now[..b] == before[..b]
    ensures now[..a] == before[..a] && now[a..c] == before[a..b] + now[b..c]
  {
    assert now[..a] == now[..b][..a] && before[..a] == before[..b][..a];
    assert now[a..b] == now[..b][a..] && before[a..b] == before[..b][a..];
  }

  method PutInt(sb: Sockbuf, v: int, w: nat, start: nat) returns (cur: nat)
    requires sb.Valid() && sb.len <= start && start + w <= sb.size
    modifies sb.buf
    ensures cur == start + w
    ensures sb.buf[..start] == old(sb.buf[..start])
    ensures sb.buf[start..cur] == EncodeInt(v, w)
  {
    var bytes := EncodeInt(v, w);
    forall k | 0 <= k < w {
      sb.buf[start + k] := bytes[k];
    }
    cur := start + w;
  }

  datatype Failure = NoFailure | FormatFailure | SizeFailure

  /** Prints one conversion behind the cursor, or leaves the buffer as it is. */
  method PutItem(sb: Sockbuf, c: Conv, v: Value, start: nat, end: int) returns (cur: nat, failure: Failure)
    requires sb.Valid() && sb.len <= start <= sb.size && end <= sb.size
    requires Fits(c, v)
    modifies sb.buf
    ensures start <= cur <= sb.size
    ensures sb.buf[..start] == old(sb.buf[..start])
    ensures match PrintItem(c, v, end - start)
            case Printed(bytes) => failure == NoFailure && cur <= end && sb.buf[start..cur] == bytes
            case NoRoom => failure == SizeFailure
            case BadFormat => failure == FormatFailure
  {
    cur, failure := start, NoFailure;
    if c == Unknown {
      failure := FormatFailure;
    } else if c.IsString() {
      if start > end {
        return start, SizeFailure;
      }
      var stop := if start + MaxStr(c) >= end then end else start + MaxStr(c);
      cur := CopyString(sb, v.s, start, stop);
    } else {
      var w := Width(c);
      if start + w >= end {
        return start, SizeFailure;
      }
      cur := PutInt(sb, v.v, w, start);
    }
  }

  method Printf(sb: Sockbuf, fmt: seq<Conv>, args: seq<Value>, lastPacketOfFrame: bool) returns (count: int)
    requires sb.Valid() && Matches(fmt, args)
    modifies sb`len, sb.buf
    ensures sb.Valid()
    ensures match Print(fmt, args, 0, Room(sb.size, old(sb.len), lastPacketOfFrame))
            case Printed(bytes) => sb.Data() == old(sb.Data()) + bytes && count == |bytes|
            case NoRoom => sb.Data() == old(sb.Data()) && count == if sb.dgram then 0 else -1
            case BadFormat => sb.Data() == old(sb.Data()) && count == -1
    ensures WholeIfRoom(fmt, args, sb.size - old(sb.len) - (if lastPacketOfFrame then 0 else 8), old(sb.Data()),
                        sb.Data())
    // only the last packet of a frame may use the spare room
    ensures !lastPacketOfFrame ==> sb.len <= Max(old(sb.len), sb.size - SOCKBUF_WRITE_SPARE)
  {
    hide PrintItem, Fits, WholeIfRoom;
    var end: int := sb.size - (if lastPacketOfFrame then 0 else SOCKBUF_WRITE_SPARE);
    var cur := sb.len;
    var i := 0;
    var failure := NoFailure;
    ghost var r := Print(fmt, args, 0, end - cur);
    PrependNothing(r);
    while failure == NoFailure && i < |fmt|
      invariant 0 <= i <= |fmt|
      invariant sb.len == old(sb.len) <= cur <= sb.size && (cur == sb.len || cur <= end)
      invariant sb.buf[..sb.len] == old(sb.buf[..sb.len])
      invariant match failure
                case NoFailure => r == Prepend(sb.buf[sb.len..cur], Print(fmt, args, i, end - cur))
                case SizeFailure => r == NoRoom
                case FormatFailure => r == BadFormat
    {
      ghost var before, item := sb.buf[..], PrintItem(fmt[i], args[i], end - cur);
      var next;
      next, failure := PutItem(sb, fmt[i], args[i], cur, end);
      assert sb.buf[..][..cur] == before[..cur];
      Appended(sb.buf[..], before, sb.len, cur, next);
      if failure == NoFailure {
        PrependTwice(before[sb.len..cur], item.bytes, Print(fmt, args, i + 1, end - next));
        cur := next;
      }
      i := i + 1;
    }
    if failure == NoFailure {
      count := cur - sb.len;
      assert sb.buf[..cur] == sb.buf[..sb.len] + sb.buf[sb.len..cur];
      sb.len := cur;
    } else {
      count := if failure == SizeFailure && sb.dgram then 0 else -1;
    }
    PrintsWholeData(fmt, args, end - old(sb.len), old(sb.Data()), sb.Data());
  }

  // ---- scanning

  datatype ScanResult = Scanned(values: seq<Value>, used: nat) | Incomplete | Overflow | BadInput

  datatype StrScan = StrDone(length: nat) | StrShort | StrLong

  function ScanStr(data: seq<byte>, k: nat, max: nat): StrScan
    requires k <= |data|
    decreases |data| - k
  {
    if k == |data| then StrShort
    else if data[k] == 0 then StrDone(k)
    else if k + 1 >= max then StrLong
    else ScanStr(data, k + 1, max)
  }

  lemma ScanStrBounds(data: seq<byte>, k: nat, max: nat)
    requires k <= |data|
    ensures var r := ScanStr(data, k, max); r.StrDone? ==> k <= r.length < |data|
    decreases |data| - k
  {
  }

  /** One conversion taken off the front of the data. */
  function ScanItem(c: Conv, data: seq<byte>): (r: ScanResult)
    ensures r.Scanned? ==> |r.values| == 1 && r.used <= |data|
  {
    if c == Unknown then BadInput
    else if c.IsString() then
      ScanStrBounds(data, 0, MaxStr(c));
      match ScanStr(data, 0, MaxStr(c))
      case StrShort => Incomplete
      case StrLong => Overflow
      case StrDone(n) => Scanned([Str(data[..n])], n + 1)
    else if |data| < Width(c) then Incomplete
    else Scanned([Num(DecodeInt(c, data[..Width(c)]))], Width(c))
  }

  function Join(values: seq<Value>, n: nat, r: ScanResult): ScanResult {
    if r.Scanned? then Scanned(values + r.values, n + r.used) else r
  }

  /** The conversions from the i-th on, taken off the data from position `at`. */
  function Scan(fmt: seq<Conv>, i: nat, data: seq<byte>, at: nat): ScanResult
    requires i <= |fmt| && at <= |data|
    decreases |fmt| - i
  {
    if i == |fmt| then Scanned([], 0)
    else
      var item := ScanItem(fmt[i], data[at..]);
      if item.Scanned? then Join(item.values, item.used, Scan(fmt, i + 1, data, at + item.used)) else item
  }

  lemma {:induction false} ScanUsesAtMost(fmt: seq<Conv>, i: nat, data: seq<byte>, at: nat)
    requires i <= |fmt| && at <= |data|
    ensures var r := Scan(fmt, i, data, at); r.Scanned? ==> at + r.used <= |data| && |r.values| == |fmt| - i
    decreases |fmt| - i
  {
    if i < |fmt| {
      var item := ScanItem(fmt[i], data[at..]);
      if item.Scanned? {
        ScanUsesAtMost(fmt, i + 1, data, at + item.used);
      }
    }
  }

  lemma JoinNothing(r: ScanResult)
    ensures Join([], 0, r) == r
  {
    if r.Scanned? {
      assert [] + r.values == r.values;
    }
  }

  lemma JoinTwice(a: seq<Value>, n: nat, b: seq<Value>, k: nat, r: ScanResult)
    ensures Join(a, n, Join(b, k, r)) == Join(a + b, n + k, r)
  {
    if r.Scanned? {
      assert a + (b + r.values) == a + b + r.values;
    }
  }

  method GetItem(sb: Sockbuf, c: Conv, start: nat) returns (r: ScanResult)
    requires sb.Valid() && start <= sb.len
    ensures r == ScanItem(c, sb.Data()[start..])
  {
    ghost var data := sb.Data()[start..];
    if c == Unknown {
      return BadInput;
    } else if c.IsString() {
      var max := MaxStr(c);
      var str: seq<byte> := [];
      while true
        invariant |str| <= |data| && str == data[..|str|]
        invariant ScanStr(data, 0, max) == ScanStr(data, |str|, max)
        decreases |data| - |str|
      {
        if sb.len < start + |str| + 1 {
          return Incomplete;
        }
        var ch := sb.buf[start + |str|];
        if ch == 0 {
          return Scanned([Str(str)], |str| + 1);
        }
        str := str + [ch];
        if |str| >= max {
          return Overflow;
        }
      }
    } else {
      var w := Width(c);
      if sb.len < start + w {
        return Incomplete;
      }
      var bytes := sb.buf[start..start + w];
      assert |data| == sb.len - start;
      assert forall k | 0 <= k < w :: bytes[k] == data[k];
      assert bytes == data[..w];
      return Scanned([Num(DecodeInt(c, bytes))], w);
    }
  }

  method Scanf(sb: Sockbuf, fmt: seq<Conv>) returns (count: int, values: seq<Value>)
    requires sb.Valid() && sb.ptr <= sb.len
    modifies sb`ptr
    ensures sb.Valid() && sb.ptr <= sb.len && sb.Data() == old(sb.Data())
    ensures var r := Scan(fmt, 0, old(sb.Data()), old(sb.ptr));
            match r
            case Scanned(vs, used) => count == |fmt| && values == vs && sb.ptr == old(sb.ptr) + used
            case Incomplete => count == 0 && sb.ptr == old(sb.ptr)
            case Overflow => count == (if sb.lock then -1 else 0) && sb.ptr == old(sb.ptr)
            case BadInput => count == -1 && sb.ptr == old(sb.ptr)
  {
    hide ScanItem;
    values := [];
    var j := sb.ptr;
    var i := 0;
    ghost var data := sb.Data();
    ghost var r := Scan(fmt, 0, data, j);
    JoinNothing(r);
    while i < |fmt|
      invariant 0 <= i <= |fmt| && |values| == i
      invariant sb.ptr == old(sb.ptr) <= j <= |data|
      invariant r == Join(values, j - sb.ptr, Scan(fmt, i, data, j))
    {
      var item := GetItem(sb, fmt[i], j);
      match item
      case BadInput => return -1, values;
      case Incomplete => return 0, values;
      case Overflow => return if sb.lock then -1 else 0, values;
      case Scanned(vs, used) =>
        JoinTwice(values, j - sb.ptr, vs, used, Scan(fmt, i + 1, data, j + used));
        values, j := values + vs, j + used;
        i := i + 1;
    }
    assert values + [] == values;
    sb.ptr := j;
    count := |fmt|;
  }

  // ---- the two undo each other

  /** What a packet carries when nothing is cut. */
  function WireItem(c: Conv, v: Value): seq<byte>
    requires Fits(c, v)
  {
    if c == Unknown then [] else if c.IsString() then v.s + [0] else EncodeInt(v.v, Width(c))
  }

  function Wire(fmt: seq<Conv>, args: seq<Value>, i: nat): seq<byte>
    requires Matches(fmt, args) && i <= |fmt|
    decreases |fmt| - i
  {
    if i == |fmt| then [] else WireItem(fmt[i], args[i]) + Wire(fmt, args, i + 1)
  }

  /** Values in range, strings shorter than what the scanner has room for. */
  ghost predicate RepresentableItem(c: Conv, v: Value) {
    && c != Unknown && Fits(c, v)
    && if c.IsString() then |v.s| < MaxStr(c) else InRange(c, v.v)
  }

  ghost predicate Representable(fmt: seq<Conv>, args: seq<Value>) {
    && Matches(fmt, args)
    && forall i :: 0 <= i < |fmt| ==> RepresentableItem(fmt[i], args[i])
  }

  function Pow256(n: nat): (p: nat)
    ensures p > 0
  {
    if n == 0 then 1 else 256 * Pow256(n - 1)
  }

  lemma {:induction false} UnsignedEncode(v: int, width: nat)
    ensures Unsigned(EncodeInt(v, width)) == v % Pow256(width)
    decreases width
  {
    if width > 0 {
      var bytes := EncodeInt(v, width);
      UnsignedEncode(v / 256, width - 1);
      assert bytes[..width - 1] == EncodeInt(v / 256, width - 1);
      ModStep(v, Pow256(width - 1));
    }
  }

  lemma ModStep(v: int, p: nat)
    requires p > 0
    ensures v / 256 % p * 256 + v % 256 == v % (256 * p)
  {
    var q, r := v / 256 / p, v / 256 % p;
    var low := r * 256 + v % 256;
    assert v == (256 * p) * q + low by {
      assert v / 256 == p * q + r;
      assert (256 * p) * q == 256 * (p * q);
    }
    assert 0 <= low < 256 * p;
    ModUnique(v, 256 * p, q, low);
  }

  lemma ModUnique(v: int, d: int, q: int, r: int)
    requires d > 0 && v == d * q + r && 0 <= r < d
    ensures v % d == r
  {
    var k := v / d - q;
    assert d * k == r - v % d by {
      assert d * (v / d) == d * q + d * k;
    }
    MulSign(d, k);
  }

  lemma Powers()
    ensures Pow256(1) == 0x100 && Pow256(2) == 0x1_0000 && Pow256(4) == 0x1_0000_0000
  {
    assert Pow256(4) == 256 * Pow256(3) == 256 * (256 * Pow256(2));
  }

  lemma DecodeEncode(c: Conv, v: int)
    requires InRange(c, v)
    ensures DecodeInt(c, EncodeInt(v, Width(c))) == v
  {
    hide Unsigned, EncodeInt, Pow256;
    Powers();
    UnsignedEncode(v, Width(c));
  }

  lemma OneByte(v: int)
    ensures EncodeInt(v, 1) == [(v % 256) as byte]
  {
    assert EncodeInt(v, 1) == EncodeInt(v / 256, 0) + [(v % 256) as byte];
  }

  lemma TwoBytes(v: int)
    ensures EncodeInt(v, 2) == [(v / 256 % 256) as byte, (v % 256) as byte]
  {
    OneByte(v / 256);
  }

  lemma FourBytes(v: int)
    ensures EncodeInt(v, 4) == EncodeInt(v / 65536, 2) + EncodeInt(v, 2)
  {
    TwoBytes(v);
    assert v / 256 / 256 == v / 65536;
    assert EncodeInt(v, 4) == EncodeInt(v / 256, 3) + [(v % 256) as byte];
    assert EncodeInt(v / 256, 3) == EncodeInt(v / 65536, 2) + [(v / 256 % 256) as byte];
  }

  /** The bytes of each integer conversion, most significant first. */
  lemma BytesOf(c: Conv, v: int)
    ensures var b := EncodeInt(v, Width(c));
            match c
            case C => b == [(v % 256) as byte]
            case HD | HU => b == [(v / 256 % 256) as byte, (v % 256) as byte]
            case _ => b == [(v / 16777216 % 256) as byte, (v / 65536 % 256) as byte, (v / 256 % 256) as byte,
                            (v % 256) as byte]
  {
    hide EncodeInt;
    OneByte(v);
    TwoBytes(v);
    FourBytes(v);
    TwoBytes(v / 65536);
    assert v / 65536 / 256 == v / 16777216;
  }

  lemma UnsignedBound(bytes: seq<byte>)
    ensures Unsigned(bytes) < Pow256(|bytes|)
  {
    if bytes != [] {
      UnsignedBound(bytes[..|bytes| - 1]);
    }
  }

  /** Only the integers in range are read back. */
  lemma ReadBackInRange(c: Conv, v: int)
    requires c != Unknown && !c.IsString()
    ensures DecodeInt(c, EncodeInt(v, Width(c))) == v <==>
            (match c
             case C => 0 <= v < 256
             case HD => -32768 <= v < 32768
             case HU => 0 <= v < 65536
             case D | LD => -2147483648 <= v < 2147483648
             case _ => 0 <= v < 4294967296)
  {
    hide Unsigned, EncodeInt, Pow256;
    Powers();
    var bytes := EncodeInt(v, Width(c));
    UnsignedBound(bytes);
    assert |bytes| == Width(c) && Unsigned(bytes) < Pow256(Width(c));
    if InRange(c, v) {
      DecodeEncode(c, v);
    }
  }

  /** A string shorter than the scanner's buffer, of 80 bytes for %s and 256 for %S, is read back. */
  lemma ShortStringReadsBack(c: Conv, s: seq<byte>, rest: seq<byte>)
    requires c.IsString() && 0 !in s && |s| < if c == SmallStr then 80 else 256
    ensures ScanItem(c, s + [0] + rest) == Scanned([Str(s)], |s| + 1)
  {
    assert WireItem(c, Str(s)) == s + [0];
    ScanItemUndoes(c, Str(s), rest);
  }

  /** A longer one is printed without its end and its NUL, and what is left of it still overflows the scanner. */
  lemma LongStringOverflows(c: Conv, s: seq<byte>, rest: seq<byte>, room: int)
    requires c.IsString() && 0 !in s
    requires (if c == SmallStr then 80 else 256) <= Min(|s|, room)
    ensures var cut := s[..if c == SmallStr then 80 else 256];
            PrintItem(c, Str(s), room) == Printed(cut) && ScanItem(c, cut + rest) == Overflow
  {
    var max := if c == SmallStr then 80 else 256;
    assert (s + [0])[..max] == s[..max];
    ScanStrOverflows(s[..max], rest, 0, max);
  }

  lemma {:induction false} ScanStrOverflows(s: seq<byte>, rest: seq<byte>, k: nat, max: nat)
    requires 0 !in s && k < max <= |s|
    ensures ScanStr(s + rest, k, max) == StrLong
    decreases |s| - k
  {
    assert (s + rest)[k] == s[k];
    if k + 1 < max {
      ScanStrOverflows(s, rest, k + 1, max);
    }
  }

  lemma {:induction false} ScanStrFindsNul(s: seq<byte>, rest: seq<byte>, k: nat, max: nat)
    requires 0 !in s && k <= |s| < max
    ensures ScanStr(s + [0] + rest, k, max) == StrDone(|s|)
    decreases |s| - k
  {
    var data := s + [0] + rest;
    if k < |s| {
      assert data[k] == s[k];
      ScanStrFindsNul(s, rest, k + 1, max);
    }
  }

  lemma ScanItemUndoes(c: Conv, v: Value, rest: seq<byte>)
    requires RepresentableItem(c, v)
    ensures ScanItem(c, WireItem(c, v) + rest) == Scanned([v], |WireItem(c, v)|)
  {
    var data := WireItem(c, v) + rest;
    if c.IsString() {
      ScanStrFindsNul(v.s, rest, 0, MaxStr(c));
      assert data[..|v.s|] == v.s;
    } else {
      assert data[..Width(c)] == EncodeInt(v.v, Width(c));
      DecodeEncode(c, v.v);
    }
  }

  /** The scanner undoes the printer, whatever stands before and follows in the buffer. */
  lemma {:induction false} ScanUndoesPrint(fmt: seq<Conv>, args: seq<Value>, i: nat, data: seq<byte>, at: nat)
    requires Representable(fmt, args) && i <= |fmt| && at <= |data|
    requires Wire(fmt, args, i) <= data[at..]
    ensures Scan(fmt, i, data, at) == Scanned(args[i..], |Wire(fmt, args, i)|)
    decreases |fmt| - i
  {
    hide ScanItem, WireItem, RepresentableItem, Fits;
    if i < |fmt| {
      var item, tail := WireItem(fmt[i], args[i]), Wire(fmt, args, i + 1);
      var rest := data[at..][|item|..];
      assert data[at..] == item + rest;
      ScanItemUndoes(fmt[i], args[i], rest);
      assert rest == data[at + |item|..];
      assert tail == (item + tail)[|item|..] <= rest;
      ScanUndoesPrint(fmt, args, i + 1, data, at + |item|);
      assert [args[i]] + args[i + 1..] == args[i..];
    }
  }

  lemma PrintsWholeItem(c: Conv, v: Value, room: int)
    requires RepresentableItem(c, v)
    ensures PrintItem(c, v, room) == Printed(WireItem(c, v))
       <==> |WireItem(c, v)| < room || (|WireItem(c, v)| == room && c.IsString())
    ensures var r := PrintItem(c, v, room); r.Printed? && r.bytes != WireItem(c, v) ==>
              |r.bytes| == room && c.IsString()
    ensures |WireItem(c, v)| > 0
  {
    if c.IsString() && room >= 0 {
      var z := v.s + [0];
      if room >= |z| {
        assert PrintedStr(c, v.s, room) == z;
      }
    }
  }

  /** Exactly when the whole packet gets printed: a fixed-size field needs one byte more than its
      own size, so only a packet that ends in a string can fill its room. */
  lemma {:induction false} PrintsWhole(fmt: seq<Conv>, args: seq<Value>, i: nat, room: int)
    requires Representable(fmt, args) && i < |fmt|
    ensures Print(fmt, args, i, room) == Printed(Wire(fmt, args, i))
       <==> |Wire(fmt, args, i)| < room || (|Wire(fmt, args, i)| == room && fmt[|fmt| - 1].IsString())
    decreases |fmt| - i
  {
    hide PrintItem, WireItem, Fits, RepresentableItem;
    var item, r := WireItem(fmt[i], args[i]), PrintItem(fmt[i], args[i], room);
    var tail := Wire(fmt, args, i + 1);
    PrintsWholeItem(fmt[i], args[i], room);
    if i + 1 < |fmt| {
      PrintsWholeItem(fmt[i + 1], args[i + 1], room);
      PrintsWhole(fmt, args, i + 1, room - |item|);
    }
    if r == Printed(item) {
      PrefixCancels(item, tail, Print(fmt, args, i + 1, room - |item|));
    } else if r.Printed? {
      // a cut string has used up the room, so what is printed is shorter than the packet
      PrintNeverTooLong(fmt, args, i, room);
    }
  }

  lemma PrintsWholeData(fmt: seq<Conv>, args: seq<Value>, room: int, was: seq<byte>, now: seq<byte>)
    requires Matches(fmt, args)
    requires now == match Print(fmt, args, 0, room) case Printed(bytes) => was + bytes case _ => was
    ensures WholeIfRoom(fmt, args, room, was, now)
  {
    hide Print, Wire, PrintItem, Fits, RepresentableItem;
    if Representable(fmt, args) && fmt != [] {
      PrintsWhole(fmt, args, 0, room);
      WireNotEmpty(fmt, args);
      PrefixCancels(was, Wire(fmt, args, 0), Print(fmt, args, 0, room));
    }
  }

  lemma WireNotEmpty(fmt: seq<Conv>, args: seq<Value>)
    requires Representable(fmt, args) && fmt != []
    ensures Wire(fmt, args, 0) != []
  {
    PrintsWholeItem(fmt[0], args[0], 0);
  }

  lemma PrefixCancels(a: seq<byte>, tail: seq<byte>, r: PrintResult)
    ensures Prepend(a, r) == Printed(a + tail) <==> r == Printed(tail)
  {
    if Prepend(a, r) == Printed(a + tail) {
      assert (a + r.bytes)[|a|..] == r.bytes && (a + tail)[|a|..] == tail;
    }
  }

  lemma {:induction false} PrintNeverTooLong(fmt: seq<Conv>, args: seq<Value>, i: nat, room: int)
    requires Matches(fmt, args) && i <= |fmt|
    ensures var r := Print(fmt, args, i, room); r.Printed? && i < |fmt| ==> |r.bytes| <= room
    decreases |fmt| - i
  {
    if i < |fmt| {
      var item := PrintItem(fmt[i], args[i], room);
      if item.Printed? {
        PrintNeverTooLong(fmt, args, i + 1, room - |item.bytes|);
      }
    }
  }

  // ---- a whole buffer of packets

  datatype Message = Message(fmt: seq<Conv>, args: seq<Value>)

  ghost predicate AllRepresentable(ms: seq<Message>) {
    forall m :: m in ms ==> m.fmt != [] && Representable(m.fmt, m.args)
  }

  ghost function WireAll(ms: seq<Message>): seq<byte>
    requires AllRepresentable(ms)
  {
    if ms == [] then [] else Wire(ms[0].fmt, ms[0].args, 0) + WireAll(ms[1..])
  }

  /** The contents of a buffer after printing each message in turn. */
  ghost function PrintAll(ms: seq<Message>, size: nat, contents: seq<byte>): PrintResult
    requires AllRepresentable(ms)
  {
    if ms == [] then Printed(contents)
    else
      var r := Print(ms[0].fmt, ms[0].args, 0, Room(size, |contents|, false));
      if r.Printed? then PrintAll(ms[1..], size, contents + r.bytes) else r
  }

  /** Scanning with the same formats in turn gives every message back and uses up the data. */
  ghost predicate ReadsBack(ms: seq<Message>, data: seq<byte>, at: nat) {
    && at <= |data|
    && if ms == [] then at == |data|
       else
         var r := Scan(ms[0].fmt, 0, data, at);
         r.Scanned? && r.values == ms[0].args && ReadsBack(ms[1..], data, at + r.used)
  }

  lemma {:induction false} RoundTrip(ms: seq<Message>, size: nat, contents: seq<byte>)
    requires AllRepresentable(ms)
    requires |contents| + |WireAll(ms)| < size - SOCKBUF_WRITE_SPARE
    ensures PrintAll(ms, size, contents) == Printed(contents + WireAll(ms))
    ensures ReadsBack(ms, contents + WireAll(ms), |contents|)
  {
    hide Print, Scan, Wire, RepresentableItem, Fits;
    var data := contents + WireAll(ms);
    if ms == [] {
      assert data == contents;
    } else {
      var w := Wire(ms[0].fmt, ms[0].args, 0);
      PrintsWhole(ms[0].fmt, ms[0].args, 0, Room(size, |contents|, false));
      assert data[|contents|..] == WireAll(ms);
      ScanUndoesPrint(ms[0].fmt, ms[0].args, 0, data, |contents|);
      assert ms[0].args[0..] == ms[0].args;
      assert data == contents + w + WireAll(ms[1..]);
      RoundTrip(ms[1..], size, contents + w);
    }
  }
}
