/** Compress_map of src/server/netserver.cpp: run-length coding that overwrites its own input. */
module RunLength {
  import opened Sockbufs

  const SETUP_COMPRESSED: byte := 0x80
  const MAX_RUN: nat := 255

  /** map | SETUP_COMPRESSED */
  function Mark(b: byte): byte {
    if b < SETUP_COMPRESSED then b + SETUP_COMPRESSED else b
  }

  /** How many bytes from i on equal the i-th, given that k do; no more than 255. */
  function RunFrom(s: seq<byte>, i: nat, k: nat): (n: nat)
    requires 0 < k <= MAX_RUN && i + k <= |s|
    ensures k <= n <= MAX_RUN && i + n <= |s|
    decreases |s| - i - k
  {
    if i + k < |s| && s[i + k] == s[i] && k < MAX_RUN then RunFrom(s, i, k + 1) else k
  }

  function Rle(s: seq<byte>, i: nat): seq<byte>
    requires i <= |s|
    decreases |s| - i
  {
    if i == |s| then []
    else
      var n := RunFrom(s, i, 1);
      Code(s[i], n) + Rle(s, i + n)
  }

  /** The units of a packed sequence: a byte and how often it comes. */
  datatype Unit = Unit(b: byte, n: nat)

  function Units(t: seq<byte>): seq<Unit> {
    if t == [] then []
    else if t[0] < SETUP_COMPRESSED then [Unit(t[0], 1)] + Units(t[1..])
    else if |t| == 1 then []
    else [Unit(t[0] - SETUP_COMPRESSED, t[1] as nat)] + Units(t[2..])
  }

  /** No run is cut short: two neighbouring units have the same byte only if the first is as long as can be. */
  ghost predicate Maximal(us: seq<Unit>) {
    forall i :: 0 <= i < |us| - 1 ==> us[i].b == us[i + 1].b ==> us[i].n == 255
  }

  lemma UnitsOfCode(b: byte, n: nat, rest: seq<byte>)
    requires b < SETUP_COMPRESSED && 1 <= n <= MAX_RUN
    ensures Units(Code(b, n) + rest) == [Unit(b, n)] + Units(rest)
  {
    assert (Code(b, n) + rest)[|Code(b, n)|..] == rest;
  }

  lemma {:induction false} RunEnds(s: seq<byte>, i: nat, k: nat)
    requires 0 < k <= MAX_RUN && i + k <= |s|
    ensures var n := RunFrom(s, i, k); n == 255 || i + n == |s| || s[i + n] != s[i]
    decreases |s| - i - k
  {
    if i + k < |s| && s[i + k] == s[i] && k < MAX_RUN {
      RunEnds(s, i, k + 1);
    }
  }

  lemma {:induction false} RunsAreMaximal(s: seq<byte>, i: nat)
    requires i <= |s| && Plain(s)
    ensures var us := Units(Rle(s, i));
            Maximal(us) && (i == |s| <==> us == []) && (i < |s| ==> us[0].b == s[i])
    decreases |s| - i
  {
    hide Code, Plain, RunFrom;
    if i < |s| {
      var n := RunFrom(s, i, 1);
      RunsAreMaximal(s, i + n);
      RunEnds(s, i, 1);
      PlainAt(s, i);
      UnitsOfCode(s[i], n, Rle(s, i + n));
    }
  }

  lemma PlainAt(s: seq<byte>, i: nat)
    requires Plain(s) && i < |s|
    ensures s[i] < SETUP_COMPRESSED
  {
  }

  // ---- the reader's side

  function Repeat(b: byte, n: nat): (bytes: seq<byte>)
    ensures |bytes| == n && forall k :: 0 <= k < n ==> bytes[k] == b
  {
    if n == 0 then [] else [b] + Repeat(b, n - 1)
  }

  /** A marked byte is repeated as often as the next byte says. */
  function Unpack(t: seq<byte>): seq<byte> {
    if t == [] then []
    else if t[0] < SETUP_COMPRESSED then [t[0]] + Unpack(t[1..])
    else if |t| == 1 then []
    else Repeat(t[0] - SETUP_COMPRESSED, t[1] as nat) + Unpack(t[2..])
  }

  lemma {:induction false} RunIsConstant(s: seq<byte>, i: nat, k: nat)
    requires 0 < k <= MAX_RUN && i + k <= |s|
    requires forall p :: i <= p < i + k ==> s[p] == s[i]
    ensures s[i..i + RunFrom(s, i, k)] == Repeat(s[i], RunFrom(s, i, k))
    decreases |s| - i - k
  {
    if i + k < |s| && s[i + k] == s[i] && k < MAX_RUN {
      RunIsConstant(s, i, k + 1);
    } else {
      var run := s[i..i + k];
      assert forall a :: 0 <= a < |run| ==> run[a] == s[i];
    }
  }

  ghost predicate Plain(s: seq<byte>) {
    forall k :: 0 <= k < |s| ==> s[k] < SETUP_COMPRESSED
  }

  lemma UnpackCode(b: byte, n: nat, rest: seq<byte>)
    requires b < SETUP_COMPRESSED && 1 <= n <= MAX_RUN
    ensures Unpack(Code(b, n) + rest) == Repeat(b, n) + Unpack(rest)
  {
    var t := Code(b, n) + rest;
    assert t[|Code(b, n)|..] == rest;
    if n == 1 {
      assert Repeat(b, 1) == [b];
    }
  }

  /** The reader gets the bytes back. */
  lemma {:induction false} UnpackUndoes(s: seq<byte>, i: nat)
    requires i <= |s| && Plain(s)
    ensures Unpack(Rle(s, i)) == s[i..]
    decreases |s| - i
  {
    hide Unpack, Code, Repeat, RunFrom;
    if i < |s| {
      var n := RunFrom(s, i, 1);
      RunIsConstant(s, i, 1);
      UnpackUndoes(s, i + n);
      UnpackCode(s[i], n, Rle(s, i + n));
      assert s[i..] == s[i..i + n] + s[i + n..];
    } else {
      assert Unpack([]) == [] by {
        UnpackNothing();
      }
    }
  }

  lemma UnpackNothing()
    ensures Unpack([]) == []
  {
  }

  /** Every marked byte is followed by a repeat count of at least two. */
  ghost predicate CountsMakeSense(t: seq<byte>) {
    || t == []
    || (t[0] < SETUP_COMPRESSED && CountsMakeSense(t[1..]))
    || (t[0] >= SETUP_COMPRESSED && |t| > 1 && 2 <= t[1] && CountsMakeSense(t[2..]))
  }

  lemma CountsCode(b: byte, n: nat, rest: seq<byte>)
    requires b < SETUP_COMPRESSED && 1 <= n <= MAX_RUN && CountsMakeSense(rest)
    ensures CountsMakeSense(Code(b, n) + rest)
  {
    assert (Code(b, n) + rest)[|Code(b, n)|..] == rest;
  }

  /** It never grows the data, and its counts lie between 2 and 255. */
  lemma {:induction false} NeverGrows(s: seq<byte>, i: nat)
    requires i <= |s|
    ensures |Rle(s, i)| <= |s| - i
    ensures Plain(s) ==> CountsMakeSense(Rle(s, i))
    decreases |s| - i
  {
    if i < |s| {
      var n := RunFrom(s, i, 1);
      var rest := Rle(s, i + n);
      NeverGrows(s, i + n);
      if Plain(s) {
        CountsCode(s[i], n, rest);
      }
    }
  }

  function Code(b: byte, n: nat): seq<byte>
    requires n <= MAX_RUN
  {
    if n == 1 then [b] else [Mark(b), n as byte]
  }

  /** The number of bytes from i on that the coder takes together. */
  method CountRun(data: array<byte>, i: nat, size: nat) returns (k: nat)
    requires i < size <= data.Length
    ensures 0 < k && i + k <= size && k == RunFrom(data[..size], i, 1)
  {
    ghost var s := data[..size];
    k := 1;
    if i + 1 < size && data[i] == data[i + 1] {
      k := 2;
      while i + k < size
        invariant 2 <= k <= MAX_RUN && i + k <= size
        invariant RunFrom(s, i, 1) == RunFrom(s, i, k)
      {
        if data[i] != data[i + k] {
          break;
        }
        if k == MAX_RUN {
          break;
        }
        k := k + 1;
      }
    }
  }

  lemma RunReadsAhead(s: seq<byte>, t: seq<byte>, i: nat, k: nat)
    requires |s| == |t| && 0 < k <= MAX_RUN && i + k <= |s| && s[i..] == t[i..]
    ensures RunFrom(s, i, k) == RunFrom(t, i, k)
    decreases |s| - i - k
  {
    assert forall p :: i <= p < |s| ==> s[p] == s[i..][p - i] == t[i..][p - i] == t[p];
  }

  /** In place: what is written never reaches what is still to be read. */
  method CompressMap(data: array<byte>, size: nat) returns (j: nat)
    requires size <= data.Length
    modifies data
    ensures j <= size && data[..j] == Rle(old(data[..size]), 0)
    ensures data[size..] == old(data[size..])
  {
    hide RunFrom, Rle;
    ghost var s := data[..size];
    var i := 0;
    j := 0;
    Joined([], [], Rle(s, 0));
    while i < size
      invariant j <= i <= size
      invariant data[i..size] == s[i..]
      invariant data[size..] == old(data[size..])
      invariant Rle(s, 0) == data[..j] + Rle(s, i)
    {
      ghost var written, now := data[..j], data[..size];
      assert now[i..] == s[i..];
      var k := CountRun(data, i, size);
      RunReadsAhead(s, now, i, 1);
      assert data[i] == s[i..][0] == s[i];
      RleStep(s, i, k);
      Joined(written, Code(s[i], k), Rle(s, i + k));
      ghost var before := data[..];
      j := WriteCode(data, j, i, k);
      TailKept(before, data[..], i + k, size, s, i, k);
      i := i + k;
    }
    RleDone(s);
    assert data[..j] + [] == data[..j];
  }

  /** map[j] = ..., from the byte at i. */
  method WriteCode(data: array<byte>, j: nat, i: nat, k: nat) returns (next: nat)
    requires j <= i && 0 < k <= MAX_RUN && i + k <= data.Length
    modifies data
    ensures next <= i + k && data[..next] == old(data[..j]) + Code(old(data[i]), k)
    ensures data[i + k..] == old(data[i + k..])
  {
    var b := data[i];
    if k > 1 {
      data[j] := Mark(b);
      data[j + 1] := k as byte;
      next := j + 2;
    } else {
      data[j] := b;
      next := j + 1;
    }
  }

  lemma TailKept(before: seq<byte>, after: seq<byte>, n: nat, size: nat, s: seq<byte>, i: nat, k: nat)
    requires |before| == |after| >= size >= n == i + k && |s| == size
    requires before[n..] == after[n..] && before[i..size] == s[i..]
    ensures after[n..size] == s[n..] && after[size..] == before[size..]
  {
    assert forall p :: n <= p < |after| ==> after[p] == after[n..][p - n] == before[n..][p - n] == before[p];
    assert forall p :: n <= p < size ==> before[p] == before[i..size][p - i] == s[i..][p - i] == s[p];
  }

  lemma RleStep(s: seq<byte>, i: nat, k: nat)
    requires i < |s| && k == RunFrom(s, i, 1)
    ensures Rle(s, i) == Code(s[i], k) + Rle(s, i + k)
  {
  }

  lemma RleDone(s: seq<byte>)
    ensures Rle(s, |s|) == []
  {
  }

  lemma Joined(a: seq<byte>, b: seq<byte>, c: seq<byte>)
    ensures a + (b + c) == a + b + c && [] + c == c
  {
  }

  /** What the client unpacks is what the server packed. */
  method PackAndUnpack(data: array<byte>, size: nat) returns (j: nat)
    requires size <= data.Length && Plain(data[..size])
    modifies data
    ensures j <= size && Unpack(data[..j]) == old(data[..size])
    ensures CountsMakeSense(data[..j])
  {
    hide Rle;
    ghost var s := data[..size];
    j := CompressMap(data, size);
    UnpackUndoes(s, 0);
    NeverGrows(s, 0);
    assert s[0..] == s;
  }
}
