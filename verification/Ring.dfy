/** The bounded output history of runner/internal/ptysession/ring.go, and why its
    snapshots never begin inside a UTF-8 character. */
module Ring {
  import opened Base

  // ---- The refinement -----------------------------------------------------

  /** The last `max` bytes of a stream, or all of it when it is shorter. */
  function Last(max: nat, s: octets): octets {
    if |s| <= max then s else s[|s| - max..]
  }

  predicate IsContinuation(b: octet) { b & 0xC0 == 0x80 }

  /** How many leading continuation bytes a buffer has. */
  function Leading(s: octets): (n: nat)
    ensures n <= |s|
    ensures forall i | 0 <= i < n :: IsContinuation(s[i])
    ensures n < |s| ==> !IsContinuation(s[n])
  {
    if s == [] || !IsContinuation(s[0]) then 0 else 1 + Leading(s[1..])
  }

  lemma {:induction false} LeadingUnique(s: octets, k: nat)
    requires k <= |s| && forall i | 0 <= i < k :: IsContinuation(s[i])
    requires k < |s| ==> !IsContinuation(s[k])
    ensures Leading(s) == k
  {
  }

  lemma LastOfAppend(max: nat, stream: octets, p: octets)
    ensures Last(max, Last(max, stream) + p) == Last(max, stream + p)
  {
    if |stream| > max {
      var cut := |stream| - max;
      assert stream + p == stream[..cut] + (stream[cut..] + p);
      DropPrefix(stream[..cut], stream[cut..] + p, |p|);
    }
  }

  lemma DropPrefix(a: octets, b: octets, k: nat)
    requires k <= |b|
    ensures (a + b)[|a| + k..] == b[k..]
  {
  }

  class Ring {
    var buf: octets
    var max: nat
    ghost var stream: octets  // everything ever written

    ghost predicate Valid()
      reads this
    {
      max >= 1 && buf == Last(max, stream)
    }

    constructor (capacity: int)
      ensures Valid() && stream == []
      ensures max == if capacity < 1 then 1 else capacity
    {
      max := if capacity < 1 then 1 else capacity;
      buf, stream := [], [];
    }

    method Write(p: octets) returns (n: nat)
      requires Valid()
      modifies this`buf, this`stream
      ensures Valid() && stream == old(stream) + p && n == |p|
    {
      LastOfAppend(max, stream, p);
      stream := stream + p;
      buf := buf + p;
      var over := |buf| - max;
      if over > 0 {
        buf := buf[over..];
      }
      n := |p|;
    }

    /** The longest suffix of the retained bytes that does not begin with a continuation byte. */
    method Snapshot() returns (out: octets)
      requires Valid()
      ensures out == buf[Leading(buf)..]
      ensures out == [] || !IsContinuation(out[0])
      ensures forall k | 0 <= k < |buf| - |out| :: IsContinuation(buf[k])
    {
      var start := 0;
      while start < |buf| && buf[start] & 0xC0 == 0x80
        invariant start <= |buf|
        invariant forall k | 0 <= k < start :: IsContinuation(buf[k])
      {
        start := start + 1;
      }
      out := buf[start..];
      LeadingUnique(buf, start);
    }
  }

  /** What any number of writes leaves behind depends only on the bytes, not on how they were cut. */
  function WriteAll(max: nat, chunks: seq<octets>): octets {
    if chunks == [] then [] else Last(max, WriteAll(max, chunks[..|chunks| - 1]) + chunks[|chunks| - 1])
  }

  function Flatten(chunks: seq<octets>): octets {
    if chunks == [] then [] else Flatten(chunks[..|chunks| - 1]) + chunks[|chunks| - 1]
  }

  lemma {:induction false} KeepsExactlyTheTail(max: nat, chunks: seq<octets>)
    ensures WriteAll(max, chunks) == Last(max, Flatten(chunks))
  {
    if chunks != [] {
      KeepsExactlyTheTail(max, chunks[..|chunks| - 1]);
      LastOfAppend(max, Flatten(chunks[..|chunks| - 1]), chunks[|chunks| - 1]);
    }
  }

  // ---- UTF-8 (section 4 of RFC 3629) ----------------------------------------

  predicate Tail(b: octet) { 0x80 <= b <= 0xBF }

  /** The length of the well-formed character at the head, or 0 if there is none. */
  function CharLength(s: octets): (n: nat)
    ensures n <= |s| && n <= 4
  {
    if s == [] then 0
    else if s[0] <= 0x7F then 1
    else if |s| >= 2 && 0xC2 <= s[0] <= 0xDF && Tail(s[1]) then 2
    else if |s| >= 3 && ThreeByteHead(s[0], s[1]) && Tail(s[2]) then 3
    else if |s| >= 4 && FourByteHead(s[0], s[1]) && Tail(s[2]) && Tail(s[3]) then 4
    else 0
  }

  predicate ThreeByteHead(a: octet, b: octet) {
    || (a == 0xE0 && 0xA0 <= b <= 0xBF)
    || (0xE1 <= a <= 0xEC && Tail(b))
    || (a == 0xED && 0x80 <= b <= 0x9F)
    || (0xEE <= a <= 0xEF && Tail(b))
  }

  predicate FourByteHead(a: octet, b: octet) {
    || (a == 0xF0 && 0x90 <= b <= 0xBF)
    || (0xF1 <= a <= 0xF3 && Tail(b))
    || (a == 0xF4 && 0x80 <= b <= 0x8F)
  }

  predicate ValidUtf8(s: octets) {
    s == [] || (CharLength(s) > 0 && ValidUtf8(s[CharLength(s)..]))
  }

  /** The mask test of the code is the tail-byte range of the standard. */
  lemma MaskIsTail(b: octet)
    ensures IsContinuation(b) <==> Tail(b)
  {
  }

  /** A character is one non-continuation byte, then only continuation bytes. */
  lemma CharShape(s: octets)
    requires CharLength(s) > 0
    ensures !IsContinuation(s[0])
    ensures forall k | 1 <= k < CharLength(s) :: IsContinuation(s[k])
  {
  }

  /** At most three leading continuation bytes, and valid text after them. */
  ghost predicate Aligns(rest: octets) {
    Leading(rest) <= 3 && ValidUtf8(rest[Leading(rest)..])
  }

  /** Cutting valid text anywhere orphans at most three bytes, and what follows them is valid. */
  lemma {:induction false} AnySuffixAligns(s: octets, cut: nat)
    requires ValidUtf8(s) && cut <= |s|
    ensures Aligns(s[cut..])
    decreases |s|
  {
    if cut == |s| {
      assert s[cut..] == [];
    } else if cut >= CharLength(s) {
      var n := CharLength(s);
      AnySuffixAligns(s[n..], cut - n);
      assert s[n..][cut - n..] == s[cut..];
    } else {
      InsideChar(s, cut);
    }
  }

  lemma InsideChar(s: octets, cut: nat)
    requires ValidUtf8(s) && cut < CharLength(s)
    ensures Aligns(s[cut..])
  {
    var n := CharLength(s);
    CharShape(s);
    if cut == 0 {
      assert s[0..] == s && Leading(s) == 0;
    } else {
      var rest := s[cut..];
      assert rest[n - cut..] == s[n..];
      forall i | 0 <= i < n - cut ensures IsContinuation(rest[i]) { assert rest[i] == s[cut + i]; }
      LeadingIs(rest, n - cut, s[n..]);
    }
  }

  /** Inside a character: its remaining bytes are skipped and nothing more. */
  lemma LeadingIs(rest: octets, k: nat, after: octets)
    requires k <= |rest| && rest[k..] == after && ValidUtf8(after)
    requires forall i | 0 <= i < k :: IsContinuation(rest[i])
    ensures Leading(rest) == k
  {
  }

  /** At most three leading continuation bytes, and what follows them becomes valid with the
      output still to come. */
  ghost predicate AlignsSoFar(head: octets, rest: octets) {
    && Leading(head) <= 3
    && (Leading(head) == |head| || ValidUtf8(head[Leading(head)..] + rest))
  }

  lemma TruncatedAligns(head: octets, rest: octets)
    requires Aligns(head + rest)
    ensures AlignsSoFar(head, rest)
  {
    var whole, k := head + rest, Leading(head + rest);
    forall i | 0 <= i < |head| ensures whole[i] == head[i] {}
    if k < |head| {
      LeadingUnique(head, k);
      assert head[k..] + rest == whole[k..];
    } else {
      LeadingUnique(head, |head|);
    }
  }

  lemma NothingToCome(head: octets)
    requires AlignsSoFar(head, [])
    ensures ValidUtf8(head[Leading(head)..])
  {
    assert head[Leading(head)..] + [] == head[Leading(head)..];
  }

  /** If the command prints valid UTF-8, then at every moment, also between two reads in the
      middle of a character, a snapshot drops at most three of the retained bytes, and what it
      returns becomes valid with the output still to come. However the output was cut. */
  lemma {:induction false} SnapshotIsText(max: nat, chunks: seq<octets>, rest: octets)
    requires ValidUtf8(Flatten(chunks) + rest)
    ensures var buf := WriteAll(max, chunks);
            var snapshot := buf[Leading(buf)..];
            && Leading(buf) <= 3
            && (snapshot == [] || ValidUtf8(snapshot + rest))
            && (rest == [] ==> ValidUtf8(snapshot))
  {
    KeepsExactlyTheTail(max, chunks);
    var s := Flatten(chunks);
    var cut := if |s| <= max then 0 else |s| - max;
    assert s[cut..] == Last(max, s);
    TailIsText(s, rest, cut);
    if rest == [] { NothingToCome(s[cut..]); }
  }

  lemma TailIsText(s: octets, rest: octets, cut: nat)
    requires ValidUtf8(s + rest) && cut <= |s|
    ensures AlignsSoFar(s[cut..], rest)
  {
    AnySuffixAligns(s + rest, cut);
    assert (s + rest)[cut..] == s[cut..] + rest;
    TruncatedAligns(s[cut..], rest);
  }
}
