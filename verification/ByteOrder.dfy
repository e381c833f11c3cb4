/**
  Byte order of the register file: values are kept high byte first in a memory whose machine
  is low byte first, by exchanging bytes in place.
 */
module ByteOrder {
  import opened CMath

  type Bytes = seq<bv8>

  lemma {:induction false} XorExchanges(a: bv8, b: bv8)
    ensures var x := XorByte(a, b);
            XorByte(b, x) == a && XorByte(x, a) == b
  {
  }

  /** Exchanges two different bytes by three exclusive ors. */
  method Exchange(mem: array<bv8>, i: nat, j: nat)
    requires i < mem.Length && j < mem.Length && i != j
    modifies mem
    ensures mem[..] == old(mem[..])[i := old(mem[j])][j := old(mem[i])]
  {
    hide XorByte;
    XorExchanges(mem[i], mem[j]);
    mem[i] := XorByte(mem[i], mem[j]);
    mem[j] := XorByte(mem[j], mem[i]);
    mem[i] := XorByte(mem[i], mem[j]);
  }

  /** Groups of two bytes, or of four. */
  type Width = w: nat | w == 2 || w == 4 witness 2

  /** The bytes with one group reversed. */
  function Turned(s: Bytes, w: Width, at: nat): (r: Bytes)
    requires at + w <= |s|
    ensures |r| == |s|
  {
    if w == 2 then s[at := s[at + 1]][at + 1 := s[at]]
    else s[at := s[at + 3]][at + 1 := s[at + 2]][at + 2 := s[at + 1]][at + 3 := s[at]]
  }

  /** So many bytes are whole groups. */
  predicate Whole(n: int, w: Width) {
    if w == 2 then n % 2 == 0 else n % 4 == 0
  }

  /** Every group of the first n bytes reversed. */
  function Reversed(s: Bytes, w: Width, n: nat): (r: Bytes)
    requires n <= |s| && Whole(n, w)
    ensures |r| == |s|
  {
    if n == 0 then s else Turned(Reversed(s, w, n - w), w, n - w)
  }

  lemma {:induction false} TurnedAt(s: Bytes, w: Width, at: nat, k: nat)
    requires at + w <= |s| && k < |s|
    ensures Turned(s, w, at)[k] == if at <= k < at + w then s[at + at + w - 1 - k] else s[k]
  {
  }

  /** Different groups do not overlap. */
  lemma {:induction false} GroupsApart(at: nat, other: nat, w: Width)
    requires Whole(at, w) && Whole(other, w)
    ensures at < other ==> at + w <= other
  {
    if w == 2 {
    } else {
    }
  }

  lemma {:induction false} GroupBefore(n: nat, w: Width)
    requires Whole(n, w) && n > 0
    ensures n >= w && Whole(n - w, w)
  {
    if w == 2 {
      assert n >= 2 && (n - 2) % 2 == 0;
    } else {
      assert n >= 4 && (n - 4) % 4 == 0;
    }
  }

  /** The place of byte k in its group. */
  function Offset(k: nat, w: Width): (j: nat)
    ensures j < w && j <= k
  {
    if w == 2 then k % 2 else k % 4
  }

  lemma {:induction false} GroupOf(k: nat, w: Width, n: nat)
    requires k < n && Whole(n, w)
    ensures Whole(k - Offset(k, w), w) && k - Offset(k, w) + w <= n
  {
    if w == 2 {
      InPair(k, n);
    } else {
      InFour(k, n);
    }
  }

  lemma {:induction false} InPair(k: nat, n: nat)
    requires k < n && n % 2 == 0
    ensures (k - k % 2) % 2 == 0 && k - k % 2 + 2 <= n
  {
  }

  lemma {:induction false} InFour(k: nat, n: nat)
    requires k < n && n % 4 == 0
    ensures (k - k % 4) % 4 == 0 && k - k % 4 + 4 <= n
  {
  }

  lemma {:induction false} NoneTurned(s: Bytes, w: Width)
    ensures Reversed(s, w, 0) == s
  {
  }

  lemma {:induction false} LastTurned(s: Bytes, w: Width, n: nat)
    requires n <= |s| && Whole(n, w) && n > 0
    ensures n >= w && Whole(n - w, w) && Reversed(s, w, n) == Turned(Reversed(s, w, n - w), w, n - w)
  {
    hide Turned;
    GroupBefore(n, w);
  }

  lemma {:induction false} ReversedAt(s: Bytes, w: Width, n: nat, at: nat, j: nat)
    requires n <= |s| && Whole(n, w) && Whole(at, w) && j < w && at + w <= |s|
    ensures Reversed(s, w, n)[at + j] == if at < n then s[at + w - 1 - j] else s[at + j]
  {
    hide Turned, Whole, Reversed;
    if n == 0 {
      NoneTurned(s, w);
    } else {
      LastTurned(s, w, n);
      TurnedAt(Reversed(s, w, n - w), w, n - w, at + j);
      if at == n - w {
        ReversedAt(s, w, n - w, at, w - 1 - j);
      } else {
        GroupsApart(at, n - w, w);
        GroupsApart(n - w, at, w);
        ReversedAt(s, w, n - w, at, j);
      }
    }
  }

  lemma {:induction false} ReversedRest(s: Bytes, w: Width, n: nat, k: nat)
    requires n <= k < |s| && Whole(n, w)
    ensures Reversed(s, w, n)[k] == s[k]
  {
    if n > 0 {
      hide Turned, Whole;
      GroupBefore(n, w);
      ReversedRest(s, w, n - w, k);
      TurnedAt(Reversed(s, w, n - w), w, n - w, k);
    }
  }

  lemma {:induction false} TwiceAt(s: Bytes, w: Width, n: nat, at: nat, j: nat)
    requires n <= |s| && Whole(n, w) && Whole(at, w) && j < w && at + w <= n
    ensures Reversed(Reversed(s, w, n), w, n)[at + j] == s[at + j]
  {
    hide Reversed;
    ReversedAt(Reversed(s, w, n), w, n, at, j);
    ReversedAt(s, w, n, at, w - 1 - j);
  }

  /** To exchange twice is to do nothing. */
  lemma {:induction false} ReversedTwice(s: Bytes, w: Width, n: nat)
    requires n <= |s| && Whole(n, w)
    ensures Reversed(Reversed(s, w, n), w, n) == s
  {
    hide Reversed;
    var once := Reversed(s, w, n);
    var twice := Reversed(once, w, n);
    forall k | 0 <= k < |s| ensures twice[k] == s[k] {
      if k < n {
        GroupOf(k, w, n);
        var j := Offset(k, w);
        TwiceAt(s, w, n, k - j, j);
      } else {
        ReversedRest(once, w, n, k);
        ReversedRest(s, w, n, k);
      }
    }
  }

  /** ba: exchanges the two bytes of every pair; false stands for NULL. */
  method Ba(buf: array<bv8>, len: int) returns (ok: bool)
    requires len <= buf.Length
    modifies buf
    ensures ok <==> len > 0 && len % 2 == 0
    ensures buf[..] == if ok then Reversed(old(buf[..]), 2, len) else old(buf[..])
  {
    if len % 2 != 0 || len <= 0 {
      return false;
    }
    var left, count := len / 2, 0;
    while left > 0
      invariant 0 <= left && count == len - 2 * left
      invariant buf[..] == Reversed(old(buf[..]), 2, count)
    {
      Exchange(buf, count, count + 1);
      count, left := count + 2, left - 1;
    }
    ok := true;
  }

  /** dcba: reverses the four bytes of every group. */
  method Dcba(buf: array<bv8>, len: int) returns (ok: bool)
    requires len <= buf.Length
    modifies buf
    ensures ok <==> len > 0 && len % 4 == 0
    ensures buf[..] == if ok then Reversed(old(buf[..]), 4, len) else old(buf[..])
  {
    if len % 4 != 0 || len <= 0 {
      return false;
    }
    var left, count := len / 4, 0;
    while left > 0
      invariant 0 <= left && count == len - 4 * left
      invariant buf[..] == Reversed(old(buf[..]), 4, count)
    {
      ghost var was := buf[..];
      Exchange(buf, count, count + 3);
      Exchange(buf, count + 1, count + 2);
      assert buf[..] == Turned(was, 4, count);
      count, left := count + 4, left - 1;
    }
    ok := true;
  }

  // ------------------------------------------------------------- the registers

  /** The machine's own order: low byte first. */
  function Bytes16(x: bv16): (b: Bytes)
    ensures |b| == 2
  {
    [(x & 0xFF) as bv8, (x >> 8) as bv8]
  }

  function Bytes32(x: bv32): (b: Bytes)
    ensures |b| == 4
  {
    [(x & 0xFF) as bv8, ((x >> 8) & 0xFF) as bv8, ((x >> 16) & 0xFF) as bv8, (x >> 24) as bv8]
  }

  function Word16(b0: bv8, b1: bv8): bv16 {
    (b0 as bv16) | ((b1 as bv16) << 8)
  }

  function Word32(b0: bv8, b1: bv8, b2: bv8, b3: bv8): bv32 {
    (b0 as bv32) | ((b1 as bv32) << 8) | ((b2 as bv32) << 16) | ((b3 as bv32) << 24)
  }

  lemma {:induction false} Word16ReadsBack(x: bv16)
    ensures Word16(Bytes16(x)[0], Bytes16(x)[1]) == x
  {
  }

  lemma {:induction false} Word32ReadsBack(x: bv32)
    ensures var b := Bytes32(x); Word32(b[0], b[1], b[2], b[3]) == x
  {
  }

  function Joined(upper: bv16, lower: bv16): bv32 {
    ((upper as bv32) << 16) | (lower as bv32)
  }

  /** A 32-bit value lies over two registers, the upper half in the first. */
  lemma {:induction false} HalvesOfWord(b0: bv8, b1: bv8, b2: bv8, b3: bv8)
    ensures Word32(b0, b1, b2, b3) == Joined(Word16(b2, b3), Word16(b0, b1))
  {
  }

  /** Register i of a memory, high byte first. */
  function Register(mem: Bytes, i: nat): bv16
    requires 2 * i + 2 <= |mem|
  {
    Word16(mem[2 * i + 1], mem[2 * i])
  }

  /** The 32-bit value in the registers i and i + 1. */
  function Long(mem: Bytes, i: nat): bv32
    requires 2 * i + 4 <= |mem|
  {
    Word32(mem[2 * i + 3], mem[2 * i + 2], mem[2 * i + 1], mem[2 * i])
  }

  /** So both views of the same registers agree. */
  lemma {:induction false} LongIsTwoRegisters(mem: Bytes, i: nat)
    requires 2 * i + 4 <= |mem|
    ensures Long(mem, i) == Joined(Register(mem, i), Register(mem, i + 1))
  {
    hide Word16, Word32, Joined;
    HalvesOfWord(mem[2 * i + 3], mem[2 * i + 2], mem[2 * i + 1], mem[2 * i]);
  }

  lemma {:induction false} WordAdds(low: bv8, high: bv8)
    ensures Word16(low, high) == 256 * (high as bv16) + low as bv16
  {
  }

  lemma {:induction false} JoinedAdds(upper: bv16, lower: bv16)
    ensures Joined(upper, lower) == 0x1_0000 * (upper as bv32) + lower as bv32
  {
  }

  /** High byte first: what the registers are worth, as numbers of 16 and of 32 bits. */
  lemma {:induction false} HighByteFirst(mem: Bytes, i: nat)
    requires 2 * i + 2 <= |mem|
    ensures Register(mem, i) == 256 * (mem[2 * i] as bv16) + mem[2 * i + 1] as bv16
    ensures 2 * i + 4 <= |mem| ==>
              Long(mem, i) == 0x1_0000 * (Register(mem, i) as bv32) + Register(mem, i + 1) as bv32
  {
    hide Word16, Joined, Long;
    WordAdds(mem[2 * i + 1], mem[2 * i]);
    if 2 * i + 4 <= |mem| {
      LongIsTwoRegisters(mem, i);
      JoinedAdds(Register(mem, i), Register(mem, i + 1));
    }
  }

  class RegisterFile {
    /** The bytes of shm_out. */
    const mem: array<bv8>

    constructor (n: nat)
      ensures mem.Length == 2 * n && fresh(mem)
    {
      mem := new bv8[2 * n];
    }

    method GetUval(index: nat) returns (x: bv16)
      requires 2 * index + 2 <= mem.Length
      ensures x == Register(mem[..], index)
    {
      hide Word16;
      var buf := new bv8[2];
      buf[0], buf[1] := mem[2 * index], mem[2 * index + 1];
      ghost var was := buf[..];
      var ok := Ba(buf, 2);
      ReversedAt(was, 2, 2, 0, 0);
      ReversedAt(was, 2, 2, 0, 1);
      x := Word16(buf[0], buf[1]);
    }

    method SetUval(index: nat, x: bv16)
      requires 2 * index + 2 <= mem.Length
      modifies mem
      ensures Register(mem[..], index) == x
      ensures forall k :: 0 <= k < mem.Length && k != 2 * index && k != 2 * index + 1 ==> mem[k] == old(mem[k])
    {
      hide Word16, Bytes16;
      Word16ReadsBack(x);
      var b := Bytes16(x);
      var buf := new bv8[2];
      buf[0], buf[1] := b[0], b[1];
      ghost var was := buf[..];
      var ok := Ba(buf, 2);
      ReversedAt(was, 2, 2, 0, 0);
      ReversedAt(was, 2, 2, 0, 1);
      mem[2 * index], mem[2 * index + 1] := buf[0], buf[1];
    }

    method GetInt(index: nat) returns (x: bv32)
      requires 2 * index + 4 <= mem.Length
      ensures x == Long(mem[..], index)
    {
      hide Word32;
      var at := 2 * index;
      var buf := new bv8[4];
      buf[0], buf[1], buf[2], buf[3] := mem[at], mem[at + 1], mem[at + 2], mem[at + 3];
      ghost var was := buf[..];
      var ok := Dcba(buf, 4);
      FourReversed(was);
      x := Word32(buf[0], buf[1], buf[2], buf[3]);
    }

    method SetInt(index: nat, x: bv32)
      requires 2 * index + 4 <= mem.Length
      modifies mem
      ensures Long(mem[..], index) == x
      ensures forall k :: 0 <= k < mem.Length && !(2 * index <= k < 2 * index + 4) ==> mem[k] == old(mem[k])
    {
      hide Word32, Bytes32;
      Word32ReadsBack(x);
      var b := Bytes32(x);
      var buf := new bv8[4];
      buf[0], buf[1], buf[2], buf[3] := b[0], b[1], b[2], b[3];
      ghost var was := buf[..];
      var ok := Dcba(buf, 4);
      FourReversed(was);
      var at := 2 * index;
      mem[at], mem[at + 1], mem[at + 2], mem[at + 3] := buf[0], buf[1], buf[2], buf[3];
    }
  }

  lemma {:induction false} FourReversed(s: Bytes)
    requires |s| == 4
    ensures Reversed(s, 4, 4) == [s[3], s[2], s[1], s[0]]
  {
    ReversedAt(s, 4, 4, 0, 0);
    ReversedAt(s, 4, 4, 0, 1);
    ReversedAt(s, 4, 4, 0, 2);
    ReversedAt(s, 4, 4, 0, 3);
  }
}
