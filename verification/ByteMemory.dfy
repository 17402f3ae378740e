/** Byte-addressed memory with 64-bit little-endian words at any address. */
module ByteMemory {

  /** The mapped bytes. */
  type Memory = map<int, int>

  /** All eight bytes of the word at a are mapped. */
  predicate Has(mem: Memory, a: int) {
    forall b :: a <= b < a + 8 ==> b in mem.Keys
  }

  /** The bytes from a up to b as a number, the first one least significant. */
  function Value(mem: Memory, a: int, b: int): int
    decreases b - a
  {
    if a >= b then 0 else (if a in mem then mem[a] else 0) + 256 * Value(mem, a + 1, b)
  }

  function Word(mem: Memory, a: int): int { Value(mem, a, a + 8) }

  function PutBytes(mem: Memory, a: int, b: int, x: int): Memory
    decreases b - a
  {
    if a >= b then mem else PutBytes(mem, a + 1, b, x / 256)[a := x % 256]
  }

  function Put(mem: Memory, a: int, x: int): Memory { PutBytes(mem, a, a + 8, x) }

  /** The words at a and w share a byte. */
  predicate Overlap(a: int, w: int) { w < a + 8 && a < w + 8 }

  lemma {:induction false} PutBytesAt(mem: Memory, a: int, b: int, x: int, y: int)
    ensures y in PutBytes(mem, a, b, x) <==> y in mem || a <= y < b
    ensures !(a <= y < b) && y in mem ==> PutBytes(mem, a, b, x)[y] == mem[y]
    decreases b - a
  {
    if a < b { PutBytesAt(mem, a + 1, b, x / 256, y); }
  }

  lemma {:induction false} ValueSame(mem: Memory, mem': Memory, a: int, b: int)
    requires forall y :: a <= y < b ==> (y in mem <==> y in mem') && (y in mem ==> mem'[y] == mem[y])
    ensures Value(mem', a, b) == Value(mem, a, b)
    decreases b - a
  {
    if a < b { ValueSame(mem, mem', a + 1, b); }
  }

  /** A write to mapped bytes maps no new ones. */
  lemma PutKeys(mem: Memory, a: int, x: int)
    requires Has(mem, a)
    ensures Put(mem, a, x).Keys == mem.Keys
  {
    forall y ensures y in Put(mem, a, x).Keys <==> y in mem.Keys { PutBytesAt(mem, a, a + 8, x, y); }
  }

  /** A write leaves the words alone that it does not overlap. */
  lemma WordApart(mem: Memory, a: int, x: int, w: int)
    requires !Overlap(a, w)
    ensures Word(Put(mem, a, x), w) == Word(mem, w)
  {
    forall y | w <= y < w + 8
      ensures y in mem <==> y in Put(mem, a, x)
      ensures y in mem ==> Put(mem, a, x)[y] == mem[y]
    {
      PutBytesAt(mem, a, a + 8, x, y);
    }
    ValueSame(mem, Put(mem, a, x), w, w + 8);
  }

  function Pow256(n: nat): nat { if n == 0 then 1 else 256 * Pow256(n - 1) }

  lemma {:induction false} ValuePut(mem: Memory, a: int, b: int, x: int)
    requires a <= b && 0 <= x < Pow256(b - a)
    ensures Value(PutBytes(mem, a, b, x), a, b) == x
    decreases b - a
  {
    if a < b {
      var rest := PutBytes(mem, a + 1, b, x / 256);
      assert Pow256(b - a) == 256 * Pow256(b - (a + 1));
      ValuePut(mem, a + 1, b, x / 256);
      ValueSame(rest, rest[a := x % 256], a + 1, b);
    }
  }

  /** A 64-bit value that was written is read back. */
  lemma WordPut(mem: Memory, a: int, x: int)
    requires 0 <= x < 0x1_0000_0000_0000_0000
    ensures Word(Put(mem, a, x), a) == x
  {
    assert Pow256(4) == 0x1_0000_0000;
    assert Pow256(8) == 0x1_0000_0000_0000_0000;
    ValuePut(mem, a, a + 8, x);
  }
}
