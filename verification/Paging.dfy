/** Page-table entries in memory and the four-level walk (memory.cpp).

    An entry takes 16 bytes: the 8-byte little-endian physical address, then the present
    flag. PAGE_TABLE_ENTRIES is 512, so a table spans 8192 bytes while a frame has 4096:
    entries from 256 on lie in the next frame. The root table is an object of its own. */
module Paging {
  import opened Types
  import Plru

  const PAGE_TABLE_ENTRIES: nat := 512
  const ENTRY_SIZE: nat := 16
  const TABLE_SIZE: nat := 8192
  const ENTRIES_IN_FRAME: nat := 256
  const WORD_LIMIT: nat := 0x1_0000_0000_0000_0000

  datatype Pte = Pte(pa: nat, present: bool)

  type Root = r: seq<Pte> | |r| == PAGE_TABLE_ENTRIES witness seq(PAGE_TABLE_ENTRIES, _ => Pte(0, false))

  // ---------------------------------------------------------------------------
  // Entries as bytes
  // ---------------------------------------------------------------------------

  function Word(bytes: seq<byte>): nat {
    if bytes == [] then 0 else bytes[0] + 256 * Word(bytes[1..])
  }

  function WordBytes(n: nat, k: nat): (r: seq<byte>)
    ensures |r| == k
    decreases k
  {
    if k == 0 then [] else [n % 256] + WordBytes(n / 256, k - 1)
  }

  function Pow256(k: nat): nat { if k == 0 then 1 else 256 * Pow256(k - 1) }

  lemma {:induction false} WordRoundTrip(n: nat, k: nat)
    requires n < Pow256(k)
    ensures Word(WordBytes(n, k)) == n
    decreases k
  {
    if k == 0 {
    } else {
      WordRoundTrip(n / 256, k - 1);
      assert WordBytes(n, k)[1..] == WordBytes(n / 256, k - 1);
    }
  }

  lemma EightBytes()
    ensures Pow256(8) == WORD_LIMIT
  {
    assert Pow256(2) == 65536;
    assert Pow256(4) == 4294967296;
    assert Pow256(6) == 281474976710656;
  }

  function ReadPte(mem: seq<byte>, a: nat): Pte
    requires a + ENTRY_SIZE <= |mem|
  {
    Pte(Word(mem[a..a + 8]), mem[a + 8] != 0)
  }

  /** The bytes after the present flag stay as they were. */
  function WritePte(mem: seq<byte>, a: nat, pte: Pte): (r: seq<byte>)
    requires a + ENTRY_SIZE <= |mem|
    ensures |r| == |mem|
  {
    mem[..a] + WordBytes(pte.pa, 8) + [if pte.present then 1 else 0] + mem[a + 9..]
  }

  lemma ReadWritten(mem: seq<byte>, a: nat, pte: Pte)
    requires a + ENTRY_SIZE <= |mem| && pte.pa < WORD_LIMIT
    ensures ReadPte(WritePte(mem, a, pte), a) == pte
  {
    hide Word, WordBytes, Pow256;
    EightBytes();
    WordRoundTrip(pte.pa, 8);
    assert WritePte(mem, a, pte)[a..a + 8] == WordBytes(pte.pa, 8);
  }

  lemma ReadOther(mem: seq<byte>, a: nat, pte: Pte, b: nat)
    requires a + ENTRY_SIZE <= |mem| && b + ENTRY_SIZE <= |mem| && (a + ENTRY_SIZE <= b || b + ENTRY_SIZE <= a)
    ensures ReadPte(WritePte(mem, a, pte), b) == ReadPte(mem, b)
  {
    hide Word, WordBytes;
    assert WritePte(mem, a, pte)[b..b + 8] == mem[b..b + 8];
  }

  /** std::memset of one frame. */
  function ZeroFrame(mem: seq<byte>, f: nat): (r: seq<byte>)
    requires f + PAGE_SIZE <= |mem|
    ensures |r| == |mem|
  {
    mem[..f] + seq(PAGE_SIZE, _ => 0) + mem[f + PAGE_SIZE..]
  }

  lemma ReadZeroed(mem: seq<byte>, f: nat, b: nat)
    requires f + PAGE_SIZE <= |mem| && b + ENTRY_SIZE <= |mem|
    ensures f <= b && b + ENTRY_SIZE <= f + PAGE_SIZE ==> !ReadPte(ZeroFrame(mem, f), b).present
    ensures b + ENTRY_SIZE <= f || f + PAGE_SIZE <= b ==> ReadPte(ZeroFrame(mem, f), b) == ReadPte(mem, b)
  {
    hide Word;
    if b + ENTRY_SIZE <= f || f + PAGE_SIZE <= b {
      assert ZeroFrame(mem, f)[b..b + 8] == mem[b..b + 8];
    }
  }

  // ---------------------------------------------------------------------------
  // Indices
  // ---------------------------------------------------------------------------

  /** The bits of a page number from level l's index up; only 36 bits take part. */
  function Pre(v: nat, l: nat): nat
    requires l <= 4
  {
    if l == 0 then v % 68719476736
    else if l == 1 then v % 68719476736 / 512
    else if l == 2 then v % 68719476736 / 262144
    else if l == 3 then v % 68719476736 / 134217728
    else 0
  }

  /** (virtual_address >> (12 + level * 9)) & 0x1FF, for page number v. */
  function Idx(v: nat, l: nat): (i: nat)
    requires l <= 3
    ensures i < PAGE_TABLE_ENTRIES
  {
    Pre(v, l) % 512
  }

  lemma PreStep(v: nat, l: nat)
    requires l <= 3
    ensures Pre(v, l) == Pre(v, l + 1) * 512 + Idx(v, l) && Pre(v, 4) == 0
  {
    var x := v % 68719476736;
    assert x / 262144 == x / 512 / 512;
    assert x / 134217728 == x / 262144 / 512;
  }

  /** Pages whose in-memory indices stay inside the table's own frame. */
  predicate Small(v: nat) {
    Idx(v, 2) < ENTRIES_IN_FRAME && Idx(v, 1) < ENTRIES_IN_FRAME && Idx(v, 0) < ENTRIES_IN_FRAME
  }

  /** Entry i of the table in frame t is in that frame exactly when i < 256; from 256 on
      it is entry i - 256 of whatever the next frame holds. */
  lemma EntryInFrame(t: nat, i: nat)
    requires i < PAGE_TABLE_ENTRIES && t % PAGE_SIZE == 0
    ensures (t + ENTRY_SIZE * i) / PAGE_SIZE == t / PAGE_SIZE <==> i < ENTRIES_IN_FRAME
    ensures i >= ENTRIES_IN_FRAME ==> t + ENTRY_SIZE * i == (t + PAGE_SIZE) + ENTRY_SIZE * (i - ENTRIES_IN_FRAME)
  {
  }

  // ---------------------------------------------------------------------------
  // The walk
  // ---------------------------------------------------------------------------

  /** page_walk's check on a table address. */
  predicate TableFits(mem: seq<byte>, t: nat) { t + TABLE_SIZE <= |mem| }

  /** Where level l's entry for page v is, in the table at t. */
  function Slot(t: nat, v: nat, l: nat): nat
    requires l <= 3
  {
    t + ENTRY_SIZE * Idx(v, l)
  }

  /** The walk below the root: the leaf's physical address, if every entry is present. */
  function WalkFrom(mem: seq<byte>, t: nat, l: nat, v: nat): Option<nat>
    requires l <= 2
    decreases l
  {
    if !TableFits(mem, t) then None else
    var entry := ReadPte(mem, Slot(t, v, l));
    if !entry.present then None
    else if l == 0 then Some(entry.pa)
    else WalkFrom(mem, entry.pa, l - 1, v)
  }

  function Walk(root: Root, mem: seq<byte>, v: nat): Option<nat> {
    var entry := root[Idx(v, 3)];
    if entry.present then WalkFrom(mem, entry.pa, 2, v) else None
  }

  /** Bitwise or. */
  function Or(a: nat, b: nat): nat
    decreases a + b
  {
    if a == 0 && b == 0 then 0 else (if a % 2 == 1 || b % 2 == 1 then 1 else 0) + 2 * Or(a / 2, b / 2)
  }

  /** pa | offset, where the low twelve bits of pa may be set. */
  function OrOffset(pa: nat, offset: nat): nat
    requires offset < 4096
  {
    pa / 4096 * 4096 + Or(pa % 4096, offset)
  }

  lemma {:induction false} OrBound(a: nat, b: nat, k: nat)
    requires a < Plru.Pow2(k) && b < Plru.Pow2(k)
    ensures a <= Or(a, b) < Plru.Pow2(k)
    ensures a == 0 ==> Or(a, b) == b
    ensures b == 0 ==> Or(a, b) == a
    decreases k
  {
    if k == 0 {
    } else {
      OrBound(a / 2, b / 2, k - 1);
    }
  }

  /** The offset never carries into the frame number. It is added, for every offset,
      exactly when the leaf address is page-aligned. */
  lemma OrOffsetIs(pa: nat, offset: nat)
    requires offset < 4096
    ensures OrOffset(pa, offset) / 4096 == pa / 4096
    ensures OrOffset(pa, 0) == pa
    ensures pa % 4096 == 0 ==> OrOffset(pa, offset) == pa + offset
    ensures (forall o: nat :: o < 4096 ==> OrOffset(pa, o) == pa / 4096 * 4096 + o) <==> pa % 4096 == 0
  {
    hide Or;
    assert Plru.Pow2(12) == 4096 by { assert Plru.Pow2(6) == 64; assert Plru.Pow2(9) == 512; }
    forall o: nat | o < 4096
      ensures OrOffset(pa, o) / 4096 == pa / 4096 && (pa % 4096 == 0 ==> OrOffset(pa, o) == pa + o)
    {
      OrBound(pa % 4096, o, 12);
    }
    OrBound(pa % 4096, 0, 12);
  }

  /** page_walk */
  function PageWalk(root: Root, mem: seq<byte>, va: nat): Option<nat> {
    match Walk(root, mem, va / 4096)
    case None => None
    case Some(pa) => Some(OrOffset(pa, va % 4096))
  }
}
