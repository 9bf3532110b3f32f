/** The packet format byte by byte, and exactly which packets and page sets are refused. */
module VisualFaults {
  import opened Options
  import opened Bits
  import opened VisualPacket
  import opened VisualOracle
  import opened VisualTheorems

  // ---- the format, byte by byte -------------------------------------------------------- //

  /** The number of `width` bytes from `at` on, least significant first. */
  function NumberAt(p: Packet, at: nat, width: nat): nat
    requires at + width <= PACKET_BYTES
    decreases width
  {
    if width == 0 then 0
    else
      var first: nat := p[at];
      first + 256 * NumberAt(p, at + 1, width - 1)
  }

  lemma ReadsNumbers(p: Packet, at: nat)
    requires at + 4 <= PACKET_BYTES
    ensures Read16(p, at) == NumberAt(p, at, 2) && Read32(p, at) == NumberAt(p, at, 4)
  {
    var b0: nat, b1: nat, b2: nat, b3: nat := p[at], p[at + 1], p[at + 2], p[at + 3];
    assert NumberAt(p, at + 4, 0) == 0 && NumberAt(p, at + 2, 0) == 0;
    assert NumberAt(p, at + 3, 1) == b3 && NumberAt(p, at + 1, 1) == b1;
    assert NumberAt(p, at + 2, 2) == b2 + 256 * b3;
    assert NumberAt(p, at + 1, 3) == b1 + 256 * NumberAt(p, at + 2, 2);
  }

  /** A packet starts with the eight bytes of `PKVMVX3` and a zero. */
  predicate Tagged(p: Packet) {
    p[0] == 80 && p[1] == 75 && p[2] == 86 && p[3] == 77 && p[4] == 86 && p[5] == 88 && p[6] == 51 && p[7] == 0
  }

  /** Where the observer writes what: identity at 8, page index and count at 12 and 14, the
      snapshot's length at 16, the payload's at 20, the checksum at 24, the flag of three copies
      at 28, and the copies from 40 on. */
  lemma LayoutFormat(id: nat, index: nat, count: nat, size: nat, checksum: nat, chunk: seq<Byte>)
    requires id < 0x1_0000_0000 && size < 0x1_0000_0000 && checksum < 0x1_0000_0000
    requires index < 0x1_0000 && count < 0x1_0000 && |chunk| <= PAYLOAD_BYTES
    ensures var p := Layout(id, index, count, size, checksum, chunk);
            && Tagged(p) && NumberAt(p, 8, 4) == id && NumberAt(p, 12, 2) == index && NumberAt(p, 14, 2) == count
            && NumberAt(p, 16, 4) == size && NumberAt(p, 20, 4) == 3 * |chunk| && NumberAt(p, 24, 4) == checksum
            && p[28] == 2
            && (forall k :: 0 <= k < |chunk| ==> p[40 + 3 * k] == p[41 + 3 * k] == p[42 + 3 * k] == chunk[k])
            && (forall i :: 29 <= i < 40 || 40 + 3 * |chunk| <= i < 528 ==> p[i] == 0)
  {
    var p := Layout(id, index, count, size, checksum, chunk);
    var h := Header(id, index, count, size, 3 * |chunk|, checksum);
    HeaderIn(p, h, id, index, count, size, 3 * |chunk|, checksum);
    CopiesIn(id, index, count, size, checksum, chunk);
    BlanksIn(id, index, count, size, checksum, chunk);
  }

  lemma HeaderIn(p: Packet, h: seq<Byte>, id: nat, index: nat, count: nat, size: nat, encoded: nat, checksum: nat)
    requires id < 0x1_0000_0000 && size < 0x1_0000_0000 && checksum < 0x1_0000_0000
    requires index < 0x1_0000 && count < 0x1_0000 && encoded < 0x1_0000_0000
    requires h == Header(id, index, count, size, encoded, checksum) && p[..29] == h[..29]
    ensures Tagged(p) && NumberAt(p, 8, 4) == id && NumberAt(p, 12, 2) == index && NumberAt(p, 14, 2) == count
    ensures NumberAt(p, 16, 4) == size && NumberAt(p, 20, 4) == encoded && NumberAt(p, 24, 4) == checksum
    ensures p[28] == 2
  {
    HeaderFront(id, index, count, size, encoded, checksum);
    HeaderBack(id, index, count, size, encoded, checksum);
    Slice(p, h, 29, 0, 8);
    Slice(p, h, 29, 8, 12);
    Slice(p, h, 29, 12, 14);
    Slice(p, h, 29, 14, 16);
    Slice(p, h, 29, 16, 20);
    Slice(p, h, 29, 20, 24);
    Slice(p, h, 29, 24, 28);
    TagIn(p);
    Reads32(id, p, 8);
    Reads16(index, p, 12);
    Reads16(count, p, 14);
    Reads32(size, p, 16);
    Reads32(encoded, p, 20);
    Reads32(checksum, p, 24);
    ReadsNumbers(p, 8);
    ReadsNumbers(p, 12);
    ReadsNumbers(p, 14);
    ReadsNumbers(p, 16);
    ReadsNumbers(p, 20);
    ReadsNumbers(p, 24);
    assert p[28] == p[..29][28] == h[28];
  }

  lemma TagIn(p: Packet)
    ensures p[..8] == MAGIC <==> Tagged(p)
  {
    if p[..8] == MAGIC {
      assert forall i :: 0 <= i < 8 ==> p[i] == p[..8][i];
    }
    if Tagged(p) {
      assert p[..8] == [p[0], p[1], p[2], p[3], p[4], p[5], p[6], p[7]];
    }
  }

  lemma CopiesIn(id: nat, index: nat, count: nat, size: nat, checksum: nat, chunk: seq<Byte>)
    requires |chunk| <= PAYLOAD_BYTES
    ensures var p := Layout(id, index, count, size, checksum, chunk);
            forall k :: 0 <= k < |chunk| ==> p[40 + 3 * k] == p[41 + 3 * k] == p[42 + 3 * k] == chunk[k]
  {
    var p := Layout(id, index, count, size, checksum, chunk);
    forall k | 0 <= k < |chunk|
      ensures p[40 + 3 * k] == p[41 + 3 * k] == p[42 + 3 * k] == chunk[k]
    {
      LayoutCopies(id, index, count, size, checksum, chunk, k);
      assert Copy(p, k, 0) == p[40 + 3 * k] && Copy(p, k, 1) == p[41 + 3 * k] && Copy(p, k, 2) == p[42 + 3 * k];
    }
  }

  lemma BlanksIn(id: nat, index: nat, count: nat, size: nat, checksum: nat, chunk: seq<Byte>)
    requires |chunk| <= PAYLOAD_BYTES
    ensures var p := Layout(id, index, count, size, checksum, chunk);
            forall i :: 29 <= i < 40 || 40 + 3 * |chunk| <= i < 528 ==> p[i] == 0
  {
    var h := Header(id, index, count, size, 3 * |chunk|, checksum);
    var p := Layout(id, index, count, size, checksum, chunk);
    assert h[29..] == Blank(11);
    forall i | 29 <= i < 40 ensures p[i] == 0 {
      assert p[i] == h[i] == h[29..][i - 29];
    }
  }

  // ---- the order of bits ----------------------------------------------------------------- //

  function Halved(n: nat, i: nat): nat {
    if i == 0 then n else Halved(n / 2, i - 1)
  }

  lemma {:induction false} BitOf(n: nat, k: nat, i: nat)
    requires i < k
    ensures ToBits(n, k)[i] == (Halved(n, i) % 2 == 1)
    decreases i
  {
    if i > 0 { BitOf(n / 2, k - 1, i - 1); }
  }

  lemma Halvings(b: Byte)
    ensures Halved(b, 0) == b && Halved(b, 1) == b / 2 && Halved(b, 2) == b / 4 && Halved(b, 3) == b / 8
    ensures Halved(b, 4) == b / 16 && Halved(b, 5) == b / 32 && Halved(b, 6) == b / 64 && Halved(b, 7) == b / 128
  {
    var b1: nat := b / 2;
    var b2, b3 := b1 / 2, b1 / 2 / 2;
    var b4, b5, b6, b7 := b3 / 2, b3 / 2 / 2, b3 / 2 / 2 / 2, b3 / 2 / 2 / 2 / 2;
    assert Halved(b, 1) == b1 && Halved(b1, 1) == b2 && Halved(b2, 1) == b3 && Halved(b3, 1) == b4;
    assert Halved(b4, 1) == b5 && Halved(b5, 1) == b6 && Halved(b6, 1) == b7;
    assert Halved(b4, 3) == b7 && Halved(b4, 2) == b6 && Halved(b3, 4) == b7 && Halved(b3, 3) == b6;
  }

  const WEIGHTS: seq<nat> := [128, 64, 32, 16, 8, 4, 2, 1]

  /** Within a byte the painted bits run from the most significant to the least. */
  lemma PacketBitIff(packet: Packet, bit: nat)
    requires bit < PACKET_BITS
    ensures PacketBit(packet, bit) <==> packet[bit / 8] / WEIGHTS[bit % 8] % 2 == 1
  {
    BitWeight(packet[bit / 8], bit % 8);
  }

  lemma BitWeight(b: Byte, j: nat)
    requires j < 8
    ensures ByteBits(b)[7 - j] <==> b / WEIGHTS[j] % 2 == 1
  {
    BitOf(b, 8, 7 - j);
    Halvings(b);
    assert Halved(b, 7 - j) == b / WEIGHTS[j];
  }

  // ---- refused packets ----------------------------------------------------------------------- //

  predicate Placed(p: Packet) { Tagged(p) && NumberAt(p, 12, 2) < NumberAt(p, 14, 2) }

  predicate Sized(p: Packet) { Placed(p) && NumberAt(p, 20, 4) <= 488 }

  /** A packet decodes exactly if it is tagged, its index is below its count, its payload fits and
      no flag but the two known ones is set; the first of these that fails is the fault. */
  lemma DecodeIff(p: Packet)
    ensures DecodePage(p) == Failed(BadMagic) <==> !Tagged(p)
    ensures DecodePage(p) == Failed(BadPageMetadata) <==> Tagged(p) && !Placed(p)
    ensures DecodePage(p) == Failed(BadChunkLength) <==> Placed(p) && !Sized(p)
    ensures DecodePage(p) == Failed(UnsupportedFlags) <==> Sized(p) && p[28] > 3
    ensures DecodePage(p).Ok? <==> Sized(p) && p[28] <= 3
    ensures Sized(p) && p[28] <= 3 ==>
              DecodePage(p) == Ok(VisualPage(NumberAt(p, 8, 4), NumberAt(p, 12, 2), NumberAt(p, 14, 2),
                                             NumberAt(p, 16, 4), NumberAt(p, 24, 4), p[28],
                                             p[40..40 + NumberAt(p, 20, 4)]))
  {
    TagIn(p);
    ReadsNumbers(p, 8);
    ReadsNumbers(p, 12);
    ReadsNumbers(p, 14);
    ReadsNumbers(p, 16);
    ReadsNumbers(p, 20);
    ReadsNumbers(p, 24);
  }

  // ---- refused page sets ------------------------------------------------------------------------ //

  predicate Agree(p: VisualPage, q: VisualPage) {
    && p.snapshotId == q.snapshotId && p.pageCount == q.pageCount && p.totalBytes == q.totalBytes
    && p.crc32 == q.crc32 && p.flags == q.flags
  }

  ghost predicate OneSnapshot(pages: seq<VisualPage>) {
    pages != [] && forall i :: 0 <= i < |pages| ==> Agree(pages[i], pages[0])
  }

  /** Exactly the indexes below the page count are there, once each. */
  ghost predicate Complete(pages: seq<VisualPage>) {
    && OneSnapshot(pages) && DistinctIndexes(pages)
    && forall k: nat :: HasIndex(pages, k) <==> k < pages[0].pageCount
  }

  /** The payload a complete set carries: its chunks in the order of their indexes, taken by the
      vote if the flag of three copies is set, and inflated if the flag of compression is. */
  datatype Content = Content(encoded: seq<Byte>, tripled: bool, zipped: bool)

  function ContentOf(pages: seq<VisualPage>): Content
    requires pages != [] && forall i :: 0 <= i < pages[0].pageCount ==> i in ByIndex(pages)
  {
    var flags := pages[0].flags;
    Content(Joined(ByIndex(pages), pages[0].pageCount), flags % 4 >= 2, flags % 2 == 1)
  }

  function Votes(c: Content): seq<Byte>
    requires c.tripled ==> |c.encoded| % 3 == 0
  {
    if c.tripled then Vote(c.encoded) else c.encoded
  }

  lemma CompleteIff(pages: seq<VisualPage>)
    requires OneSnapshot(pages) && DistinctIndexes(pages)
    ensures |ByIndex(pages)| == |pages|
    ensures ByIndex(pages).Keys == Range(pages[0].pageCount) <==> Complete(pages)
    ensures Complete(pages) ==> forall i :: 0 <= i < pages[0].pageCount ==> i in ByIndex(pages)
  {
    ByIndexKeys(pages);
    IndexSetSize(pages);
    forall k: nat ensures k in ByIndex(pages).Keys <==> HasIndex(pages, k) { IndexSetHas(pages, k); }
  }

  lemma DistinctIff(pages: seq<VisualPage>)
    ensures |ByIndex(pages)| == |pages| <==> DistinctIndexes(pages)
  {
    ByIndexKeys(pages);
    IndexSetSize(pages);
  }

  /** Which page sets are refused before their payload is looked at, and why. */
  lemma RefusedIff(pages: seq<VisualPage>, lib: Library)
    ensures Assemble(pages, lib) == Failed(NoPages) <==> pages == []
    ensures Assemble(pages, lib) == Failed(MixedSnapshots) <==> pages != [] && !OneSnapshot(pages)
    ensures Assemble(pages, lib) == Failed(DuplicatePages) <==> OneSnapshot(pages) && !DistinctIndexes(pages)
    ensures Assemble(pages, lib) == Failed(MissingPages) <==>
            OneSnapshot(pages) && DistinctIndexes(pages) && !Complete(pages)
    ensures Complete(pages) ==>
      && (forall i :: 0 <= i < pages[0].pageCount ==> i in ByIndex(pages))
      && Assemble(pages, lib) == Unpack(ContentOf(pages).encoded, pages[0], lib)
  {
    if pages != [] {
      assert forall i :: 0 <= i < |pages| ==> SameSnapshot(pages[i], pages[0]) == Agree(pages[i], pages[0]);
      DistinctIff(pages);
      if OneSnapshot(pages) && DistinctIndexes(pages) { CompleteIff(pages); }
      if Complete(pages) { UnpackFaults(ContentOf(pages).encoded, pages[0], lib); }
    }
  }

  /** The payload is accepted exactly if it is aligned, inflates, and has the length and checksum
      of the headers; the first of these that fails is the fault. */
  lemma UnpackFaults(encoded: seq<Byte>, head: VisualPage, lib: Library)
    ensures var c := Content(encoded, head.flags % 4 >= 2, head.flags % 2 == 1);
            var r := Unpack(encoded, head, lib);
            var aligned := c.tripled ==> |encoded| % 3 == 0;
            && (r == Failed(MisalignedPayload) <==> !aligned)
            && (aligned ==>
                  var content := if c.zipped then lib.inflate(Votes(c)) else Some(Votes(c));
                  && (r == Failed(CorruptCompression) <==> content.None?)
                  && (r == Failed(WrongLength) <==> content.Some? && |content.value| != head.totalBytes)
                  && (r == Failed(WrongChecksum) <==>
                        content.Some? && |content.value| == head.totalBytes && lib.crc32(content.value) != head.crc32)
                  && (r.Ok? <==>
                        content.Some? && |content.value| == head.totalBytes && lib.crc32(content.value) == head.crc32)
                  && (r.Ok? ==> r.value == content.value))
            && (r.Failed? ==> r.fault in {MisalignedPayload, CorruptCompression, WrongLength, WrongChecksum})
  {
    assert head.flags / 2 % 2 == 1 <==> head.flags % 4 >= 2;
  }
}
