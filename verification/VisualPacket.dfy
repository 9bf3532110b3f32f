/** The packets the observer shows on screen: one page of a snapshot each, with every
    payload byte written three times, and the bit matrix a packet is painted as. */
module VisualPacket {
  import opened Bits
  import Crc32

  // Products and quotients below write 162 and 88 out, so that they stay linear.
  const COLUMNS := 88
  const ROWS := 48
  const PACKET_BYTES := 528
  const PACKET_BITS := 4224
  const HEADER_BYTES := 40
  const ENCODED_PAYLOAD_BYTES := 488
  const PAYLOAD_BYTES := 162
  const PAGE_LIMIT := 0xffff
  const FLAG_TRIPLE: Byte := 2
  const MAGIC: seq<Byte> := [80, 75, 86, 77, 86, 88, 51, 0]

  type Packet = p: seq<Byte> | |p| == PACKET_BYTES witness seq(PACKET_BYTES, _ => 0)

  // ---- little-endian fields ------------------------------------------------------ //

  /** `value >> (index * 8)`. */
  function ShiftedOut(value: nat, index: nat): nat
    decreases index
  {
    if index == 0 then value else ShiftedOut(value, index - 1) / 256
  }

  function LittleEndian(value: nat, width: nat): (bytes: seq<Byte>)
    ensures |bytes| == width
    decreases width, value
  {
    if width == 0 then [] else LittleEndian(value, width - 1) + [ShiftedOut(value, width - 1) % 256]
  }

  function Read16(bytes: seq<Byte>, offset: nat): nat
    requires offset + 2 <= |bytes|
  {
    var low: nat, high: nat := bytes[offset], bytes[offset + 1];
    low + 0x100 * high
  }

  function Read32(bytes: seq<Byte>, offset: nat): nat
    requires offset + 4 <= |bytes|
  {
    Read16(bytes, offset) + 0x1_0000 * Read16(bytes, offset + 2)
  }

  lemma Reads16(value: nat, bytes: seq<Byte>, offset: nat)
    requires value < 0x1_0000 && offset + 2 <= |bytes| && bytes[offset..offset + 2] == LittleEndian(value, 2)
    ensures Read16(bytes, offset) == value
  {
    var le := bytes[offset..offset + 2];
    assert le == [value % 256, value / 256 % 256];
    assert bytes[offset] == le[0] && bytes[offset + 1] == le[1];
  }

  lemma Reads32(value: nat, bytes: seq<Byte>, offset: nat)
    requires value < 0x1_0000_0000 && offset + 4 <= |bytes| && bytes[offset..offset + 4] == LittleEndian(value, 4)
    ensures Read32(bytes, offset) == value
  {
    var le := bytes[offset..offset + 4];
    var v1 := value / 256;
    var v2 := v1 / 256;
    var v3 := v2 / 256;
    assert ShiftedOut(value, 1) == v1 && ShiftedOut(value, 2) == v2 && ShiftedOut(value, 3) == v3;
    assert LittleEndian(value, 2) == [value % 256, v1 % 256];
    assert le == [value % 256, v1 % 256, v2 % 256, v3 % 256];
    assert bytes[offset] == le[0] && bytes[offset + 1] == le[1];
    assert bytes[offset + 2] == le[2] && bytes[offset + 3] == le[3];
  }

  method WriteLe16(packet: array<Byte>, offset: nat, value: nat)
    requires value < 0x1_0000 && offset + 2 <= packet.Length
    modifies packet
    ensures packet[..] == old(packet[..])[..offset] + LittleEndian(value, 2) + old(packet[..])[offset + 2..]
  {
    packet[offset] := value % 256;
    packet[offset + 1] := value / 256 % 256;
    assert LittleEndian(value, 2) == [value % 256, value / 256 % 256];
  }

  function Spliced(s: seq<Byte>, offset: nat, written: seq<Byte>): (r: seq<Byte>)
    requires offset + |written| <= |s|
    ensures |r| == |s|
  {
    s[..offset] + written + s[offset + |written|..]
  }

  /** Overwriting the byte after an overwritten stretch makes the stretch one longer. */
  lemma SpliceNext(s: seq<Byte>, offset: nat, written: seq<Byte>, b: Byte)
    requires offset + |written| < |s|
    ensures Spliced(s, offset, written)[offset + |written| := b] == Spliced(s, offset, written + [b])
  {
  }

  method WriteLe32(packet: array<Byte>, offset: nat, value: nat)
    requires value < 0x1_0000_0000 && offset + 4 <= packet.Length
    modifies packet
    ensures packet[..] == old(packet[..])[..offset] + LittleEndian(value, 4) + old(packet[..])[offset + 4..]
  {
    ghost var before := packet[..];
    for index := 0 to 4
      invariant packet[..] == Spliced(before, offset, LittleEndian(value, index))
    {
      ghost var was := packet[..];
      var b: Byte := ShiftedOut(value, index) % 256;
      packet[offset + index] := b;
      SpliceNext(before, offset, LittleEndian(value, index), b);
      assert packet[..] == was[offset + index := b];
    }
  }

  // ---- pages --------------------------------------------------------------------------- //

  function PageCount(size: nat): (n: nat)
    ensures n >= 1
  {
    var whole := (size + 161) / 162;
    if whole < 1 then 1 else whole
  }

  lemma PagesCover(size: nat, index: nat)
    requires index < PageCount(size)
    ensures 162 * index <= size
    ensures size <= 162 * PageCount(size)
  {
  }

  /** The largest snapshot the visual form can carry. */
  lemma FitsIff(size: nat)
    ensures PageCount(size) <= PAGE_LIMIT <==> size <= 10_616_670
  {
  }

  function PageEnd(size: nat, index: nat): (end: nat)
    requires index < PageCount(size)
    ensures 162 * index <= end <= size && end <= 162 * (index + 1)
  {
    PagesCover(size, index);
    if 162 * (index + 1) <= size then 162 * (index + 1) else size
  }

  /** The bytes of a snapshot that page `index` carries. */
  function Chunk(snapshot: seq<Byte>, index: nat): (chunk: seq<Byte>)
    requires index < PageCount(|snapshot|)
    ensures |chunk| <= PAYLOAD_BYTES
  {
    snapshot[162 * index..PageEnd(|snapshot|, index)]
  }

  function Tripled(bytes: seq<Byte>): (r: seq<Byte>)
    ensures |r| == 3 * |bytes|
  {
    if bytes == [] then [] else
      var last := bytes[|bytes| - 1];
      Tripled(bytes[..|bytes| - 1]) + [last, last, last]
  }

  lemma {:induction false} TripledAt(bytes: seq<Byte>, k: nat)
    requires k < |bytes|
    ensures var r := Tripled(bytes); r[3 * k] == r[3 * k + 1] == r[3 * k + 2] == bytes[k]
  {
    if k < |bytes| - 1 {
      TripledAt(bytes[..|bytes| - 1], k);
    }
  }

  function Blank(n: nat): (r: seq<Byte>)
    ensures |r| == n && forall i :: 0 <= i < n ==> r[i] == 0
  {
    seq(n, _ => 0)
  }

  function Padded(prefix: seq<Byte>): Packet
    requires |prefix| <= PACKET_BYTES
  {
    prefix + Blank(PACKET_BYTES - |prefix|)
  }

  /** The header fields in their order; `id`, `size`, `encoded` and `checksum` are 32 bits
      wide, `index` and `count` 16 bits. */
  function Header(id: nat, index: nat, count: nat, size: nat, encoded: nat, checksum: nat): (header: seq<Byte>)
    ensures |header| == HEADER_BYTES
  {
    MAGIC + LittleEndian(id, 4) + LittleEndian(index, 2) + LittleEndian(count, 2) + LittleEndian(size, 4)
    + LittleEndian(encoded, 4) + LittleEndian(checksum, 4) + [FLAG_TRIPLE] + Blank(11)
  }

  function Layout(id: nat, index: nat, count: nat, size: nat, checksum: nat, chunk: seq<Byte>): Packet
    requires |chunk| <= PAYLOAD_BYTES
  {
    Padded(Header(id, index, count, size, 3 * |chunk|, checksum) + Tripled(chunk))
  }

  function Page(snapshot: seq<Byte>, id: nat, checksum: nat, index: nat): Packet
    requires index < PageCount(|snapshot|)
  {
    Layout(id, index, PageCount(|snapshot|), |snapshot|, checksum, Chunk(snapshot, index))
  }

  function PagesTo(snapshot: seq<Byte>, id: nat, checksum: nat, n: nat): (pages: seq<Packet>)
    requires n <= PageCount(|snapshot|)
    ensures |pages| == n
  {
    if n == 0 then [] else PagesTo(snapshot, id, checksum, n - 1) + [Page(snapshot, id, checksum, n - 1)]
  }

  lemma {:induction false} PagesToAt(snapshot: seq<Byte>, id: nat, checksum: nat, n: nat, i: nat)
    requires i < n <= PageCount(|snapshot|)
    ensures PagesTo(snapshot, id, checksum, n)[i] == Page(snapshot, id, checksum, i)
    decreases n
  {
    var before := PagesTo(snapshot, id, checksum, n - 1);
    if i < n - 1 {
      PagesToAt(snapshot, id, checksum, n - 1, i);
    } else {
      Last(before, Page(snapshot, id, checksum, i));
    }
  }

  lemma Last(s: seq<Packet>, p: Packet)
    ensures (s + [p])[|s|] == p
  {
  }

  function Pages(snapshot: seq<Byte>, id: nat): (pages: seq<Packet>)
    ensures |pages| == PageCount(|snapshot|)
  {
    PagesTo(snapshot, id, Crc32.Checksum(snapshot), PageCount(|snapshot|))
  }

  lemma PagesAt(snapshot: seq<Byte>, id: nat, i: nat)
    requires i < PageCount(|snapshot|)
    ensures Pages(snapshot, id)[i] == Page(snapshot, id, Crc32.Checksum(snapshot), i)
  {
    PagesToAt(snapshot, id, Crc32.Checksum(snapshot), PageCount(|snapshot|), i);
  }

  /** The observer's page state. */
  class Pager {
    var pages: seq<Packet>
    var page: nat
    var visual: bool

    /** What the paint handler relies on: the shown page exists. */
    ghost predicate Valid()
      reads this
    {
      visual ==> page < |pages|
    }

    constructor ()
      ensures Valid() && !visual
    {
      pages, page, visual := [], 0, false;
    }

    method EnterVisualMode(snapshot: seq<Byte>, sequence: nat)
      requires Valid()
      modifies this
      ensures Valid()
      ensures PageCount(|snapshot|) > PAGE_LIMIT ==> unchanged(this)
      ensures PageCount(|snapshot|) <= PAGE_LIMIT ==>
                visual && page == 0 && pages == Pages(snapshot, sequence % 0x1_0000_0000)
    {
      if PageCount(|snapshot|) > PAGE_LIMIT {
        return;
      }
      var checksum := Crc32.Crc32Of(snapshot);
      pages := EncodePages(snapshot, sequence % 0x1_0000_0000, checksum);
      page := 0;
      visual := true;
    }

    method ExitVisualMode()
      requires Valid()
      modifies this
      ensures Valid() && !visual
      ensures if old(visual) then pages == [] && page == old(page) else unchanged(this)
    {
      if !visual {
        return;
      }
      visual := false;
      pages := [];
    }

    method PreviousPage()
      requires Valid()
      modifies this`page
      ensures Valid()
      ensures page == if visual && old(page) > 0 then old(page) - 1 else old(page)
    {
      if visual && page > 0 {
        page := page - 1;
      }
    }

    method NextPage()
      requires Valid()
      modifies this`page
      ensures Valid()
      ensures page == if visual && old(page) + 1 < |pages| then old(page) + 1 else old(page)
    {
      if visual && page + 1 < |pages| {
        page := page + 1;
      }
    }

    /** The matrix of the page on show; nothing when there is none. */
    method PaintPage() returns (cells: array2?<bool>)
      requires Valid()
      ensures cells == null <==> !(visual && pages != [])
      ensures cells != null ==> fresh(cells) && Shows(cells, pages[page])
    {
      cells := null;
      if visual && pages != [] {
        cells := Paint(pages[page]);
      }
    }
  }

  // ---- one packet ---------------------------------------------------------------- //

  lemma PaddedFills(prefix: seq<Byte>, bytes: seq<Byte>)
    requires |prefix| + |bytes| <= PACKET_BYTES
    ensures var s := Padded(prefix);
            s[..|prefix|] + bytes + s[|prefix| + |bytes|..] == Padded(prefix + bytes)
  {
  }

  method WriteMagic(packet: array<Byte>)
    requires packet.Length == PACKET_BYTES && packet[..] == Padded([])
    modifies packet
    ensures packet[..] == Padded(MAGIC)
  {
    for i := 0 to |MAGIC|
      invariant packet[..] == Padded(MAGIC[..i])
    {
      packet[i] := MAGIC[i];
    }
  }

  method WriteTripled(packet: array<Byte>, ghost header: seq<Byte>, chunk: seq<Byte>)
    requires |header| == HEADER_BYTES && |chunk| <= PAYLOAD_BYTES
    requires packet.Length == PACKET_BYTES && packet[..] == Padded(header)
    modifies packet
    ensures packet[..] == Padded(header + Tripled(chunk))
  {
    for k := 0 to |chunk|
      invariant packet[..] == Padded(header + Tripled(chunk[..k]))
    {
      ghost var done := header + Tripled(chunk[..k]);
      ghost var was := packet[..];
      var value := chunk[k];
      var encoded := HEADER_BYTES + k * 3;
      packet[encoded] := value;
      packet[encoded + 1] := value;
      packet[encoded + 2] := value;
      assert packet[..] == was[encoded := value][encoded + 1 := value][encoded + 2 := value];
      PaddedThrice(done, value);
      TripledNext(header, chunk, k);
    }
    assert chunk[..|chunk|] == chunk;
  }

  lemma PaddedThrice(done: seq<Byte>, v: Byte)
    requires |done| + 3 <= PACKET_BYTES
    ensures Padded(done)[|done| := v][|done| + 1 := v][|done| + 2 := v] == Padded(done + [v, v, v])
  {
  }

  lemma TripledNext(header: seq<Byte>, chunk: seq<Byte>, k: nat)
    requires k < |chunk|
    ensures var v := chunk[k];
            header + Tripled(chunk[..k]) + [v, v, v] == header + Tripled(chunk[..k + 1])
  {
    var v := chunk[k];
    assert chunk[..k + 1][..k] == chunk[..k];
    assert Tripled(chunk[..k + 1]) == Tripled(chunk[..k]) + [v, v, v];
  }

  method WriteHeader(packet: array<Byte>, id: nat, index: nat, count: nat, size: nat, encoded: nat, checksum: nat)
    requires packet.Length == PACKET_BYTES && packet[..] == Padded([])
    requires index < 0x1_0000 && count < 0x1_0000
    requires id < 0x1_0000_0000 && size < 0x1_0000_0000 && encoded < 0x1_0000_0000 && checksum < 0x1_0000_0000
    modifies packet
    ensures packet[..] == Padded(Header(id, index, count, size, encoded, checksum))
  {
    WriteMagic(packet);
    ghost var head := WriteField32(packet, MAGIC, 8, id);
    head := WriteField16(packet, head, 12, index);
    head := WriteField16(packet, head, 14, count);
    head := WriteField32(packet, head, 16, size);
    head := WriteField32(packet, head, 20, encoded);
    head := WriteField32(packet, head, 24, checksum);
    PaddedFills(head, [FLAG_TRIPLE]);
    packet[28] := FLAG_TRIPLE;
    PadZeros(head + [FLAG_TRIPLE], 11);
  }

  lemma PadZeros(prefix: seq<Byte>, n: nat)
    requires |prefix| + n <= PACKET_BYTES
    ensures Padded(prefix) == Padded(prefix + Blank(n))
  {
  }

  method BuildPacket(id: nat, index: nat, count: nat, size: nat, checksum: nat, chunk: seq<Byte>)
    returns (packet: Packet)
    requires index < 0x1_0000 && count < 0x1_0000 && |chunk| <= PAYLOAD_BYTES
    requires id < 0x1_0000_0000 && size < 0x1_0000_0000 && checksum < 0x1_0000_0000
    ensures packet == Layout(id, index, count, size, checksum, chunk)
  {
    var buffer := new Byte[PACKET_BYTES](_ => 0);
    assert buffer[..] == Padded([]);
    WriteHeader(buffer, id, index, count, size, |chunk| * 3, checksum);
    WriteTripled(buffer, Header(id, index, count, size, 3 * |chunk|, checksum), chunk);
    packet := buffer[..];
  }

  /** Page `index`: the next 162 bytes of the snapshot, or what is left of it. */
  method EncodePage(snapshot: seq<Byte>, id: nat, index: nat, checksum: nat) returns (packet: Packet)
    requires PageCount(|snapshot|) <= PAGE_LIMIT && index < PageCount(|snapshot|)
    requires id < 0x1_0000_0000 && checksum < 0x1_0000_0000
    ensures packet == Page(snapshot, id, checksum, index)
  {
    FitsIff(|snapshot|);
    PagesCover(|snapshot|, index);
    var offset := index * 162;
    var chunk := if PAYLOAD_BYTES <= |snapshot| - offset then PAYLOAD_BYTES else |snapshot| - offset;
    packet := BuildPacket(id, index, PageCount(|snapshot|), |snapshot|, checksum,
                          snapshot[offset..offset + chunk]);
  }

  method EncodePages(snapshot: seq<Byte>, id: nat, checksum: nat) returns (pages: seq<Packet>)
    requires PageCount(|snapshot|) <= PAGE_LIMIT && id < 0x1_0000_0000 && checksum < 0x1_0000_0000
    ensures pages == PagesTo(snapshot, id, checksum, PageCount(|snapshot|))
  {
    var pageCount := PageCount(|snapshot|);
    pages := [];
    for index := 0 to pageCount
      invariant pages == PagesTo(snapshot, id, checksum, index)
    {
      var packet := EncodePage(snapshot, id, index, checksum);
      pages := pages + [packet];
    }
  }

  method WriteField16(packet: array<Byte>, ghost head: seq<Byte>, offset: nat, value: nat)
    returns (ghost after: seq<Byte>)
    requires |head| == offset && offset + 2 <= packet.Length == PACKET_BYTES
    requires value < 0x1_0000 && packet[..] == Padded(head)
    modifies packet
    ensures after == head + LittleEndian(value, 2) && packet[..] == Padded(after)
  {
    WriteLe16(packet, offset, value);
    after := head + LittleEndian(value, 2);
    PaddedFills(head, LittleEndian(value, 2));
  }

  method WriteField32(packet: array<Byte>, ghost head: seq<Byte>, offset: nat, value: nat)
    returns (ghost after: seq<Byte>)
    requires |head| == offset && offset + 4 <= packet.Length == PACKET_BYTES
    requires value < 0x1_0000_0000 && packet[..] == Padded(head)
    modifies packet
    ensures after == head + LittleEndian(value, 4) && packet[..] == Padded(after)
  {
    WriteLe32(packet, offset, value);
    after := head + LittleEndian(value, 4);
    PaddedFills(head, LittleEndian(value, 4));
  }

  // ---- the matrix ------------------------------------------------------------------- //

  /** `packet[bit / 8] & (1 << (7 - bit % 8))`. */
  predicate PacketBit(packet: Packet, bit: nat)
    requires bit < PACKET_BITS
  {
    ByteBits(packet[bit / 8])[7 - bit % 8]
  }

  predicate Matrix(cells: array2<bool>) {
    cells.Length0 == ROWS && cells.Length1 == COLUMNS
  }

  /** Cell (row, column) is dark iff that bit of the packet is set. */
  ghost predicate Shows(cells: array2<bool>, packet: Packet)
    reads cells
  {
    && Matrix(cells)
    && forall row, column :: 0 <= row < ROWS && 0 <= column < COLUMNS ==>
         cells[row, column] == PacketBit(packet, 88 * row + column)
  }

  method Paint(packet: Packet) returns (cells: array2<bool>)
    ensures fresh(cells) && Shows(cells, packet)
  {
    cells := new bool[ROWS, COLUMNS]((_, _) => false);
    for bit := 0 to PACKET_BITS
      invariant forall row, column :: 0 <= row < ROWS && 0 <= column < COLUMNS ==>
          cells[row, column] == (88 * row + column < bit && PacketBit(packet, 88 * row + column))
    {
      if PacketBit(packet, bit) {
        cells[bit / 88, bit % 88] := true;
      }
    }
  }

  /** `byte |= 1 << j`. */
  function SetBit(b: Byte, j: nat): (r: Byte)
    requires j < 8
    ensures ByteBits(r) == ByteBits(b)[j := true]
  {
    ToFrom(ByteBits(b)[j := true]);
    BitsByte(ByteBits(b)[j := true])
  }

  function WithBit(p: Packet, bit: nat): Packet
    requires bit < PACKET_BITS
  {
    p[bit / 8 := SetBit(p[bit / 8], 7 - bit % 8)]
  }

  lemma WithBitAt(p: Packet, bit: nat, b: nat)
    requires bit < PACKET_BITS && b < PACKET_BITS
    ensures PacketBit(WithBit(p, bit), b) == (b == bit || PacketBit(p, b))
  {
    if b / 8 == bit / 8 {
      var bits := ByteBits(p[bit / 8]);
      assert ByteBits(WithBit(p, bit)[b / 8]) == bits[7 - bit % 8 := true];
    }
  }

  lemma BlankBits()
    ensures forall b :: 0 <= b < PACKET_BITS ==> !PacketBit(Blank(PACKET_BYTES), b)
  {
    HighBitsZero(0, 0, 8);
  }

  /** The screenshot reader: one bit per cell, in row order. */
  method ReadMatrix(cells: array2<bool>) returns (packet: Packet)
    requires Matrix(cells)
    ensures Shows(cells, packet)
  {
    packet := Blank(PACKET_BYTES);
    BlankBits();
    for bit := 0 to PACKET_BITS
      invariant forall b :: 0 <= b < PACKET_BITS ==>
          PacketBit(packet, b) == (b < bit && cells[b / 88, b % 88])
    {
      if cells[bit / 88, bit % 88] {
        forall b | 0 <= b < PACKET_BITS
          ensures PacketBit(WithBit(packet, bit), b) == (b == bit || PacketBit(packet, b))
        {
          WithBitAt(packet, bit, b);
        }
        packet := WithBit(packet, bit);
      }
    }
    RowOrder(cells, packet);
  }

  lemma RowOrder(cells: array2<bool>, packet: Packet)
    requires Matrix(cells)
    requires forall b :: 0 <= b < PACKET_BITS ==> PacketBit(packet, b) == cells[b / 88, b % 88]
    ensures Shows(cells, packet)
  {
    forall row, column | 0 <= row < ROWS && 0 <= column < COLUMNS
      ensures cells[row, column] == PacketBit(packet, 88 * row + column)
    {
      var b := 88 * row + column;
      assert b / 88 == row && b % 88 == column;
    }
  }

  lemma SameBits(p: Packet, q: Packet, i: nat)
    requires i < PACKET_BYTES
    requires forall b :: 8 * i <= b < 8 * i + 8 ==> PacketBit(p, b) == PacketBit(q, b)
    ensures p[i] == q[i]
  {
    forall j | 0 <= j < 8
      ensures ByteBits(p[i])[j] == ByteBits(q[i])[j]
    {
      var b := 8 * i + 7 - j;
      assert b / 8 == i && 7 - b % 8 == j;
      assert PacketBit(p, b) == PacketBit(q, b);
    }
    assert ByteBits(p[i]) == ByteBits(q[i]);
    PowersUsed();
    ToInjective(p[i], q[i], 8);
  }

  /** A matrix shows one packet only: reading back what was painted is exact. */
  lemma ShownOnce(cells: array2<bool>, p: Packet, q: Packet)
    requires Shows(cells, p) && Shows(cells, q)
    ensures p == q
  {
    forall b | 0 <= b < PACKET_BITS
      ensures PacketBit(p, b) == PacketBit(q, b)
    {
      assert 88 * (b / 88) + b % 88 == b;
      assert cells[b / 88, b % 88] == PacketBit(p, b);
    }
    forall i | 0 <= i < PACKET_BYTES ensures p[i] == q[i] { SameBits(p, q, i); }
  }
}
