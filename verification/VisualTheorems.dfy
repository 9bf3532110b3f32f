/** A snapshot survives the trip over the screen. */
module VisualTheorems {
  import opened Bits
  import opened VisualPacket
  import opened VisualOracle
  import Crc32

  // ---- headers ------------------------------------------------------------------------ //

  /** The 29 header bytes the reader looks at; the rest is padding. */
  const READ_BYTES := 29

  lemma HeaderFront(id: nat, index: nat, count: nat, size: nat, encoded: nat, checksum: nat)
    ensures var h := Header(id, index, count, size, encoded, checksum);
            && h[..8] == MAGIC && h[8..12] == LittleEndian(id, 4) && h[12..14] == LittleEndian(index, 2)
            && h[14..16] == LittleEndian(count, 2)
  {
  }

  lemma HeaderBack(id: nat, index: nat, count: nat, size: nat, encoded: nat, checksum: nat)
    ensures var h := Header(id, index, count, size, encoded, checksum);
            && h[16..20] == LittleEndian(size, 4) && h[20..24] == LittleEndian(encoded, 4)
            && h[24..28] == LittleEndian(checksum, 4) && h[28] == FLAG_TRIPLE
  {
  }

  lemma Slice(p: seq<Byte>, h: seq<Byte>, n: nat, i: nat, j: nat)
    requires i <= j <= n <= |p| && n <= |h| && p[..n] == h[..n]
    ensures p[i..j] == h[i..j]
  {
    assert p[i..j] == p[..n][i..j];
    assert h[i..j] == h[..n][i..j];
  }

  lemma HeaderDecodes(p: Packet, id: nat, index: nat, count: nat, size: nat, encoded: nat, checksum: nat)
    requires id < 0x1_0000_0000 && size < 0x1_0000_0000 && checksum < 0x1_0000_0000
    requires index < count < 0x1_0000 && encoded <= ENCODED_PAYLOAD_BYTES
    requires p[..READ_BYTES] == Header(id, index, count, size, encoded, checksum)[..READ_BYTES]
    ensures DecodePage(p) == Ok(VisualPage(id, index, count, size, checksum, FLAG_TRIPLE, p[40..40 + encoded]))
  {
    var h := Header(id, index, count, size, encoded, checksum);
    HeaderFront(id, index, count, size, encoded, checksum);
    HeaderBack(id, index, count, size, encoded, checksum);
    Slice(p, h, READ_BYTES, 0, 8);
    Slice(p, h, READ_BYTES, 8, 12);
    Slice(p, h, READ_BYTES, 12, 14);
    Slice(p, h, READ_BYTES, 14, 16);
    Slice(p, h, READ_BYTES, 16, 20);
    Slice(p, h, READ_BYTES, 20, 24);
    Slice(p, h, READ_BYTES, 24, 28);
    Reads32(id, p, 8);
    Reads16(index, p, 12);
    Reads16(count, p, 14);
    Reads32(size, p, 16);
    Reads32(encoded, p, 20);
    Reads32(checksum, p, 24);
    assert p[28] == p[..READ_BYTES][28] == h[28];
  }

  // ---- damage ------------------------------------------------------------------------- //

  /** How many snapshot bytes a page says it carries. */
  function PayloadBytes(page: Packet): nat { Read32(page, 20) / 3 }

  predicate BitHolds(seen: Packet, page: Packet, bit: nat)
    requires bit < PACKET_BITS
  {
    PacketBit(seen, bit) == PacketBit(page, bit)
  }

  /** Bit `j` of payload byte `k` is intact in at least two of its three copies. */
  predicate TwoHold(seen: Packet, page: Packet, k: nat, j: nat)
    requires k < PAYLOAD_BYTES && j < 8
  {
    var bit := 8 * (40 + 3 * k) + j;
    || (BitHolds(seen, page, bit) && BitHolds(seen, page, bit + 8))
    || (BitHolds(seen, page, bit) && BitHolds(seen, page, bit + 16))
    || (BitHolds(seen, page, bit + 8) && BitHolds(seen, page, bit + 16))
  }

  /** What was read of a painted page: the header cells are intact, and of the three cells
      of each payload bit at most one is wrong; all other cells are arbitrary. */
  ghost predicate Survives(seen: Packet, page: Packet) {
    && (forall bit :: 0 <= bit < 8 * READ_BYTES ==> BitHolds(seen, page, bit))
    && forall k, j :: 0 <= k < PAYLOAD_BYTES && k < PayloadBytes(page) && 0 <= j < 8 ==> TwoHold(seen, page, k, j)
  }

  /** Copy `c` of payload byte `k`. */
  function Copy(seen: Packet, k: nat, c: nat): Byte
    requires k < PAYLOAD_BYTES && c < 3
  {
    seen[40 + 3 * k + c]
  }

  lemma SameCopy(seen: Packet, page: Packet, k: nat, c: nat, j: nat)
    requires k < PAYLOAD_BYTES && c < 3 && j < 8 && Copy(seen, k, c) == Copy(page, k, c)
    ensures BitHolds(seen, page, 8 * (40 + 3 * k) + j + 8 * c)
  {
    var bit := 8 * (40 + 3 * k) + j + 8 * c;
    assert bit / 8 == 40 + 3 * k + c;
  }

  /** A page survives the loss of one whole copy of every payload byte, whichever it is. */
  lemma OneCopyLostSurvives(seen: Packet, page: Packet, lost: nat -> nat)
    requires seen[..READ_BYTES] == page[..READ_BYTES]
    requires forall k, c :: 0 <= k < PAYLOAD_BYTES && k < PayloadBytes(page) && 0 <= c < 3 && c != lost(k) ==>
               Copy(seen, k, c) == Copy(page, k, c)
    ensures Survives(seen, page)
  {
    forall bit | 0 <= bit < 8 * READ_BYTES
      ensures BitHolds(seen, page, bit)
    {
      assert seen[bit / 8] == seen[..READ_BYTES][bit / 8] == page[..READ_BYTES][bit / 8];
    }
    forall k, j | 0 <= k < PAYLOAD_BYTES && k < PayloadBytes(page) && 0 <= j < 8
      ensures TwoHold(seen, page, k, j)
    {
      if lost(k) != 0 { SameCopy(seen, page, k, 0, j); }
      if lost(k) != 1 { SameCopy(seen, page, k, 1, j); }
      if lost(k) != 2 { SameCopy(seen, page, k, 2, j); }
    }
  }

  // ---- what the reader makes of it ---------------------------------------------------- //

  /** A packet whose header is the page's and whose payload still votes to `chunk`. */
  ghost predicate Legible(seen: Packet, page: Packet, chunk: seq<Byte>)
    requires |chunk| <= PAYLOAD_BYTES
  {
    seen[..READ_BYTES] == page[..READ_BYTES] && Outvotes(seen[40..40 + 3 * |chunk|], chunk)
  }

  lemma HeaderHolds(seen: Packet, page: Packet)
    requires forall bit :: 0 <= bit < 8 * READ_BYTES ==> BitHolds(seen, page, bit)
    ensures seen[..READ_BYTES] == page[..READ_BYTES]
  {
    forall i | 0 <= i < READ_BYTES
      ensures seen[i] == page[i]
    {
      forall b | 8 * i <= b < 8 * i + 8
        ensures PacketBit(seen, b) == PacketBit(page, b)
      {
        assert BitHolds(seen, page, b);
      }
      SameBits(seen, page, i);
    }
  }

  /** Three equal copies with two intact ones in each bit vote for the common value. */
  lemma TwoHoldVote(seen: Packet, page: Packet, k: nat, v: Byte)
    requires k < PAYLOAD_BYTES
    requires Copy(page, k, 0) == Copy(page, k, 1) == Copy(page, k, 2) == v
    requires forall j :: 0 <= j < 8 ==> TwoHold(seen, page, k, j)
    ensures VotedFor(Copy(seen, k, 0), Copy(seen, k, 1), Copy(seen, k, 2), v)
  {
    var x, y, z, w := ByteBits(Copy(seen, k, 0)), ByteBits(Copy(seen, k, 1)), ByteBits(Copy(seen, k, 2)), ByteBits(v);
    forall j | 0 <= j < 8
      ensures x[j] == y[j] == w[j] || x[j] == z[j] == w[j] || y[j] == z[j] == w[j]
    {
      var bit := 8 * (40 + 3 * k) + (7 - j);
      assert TwoHold(seen, page, k, 7 - j);
      BitOfCopy(seen, k, 0, j);
      BitOfCopy(seen, k, 1, j);
      BitOfCopy(seen, k, 2, j);
      BitOfCopy(page, k, 0, j);
      BitOfCopy(page, k, 1, j);
      BitOfCopy(page, k, 2, j);
    }
  }

  lemma BitOfCopy(p: Packet, k: nat, c: nat, j: nat)
    requires k < PAYLOAD_BYTES && c < 3 && j < 8
    ensures PacketBit(p, 8 * (40 + 3 * k) + (7 - j) + 8 * c) == ByteBits(Copy(p, k, c))[j]
  {
    var bit := 8 * (40 + 3 * k) + (7 - j) + 8 * c;
    assert bit / 8 == 40 + 3 * k + c && 7 - bit % 8 == j;
  }

  /** The observer writes each payload byte three times. */
  lemma LayoutCopies(id: nat, index: nat, count: nat, size: nat, checksum: nat, chunk: seq<Byte>, k: nat)
    requires |chunk| <= PAYLOAD_BYTES && k < |chunk|
    ensures var page := Layout(id, index, count, size, checksum, chunk);
            Copy(page, k, 0) == Copy(page, k, 1) == Copy(page, k, 2) == chunk[k]
  {
    TripledAt(chunk, k);
  }

  lemma LayoutPayload(id: nat, index: nat, count: nat, size: nat, checksum: nat, chunk: seq<Byte>)
    requires |chunk| <= PAYLOAD_BYTES
    ensures PayloadBytes(Layout(id, index, count, size, checksum, chunk)) == |chunk|
  {
    var h := Header(id, index, count, size, 3 * |chunk|, checksum);
    var page := Layout(id, index, count, size, checksum, chunk);
    HeaderBack(id, index, count, size, 3 * |chunk|, checksum);
    assert page[..READ_BYTES] == h[..READ_BYTES];
    Slice(page, h, READ_BYTES, 20, 24);
    Reads32(3 * |chunk|, page, 20);
  }

  lemma SurvivingIsLegible(id: nat, index: nat, count: nat, size: nat, checksum: nat, chunk: seq<Byte>, seen: Packet)
    requires |chunk| <= PAYLOAD_BYTES && Survives(seen, Layout(id, index, count, size, checksum, chunk))
    ensures Legible(seen, Layout(id, index, count, size, checksum, chunk), chunk)
  {
    var page := Layout(id, index, count, size, checksum, chunk);
    HeaderHolds(seen, page);
    LayoutPayload(id, index, count, size, checksum, chunk);
    var body := seen[40..40 + 3 * |chunk|];
    forall k | 0 <= k < |chunk|
      ensures OutvotedAt(body, 3 * k, chunk[k])
    {
      LayoutCopies(id, index, count, size, checksum, chunk, k);
      TwoHoldVote(seen, page, k, chunk[k]);
      assert body[3 * k] == Copy(seen, k, 0) && body[3 * k + 1] == Copy(seen, k, 1);
      assert body[3 * k + 2] == Copy(seen, k, 2);
    }
  }

  lemma LayoutDecodes(id: nat, index: nat, count: nat, size: nat, checksum: nat, chunk: seq<Byte>, seen: Packet)
    requires id < 0x1_0000_0000 && size < 0x1_0000_0000 && checksum < 0x1_0000_0000
    requires index < count < 0x1_0000 && |chunk| <= PAYLOAD_BYTES
    requires seen[..READ_BYTES] == Layout(id, index, count, size, checksum, chunk)[..READ_BYTES]
    ensures DecodePage(seen) ==
            Ok(VisualPage(id, index, count, size, checksum, FLAG_TRIPLE, seen[40..40 + 3 * |chunk|]))
  {
    var h := Header(id, index, count, size, 3 * |chunk|, checksum);
    assert Layout(id, index, count, size, checksum, chunk)[..READ_BYTES] == h[..READ_BYTES];
    HeaderDecodes(seen, id, index, count, size, 3 * |chunk|, checksum);
  }

  /** The fields every page of one snapshot shares. */
  datatype Cover = Cover(id: nat, count: nat, size: nat, checksum: nat)

  ghost predicate ValidCover(cover: Cover) {
    && cover.id < 0x1_0000_0000 && cover.size < 0x1_0000_0000 && cover.checksum < 0x1_0000_0000
    && cover.count < 0x1_0000
  }

  /** A page record that stands for chunk `index` of that snapshot. */
  ghost predicate ReadingOf(page: VisualPage, cover: Cover, index: nat, chunk: seq<Byte>) {
    && page.snapshotId == cover.id && page.pageIndex == index && page.pageCount == cover.count
    && page.totalBytes == cover.size && page.crc32 == cover.checksum && page.flags == FLAG_TRIPLE
    && VotesTo(page.chunk, chunk)
  }

  lemma PageReads(cover: Cover, index: nat, chunk: seq<Byte>, seen: Packet)
    requires ValidCover(cover) && index < cover.count && |chunk| <= PAYLOAD_BYTES
    requires Survives(seen, Layout(cover.id, index, cover.count, cover.size, cover.checksum, chunk))
    ensures var page := DecodePage(seen);
            page.Ok? && ReadingOf(page.value, cover, index, chunk)
  {
    SurvivingIsLegible(cover.id, index, cover.count, cover.size, cover.checksum, chunk, seen);
    LayoutDecodes(cover.id, index, cover.count, cover.size, cover.checksum, chunk, seen);
    VoteIff(seen[40..40 + 3 * |chunk|], chunk);
  }

  /** What the vote makes of one page's payload. */
  ghost predicate VotesTo(encoded: seq<Byte>, chunk: seq<Byte>) {
    |encoded| % 3 == 0 && Vote(encoded) == chunk
  }

  // ---- putting the chunks together -------------------------------------------------------- //

  /** Every page but the last is full. */
  lemma FullPage(size: nat, index: nat)
    requires index + 1 < PageCount(size)
    ensures PageEnd(size, index) == 162 * (index + 1)
  {
    PagesCover(size, index + 1);
  }

  lemma VotesJoin(x: seq<Byte>, y: seq<Byte>, u: seq<Byte>, v: seq<Byte>)
    requires VotesTo(x, u) && VotesTo(y, v)
    ensures VotesTo(x + y, u + v)
  {
    ByThreesAppend(Majority, x, y);
  }

  lemma {:induction false} JoinedVotes(snapshot: seq<Byte>, byIndex: map<nat, VisualPage>, n: nat)
    requires 0 < n <= PageCount(|snapshot|)
    requires forall i: nat :: i < n ==> i in byIndex && VotesTo(byIndex[i].chunk, Chunk(snapshot, i))
    ensures VotesTo(Joined(byIndex, n), snapshot[..PageEnd(|snapshot|, n - 1)])
    decreases n
  {
    var last := byIndex[n - 1].chunk;
    if n == 1 {
      assert Joined(byIndex, 1) == Joined(byIndex, 0) + last == last;
    } else {
      JoinedVotes(snapshot, byIndex, n - 1);
      FullPage(|snapshot|, n - 2);
      VotesJoin(Joined(byIndex, n - 1), last, snapshot[..162 * (n - 1)], Chunk(snapshot, n - 1));
      TakeMore(snapshot, 162 * (n - 1), PageEnd(|snapshot|, n - 1));
    }
  }

  lemma TakeMore(s: seq<Byte>, i: nat, j: nat)
    requires i <= j <= |s|
    ensures s[..i] + s[i..j] == s[..j]
  {
  }

  lemma WholeSnapshot(size: nat)
    ensures PageEnd(size, PageCount(size) - 1) == size
  {
    PagesCover(size, PageCount(size) - 1);
  }

  // ---- the round trip ------------------------------------------------------------------------ //

  predicate Permutation(order: seq<nat>, n: nat) {
    && |order| == n
    && (forall i :: 0 <= i < n ==> order[i] < n)
    && forall i, j :: 0 <= i < j < n ==> order[i] != order[j]
  }

  lemma {:induction false} AllDecode(packets: seq<Packet>)
    requires forall i :: 0 <= i < |packets| ==> DecodePage(packets[i]).Ok?
    ensures DecodePages(packets).Ok?
    ensures forall i :: 0 <= i < |packets| ==> DecodePages(packets).value[i] == DecodePage(packets[i]).value
    decreases |packets|
  {
    if packets != [] {
      var n := |packets| - 1;
      var before := packets[..n];
      assert forall i :: 0 <= i < n ==> before[i] == packets[i];
      AllDecode(before);
    }
  }

  lemma PermutationFills(pages: seq<VisualPage>, order: seq<nat>, n: nat)
    requires Permutation(order, n) && |pages| == n
    requires forall i :: 0 <= i < n ==> pages[i].pageIndex == order[i]
    ensures |ByIndex(pages)| == |pages| && ByIndex(pages).Keys == Range(n)
  {
    ByIndexKeys(pages);
    assert DistinctIndexes(pages);
    IndexSetSize(pages);
    forall k | k in IndexSet(pages)
      ensures k in Range(n)
    {
      IndexSetHas(pages, k);
    }
    FillsRange(IndexSet(pages), n);
  }

  /** The page that carries index `k`, in whatever place it was read. */
  lemma PageOf(pages: seq<VisualPage>, k: nat) returns (i: nat)
    requires k in ByIndex(pages) && DistinctIndexes(pages)
    ensures i < |pages| && pages[i].pageIndex == k && ByIndex(pages)[k] == pages[i]
  {
    ByIndexKeys(pages);
    IndexSetHas(pages, k);
    i :| 0 <= i < |pages| && pages[i].pageIndex == k;
    ByIndexAt(pages, i);
  }

  /** Every page was read once, in whatever order. */
  ghost predicate ReadingsOf(pages: seq<VisualPage>, order: seq<nat>, cover: Cover, snapshot: seq<Byte>) {
    && cover.count == PageCount(|snapshot|) && cover.size == |snapshot|
    && Permutation(order, cover.count) && |pages| == cover.count
    && forall i :: 0 <= i < |pages| ==> ReadingOf(pages[i], cover, order[i], Chunk(snapshot, order[i]))
  }

  lemma FoundByIndex(pages: seq<VisualPage>, order: seq<nat>, cover: Cover, snapshot: seq<Byte>, k: nat)
    requires ReadingsOf(pages, order, cover, snapshot) && k < cover.count
    ensures k in ByIndex(pages) && VotesTo(ByIndex(pages)[k].chunk, Chunk(snapshot, k))
  {
    PermutationFills(pages, order, cover.count);
    assert k in Range(cover.count);
    var i := PageOf(pages, k);
    assert ReadingOf(pages[i], cover, order[i], Chunk(snapshot, order[i]));
  }

  lemma AllFound(pages: seq<VisualPage>, order: seq<nat>, cover: Cover, snapshot: seq<Byte>)
    requires ReadingsOf(pages, order, cover, snapshot)
    ensures forall k: nat :: k < cover.count ==>
              k in ByIndex(pages) && VotesTo(ByIndex(pages)[k].chunk, Chunk(snapshot, k))
  {
    forall k: nat | k < cover.count
      ensures k in ByIndex(pages) && VotesTo(ByIndex(pages)[k].chunk, Chunk(snapshot, k))
    {
      FoundByIndex(pages, order, cover, snapshot, k);
    }
  }

  lemma JoinedIsSnapshot(snapshot: seq<Byte>, byIndex: map<nat, VisualPage>)
    requires forall k: nat :: k < PageCount(|snapshot|) ==>
               k in byIndex && VotesTo(byIndex[k].chunk, Chunk(snapshot, k))
    ensures VotesTo(Joined(byIndex, PageCount(|snapshot|)), snapshot)
  {
    var n := PageCount(|snapshot|);
    JoinedVotes(snapshot, byIndex, n);
    WholeSnapshot(|snapshot|);
    assert snapshot[..PageEnd(|snapshot|, n - 1)] == snapshot;
  }

  lemma UnpackRead(encoded: seq<Byte>, head: VisualPage, snapshot: seq<Byte>, lib: Library)
    requires head.flags == FLAG_TRIPLE && head.totalBytes == |snapshot|
    requires head.crc32 == lib.crc32(snapshot) && VotesTo(encoded, snapshot)
    ensures Unpack(encoded, head, lib) == Ok(snapshot)
  {
  }

  /** Pages of one snapshot, read once each in any order, assemble to the snapshot. */
  lemma AssembleRead(pages: seq<VisualPage>, order: seq<nat>, cover: Cover, snapshot: seq<Byte>, lib: Library)
    requires ReadingsOf(pages, order, cover, snapshot) && cover.checksum == lib.crc32(snapshot)
    ensures Assemble(pages, lib) == Ok(snapshot)
  {
    PermutationFills(pages, order, cover.count);
    AllFound(pages, order, cover, snapshot);
    JoinedIsSnapshot(snapshot, ByIndex(pages));
    UnpackRead(Joined(ByIndex(pages), cover.count), pages[0], snapshot, lib);
  }

  /** Each of the pages was read once, in any order, and survived. */
  ghost predicate AllSurvive(pages: seq<Packet>, order: seq<nat>, seen: seq<Packet>) {
    && Permutation(order, |pages|) && |seen| == |pages|
    && forall i :: 0 <= i < |pages| ==> Survives(seen[i], pages[order[i]])
  }

  lemma PageReadsFrom(snapshot: seq<Byte>, cover: Cover, index: nat, seen: Packet)
    requires ValidCover(cover) && index < cover.count == PageCount(|snapshot|)
    requires cover.size == |snapshot| && cover.checksum == Crc32.Checksum(snapshot)
    requires Survives(seen, Pages(snapshot, cover.id)[index])
    ensures var page := DecodePage(seen);
            page.Ok? && ReadingOf(page.value, cover, index, Chunk(snapshot, index))
  {
    PagesAt(snapshot, cover.id, index);
    PageReads(cover, index, Chunk(snapshot, index), seen);
  }

  lemma AllRead(snapshot: seq<Byte>, cover: Cover, order: seq<nat>, seen: seq<Packet>)
    requires ValidCover(cover) && cover.count == PageCount(|snapshot|)
    requires cover.size == |snapshot| && cover.checksum == Crc32.Checksum(snapshot)
    requires AllSurvive(Pages(snapshot, cover.id), order, seen)
    ensures DecodePages(seen).Ok? && ReadingsOf(DecodePages(seen).value, order, cover, snapshot)
  {
    forall i | 0 <= i < |seen|
      ensures DecodePage(seen[i]).Ok?
      ensures ReadingOf(DecodePage(seen[i]).value, cover, order[i], Chunk(snapshot, order[i]))
    {
      PageReadsFrom(snapshot, cover, order[i], seen[i]);
    }
    AllDecode(seen);
  }

  /** The round trip: every snapshot that fits in 65535 pages is read back exactly from what
      was painted, with its pages in any order and of the three cells of each payload bit
      any one wrong. */
  lemma RoundTrip(snapshot: seq<Byte>, sequence: nat, order: seq<nat>, seen: seq<Packet>, lib: Library)
    requires |snapshot| <= 10_616_670 && lib.crc32 == Crc32.Checksum
    requires AllSurvive(Pages(snapshot, sequence % 0x1_0000_0000), order, seen)
    ensures var pages := DecodePages(seen);
            pages.Ok? && Assemble(pages.value, lib) == Ok(snapshot)
  {
    FitsIff(|snapshot|);
    var cover := Cover(sequence % 0x1_0000_0000, PageCount(|snapshot|), |snapshot|, Crc32.Checksum(snapshot));
    AllRead(snapshot, cover, order, seen);
    AssembleRead(DecodePages(seen).value, order, cover, snapshot, lib);
  }

  /** Undamaged pages, in the order they were painted. */
  lemma UndamagedRoundTrip(snapshot: seq<Byte>, sequence: nat, lib: Library)
    requires |snapshot| <= 10_616_670 && lib.crc32 == Crc32.Checksum
    ensures var pages := DecodePages(Pages(snapshot, sequence % 0x1_0000_0000));
            pages.Ok? && Assemble(pages.value, lib) == Ok(snapshot)
  {
    var painted := Pages(snapshot, sequence % 0x1_0000_0000);
    var order: seq<nat> := seq(|painted|, i requires 0 <= i < |painted| => i);
    forall i | 0 <= i < |painted|
      ensures Survives(painted[i], painted[order[i]])
    {
      SurvivesItself(painted[i]);
    }
    RoundTrip(snapshot, sequence, order, painted, lib);
  }

  lemma SurvivesItself(page: Packet)
    ensures Survives(page, page)
  {
  }

  /** Pages that lost one whole copy of every payload byte, a different one each time. */
  lemma OneCopyLostRoundTrip(snapshot: seq<Byte>, sequence: nat, order: seq<nat>, seen: seq<Packet>,
                             lost: nat -> nat -> nat, lib: Library)
    requires |snapshot| <= 10_616_670 && lib.crc32 == Crc32.Checksum
    requires var pages := Pages(snapshot, sequence % 0x1_0000_0000);
             && Permutation(order, |pages|) && |seen| == |pages|
             && (forall i :: 0 <= i < |pages| ==> seen[i][..READ_BYTES] == pages[order[i]][..READ_BYTES])
             && forall i, k, c :: 0 <= i < |pages| && 0 <= k < PAYLOAD_BYTES && 0 <= c < 3 && c != lost(i)(k) ==>
                  Copy(seen[i], k, c) == Copy(pages[order[i]], k, c)
    ensures var pages := DecodePages(seen);
            pages.Ok? && Assemble(pages.value, lib) == Ok(snapshot)
  {
    var pages := Pages(snapshot, sequence % 0x1_0000_0000);
    forall i | 0 <= i < |pages|
      ensures Survives(seen[i], pages[order[i]])
    {
      OneCopyLostSurvives(seen[i], pages[order[i]], lost(i));
    }
    RoundTrip(snapshot, sequence, order, seen, lib);
  }

  /** Painting a packet and reading the cells back changes nothing. */
  method PaintAndRead(packet: Packet) returns (seen: Packet)
    ensures seen == packet
  {
    var cells := Paint(packet);
    seen := ReadMatrix(cells);
    ShownOnce(cells, packet, seen);
  }

  /** Reading one screen per page and assembling what they show. */
  method ReadSnapshot(screens: seq<array2<bool>>, lib: Library)
    returns (r: Decoded<seq<Byte>>, seen: seq<Packet>)
    requires forall i :: 0 <= i < |screens| ==> Matrix(screens[i])
    ensures |seen| == |screens| && forall i :: 0 <= i < |screens| ==> Shows(screens[i], seen[i])
    ensures var pages := DecodePages(seen);
            r == if pages.Ok? then Assemble(pages.value, lib) else Failed(pages.fault)
  {
    seen := [];
    for i := 0 to |screens|
      invariant |seen| == i && forall k :: 0 <= k < i ==> Shows(screens[k], seen[k])
    {
      var packet := ReadMatrix(screens[i]);
      seen := seen + [packet];
    }
    var pages := DecodePages(seen);
    r := if pages.Ok? then Assemble(pages.value, lib) else Failed(pages.fault);
  }

  /** A screen on which the page survived. */
  ghost predicate ScreenSurvives(screen: array2<bool>, page: Packet)
    reads screen
  {
    exists seen: Packet :: Shows(screen, seen) && Survives(seen, page)
  }

  /** Damaged screens, in any order, are read back to the snapshot they were painted for. */
  method ReadDamaged(screens: seq<array2<bool>>, ghost snapshot: seq<Byte>, ghost sequence: nat,
                     ghost order: seq<nat>, lib: Library)
    returns (r: Decoded<seq<Byte>>)
    requires |snapshot| <= 10_616_670 && lib.crc32 == Crc32.Checksum
    requires var pages := Pages(snapshot, sequence % 0x1_0000_0000);
             && Permutation(order, |pages|) && |screens| == |pages|
             && forall i :: 0 <= i < |pages| ==> ScreenSurvives(screens[i], pages[order[i]])
    ensures r == Ok(snapshot)
  {
    ghost var pages := Pages(snapshot, sequence % 0x1_0000_0000);
    var seen;
    r, seen := ReadSnapshot(screens, lib);
    forall i | 0 <= i < |pages|
      ensures Survives(seen[i], pages[order[i]])
    {
      SurvivingRead(screens[i], pages[order[i]], seen[i]);
    }
    RoundTrip(snapshot, sequence, order, seen, lib);
  }

  lemma SurvivingRead(screen: array2<bool>, page: Packet, read: Packet)
    requires ScreenSurvives(screen, page) && Shows(screen, read)
    ensures Survives(read, page)
  {
    var seen: Packet :| Shows(screen, seen) && Survives(seen, page);
    ShownOnce(screen, seen, read);
  }

  /** Paints the page on show and moves on, until each page was painted. */
  method PaintAll(pager: Pager) returns (screens: seq<array2<bool>>)
    requires pager.Valid() && pager.visual && pager.page == 0
    modifies pager`page
    ensures |screens| == |pager.pages| && forall i :: 0 <= i < |screens| ==> Shows(screens[i], pager.pages[i])
  {
    var n := |pager.pages|;
    screens := [];
    for i := 0 to n
      invariant pager.Valid()
      invariant pager.page == if i < n then i else n - 1
      invariant |screens| == i && forall k :: 0 <= k < i ==> Shows(screens[k], pager.pages[k])
    {
      var cells := pager.PaintPage();
      screens := screens + [cells];
      pager.NextPage();
    }
  }

  /** Enters visual mode and paints page after page. */
  method ShowAll(snapshot: seq<Byte>, sequence: nat) returns (screens: seq<array2<bool>>)
    requires PageCount(|snapshot|) <= PAGE_LIMIT
    ensures var painted := Pages(snapshot, sequence % 0x1_0000_0000);
            |screens| == |painted| && forall i :: 0 <= i < |screens| ==> Shows(screens[i], painted[i])
  {
    var pager := new Pager();
    pager.EnterVisualMode(snapshot, sequence);
    screens := PaintAll(pager);
  }

  /** From end to end: entering visual mode, painting page after page and reading the
      screens gives the snapshot. */
  method ShowAndRead(snapshot: seq<Byte>, sequence: nat, lib: Library) returns (r: Decoded<seq<Byte>>)
    requires |snapshot| <= 10_616_670 && lib.crc32 == Crc32.Checksum
    ensures r == Ok(snapshot)
  {
    FitsIff(|snapshot|);
    var screens := ShowAll(snapshot, sequence);
    var seen;
    r, seen := ReadSnapshot(screens, lib);
    AllShownOnce(screens, Pages(snapshot, sequence % 0x1_0000_0000), seen);
    UndamagedRoundTrip(snapshot, sequence, lib);
  }

  lemma AllShownOnce(screens: seq<array2<bool>>, p: seq<Packet>, q: seq<Packet>)
    requires |screens| == |p| == |q|
    requires forall i :: 0 <= i < |screens| ==> Shows(screens[i], p[i]) && Shows(screens[i], q[i])
    ensures p == q
  {
    forall i | 0 <= i < |screens| ensures p[i] == q[i] { ShownOnce(screens[i], p[i], q[i]); }
  }

  // ---- what an accepted snapshot proves --------------------------------------------------- //

  ghost predicate HasIndex(pages: seq<VisualPage>, k: nat) {
    exists i :: 0 <= i < |pages| && pages[i].pageIndex == k
  }

  /** Accepted pages are one snapshot's, each index present exactly once, and the result
      has the length and the checksum their headers carry. */
  lemma AcceptedMeans(pages: seq<VisualPage>, lib: Library)
    requires Assemble(pages, lib).Ok?
    ensures pages != []
    ensures var payload := Assemble(pages, lib).value; var head := pages[0];
            && (forall i :: 0 <= i < |pages| ==> SameSnapshot(pages[i], head))
            && |pages| == head.pageCount && DistinctIndexes(pages)
            && (forall k: nat :: k < head.pageCount ==> HasIndex(pages, k))
            && |payload| == head.totalBytes && lib.crc32(payload) == head.crc32
  {
    var head := pages[0];
    assert forall i :: 0 <= i < |pages| ==> SameSnapshot(pages[i], head);
    ByIndexKeys(pages);
    IndexSetSize(pages);
    assert IndexSet(pages) == Range(head.pageCount);
    forall k: nat | k < head.pageCount
      ensures HasIndex(pages, k)
    {
      assert k in Range(head.pageCount);
      IndexSetHas(pages, k);
    }
    UnpackMeans(Joined(ByIndex(pages), head.pageCount), head, lib);
    assert |pages| == head.pageCount;
    assert DistinctIndexes(pages);
  }

  lemma UnpackMeans(encoded: seq<Byte>, head: VisualPage, lib: Library)
    requires Unpack(encoded, head, lib).Ok?
    ensures var payload := Unpack(encoded, head, lib).value;
            |payload| == head.totalBytes && lib.crc32(payload) == head.crc32
  {
  }

  /** A payload that differs from the observer's snapshot only inside a window of four
      bytes is never accepted under that snapshot's checksum. */
  lemma WindowDamageRejected(pages: seq<VisualPage>, lib: Library,
                             before: seq<Byte>, u: seq<Byte>, v: seq<Byte>, after: seq<Byte>)
    requires |u| == |v| <= 4 && u != v && lib.crc32 == Crc32.Checksum
    requires pages != [] && pages[0].crc32 == Crc32.Checksum(before + u + after)
    ensures Assemble(pages, lib) != Ok(before + v + after)
  {
    Crc32.BurstDetected(before, u, v, after);
    if Assemble(pages, lib).Ok? {
      AcceptedMeans(pages, lib);
    }
  }
}
