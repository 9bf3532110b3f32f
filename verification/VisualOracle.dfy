/** Reading the observer's pages back from the screen, and what survives the trip. */
module VisualOracle {
  import opened Options
  import opened Bits
  import opened VisualPacket

  datatype Fault =
    | BadMagic | BadPageMetadata | BadChunkLength | UnsupportedFlags
    | NoPages | MixedSnapshots | DuplicatePages | MissingPages
    | MisalignedPayload | CorruptCompression | WrongLength | WrongChecksum

  datatype Decoded<T> = Ok(value: T) | Failed(fault: Fault)

  datatype VisualPage = VisualPage(snapshotId: nat, pageIndex: nat, pageCount: nat, totalBytes: nat,
                                   crc32: nat, flags: Byte, chunk: seq<Byte>)

  // ---- one page ---------------------------------------------------------------------- //

  function DecodePage(packet: Packet): Decoded<VisualPage> {
    var pageIndex := Read16(packet, 12);
    var pageCount := Read16(packet, 14);
    var chunkBytes := Read32(packet, 20);
    var flags := packet[28];
    if packet[..8] != MAGIC then Failed(BadMagic)
    else if pageCount == 0 || pageIndex >= pageCount then Failed(BadPageMetadata)
    else if chunkBytes > ENCODED_PAYLOAD_BYTES then Failed(BadChunkLength)
    else if flags > 3 then Failed(UnsupportedFlags)
    else Ok(VisualPage(Read32(packet, 8), pageIndex, pageCount, Read32(packet, 16), Read32(packet, 24),
                       flags, packet[40..40 + chunkBytes]))
  }

  function DecodePages(packets: seq<Packet>): (r: Decoded<seq<VisualPage>>)
    ensures r.Ok? ==> |r.value| == |packets|
  {
    if packets == [] then Ok([]) else
      var last := |packets| - 1;
      var before := DecodePages(packets[..last]);
      if before.Failed? then before else
        var page := DecodePage(packets[last]);
        if page.Failed? then Failed(page.fault) else Ok(before.value + [page.value])
  }

  // ---- the majority vote ---------------------------------------------------------- //

  predicate MajorityBit(a: bool, b: bool, c: bool) { (a && b) || (a && c) || (b && c) }

  function Majority(a: Byte, b: Byte, c: Byte): Byte {
    var x, y, z := ByteBits(a), ByteBits(b), ByteBits(c);
    BitsByte(seq(8, j requires 0 <= j < 8 => MajorityBit(x[j], y[j], z[j])))
  }

  /** In every bit position at least two of the three copies have the bit of `v`. */
  ghost predicate VotedFor(a: Byte, b: Byte, c: Byte, v: Byte) {
    var x, y, z, w := ByteBits(a), ByteBits(b), ByteBits(c), ByteBits(v);
    forall j :: 0 <= j < 8 ==> (x[j] == y[j] == w[j] || x[j] == z[j] == w[j] || y[j] == z[j] == w[j])
  }

  lemma MajorityIff(a: Byte, b: Byte, c: Byte, v: Byte)
    ensures Majority(a, b, c) == v <==> VotedFor(a, b, c, v)
  {
    var x, y, z, w := ByteBits(a), ByteBits(b), ByteBits(c), ByteBits(v);
    var m: seq<bool> := seq(8, j requires 0 <= j < 8 => MajorityBit(x[j], y[j], z[j]));
    ToFrom(m);
    ByteRoundTrip(v);
    assert ByteBits(Majority(a, b, c)) == m;
    if VotedFor(a, b, c, v) {
      assert m == w;
    } else {
      var j :| 0 <= j < 8 && !(x[j] == y[j] == w[j] || x[j] == z[j] == w[j] || y[j] == z[j] == w[j]);
      assert m[j] != w[j];
    }
  }

  /** One byte for each three, from the front. */
  function ByThrees(f: (Byte, Byte, Byte) -> Byte, encoded: seq<Byte>): (r: seq<Byte>)
    requires |encoded| % 3 == 0
    ensures |r| == |encoded| / 3
  {
    var n := |encoded| - 3;
    if encoded == [] then [] else ByThrees(f, encoded[..n]) + [f(encoded[n], encoded[n + 1], encoded[n + 2])]
  }

  function Vote(encoded: seq<Byte>): (r: seq<Byte>)
    requires |encoded| % 3 == 0
    ensures |r| == |encoded| / 3
  {
    ByThrees(Majority, encoded)
  }

  lemma {:induction false} ByThreesAppend(f: (Byte, Byte, Byte) -> Byte, x: seq<Byte>, y: seq<Byte>)
    requires |x| % 3 == 0 && |y| % 3 == 0
    ensures ByThrees(f, x + y) == ByThrees(f, x) + ByThrees(f, y)
    decreases |y|
  {
    if y == [] {
      assert x + y == x;
    } else {
      var n := |y| - 3;
      var last := f(y[n], y[n + 1], y[n + 2]);
      ByThreesAppend(f, x, y[..n]);
      assert (x + y)[..|x| + n] == x + y[..n];
      assert ByThrees(f, x + y) == ByThrees(f, x + y[..n]) + [last];
      assert ByThrees(f, y) == ByThrees(f, y[..n]) + [last];
    }
  }

  lemma {:induction false} ByThreesAt(f: (Byte, Byte, Byte) -> Byte, encoded: seq<Byte>, k: nat)
    requires |encoded| % 3 == 0 && 3 * k < |encoded|
    ensures ByThrees(f, encoded)[k] == f(encoded[3 * k], encoded[3 * k + 1], encoded[3 * k + 2])
    decreases |encoded|
  {
    var n := |encoded| - 3;
    if 3 * k < n {
      ByThreesAt(f, encoded[..n], k);
    }
  }

  /** The three copies of each byte of `chunk` still outvote the damage. */
  ghost predicate Outvotes(encoded: seq<Byte>, chunk: seq<Byte>) {
    && |encoded| == 3 * |chunk|
    && forall k :: 0 <= k < |chunk| ==> OutvotedAt(encoded, 3 * k, chunk[k])
  }

  ghost predicate OutvotedAt(encoded: seq<Byte>, i: nat, v: Byte)
    requires i + 3 <= |encoded|
  {
    VotedFor(encoded[i], encoded[i + 1], encoded[i + 2], v)
  }

  /** The vote gives a chunk back exactly when each of its bits kept two good copies. */
  lemma VoteIff(encoded: seq<Byte>, chunk: seq<Byte>)
    requires |encoded| == 3 * |chunk|
    ensures Vote(encoded) == chunk <==> Outvotes(encoded, chunk)
  {
    forall k | 0 <= k < |chunk|
      ensures Vote(encoded)[k] == chunk[k] <==> OutvotedAt(encoded, 3 * k, chunk[k])
    {
      ByThreesAt(Majority, encoded, k);
      MajorityIff(encoded[3 * k], encoded[3 * k + 1], encoded[3 * k + 2], chunk[k]);
    }
  }

  // ---- assembling a snapshot ------------------------------------------------------ //

  predicate SameSnapshot(p: VisualPage, q: VisualPage) {
    && p.snapshotId == q.snapshotId && p.pageCount == q.pageCount && p.totalBytes == q.totalBytes
    && p.crc32 == q.crc32 && p.flags == q.flags
  }

  /** Later pages replace earlier ones with the same index. */
  function ByIndex(pages: seq<VisualPage>): map<nat, VisualPage> {
    if pages == [] then map[] else
      var last := pages[|pages| - 1];
      ByIndex(pages[..|pages| - 1])[last.pageIndex := last]
  }

  function Joined(byIndex: map<nat, VisualPage>, n: nat): seq<Byte>
    requires forall i :: 0 <= i < n ==> i in byIndex
  {
    if n == 0 then [] else Joined(byIndex, n - 1) + byIndex[n - 1].chunk
  }

  function Range(n: nat): (s: set<nat>)
    ensures |s| == n && forall i: nat :: i in s <==> i < n
  {
    if n == 0 then {} else Range(n - 1) + {n - 1}
  }

  /** The library calls of the reader: decompression, which may fail, and CRC-32. */
  datatype Library = Library(inflate: seq<Byte> -> Option<seq<Byte>>, crc32: seq<Byte> -> nat)

  function Assemble(pages: seq<VisualPage>, lib: Library): Decoded<seq<Byte>> {
    if pages == [] then Failed(NoPages) else
    var head := pages[0];
    var byIndex := ByIndex(pages);
    if exists i :: 0 <= i < |pages| && !SameSnapshot(pages[i], head) then Failed(MixedSnapshots)
    else if |byIndex| != |pages| then Failed(DuplicatePages)
    else if byIndex.Keys != Range(head.pageCount) then Failed(MissingPages)
    else Unpack(Joined(byIndex, head.pageCount), head, lib)
  }

  function Unpack(encoded: seq<Byte>, head: VisualPage, lib: Library): Decoded<seq<Byte>> {
    var tripled := head.flags / 2 % 2 == 1;
    if tripled && |encoded| % 3 != 0 then Failed(MisalignedPayload) else
    var voted := if tripled then Vote(encoded) else encoded;
    var inflated := if head.flags % 2 == 1 then lib.inflate(voted) else Some(voted);
    if inflated.None? then Failed(CorruptCompression)
    else if |inflated.value| != head.totalBytes then Failed(WrongLength)
    else if lib.crc32(inflated.value) != head.crc32 then Failed(WrongChecksum)
    else Ok(inflated.value)
  }

  predicate DistinctIndexes(pages: seq<VisualPage>) {
    forall i, j :: 0 <= i < j < |pages| ==> pages[i].pageIndex != pages[j].pageIndex
  }

  function IndexSet(pages: seq<VisualPage>): set<nat> {
    if pages == [] then {} else IndexSet(pages[..|pages| - 1]) + {pages[|pages| - 1].pageIndex}
  }

  lemma {:induction false} ByIndexKeys(pages: seq<VisualPage>)
    ensures ByIndex(pages).Keys == IndexSet(pages)
    ensures |ByIndex(pages)| == |IndexSet(pages)|
    decreases |pages|
  {
    if pages != [] {
      ByIndexKeys(pages[..|pages| - 1]);
    }
    assert |ByIndex(pages).Keys| == |ByIndex(pages)|;
  }

  lemma {:induction false} IndexSetHas(pages: seq<VisualPage>, k: nat)
    ensures k in IndexSet(pages) <==> exists i :: 0 <= i < |pages| && pages[i].pageIndex == k
    decreases |pages|
  {
    if pages != [] {
      var n := |pages| - 1;
      IndexSetHas(pages[..n], k);
      if k in IndexSet(pages[..n]) {
        var i :| 0 <= i < n && pages[..n][i].pageIndex == k;
        assert pages[i].pageIndex == k;
      } else {
        assert forall i :: 0 <= i < n ==> pages[i] == pages[..n][i];
      }
    }
  }

  /** There are as many indexes as pages exactly when no two pages share one. */
  lemma {:induction false} IndexSetSize(pages: seq<VisualPage>)
    ensures |IndexSet(pages)| <= |pages|
    ensures |IndexSet(pages)| == |pages| <==> DistinctIndexes(pages)
    decreases |pages|
  {
    if pages != [] {
      var n := |pages| - 1;
      var before := pages[..n];
      IndexSetSize(before);
      IndexSetHas(before, pages[n].pageIndex);
      if pages[n].pageIndex in IndexSet(before) {
        assert IndexSet(pages) == IndexSet(before);
        var i :| 0 <= i < n && before[i].pageIndex == pages[n].pageIndex;
        assert pages[i].pageIndex == pages[n].pageIndex;
      } else {
        assert DistinctIndexes(before) <==> DistinctIndexes(pages) by { LastIsNew(pages); }
      }
    }
  }

  lemma LastIsNew(pages: seq<VisualPage>)
    requires pages != []
    requires forall i :: 0 <= i < |pages| - 1 ==> pages[i].pageIndex != pages[|pages| - 1].pageIndex
    ensures DistinctIndexes(pages[..|pages| - 1]) <==> DistinctIndexes(pages)
  {
  }

  lemma {:induction false} ByIndexAt(pages: seq<VisualPage>, i: nat)
    requires DistinctIndexes(pages) && i < |pages|
    ensures pages[i].pageIndex in ByIndex(pages) && ByIndex(pages)[pages[i].pageIndex] == pages[i]
    decreases |pages|
  {
    if i < |pages| - 1 {
      var before := pages[..|pages| - 1];
      ByIndexAt(before, i);
      assert before[i] == pages[i];
    }
  }

  /** A finite set inside a range of its own size is the whole range. */
  lemma FillsRange(s: set<nat>, n: nat)
    requires s <= Range(n) && |s| == n
    ensures s == Range(n)
  {
    var missing := Range(n) - s;
    assert s + missing == Range(n) && s !! missing;
    assert |missing| == 0;
  }
}
