/** The structural walk over a PNG document: which byte strings it accepts. */
module PngWalk {
  import opened Wrappers
  import opened ByteLines

  const SIGNATURE: Bytes := [137, 80, 78, 71, 13, 10, 26, 10]
  const IHDR: Bytes := [73, 72, 68, 82]
  const IDAT: Bytes := [73, 68, 65, 84]
  const IEND: Bytes := [73, 69, 78, 68]

  const WORD: nat := 0x1_0000_0000

  /** Four bytes, the most significant first. */
  function Pack(n: nat): (b: Bytes)
    requires n < WORD
    ensures |b| == 4
  {
    [(n / 0x100_0000) as byte, (n / 0x1_0000 % 256) as byte, (n / 256 % 256) as byte, (n % 256) as byte]
  }

  function Unpack(b: Bytes): (n: nat)
    requires |b| == 4
    ensures n < WORD
  {
    b[0] as nat * 0x100_0000 + b[1] as nat * 0x1_0000 + b[2] as nat * 256 + b[3] as nat
  }

  lemma UnpackPack(n: nat)
    requires n < WORD
    ensures Unpack(Pack(n)) == n
  {
    assert n == n / 256 * 256 + n % 256;
    assert n / 256 == n / 0x1_0000 * 256 + n / 256 % 256;
    assert n / 0x1_0000 == n / 0x100_0000 * 256 + n / 0x1_0000 % 256;
  }

  lemma PackUnpack(b: Bytes)
    requires |b| == 4
    ensures Pack(Unpack(b)) == b
  {
    var n := Unpack(b);
    var low := b[2] as nat * 256 + b[3] as nat;
    var mid := b[1] as nat * 0x1_0000 + low;
    assert n / 256 == b[0] as nat * 0x1_0000 + b[1] as nat * 256 + b[2] as nat && n % 256 == b[3] as nat;
    assert n / 0x1_0000 == b[0] as nat * 256 + b[1] as nat;
    assert n / 0x100_0000 == b[0] as nat;
  }

  datatype Chunk = Chunk(kind: Bytes, payload: Bytes)

  /** A checksum of type and payload, the size limits, the check of readable text in the document
      and the decoder's check. */
  datatype Policy = Policy(
    crc: (Bytes, Bytes) -> nat, maxFileBytes: nat, maxMetadataBytes: nat, maxPixels: nat,
    cleanText: Bytes -> bool, decodes: (Bytes, nat, nat) -> bool) {

    ghost predicate Valid() {
      forall kind: Bytes, payload: Bytes :: crc(kind, payload) < WORD
    }
  }

  ghost predicate Printable(c: Chunk) {
    |c.kind| == 4 && |c.payload| < WORD
  }

  /** The chunk layout of section 5.3 of the PNG specification: length, type, data, CRC. */
  ghost function Print(p: Policy, c: Chunk): (b: Bytes)
    requires p.Valid() && Printable(c)
    ensures |b| == 12 + |c.payload|
  {
    Pack(|c.payload|) + c.kind + c.payload + Pack(p.crc(c.kind, c.payload))
  }

  ghost function PrintAll(p: Policy, chunks: seq<Chunk>): Bytes
    requires p.Valid() && forall c :: c in chunks ==> Printable(c)
  {
    if chunks == [] then []
    else PrintAll(p, chunks[..|chunks| - 1]) + Print(p, chunks[|chunks| - 1])
  }

  // ---------- one chunk ----------

  /** The chunk at an offset, if it lies inside the document and its checksum is right. */
  function ChunkAt(p: Policy, document: Bytes, offset: nat): (r: Option<Chunk>)
    ensures r.Some? ==> |r.value.kind| == 4 && offset + 12 + |r.value.payload| <= |document|
  {
    if offset + 12 > |document| then None
    else
      var length := Unpack(document[offset..offset + 4]);
      var kind := document[offset + 4..offset + 8];
      var end := offset + 12 + length;
      if end > |document| then None
      else
        var payload := document[offset + 8..offset + 8 + length];
        if Unpack(document[offset + 8 + length..end]) != p.crc(kind, payload) then None
        else Some(Chunk(kind, payload))
  }

  /** A chunk is read at an offset exactly when its printed form stands there. */
  lemma ChunkRoundTrip(p: Policy, document: Bytes, offset: nat, c: Chunk)
    requires p.Valid() && Printable(c)
    ensures ChunkAt(p, document, offset) == Some(c) <==>
              (offset + 12 + |c.payload| <= |document|
               && document[offset..offset + 12 + |c.payload|] == Print(p, c))
  {
    var n := |c.payload|;
    if ChunkAt(p, document, offset) == Some(c) {
      ReadIsPrinted(p, document, offset, c);
    }
    if offset + 12 + n <= |document| && document[offset..offset + 12 + n] == Print(p, c) {
      PrintedIsRead(p, document, offset, c);
    }
  }

  lemma Subslice(s: Bytes, offset: nat, length: nat, i: nat, j: nat)
    requires offset + length <= |s| && i <= j <= length
    ensures s[offset..offset + length][i..j] == s[offset + i..offset + j]
  {
    var whole := s[offset..offset + length];
    var a, b := whole[i..j], s[offset + i..offset + j];
    assert forall k :: 0 <= k < |a| ==> a[k] == whole[i + k] == s[offset + (i + k)] == b[k];
  }

  lemma ReadIsPrinted(p: Policy, document: Bytes, offset: nat, c: Chunk)
    requires p.Valid() && Printable(c) && ChunkAt(p, document, offset) == Some(c)
    ensures document[offset..offset + 12 + |c.payload|] == Print(p, c)
  {
    var n := |c.payload|;
    PackUnpack(document[offset..offset + 4]);
    PackUnpack(document[offset + 8 + n..offset + 12 + n]);
    hide Pack, Unpack;
    assert document[offset..offset + 12 + n] == document[offset..offset + 4] + document[offset + 4..offset + 8]
           + document[offset + 8..offset + 8 + n] + document[offset + 8 + n..offset + 12 + n];
  }

  lemma PrintedIsRead(p: Policy, document: Bytes, offset: nat, c: Chunk)
    requires p.Valid() && Printable(c) && offset + 12 + |c.payload| <= |document|
    requires document[offset..offset + 12 + |c.payload|] == Print(p, c)
    ensures ChunkAt(p, document, offset) == Some(c)
  {
    var n := |c.payload|;
    var crc := p.crc(c.kind, c.payload);
    UnpackPack(n);
    UnpackPack(crc);
    hide Pack, Unpack;
    var whole := Print(p, c);
    assert whole[..4] == Pack(n) && whole[4..8] == c.kind && whole[8..8 + n] == c.payload && whole[8 + n..] == Pack(crc);
    Subslice(document, offset, 12 + n, 0, 4);
    Subslice(document, offset, 12 + n, 4, 8);
    Subslice(document, offset, 12 + n, 8, 8 + n);
    Subslice(document, offset, 12 + n, 8 + n, 12 + n);
  }

  // ---------- the walk ----------

  datatype Violation = FileTooLarge | InvalidPng | MetadataTooLarge | PngMetadata | UnsafeText | PixelLimit | RasterRejected

  /** Header first and only once, data between, an empty end. */
  ghost predicate Layout(chunks: seq<Chunk>) {
    var n := |chunks|;
    && n >= 3
    && (forall c :: c in chunks ==> Printable(c))
    && chunks[0].kind == IHDR && |chunks[0].payload| == 13
    && (forall i :: 0 < i < n - 1 ==> chunks[i].kind == IDAT)
    && chunks[n - 1] == Chunk(IEND, [])
  }

  /** What a printer emits: the signature, then the chunks of a layout. */
  ghost predicate IsPng(p: Policy, document: Bytes, chunks: seq<Chunk>)
    requires p.Valid()
  {
    Layout(chunks) && document == SIGNATURE + PrintAll(p, chunks)
  }

  /** The document begins with the signature and these printed chunks. */
  ghost predicate Opens(p: Policy, document: Bytes, chunks: seq<Chunk>)
    requires p.Valid()
  {
    (forall c :: c in chunks ==> Printable(c)) && SIGNATURE + PrintAll(p, chunks) <= document
  }

  /** The chunks read so far and where they end; the end chunk is the last one read. */
  ghost predicate Walked(p: Policy, document: Bytes, chunks: seq<Chunk>, offset: nat)
    requires p.Valid()
  {
    && (forall c :: c in chunks ==> Printable(c))
    && 8 <= offset <= |document| && document[..offset] == SIGNATURE + PrintAll(p, chunks)
  }

  lemma NextIsRead(p: Policy, document: Bytes, chunks: seq<Chunk>, offset: nat, c: Chunk)
    requires p.Valid() && Walked(p, document, chunks, offset) && ChunkAt(p, document, offset) == Some(c) && Printable(c)
    ensures Walked(p, document, chunks + [c], offset + 12 + |c.payload|)
  {
    hide ChunkAt, Print, Policy.Valid, Printable;
    ReadIsPrinted(p, document, offset, c);
    PrintLength(p, c);
    var next := offset + 12 + |c.payload|;
    assert document[..next] == document[..offset] + document[offset..next];
    assert (chunks + [c])[..|chunks|] == chunks;
  }

  lemma {:induction false} PrintPrefix(p: Policy, all: seq<Chunk>, n: nat)
    requires p.Valid() && n < |all| && forall c :: c in all ==> Printable(c)
    ensures |PrintAll(p, all[..n])| + |Print(p, all[n])| <= |PrintAll(p, all)|
    ensures PrintAll(p, all)[..|PrintAll(p, all[..n])|] == PrintAll(p, all[..n])
    ensures PrintAll(p, all)[|PrintAll(p, all[..n])|..|PrintAll(p, all[..n])| + |Print(p, all[n])|] == Print(p, all[n])
    decreases |all|
  {
    hide Print, Policy.Valid, Printable;
    var before := all[..|all| - 1];
    if n == |all| - 1 {
      assert all[..n] == before;
    } else {
      assert before[..n] == all[..n] && before[n] == all[n];
      PrintPrefix(p, before, n);
    }
  }

  lemma OpensMeans(p: Policy, document: Bytes, all: seq<Chunk>)
    requires p.Valid() && Opens(p, document, all)
    ensures forall c :: c in all ==> Printable(c)
    ensures 8 + |PrintAll(p, all)| <= |document| && document[8..8 + |PrintAll(p, all)|] == PrintAll(p, all)
  {
    hide Policy.Valid, Printable, PrintAll;
    assert document[..8 + |PrintAll(p, all)|] == SIGNATURE + PrintAll(p, all);
  }

  lemma WalkedMeans(p: Policy, document: Bytes, chunks: seq<Chunk>, offset: nat)
    requires p.Valid() && Walked(p, document, chunks, offset)
    ensures forall c :: c in chunks ==> Printable(c)
    ensures offset == 8 + |PrintAll(p, chunks)|
  {
    hide Policy.Valid, Printable, PrintAll;
    assert |document[..offset]| == offset;
  }

  /** What a printer emitted is read chunk by chunk as it was printed. */
  lemma PrintedNext(p: Policy, document: Bytes, all: seq<Chunk>, chunks: seq<Chunk>, offset: nat)
    requires p.Valid() && Opens(p, document, all) && Walked(p, document, chunks, offset)
    requires chunks <= all && |chunks| < |all|
    ensures ChunkAt(p, document, offset) == Some(all[|chunks|]) && Printable(all[|chunks|])
  {
    var n := |chunks|;
    assert all[..n] == chunks;
    assert all[n] in all;
    hide *;
    OpensMeans(p, document, all);
    WalkedMeans(p, document, chunks, offset);
    PrintPrefix(p, all, n);
    var body := PrintAll(p, all);
    var m := |PrintAll(p, chunks)|;
    Subslice(document, 8, |body|, m, m + |Print(p, all[n])|);
    PrintLength(p, all[n]);
    PrintedIsRead(p, document, offset, all[n]);
  }

  lemma PrintLength(p: Policy, c: Chunk)
    requires p.Valid() && Printable(c)
    ensures |Print(p, c)| == 12 + |c.payload|
  {
  }

  /** Two layouts cannot print the same document. */
  lemma {:induction false} PrintUnique(p: Policy, document: Bytes, a: seq<Chunk>, b: seq<Chunk>, n: nat)
    requires p.Valid() && IsPng(p, document, a) && IsPng(p, document, b) && n <= |a| && n <= |b|
    ensures a[..n] == b[..n]
  {
    if n > 0 {
      PrintUnique(p, document, a, b, n - 1);
      var chunks := a[..n - 1];
      assert chunks == b[..n - 1];
      PrefixWalked(p, document, a, n - 1);
      PngOpens(p, document, a);
      PngOpens(p, document, b);
      hide ChunkAt, IsPng, Walked, Opens, Policy.Valid, Printable, PrintAll;
      var offset := 8 + |PrintAll(p, chunks)|;
      PrintedNext(p, document, a, chunks, offset);
      PrintedNext(p, document, b, chunks, offset);
      assert a[..n] == chunks + [a[n - 1]] && b[..n] == chunks + [b[n - 1]];
    }
  }

  lemma PngOpens(p: Policy, document: Bytes, all: seq<Chunk>)
    requires p.Valid() && IsPng(p, document, all)
    ensures Opens(p, document, all)
  {
  }

  lemma PrefixWalked(p: Policy, document: Bytes, all: seq<Chunk>, n: nat)
    requires p.Valid() && IsPng(p, document, all) && n < |all|
    ensures (forall c :: c in all[..n] ==> Printable(c)) && Walked(p, document, all[..n], 8 + |PrintAll(p, all[..n])|)
  {
    assert forall c :: c in all[..n] ==> c in all;
    hide Print, PrintAll, Policy.Valid, Printable;
    PrintPrefix(p, all, n);
    var m := |PrintAll(p, all[..n])|;
    assert document[..8 + m] == SIGNATURE + PrintAll(p, all)[..m];
  }

  /** What a structurally valid document is told: its dimensions, or what is wrong with it. */
  function Verdict(p: Policy, document: Bytes, header: Bytes): Result<(nat, nat), Violation>
    requires |header| == 13
  {
    var width, height := Unpack(header[..4]), Unpack(header[4..8]);
    if !p.cleanText(document) then Err(UnsafeText)
    else if width == 0 || height == 0 || width * height > p.maxPixels then Err(PixelLimit)
    else if !p.decodes(document, width, height) then Err(RasterRejected)
    else Ok((width, height))
  }

  /** A printed document is accepted as so wide and so high exactly when its header was printed with
      these numbers, neither is nothing, their product is within the limit and text and raster pass. */
  lemma VerdictExactlyWhen(p: Policy, document: Bytes, header: Bytes, width: nat, height: nat)
    requires |header| == 13 && width < WORD && height < WORD
    ensures Verdict(p, document, header) == Ok((width, height)) <==>
              (header[..8] == Pack(width) + Pack(height) && 1 <= width && 1 <= height && width * height <= p.maxPixels
               && p.cleanText(document) && p.decodes(document, width, height))
    ensures Verdict(p, document, header) == Err(UnsafeText) <==> !p.cleanText(document)
    ensures header[..8] == Pack(width) + Pack(height) ==>
              (Verdict(p, document, header) == Err(PixelLimit) <==>
                 p.cleanText(document) && (width == 0 || height == 0 || width * height > p.maxPixels))
  {
    UnpackPack(width);
    UnpackPack(height);
    PackUnpack(header[..4]);
    PackUnpack(header[4..8]);
    hide Pack, Unpack;
    assert header[..8] == header[..4] + header[4..8];
    var printed := Pack(width) + Pack(height);
    assert printed[..4] == Pack(width) && printed[4..] == Pack(height);
    assert header[..8][..4] == header[..4] && header[..8][4..] == header[4..8];
  }

  /** Chunks that the walk goes past: data, and a whole header where it comes first. */
  ghost predicate Passing(chunks: seq<Chunk>) {
    forall i :: 0 <= i < |chunks| ==>
      (chunks[i].kind == IHDR && i == 0 && |chunks[i].payload| == 13) || chunks[i].kind == IDAT
  }

  /** The document begins with chunks that the walk goes past and one at which it stops. */
  ghost predicate Led(p: Policy, document: Bytes, all: seq<Chunk>)
    requires p.Valid()
  {
    && all != [] && Passing(all[..|all| - 1]) && all[|all| - 1].kind !in {IHDR, IDAT}
    && Opens(p, document, all)
  }

  /** What is said of a document that leads the walk to the last of these chunks. */
  ghost function Outcome(p: Policy, document: Bytes, all: seq<Chunk>): Result<(nat, nat), Violation>
    requires p.Valid() && Led(p, document, all)
  {
    var last := all[|all| - 1];
    if last.kind != IEND then Err(if |last.payload| > p.maxMetadataBytes then MetadataTooLarge else PngMetadata)
    else if |all| < 3 || all[0].kind != IHDR || |document| != 8 + |PrintAll(p, all)| then Err(InvalidPng)
    else if !p.cleanText(document) then Err(UnsafeText)
    else if last.payload != [] then Err(InvalidPng)
    else assert all[..|all| - 1][0] == all[0]; Verdict(p, document, all[0].payload)
  }

  lemma KindsDiffer()
    ensures IHDR != IDAT && IDAT != IEND && IHDR != IEND
  {
    assert IHDR[1] != IDAT[1] && IDAT[1] != IEND[1] && IHDR[1] != IEND[1];
  }

  /** Where the walk still goes on, every list it is led through goes on with the chunk read. */
  lemma LedNext(p: Policy, document: Bytes, chunks: seq<Chunk>, offset: nat, all: seq<Chunk>)
    requires p.Valid() && Walked(p, document, chunks, offset) && Passing(chunks)
    requires Led(p, document, all) && chunks <= all
    ensures ChunkAt(p, document, offset).Some?
    ensures var c := ChunkAt(p, document, offset).value;
            if c.kind in {IHDR, IDAT} then chunks + [c] <= all && Passing(chunks + [c]) else chunks + [c] == all
  {
    var front := all[..|all| - 1];
    assert chunks != [] ==> chunks[|chunks| - 1].kind in {IHDR, IDAT};
    PrintedNext(p, document, all, chunks, offset);
    hide ChunkAt, Walked, Policy.Valid, Printable, Print, PrintAll, Opens;
    assert all[..|chunks|] == chunks;
    if |chunks| < |front| {
      assert chunks + [all[|chunks|]] == front[..|chunks| + 1];
    } else {
      assert chunks + [all[|chunks|]] == all;
    }
  }

  ghost predicate StopsAt(p: Policy, document: Bytes, all: seq<Chunk>, offset: nat)
    requires p.Valid()
  {
    Led(p, document, all) && 8 + |PrintAll(p, all)| == offset
  }

  /** Reading a chunk at which the walk stops shows where the document leads it. */
  lemma StopsHere(p: Policy, document: Bytes, chunks: seq<Chunk>, offset: nat, c: Chunk)
    requires p.Valid() && Walked(p, document, chunks + [c], offset) && Passing(chunks) && c.kind !in {IHDR, IDAT}
    ensures StopsAt(p, document, chunks + [c], offset)
  {
    assert (chunks + [c])[..|chunks|] == chunks;
    assert |document[..offset]| == offset;
  }

  lemma AtEnd(p: Policy, document: Bytes, chunks: seq<Chunk>, offset: nat, all: seq<Chunk>)
    requires p.Valid() && Walked(p, document, chunks, offset) && Passing(chunks) && offset == |document|
    requires chunks <= all
    ensures !Led(p, document, all)
  {
    if Led(p, document, all) {
      LedNext(p, document, chunks, offset, all);
    }
  }

  /** A printed document leads the walk to its end, and there to the verdict on it. */
  lemma PrintedOutcome(p: Policy, document: Bytes, all: seq<Chunk>)
    requires p.Valid() && IsPng(p, document, all)
    ensures Led(p, document, all) && Outcome(p, document, all) == Verdict(p, document, all[0].payload)
  {
    KindsDiffer();
    hide Print, PrintAll, Policy.Valid;
    PngOpens(p, document, all);
  }

  /** Only a printed document is accepted. */
  lemma AcceptedIsPrinted(p: Policy, document: Bytes, all: seq<Chunk>)
    requires p.Valid() && Led(p, document, all) && Outcome(p, document, all).Ok?
    ensures IsPng(p, document, all)
  {
    hide Print, PrintAll, Policy.Valid, Printable;
    var front := all[..|all| - 1];
    assert forall i :: 0 < i < |all| - 1 ==> all[i] == front[i];
    assert all[0] == front[0];
  }

  /** What the loop knows about the chunks it has gone past. */
  ghost predicate Taken(chunks: seq<Chunk>, kinds: seq<Bytes>, width: nat, height: nat) {
    && |kinds| == |chunks|
    && (forall i :: 0 <= i < |chunks| ==> kinds[i] == chunks[i].kind)
    && (chunks != [] && |chunks[0].payload| == 13 && chunks[0].kind == IHDR ==>
          width == Unpack(chunks[0].payload[..4]) && height == Unpack(chunks[0].payload[4..8]))
  }

  lemma TakeChunk(chunks: seq<Chunk>, kinds: seq<Bytes>, width: nat, height: nat, c: Chunk, width': nat, height': nat)
    requires Taken(chunks, kinds, width, height)
    requires c.kind == IHDR ==> chunks == [] && |c.payload| == 13
    requires c.kind == IHDR ==> width' == Unpack(c.payload[..4]) && height' == Unpack(c.payload[4..8])
    requires c.kind != IHDR ==> width' == width && height' == height
    ensures Taken(chunks + [c], kinds + [c.kind], width', height')
  {
    hide Unpack;
  }

  lemma TakenMeans(chunks: seq<Chunk>, kinds: seq<Bytes>, width: nat, height: nat)
    requires Taken(chunks, kinds, width, height)
    ensures |kinds| == |chunks| && forall i :: 0 <= i < |chunks| ==> kinds[i] == chunks[i].kind
  {
  }

  /** What is said of the walk that has come to an end chunk. */
  lemma EndOutcome(p: Policy, document: Bytes, chunks: seq<Chunk>, offset: nat, kinds: seq<Bytes>, width: nat, height: nat)
    requires p.Valid() && StopsAt(p, document, chunks, offset)
    requires Taken(chunks, kinds, width, height) && chunks[|chunks| - 1].kind == IEND
    ensures Led(p, document, chunks)
    ensures Outcome(p, document, chunks) ==
            if kinds[0] != IHDR || IDAT !in kinds || offset != |document| then Err(InvalidPng)
            else if !p.cleanText(document) then Err(UnsafeText)
            else if chunks[|chunks| - 1].payload != [] then Err(InvalidPng)
            else if width == 0 || height == 0 || width * height > p.maxPixels then Err(PixelLimit)
            else if !p.decodes(document, width, height) then Err(RasterRejected)
            else Ok((width, height))
  {
    KindsDiffer();
    hide Unpack, Print, PrintAll, Policy.Valid, Printable, IHDR, IDAT, IEND, Opens;
    var front := chunks[..|chunks| - 1];
    assert forall i :: 0 <= i < |front| ==> front[i] == chunks[i];
    if IDAT in kinds && kinds[0] == IHDR {
      var i :| 0 <= i < |kinds| && kinds[i] == IDAT;
      assert 0 < i < |kinds| - 1;
    }
    if |chunks| >= 3 {
      assert kinds[1] == front[1].kind == IDAT;
    }
  }

  /** Accepts exactly what a printer emits, if its text, its dimensions and its raster pass; anything
      else is refused for what the walk comes to, or as no PNG where it comes to nothing. */
  method ScanPng(p: Policy, document: Bytes) returns (r: Result<(nat, nat), Violation>)
    requires p.Valid()
    ensures forall all: seq<Chunk> :: IsPng(p, document, all) ==> r == Verdict(p, document, all[0].payload)
    ensures r.Ok? ==> exists all: seq<Chunk> :: IsPng(p, document, all)
    ensures forall all: seq<Chunk> :: Led(p, document, all) ==> r == Outcome(p, document, all)
    ensures (forall all: seq<Chunk> :: !Led(p, document, all)) ==> r == Err(InvalidPng)
  {
    hide ChunkAt, IsPng, Walked, Policy.Valid, Printable, Unpack, Taken, PrintAll, Print, Led, Passing, Outcome;
    hide Opens, Layout, StopsAt;
    LedMeans(p, document);
    if |document| < 8 || document[..8] != SIGNATURE {
      return Err(InvalidPng);
    }
    var offset := 8;
    var kinds: seq<Bytes> := [];
    var width: nat, height: nat := 0, 0;
    var badEnd, ended := false, false;
    ghost var chunks: seq<Chunk> := [];
    Start(p, document);
    while offset < |document| && !ended
      invariant 8 <= offset <= |document|
      invariant Walked(p, document, chunks, offset) && Taken(chunks, kinds, width, height)
      invariant !ended ==> !badEnd && Passing(chunks) && forall all: seq<Chunk> :: Led(p, document, all) ==> chunks <= all
      invariant ended ==> StopsAt(p, document, chunks, offset) && chunks != [] && Comes(chunks[|chunks| - 1], badEnd)
      invariant ended ==> forall all: seq<Chunk> :: Led(p, document, all) ==> all == chunks
      decreases |document| - offset
    {
      forall all: seq<Chunk> | Led(p, document, all)
        ensures ChunkAt(p, document, offset).Some?
        ensures var c := ChunkAt(p, document, offset).value;
                if c.kind in {IHDR, IDAT} then chunks + [c] <= all && Passing(chunks + [c]) else chunks + [c] == all
      {
        LedNext(p, document, chunks, offset, all);
      }
      var chunk := ChunkAt(p, document, offset);
      if chunk.None? {
        return Err(InvalidPng);
      }
      var c := chunk.value;
      ChunkIsPrintable(p, document, offset);
      NextIsRead(p, document, chunks, offset, c);
      if c.kind !in {IHDR, IDAT} {
        StopsHere(p, document, chunks, offset + 12 + |c.payload|, c);
        StoppedOutcome(p, document, chunks + [c], offset + 12 + |c.payload|);
      }
      TakenMeans(chunks, kinds, width, height);
      if c.kind !in {IHDR, IDAT, IEND} && |c.payload| > p.maxMetadataBytes {
        return Err(MetadataTooLarge);
      }
      if c.kind !in {IHDR, IDAT, IEND} {
        return Err(PngMetadata);
      }
      var nextWidth: nat, nextHeight: nat := width, height;
      if c.kind == IHDR {
        if kinds != [] || |c.payload| != 13 {
          HeaderRefused(chunks, c);
          return Err(InvalidPng);
        }
        nextWidth, nextHeight := Unpack(c.payload[..4]), Unpack(c.payload[4..8]);
      }
      TakeChunk(chunks, kinds, width, height, c, nextWidth, nextHeight);
      PassChunk(chunks, c);
      width, height := nextWidth, nextHeight;
      badEnd := c.kind == IEND && c.payload != [];
      kinds := kinds + [c.kind];
      chunks := chunks + [c];
      offset := offset + 12 + |c.payload|;
      ended := c.kind == IEND;
    }
    TakenMeans(chunks, kinds, width, height);
    if ended {
      EndOutcome(p, document, chunks, offset, kinds, width, height);
    } else {
      forall all: seq<Chunk>
        ensures !Led(p, document, all)
      {
        if Led(p, document, all) {
          AtEnd(p, document, chunks, offset, all);
        }
      }
      PassedOnly(chunks);
    }
    if kinds == [] || kinds[0] != IHDR || IDAT !in kinds || kinds[|kinds| - 1] != IEND || offset != |document| {
      return Err(InvalidPng);
    }
    if !p.cleanText(document) {
      return Err(UnsafeText);
    }
    if badEnd {
      return Err(InvalidPng);
    }
    if width == 0 || height == 0 || width * height > p.maxPixels {
      return Err(PixelLimit);
    }
    if !p.decodes(document, width, height) {
      return Err(RasterRejected);
    }
    r := Ok((width, height));
  }

  lemma LedMeans(p: Policy, document: Bytes)
    requires p.Valid()
    ensures forall all: seq<Chunk> :: Led(p, document, all) ==> 8 <= |document| && document[..8] == SIGNATURE
    ensures forall all: seq<Chunk> :: IsPng(p, document, all) ==>
              Led(p, document, all) && Outcome(p, document, all) == Verdict(p, document, all[0].payload)
    ensures forall all: seq<Chunk> :: Led(p, document, all) && Outcome(p, document, all).Ok? ==> IsPng(p, document, all)
  {
    hide Policy.Valid, Print, PrintAll, Outcome, Verdict;
    forall all: seq<Chunk> | IsPng(p, document, all)
      ensures Led(p, document, all) && Outcome(p, document, all) == Verdict(p, document, all[0].payload)
    {
      PrintedOutcome(p, document, all);
    }
    forall all: seq<Chunk> | Led(p, document, all) && Outcome(p, document, all).Ok?
      ensures IsPng(p, document, all)
    {
      AcceptedIsPrinted(p, document, all);
    }
  }

  lemma Start(p: Policy, document: Bytes)
    requires p.Valid() && 8 <= |document| && document[..8] == SIGNATURE
    ensures Walked(p, document, [], 8) && Taken([], [], 0, 0) && Passing([])
  {
    assert SIGNATURE + PrintAll(p, []) == SIGNATURE;
  }

  ghost predicate Comes(c: Chunk, badEnd: bool) {
    c.kind == IEND && badEnd == (c.payload != [])
  }

  lemma ChunkIsPrintable(p: Policy, document: Bytes, offset: nat)
    requires ChunkAt(p, document, offset).Some?
    ensures Printable(ChunkAt(p, document, offset).value)
    ensures offset + 12 + |ChunkAt(p, document, offset).value.payload| <= |document|
  {
  }

  lemma StoppedOutcome(p: Policy, document: Bytes, all: seq<Chunk>, offset: nat)
    requires p.Valid() && StopsAt(p, document, all, offset)
    ensures Led(p, document, all)
    ensures all[|all| - 1].kind != IEND ==>
              Outcome(p, document, all)
              == Err(if |all[|all| - 1].payload| > p.maxMetadataBytes then MetadataTooLarge else PngMetadata)
  {
  }

  lemma HeaderRefused(chunks: seq<Chunk>, c: Chunk)
    requires c.kind == IHDR && (chunks != [] || |c.payload| != 13)
    ensures !Passing(chunks + [c])
  {
    assert (chunks + [c])[|chunks|] == c;
    KindsDiffer();
  }

  lemma PassChunk(chunks: seq<Chunk>, c: Chunk)
    requires Passing(chunks) && (c.kind == IHDR ==> chunks == [] && |c.payload| == 13)
    ensures c.kind in {IHDR, IDAT} ==> Passing(chunks + [c])
  {
  }

  lemma PassedOnly(chunks: seq<Chunk>)
    requires Passing(chunks)
    ensures forall c :: c in chunks ==> c.kind in {IHDR, IDAT} && c.kind != IEND
  {
    KindsDiffer();
  }

  // ---------- the length bound of the specification ----------

  /** Section 5.3 of the PNG specification: a length is at most 2^31 - 1. */
  const MAX_LENGTH: nat := 0x7FFF_FFFF

  ghost predicate WithinLengths(chunks: seq<Chunk>) {
    forall c :: c in chunks ==> |c.payload| <= MAX_LENGTH
  }

  /** What a printer that keeps to this bound emits. */
  ghost predicate IsSpecPng(p: Policy, document: Bytes, chunks: seq<Chunk>)
    requires p.Valid()
  {
    IsPng(p, document, chunks) && WithinLengths(chunks)
  }

  /** A printed document is also printed within the bound exactly when no chunk of it is too long. */
  lemma SpecExactlyWhen(p: Policy, document: Bytes, all: seq<Chunk>)
    requires p.Valid() && IsPng(p, document, all)
    ensures (exists spec: seq<Chunk> :: IsSpecPng(p, document, spec)) <==> WithinLengths(all)
  {
    hide Print, PrintAll, Policy.Valid, Printable;
    if WithinLengths(all) {
      assert IsSpecPng(p, document, all);
    }
    forall spec: seq<Chunk> | IsSpecPng(p, document, spec)
      ensures WithinLengths(all)
    {
      OneLayout(p, document, all, spec);
    }
  }

  lemma OneLayout(p: Policy, document: Bytes, a: seq<Chunk>, b: seq<Chunk>)
    requires p.Valid() && IsPng(p, document, a) && IsPng(p, document, b)
    ensures a == b
  {
    hide Print, PrintAll, Policy.Valid, Printable, IsPng;
    var n := if |a| <= |b| then |a| else |b|;
    PrintUnique(p, document, a, b, n);
    LastIsEnd(p, document, a, b, n);
  }

  /** The end chunk ends a layout, so no layout goes on where another is over. */
  lemma LastIsEnd(p: Policy, document: Bytes, a: seq<Chunk>, b: seq<Chunk>, n: nat)
    requires p.Valid() && IsPng(p, document, a) && IsPng(p, document, b)
    requires n == (if |a| <= |b| then |a| else |b|) && a[..n] == b[..n]
    ensures a == b
  {
    hide Print, PrintAll, Policy.Valid, Printable;
    KindsDiffer();
    assert n >= 3 && a[n - 1] == a[..n][n - 1] == b[n - 1];
  }

  lemma {:induction false} PayloadsFit(p: Policy, chunks: seq<Chunk>, c: Chunk)
    requires p.Valid() && (forall x :: x in chunks ==> Printable(x)) && c in chunks
    ensures |c.payload| <= |PrintAll(p, chunks)|
    decreases |chunks|
  {
    hide Policy.Valid, Printable;
    var front := chunks[..|chunks| - 1];
    if c != chunks[|chunks| - 1] {
      assert c in front;
      PayloadsFit(p, front, c);
    }
  }

  /** A document below 2^31 bytes is printed within the bound exactly when it is printed at all. */
  lemma ShortDocuments(p: Policy, document: Bytes, all: seq<Chunk>)
    requires p.Valid() && |document| <= MAX_LENGTH
    ensures IsPng(p, document, all) <==> IsSpecPng(p, document, all)
  {
    if IsPng(p, document, all) {
      forall c | c in all
        ensures |c.payload| <= MAX_LENGTH
      {
        PayloadsFit(p, all, c);
      }
    }
  }

  /** The scan of a document named as a PNG. With a file limit below 2^31 bytes it accepts exactly
      what a printer that keeps to the length bound emits, if text, dimensions and raster pass. */
  method ScanDocument(p: Policy, document: Bytes) returns (r: Result<(nat, nat), Violation>)
    requires p.Valid()
    ensures |document| > p.maxFileBytes ==> r == Err(FileTooLarge)
    ensures |document| <= p.maxFileBytes ==>
              forall all: seq<Chunk> :: IsPng(p, document, all) ==> r == Verdict(p, document, all[0].payload)
    ensures r.Ok? ==> exists all: seq<Chunk> :: IsPng(p, document, all)
    ensures |document| <= p.maxFileBytes ==>
              forall all: seq<Chunk> :: Led(p, document, all) ==> r == Outcome(p, document, all)
    ensures |document| <= p.maxFileBytes && (forall all: seq<Chunk> :: !Led(p, document, all)) ==> r == Err(InvalidPng)
    ensures p.maxFileBytes <= MAX_LENGTH && |document| <= p.maxFileBytes ==>
              forall all: seq<Chunk> :: IsSpecPng(p, document, all) ==> r == Verdict(p, document, all[0].payload)
    ensures p.maxFileBytes <= MAX_LENGTH && r.Ok? ==> exists all: seq<Chunk> :: IsSpecPng(p, document, all)
  {
    hide Print, PrintAll, Policy.Valid, Printable, Verdict, Layout, Led, Outcome;
    if |document| > p.maxFileBytes {
      return Err(FileTooLarge);
    }
    r := ScanPng(p, document);
    if r.Ok? && p.maxFileBytes <= MAX_LENGTH {
      ghost var all: seq<Chunk> :| IsPng(p, document, all);
      ShortDocuments(p, document, all);
    }
  }

  /** A layout with one chunk beyond the length bound. */
  ghost function LongChunks(): seq<Chunk> {
    [Chunk(IHDR, Pack(1) + Pack(1) + [8, 0, 0, 0, 0]), Chunk(IDAT, seq(0x8000_0000, i => 0)), Chunk(IEND, [])]
  }

  ghost function LongDocument(p: Policy): Bytes
    requires p.Valid()
  {
    LongIsPrintable();
    SIGNATURE + PrintAll(p, LongChunks())
  }

  lemma LongIsPrintable()
    ensures Layout(LongChunks()) && forall c :: c in LongChunks() ==> Printable(c)
    ensures |LongChunks()[1].payload| == 0x8000_0000 && |LongChunks()[0].payload| == 13
  {
    hide Pack;
  }

  /** Where the file limit lets it through, this document is accepted like any other, although no
      printer that keeps to the bound emits it. */
  lemma LongChunkAccepted(p: Policy)
    requires p.Valid()
    ensures Layout(LongChunks()) && IsPng(p, LongDocument(p), LongChunks())
    ensures !exists spec: seq<Chunk> :: IsSpecPng(p, LongDocument(p), spec)
    ensures p.cleanText(LongDocument(p)) && p.maxPixels >= 1 && p.decodes(LongDocument(p), 1, 1) ==>
              Verdict(p, LongDocument(p), LongChunks()[0].payload) == Ok((1, 1))
  {
    LongIsPrintable();
    hide Print, PrintAll, Policy.Valid, Printable, Layout;
    SpecExactlyWhen(p, LongDocument(p), LongChunks());
    assert LongChunks()[1] in LongChunks();
    var header := LongChunks()[0].payload;
    assert header[..4] == Pack(1) && header[4..8] == Pack(1);
    UnpackPack(1);
  }
}
