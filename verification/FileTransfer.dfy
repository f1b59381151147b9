/**
 Attachments: chunk geometry, the streamed ciphertext, the offset loop that cuts it into
 envelopes, and the way back.
 */
module FileTransfer {
  import opened Common
  import opened Crypto

  const NONCE_LEN := 24
  const TAG_LEN := 16
  const OVERHEAD := NONCE_LEN + TAG_LEN

  // ------------------------------------------------------------------- ideal chunk sealing

  /** The per-file key, derived from the SVK and the file id. */
  datatype Fek = Fek(svk: Svk, file: Uuid)

  /** One octet of a sealed chunk; it tells which chunk it belongs to and where. */
  datatype Octet = Octet(fek: Fek, file: Uuid, index: nat, chunk: seq<Byte>, pos: nat)

  /** nonce || ciphertext || tag */
  function Seal(fek: Fek, file: Uuid, index: nat, chunk: seq<Byte>): (e: seq<Octet>)
    ensures |e| == |chunk| + OVERHEAD
  {
    seq(|chunk| + OVERHEAD, i requires 0 <= i < |chunk| + OVERHEAD => Octet(fek, file, index, chunk, i))
  }

  /** The reader recomputes the nonce, so only the part after it is looked at. */
  function OpenChunk(fek: Fek, file: Uuid, index: nat, body: seq<Octet>): Option<seq<Byte>> {
    if |body| >= TAG_LEN && body == Seal(fek, file, index, body[0].chunk)[NONCE_LEN..] then Some(body[0].chunk) else None
  }

  // ------------------------------------------------------------------- manifests

  function Min(a: nat, b: nat): nat { if a < b then a else b }

  datatype Manifest = Manifest(file: Uuid, totalSize: nat, chunkSize: nat, totalChunks: nat, fekWrapped: Option<Sealed<Fek>>)

  /** Ceiling division by repeated subtraction (see `ChunksIsCeiling`): the chunks of a stream. */
  function Chunks(n: nat, c: nat): nat
    requires c > 0
    decreases n
  {
    if n == 0 then 0 else 1 + Chunks(n - Min(n, c), c)
  }

  /** Ceiling division, at least one chunk, cut to 32 bits. */
  function ChunkCount(size: nat, chunkSize: nat): nat
    requires chunkSize > 0
  {
    var n := Chunks(size, chunkSize);
    (if n < 1 then 1 else n) % U32
  }

  function ChunkLen(m: Manifest, index: nat): nat {
    var offset := index * m.chunkSize;
    var rest := if m.totalSize < offset then 0 else m.totalSize - offset;
    if rest < m.chunkSize then rest else m.chunkSize
  }

  predicate ValidManifest(m: Manifest) {
    m.chunkSize > 0 && m.totalChunks == ChunkCount(m.totalSize, m.chunkSize)
  }

  /** The key envelope on the manifest must open under the current SVK; only its absence falls back. */
  function ResolveFek(svk: Svk, m: Manifest): Option<Fek> {
    match m.fekWrapped
    case Some(w) => Open(Root(svk), m.file, 0, w)
    case None => Some(Fek(svk, m.file))
  }

  function NewManifest(svk: Svk, file: Uuid, size: nat, chunkSize: nat): Manifest
    requires chunkSize > 0
  {
    Manifest(file, size, chunkSize, ChunkCount(size, chunkSize), Some(Sealed(Root(svk), file, 0, Fek(svk, file))))
  }

  // ------------------------------------------------------------------- streams

  /** `encrypt_file_stream` on what is left of the plaintext. */
  function EncryptStream(fek: Fek, file: Uuid, c: nat, rest: seq<Byte>, index: nat): seq<Octet>
    requires c > 0
    decreases |rest|
  {
    if rest == [] then []
    else
      var n := Min(|rest|, c);
      Seal(fek, file, index, rest[..n]) + EncryptStream(fek, file, c, rest[n..], (index + 1) % U32)
  }

  /** The envelopes the upload loop cuts from the ciphertext that is left at `index`. */
  function CutFrom(ct: seq<Octet>, m: Manifest, index: nat): seq<seq<Octet>>
    requires index <= m.totalChunks
    decreases m.totalChunks - index
  {
    if index == m.totalChunks then []
    else
      var n := Min(ChunkLen(m, index) + OVERHEAD, |ct|);
      [ct[..n]] + CutFrom(ct[n..], m, index + 1)
  }

  function Flatten(envelopes: seq<seq<Octet>>): seq<Octet>
    decreases |envelopes|
  {
    if envelopes == [] then [] else envelopes[0] + Flatten(envelopes[1..])
  }

  /** `decrypt_file_stream`: chunk by chunk, refusing short, altered and trailing input. */
  function DecryptStream(fek: Fek, m: Manifest, ct: seq<Octet>, remaining: nat, index: nat): Option<seq<Byte>>
    requires m.chunkSize > 0
    decreases |ct|
  {
    if remaining == 0 then (if ct == [] then Some([]) else None)
    else
      var n := NONCE_LEN + ChunkLen(m, index) + TAG_LEN;
      if |ct| < n then None
      else
        match OpenChunk(fek, m.file, index, ct[NONCE_LEN..n])
        case None => None
        case Some(chunk) =>
          if |chunk| != ChunkLen(m, index) || |chunk| > remaining then None
          else
            match DecryptStream(fek, m, ct[n..], remaining - |chunk|, (index + 1) % U32)
            case None => None
            case Some(more) => Some(chunk + more)
  }

  function Upload(svk: Svk, file: Uuid, plain: seq<Byte>, c: nat): (Manifest, seq<seq<Octet>>)
    requires c > 0
  {
    var m := NewManifest(svk, file, |plain|, c);
    (m, CutFrom(EncryptStream(Fek(svk, file), file, c, plain, 0), m, 0))
  }

  /** A manifest whose numbers do not agree is refused. */
  function Decrypt(fek: Fek, m: Manifest, ct: seq<Octet>): Option<seq<Byte>> {
    if ValidManifest(m) then DecryptStream(fek, m, ct, m.totalSize, 0) else None
  }

  function Download(svk: Svk, m: Manifest, envelopes: seq<seq<Octet>>): Option<seq<Byte>> {
    match ResolveFek(svk, m)
    case None => None
    case Some(fek) => Decrypt(fek, m, Flatten(envelopes))
  }

  // ------------------------------------------------------------------- geometry

  lemma MulMonotone(a: nat, b: nat, c: nat)
    ensures a <= b ==> a * c <= b * c
  {
  }

  lemma QuotientIsUnique(x: nat, c: nat, q: nat)
    requires c > 0 && q * c <= x < q * c + c
    ensures x / c == q
  {
    var d := x / c;
    assert d * c <= x < d * c + c;
    MulMonotone(d + 1, q, c);
    MulMonotone(q + 1, d, c);
  }

  lemma DivShift(x: nat, c: nat)
    requires c > 0
    ensures (x + c) / c == x / c + 1
  {
    var d := x / c;
    assert d * c <= x < d * c + c && (d + 1) * c == d * c + c;
    QuotientIsUnique(x + c, c, d + 1);
  }

  /** The chunk count is `div_ceil`. */
  lemma {:induction false} ChunksIsCeiling(n: nat, c: nat)
    requires c > 0
    ensures Chunks(n, c) == (n + c - 1) / c
    decreases n
  {
    if n == 0 {
      QuotientIsUnique(c - 1, c, 0);
    } else if n <= c {
      QuotientIsUnique(n + c - 1, c, 1);
      assert Chunks(0, c) == 0;
    } else {
      ChunksIsCeiling(n - c, c);
      DivShift(n - 1, c);
    }
  }

  /** The ciphertext is as long as the plaintext plus forty octets for each sealed chunk. */
  lemma {:induction false} CiphertextLength(fek: Fek, file: Uuid, c: nat, rest: seq<Byte>, index: nat)
    requires c > 0
    ensures |EncryptStream(fek, file, c, rest, index)| == |rest| + OVERHEAD * Chunks(|rest|, c)
    decreases |rest|
  {
    if rest != [] {
      CiphertextLength(fek, file, c, rest[Min(|rest|, c)..], (index + 1) % U32);
    }
  }

  /** In the manifest's terms that is `total_size + total_chunks * 40`, except for the empty file,
      whose one chunk is never sealed. */
  lemma CiphertextLengthIff(svk: Svk, file: Uuid, plain: seq<Byte>, c: nat)
    requires c > 0 && Chunks(|plain|, c) < U32
    ensures var m := NewManifest(svk, file, |plain|, c);
            (|EncryptStream(Fek(svk, file), file, c, plain, 0)| == m.totalSize + OVERHEAD * m.totalChunks
             <==> plain != [])
  {
    CiphertextLength(Fek(svk, file), file, c, plain, 0);
  }

  /** At its own place in the file, a chunk has the length the manifest computes for it. */
  ghost predicate InPlace(m: Manifest, rest: seq<Byte>, index: nat) {
    Start(m.chunkSize, index) + |rest| == m.totalSize
  }

  /** `index * c` by repeated addition. */
  ghost function Start(c: nat, index: nat): nat {
    if index == 0 then 0 else Start(c, index - 1) + c
  }

  lemma {:induction false} StartIsProduct(c: nat, index: nat)
    ensures Start(c, index) == index * c
  {
    if index > 0 {
      StartIsProduct(c, index - 1);
      assert index * c == (index - 1) * c + c;
    }
  }

  lemma NextInPlace(m: Manifest, rest: seq<Byte>, index: nat)
    requires m.chunkSize > 0 && rest != [] && InPlace(m, rest, index)
    ensures ChunkLen(m, index) == Min(|rest|, m.chunkSize)
    ensures |rest| >= m.chunkSize ==> InPlace(m, rest[m.chunkSize..], index + 1)
  {
    StartIsProduct(m.chunkSize, index);
  }

  // ------------------------------------------------------------------- cutting

  /** The first `k` sealed chunks of the stream. */
  function FirstChunks(fek: Fek, file: Uuid, c: nat, rest: seq<Byte>, index: nat, k: nat): seq<seq<Octet>>
    requires c > 0
    decreases k
  {
    if k == 0 || rest == [] then []
    else
      var n := Min(|rest|, c);
      [Seal(fek, file, index, rest[..n])] + FirstChunks(fek, file, c, rest[n..], (index + 1) % U32, k - 1)
  }

  lemma ChunksOfRest(n: nat, c: nat)
    requires c > 0 && n > 0
    ensures Chunks(n, c) == 1 + Chunks(n - Min(n, c), c)
  {
  }

  /** The offset loop cuts exactly the sealed chunks, one per index, as far as the count goes. */
  lemma {:induction false} CutIsSealedChunks(fek: Fek, m: Manifest, rest: seq<Byte>, index: nat)
    requires m.chunkSize > 0 && index <= m.totalChunks < U32
    requires InPlace(m, rest, index) && m.totalChunks - index <= Chunks(|rest|, m.chunkSize)
    ensures CutFrom(EncryptStream(fek, m.file, m.chunkSize, rest, index), m, index)
         == FirstChunks(fek, m.file, m.chunkSize, rest, index, m.totalChunks - index)
    decreases |rest|
  {
    var c := m.chunkSize;
    if index < m.totalChunks {
      var n := Min(|rest|, c);
      NextChunk(m, rest, index);
      CutOne(fek, m, rest, index);
      if index + 1 < m.totalChunks {
        CutIsSealedChunks(fek, m, rest[n..], index + 1);
      }
      FirstOfChunks(fek, m.file, c, rest, index, m.totalChunks - index);
    }
  }

  lemma FirstOfChunks(fek: Fek, file: Uuid, c: nat, rest: seq<Byte>, index: nat, k: nat)
    requires c > 0 && rest != [] && k > 0
    ensures var n := Min(|rest|, c);
            FirstChunks(fek, file, c, rest, index, k)
            == [Seal(fek, file, index, rest[..n])] + FirstChunks(fek, file, c, rest[n..], (index + 1) % U32, k - 1)
  {
  }

  /** One round of the offset loop cuts one sealed chunk. */
  lemma CutOne(fek: Fek, m: Manifest, rest: seq<Byte>, index: nat)
    requires m.chunkSize > 0 && index < m.totalChunks && rest != [] && InPlace(m, rest, index)
    ensures var n := Min(|rest|, m.chunkSize);
            CutFrom(EncryptStream(fek, m.file, m.chunkSize, rest, index), m, index)
            == [Seal(fek, m.file, index, rest[..n])]
               + CutFrom(EncryptStream(fek, m.file, m.chunkSize, rest[n..], (index + 1) % U32), m, index + 1)
  {
    var n := Min(|rest|, m.chunkSize);
    NextInPlace(m, rest, index);
    var first := Seal(fek, m.file, index, rest[..n]);
    var later := EncryptStream(fek, m.file, m.chunkSize, rest[n..], (index + 1) % U32);
    assert (first + later)[..n + OVERHEAD] == first && (first + later)[n + OVERHEAD..] == later;
  }

  /** All of the sealed chunks, glued together, are the ciphertext. */
  lemma {:induction false} ChunksMakeTheStream(fek: Fek, file: Uuid, c: nat, rest: seq<Byte>, index: nat)
    requires c > 0
    ensures Flatten(FirstChunks(fek, file, c, rest, index, Chunks(|rest|, c))) == EncryptStream(fek, file, c, rest, index)
    decreases |rest|
  {
    if rest != [] {
      var n := Min(|rest|, c);
      ChunksMakeTheStream(fek, file, c, rest[n..], (index + 1) % U32);
      var tail := FirstChunks(fek, file, c, rest[n..], (index + 1) % U32, Chunks(|rest| - n, c));
      assert ([Seal(fek, file, index, rest[..n])] + tail)[1..] == tail;
    }
  }

  // ------------------------------------------------------------------- round trip

  lemma SealedOpens(fek: Fek, file: Uuid, index: nat, chunk: seq<Byte>)
    ensures OpenChunk(fek, file, index, Seal(fek, file, index, chunk)[NONCE_LEN..]) == Some(chunk)
  {
    var body := Seal(fek, file, index, chunk)[NONCE_LEN..];
    assert body[0].chunk == chunk;
  }

  /** The plaintext so far, then the rest, if the rest can be read. */
  function Continued(out: seq<Byte>, more: Option<seq<Byte>>): Option<seq<Byte>> {
    if more.None? then None else Some(out + more.value)
  }

  /** Reading one sealed chunk in its place. */
  lemma DecryptOne(fek: Fek, m: Manifest, rest: seq<Byte>, index: nat, later: seq<Octet>, n: nat, left: nat, next: nat)
    requires m.chunkSize > 0 && rest != [] && InPlace(m, rest, index)
    requires n == Min(|rest|, m.chunkSize) && left == |rest| - n && next == (index + 1) % U32
    ensures DecryptStream(fek, m, Seal(fek, m.file, index, rest[..n]) + later, |rest|, index)
         == Continued(rest[..n], DecryptStream(fek, m, later, left, next))
  {
    NextInPlace(m, rest, index);
    var first := Seal(fek, m.file, index, rest[..n]);
    var ct, len := first + later, NONCE_LEN + n + TAG_LEN;
    assert ct[NONCE_LEN..len] == first[NONCE_LEN..] && ct[len..] == later;
    SealedOpens(fek, m.file, index, rest[..n]);
  }

  function DecryptFirst(fek: Fek, m: Manifest, rest: seq<Byte>, index: nat, k: nat): Option<seq<Byte>>
    requires m.chunkSize > 0
  {
    DecryptStream(fek, m, Flatten(FirstChunks(fek, m.file, m.chunkSize, rest, index, k)), |rest|, index)
  }

  /** Decrypting the first `k` chunks gives the plaintext if they are all there, and fails if not. */
  lemma {:induction false} DecryptFirstChunks(fek: Fek, m: Manifest, rest: seq<Byte>, index: nat, k: nat)
    requires m.chunkSize > 0 && k <= Chunks(|rest|, m.chunkSize) && index + k < U32
    requires rest != [] ==> InPlace(m, rest, index)
    ensures DecryptFirst(fek, m, rest, index, k) == if k == Chunks(|rest|, m.chunkSize) then Some(rest) else None
    decreases k
  {
    var c := m.chunkSize;
    if k == 0 {
      NothingToRead(fek, m, rest, index);
    } else {
      assert rest != [];
      var n := Min(|rest|, c);
      NextChunk(m, rest, index);
      DecryptFirstChunks(fek, m, rest[n..], index + 1, k - 1);
      DecryptFirstOf(fek, m, rest, index, k);
      PutTogether(rest, n, DecryptFirst(fek, m, rest, index, k), DecryptFirst(fek, m, rest[n..], index + 1, k - 1));
    }
  }

  lemma PutTogether(rest: seq<Byte>, n: nat, whole: Option<seq<Byte>>, part: Option<seq<Byte>>)
    requires n <= |rest| && whole == Continued(rest[..n], part)
    ensures part == Some(rest[n..]) ==> whole == Some(rest)
    ensures part == None ==> whole == None
  {
    assert rest[..n] + rest[n..] == rest;
  }

  /** The first chunk, then the others. */
  lemma DecryptFirstOf(fek: Fek, m: Manifest, rest: seq<Byte>, index: nat, k: nat)
    requires m.chunkSize > 0 && rest != [] && InPlace(m, rest, index) && k > 0 && index + 1 < U32
    ensures var n := Min(|rest|, m.chunkSize);
            (DecryptFirst(fek, m, rest, index, k) == Continued(rest[..n], DecryptFirst(fek, m, rest[n..], index + 1, k - 1)))
  {
    var n := Min(|rest|, m.chunkSize);
    var tail := FirstChunks(fek, m.file, m.chunkSize, rest[n..], index + 1, k - 1);
    assert Flatten(FirstChunks(fek, m.file, m.chunkSize, rest, index, k)) == Seal(fek, m.file, index, rest[..n]) + Flatten(tail) by {
      FirstOfChunks(fek, m.file, m.chunkSize, rest, index, k);
      FlattenCons(Seal(fek, m.file, index, rest[..n]), tail);
    }
    DecryptOne(fek, m, rest, index, Flatten(tail), n, |rest[n..]|, index + 1);
  }

  lemma NextChunk(m: Manifest, rest: seq<Byte>, index: nat)
    requires m.chunkSize > 0 && rest != [] && InPlace(m, rest, index) && index + 1 < U32
    ensures var n := Min(|rest|, m.chunkSize);
            && Chunks(|rest|, m.chunkSize) == 1 + Chunks(|rest[n..]|, m.chunkSize)
            && (rest[n..] != [] ==> InPlace(m, rest[n..], index + 1))
            && (index + 1) % U32 == index + 1
  {
    NextInPlace(m, rest, index);
  }

  lemma FlattenCons(first: seq<Octet>, tail: seq<seq<Octet>>)
    ensures Flatten([first] + tail) == first + Flatten(tail)
  {
    assert ([first] + tail)[1..] == tail;
  }

  lemma NothingToRead(fek: Fek, m: Manifest, rest: seq<Byte>, index: nat)
    requires m.chunkSize > 0
    ensures DecryptFirst(fek, m, rest, index, 0) == if 0 == Chunks(|rest|, m.chunkSize) then Some(rest) else None
  {
    assert Flatten(FirstChunks(fek, m.file, m.chunkSize, rest, index, 0)) == [];
    if rest != [] {
      ChunksOfRest(|rest|, m.chunkSize);
    }
  }

  lemma NonEmptyRoundTrip(fek: Fek, m: Manifest, plain: seq<Byte>)
    requires m.chunkSize > 0 && plain != [] && m.totalSize == |plain|
    requires m.totalChunks <= Chunks(|plain|, m.chunkSize) && m.totalChunks < U32
    ensures var envelopes := CutFrom(EncryptStream(fek, m.file, m.chunkSize, plain, 0), m, 0);
            && DecryptStream(fek, m, Flatten(envelopes), |plain|, 0)
               == (if m.totalChunks == Chunks(|plain|, m.chunkSize) then Some(plain) else None)
            && (m.totalChunks == Chunks(|plain|, m.chunkSize) ==>
                  Flatten(envelopes) == EncryptStream(fek, m.file, m.chunkSize, plain, 0))
  {
    assert InPlace(m, plain, 0);
    CutIsSealedChunks(fek, m, plain, 0);
    DecryptFirstChunks(fek, m, plain, 0, m.totalChunks);
    ChunksMakeTheStream(fek, m.file, m.chunkSize, plain, 0);
  }

  lemma CountFits(n: nat)
    ensures n % U32 <= n && n % U32 < U32 && (n % U32 == n <==> n < U32)
  {
  }

  /** Upload then download: the plaintext comes back exactly when the key envelope opens under the
      downloader's SVK and the chunk count fits its 32 bits; otherwise the download fails. */
  lemma RoundTripIff(svk: Svk, other: Svk, file: Uuid, plain: seq<Byte>, c: nat)
    requires c > 0
    ensures var (m, envelopes) := Upload(svk, file, plain, c);
            Download(other, m, envelopes) == if other == svk && Chunks(|plain|, c) < U32 then Some(plain) else None
  {
    var fek := Fek(svk, file);
    var m := NewManifest(svk, file, |plain|, c);
    if plain == [] {
      EmptyFile(m);
    } else {
      ChunksOfRest(|plain|, c);
      CountFits(Chunks(|plain|, c));
      NonEmptyRoundTrip(fek, m, plain);
    }
  }

  lemma EmptyFile(m: Manifest)
    requires m.totalSize == 0 && m.totalChunks == 1
    ensures Flatten(CutFrom([], m, 0)) == []
  {
    assert CutFrom([], m, 1) == [];
    var cut := CutFrom([], m, 0);
    assert cut[0] == [] && cut[1..] == [];
  }

  /** The envelopes are consecutive, in bounds, and together the whole ciphertext. */
  lemma EnvelopesMakeTheCiphertext(svk: Svk, file: Uuid, plain: seq<Byte>, c: nat)
    requires c > 0 && Chunks(|plain|, c) < U32
    ensures Flatten(Upload(svk, file, plain, c).1) == EncryptStream(Fek(svk, file), file, c, plain, 0)
  {
    var m := NewManifest(svk, file, |plain|, c);
    if plain == [] {
      EmptyFile(m);
    } else {
      ChunksOfRest(|plain|, c);
      CountFits(Chunks(|plain|, c));
      NonEmptyRoundTrip(Fek(svk, file), m, plain);
    }
  }

  /** Where chunk `j` of the plaintext begins and ends. */
  ghost function Slice(plain: seq<Byte>, c: nat, j: nat): seq<Byte>
    requires Start(c, j) <= |plain|
  {
    plain[Start(c, j)..Min(Start(c, j) + c, |plain|)]
  }

  lemma {:induction false} StartOn(c: nat, j: nat)
    ensures Start(c, j + 1) == c + Start(c, j)
  {
    if j > 0 {
      StartOn(c, j - 1);
    }
  }

  lemma {:induction false} StartsInside(n: nat, c: nat, j: nat)
    requires c > 0 && j < Chunks(n, c)
    ensures Start(c, j) < n
    decreases j
  {
    ChunksOfRest(n, c);
    if j > 0 {
      StartsInside(n - Min(n, c), c, j - 1);
      StartOn(c, j - 1);
    }
  }

  lemma SliceOn(rest: seq<Byte>, c: nat, j: nat)
    requires c > 0 && c <= |rest| && Start(c, j) <= |rest| - c
    ensures Start(c, j + 1) <= |rest| && Slice(rest[c..], c, j) == Slice(rest, c, j + 1)
  {
    StartOn(c, j);
  }

  lemma {:induction false} FirstChunksCount(fek: Fek, file: Uuid, c: nat, rest: seq<Byte>, index: nat, k: nat)
    requires c > 0 && k <= Chunks(|rest|, c)
    ensures |FirstChunks(fek, file, c, rest, index, k)| == k
    decreases k
  {
    if k > 0 {
      ChunksOfRest(|rest|, c);
      FirstChunksCount(fek, file, c, rest[Min(|rest|, c)..], (index + 1) % U32, k - 1);
    }
  }

  lemma {:induction false} ChunkIs(fek: Fek, file: Uuid, c: nat, rest: seq<Byte>, index: nat, k: nat, j: nat)
    requires c > 0 && j < k <= Chunks(|rest|, c) && index + k < U32
    ensures |FirstChunks(fek, file, c, rest, index, k)| == k && Start(c, j) < |rest|
    ensures FirstChunks(fek, file, c, rest, index, k)[j] == Seal(fek, file, index + j, Slice(rest, c, j))
    decreases k
  {
    FirstChunksCount(fek, file, c, rest, index, k);
    StartsInside(|rest|, c, j);
    ChunksOfRest(|rest|, c);
    FirstOfChunks(fek, file, c, rest, index, k);
    if j > 0 {
      var n := Min(|rest|, c);
      LaterChunkIs(fek, file, c, rest, index, k, j);
      ChunkIs(fek, file, c, rest[n..], index + 1, k - 1, j - 1);
    }
  }

  lemma LaterChunkIs(fek: Fek, file: Uuid, c: nat, rest: seq<Byte>, index: nat, k: nat, j: nat)
    requires c > 0 && 0 < j < k <= Chunks(|rest|, c) && index + k < U32
    ensures |rest| > c && Min(|rest|, c) == c && (index + 1) % U32 == index + 1
    ensures k - 1 <= Chunks(|rest[c..]|, c) && Start(c, j) <= |rest| && Start(c, j - 1) <= |rest[c..]|
    ensures Slice(rest[c..], c, j - 1) == Slice(rest, c, j)
  {
    ChunksOfRest(|rest|, c);
    StartsInside(|rest|, c, j);
    StartOn(c, j - 1);
    SliceOn(rest, c, j - 1);
  }

  /** Envelope `j` of an upload is the `j`-th chunk of the plaintext sealed under its own number, so
      envelopes cannot change places. */
  lemma EnvelopeIs(svk: Svk, file: Uuid, plain: seq<Byte>, c: nat, j: nat)
    requires c > 0 && j < Chunks(|plain|, c) < U32
    ensures var (m, envelopes) := Upload(svk, file, plain, c);
            && |envelopes| == m.totalChunks == Chunks(|plain|, c) && Start(c, j) < |plain|
            && envelopes[j] == Seal(Fek(svk, file), file, j, Slice(plain, c, j))
  {
    var m := NewManifest(svk, file, |plain|, c);
    CountFits(Chunks(|plain|, c));
    CutIsSealedChunks(Fek(svk, file), m, plain, 0);
    ChunkIs(Fek(svk, file), file, c, plain, 0, m.totalChunks, j);
  }

  // ------------------------------------------------------------------- reported progress

  /** Bytes reported after chunk `i`. */
  function Transferred(m: Manifest, i: nat): nat {
    Min((i + 1) * m.chunkSize, m.totalSize)
  }

  function Progress(m: Manifest): seq<nat> {
    seq(m.totalChunks, i requires 0 <= i < m.totalChunks => Transferred(m, i))
  }

  lemma {:induction false} ChunksCover(n: nat, c: nat)
    requires c > 0
    ensures Chunks(n, c) * c >= n
    decreases n
  {
    if n > 0 {
      var rest := Chunks(n - Min(n, c), c);
      ChunksCover(n - Min(n, c), c);
      assert (rest + 1) * c == rest * c + c;
    }
  }

  /** Reported bytes never go back and end at the file's size. */
  lemma ProgressReachesTheTotal(svk: Svk, file: Uuid, size: nat, c: nat)
    requires c > 0 && Chunks(size, c) < U32
    ensures var m := NewManifest(svk, file, size, c);
            var reported := Progress(m);
            && reported != [] && reported[|reported| - 1] == size
            && forall i, j | 0 <= i <= j < |reported| :: reported[i] <= reported[j]
  {
    var m := NewManifest(svk, file, size, c);
    ProgressEnds(m);
    forall i, j | 0 <= i <= j < |Progress(m)|
      ensures Progress(m)[i] <= Progress(m)[j]
    {
      ProgressGrows(m, i, j);
    }
  }

  lemma ProgressGrows(m: Manifest, i: nat, j: nat)
    requires i <= j < |Progress(m)|
    ensures Progress(m)[i] <= Progress(m)[j]
  {
    LaterReport(m, i, j);
  }

  lemma ProgressEnds(m: Manifest)
    requires ValidManifest(m) && Chunks(m.totalSize, m.chunkSize) < U32
    ensures Progress(m) != [] && Progress(m)[|Progress(m)| - 1] == m.totalSize
  {
    if m.totalSize > 0 {
      ChunksOfRest(m.totalSize, m.chunkSize);
      LastReport(m);
    }
  }

  lemma LaterReport(m: Manifest, i: nat, j: nat)
    requires i <= j
    ensures Transferred(m, i) <= Transferred(m, j)
  {
    MulMonotone(i + 1, j + 1, m.chunkSize);
  }

  /** The plaintext bytes in the first `n` chunks. */
  ghost function BytesIn(m: Manifest, n: nat): nat {
    if n == 0 then 0 else BytesIn(m, n - 1) + ChunkLen(m, n - 1)
  }

  /** What is reported after chunk `i` is what the chunks up to it hold. */
  lemma {:induction false} ReportIsBytesSent(m: Manifest, i: nat)
    ensures Transferred(m, i) == BytesIn(m, i + 1)
  {
    if i > 0 {
      ReportIsBytesSent(m, i - 1);
      assert (i + 1) * m.chunkSize == i * m.chunkSize + m.chunkSize;
    } else {
      assert BytesIn(m, 1) == BytesIn(m, 0) + ChunkLen(m, 0);
    }
  }

  lemma LastReport(m: Manifest)
    requires m.chunkSize > 0 && 0 < m.totalChunks == Chunks(m.totalSize, m.chunkSize)
    ensures Transferred(m, m.totalChunks - 1) == m.totalSize
  {
    ChunksCover(m.totalSize, m.chunkSize);
  }

  // ------------------------------------------------------------------- what is accepted

  /** The same octets, apart from the nonces, which the reader computes itself. */
  ghost predicate SameButNonces(ct: seq<Octet>, e: seq<Octet>) {
    |ct| == |e| && forall i | 0 <= i < |e| && e[i].pos >= NONCE_LEN :: ct[i] == e[i]
  }

  lemma SameSplits(ct: seq<Octet>, first: seq<Octet>, later: seq<Octet>)
    requires |ct| >= |first|
    ensures SameButNonces(ct, first + later)
       <==> SameButNonces(ct[..|first|], first) && SameButNonces(ct[|first|..], later)
  {
    var n := |first|;
    var whole := first + later;
    if SameButNonces(ct, whole) {
      assert forall i | 0 <= i < |later| :: later[i] == whole[n + i] && ct[n..][i] == ct[n + i];
      assert forall i | 0 <= i < n :: first[i] == whole[i];
    }
    if SameButNonces(ct[..n], first) && SameButNonces(ct[n..], later) {
      forall i | 0 <= i < |whole| && whole[i].pos >= NONCE_LEN
        ensures ct[i] == whole[i]
      {
        if i >= n {
          assert whole[i] == later[i - n] && ct[n..][i - n] == ct[i];
        } else {
          assert whole[i] == first[i] && ct[..n][i] == ct[i];
        }
      }
    }
  }

  lemma SameSeal(ct: seq<Octet>, fek: Fek, file: Uuid, index: nat, chunk: seq<Byte>)
    requires |ct| == |chunk| + OVERHEAD
    ensures SameButNonces(ct, Seal(fek, file, index, chunk)) <==> OpenChunk(fek, file, index, ct[NONCE_LEN..]) == Some(chunk)
  {
    var e := Seal(fek, file, index, chunk);
    var body := ct[NONCE_LEN..];
    if SameButNonces(ct, e) {
      assert forall i | 0 <= i < |body| :: body[i] == e[NONCE_LEN + i] && e[NONCE_LEN..][i] == e[NONCE_LEN + i];
      assert body == e[NONCE_LEN..];
      assert body[0].chunk == chunk;
    }
    if OpenChunk(fek, file, index, body) == Some(chunk) {
      forall i | 0 <= i < |e| && e[i].pos >= NONCE_LEN
        ensures ct[i] == e[i]
      {
        assert body[i - NONCE_LEN] == e[NONCE_LEN..][i - NONCE_LEN];
      }
    }
  }

  /** Still to be read at its place, and the chunk numbers do not run out. */
  ghost predicate Readable(m: Manifest, remaining: nat, index: nat) {
    && m.chunkSize > 0 && index + Chunks(remaining, m.chunkSize) < U32
    && (remaining > 0 ==> Start(m.chunkSize, index) + remaining == m.totalSize)
  }

  lemma ReadableOn(m: Manifest, remaining: nat, index: nat)
    requires Readable(m, remaining, index) && remaining > 0
    ensures var n := Min(remaining, m.chunkSize);
            ChunkLen(m, index) == n && (index + 1) % U32 == index + 1 && Readable(m, remaining - n, index + 1)
  {
    StartIsProduct(m.chunkSize, index);
  }

  /** Decryption accepts exactly the stream that encryption makes of the plaintext: nothing short,
      nothing altered outside the nonces, nothing out of place, nothing trailing. */
  lemma {:induction false} DecryptIff(fek: Fek, m: Manifest, ct: seq<Octet>, plain: seq<Byte>, remaining: nat, index: nat)
    requires Readable(m, remaining, index)
    ensures DecryptStream(fek, m, ct, remaining, index) == Some(plain)
       <==> |plain| == remaining && SameButNonces(ct, EncryptStream(fek, m.file, m.chunkSize, plain, index))
    decreases remaining
  {
    if |plain| != remaining {
      DecryptedLength(fek, m, ct, remaining, index);
    } else if remaining > 0 {
      ReadableOn(m, remaining, index);
      var n := Min(remaining, m.chunkSize);
      DecryptIffStep(fek, m, ct, plain, remaining, index, n);
      if |ct| >= n + OVERHEAD {
        DecryptIff(fek, m, ct[n + OVERHEAD..], plain[n..], remaining - n, index + 1);
      }
    }
  }

  lemma {:induction false} DecryptedLength(fek: Fek, m: Manifest, ct: seq<Octet>, remaining: nat, index: nat)
    requires m.chunkSize > 0
    ensures var r := DecryptStream(fek, m, ct, remaining, index); r.Some? ==> |r.value| == remaining
    decreases |ct|
  {
    var n := ChunkLen(m, index);
    if remaining > 0 && |ct| >= NONCE_LEN + n + TAG_LEN && n <= remaining {
      DecryptedLength(fek, m, ct[NONCE_LEN + n + TAG_LEN..], remaining - n, (index + 1) % U32);
    }
  }

  lemma DecryptIffStep(fek: Fek, m: Manifest, ct: seq<Octet>, plain: seq<Byte>, remaining: nat, index: nat, n: nat)
    requires Readable(m, remaining, index) && |plain| == remaining > 0 && n == Min(remaining, m.chunkSize)
    requires ChunkLen(m, index) == n && (index + 1) % U32 == index + 1
    ensures DecryptStream(fek, m, ct, remaining, index) == Some(plain)
       <==> && |ct| >= n + OVERHEAD && OpenChunk(fek, m.file, index, ct[NONCE_LEN..n + OVERHEAD]) == Some(plain[..n])
            && DecryptStream(fek, m, ct[n + OVERHEAD..], remaining - n, index + 1) == Some(plain[n..])
    ensures SameButNonces(ct, EncryptStream(fek, m.file, m.chunkSize, plain, index))
       <==> && |ct| >= n + OVERHEAD && OpenChunk(fek, m.file, index, ct[NONCE_LEN..n + OVERHEAD]) == Some(plain[..n])
            && SameButNonces(ct[n + OVERHEAD..], EncryptStream(fek, m.file, m.chunkSize, plain[n..], index + 1))
  {
    assert plain == plain[..n] + plain[n..];
    var first := Seal(fek, m.file, index, plain[..n]);
    var later := EncryptStream(fek, m.file, m.chunkSize, plain[n..], index + 1);
    if |ct| >= n + OVERHEAD {
      SameSplits(ct, first, later);
      SameSeal(ct[..n + OVERHEAD], fek, m.file, index, plain[..n]);
      assert ct[..n + OVERHEAD][NONCE_LEN..] == ct[NONCE_LEN..n + OVERHEAD];
      ReadsAsSplit(fek, m, ct, plain, remaining, index, n);
    }
  }

  lemma ReadsAsSplit(fek: Fek, m: Manifest, ct: seq<Octet>, plain: seq<Byte>, remaining: nat, index: nat, n: nat)
    requires m.chunkSize > 0 && |plain| == remaining > 0 && n <= remaining && |ct| >= n + OVERHEAD
    requires ChunkLen(m, index) == n && (index + 1) % U32 == index + 1
    ensures DecryptStream(fek, m, ct, remaining, index) == Some(plain)
       <==> && OpenChunk(fek, m.file, index, ct[NONCE_LEN..n + OVERHEAD]) == Some(plain[..n])
            && DecryptStream(fek, m, ct[n + OVERHEAD..], remaining - n, index + 1) == Some(plain[n..])
  {
    var chunk := OpenChunk(fek, m.file, index, ct[NONCE_LEN..n + OVERHEAD]);
    var more := DecryptStream(fek, m, ct[n + OVERHEAD..], remaining - n, index + 1);
    if chunk.Some? && |chunk.value| == n && more.Some? {
      assert chunk.value + more.value == plain <==> chunk.value == plain[..n] && more.value == plain[n..] by {
        assert (chunk.value + more.value)[..n] == chunk.value && (chunk.value + more.value)[n..] == more.value;
        assert plain[..n] + plain[n..] == plain;
      }
    }
  }

  /** A manifest from before key envelopes falls back to the key derived from the reader's SVK: its file
      comes back exactly under the SVK of the upload, or if there is nothing in it. */
  lemma LegacyRoundTripIff(svk: Svk, other: Svk, file: Uuid, plain: seq<Byte>, c: nat)
    requires c > 0 && Chunks(|plain|, c) < U32
    ensures var (m, envelopes) := Upload(svk, file, plain, c);
            Download(other, m.(fekWrapped := None), envelopes) == if other == svk || plain == [] then Some(plain) else None
  {
    var (m, envelopes) := Upload(svk, file, plain, c);
    var m' := m.(fekWrapped := None);
    EnvelopesMakeTheCiphertext(svk, file, plain, c);
    var ct := EncryptStream(Fek(svk, file), file, c, plain, 0);
    var r := DecryptStream(Fek(other, file), m', ct, |plain|, 0);
    if plain != [] {
      ChunksOfRest(|plain|, c);
      DecryptIff(Fek(other, file), m', ct, plain, |plain|, 0);
      if other == svk {
        assert SameButNonces(ct, EncryptStream(Fek(other, file), file, c, plain, 0));
      } else if r.Some? {
        DecryptIff(Fek(other, file), m', ct, r.value, |plain|, 0);
        OtherKeysShow(Fek(svk, file), Fek(other, file), file, c, plain, r.value);
      }
    }
  }

  lemma OtherKeysShow(a: Fek, b: Fek, file: Uuid, c: nat, p: seq<Byte>, q: seq<Byte>)
    requires a != b && c > 0 && p != [] && |p| == |q|
    ensures !SameButNonces(EncryptStream(a, file, c, p, 0), EncryptStream(b, file, c, q, 0))
  {
    var n := Min(|p|, c);
    var x, y := EncryptStream(a, file, c, p, 0), EncryptStream(b, file, c, q, 0);
    assert x[NONCE_LEN] == Seal(a, file, 0, p[..n])[NONCE_LEN] && y[NONCE_LEN] == Seal(b, file, 0, q[..n])[NONCE_LEN];
  }
}
