/** Uploading and downloading as they run, with a transport that may fail at any request. */
module FileTransferClient {
  import opened Common
  import opened Crypto
  import opened FileTransfer

  lemma EncryptStep(fek: Fek, file: Uuid, c: nat, rest: seq<Byte>, index: nat, done: seq<Octet>)
    requires c > 0 && rest != []
    ensures var n := Min(|rest|, c);
            done + EncryptStream(fek, file, c, rest, index)
            == (done + Seal(fek, file, index, rest[..n])) + EncryptStream(fek, file, c, rest[n..], (index + 1) % U32)
  {
  }

  method EncryptFile(fek: Fek, file: Uuid, c: nat, plain: seq<Byte>) returns (ct: seq<Octet>)
    requires c > 0
    ensures ct == EncryptStream(fek, file, c, plain, 0)
  {
    ghost var result := EncryptStream(fek, file, c, plain, 0);
    ct := [];
    var rest, index: nat := plain, 0;
    assert ct + result == result;
    while rest != []
      invariant ct + EncryptStream(fek, file, c, rest, index) == result
      decreases |rest|
    {
      var n := Min(|rest|, c);
      EncryptStep(fek, file, c, rest, index, ct);
      ct := ct + Seal(fek, file, index, rest[..n]);
      rest, index := rest[n..], (index + 1) % U32;
    }
    assert ct + [] == ct;
  }

  lemma CutOnce(left: seq<Octet>, m: Manifest, index: nat, n: nat)
    requires index < m.totalChunks && n == Min(ChunkLen(m, index) + OVERHEAD, |left|)
    ensures CutFrom(left, m, index) == [left[..n]] + CutFrom(left[n..], m, index + 1)
  {
  }

  /** Moving the offset on by `n` moves one envelope from what is left to what is cut. */
  lemma MoveOn(ct: seq<Octet>, offset: nat, n: nat, cut: seq<seq<Octet>>, later: seq<seq<Octet>>)
    requires offset + n <= |ct|
    ensures ct[offset..][..n] == ct[offset..offset + n] && ct[offset..][n..] == ct[offset + n..]
    ensures cut + ([ct[offset..offset + n]] + later) == (cut + [ct[offset..offset + n]]) + later
  {
  }

  lemma CutStep(ct: seq<Octet>, m: Manifest, index: nat, offset: nat, end: nat, cut: seq<seq<Octet>>)
    requires index < m.totalChunks && offset <= |ct| && end == Min(offset + (ChunkLen(m, index) + OVERHEAD), |ct|)
    ensures offset <= end <= |ct|
    ensures cut + CutFrom(ct[offset..], m, index) == (cut + [ct[offset..end]]) + CutFrom(ct[end..], m, index + 1)
  {
    CutOnce(ct[offset..], m, index, end - offset);
    MoveOn(ct, offset, end - offset, cut, CutFrom(ct[end..], m, index + 1));
  }

  /** How many of the requests from `i` on succeed before the first failure. */
  function Acknowledged(n: nat, ok: nat -> bool, i: nat): (k: nat)
    requires i <= n
    ensures i <= k <= n && (k < n ==> !ok(k)) && forall j: nat | i <= j < k :: ok(j)
    decreases n - i
  {
    if i == n || !ok(i) then i else Acknowledged(n, ok, i + 1)
  }

  lemma {:induction false} AcknowledgedIs(n: nat, ok: nat -> bool, i: nat, k: nat)
    requires i <= k <= n && (k < n ==> !ok(k)) && forall j: nat | i <= j < k :: ok(j)
    ensures Acknowledged(n, ok, i) == k
    decreases k - i
  {
    if i < k {
      AcknowledgedIs(n, ok, i + 1, k);
    }
  }

  lemma {:induction false} CutCount(ct: seq<Octet>, m: Manifest, index: nat)
    requires index <= m.totalChunks
    ensures |CutFrom(ct, m, index)| == m.totalChunks - index
    decreases m.totalChunks - index
  {
    if index < m.totalChunks {
      CutCount(ct[Min(ChunkLen(m, index) + OVERHEAD, |ct|)..], m, index + 1);
    }
  }

  lemma NextReport(m: Manifest, index: nat)
    requires index < m.totalChunks
    ensures Progress(m)[..index + 1] == Progress(m)[..index] + [Transferred(m, index)]
  {
  }

  method NextEnvelope(ct: seq<Octet>, m: Manifest, index: nat, offset: nat, ghost cut: seq<seq<Octet>>)
    returns (envelope: seq<Octet>, end: nat)
    requires index < m.totalChunks && offset <= |ct|
    ensures offset <= end <= |ct| && envelope == ct[offset..end]
    ensures cut + CutFrom(ct[offset..], m, index) == (cut + [envelope]) + CutFrom(ct[end..], m, index + 1)
  {
    end := Min(offset + (ChunkLen(m, index) + OVERHEAD), |ct|);
    CutStep(ct, m, index, offset, end, cut);
    envelope := ct[offset..end];
  }

  /** The offset loop: cut, send, report; the first refused chunk ends it. */
  method SendEnvelopes(ct: seq<Octet>, m: Manifest, chunkOk: nat -> bool)
    returns (sent: seq<seq<Octet>>, reported: seq<nat>)
    ensures |CutFrom(ct, m, 0)| == m.totalChunks
    ensures var k := Acknowledged(m.totalChunks, chunkOk, 0);
            sent == CutFrom(ct, m, 0)[..k] && reported == Progress(m)[..k]
  {
    CutCount(ct, m, 0);
    sent, reported := [], [];
    var offset: nat := 0;
    ghost var result := CutFrom(ct, m, 0);
    assert ct[0..] == ct && [] + result == result;
    for index := 0 to m.totalChunks
      invariant offset <= |ct| && |sent| == index
      invariant sent + CutFrom(ct[offset..], m, index) == result
      invariant reported == Progress(m)[..index]
      invariant forall j: nat | j < index :: chunkOk(j)
    {
      var envelope, end := NextEnvelope(ct, m, index, offset, sent);
      if !chunkOk(index) {
        AcknowledgedIs(m.totalChunks, chunkOk, 0, index);
        assert sent == result[..index];
        return;
      }
      sent, offset := sent + [envelope], end;
      NextReport(m, index);
      reported := reported + [Transferred(m, index)];
    }
    AcknowledgedIs(m.totalChunks, chunkOk, 0, m.totalChunks);
    assert sent + [] == sent;
  }

  /** Which requests of an upload the server acknowledges. */
  datatype UploadTurn = UploadTurn(initiated: bool, chunkOk: nat -> bool, completed: bool)

  /** `upload_bytes`: the envelopes acknowledged in index order and the progress reported with them;
      a manifest comes back exactly when every request succeeded. */
  method UploadBytes(svk: Svk, file: Uuid, plain: seq<Byte>, c: nat, t: UploadTurn)
    returns (manifest: Option<Manifest>, sent: seq<seq<Octet>>, reported: seq<nat>)
    requires c > 0
    ensures var (m, envelopes) := Upload(svk, file, plain, c);
            var k := if t.initiated then Acknowledged(m.totalChunks, t.chunkOk, 0) else 0;
            && |envelopes| == m.totalChunks
            && sent == envelopes[..k] && reported == Progress(m)[..k]
            && manifest == if t.initiated && k == m.totalChunks && t.completed then Some(m) else None
  {
    var m := NewManifest(svk, file, |plain|, c);
    var ct := EncryptFile(Fek(svk, file), file, c, plain);
    CutCount(ct, m, 0);
    if !t.initiated {
      return None, [], [];
    }
    sent, reported := SendEnvelopes(ct, m, t.chunkOk);
    manifest := if |sent| == m.totalChunks && t.completed then Some(m) else None;
  }

  lemma {:induction false} FlattenAppend(es: seq<seq<Octet>>, e: seq<Octet>)
    ensures Flatten(es + [e]) == Flatten(es) + e
    decreases |es|
  {
    if es == [] {
      assert es + [e] == [e] && [e][1..] == [];
    } else {
      FlattenAppend(es[1..], e);
      assert (es + [e])[1..] == es[1..] + [e];
    }
  }

  function Arrivals(fetch: nat -> Option<seq<Octet>>): nat -> bool {
    (i: nat) => fetch(i).Some?
  }

  /** `download`: resolve the key, fetch the chunks in order until one is missing, decrypt the whole. */
  method DownloadFile(svk: Svk, m: Manifest, fetch: nat -> Option<seq<Octet>>)
    returns (plain: Option<seq<Byte>>, reported: seq<nat>)
    ensures var k := if ResolveFek(svk, m).None? then 0 else Acknowledged(m.totalChunks, Arrivals(fetch), 0);
            && reported == Progress(m)[..k]
            && (k < m.totalChunks ==> plain == None)
            && (k == m.totalChunks ==>
                  exists envelopes: seq<seq<Octet>> ::
                    && |envelopes| == k && (forall i | 0 <= i < k :: fetch(i) == Some(envelopes[i]))
                    && plain == Download(svk, m, envelopes))
  {
    var key := ResolveFek(svk, m);
    reported := [];
    if key.None? {
      assert m.totalChunks == 0 ==> Download(svk, m, []) == None;
      return None, [];
    }
    var ct: seq<Octet> := [];
    ghost var envelopes: seq<seq<Octet>> := [];
    for index := 0 to m.totalChunks
      invariant |envelopes| == index && forall i | 0 <= i < index :: fetch(i) == Some(envelopes[i])
      invariant ct == Flatten(envelopes)
      invariant reported == Progress(m)[..index]
    {
      var chunk := fetch(index);
      if chunk.None? {
        AcknowledgedIs(m.totalChunks, Arrivals(fetch), 0, index);
        return None, reported;
      }
      FlattenAppend(envelopes, chunk.value);
      ct := ct + chunk.value;
      envelopes := envelopes + [chunk.value];
      NextReport(m, index);
      reported := reported + [Transferred(m, index)];
    }
    AcknowledgedIs(m.totalChunks, Arrivals(fetch), 0, m.totalChunks);
    plain := DecryptFile(key.value, m, ct);
  }

  lemma ReadOn(fek: Fek, m: Manifest, ct: seq<Octet>, remaining: nat, index: nat, out: seq<Byte>, chunk: seq<Byte>)
    requires m.chunkSize > 0 && |chunk| == ChunkLen(m, index) && 0 < remaining && |chunk| <= remaining
    requires |ct| >= NONCE_LEN + |chunk| + TAG_LEN
    requires OpenChunk(fek, m.file, index, ct[NONCE_LEN..NONCE_LEN + |chunk| + TAG_LEN]) == Some(chunk)
    ensures Continued(out, DecryptStream(fek, m, ct, remaining, index))
         == Continued(out + chunk, DecryptStream(fek, m, ct[NONCE_LEN + |chunk| + TAG_LEN..], remaining - |chunk|, (index + 1) % U32))
  {
    var more := DecryptStream(fek, m, ct[NONCE_LEN + |chunk| + TAG_LEN..], remaining - |chunk|, (index + 1) % U32);
    if more.Some? {
      assert out + (chunk + more.value) == (out + chunk) + more.value;
    }
  }

  method DecryptFile(fek: Fek, m: Manifest, ct: seq<Octet>) returns (plain: Option<seq<Byte>>)
    ensures plain == Decrypt(fek, m, ct)
  {
    if !ValidManifest(m) {
      return None;
    }
    ghost var result := DecryptStream(fek, m, ct, m.totalSize, 0);
    assert result.Some? ==> [] + result.value == result.value;
    var out: seq<Byte>, rest, remaining: nat, index: nat := [], ct, m.totalSize, 0;
    while remaining > 0
      invariant Continued(out, DecryptStream(fek, m, rest, remaining, index)) == result
      decreases |rest|
    {
      var len := ChunkLen(m, index);
      var n := NONCE_LEN + len + TAG_LEN;
      if |rest| < n {
        return None;
      }
      var chunk := OpenChunk(fek, m.file, index, rest[NONCE_LEN..n]);
      if chunk.None? || |chunk.value| != len || |chunk.value| > remaining {
        return None;
      }
      ReadOn(fek, m, rest, remaining, index, out, chunk.value);
      out, rest := out + chunk.value, rest[n..];
      remaining, index := remaining - |chunk.value|, (index + 1) % U32;
    }
    assert out + [] == out;
    plain := if rest == [] then Some(out) else None;
  }
}
