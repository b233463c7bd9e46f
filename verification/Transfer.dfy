/** Chunked file transfer over a lossy exec channel. Every exec may fail; an append may lose the
    tail of any of its chunks and still report success; a read may be cut short. */
module Transfer {
  import opened Common
  import opened Base64

  const TRIES := 8
  const CHUNK_RAW := 90000
  const CHUNK_BATCH := 8
  const MAX_ARG := 131072  // what one exec argument may hold

  type Bytes = seq<Byte>

  datatype Path = Path(dir: string, base: string)

  /** The staging file beside the destination. */
  function Staging(dest: Path): Path { Path(dest.dir, ".sbxup-" + dest.base + ".part") }

  lemma StagingIsApart(dest: Path)
    ensures Staging(dest) != dest
  {
    assert |Staging(dest).base| > |dest.base|;
  }

  type Files = map<Path, Bytes>

  function At(f: Files, p: Path): Option<Bytes> { if p in f then Some(f[p]) else None }

  /** Everything except `p` is the same in both. */
  ghost predicate SameBut(a: Files, b: Files, p: Path) {
    forall q: Path | q != p :: At(a, q) == At(b, q)
  }

  // ---- chunks that lose their tails ----

  function Flat(chunks: seq<Bytes>): Bytes {
    if chunks == [] then [] else Flat(chunks[..|chunks| - 1]) + chunks[|chunks| - 1]
  }

  /** How much of each chunk arrives. */
  ghost predicate Cuts(chunks: seq<Bytes>, cuts: seq<nat>) {
    |cuts| == |chunks| && forall i | 0 <= i < |cuts| :: cuts[i] <= |chunks[i]|
  }

  /** The bytes that arrive. */
  ghost function Arrived(chunks: seq<Bytes>, cuts: seq<nat>): Bytes
    requires Cuts(chunks, cuts)
  {
    if chunks == [] then []
    else
      var n := |chunks| - 1;
      Arrived(chunks[..n], cuts[..n]) + chunks[n][..cuts[n]]
  }

  /** If the arrived lengths add up to the full size, nothing was lost anywhere. */
  lemma {:induction false} FullLengthMeansComplete(chunks: seq<Bytes>, cuts: seq<nat>)
    requires Cuts(chunks, cuts)
    ensures |Arrived(chunks, cuts)| <= |Flat(chunks)|
    ensures |Arrived(chunks, cuts)| == |Flat(chunks)| ==> Arrived(chunks, cuts) == Flat(chunks)
    decreases |chunks|
  {
    if chunks != [] {
      var n := |chunks| - 1;
      FullLengthMeansComplete(chunks[..n], cuts[..n]);
    }
  }

  lemma ArrivedSnoc(chunks: seq<Bytes>, cuts: seq<nat>, c: Bytes, k: nat)
    requires Cuts(chunks, cuts) && k <= |c|
    ensures Cuts(chunks + [c], cuts + [k])
    ensures Arrived(chunks + [c], cuts + [k]) == Arrived(chunks, cuts) + c[..k]
  {
    assert (chunks + [c])[..|chunks|] == chunks && (cuts + [k])[..|cuts|] == cuts;
  }

  lemma Regroup(x: Bytes, y: Bytes, z: Bytes)
    ensures (x + y) + z == x + (y + z)
  {}

  lemma {:induction false} ArrivedConcat(a: seq<Bytes>, b: seq<Bytes>, ca: seq<nat>, cb: seq<nat>)
    requires Cuts(a, ca) && Cuts(b, cb)
    ensures Cuts(a + b, ca + cb)
    ensures Arrived(a + b, ca + cb) == Arrived(a, ca) + Arrived(b, cb)
    decreases |b|
  {
    if b == [] {
      assert a + b == a && ca + cb == ca;
    } else {
      var n := |b| - 1;
      ArrivedConcat(a, b[..n], ca, cb[..n]);
      ArrivedSnoc(a + b[..n], ca + cb[..n], b[n], cb[n]);
      assert (a + b[..n]) + [b[n]] == a + b && (ca + cb[..n]) + [cb[n]] == ca + cb;
      Regroup(Arrived(a, ca), Arrived(b[..n], cb[..n]), b[n][..cb[n]]);
    }
  }

  lemma {:induction false} FlatConcat(a: seq<Bytes>, b: seq<Bytes>)
    ensures Flat(a + b) == Flat(a) + Flat(b)
    decreases |b|
  {
    if b == [] {
      assert a + b == a;
    } else {
      var n := |b| - 1;
      FlatConcat(a, b[..n]);
      assert (a + b)[..|a| + n] == a + b[..n] && (a + b)[|a| + n] == b[n];
      Regroup(Flat(a), Flat(b[..n]), b[n]);
    }
  }

  /** The arguments decode to the chunks. */
  ghost predicate Encodes(args: seq<string>, chunks: seq<Bytes>) {
    |args| == |chunks| && forall i | 0 <= i < |args| :: args[i] == Encode(chunks[i])
  }

  /** One exec can carry the arguments: not too many, none too long. */
  predicate Carried(args: seq<string>) { |args| <= CHUNK_BATCH && forall i | 0 <= i < |args| :: |args[i]| < MAX_ARG }

  lemma ChunkFits(b: Bytes)
    requires |b| <= CHUNK_RAW
    ensures |Encode(b)| < MAX_ARG
  {
    EncodingLength(b);
  }

  lemma ArrivedNext(chunks: seq<Bytes>, i: nat, cuts: seq<nat>, k: nat)
    requires i < |chunks| && Cuts(chunks[..i], cuts) && k <= |chunks[i]|
    ensures Cuts(chunks[..i + 1], cuts + [k])
    ensures Arrived(chunks[..i + 1], cuts + [k]) == Arrived(chunks[..i], cuts) + chunks[i][..k]
    ensures Flat(chunks[..i + 1]) == Flat(chunks[..i]) + chunks[i]
  {
    assert chunks[..i + 1] == chunks[..i] + [chunks[i]];
    ArrivedSnoc(chunks[..i], cuts, chunks[i], k);
  }

  /** The shell loop over the arguments: each is decoded, and some prefix of it gets through. */
  method DecodeLossy(args: seq<string>, ghost chunks: seq<Bytes>, reliable: bool)
    returns (out: Bytes, ghost cuts: seq<nat>)
    requires Encodes(args, chunks)
    ensures Cuts(chunks, cuts) && out == Arrived(chunks, cuts)
    ensures reliable ==> out == Flat(chunks)
  {
    out, cuts := [], [];
    for i := 0 to |args|
      invariant Cuts(chunks[..i], cuts) && out == Arrived(chunks[..i], cuts)
      invariant reliable ==> out == Flat(chunks[..i])
    {
      RoundTripText(chunks[i]);
      var data := Decode(args[i]).value;
      var k: int := *;
      if k < 0 || k > |data| || reliable {
        k := |data|;
      }
      ArrivedNext(chunks, i, cuts, k);
      assert data[..|data|] == data;
      out, cuts := out + data[..k], cuts + [k];
    }
    assert chunks[..|chunks|] == chunks;
  }

  /** Block number `i` of a file. */
  function Block(f: Bytes, i: nat): Bytes {
    if i * CHUNK_RAW >= |f| then []
    else if (i + 1) * CHUNK_RAW >= |f| then f[i * CHUNK_RAW..]
    else f[i * CHUNK_RAW..(i + 1) * CHUNK_RAW]
  }

  /** What went wrong so far: directory calls and renames that reported a failure, sizes not obtained, reads not
      whole; how often a file was staged from its beginning, and how many of these attempts met a failure
      or lost a byte (`current`: the one under way did). */
  datatype Faults = Faults(setup: nat, moves: nat, stats: nat, badReads: nat, attempts: nat, spoiled: nat, current: bool) {
    ghost function Begun(bad: bool): Faults {
      this.(attempts := attempts + 1, spoiled := spoiled + (if bad then 1 else 0), current := bad)
    }

    ghost function Met(bad: bool): Faults {
      if bad && !current then this.(spoiled := spoiled + 1, current := true) else this
    }
  }

  /** The sandbox behind the exec channel. `trace` records the files after every exec, `faults` what went wrong. */
  class Remote {
    var files: Files
    var readCount: nat
    const reliable: bool
    ghost var trace: seq<Files>
    ghost var faults: Faults

    constructor (files: Files, reliable: bool)
      ensures this.files == files && this.reliable == reliable && trace == [] && readCount == 0
      ensures faults == Faults(0, 0, 0, 0, 0, 0, false)
    {
      this.files, this.reliable, trace, readCount := files, reliable, [], 0;
      faults := Faults(0, 0, 0, 0, 0, 0, false);
    }

    /** `: > "$0"`; a reported failure may or may not have emptied the file. */
    method Truncate(p: Path) returns (ok: bool)
      modifies this
      ensures trace == old(trace) + [files] && SameBut(files, old(files), p)
      ensures ok ==> At(files, p) == Some([])
      ensures reliable ==> ok
      ensures readCount == old(readCount) && faults == old(faults).Begun(!ok)
    {
      ok := *;
      ok := ok || reliable;
      var applied: bool := *;
      if ok || applied {
        files := files[p := []];
      }
      trace, faults := trace + [files], faults.Begun(!ok);
    }

    /** Decodes each argument and appends what arrives of it. */
    method Append(p: Path, args: seq<string>, ghost chunks: seq<Bytes>) returns (ok: bool, ghost cuts: seq<nat>)
      requires p in files && Encodes(args, chunks) && Carried(args)
      modifies this
      ensures trace == old(trace) + [files] && SameBut(files, old(files), p)
      ensures Cuts(chunks, cuts)
      ensures At(files, p) == Some(old(files)[p] + Arrived(chunks, cuts))
      ensures reliable ==> ok && Arrived(chunks, cuts) == Flat(chunks)
      ensures readCount == old(readCount)
      ensures faults == old(faults).Met(!ok || Arrived(chunks, cuts) != Flat(chunks))
    {
      ok := *;
      ok := ok || reliable;
      var data;
      data, cuts := DecodeLossy(args, chunks, reliable);
      files := files[p := files[p] + data];
      trace, faults := trace + [files], faults.Met(!ok || Arrived(chunks, cuts) != Flat(chunks));
    }

    /** `stat -c %s`. */
    method Size(p: Path) returns (size: Option<int>)
      modifies this`trace, this`faults
      ensures trace == old(trace) + [files]
      ensures size.Some? ==> p in files && size.value == |files[p]|
      ensures reliable && p in files ==> size.Some?
      ensures var bad := p in files && size.None?;
              faults == old(faults).Met(bad).(stats := old(faults).stats + if bad then 1 else 0)
    {
      var fails: bool := *;
      trace := trace + [files];
      if p !in files {
        return None;
      }
      if fails && !reliable {
        faults := faults.Met(true).(stats := faults.stats + 1);
        return None;
      }
      size := Some(|files[p]|);
    }

    /** `mv -f`: atomic; a reported failure may or may not have renamed. */
    method Rename(from: Path, to: Path) returns (ok: bool)
      requires from in files && from != to
      modifies this
      ensures trace == old(trace) + [files]
      ensures files == old(files) || files == (old(files) - {from})[to := old(files)[from]]
      ensures ok ==> files == (old(files) - {from})[to := old(files)[from]]
      ensures reliable ==> ok
      ensures readCount == old(readCount) && faults == old(faults).(moves := old(faults).moves + if ok then 0 else 1)
    {
      ok := *;
      ok := ok || reliable;
      faults := faults.(moves := faults.moves + if ok then 0 else 1);
      var applied: bool := *;
      if ok || applied {
        var content := files[from];
        files := (files - {from})[to := content];
      }
      trace := trace + [files];
    }

    /** `rm -f`, best effort. */
    method Remove(p: Path)
      modifies this
      ensures trace == old(trace) + [files]
      ensures files == old(files) || files == old(files) - {p}
      ensures reliable ==> p !in files
      ensures readCount == old(readCount) && faults == old(faults)
    {
      var applied: bool := *;
      if applied || reliable {
        files := files - {p};
      }
      trace := trace + [files];
    }

    /** `mkdir -p` changes no file. */
    method MakeDir() returns (ok: bool)
      modifies this`trace, this`faults
      ensures trace == old(trace) + [files]
      ensures reliable ==> ok
      ensures faults == old(faults).(setup := old(faults).setup + if ok then 0 else 1)
    {
      ok := *;
      ok := ok || reliable;
      trace, faults := trace + [files], faults.(setup := faults.setup + if ok then 0 else 1);
    }

    /** `dd | base64`: some prefix of the block's text arrives. */
    method ReadBlock(p: Path, block: nat) returns (text: Option<string>)
      requires p in files
      modifies this`trace, this`readCount, this`faults
      ensures trace == old(trace) + [files] && readCount == old(readCount) + 1
      ensures text.Some? ==> text.value <= Encode(Block(files[p], block))
      ensures reliable ==> text == Some(Encode(Block(files[p], block)))
      ensures faults == old(faults).(badReads := old(faults).badReads + if text == Some(Encode(Block(files[p], block))) then 0 else 1)
    {
      trace, readCount := trace + [files], readCount + 1;
      var full := Encode(Block(files[p], block));
      var fails: bool := *;
      if fails && !reliable {
        faults := faults.(badReads := faults.badReads + 1);
        return None;
      }
      var k: int := *;
      if k < 0 || k > |full| || reliable {
        k := |full|;
      }
      assert full[..|full|] == full;
      text := Some(full[..k]);
      faults := faults.(badReads := faults.badReads + if text == Some(full) then 0 else 1);
    }
  }

  lemma RoundTripText(b: Bytes)
    ensures Decode(Encode(b)) == Some(b)
  {
    EncodingHasNoSpace(b);
    NoSpaceNoChange(Encode(b));
    RoundTrip(b);
  }

  // ---- upload ----

  /** Since trace position `from`, nothing but `p` has been touched. */
  ghost predicate Contained(files: Files, trace: seq<Files>, from: nat, before: Files, p: Path) {
    && from <= |trace|
    && SameBut(files, before, p)
    && forall k | from <= k < |trace| :: SameBut(trace[k], before, p)
  }

  lemma ContainedMore(files: Files, trace: seq<Files>, from: nat, before: Files, p: Path, files': Files, trace': seq<Files>)
    requires Contained(files, trace, from, before, p) && trace <= trace'
    requires Contained(files', trace', |trace|, files, p)
    ensures Contained(files', trace', from, before, p)
  {
    forall k | from <= k < |trace'| ensures SameBut(trace'[k], before, p) {
      if k < |trace| { assert trace'[k] == trace[k]; }
    }
  }

  /** The staging file holds what arrived of `sent`: all of it unless the attempt met a fault. */
  ghost predicate Staged(r: Remote, tmp: Path, sent: seq<Bytes>, cuts: seq<nat>)
    reads r
  {
    && Cuts(sent, cuts)
    && At(r.files, tmp) == Some(Arrived(sent, cuts))
    && (r.faults.current <==> Arrived(sent, cuts) != Flat(sent))
    && (r.reliable ==> !r.faults.current)
  }

  /** Sent and pending chunks make up the source so far; nothing but `tmp` was touched since the
      trace was `from` long and the files were `before`. */
  ghost predicate Streaming(r: Remote, tmp: Path, src: Bytes, off: int, batch: seq<string>, pending: seq<Bytes>,
                            sent: seq<Bytes>, cuts: seq<nat>)
    reads r
  {
    && 0 <= off <= |src|
    && Encodes(batch, pending) && Staged(r, tmp, sent, cuts)
    && Flat(sent) + Flat(pending) == src[..off]
  }

  /** Two parts arrived whole exactly when their concatenation did. */
  lemma WholeParts(a: seq<Bytes>, b: seq<Bytes>, ca: seq<nat>, cb: seq<nat>)
    requires Cuts(a, ca) && Cuts(b, cb)
    ensures Cuts(a + b, ca + cb)
    ensures Arrived(a + b, ca + cb) == Flat(a + b) <==> Arrived(a, ca) == Flat(a) && Arrived(b, cb) == Flat(b)
  {
    FlatConcat(a, b);
    ArrivedConcat(a, b, ca, cb);
    FullLengthMeansComplete(a, ca);
    FullLengthMeansComplete(b, cb);
  }

  lemma StagedMore(r: Remote, tmp: Path, sent: seq<Bytes>, pending: seq<Bytes>, cuts: seq<nat>, more: seq<nat>)
    requires Cuts(sent, cuts) && Cuts(pending, more)
    requires At(r.files, tmp) == Some(Arrived(sent, cuts) + Arrived(pending, more))
    requires r.faults.current <==> Arrived(sent, cuts) != Flat(sent) || Arrived(pending, more) != Flat(pending)
    requires r.reliable ==> !r.faults.current
    ensures Staged(r, tmp, sent + pending, cuts + more)
  {
    WholeParts(sent, pending, cuts, more);
    ArrivedConcat(sent, pending, cuts, more);
  }

  /** One attempt more, all of whose faults are in `spoiled`. */
  ghost predicate InAttempt(was: Faults, now: Faults) {
    && now.attempts == was.attempts + 1 && now.spoiled == was.spoiled + (if now.current then 1 else 0)
    && now.setup == was.setup && now.moves == was.moves && now.badReads == was.badReads
  }

  /** Sends the pending batch. */
  method Flush(r: Remote, tmp: Path, src: Bytes, off: int, batch: seq<string>, ghost pending: seq<Bytes>,
               ghost sent: seq<Bytes>, ghost cuts: seq<nat>, ghost from: nat, ghost before: Files, ghost was: Faults)
    returns (ok: bool, ghost sent': seq<Bytes>, ghost cuts': seq<nat>)
    requires Streaming(r, tmp, src, off, batch, pending, sent, cuts)
    requires Contained(r.files, r.trace, from, before, tmp) && InAttempt(was, r.faults) && Carried(batch)
    modifies r
    ensures old(r.trace) <= r.trace && Contained(r.files, r.trace, from, before, tmp) && InAttempt(was, r.faults)
    ensures if ok then Streaming(r, tmp, src, off, [], [], sent', cuts') else r.faults.current
    ensures r.reliable ==> ok
    ensures r.readCount == old(r.readCount)
  {
    FlatConcat(sent, pending);
    sent' := sent + pending;
    if |batch| == 0 {
      assert sent' == sent;
      return true, sent', cuts;
    }
    ghost var more;
    ghost var files, trace := r.files, r.trace;
    ok, more := r.Append(tmp, batch, pending);
    if ok { StagedMore(r, tmp, sent, pending, cuts, more); }
    ContainedMore(files, trace, from, before, tmp, r.files, r.trace);
    cuts' := cuts + more;
  }

  /** The next piece of the source: a full chunk, or what is left. */
  function NextPiece(src: Bytes, off: nat): Bytes
    requires off <= |src|
  {
    if |src| - off < CHUNK_RAW then src[off..] else src[off..off + CHUNK_RAW]
  }

  lemma PieceExtends(r: Remote, tmp: Path, src: Bytes, off: int, batch: seq<string>, pending: seq<Bytes>,
                     sent: seq<Bytes>, cuts: seq<nat>)
    requires Streaming(r, tmp, src, off, batch, pending, sent, cuts) && Carried(batch) && |batch| < CHUNK_BATCH
    ensures var piece := NextPiece(src, off);
            Streaming(r, tmp, src, off + |piece|, batch + [Encode(piece)], pending + [piece], sent, cuts)
    ensures Carried(batch + [Encode(NextPiece(src, off))])
  {
    var piece := NextPiece(src, off);
    ChunkFits(piece);
    assert (pending + [piece])[..|pending|] == pending;
    assert src[..off] + piece == src[..off + |piece|];
    Regroup(Flat(sent), Flat(pending), piece);
  }

  /** Empties the staging file, then appends the source in encoded chunks. */
  method StreamToSandbox(r: Remote, src: Bytes, tmp: Path)
    returns (ok: bool, ghost chunks: seq<Bytes>, ghost cuts: seq<nat>)
    modifies r
    ensures old(r.trace) <= r.trace && Contained(r.files, r.trace, |old(r.trace)|, old(r.files), tmp)
    ensures ok ==> Flat(chunks) == src && Staged(r, tmp, chunks, cuts)
    ensures InAttempt(old(r.faults), r.faults) && (!ok ==> r.faults.current)
    ensures r.reliable ==> ok
    ensures r.readCount == old(r.readCount)
  {
    ghost var from, before, was := |r.trace|, r.files, r.faults;
    chunks, cuts := [], [];
    ok := r.Truncate(tmp);
    if !ok {
      return;
    }
    var batch: seq<string> := [];
    ghost var pending: seq<Bytes> := [];
    var off, eof := 0, false;
    while !eof
      invariant Streaming(r, tmp, src, off, batch, pending, chunks, cuts) && (eof ==> off == |src|)
      invariant old(r.trace) <= r.trace && Contained(r.files, r.trace, from, before, tmp)
      invariant r.readCount == old(r.readCount) && InAttempt(was, r.faults)
      invariant Carried(batch) && |batch| < CHUNK_BATCH
      decreases |src| - off, !eof
    {
      var piece := NextPiece(src, off);
      if |piece| > 0 {
        PieceExtends(r, tmp, src, off, batch, pending, chunks, cuts);
        batch, pending, off := batch + [Encode(piece)], pending + [piece], off + |piece|;
        if |batch| == CHUNK_BATCH {
          ok, chunks, cuts := Flush(r, tmp, src, off, batch, pending, chunks, cuts, from, before, was);
          batch, pending := [], [];
          if !ok {
            return;
          }
        }
      }
      eof := |piece| < CHUNK_RAW;
    }
    ok, chunks, cuts := Flush(r, tmp, src, off, batch, pending, chunks, cuts, from, before, was);
    assert src[..off] == src && Flat(chunks) + [] == Flat(chunks);
  }

  /** One attempt: stage the source and compare the staged size. A matching size means the staged
      bytes are the source. */
  method TryStage(r: Remote, src: Bytes, size: int, tmp: Path) returns (verified: bool)
    modifies r
    ensures old(r.trace) <= r.trace && Contained(r.files, r.trace, |old(r.trace)|, old(r.files), tmp)
    ensures verified ==> tmp in r.files && |r.files[tmp]| == size <= |src|
    ensures verified && size == |src| ==> r.files[tmp] == src
    ensures InAttempt(old(r.faults), r.faults) && (size == |src| ==> (verified <==> !r.faults.current))
    ensures r.reliable && size == |src| ==> verified
  {
    ghost var chunks, cuts;
    var ok;
    ok, chunks, cuts := StreamToSandbox(r, src, tmp);
    if !ok {
      return false;
    }
    FullLengthMeansComplete(chunks, cuts);
    var got := r.Size(tmp);
    verified := got == Some(size);
  }

  /** After `from` the destination always held its old content or the whole source. */
  ghost predicate AllOrNothing(trace: seq<Files>, from: nat, was: Option<Bytes>, src: Bytes, dest: Path) {
    forall k | from <= k < |trace| :: At(trace[k], dest) == was || At(trace[k], dest) == Some(src)
  }

  /** Upload: stage, verify the size, rename into place, at most eight times over. Whatever the
      channel loses, the destination holds its old content or all of the source at every moment,
      success means it holds the source, and no other file but the staging one is touched. It succeeds
      exactly when the directory call and the rename work and one of the first eight attempts is spared. */
  method CopyReaderToSandbox(r: Remote, src: Bytes, size: int, dest: Path) returns (ok: bool)
    modifies r
    ensures old(r.trace) <= r.trace
    ensures size == |src| ==> AllOrNothing(r.trace, |old(r.trace)|, old(At(r.files, dest)), src, dest)
    ensures size == |src| && ok ==> At(r.files, dest) == Some(src)
    ensures size > |src| ==> !ok && At(r.files, dest) == old(At(r.files, dest))
    ensures ok ==> dest in r.files && |r.files[dest]| == size
    ensures forall q | q != dest && q != Staging(dest) :: At(r.files, q) == old(At(r.files, q))
    ensures r.reliable && size == |src| ==> ok && Staging(dest) !in r.files
    ensures var was, now := old(r.faults), r.faults;
            && now.attempts <= was.attempts + 8
            && (size == |src| ==> (ok <==> now.setup == was.setup && now.moves == was.moves && now.spoiled < was.spoiled + 8))
            && (size == |src| && now.setup == was.setup ==>
                  now.attempts == was.attempts + if now.spoiled < was.spoiled + 8 then now.spoiled - was.spoiled + 1 else 8)
  {
    var tmp := Staging(dest);
    StagingIsApart(dest);
    ok := r.MakeDir();
    if !ok {
      return;
    }
    var try, verified := 0, false;
    while try < TRIES && !verified
      invariant 0 <= try <= TRIES
      invariant old(r.trace) <= r.trace && Contained(r.files, r.trace, |old(r.trace)|, old(r.files), tmp)
      invariant verified ==> tmp in r.files && |r.files[tmp]| == size <= |src|
      invariant verified && size == |src| ==> r.files[tmp] == src
      invariant r.reliable && size == |src| && try > 0 ==> verified
      invariant r.faults.setup == old(r.faults.setup) && r.faults.moves == old(r.faults.moves)
      invariant r.faults.attempts == old(r.faults.attempts) + try
      invariant verified ==> try > 0
      invariant size == |src| ==> r.faults.spoiled == old(r.faults.spoiled) + if verified then try - 1 else try
    {
      ghost var files, trace := r.files, r.trace;
      verified := TryStage(r, src, size, tmp);
      ContainedMore(files, trace, |old(r.trace)|, old(r.files), tmp, r.files, r.trace);
      try := try + 1;
    }
    ok := false;
    if verified {
      ok := r.Rename(tmp, dest);
    }
    r.Remove(tmp);
  }

  // ---- two uploads to one destination ----

  const BATCH_RAW := CHUNK_BATCH * CHUNK_RAW

  /** The first `n` full pieces of a source. */
  function Pieces(src: Bytes, n: nat): (p: seq<Bytes>)
    requires n * CHUNK_RAW <= |src|
    ensures |p| == n && forall c | c in p :: |c| == CHUNK_RAW
  {
    if n == 0 then [] else Pieces(src, n - 1) + [src[(n - 1) * CHUNK_RAW..n * CHUNK_RAW]]
  }

  lemma {:induction false} PiecesFlat(src: Bytes, n: nat)
    requires n * CHUNK_RAW <= |src|
    ensures Flat(Pieces(src, n)) == src[..n * CHUNK_RAW]
  {
    if n > 0 {
      PiecesFlat(src, n - 1);
      var front := Pieces(src, n - 1);
      assert Pieces(src, n)[..n - 1] == front;
      assert src[..(n - 1) * CHUNK_RAW] + src[(n - 1) * CHUNK_RAW..n * CHUNK_RAW] == src[..n * CHUNK_RAW];
    }
  }

  method EncodeAll(chunks: seq<Bytes>) returns (args: seq<string>)
    requires |chunks| <= CHUNK_BATCH && forall c | c in chunks :: |c| <= CHUNK_RAW
    ensures Encodes(args, chunks) && Carried(args)
  {
    args := [];
    for i := 0 to |chunks|
      invariant Encodes(args, chunks[..i]) && Carried(args)
    {
      assert chunks[i] in chunks && chunks[..i + 1] == chunks[..i] + [chunks[i]];
      ChunkFits(chunks[i]);
      args := args + [Encode(chunks[i])];
    }
  }

  /** One append of `n` full pieces, and one of the rest, on a channel that loses nothing. */
  method SendPieces(r: Remote, tmp: Path, src: Bytes, n: nat)
    requires r.reliable && tmp in r.files && n <= CHUNK_BATCH && n * CHUNK_RAW <= |src|
    modifies r
    ensures At(r.files, tmp) == Some(old(r.files)[tmp] + src[..n * CHUNK_RAW])
  {
    var pieces := Pieces(src, n);
    PiecesFlat(src, n);
    var args := EncodeAll(pieces);
    ghost var cuts;
    var ok;
    ok, cuts := r.Append(tmp, args, pieces);
  }

  method SendRest(r: Remote, tmp: Path, src: Bytes, off: nat)
    requires r.reliable && tmp in r.files && off <= |src| <= off + CHUNK_RAW
    modifies r
    ensures At(r.files, tmp) == Some(old(r.files)[tmp] + src[off..])
  {
    var rest := [src[off..]];
    assert rest[..0] == [] && Flat(rest) == [] + src[off..] == src[off..];
    var args := EncodeAll(rest);
    ghost var cuts;
    var ok;
    ok, cuts := r.Append(tmp, args, rest);
  }

  /** The staging name depends on the destination alone. Two uploads of one batch and a rest each, over a
      channel that loses nothing: the first sends its batch, the second empties the file, the first sends its
      rest, the second its batch; the first then finds the size right and renames what is neither source. */
  method InterleavedUploadsMix(r: Remote, a: Bytes, b: Bytes, dest: Path) returns (size: Option<int>)
    requires r.reliable && |a| == |b| && BATCH_RAW < |a| <= BATCH_RAW + CHUNK_RAW
    modifies r
    ensures size == Some(|a|) && At(r.files, dest) == Some(a[BATCH_RAW..] + b[..BATCH_RAW])
    ensures a[BATCH_RAW] != a[0] && a[BATCH_RAW] != b[0] ==> At(r.files, dest) != Some(a) && At(r.files, dest) != Some(b)
  {
    var tmp, n := Staging(dest), CHUNK_BATCH;
    StagingIsApart(dest);
    var ok := r.Truncate(tmp);        // first upload
    SendPieces(r, tmp, a, n);
    ok := r.Truncate(tmp);            // second upload
    SendRest(r, tmp, a, BATCH_RAW);   // first
    SendPieces(r, tmp, b, n);         // second
    size := r.Size(tmp);              // first
    assert r.files[tmp] == a[BATCH_RAW..] + b[..BATCH_RAW];
    assert r.files[tmp][0] == a[BATCH_RAW];
    ok := r.Rename(tmp, dest);
  }

  // ---- download ----

  /** One block, read until its decoded length is right, at most eight times. */
  method ReadChunkVerified(r: Remote, p: Path, block: nat, want: int) returns (raw: Option<Bytes>)
    requires p in r.files && want == |Block(r.files[p], block)|
    modifies r`trace, r`readCount, r`faults
    ensures r.readCount <= old(r.readCount) + 8
    ensures raw.Some? ==> raw.value == Block(r.files[p], block)
    ensures r.reliable ==> raw.Some?
    ensures raw.Some? <==> r.faults.badReads < old(r.faults.badReads) + 8
    ensures r.readCount - old(r.readCount) == r.faults.badReads - old(r.faults.badReads) + if raw.Some? then 1 else 0
    ensures r.faults.stats == old(r.faults.stats) && r.faults.badReads >= old(r.faults.badReads)
  {
    ghost var chunk := Block(r.files[p], block);
    for try := 0 to TRIES
      invariant r.readCount == old(r.readCount) + try && r.faults.badReads == old(r.faults.badReads) + try
      invariant r.reliable ==> try == 0
      invariant r.faults.stats == old(r.faults.stats)
    {
      var text := r.ReadBlock(p, block);
      if text.Some? {
        TruncatedBlock(chunk, text.value);
        CutBlockIsShort(chunk, text.value);
        var d := Decode(TrimSpace(text.value));
        if d.Some? && |d.value| == want {
          assert chunk[..|chunk|] == chunk;
          return d;
        }
      }
    }
    raw := None;
  }

  lemma BlockFacts(f: Bytes, block: nat)
    requires block * CHUNK_RAW < |f|
    ensures var n := |f| - block * CHUNK_RAW;
            |Block(f, block)| == if n < CHUNK_RAW then n else CHUNK_RAW
    ensures f[..block * CHUNK_RAW] + Block(f, block) == f[..block * CHUNK_RAW + |Block(f, block)|]
  {}

  /** Number of blocks of a file. */
  function Blocks(size: nat): nat { (size + CHUNK_RAW - 1) / CHUNK_RAW }

  /** Download: for every file size, if it succeeds it yields exactly the file, after at most
      eight reads per block, one good one each; seven bad reads in all never make it fail. */
  method CopyFileFromSandbox(r: Remote, p: Path) returns (out: Option<Bytes>)
    modifies r`trace, r`readCount, r`faults
    ensures out.Some? ==> p in r.files && out.value == r.files[p]
    ensures p in r.files ==> r.readCount <= old(r.readCount) + 8 * Blocks(|r.files[p]|)
    ensures r.reliable && p in r.files ==> out.Some?
    ensures p in r.files && out.None? ==>
              r.faults.stats > old(r.faults.stats) || r.faults.badReads >= old(r.faults.badReads) + 8
    ensures out.Some? ==> r.readCount - old(r.readCount) == r.faults.badReads - old(r.faults.badReads) + Blocks(|r.files[p]|)
  {
    var want := r.Size(p);
    if want.None? {
      return None;
    }
    var size := want.value;
    ghost var f := r.files[p];
    var written, block, got := 0, 0, [];
    while written < size
      invariant |got| == written && written <= size && got == f[..written]
      invariant written < size ==> written == block * CHUNK_RAW
      invariant block <= Blocks(size)
      invariant r.readCount <= old(r.readCount) + TRIES * block
      invariant r.readCount - old(r.readCount) == r.faults.badReads - old(r.faults.badReads) + block
      invariant r.faults.stats == old(r.faults.stats) && r.faults.badReads >= old(r.faults.badReads)
      invariant written == size ==> block == Blocks(size)
      decreases size - written
    {
      BlockFacts(f, block);
      var rem := size - written;
      var exp := if rem < CHUNK_RAW then rem else CHUNK_RAW;
      var raw := ReadChunkVerified(r, p, block, exp);
      if raw.None? {
        return None;
      }
      got := got + raw.value;
      written := written + |raw.value|;
      block := block + 1;
    }
    assert f[..size] == f;
    out := Some(got);
  }
}
