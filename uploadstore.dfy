/**
 * The upload queue of the client (upload.store.ts): files wait as pending,
 * are sent in batches of six, and end uploaded or failed. The uploads of a
 * batch run one after the other here; whether the upload of the file at some
 * position succeeds, and with which media, is given.
 */
module UploadStore {
  import opened Outcomes

  datatype Status = Pending | Uploading | Uploaded | Failed

  datatype UploadFile = UploadFile(fileName: string, status: Status)

  /** The media record the server answers with; only its id is used. */
  datatype Media = Media(id: nat)

  const BatchSize: nat := 6

  /** What an upload run has done so far: the queue, the responses by file name, both result lists and the progress counter. */
  datatype Progress = Progress(files: seq<UploadFile>, responses: map<string, Media>, success: seq<Media>, failed: seq<UploadFile>, count: nat)

  datatype UploadResult = Finished(success: seq<Media>, failed: seq<UploadFile>) | AlbumAddFailed

  /** The positions of the pending files from `k` on, in order. */
  function PendingFrom(fs: seq<UploadFile>, k: nat): seq<nat>
    decreases |fs| - k
  {
    if k >= |fs| then [] else (if fs[k].status == Pending then [k] else []) + PendingFrom(fs, k + 1)
  }

  /** The positions are exactly those of the pending files, each once and in increasing order. */
  lemma PendingFromFacts(fs: seq<UploadFile>, k: nat)
    ensures var p := PendingFrom(fs, k);
      (forall i :: 0 <= i < |p| ==> k <= p[i] < |fs| && fs[p[i]].status == Pending)
      && (forall i, j :: 0 <= i < j < |p| ==> p[i] < p[j])
      && (forall j :: k <= j < |fs| && fs[j].status == Pending ==> j in p)
  {
    PendingBounds(fs, k);
    PendingSorted(fs, k);
    PendingComplete(fs, k);
  }

  lemma {:induction false} PendingBounds(fs: seq<UploadFile>, k: nat)
    ensures forall i :: 0 <= i < |PendingFrom(fs, k)| ==> k <= PendingFrom(fs, k)[i] < |fs| && fs[PendingFrom(fs, k)[i]].status == Pending
    decreases |fs| - k
  {
    if k < |fs| {
      PendingBounds(fs, k + 1);
      var rest := PendingFrom(fs, k + 1);
      if fs[k].status == Pending {
        assert PendingFrom(fs, k) == [k] + rest;
      } else {
        assert PendingFrom(fs, k) == rest;
      }
    }
  }

  lemma {:induction false} PendingSorted(fs: seq<UploadFile>, k: nat)
    ensures forall i, j :: 0 <= i < j < |PendingFrom(fs, k)| ==> PendingFrom(fs, k)[i] < PendingFrom(fs, k)[j]
    decreases |fs| - k
  {
    if k < |fs| {
      PendingSorted(fs, k + 1);
      PendingBounds(fs, k + 1);
      var rest := PendingFrom(fs, k + 1);
      if fs[k].status == Pending {
        var p := [k] + rest;
        assert PendingFrom(fs, k) == p;
        assert forall i :: 1 <= i < |p| ==> p[i] == rest[i - 1];
      } else {
        assert PendingFrom(fs, k) == rest;
      }
    }
  }

  lemma {:induction false} PendingComplete(fs: seq<UploadFile>, k: nat)
    ensures forall j :: k <= j < |fs| && fs[j].status == Pending ==> j in PendingFrom(fs, k)
    decreases |fs| - k
  {
    if k < |fs| {
      PendingComplete(fs, k + 1);
      var rest := PendingFrom(fs, k + 1);
      if fs[k].status == Pending {
        assert PendingFrom(fs, k) == [k] + rest;
      } else {
        assert PendingFrom(fs, k) == rest;
      }
    }
  }

  lemma {:induction false} PendingFromSame(a: seq<UploadFile>, b: seq<UploadFile>, k: nat)
    requires |a| == |b|
    requires forall j :: k <= j < |a| ==> (a[j].status == Pending <==> b[j].status == Pending)
    ensures PendingFrom(a, k) == PendingFrom(b, k)
    decreases |a| - k
  {
    if k < |a| {
      PendingFromSame(a, b, k + 1);
    }
  }

  /** The first `n` positions, or all of them when there are fewer. */
  function Take(p: seq<nat>, n: nat): (b: seq<nat>)
    ensures |b| == (if |p| < n then |p| else n) && b == p[..|b|]
  {
    if |p| <= n then p else p[..n]
  }

  /** The files of a batch marked as uploading. */
  function Mark(fs: seq<UploadFile>, b: seq<nat>): seq<UploadFile>
    decreases |b|
  {
    if b == [] then fs
    else Mark(if b[0] < |fs| then fs[b[0] := fs[b[0]].(status := Uploading)] else fs, b[1..])
  }

  function Resolved(f: UploadFile, ok: bool): UploadFile {
    f.(status := if ok then Uploaded else Failed)
  }

  /** The upload of the file at position `i` settles: uploaded with its response recorded, or failed; either way the progress grows by one. */
  function Step(p: Progress, i: nat, upload: nat -> Option<Media>): Progress {
    if i >= |p.files| then p
    else
      match upload(i)
      case Some(m) =>
        p.(files := p.files[i := p.files[i].(status := Uploaded)], responses := p.responses[p.files[i].fileName := m],
           success := p.success + [m], count := p.count + 1)
      case None =>
        p.(files := p.files[i := p.files[i].(status := Failed)], failed := p.failed + [p.files[i].(status := Failed)],
           count := p.count + 1)
  }

  function Settle(p: Progress, b: seq<nat>, upload: nat -> Option<Media>): Progress
    decreases |b|
  {
    if b == [] then p else Settle(Step(p, b[0], upload), b[1..], upload)
  }

  /** The media of the successful uploads among the positions, in order. */
  function Oks(b: seq<nat>, upload: nat -> Option<Media>): seq<Media> {
    if b == [] then [] else (if upload(b[0]).Some? then [upload(b[0]).value] else []) + Oks(b[1..], upload)
  }

  /** The files of the failed uploads among the positions, in order, marked as failed. */
  function Fails(fs: seq<UploadFile>, b: seq<nat>, upload: nat -> Option<Media>): seq<UploadFile> {
    if b == [] then []
    else (if b[0] < |fs| && upload(b[0]).None? then [fs[b[0]].(status := Failed)] else []) + Fails(fs, b[1..], upload)
  }

  /** The batch loop: while any file is pending, mark the next batch as uploading and settle it. */
  function Run(p: Progress, upload: nat -> Option<Media>): Progress
    decreases |PendingFrom(p.files, 0)|
  {
    var pending := PendingFrom(p.files, 0);
    if pending == [] then p
    else
      var batch := Take(pending, BatchSize);
      var next := Settle(p.(files := Mark(p.files, batch)), batch, upload);
      RunShrinks(p, upload);
      Run(next, upload)
  }

  lemma {:induction false} FailsNames(fs: seq<UploadFile>, gs: seq<UploadFile>, b: seq<nat>, upload: nat -> Option<Media>)
    requires |fs| == |gs| && forall j :: 0 <= j < |fs| ==> fs[j].fileName == gs[j].fileName
    ensures Fails(fs, b, upload) == Fails(gs, b, upload)
    decreases |b|
  {
    if b != [] {
      FailsNames(fs, gs, b[1..], upload);
    }
  }

  /** Settling positions in order: each one is resolved, and the lists grow by the successes and the failures. */
  lemma {:induction false} SettleFacts(p: Progress, b: seq<nat>, upload: nat -> Option<Media>)
    requires forall i :: 0 <= i < |b| ==> b[i] < |p.files|
    ensures var q := Settle(p, b, upload);
      |q.files| == |p.files| && q.count == p.count + |b|
      && q.success == p.success + Oks(b, upload) && q.failed == p.failed + Fails(p.files, b, upload)
      && forall j :: 0 <= j < |p.files| ==> q.files[j] == (if j in b then Resolved(p.files[j], upload(j).Some?) else p.files[j])
    decreases |b|
  {
    if b != [] {
      var p' := Step(p, b[0], upload);
      SettleFacts(p', b[1..], upload);
      FailsNames(p.files, p'.files, b[1..], upload);
      assert forall j :: j in b <==> j == b[0] || j in b[1..];
    }
  }

  lemma {:induction false} OksFails(fs: seq<UploadFile>, b: seq<nat>, upload: nat -> Option<Media>)
    requires forall i :: 0 <= i < |b| ==> b[i] < |fs|
    ensures |Oks(b, upload)| + |Fails(fs, b, upload)| == |b|
    decreases |b|
  {
    if b != [] {
      OksFails(fs, b[1..], upload);
    }
  }

  lemma {:induction false} MarkFacts(fs: seq<UploadFile>, b: seq<nat>)
    requires forall i :: 0 <= i < |b| ==> b[i] < |fs|
    ensures |Mark(fs, b)| == |fs|
    ensures forall j :: 0 <= j < |fs| ==> Mark(fs, b)[j] == (if j in b then fs[j].(status := Uploading) else fs[j])
    decreases |b|
  {
    if b != [] {
      MarkFacts(fs[b[0] := fs[b[0]].(status := Uploading)], b[1..]);
      assert forall j :: j in b <==> j == b[0] || j in b[1..];
    }
  }

  /** Two runs whose queues differ only in the status of files in the batch settle the batch alike. */
  lemma {:induction false} SettleAgree(p1: Progress, p2: Progress, b: seq<nat>, upload: nat -> Option<Media>)
    requires p1.responses == p2.responses && p1.success == p2.success && p1.failed == p2.failed && p1.count == p2.count
    requires |p1.files| == |p2.files| && forall i :: 0 <= i < |b| ==> b[i] < |p1.files|
    requires forall j :: 0 <= j < |p1.files| ==> p1.files[j].fileName == p2.files[j].fileName && (p1.files[j] != p2.files[j] ==> j in b)
    ensures Settle(p1, b, upload) == Settle(p2, b, upload)
    decreases |b|
  {
    if b == [] {
      assert p1.files == p2.files;
    } else {
      assert forall j :: j in b && j != b[0] ==> j in b[1..];
      SettleAgree(Step(p1, b[0], upload), Step(p2, b[0], upload), b[1..], upload);
    }
  }

  /** Settling the first `m` pending positions leaves the rest of them pending, and nothing else. */
  lemma {:induction false} SettleFront(fs: seq<UploadFile>, gs: seq<UploadFile>, k: nat, m: nat)
    requires m <= |PendingFrom(fs, k)| && |gs| == |fs|
    requires forall j :: k <= j < |fs| ==> (gs[j].status == Pending <==> fs[j].status == Pending && j !in PendingFrom(fs, k)[..m])
    ensures PendingFrom(gs, k) == PendingFrom(fs, k)[m..]
    decreases |fs| - k
  {
    var p := PendingFrom(fs, k);
    if k < |fs| {
      if fs[k].status != Pending {
        assert p == PendingFrom(fs, k + 1);
        SettleFront(fs, gs, k + 1, m);
      } else if m == 0 {
        PendingFromSame(fs, gs, k);
      } else {
        var q := PendingFrom(fs, k + 1);
        assert p == [k] + q;
        assert p[..m] == [k] + q[..m - 1];
        PendingFromFacts(fs, k + 1);
        assert forall j :: k + 1 <= j < |fs| ==> (j in p[..m] <==> j in q[..m - 1]);
        SettleFront(fs, gs, k + 1, m - 1);
        assert p[m..] == q[m - 1..];
      }
    }
  }

  /** One round of the loop: marking changes nothing that settling does not overwrite, and the batch leaves the pending files. */
  lemma RunShrinks(p: Progress, upload: nat -> Option<Media>)
    requires PendingFrom(p.files, 0) != []
    ensures var pending := PendingFrom(p.files, 0);
      var batch := Take(pending, BatchSize);
      var next := Settle(p.(files := Mark(p.files, batch)), batch, upload);
      next == Settle(p, batch, upload) && PendingFrom(next.files, 0) == pending[|batch|..]
  {
    var pending := PendingFrom(p.files, 0);
    var batch := Take(pending, BatchSize);
    PendingFromFacts(p.files, 0);
    assert forall i :: 0 <= i < |batch| ==> batch[i] == pending[i];
    MarkFacts(p.files, batch);
    SettleAgree(p.(files := Mark(p.files, batch)), p, batch, upload);
    var next := Settle(p, batch, upload);
    SettleFacts(p, batch, upload);
    SettleFront(p.files, next.files, 0, |batch|);
  }

  lemma {:induction false} SettleAppend(p: Progress, a: seq<nat>, b: seq<nat>, upload: nat -> Option<Media>)
    ensures Settle(p, a + b, upload) == Settle(Settle(p, a, upload), b, upload)
    decreases |a|
  {
    if a == [] {
      assert a + b == b;
    } else {
      assert (a + b)[1..] == a[1..] + b;
      SettleAppend(Step(p, a[0], upload), a[1..], b, upload);
    }
  }

  /** The batches together settle every pending file once, in queue order. */
  lemma {:induction false} RunAll(p: Progress, upload: nat -> Option<Media>)
    ensures Run(p, upload) == Settle(p, PendingFrom(p.files, 0), upload)
    decreases |PendingFrom(p.files, 0)|
  {
    var pending := PendingFrom(p.files, 0);
    if pending != [] {
      var batch := Take(pending, BatchSize);
      RunShrinks(p, upload);
      var next := Settle(p, batch, upload);
      RunAll(next, upload);
      SettleAppend(p, batch, pending[|batch|..], upload);
      assert batch + pending[|batch|..] == pending;
    }
  }

  /**
   * An upload run from a queue: afterwards no file is pending, every file
   * pending at the start is uploaded or failed as its upload went, the others
   * are untouched, the progress is the number of files that were pending, and
   * each of them is in exactly one of the two lists.
   */
  lemma UploadEffect(fs: seq<UploadFile>, responses: map<string, Media>, upload: nat -> Option<Media>)
    ensures var pending := PendingFrom(fs, 0);
      var q := Run(Progress(fs, responses, [], [], 0), upload);
      |q.files| == |fs|
      && (forall j :: 0 <= j < |fs| ==> q.files[j] == (if fs[j].status == Pending then Resolved(fs[j], upload(j).Some?) else fs[j]))
      && (forall j :: 0 <= j < |fs| ==> q.files[j].status != Pending)
      && q.count == |pending|
      && q.success == Oks(pending, upload) && q.failed == Fails(fs, pending, upload)
      && |q.success| + |q.failed| == |pending|
  {
    var p := Progress(fs, responses, [], [], 0);
    var pending := PendingFrom(fs, 0);
    RunAll(p, upload);
    PendingFromFacts(fs, 0);
    SettleFacts(p, pending, upload);
    OksFails(fs, pending, upload);
  }

  /** Every file of the queue is uploaded; an empty queue counts as uploaded. */
  predicate AllUploaded(fs: seq<UploadFile>) {
    forall i :: 0 <= i < |fs| ==> fs[i].status == Uploaded
  }

  /**
   * A run leaves the whole queue uploaded exactly when every file was
   * already uploaded, or pending with an upload that succeeds.
   */
  lemma RunCompletes(fs: seq<UploadFile>, responses: map<string, Media>, upload: nat -> Option<Media>)
    ensures AllUploaded(Run(Progress(fs, responses, [], [], 0), upload).files) <==>
      forall j :: 0 <= j < |fs| ==> fs[j].status == Uploaded || (fs[j].status == Pending && upload(j).Some?)
  {
    UploadEffect(fs, responses, upload);
    var q := Run(Progress(fs, responses, [], [], 0), upload);
    assert forall j :: 0 <= j < |fs| ==> (q.files[j].status == Uploaded <==>
      fs[j].status == Uploaded || (fs[j].status == Pending && upload(j).Some?));
  }

  /** New files as queued: their other fields kept, their status pending. */
  function Queued(newFiles: seq<UploadFile>): seq<UploadFile> {
    if newFiles == [] then [] else [newFiles[0].(status := Pending)] + Queued(newFiles[1..])
  }

  lemma {:induction false} QueuedShape(newFiles: seq<UploadFile>)
    ensures |Queued(newFiles)| == |newFiles|
    ensures forall i :: 0 <= i < |newFiles| ==> Queued(newFiles)[i] == newFiles[i].(status := Pending)
  {
    if newFiles != [] {
      QueuedShape(newFiles[1..]);
    }
  }

  class Store {
    var files: seq<UploadFile>
    var albumId: Option<nat>
    var isUploading: bool
    var uploadProgress: nat
    var responses: map<string, Media>

    constructor()
      ensures files == [] && albumId == None && !isUploading && uploadProgress == 0 && responses == map[]
    {
      files := [];
      albumId := None;
      isUploading := false;
      uploadProgress := 0;
      responses := map[];
    }

    /** Every file is uploaded; an empty queue is complete. */
    predicate IsComplete()
      reads this
    {
      AllUploaded(files)
    }

    method AddFiles(newFiles: seq<UploadFile>)
      modifies this
      ensures files == old(files) + Queued(newFiles)
      ensures albumId == old(albumId) && isUploading == old(isUploading)
      ensures uploadProgress == old(uploadProgress) && responses == old(responses)
    {
      var i := 0;
      while i < |newFiles|
        invariant 0 <= i <= |newFiles|
        invariant files + Queued(newFiles[i..]) == old(files) + Queued(newFiles)
        invariant albumId == old(albumId) && isUploading == old(isUploading)
        invariant uploadProgress == old(uploadProgress) && responses == old(responses)
      {
        assert Queued(newFiles[i..]) == [newFiles[i].(status := Pending)] + Queued(newFiles[i + 1..]) by {
          assert newFiles[i..][1..] == newFiles[i + 1..];
        }
        files := files + [newFiles[i].(status := Pending)];
        i := i + 1;
      }
    }

    method SetAlbum(id: nat)
      modifies this
      ensures albumId == Some(id)
      ensures files == old(files) && isUploading == old(isUploading)
      ensures uploadProgress == old(uploadProgress) && responses == old(responses)
    {
      albumId := Some(id);
    }

    method ClearFiles()
      modifies this
      ensures files == [] && uploadProgress == 0
      ensures albumId == old(albumId) && isUploading == old(isUploading) && responses == old(responses)
    {
      files := [];
      uploadProgress := 0;
    }

    method MarkBatch(batch: seq<nat>)
      requires forall i :: 0 <= i < |batch| ==> batch[i] < |files|
      modifies this
      ensures files == Mark(old(files), batch)
      ensures albumId == old(albumId) && isUploading == old(isUploading)
      ensures uploadProgress == old(uploadProgress) && responses == old(responses)
    {
      var i := 0;
      while i < |batch|
        invariant 0 <= i <= |batch| && |files| == |old(files)|
        invariant Mark(files, batch[i..]) == Mark(old(files), batch)
        invariant albumId == old(albumId) && isUploading == old(isUploading)
        invariant uploadProgress == old(uploadProgress) && responses == old(responses)
      {
        assert batch[i..][1..] == batch[i + 1..];
        files := files[batch[i] := files[batch[i]].(status := Uploading)];
        i := i + 1;
      }
      assert batch[i..] == [];
    }

    /** The uploads of one batch, one after the other. */
    method SettleBatch(batch: seq<nat>, upload: nat -> Option<Media>, success0: seq<Media>, failed0: seq<UploadFile>)
      returns (success: seq<Media>, failed: seq<UploadFile>)
      modifies this
      ensures Progress(files, responses, success, failed, uploadProgress)
        == Settle(Progress(old(files), old(responses), success0, failed0, old(uploadProgress)), batch, upload)
      ensures albumId == old(albumId) && isUploading == old(isUploading)
    {
      ghost var start := Progress(old(files), old(responses), success0, failed0, old(uploadProgress));
      success, failed := success0, failed0;
      var i := 0;
      while i < |batch|
        invariant 0 <= i <= |batch|
        invariant Settle(Progress(files, responses, success, failed, uploadProgress), batch[i..], upload) == Settle(start, batch, upload)
        invariant albumId == old(albumId) && isUploading == old(isUploading)
      {
        assert batch[i..][1..] == batch[i + 1..];
        var k := batch[i];
        if k < |files| {
          var answer := upload(k);
          if answer.Some? {
            files := files[k := files[k].(status := Uploaded)];
            responses := responses[files[k].fileName := answer.value];
            success := success + [answer.value];
          } else {
            files := files[k := files[k].(status := Failed)];
            failed := failed + [files[k]];
          }
          uploadProgress := uploadProgress + 1;
        }
        i := i + 1;
      }
      assert batch[i..] == [];
    }

    /**
     * `uploadFiles`: refused while a run is going on; otherwise the batch
     * loop, then all recorded responses are added to the album when one is
     * set (0 counts as none), and the run flag and the album are reset
     * whether or not adding them fails.
     */
    method UploadFiles(upload: nat -> Option<Media>, albumAddFails: bool) returns (r: UploadResult, sent: Option<(nat, set<nat>)>)
      modifies this
      ensures old(isUploading) ==> (r == Finished([], []) && sent == None
        && files == old(files) && responses == old(responses) && uploadProgress == old(uploadProgress)
        && albumId == old(albumId) && isUploading)
      ensures !old(isUploading) ==>
        var q := Run(Progress(old(files), old(responses), [], [], 0), upload);
        files == q.files && responses == q.responses && uploadProgress == q.count
        && !isUploading && albumId == None
        && sent == (if old(albumId).Some? && old(albumId).value != 0 then Some((old(albumId).value, set m | m in q.responses.Values :: m.id)) else None)
        && r == (if sent.Some? && albumAddFails then AlbumAddFailed else Finished(q.success, q.failed))
    {
      if isUploading {
        return Finished([], []), None;
      }
      isUploading := true;
      uploadProgress := 0;
      var success: seq<Media> := [];
      var failed: seq<UploadFile> := [];
      ghost var start := Progress(files, responses, [], [], 0);
      while PendingFrom(files, 0) != []
        invariant Run(Progress(files, responses, success, failed, uploadProgress), upload) == Run(start, upload)
        invariant isUploading && albumId == old(albumId)
        decreases |PendingFrom(files, 0)|
      {
        ghost var p := Progress(files, responses, success, failed, uploadProgress);
        RunShrinks(p, upload);
        PendingFromFacts(files, 0);
        var batch := Take(PendingFrom(files, 0), BatchSize);
        assert forall i :: 0 <= i < |batch| ==> batch[i] == PendingFrom(files, 0)[i];
        MarkBatch(batch);
        success, failed := SettleBatch(batch, upload, success, failed);
      }
      sent := None;
      if albumId.Some? && albumId.value != 0 {
        sent := Some((albumId.value, set m | m in responses.Values :: m.id));
      }
      isUploading := false;
      albumId := None;
      if sent.Some? && albumAddFails {
        return AlbumAddFailed, sent;
      }
      r := Finished(success, failed);
    }
  }
}
