/** The streaming half of the upload request handler (ufs-server.js, lines
    155-186): the field set recorded for the file, the append-mode temp file
    that receives the request body, and the events that end the transfer.
    Temp files are kept in a map from file id to bytes, since the temp path
    is derived from the file id alone. */
module Upload {
  import opened Options
  import opened JsString
  import opened Router

  newtype byte = x: int | 0 <= x < 256

  /** The field set written to the file record when the body ends. */
  datatype Fields = Fields(uploading: bool, progress: Option<real>)

  /** The upload fields of the file's record in its store's collection. */
  datatype Record = Record(uploading: bool, progress: Option<real>)

  /** Lines 157-161: `uploading` is true, and `progress` is min(p, 1) when
      the declared progress p is a number above 0; otherwise it is absent.
      `declared` is parseFloat of the query parameter, None for NaN. */
  function ProgressFields(declared: Option<real>): (f: Fields)
    ensures f.uploading
    ensures f.progress.Some? <==> declared.Some? && declared.value > 0.0
    ensures f.progress.Some? ==>
              0.0 < f.progress.value <= 1.0 && f.progress.value <= declared.value &&
              (f.progress.value == declared.value || f.progress.value == 1.0)
  {
    var progress := if declared.Some? && declared.value > 0.0 then
                      Some(if declared.value < 1.0 then declared.value else 1.0)
                    else None;
    Fields(true, progress)
  }

  /** The `$set` update of line 172: every field present in `f` is written,
      and a field absent from `f` keeps its value in the record. */
  function SetFields(r: Record, f: Fields): (r': Record)
    ensures r'.uploading == f.uploading
    ensures f.progress.Some? ==> r'.progress == f.progress
    ensures f.progress.None? ==> r'.progress == r.progress
  {
    Record(f.uploading, if f.progress.Some? then f.progress else r.progress)
  }

  /** A recorded progress, when there is one, is a fraction in (0, 1]. */
  predicate ProgressInRange(r: Record) {
    r.progress.None? || 0.0 < r.progress.value <= 1.0
  }

  /** The record after the bodies of requests declaring `declared`, in this
      order, have ended: each end sets the field set of its request. */
  function RecordAfter(r: Record, declared: seq<Option<real>>): Record {
    if declared == [] then r
    else SetFields(RecordAfter(r, declared[..|declared| - 1]), ProgressFields(declared[|declared| - 1]))
  }

  /** Whatever progress the clients declare, the progress stored in the
      record stays absent or in (0, 1], and once one body has ended the
      record is marked as uploading. */
  lemma {:induction false} RecordedProgressInRange(r: Record, declared: seq<Option<real>>)
    requires ProgressInRange(r)
    ensures ProgressInRange(RecordAfter(r, declared))
    ensures declared != [] ==> RecordAfter(r, declared).uploading
  {
    if declared != [] {
      RecordedProgressInRange(r, declared[..|declared| - 1]);
    }
  }

  /** The stored progress is the clamped value declared by the last request
      that declared a number above 0; requests after it, which declare none,
      leave it alone. */
  lemma {:induction false} RecordedProgressIsLastDeclared(r: Record, declared: seq<Option<real>>, i: nat)
    requires i < |declared| && ProgressFields(declared[i]).progress.Some?
    requires forall j :: i < j < |declared| ==> ProgressFields(declared[j]).progress.None?
    ensures RecordAfter(r, declared).progress == ProgressFields(declared[i]).progress
    decreases |declared|
  {
    var init := declared[..|declared| - 1];
    if i < |declared| - 1 {
      assert forall j :: i < j < |init| ==> init[j] == declared[j];
      RecordedProgressIsLastDeclared(r, init, i);
    }
  }

  /** The bytes of all chunks, in order. */
  function Flatten(chunks: seq<seq<byte>>): seq<byte> {
    if chunks == [] then [] else Flatten(chunks[..|chunks| - 1]) + chunks[|chunks| - 1]
  }

  lemma FlattenSnoc(chunks: seq<seq<byte>>, c: seq<byte>)
    ensures Flatten(chunks + [c]) == Flatten(chunks) + c
  {
    assert (chunks + [c])[..|chunks|] == chunks;
  }

  /** Sending chunks in two parts writes what sending them at once writes. */
  lemma {:induction false} FlattenConcat(a: seq<seq<byte>>, b: seq<seq<byte>>)
    ensures Flatten(a + b) == Flatten(a) + Flatten(b)
    decreases |b|
  {
    if b == [] {
      assert a + b == a;
    } else {
      var init, last := b[..|b| - 1], b[|b| - 1];
      assert b == init + [last];
      assert a + b == (a + init) + [last];
      FlattenSnoc(a + init, last);
      FlattenSnoc(init, last);
      FlattenConcat(a, init);
    }
  }

  /** An effect of the handler visible outside it, in the order it happens. */
  datatype Effect =
    | Append(chunk: seq<byte>)      // ws.write
    | UpdateRecord(fields: Fields)  // direct.update with $set
    | CloseSink                     // ws.end
    | Unlink(removed: bool)         // fs.unlink of the temp file, and whether it succeeded
    | WriteStatus(code: int)        // res.writeHead and res.end

  function Appends(chunks: seq<seq<byte>>): seq<Effect> {
    if chunks == [] then [] else Appends(chunks[..|chunks| - 1]) + [Append(chunks[|chunks| - 1])]
  }

  /** Where the transfer stands: taking body chunks, waiting for the sink to
      finish after `end`, answered 204, or answered 500. */
  datatype Phase = Receiving | Closing | Completed | Failed

  /** One POST request that passed every check, from the moment its temp
      file is opened for append. */
  class UploadStream {
    const fileId: string
    const fields: Fields
    /** The temp file's bytes before this request. */
    ghost const prior: seq<byte>
    /** The temp file's bytes, and whether it exists. */
    var contents: seq<byte>
    var fileExists: bool
    /** Whether the write stream still accepts writes. */
    var sinkOpen: bool
    var record: Record
    /** The response: headers set so far and the status written, if any. */
    var headers: map<string, string>
    var status: Option<int>
    var phase: Phase
    /** Whether the request body has emitted `end`, which it does once. */
    ghost var bodyEnded: bool
    /** The body chunks received so far, and the effects so far. */
    ghost var chunks: seq<seq<byte>>
    ghost var trace: seq<Effect>

    /** The state reached by each order of events: a request error; a sink
        error while writing, possibly followed by the end of the body; or a
        sink error after the end of the body, from a write still being
        flushed. The unlink after a sink error removes the
        file exactly when it succeeded. */
    ghost predicate Valid()
      reads this
    {
      fields.uploading &&
      (fileExists ==> contents == prior + Flatten(chunks)) &&
      (!fileExists ==> contents == []) &&
      (bodyEnded ==> record.uploading) &&
      match phase
      case Receiving =>
        fileExists && sinkOpen && status.None? && !bodyEnded && trace == Appends(chunks)
      case Closing =>
        fileExists && !sinkOpen && status.None? && bodyEnded &&
        trace == Appends(chunks) + [UpdateRecord(fields), CloseSink]
      case Completed =>
        fileExists && !sinkOpen && status == Some(204) && bodyEnded &&
        trace == Appends(chunks) + [UpdateRecord(fields), CloseSink, WriteStatus(204)]
      case Failed =>
        status == Some(500) &&
        ((fileExists && sinkOpen && !bodyEnded && trace == Appends(chunks) + [WriteStatus(500)]) ||
         (!sinkOpen && !bodyEnded && trace == Appends(chunks) + [Unlink(!fileExists), WriteStatus(500)]) ||
         (!sinkOpen && bodyEnded &&
          trace == Appends(chunks) + [Unlink(!fileExists), WriteStatus(500), UpdateRecord(fields), CloseSink]) ||
         (!sinkOpen && bodyEnded &&
          trace == Appends(chunks) + [UpdateRecord(fields), CloseSink, Unlink(!fileExists), WriteStatus(500)]))
    }

  /** Lines 155-161: open the temp file for append (creating it when
        missing) and build the field set from the declared progress. */
    constructor (fileId: string, declared: Option<real>, disk: map<string, seq<byte>>,
                 record: Record, headers: map<string, string>)
      ensures Valid() && phase == Receiving
      ensures this.fileId == fileId && fields == ProgressFields(declared)
      ensures prior == (if fileId in disk then disk[fileId] else [])
      ensures contents == prior && fileExists && sinkOpen
      ensures this.record == record && this.headers == headers && status == None
      ensures chunks == [] && trace == [] && !bodyEnded
    {
      this.fileId := fileId;
      fields := ProgressFields(declared);
      var existing := if fileId in disk then disk[fileId] else [];
      prior := existing;
      contents := existing;
      fileExists := true;
      sinkOpen := true;
      this.record := record;
      this.headers := headers;
      status := None;
      phase := Receiving;
      bodyEnded := false;
      chunks := [];
      trace := [];
    }

    /** Lines 163-165: a `data` event appends its chunk to the temp file. */
    method Data(chunk: seq<byte>)
      requires Valid() && phase == Receiving
      modifies this
      ensures Valid() && phase == Receiving
      ensures contents == old(contents) + chunk && fileExists && sinkOpen
      ensures record == old(record) && headers == old(headers) && status == None
      ensures chunks == old(chunks) + [chunk] && trace == old(trace) + [Append(chunk)]
    {
      contents := contents + chunk;
      chunks := chunks + [chunk];
      trace := trace + [Append(chunk)];
      assert chunks[..|chunks| - 1] == old(chunks);
    }

    /** A run of `data` events appends the chunks' bytes in arrival order. */
    method Receive(body: seq<seq<byte>>)
      requires Valid() && phase == Receiving
      modifies this
      ensures Valid() && phase == Receiving
      ensures contents == old(contents) + Flatten(body) && fileExists && sinkOpen
      ensures record == old(record) && headers == old(headers) && status == None
      ensures chunks == old(chunks) + body
    {
      var i := 0;
      while i < |body|
        invariant 0 <= i <= |body|
        invariant Valid() && phase == Receiving
        invariant contents == old(contents) + Flatten(body[..i])
        invariant record == old(record) && headers == old(headers)
        invariant chunks == old(chunks) + body[..i]
      {
        Data(body[i]);
        FlattenSnoc(body[..i], body[i]);
        assert body[..i + 1] == body[..i] + [body[i]];
        i := i + 1;
      }
      assert body[..|body|] == body;
    }

    /** Lines 166-169: a request error answers 500; the temp file is left as
        it is and the sink is not closed. */
    method RequestError()
      requires Valid() && phase == Receiving
      modifies this
      ensures Valid() && phase == Failed && status == Some(500)
      ensures contents == old(contents) && fileExists && sinkOpen
      ensures record == old(record) && headers == old(headers) && chunks == old(chunks)
      ensures trace == old(trace) + [WriteStatus(500)]
    {
      status := Some(500);
      phase := Failed;
      trace := trace + [WriteStatus(500)];
    }

    /** Lines 170-174: the end of the body updates the record with the
        field set, and after that closes the sink; no status is written. The
        `end` listener stays attached after a sink error, so this also
        happens on a failed transfer, where closing the failed sink does
        nothing more. */
    method End()
      requires Valid() && !bodyEnded && (phase == Receiving || (phase == Failed && !sinkOpen))
      modifies this
      ensures Valid() && bodyEnded && phase == (if old(phase) == Receiving then Closing else Failed)
      ensures record == SetFields(old(record), fields)
      ensures contents == old(contents) && fileExists == old(fileExists) && !sinkOpen
      ensures headers == old(headers) && status == old(status) && chunks == old(chunks)
      ensures trace == old(trace) + [UpdateRecord(fields), CloseSink]
    {
      ghost var before := trace;
      record := SetFields(record, fields);
      trace := trace + [UpdateRecord(fields)];
      sinkOpen := false;
      trace := trace + [CloseSink];
      bodyEnded := true;
      if phase == Receiving {
        phase := Closing;
      }
      assert trace == before + [UpdateRecord(fields), CloseSink];
    }

    /** Lines 175-182: a sink error, while the body arrives or after its end
        while the last writes are flushed, unlinks the temp file and answers
        500. `unlinked` is the outcome of the
        unlink: when it fails, the file and its bytes stay. */
    method SinkError(unlinked: bool)
      requires Valid() && (phase == Receiving || phase == Closing)
      modifies this
      ensures Valid() && phase == Failed && status == Some(500) && !sinkOpen
      ensures fileExists == !unlinked && contents == (if unlinked then [] else old(contents))
      ensures record == old(record) && headers == old(headers) && chunks == old(chunks)
      ensures bodyEnded == old(bodyEnded)
      ensures trace == old(trace) + [Unlink(unlinked), WriteStatus(500)]
    {
      ghost var before := trace;
      sinkOpen := false;
      if unlinked {
        fileExists := false;
        contents := [];
      }
      trace := trace + [Unlink(unlinked)];
      status := Some(500);
      trace := trace + [WriteStatus(500)];
      phase := Failed;
      assert trace == before + [Unlink(unlinked), WriteStatus(500)];
    }

    /** Lines 183-186: once the sink has finished, answer 204 with a
        Content-Type header. */
    method Finish()
      requires Valid() && phase == Closing
      modifies this
      ensures Valid() && phase == Completed && status == Some(204)
      ensures headers == old(headers)["Content-Type" := "text/plain"]
      ensures contents == old(contents) && fileExists && record == old(record) && chunks == old(chunks)
      ensures trace == old(trace) + [WriteStatus(204)]
    {
      headers := headers["Content-Type" := "text/plain"];
      status := Some(204);
      trace := trace + [WriteStatus(204)];
      phase := Completed;
    }
  }

  /** The temp file of `fileId`: its bytes, empty when it does not exist. */
  function TempFile(disk: map<string, seq<byte>>, fileId: string): seq<byte> {
    if fileId in disk then disk[fileId] else []
  }

  /** The response as the client sees it: the status written (None when the
      request went on to the next middleware), the headers set by this handler,
      and whether `next` was called. */
  datatype Response = Response(status: Option<int>, headers: map<string, string>, nextCalled: bool)

  /** How an upload's events end: the body ends and the sink finishes; the
      request fails after `after` chunks, and its body never ends; the sink
      fails after `after` chunks and the body never ends; the sink fails
      after `after` chunks and then the body ends, the chunks after the
      failure going to the failed sink; or, after the end of the body, a
      write still being flushed fails before the sink finishes. In that last
      run every chunk counts as written, the failing one included. */
  datatype Ending =
    | Finished
    | RequestFailed(after: nat)
    | SinkFailed(after: nat)
    | SinkFailedThenEnded(after: nat)
    | SinkFailedOnClose
  {
    /** Whether the request body emitted `end`. */
    predicate BodyEnded() {
      Finished? || SinkFailedThenEnded? || SinkFailedOnClose?
    }

    /** Whether the write stream emitted `error`. */
    predicate SinkFailure() {
      SinkFailed? || SinkFailedThenEnded? || SinkFailedOnClose?
    }

    /** Whether the transfer stops taking chunks after `after` of them. */
    predicate CutShort() {
      RequestFailed? || SinkFailed? || SinkFailedThenEnded?
    }
  }

  /** The chunks of `body` written before the transfer ends as `ending` says. */
  function Sent(body: seq<seq<byte>>, ending: Ending): (sent: seq<seq<byte>>)
    ensures |sent| <= |body| && sent == body[..|sent|]
    ensures ending.CutShort() && ending.after < |body| ==> |sent| == ending.after
    ensures !ending.CutShort() || ending.after >= |body| ==> sent == body
  {
    if ending.CutShort() && ending.after < |body| then body[..ending.after]
    else body
  }

  /** Lines 155-186 for one started upload: the temp file of `fileId` is
      opened for append, the body arrives as the chunks `body`, and the
      transfer ends as `ending` says; `unlinked` is the outcome of the
      unlink after a sink error. A sink failure leaves no temp file when the
      unlink succeeds, and the bytes written so far when it fails; a request
      failure leaves the bytes written so far; the record is updated exactly
      when the end of the body was reached, a sink failure notwithstanding;
      204 only when the sink finished. */
  method Transfer(fileId: string, declared: Option<real>, disk: map<string, seq<byte>>, record: Record,
                  headers: map<string, string>, body: seq<seq<byte>>, ending: Ending, unlinked: bool)
    returns (res: Response, disk': map<string, seq<byte>>, record': Record)
    ensures !res.nextCalled
    ensures res.status == Some(if ending.Finished? then 204 else 500)
    ensures res.headers == if ending.Finished? then headers["Content-Type" := "text/plain"] else headers
    ensures disk' == if ending.SinkFailure() && unlinked then disk - {fileId}
                     else disk[fileId := TempFile(disk, fileId) + Flatten(Sent(body, ending))]
    ensures record' == if ending.BodyEnded() then SetFields(record, ProgressFields(declared)) else record
  {
    var u := new UploadStream(fileId, declared, disk, record, headers);
    ghost var written := TempFile(disk, fileId) + Flatten(Sent(body, ending));
    ghost var fields := ProgressFields(declared);
    u.Receive(Sent(body, ending));
    assert u.contents == written && u.fields == fields && u.headers == headers && u.record == record;
    match ending {
      case Finished =>
        u.End();
        u.Finish();
      case RequestFailed(_) =>
        u.RequestError();
      case SinkFailed(_) =>
        u.SinkError(unlinked);
      case SinkFailedThenEnded(_) =>
        u.SinkError(unlinked);
        u.End();
      case SinkFailedOnClose =>
        u.End();
        u.SinkError(unlinked);
    }
    assert u.fileExists == !(ending.SinkFailure() && unlinked) && (u.fileExists ==> u.contents == written);
    assert u.record == if ending.BodyEnded() then SetFields(record, fields) else record;
    res := Response(u.status, u.headers, false);
    disk' := if u.fileExists then disk[fileId := u.contents] else disk - {fileId};
    record' := u.record;
  }

  /** One request through the whole handler: the routing decision and, for
      an upload, its transfer. A request that does not start an upload
      writes no temp file and leaves the record alone. */
  method Serve(storesPath: string, req: Request, env: Env, disk: map<string, seq<byte>>,
               record: Record, body: seq<seq<byte>>, ending: Ending, unlinked: bool)
    returns (res: Response, disk': map<string, seq<byte>>, record': Record)
    ensures var d := Handle(storesPath, req, env);
            match d.outcome
            case PassOn =>
              res == Response(None, d.headers, true) && disk' == disk && record' == record
            case Reply(code) =>
              res == Response(Some(code), d.headers, false) && disk' == disk && record' == record
            case StartUpload(_, fileId) =>
              !res.nextCalled &&
              res.status == Some(if ending.Finished? then 204 else 500) &&
              res.headers == (if ending.Finished? then d.headers["Content-Type" := "text/plain"] else d.headers) &&
              disk' == (if ending.SinkFailure() && unlinked then disk - {fileId}
                        else disk[fileId := TempFile(disk, fileId) + Flatten(Sent(body, ending))]) &&
              record' == (if ending.BodyEnded() then SetFields(record, ProgressFields(req.progress)) else record)
  {
    var d := Handle(storesPath, req, env);
    match d.outcome {
      case PassOn =>
        res, disk', record' := Response(None, d.headers, true), disk, record;
      case Reply(code) =>
        res, disk', record' := Response(Some(code), d.headers, false), disk, record;
      case StartUpload(_, fileId) =>
        res, disk', record' := Transfer(fileId, req.progress, disk, record, d.headers, body, ending, unlinked);
    }
  }

  /** Two sequential chunk requests for file `fileId` that both passed
      the checks (each is a `Transfer`, by `Serve`) and both finished leave
      its temp file holding its old bytes, then the first body, then the
      second, and the record marked as uploading. */
  method SequentialUploads(fileId: string, disk: map<string, seq<byte>>, record: Record,
                           declared1: Option<real>, body1: seq<seq<byte>>,
                           declared2: Option<real>, body2: seq<seq<byte>>)
    returns (disk': map<string, seq<byte>>, record': Record)
    ensures fileId in disk' && disk'[fileId] == TempFile(disk, fileId) + Flatten(body1) + Flatten(body2)
    ensures disk'[fileId] == TempFile(disk, fileId) + Flatten(body1 + body2)
    ensures record'.uploading
  {
    var res1, disk1, record1 := Transfer(fileId, declared1, disk, record, CorsHeaders, body1, Finished, true);
    var res2, disk2, record2 := Transfer(fileId, declared2, disk1, record1, CorsHeaders, body2, Finished, true);
    FlattenConcat(body1, body2);
    disk', record' := disk2, record2;
  }

  /** Declared progress 1.5 is recorded as 1, 0.42 as 0.42, and -0.2, 0
      and a value that is not a number are not recorded. */
  lemma ProgressExamples()
    ensures ProgressFields(Some(1.5)) == Fields(true, Some(1.0))
    ensures ProgressFields(Some(0.42)) == Fields(true, Some(0.42))
    ensures ProgressFields(Some(-0.2)) == Fields(true, None)
    ensures ProgressFields(Some(0.0)) == Fields(true, None)
    ensures ProgressFields(None) == Fields(true, None)
  {
  }

  /** The bytes of "hello". */
  const Hello: seq<byte> := [104, 101, 108, 108, 111]

  /** The bytes of "!". */
  const Bang: seq<byte> := [33]

  /** POST /ufs/avatars/f123?token=T&progress=0.5 */
  const HelloRequest := Request("/ufs/avatars/f123?token=T&progress=0.5", "/ufs/avatars/f123",
                                "POST", Some("T"), Some(0.5))

  /** The example request's url holds the prefix "ufs" at index 1. */
  lemma HelloUnderPrefix()
    ensures OccursAt(HelloRequest.url, "ufs", 1)
  {
    assert HelloRequest.url[1] == 'u' && HelloRequest.url[2] == 'f' && HelloRequest.url[3] == 's';
  }

  /** The example request passes every check and starts the upload of f123. */
  lemma HelloRouted()
    ensures Handle("ufs", HelloRequest, AvatarsEnv) ==
            Decision(CorsHeaders,
                     [StoreLookup("avatars"), FileLookup("avatars", "f123"), TokenCheck("avatars", Some("T"), "f123")],
                     StartUpload("avatars", "f123"))
  {
    HelloUnderPrefix();
    AvatarsRoute();
    PostChecksInOrder("ufs", HelloRequest, AvatarsEnv, "avatars", "f123");
  }

  /** The one-chunk body "hello", sent in full, writes "hello". */
  lemma HelloWritten()
    ensures Flatten(Sent([Hello], Finished)) == Hello
  {
    assert [Hello][..0] == [];
  }

  // The three examples below take the request as a parameter that their
  // `requires` fixes to HelloRequest, which keeps Dafny from unfolding the
  // literal request inside the ensures of Serve.

  /** The example upload with body "hello", where f123 exists and T is its
      token: the temp file holds "hello", the record gets {uploading: true,
      progress: 0.5}, and the answer is 204. */
  method HelloUpload(req: Request) returns (res: Response, disk': map<string, seq<byte>>, record': Record)
    requires req == HelloRequest
    ensures res.status == Some(204) && !res.nextCalled
    ensures res.headers == CorsHeaders["Content-Type" := "text/plain"]
    ensures disk' == map["f123" := Hello]
    ensures record' == Record(true, Some(0.5))
  {
    HelloRouted();
    HelloWritten();
    assert ProgressFields(Some(0.5)) == Fields(true, Some(0.5));
    ghost var d := Handle("ufs", req, AvatarsEnv);
    assert d.outcome == StartUpload("avatars", "f123") && d.headers == CorsHeaders;
    res, disk', record' := Serve("ufs", req, AvatarsEnv, map[], Record(false, None), [Hello], Finished, true);
    assert disk' == map[]["f123" := [] + Hello];
  }

  /** The same upload when writing its one chunk fails (none of it taken
      as written) and the unlink succeeds: the body still ends, so no temp
      file is left and the answer is 500, but the record gets
      {uploading: true, progress: 0.5}. */
  method HelloWriteFails(req: Request) returns (res: Response, disk': map<string, seq<byte>>, record': Record)
    requires req == HelloRequest
    ensures res.status == Some(500) && disk' == map[] && record' == Record(true, Some(0.5))
  {
    HelloRouted();
    assert ProgressFields(Some(0.5)) == Fields(true, Some(0.5));
    ghost var d := Handle("ufs", req, AvatarsEnv);
    assert d.outcome == StartUpload("avatars", "f123");
    res, disk', record' := Serve("ufs", req, AvatarsEnv, map[], Record(false, None), [Hello],
                                 SinkFailedThenEnded(0), true);
    assert SetFields(Record(false, None), Fields(true, Some(0.5))) == Record(true, Some(0.5));
    assert disk' == map[] - {"f123"};
  }

  /** Of the body "hello", "!" cut short after one chunk, "hello" is written. */
  lemma HelloWrittenBeforeBang()
    ensures Flatten(Sent([Hello, Bang], SinkFailedThenEnded(1))) == Hello
  {
    assert [Hello, Bang][..1] == [Hello];
    assert [Hello][..0] == [];
  }

  /** The upload of the body "hello", "!" when writing "!" fails, the
      unlink fails too and the body then ends: "hello" stays in the temp
      file, where the next chunk request will append to it, the answer is
      500, and the record gets {uploading: true, progress: 0.5}. */
  method HelloUnlinkFails(req: Request) returns (res: Response, disk': map<string, seq<byte>>, record': Record)
    requires req == HelloRequest
    ensures res.status == Some(500) && disk' == map["f123" := Hello] && record' == Record(true, Some(0.5))
  {
    HelloRouted();
    assert ProgressFields(Some(0.5)) == Fields(true, Some(0.5));
    ghost var d := Handle("ufs", req, AvatarsEnv);
    assert d.outcome == StartUpload("avatars", "f123");
    var ending := SinkFailedThenEnded(1);
    assert ending.SinkFailure() && ending.BodyEnded() && !ending.Finished?;
    HelloWrittenBeforeBang();
    assert SetFields(Record(false, None), Fields(true, Some(0.5))) == Record(true, Some(0.5));
    res, disk', record' := Serve("ufs", req, AvatarsEnv, map[], Record(false, None), [Hello, Bang], ending, false);
    assert disk' == map[]["f123" := [] + Hello];
  }
}
