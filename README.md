# Upload request handler of jalik-ufs, modelled in Dafny

This project models the receiving end of the jalik-ufs chunked upload
protocol: the Connect middleware that the server installs in
`packages/jalik-ufs/ufs-server.js`. A client streams a file to the server
in one or more POST requests to `<storesPath>/<store>/<fileId>?token=…&progress=…`.
The handler does four things:

- it routes the request;
- it checks the store, the file record and the upload token;
- it sets permissive CORS headers for known stores;
- it appends the body to an append-mode temp file for the file.

When the body ends, it marks the file record as uploading, with the
declared progress.

The model has four modules:

- `Options` (`options.dfy`): the optional value.
- `JsString` (`js_string.dfy`): `String.prototype.indexOf` and `substr` as
  the handler uses them.
- `Router` (`router.dfy`): the pure part of the handler. It covers the
  prefix test against the whole url, the path extraction from the pathname,
  the two-segment pattern `^\/([^\/\?]+)\/([^\/\?]+)$`, the CORS header set,
  and the choice between handing the request on, answering 400/403/404, and
  starting an upload. The store registry, the collection lookup and the token
  check are oracles (`Env`). Every question put to them is recorded in the
  `Decision`, so the order of the checks, and the absence of a check, can be
  stated.
- `Upload` (`upload.dfy`): the imperative part. It has the field set
  `{uploading, progress?}`, the `$set` update of the record, and the class
  `UploadStream`. That class holds one started upload: the temp file's bytes
  and whether the file exists, the sink, the record, the response and a
  phase, plus a ghost trace of the effects in order. Each request or sink
  event is one method.
  - `Transfer` runs one upload's events.
  - `Serve` composes the routing decision with the transfer, giving the whole
    handler for one request.

How the external pieces are modelled:

- `URL.parse` is replaced by taking the pathname as an input.
- `parseFloat(req.query.progress)` is an `Option<real>`, where `None` stands
  for NaN.
- The temp directory is a map from file id to bytes, because
  `getTempFilePath` depends on the file id only.
- The response is a status, the headers this handler set, and whether
  `next` was called.

A consequence of the code as written, shown by `Router.PrefixInQueryExample`:

- the prefix is looked for anywhere in the url, query string included;
- but the path is always cut from the pathname.

So `POST /abc/avatars/f123?x=ufs` is routed as an upload to store `avatars`.
Likewise, a GET for any url containing the prefix is answered 404.

A request (body stream) error answers 500 but leaves the partial temp file
in place (lines 166-169). Only a sink error unlinks it (lines 175-182).
After a sink error the `end` listener is still attached, so a body that then
ends still updates the record and closes the failed sink (lines 170-174):
a failed transfer can leave the record marked with the declared progress
although its bytes were removed, as `Upload.HelloWriteFails` shows.

## Model

| member | source | states |
|---|---|---|
| JsString.IndexOfFrom | packages/jalik-ufs/ufs-server.js:77 | the result is -1 or an index at or after `from` where the prefix occurs, and no earlier index from `from` holds it |
| JsString.IndexOf | packages/jalik-ufs/ufs-server.js:77 | -1 exactly when the prefix occurs nowhere in the url (query string included); otherwise the first occurrence |
| JsString.Substr | packages/jalik-ufs/ufs-server.js:84 | `substr(start)` has length max(0, length of s - start), and its i-th character is the character at start + i |
| Router.ExtractPath | packages/jalik-ufs/ufs-server.js:83-84 | the routed path is the pathname with its first (length of storesPath) + 1 characters dropped, and is empty when the pathname is shorter |
| Router.MatchPath | packages/jalik-ufs/ufs-server.js:94-95 | a successful match yields store and file id such that the path is "/" + store + "/" + fileId, with both segments non-empty and free of '/' and '?' |
| Router.MatchPathComplete | packages/jalik-ufs/ufs-server.js:119-120 | every path "/" + a + "/" + b with proper segments a and b matches, and its capture groups are (a, b), which is the round trip of parsing |
| Router.MatchPathIff | packages/jalik-ufs/ufs-server.js:94-95 | the match yields (a, b) if and only if the path is the upload route of a and b |
| Router.MatchPathFails | packages/jalik-ufs/ufs-server.js:94-98 | the match fails if and only if the path is the upload route of no pair of segments |
| Router.Handle | packages/jalik-ufs/ufs-server.js:75-194 | a url without the prefix is handed on with nothing set; the only headers set are the three CORS headers, and only after a lookup that found the store; the only statuses are 400, 403 and 404; an upload starts only for a POST whose route, store, file and token all check out |
| Router.MalformedPathRefused | packages/jalik-ufs/ufs-server.js:93-127 | an OPTIONS or POST under the prefix whose path is no upload route gets exactly 400, with no store lookup and no headers |
| Router.UnknownStoreRefused | packages/jalik-ufs/ufs-server.js:104-135 | for a well-formed OPTIONS or POST, an unknown store gets 404 after exactly one store lookup and without CORS headers |
| Router.PreflightAllowed | packages/jalik-ufs/ufs-server.js:112-115 | a well-formed OPTIONS for a known store sets exactly the three CORS headers and calls `next` without writing a status |
| Router.PostChecksInOrder | packages/jalik-ufs/ufs-server.js:137-153 | a well-formed POST for a known store has the CORS headers set; then the file lookup (404 when missing), then the token check (403 when refused), in that order, and the upload starts only when both pass |
| Router.OtherMethods | packages/jalik-ufs/ufs-server.js:188-193 | under the prefix a GET is always answered 404 with nothing else set, and any method other than OPTIONS, POST and GET is handed on untouched |
| Router.PathnameDecides | packages/jalik-ufs/ufs-server.js:77-84 | two requests with the prefix somewhere in their urls, the same pathname, method and token get the same decision |
| Router.PreflightExample | packages/jalik-ufs/ufs-server.js:93-115 | OPTIONS /ufs/avatars/f123 with store avatars present gets the three CORS headers and is handed on |
| Router.MissingSegmentExample | packages/jalik-ufs/ufs-server.js:117-127 | POST /ufs/avatars/ gets 400 with no store lookup and no CORS headers |
| Router.PrefixInQueryExample | packages/jalik-ufs/ufs-server.js:77-84 | POST /abc/avatars/f123?x=ufs, whose prefix is only in the query string, is routed as an upload to f123 in store avatars |
| Upload.ProgressFields | packages/jalik-ufs/ufs-server.js:157-161 | `uploading` is always true; `progress` is present if and only if the declared value is a number above 0, and it is then min(p, 1), so it lies in (0, 1] |
| Upload.ProgressExamples | packages/jalik-ufs/ufs-server.js:158-161 | declared 1.5 is recorded as 1 and 0.42 as 0.42; -0.2, 0 and NaN record no progress |
| Upload.RecordedProgressInRange | packages/jalik-ufs/ufs-server.js:157-172 | after any series of ended bodies, whatever progress their requests declared, the record's progress is absent or in (0, 1] (given it was so before), and the record is marked as uploading once one body has ended |
| Upload.RecordedProgressIsLastDeclared | packages/jalik-ufs/ufs-server.js:157-172 | the recorded progress is the clamped progress of the last request that declared a number above 0; later requests declaring none leave it as it was |
| Upload.FlattenConcat | packages/jalik-ufs/ufs-server.js:163-165 | the bytes of two runs of chunks sent one after the other are the bytes of the first followed by those of the second |
| Upload.UploadStream.constructor | packages/jalik-ufs/ufs-server.js:155-161 | opening the temp file in append mode keeps its old bytes (or creates it empty); the field set comes from the declared progress; no status is written yet |
| Upload.UploadStream.Data | packages/jalik-ufs/ufs-server.js:163-165 | a data event appends its chunk to the temp file and changes nothing else |
| Upload.UploadStream.Receive | packages/jalik-ufs/ufs-server.js:163-165 | a run of data events leaves the temp file holding its prior bytes followed by the chunks in arrival order |
| Upload.UploadStream.RequestError | packages/jalik-ufs/ufs-server.js:166-169 | a request error writes 500 and leaves the temp file, its bytes, the sink and the record as they were |
| Upload.UploadStream.End | packages/jalik-ufs/ufs-server.js:170-174 | the end of the body, which happens once, updates the record with the field set and then closes the sink (in that order in the trace), and writes no status; it also runs after a sink error, where it leaves the 500 and the file as they were |
| Upload.UploadStream.SinkError | packages/jalik-ufs/ufs-server.js:175-182 | a sink error, while the body arrives or after its end from a write still being flushed, attempts the unlink and then writes 500; the temp file is gone exactly when the unlink succeeded, and otherwise keeps its bytes |
| Upload.UploadStream.Finish | packages/jalik-ufs/ufs-server.js:183-186 | only the finish of the sink writes 204, with a text/plain Content-Type, after the record update and the close |
| Upload.Transfer | packages/jalik-ufs/ufs-server.js:155-186 | one started upload ends in 204 only when it finished, else in 500; a sink failure leaves no temp file when the unlink succeeds, and when it fails the bytes of the chunks counted as written (all of them for a failure after the end of the body); a request failure leaves the bytes sent so far; the record is updated exactly when the end of the body was reached, also after a sink failure |
| Upload.Serve | packages/jalik-ufs/ufs-server.js:75-194 | a request that starts no upload leaves the temp files and the record untouched and answers as the decision says; a started upload has the effects of its transfer |
| Upload.SequentialUploads | packages/jalik-ufs/ufs-server.js:155-165 | two sequential finished chunk requests for one file with bodies B1 and B2 leave its temp file holding its old bytes, then the bytes of B1, then those of B2, which are the bytes one request carrying both bodies would write, and the record marked as uploading |
| Upload.HelloRouted | packages/jalik-ufs/ufs-server.js:117-153 | POST /ufs/avatars/f123?token=T&progress=0.5 for an existing file with token T passes all three checks, in order, and starts the upload |
| Upload.HelloUpload | packages/jalik-ufs/ufs-server.js:155-186 | that request with body "hello" leaves a temp file holding "hello", the record at {uploading: true, progress: 0.5}, and the answer 204 |
| Upload.HelloWriteFails | packages/jalik-ufs/ufs-server.js:170-182 | that request, when writing its one chunk fails, the unlink succeeds and the body then ends, leaves no temp file and answers 500, but the record becomes {uploading: true, progress: 0.5} |
| Upload.HelloUnlinkFails | packages/jalik-ufs/ufs-server.js:170-182 | that request with body "hello", "!", when writing "!" fails, the unlink fails too and the body then ends, leaves "hello" in the temp file, answers 500 and sets the record to {uploading: true, progress: 0.5} |

## Left out

- Temp directory bootstrap (lines 43-64): `fs.stat`, `mkdirp` and `chmod` at start-up are filesystem I/O outside request handling.
- The `domain` error boundary (lines 66-72): it is process-level fault isolation, and the handler never runs inside it, so there is nothing to model.
- Console logging (lines 176, 178): it has no effect on the response or the files. The failed unlink it reports is modelled as the `unlinked` outcome.
- `URL.parse`: the pathname is an input. The model assumes the pathname is always present; a url with a null pathname would make `substr` throw.
- `parseFloat` and IEEE 754: the declared progress is an `Option<real>`. Infinity, which `Math.min` would clamp to 1, is not representable.
- Query-string parsing of `req.query`: the token and the progress are inputs.
- `UploadFS.getStore`, the collection `find().count()`, `checkToken` and `direct.update`: these are foreign Meteor/Mongo calls. They are oracle functions, or the `SetFields` update of the two upload fields of the record; the rest of the record is not modelled.
- `getTempFilePath`: it is replaced by keying temp files on the file id.
- The HTTP plumbing of `res.writeHead` / `res.end`: the response is a status and a header map. `Meteor.bindEnvironment` is not modelled either.
- Concurrent requests for the same file id and event-loop scheduling: the model covers one request's events, and sequential requests only.
- Events after the first error, other than the end of the body after a sink error, are not modelled. Data events after a sink error are writes to the failed stream; the model takes them to have no effect. A second error after a first is not modelled either; its second `writeHead` would throw in Node. The `end` of a body after a request error is not modelled, since Node does not emit it.
- Upload.Serve: covers an upload that ends in one of five ways (finished; request failure after k chunks; sink failure after k chunks with a body that never ends; sink failure after k chunks followed by the end of the body; after the end of the body, a failure of a write still being flushed); a wider interleaving of events is left out as above.
- Upload.UploadStream.SinkError: the unlink is asynchronous and the 500 is written before it completes; the model completes the unlink, with its outcome, before the 500. So a retry sent as soon as the 500 arrives, which may append to the old file before it is removed, is not modelled. When the unlink fails, the model keeps the bytes of the chunks written before the error; how much of the failing write reached the disk is not modelled. For a write that fails after the end of the body, still being flushed, the model counts every chunk as written, so a failed unlink there keeps every chunk's bytes, the failing one's included.
- A failure of closing the sink itself is not modelled. The write stream closes its file descriptor on `finish`, so such a failure comes after the 204 of lines 183-186; its listener would then unlink the file and call `writeHead` a second time, which throws in Node.
- Upload.UploadStream.constructor: the append-mode open of line 156 is assumed to succeed. In the source it is asynchronous and can fail (a missing temp directory, for one), reaching the listener at line 175; then no file is created, the unlink fails, and no temp file is left, where the model would leave the prior bytes or an empty file.
- JsString.IndexOf, JsString.Substr, Router.ExtractPath: Dafny strings are sequences of Unicode scalar values, while `length`, `indexOf` and `substr` (lines 77, 84) count UTF-16 code units. The two agree on strings without characters outside the Basic Multilingual Plane, which include every url Node decodes as latin1.
