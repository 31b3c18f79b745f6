# smirror core, modelled in Dafny

smirror mirrors Cloud Storage objects. A storage event names an object. The
service picks the configured route for its URL and copies the object to the
route's destination. The destination is either a storage URL (an upload) or
a message topic (a publish). A route can also split the object into chunks of
lines, and each chunk is written and transferred on its own. Before a line
reaches its destination it can be repaired by a recovering reader:
- a find/replace pass;
- a JSON validity filter;
- a CSV shape rule that cuts or pads every record to a fixed number of fields.

The model has these modules:

- `Common` (common.dfy) holds Go's byte, errors and optional values, and Go's
  int32 counter. `Inc32` and `Count32` give the counter; `Wrap32` is the
  modulo-2^32 reference it is proved against.
- `Delimited` (delimited.dfy) joins byte strings with a separator and splits
  them at it, with the split-of-join round trip.
- `Repair` (repair.dfy) is the pure specification of the recovering reader:
  - `RepairLine` repairs one scanned line;
  - `RecoverCsvSpec` and `Shape` are the CSV shape rule, and `Adjusted` is the field rules;
  - `KeptOf` gives the kept records in order;
  - `Run`/`Absorb` is the buffer and int32 count that transform builds step by step;
  - `Emit` is the same output per kept record.

  The lemmas connect `Run` to "the kept records joined by line breaks" below
  2^31 records. They also show that the line break disappears once the
  count wraps.
- `Recover` (recover.dfy) is the reader itself. It is a class with the
  struct's fields: count, buf, transient, pending, readEOF and writeEOF.
  `Transform`, `RecoverCsv`, `AdjustCsvDataType` and `Read` are proved
  against `Repair`. The invariant is that the bytes handed out, followed by
  the bytes buffered, are exactly what `Run` produces for the tokens
  consumed so far.
- `SimpleCsv` (simple_csv.dfy) instantiates the CSV codec with an unquoted
  split/join codec. For that codec it proves the shape rule's promise: a
  repaired line reads back with exactly the configured number of fields,
  and repairing is idempotent.
- `Chunk` (writer.dfy) is the chunk writer together with its gzip and no-op
  closers over an in-memory buffer.
- `Mirror` (service.dfy) is the service's decision logic. Everything it asks
  of configuration, secrets, storage, Split and the message bus is an
  outcome in `Env`. A pure function gives what each step adds to the
  response (`Effect`). Each method that updates the shared `Response` is
  proved to apply that effect. `ChunkFactory` is `chunkWriter`'s factory,
  with its int32 ordinal counter.
- `Event` (event.dfy) is the storage event and its `gs://` URL, with the
  parse-back round trip.

Where the code and its description disagree, the model follows the code:

- **JSON policy with field rules.** `json.Unmarshal` is handed the map by
  value, not by pointer, so it fills nothing. The field loop finds no key,
  and a valid line comes out as exactly `{}`.
- **Read into an empty p after exhaustion.** A `Read` into a zero-length
  `p` after the scanner is exhausted ends the stream (`writeEOF`), even
  when bytes are still buffered. Bytes can remain buffered at that point
  only when the replacer rewrites the empty end-of-scan token into text:
  otherwise the read that reaches exhaustion empties the buffer, because
  lines are pulled only while fewer than len(p) bytes are pending.
- **Download error in chunked mirroring.** In `mirrorChunkedAsset`, a
  download error is not returned. The nil reader goes to `Split`, and
  Split's result takes the error's place.

## Model

| member | source | states |
|---|---|---|
| Common.Inc32 | config/recover/reader.go:83 | an int32 `++` stays within int32 |
| Common.Count32Exact | config/recover/reader.go:83 | below 2^31 increments the int32 counter equals the number of increments |
| Common.Inc32IsWrap | config/recover/reader.go:83 | one int32 `++` is addition modulo 2^32 read as two's complement (the maximum wraps to the minimum) |
| Common.Count32IsWrap | config/recover/reader.go:20 | after n increments from 0 the counter is n modulo 2^32 read as an int32 |
| Repair.Shape | config/recover/reader.go:99-105 | the reshaped record has exactly fieldCount fields: the read fields up to that width, then empty fields |
| Repair.Adjusted | config/recover/reader.go:146-160 | the field rules keep the record's width |
| Repair.AdjustedUntargeted | config/recover/reader.go:146-160 | the field rules change only the columns they name; every other column keeps its text |
| Repair.RepairLine | config/recover/reader.go:39-74 | a line is kept only if it is non-empty after the replacer; without a repair policy it is the replaced line itself |
| Repair.RecoverCsvSpec | config/recover/reader.go:87-118 | an unparsable line is dropped; an exact-width record returns the line unchanged; otherwise the result is the CSV writer's output for the reshaped record without its final terminator byte |
| Repair.KeptOfShape | config/recover/reader.go:46-74 | at most one record is kept per scanned line, and no kept record is empty |
| Repair.EmitSnoc | config/recover/reader.go:72-83 | a dropped line adds nothing to the output; a kept one adds its separator and its bytes |
| Repair.RunIsEmit | config/recover/reader.go:35-85 | the buffer transform builds line by line is the kept records' output, and the count is the int32 count of kept records |
| Repair.EmitIsJoin | config/recover/reader.go:76-83 | below 2^31 records the output is the kept records with one line break between neighbours and none at either end |
| Repair.JoinBreaksAtWrap | config/recover/reader.go:76-83 | at 2^31 kept records the count wraps negative, and the next record is appended with no line break |
| Repair.OutputIsJoin | config/recover/reader.go:35-85 | below 2^31 scanned lines the reader's whole output is the kept records joined by line breaks |
| Repair.OutputSplitsIntoRecords | config/recover/reader.go:76-82 | splitting the output at line breaks gives back the kept records, when none holds a line break |
| Repair.JsonLines | config/recover/reader.go:49-71 | under a JSON policy a line is kept exactly when it is non-empty and valid JSON; it is kept as is without field rules, and as `{}` with them |
| Repair.CsvLines | config/recover/reader.go:53-98 | under a CSV policy an unparsable line is dropped and an exact-width record is kept byte for byte |
| Recover.Reader.constructor | config/recover/reader.go:164-175 | a new reader has consumed nothing, buffered nothing, counted nothing, and both end flags are clear |
| Recover.Reader.Transform | config/recover/reader.go:35-85 | one token is consumed (the nil token once the scanner is exhausted), never fails, and the buffer and count are still what Run gives for the consumed tokens |
| Recover.Reader.Append | config/recover/reader.go:76-84 | the buffer gains a line break when the count is positive and then the record; pending tracks the buffer; the count is incremented in int32 |
| Recover.Reader.RepairToken | config/recover/reader.go:39-74 | the repaired line is RepairLine of the token, and the scratch buffer ends empty |
| Recover.Reader.RecoverCsv | config/recover/reader.go:87-118 | the result is the CSV shape rule: dropped on a parse error, unchanged at exact width, otherwise the reshaped record written without its terminator |
| Recover.Reader.AdjustCsvDataType | config/recover/reader.go:146-160 | the record array afterwards is the field rules applied in order to its old contents |
| Recover.Reader.Fill | config/recover/reader.go:124-130 | lines are pulled only while fewer than the wanted bytes are pending, and until enough are pending or the scanner is exhausted |
| Recover.Reader.BufferRead | config/recover/reader.go:132 | as many buffered bytes as fit are copied out, and the rest of p is untouched; an empty buffer gives EOF unless p is empty |
| Recover.Reader.Read | config/recover/reader.go:120-142 | after the end of stream Read returns 0 and EOF and changes nothing; otherwise it hands out the next min(len(p), available) bytes of the reader's output and pulled no line it did not need; a read into a non-empty p that returns nothing after exhaustion ends the stream, and the bytes delivered by then are the whole output |
| SimpleCsv.RecoveredWidth | config/recover/reader.go:87-118 | with an unquoted codec, a recovered line reads back as the read fields cut or padded to exactly fieldCount |
| SimpleCsv.RecoverIdempotent | config/recover/reader.go:87-118 | with an unquoted codec, recovering a recovered line changes nothing |
| SimpleCsv.KeptRecordWidth | config/recover/reader.go:35-57 | under a CSV policy with an unquoted codec, every record the reader keeps has exactly fieldCount fields |
| Event.StorageEvent.URL | event/event.go:12-14 | the URL is "gs://", the bucket, "/", then the object name, six characters longer than bucket and name together |
| Event.ParseURLOfURL | event/event.go:12-14 | for a bucket without '/', the event is recovered from its URL |
| Event.URLOfParseURL | event/event.go:12-14 | every parsable gs:// URL is the URL of the event it parses to |
| Chunk.NopCloser.Close | writer.go:58 | closing the no-op closer always succeeds |
| Chunk.NopCloser.Write | writer.go:54-64 | writes through the no-op closer append to the wrapped buffer |
| Chunk.GzipWriter.Write | writer.go:33-34 | bytes written to the gzip writer are collected as its input |
| Chunk.GzipWriter.Flush | writer.go:43-45 | the flush reports the library's error |
| Chunk.GzipWriter.Close | writer.go:47-49 | a successful close appends the gzip stream of everything written to the buffer; a failed one changes nothing |
| Chunk.Writer.constructor | writer.go:24-38 | a new writer is open over a fresh buffer, with no Reader, and goes through gzip exactly when the route's compression codec is gzip |
| Chunk.Writer.Write | writer.go:15 | bytes go through the current WriteCloser; without gzip they land in the buffer unchanged |
| Chunk.Writer.Close | writer.go:41-52 | a gzip flush or close error is returned with no Reader and no listener call; otherwise the Reader becomes the buffer (the written bytes, or their gzip stream), the listener is called once, and its result is returned |
| Mirror.Response.constructor | service.go:38 | a new response is StatusOK with no error, URLs or message IDs |
| Mirror.Response.AddURL | service.go:186 | the URL is appended and nothing else changes |
| Mirror.Response.AddMessageIDs | service.go:168 | the IDs are appended and nothing else changes |
| Mirror.Service.Mirror | service.go:37-46 | the response records the run's URLs and message IDs; an error gives StatusError with its text, an unmatched URL StatusNoMatch, otherwise StatusOK |
| Mirror.Service.Run | service.go:48-74 | error, status and recorded URLs/IDs are those of MirrorOutcome |
| Mirror.Service.MirrorAsset | service.go:76-113 | error and recorded URLs/IDs are those of AssetEffect |
| Mirror.Service.MirrorChunkedAsset | service.go:115-139 | error and recorded URLs/IDs are those of ChunkedEffect: the error before Split or Split's own, and every chunk's transfer appended to the response in chunk order |
| Mirror.Service.OpenSplitInput | service.go:116-126 | a storage-options or decoding error stops the chunked path; a failed download hands Split a nil reader |
| Mirror.Service.RecordChunks | service.go:132-134 | the factory hands out one writer per chunk, in order, and the response gains exactly what the chunks' listeners recorded |
| Mirror.Service.RecordNext | service.go:132-134 | one more chunk appends to the response exactly that chunk's records, after those of the chunks before it |
| Mirror.Service.SplitChunk | service.go:216-232 | one chunk: a fresh writer with the next ordinal, the chunk's bytes written and the writer closed; its listener's transfer of the (possibly gzip-compressed) bytes to the chunk URL is recorded, and the verdict it returns, which is what Close returns, is that transfer's error |
| Mirror.Service.TransferData | service.go:141-149 | error and recorded URLs/IDs are those of TransferEffect |
| Mirror.Service.Publish | service.go:151-172 | error and recorded IDs are those of PublishEffect |
| Mirror.Service.Upload | service.go:174-188 | error and recorded URLs are those of UploadEffect |
| Mirror.Service.ChunkCallback | service.go:220-232 | error and recorded URLs/IDs are those of ChunkEffect |
| Mirror.ChunkFactory.constructor | service.go:132 | the ordinal counter starts at 0 with no writer handed out |
| Mirror.ChunkFactory.Next | service.go:215-234 | each call increments the int32 ordinal, names the chunk's URL from it, and returns a fresh open writer whose listener transfers the chunk uncompressed to that URL |
| Mirror.TransferEffectShape | service.go:141-188 | a failed transfer records nothing; a topic wins and records exactly the published IDs; otherwise an upload records exactly the destination URL; with neither a topic nor a URL the transfer fails |
| Mirror.PublishNeedsGs | service.go:160-171 | publishing from a non-gs source fails with "unsupported message msgbus" and the scheme |
| Mirror.PrecedenceKeepsFirst | service.go:69-73 | the run's own error is never replaced by an action error; without one the action error is returned |
| Mirror.CompressionsDropped | service.go:86-91 | when the source's compression equals the destination's, both are dropped; otherwise both are kept |
| Mirror.AssetEffectShape | service.go:76-113 | whole-file mirroring either fails and records nothing, or records exactly one URL (upload) or only message IDs (publish) |
| Mirror.MirrorOutcomeFacts | service.go:48-74 | an unmatched URL gives no error, no transfer and no action; a matched one takes the chunked path exactly when the route splits and records what that path records, and the actions' error counts only when the run had none |
| Mirror.ChunkedErrorCases | service.go:115-139 | a storage-options or decoding error ends the chunked path with nothing recorded; a failed download never surfaces, because the result is Split's on the nil reader; otherwise it is Split's on the decoded reader |
| Mirror.ChunksRecordsShape | service.go:215-234 | the chunk transfers record at most one URL per chunk, each the URL of one of the chunks; a topic records no URL and a storage destination no message ID |
| Mirror.ChunksUploaded | service.go:215-234 | when every chunk's upload succeeds the response lists every chunk URL once in chunk order, and below 2^31 chunks the j-th carries ordinal j |
| Mirror.ChunkedEffectShape | service.go:115-139 | the chunked path records something only once Split was reached, and every URL it records is one of Split's chunk URLs |
| Mirror.RecordsOnlyOnSuccess | service.go:48-139 | URLs or message IDs are recorded only when a route matched; for a whole-file route its transfer then succeeded and the only possible error is the actions'; for a split route Split was reached and every URL is one of its chunks' URLs |
| Mirror.ChunkEffectGuard | service.go:220-232 | a writer without a Reader is refused with "writer reader was empty"; otherwise the chunk is transferred uncompressed to its URL |
| Mirror.ChunkOrdinals | service.go:215-219 | below 2^31 chunks the n-th writer gets ordinal n, one more than the previous |

## Left out

- The scanner's limits (the 1 MiB initial and 10 MiB maximum token size) and `bufio.ErrTooLong` are left out. The scanner is its sequence of lines, and splitting a stream into lines is not modelled.
- `Recover.Reader.Read` never returns transform's error in the model, because transform always returns nil in the source.
- Negative `Position` and `FieldCount` values are left out: both are naturals here, because a negative value panics or never matches in Go.
- A nil `recover` is read as "not JSON" (line 58 of reader.go), because `config.Recover.IsJSON` is not part of this model.
- The JSON field loop (reader.go lines 59-67) is not written as a loop. Its map is always empty, so the loop never finds a key, and `AdjustValue` is never applied.
- The CSV reader and writer (quoting, the delimiter, `encoding/csv` errors), the replacer and `json.Valid` are function values of the rule. Only `SimpleCsv` fixes a concrete, unquoted codec.
- `byteToString` is left out: it is an unsafe zero-copy conversion with no observable effect.
- gzip's compressed stream is the opaque function `compress`. Whatever `Flush` pushes to the buffer is counted as written at `Close`, and the errors `Flush` and `Close` report are parameters.
- Chunk.Writer.Close: the listener sees only the writer's Reader, not the whole writer, because it reads nothing else.
- Chunk.Writer.Close requires an open writer. Closing twice is outside what the source supports.
- `Chunk.Writer.Write` requires an open writer. In the source, a Write after Close on the uncompressed path still appends to the buffer that has become the Reader; the model does not capture that.
- Concurrency is left out: the WaitGroup, `atomic.AddInt32` and the service mutex. Chunks are written and closed one after another in the order Split asks for writers, so the response lists their URLs and IDs in chunk order. If Split closed writers concurrently, the order could differ.
- A Dafny function value cannot change the response, so the listener installed by `Mirror.ChunkFactory.Next` gives only the transfer's error. `Mirror.Service.SplitChunk` makes the same transfer through `Mirror.Service.ChunkCallback` to record it, and proves that both give the same verdict.
- `Split` is an outcome in `Env`: the bytes it writes to each chunk writer and the error it returns. Its line counting (`MaxLines`) is not modelled, and neither is its handling of the writers' Close errors.
- Mirror.Service.SplitChunk closes each chunk writer with no gzip fault, because gzip over an in-memory buffer does not fail. A faulting Close, which gives no listener call, is covered only by `Chunk.Writer.Close`.
- Several collaborators are outcomes in `Env`, not code: `Init`, configuration loading, route matching and naming, `HasChanged`, secrets, storage (download and upload), `NewReader`, `Transfer.GetReader`, `ioutil.ReadAll`, the message bus and route actions.
- `NewResponse` is not part of this model. It is taken to start at StatusOK with empty fields.
- `TimeTakenMs` and the clock are left out.
- `New` is left out: it builds the service's collaborators.
- The readers' `Close` calls are left out, because they affect no observable result.
