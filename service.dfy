/** The mirror service of service.go, reduced to its decisions. Everything it
    asks of configuration, secrets, storage and the message bus is an outcome
    in Env; what a step adds to the response is an Effect. Each method that
    updates the shared Response is proved against the function giving its
    Effect, and the lemmas at the end state what the decisions promise. */
module Mirror {
  import opened Common
  import opened Config
  import Chunk

  /** The terminal status of a response. */
  datatype Status = StatusOK | StatusNoMatch | StatusError

  /** The triggering request: the URL of the source object. */
  datatype Request = Request(url: string)

  /** The destination file of a transfer: its URL and its compression. */
  datatype Datafile = Datafile(url: string, compression: Option<Compression>)

  /** Transfer: where the data goes (a storage URL or a topic), the data, and the destination file. */
  datatype Transfer = Transfer(resource: Resource, reader: Bytes, dest: Datafile)

  /** The outcomes of the collaborators the service calls. */
  datatype Env = Env(
    /** config.SourceScheme */
    sourceScheme: string,
    /** config.Meta.HasChanged */
    hasChanged: Result<bool>,
    /** Init: reloading routes and secrets */
    init: Option<Error>,
    /** config.Routes.HasMatch */
    routeFor: string -> Option<Route>,
    /** secret.StorageOpts: its error, if any */
    storageOpts: Resource -> Option<Error>,
    /** DownloadWithURL */
    download: string -> Result<Bytes>,
    /** config.NewCompressionForURL */
    compressionForURL: string -> Option<Compression>,
    /** Compression.Equals */
    sameCompression: (Option<Compression>, Option<Compression>) -> bool,
    /** NewReader: the stream decoded for the given compression; None is a nil reader */
    newReader: (Bytes, Option<Compression>) -> Result<Option<Bytes>>,
    /** Route.Name */
    destName: (Route, string) -> string,
    /** url.Join */
    join: (string, string) -> string,
    /** Transfer.GetReader */
    getReader: Transfer -> Result<Bytes>,
    /** ioutil.ReadAll */
    readAll: Bytes -> Result<Bytes>,
    /** msgbus.Publish(topic, data, attributes with Dest = destination URL) */
    publish: (string, Bytes, string) -> Result<seq<string>>,
    /** Upload(destination URL, data): its error, if any */
    upload: (string, Bytes) -> Option<Error>,
    /** the %v rendering of a transfer */
    render: Transfer -> string,
    /** Route.Actions.Run on the run's error: its error, if any */
    actions: (Route, Option<Error>, string) -> Option<Error>,
    /** Split over the (possibly nil) reader: what it wrote to each chunk writer, and its error */
    split: (Route, Option<Bytes>) -> SplitRun,
    /** Route.Split.Name(route, URL, ordinal) */
    chunkName: (Route, string, int) -> string,
    /** the gzip stream of some bytes */
    compress: Bytes -> Bytes)

  /** What Split did with the writers chunkWriter hands it: the bytes it wrote
      to each one before closing it, in the order it asked for them, and the
      error it returned. */
  datatype SplitRun = SplitRun(chunks: seq<Bytes>, err: Option<Error>)

  /** The scheme of Cloud Storage sources, the one publishing supports. */
  const GsScheme: string := "gs"

  /** What a step adds to the response (destination URLs, message IDs) and its error. */
  datatype Effect = Effect(err: Option<Error>, urls: seq<string>, ids: seq<string>)

  function Failed(e: Error): Effect {
    Effect(Some(e), [], [])
  }

  /** publish: read the transfer's data, then publish it when the source scheme is gs. */
  function PublishEffect(env: Env, t: Transfer): Effect {
    match env.getReader(t)
    case Fail(e) => Failed(e)
    case Ok(reader) =>
      match env.readAll(reader)
      case Fail(e) => Failed(e)
      case Ok(data) =>
        if env.sourceScheme == GsScheme then
          match env.publish(t.resource.topic, data, t.dest.url)
          case Fail(e) => Failed(e)
          case Ok(ids) => Effect(None, [], ids)
        else Failed(Error("unsupported message msgbus " + env.sourceScheme))
  }

  /** upload: get the transfer's reader and the storage options, upload, and record the URL. */
  function UploadEffect(env: Env, t: Transfer): Effect {
    match env.getReader(t)
    case Fail(e) => Failed(e)
    case Ok(reader) =>
      match env.storageOpts(t.resource)
      case Some(e) => Failed(e)
      case None =>
        match env.upload(t.dest.url, reader)
        case Some(e) => Failed(e)
        case None => Effect(None, [t.dest.url], [])
  }

  /** transfer: a topic means publish, otherwise a URL means upload. */
  function TransferEffect(env: Env, t: Transfer): Effect {
    if t.resource.topic != "" then PublishEffect(env, t)
    else if t.resource.url != "" then UploadEffect(env, t)
    else Failed(Error("invalid transfer: " + env.render(t)))
  }

  /** The source and destination compressions mirrorAsset reads with: both
      dropped when the source's equals the destination's. */
  function Compressions(env: Env, route: Route, url: string): (Option<Compression>, Option<Compression>) {
    var source, dest := env.compressionForURL(url), route.compression;
    if env.sameCompression(source, dest) then (None, None) else (source, dest)
  }

  /** mirrorAsset: download the object, decode it, and transfer it whole. */
  function AssetEffect(env: Env, route: Route, url: string): Effect {
    match env.storageOpts(route.source)
    case Some(e) => Failed(e)
    case None =>
      match env.download(url)
      case Fail(e) => Failed(e)
      case Ok(content) =>
        var (source, dest) := Compressions(env, route, url);
        match env.newReader(content, source)
        case Fail(e) => Failed(e)
        case Ok(reader) =>
          if reader.None? then Failed(Error("reader was empty"))
          else
            var destURL := env.join(route.dest.url, env.destName(route, url));
            TransferEffect(env, Transfer(route.dest, reader.value, Datafile(destURL, dest)))
  }

  /** The reader mirrorChunkedAsset hands to Split, or the error that ends it
      first. A failed download is not an error here: Split gets a nil reader. */
  function SplitInput(env: Env, route: Route, url: string): Result<Option<Bytes>> {
    match env.storageOpts(route.source)
    case Some(e) => Fail(e)
    case None =>
      match env.download(url)
      case Fail(_) => Ok(None)
      case Ok(content) =>
        match env.newReader(content, env.compressionForURL(url))
        case Fail(e) => Fail(e)
        case Ok(reader) => Ok(reader)
  }

  /** The destination URL of the chunk with the given ordinal. */
  function ChunkURL(env: Env, route: Route, url: string, ordinal: int): string {
    env.join(route.dest.url, env.chunkName(route, url, ordinal))
  }

  /** What a closed chunk writer exposes as its Reader: the bytes written to
      it, gzip-compressed when the route asks for gzip. */
  function ChunkReader(env: Env, route: Route, chunk: Bytes): Bytes {
    if UsesGzip(route) then env.compress(chunk) else chunk
  }

  /** The listener's effect for chunk j of the split (counting from 0), whose ordinal is the counter's (j + 1)-th value. */
  function ChunkStep(env: Env, route: Route, url: string, chunks: seq<Bytes>, j: nat): Effect
    requires j < |chunks|
  {
    ChunkEffect(env, route, ChunkURL(env, route, url, Count32(j + 1)), Some(ChunkReader(env, route, chunks[j])))
  }

  /** u is the URL of one of the first n chunks. */
  ghost predicate IsChunkURL(env: Env, route: Route, url: string, n: nat, u: string) {
    exists j :: 1 <= j <= n && u == ChunkURL(env, route, url, Count32(j))
  }

  /** What the listeners of the first k chunks add to the response, in chunk order. */
  function ChunksRecords(env: Env, route: Route, url: string, chunks: seq<Bytes>, k: nat): Effect
    requires k <= |chunks|
  {
    if k == 0 then Effect(None, [], [])
    else
      var prev, step := ChunksRecords(env, route, url, chunks, k - 1), ChunkStep(env, route, url, chunks, k - 1);
      Effect(None, prev.urls + step.urls, prev.ids + step.ids)
  }

  /** mirrorChunkedAsset: Split's error (or the error before it), and what
      every chunk's transfer recorded. */
  function ChunkedEffect(env: Env, route: Route, url: string): Effect {
    match SplitInput(env, route, url)
    case Fail(e) => Failed(e)
    case Ok(reader) =>
      var run := env.split(route, reader);
      var records := ChunksRecords(env, route, url, run.chunks, |run.chunks|);
      Effect(run.err, records.urls, records.ids)
  }

  /** An action error becomes the run's error only when the run had none. */
  function Precedence(runErr: Option<Error>, actionErr: Option<Error>): Option<Error> {
    if actionErr.Some? && runErr.None? then actionErr else runErr
  }

  /** What mirror does: whether no route matched, and its effect. */
  datatype Outcome = Outcome(noMatch: bool, effect: Effect)

  /** mirror: reload the configuration when it changed, find the route, take
      the chunked or the whole-file path, then run the route's actions. */
  function MirrorOutcome(env: Env, url: string): Outcome {
    match env.hasChanged
    case Fail(e) => Outcome(false, Failed(e))
    case Ok(changed) =>
      if changed && env.init.Some? then Outcome(false, Failed(env.init.value))
      else
        match env.routeFor(url)
        case None => Outcome(true, Effect(None, [], []))
        case Some(route) =>
          var run := if route.split.Some? then ChunkedEffect(env, route, url)
                     else AssetEffect(env, route, url);
          Outcome(false, run.(err := Precedence(run.err, env.actions(route, run.err, url))))
  }

  /** The chunk writer's listener: a writer without a Reader is refused,
      otherwise its buffer is transferred to the chunk's URL, uncompressed. */
  function ChunkEffect(env: Env, route: Route, destURL: string, reader: Option<Bytes>): Effect {
    match reader
    case None => Failed(Error("writer reader was empty"))
    case Some(data) => TransferEffect(env, Transfer(route.dest, data, Datafile(destURL, None)))
  }

  /** The Response content the run fills in. */
  class Response {
    var status: Status
    var error: string
    var urls: seq<string>
    var messageIDs: seq<string>

    /** NewResponse. */
    constructor ()
      ensures status == StatusOK && error == "" && urls == [] && messageIDs == []
    {
      status := StatusOK;
      error := "";
      urls := [];
      messageIDs := [];
    }

    method AddURL(url: string)
      modifies this
      ensures urls == old(urls) + [url]
      ensures status == old(status) && error == old(error) && messageIDs == old(messageIDs)
    {
      urls := urls + [url];
    }

    method AddMessageIDs(ids: seq<string>)
      modifies this
      ensures messageIDs == old(messageIDs) + ids
      ensures status == old(status) && error == old(error) && urls == old(urls)
    {
      messageIDs := messageIDs + ids;
    }
  }

  /** The service: its collaborators' outcomes. */
  class Service {
    const env: Env

    constructor (env: Env)
      ensures this.env == env
    {
      this.env := env;
    }

    /** Mirror: run mirror on a fresh response; an error becomes StatusError with its text. */
    method Mirror(request: Request) returns (response: Response)
      ensures fresh(response)
      ensures var o := MirrorOutcome(env, request.url);
              && response.status == (if o.effect.err.Some? then StatusError
                                     else if o.noMatch then StatusNoMatch else StatusOK)
              && response.error == (if o.effect.err.Some? then o.effect.err.value.text else "")
              && response.urls == o.effect.urls
              && response.messageIDs == o.effect.ids
    {
      response := new Response();
      var err := Run(request, response);
      if err.Some? {
        response.status := StatusError;
        response.error := err.value.text;
      }
    }

    /** mirror. */
    method Run(request: Request, response: Response) returns (err: Option<Error>)
      modifies response
      ensures var o := MirrorOutcome(env, request.url);
              && err == o.effect.err
              && response.status == (if o.noMatch then StatusNoMatch else old(response.status))
              && response.error == old(response.error)
              && response.urls == old(response.urls) + o.effect.urls
              && response.messageIDs == old(response.messageIDs) + o.effect.ids
    {
      match env.hasChanged {
        case Fail(e) => return Some(e);
        case Ok(changed) =>
          if changed {
            err := env.init;
            if err.Some? {
              return;
            }
          }
      }
      var route := env.routeFor(request.url);
      if route.None? {
        response.status := StatusNoMatch;
        return None;
      }
      if route.value.split.Some? {
        err := MirrorChunkedAsset(route.value, request, response);
      } else {
        err := MirrorAsset(route.value, request.url, response);
      }
      var e := env.actions(route.value, err, request.url);
      if e.Some? && err.None? {
        err := e;
      }
    }

    /** mirrorAsset. */
    method MirrorAsset(route: Route, url: string, response: Response) returns (err: Option<Error>)
      modifies response
      ensures var e := AssetEffect(env, route, url);
              && err == e.err
              && response.status == old(response.status) && response.error == old(response.error)
              && response.urls == old(response.urls) + e.urls
              && response.messageIDs == old(response.messageIDs) + e.ids
    {
      err := env.storageOpts(route.source);
      if err.Some? {
        return;
      }
      var content := env.download(url);
      if content.Fail? {
        return Some(content.error);
      }
      var source := env.compressionForURL(url);
      var dest := route.compression;
      if env.sameCompression(source, dest) {
        source := None;
        dest := None;
      }
      var reader := env.newReader(content.value, source);
      if reader.Fail? {
        return Some(reader.error);
      }
      var destURL := env.join(route.dest.url, env.destName(route, url));
      if reader.value.None? {
        return Some(Error("reader was empty"));
      }
      err := TransferData(Transfer(route.dest, reader.value.value, Datafile(destURL, dest)), response);
    }

    /** mirrorChunkedAsset: Split is handed the decoded reader and the factory.
        Each chunk it produces goes to a fresh writer from the factory, which
        is closed; closing calls the listener, whose transfer is recorded in
        the response (ChunkCallback) and whose verdict is what Close returns. */
    method MirrorChunkedAsset(route: Route, request: Request, response: Response) returns (err: Option<Error>)
      modifies response
      ensures var e := ChunkedEffect(env, route, request.url);
              && err == e.err
              && response.status == old(response.status) && response.error == old(response.error)
              && response.urls == old(response.urls) + e.urls
              && response.messageIDs == old(response.messageIDs) + e.ids
    {
      var input := OpenSplitInput(route, request.url);
      if input.Fail? {
        return Some(input.error);
      }
      var run := env.split(route, input.value);
      RecordChunks(route, request.url, run.chunks, response);
      err := run.err;
    }

    /** The first half of mirrorChunkedAsset: the storage options, the
        download and the decoding reader; a failed download leaves the reader nil. */
    method OpenSplitInput(route: Route, url: string) returns (input: Result<Option<Bytes>>)
      ensures input == SplitInput(env, route, url)
    {
      var opts := env.storageOpts(route.source);
      if opts.Some? {
        return Fail(opts.value);
      }
      var reader: Option<Bytes> := None;
      var content := env.download(url);
      if content.Ok? {
        var decoded := env.newReader(content.value, env.compressionForURL(url));
        if decoded.Fail? {
          return Fail(decoded.error);
        }
        reader := decoded.value;
      }
      return Ok(reader);
    }

    /** Split's use of the factory: one writer per chunk, in order. */
    method RecordChunks(route: Route, url: string, chunks: seq<Bytes>, response: Response)
      modifies response
      ensures var e := ChunksRecords(env, route, url, chunks, |chunks|);
              && response.status == old(response.status) && response.error == old(response.error)
              && response.urls == old(response.urls) + e.urls
              && response.messageIDs == old(response.messageIDs) + e.ids
    {
      ghost var urls0, ids0 := response.urls, response.messageIDs;
      var factory := new ChunkFactory(env, route, url);
      var i := 0;
      ghost var done := Effect(None, [], []);
      while i < |chunks|
        invariant 0 <= i <= |chunks| && done == ChunksRecords(env, route, url, chunks, i)
        invariant factory.Valid() && factory.made == i
        invariant factory.env == env && factory.route == route && factory.url == url
        invariant response.status == old(response.status) && response.error == old(response.error)
        invariant response.urls == urls0 + done.urls && response.messageIDs == ids0 + done.ids
      {
        done := RecordNext(factory, chunks, i, response, urls0, ids0, done);
        i := i + 1;
      }
    }

    /** The next chunk of Split, recorded after those before it. */
    method RecordNext(factory: ChunkFactory, chunks: seq<Bytes>, i: nat, response: Response,
                      ghost urls0: seq<string>, ghost ids0: seq<string>, ghost done: Effect)
        returns (ghost next: Effect)
      requires i < |chunks| && factory.Valid() && factory.made == i && factory.env == env
      requires done == ChunksRecords(env, factory.route, factory.url, chunks, i)
      requires response.urls == urls0 + done.urls && response.messageIDs == ids0 + done.ids
      modifies factory, response
      ensures factory.Valid() && factory.made == i + 1
      ensures next == ChunksRecords(env, factory.route, factory.url, chunks, i + 1)
      ensures response.status == old(response.status) && response.error == old(response.error)
      ensures response.urls == urls0 + next.urls && response.messageIDs == ids0 + next.ids
    {
      ghost var step := ChunkStep(env, factory.route, factory.url, chunks, i);
      var _ := SplitChunk(factory, chunks, i, response);
      assert response.urls == urls0 + (done.urls + step.urls);
      assert response.messageIDs == ids0 + (done.ids + step.ids);
      next := Effect(None, done.urls + step.urls, done.ids + step.ids);
    }

    /** One chunk of Split: a writer from the factory, the chunk's bytes
        written to it, and Close, whose listener records the chunk's transfer. */
    method SplitChunk(factory: ChunkFactory, chunks: seq<Bytes>, i: nat, response: Response)
        returns (verdict: Option<Error>)
      requires i < |chunks| && factory.Valid() && factory.made == i && factory.env == env
      modifies factory, response
      ensures factory.Valid() && factory.made == i + 1
      ensures var step := ChunkStep(env, factory.route, factory.url, chunks, i);
              && verdict == step.err
              && response.status == old(response.status) && response.error == old(response.error)
              && response.urls == old(response.urls) + step.urls
              && response.messageIDs == old(response.messageIDs) + step.ids
    {
      var w, ordinal, destURL := factory.Next();
      var _, _ := w.Write(chunks[i]);
      assert w.written == chunks[i];
      verdict := w.Close(None, None);
      if w.gzip == null {
        assert w.Reader() == Some(chunks[i]);
      } else {
        assert w.Reader() == Some(env.compress(chunks[i]));
      }
      assert w.Reader() == Some(ChunkReader(env, factory.route, chunks[i]));
      var recorded := ChunkCallback(factory.route, destURL, w.Reader(), response);
      // the listener Close called returned what the transfer returned
      assert recorded == verdict;
    }

    /** transfer. */
    method TransferData(t: Transfer, response: Response) returns (err: Option<Error>)
      modifies response
      ensures var e := TransferEffect(env, t);
              && err == e.err
              && response.status == old(response.status) && response.error == old(response.error)
              && response.urls == old(response.urls) + e.urls
              && response.messageIDs == old(response.messageIDs) + e.ids
    {
      if t.resource.topic != "" {
        err := Publish(t, response);
      } else if t.resource.url != "" {
        err := Upload(t, response);
      } else {
        err := Some(Error("invalid transfer: " + env.render(t)));
      }
    }

    /** publish. */
    method Publish(t: Transfer, response: Response) returns (err: Option<Error>)
      modifies response
      ensures var e := PublishEffect(env, t);
              && err == e.err
              && response.status == old(response.status) && response.error == old(response.error)
              && response.urls == old(response.urls) + e.urls
              && response.messageIDs == old(response.messageIDs) + e.ids
    {
      var reader := env.getReader(t);
      if reader.Fail? {
        return Some(reader.error);
      }
      var data := env.readAll(reader.value);
      if data.Fail? {
        return Some(data.error);
      }
      if env.sourceScheme == GsScheme {
        var ids := env.publish(t.resource.topic, data.value, t.dest.url);
        if ids.Fail? {
          return Some(ids.error);
        }
        response.AddMessageIDs(ids.value);
        return None;
      }
      return Some(Error("unsupported message msgbus " + env.sourceScheme));
    }

    /** upload. */
    method Upload(t: Transfer, response: Response) returns (err: Option<Error>)
      modifies response
      ensures var e := UploadEffect(env, t);
              && err == e.err
              && response.status == old(response.status) && response.error == old(response.error)
              && response.urls == old(response.urls) + e.urls
              && response.messageIDs == old(response.messageIDs) + e.ids
    {
      var reader := env.getReader(t);
      if reader.Fail? {
        return Some(reader.error);
      }
      err := env.storageOpts(t.resource);
      if err.Some? {
        return;
      }
      err := env.upload(t.dest.url, reader.value);
      if err.Some? {
        return;
      }
      response.AddURL(t.dest.url);
    }

    /** The listener chunkWriter gives each writer. */
    method ChunkCallback(route: Route, destURL: string, reader: Option<Bytes>, response: Response)
      returns (err: Option<Error>)
      modifies response
      ensures var e := ChunkEffect(env, route, destURL, reader);
              && err == e.err
              && response.status == old(response.status) && response.error == old(response.error)
              && response.urls == old(response.urls) + e.urls
              && response.messageIDs == old(response.messageIDs) + e.ids
    {
      if reader.None? {
        return Some(Error("writer reader was empty"));
      }
      err := TransferData(Transfer(route.dest, reader.value, Datafile(destURL, None)), response);
    }
  }

  /** chunkWriter: the factory Split calls for each chunk, numbering the
      chunks with an int32 counter that starts at 0. */
  class ChunkFactory {
    const env: Env
    const route: Route
    const url: string
    var counter: int
    /** How many writers have been handed out. */
    ghost var made: nat

    ghost predicate Valid()
      reads this
    {
      counter == Count32(made)
    }

    constructor (env: Env, route: Route, url: string)
      ensures Valid() && made == 0
      ensures this.env == env && this.route == route && this.url == url
    {
      this.env := env;
      this.route := route;
      this.url := url;
      counter := 0;
      made := 0;
    }

    /** One chunk: the next ordinal, the chunk's URL, and a fresh open writer
        whose listener transfers the chunk. */
    method Next() returns (w: Chunk.Writer, ordinal: int, destURL: string)
      requires Valid()
      modifies this
      ensures Valid() && made == old(made) + 1
      ensures ordinal == counter == Count32(made)
      ensures destURL == ChunkURL(env, route, url, ordinal)
      ensures fresh(w) && fresh(w.buffer) && (w.gzip != null ==> fresh(w.gzip))
      ensures w.Valid() && w.Reader() == None && w.written == []
      ensures (w.gzip != null <==> UsesGzip(route)) && w.route == route
      ensures w.gzip != null ==> w.gzip.compress == env.compress
      ensures w.listener == (reader => ChunkEffect(env, route, destURL, reader).err)
    {
      counter := Inc32(counter);
      made := made + 1;
      ordinal := counter;
      destURL := env.join(route.dest.url, env.chunkName(route, url, ordinal));
      w := new Chunk.Writer(route, reader => ChunkEffect(env, route, destURL, reader).err, env.compress);
    }
  }

  /** transfer records nothing when it fails; when it succeeds it records the
      published message IDs for a topic, and exactly the destination URL for
      an upload. A topic wins over a URL; neither is an error. */
  lemma TransferEffectShape(env: Env, t: Transfer)
    ensures var e := TransferEffect(env, t);
            && (e.err.Some? ==> e.urls == [] && e.ids == [])
            && (e.err.None? && t.resource.topic != "" ==>
                  e.urls == [] && env.sourceScheme == GsScheme
                  && exists data :: env.publish(t.resource.topic, data, t.dest.url) == Ok(e.ids))
            && (e.err.None? && t.resource.topic == "" ==> e.urls == [t.dest.url] && e.ids == [])
            && (t.resource.topic == "" && t.resource.url == "" ==> e.err.Some?)
  {
    var e := TransferEffect(env, t);
    if e.err.None? && t.resource.topic != "" {
      var data := env.readAll(env.getReader(t).value).value;
      assert env.publish(t.resource.topic, data, t.dest.url) == Ok(e.ids);
    }
  }

  /** Publishing from a source whose scheme is not gs fails with the scheme in the message. */
  lemma PublishNeedsGs(env: Env, t: Transfer)
    requires env.sourceScheme != GsScheme
    requires env.getReader(t).Ok? && env.readAll(env.getReader(t).value).Ok?
    ensures PublishEffect(env, t) == Failed(Error("unsupported message msgbus " + env.sourceScheme))
  {
  }

  /** An earlier error is never replaced by an action error; without one the
      action error (or its absence) is the result. */
  lemma PrecedenceKeepsFirst(runErr: Option<Error>, actionErr: Option<Error>)
    ensures runErr.Some? ==> Precedence(runErr, actionErr) == runErr
    ensures runErr.None? ==> Precedence(runErr, actionErr) == actionErr
  {
  }

  /** When the source's compression equals the destination's, mirrorAsset reads
      the object undecoded and writes it without compression. */
  lemma CompressionsDropped(env: Env, route: Route, url: string)
    ensures env.sameCompression(env.compressionForURL(url), route.compression) ==>
              Compressions(env, route, url) == (None, None)
    ensures !env.sameCompression(env.compressionForURL(url), route.compression) ==>
              Compressions(env, route, url) == (env.compressionForURL(url), route.compression)
  {
  }

  /** Whole-file mirroring fails without recording anything, or records one
      destination URL (upload) or the published message IDs (publish). */
  lemma AssetEffectShape(env: Env, route: Route, url: string)
    ensures var e := AssetEffect(env, route, url);
            && (e.err.Some? ==> e.urls == [] && e.ids == [])
            && (e.err.None? ==> (route.dest.topic != "" && e.urls == []) || (route.dest.topic == "" && |e.urls| == 1 && e.ids == []))
  {
    var e := AssetEffect(env, route, url);
    if env.storageOpts(route.source).None? && env.download(url).Ok? {
      var (source, dest) := Compressions(env, route, url);
      var reader := env.newReader(env.download(url).value, source);
      if reader.Ok? && reader.value.Some? {
        var destURL := env.join(route.dest.url, env.destName(route, url));
        TransferEffectShape(env, Transfer(route.dest, reader.value.value, Datafile(destURL, dest)));
      }
    }
  }

  /** mirror: an unmatched URL ends the run with no error, no transfer and
      no action; a matched one takes the chunked path exactly when the route
      splits, and its actions' error counts only when the run had none. */
  lemma MirrorOutcomeFacts(env: Env, url: string)
    ensures var o := MirrorOutcome(env, url);
            o.noMatch ==> o.effect == Effect(None, [], [])
    ensures env.hasChanged.Ok? && !(env.hasChanged.value && env.init.Some?) ==>
              var o := MirrorOutcome(env, url);
              && (o.noMatch <==> env.routeFor(url).None?)
              && (env.routeFor(url).Some? ==>
                    var route := env.routeFor(url).value;
                    var run := if route.split.Some? then ChunkedEffect(env, route, url)
                               else AssetEffect(env, route, url);
                    && o.effect.urls == run.urls && o.effect.ids == run.ids
                    && o.effect.err == (if run.err.Some? then run.err else env.actions(route, run.err, url)))
  {
  }

  /** mirrorChunkedAsset's error: a storage-options error or a decoding error
      ends it with nothing recorded; a failed download never surfaces, because
      Split runs on the nil reader and its result is returned; otherwise the
      result is Split's on the decoded reader. */
  lemma ChunkedErrorCases(env: Env, route: Route, url: string)
    ensures env.storageOpts(route.source).Some? ==>
              ChunkedEffect(env, route, url) == Failed(env.storageOpts(route.source).value)
    ensures env.storageOpts(route.source).None? && env.download(url).Fail? ==>
              ChunkedEffect(env, route, url).err == env.split(route, None).err
    ensures env.storageOpts(route.source).None? && env.download(url).Ok? ==>
              var decoded := env.newReader(env.download(url).value, env.compressionForURL(url));
              && (decoded.Fail? ==> ChunkedEffect(env, route, url) == Failed(decoded.error))
              && (decoded.Ok? ==> ChunkedEffect(env, route, url).err == env.split(route, decoded.value).err)
  {
  }

  /** The chunk transfers record at most one URL per chunk, each the URL of
      one of the chunks; a topic destination records no URL, and a storage
      destination no message ID. */
  lemma {:induction false} ChunksRecordsShape(env: Env, route: Route, url: string, chunks: seq<Bytes>, k: nat)
    requires k <= |chunks|
    ensures var e := ChunksRecords(env, route, url, chunks, k);
            && |e.urls| <= k
            && (forall u :: u in e.urls ==> IsChunkURL(env, route, url, k, u))
            && (route.dest.topic != "" ==> e.urls == [])
            && (route.dest.topic == "" ==> e.ids == [])
  {
    if k > 0 {
      ChunksRecordsShape(env, route, url, chunks, k - 1);
      var prev, step := ChunksRecords(env, route, url, chunks, k - 1), ChunkStep(env, route, url, chunks, k - 1);
      var destURL := ChunkURL(env, route, url, Count32(k));
      TransferEffectShape(env, Transfer(route.dest, ChunkReader(env, route, chunks[k - 1]), Datafile(destURL, None)));
      assert step.urls == [] || step.urls == [destURL];
      assert ChunksRecords(env, route, url, chunks, k).urls == prev.urls + step.urls;
      forall u | u in prev.urls + step.urls
        ensures IsChunkURL(env, route, url, k, u)
      {
        if u in prev.urls {
          assert IsChunkURL(env, route, url, k - 1, u);
          var j :| 1 <= j <= k - 1 && u == ChunkURL(env, route, url, Count32(j));
          assert 1 <= j <= k && u == ChunkURL(env, route, url, Count32(j));
        } else {
          assert u == ChunkURL(env, route, url, Count32(k));
        }
      }
    }
  }

  /** When every chunk's upload succeeds, the response lists every chunk's URL
      once, in chunk order; below 2^31 chunks the j-th is named with ordinal j. */
  lemma {:induction false} ChunksUploaded(env: Env, route: Route, url: string, chunks: seq<Bytes>, k: nat)
    requires k <= |chunks| && route.dest.topic == "" && route.dest.url != ""
    requires forall j :: 0 <= j < k ==> ChunkStep(env, route, url, chunks, j).err.None?
    ensures var e := ChunksRecords(env, route, url, chunks, k);
            && |e.urls| == k
            && (forall j :: 0 <= j < k ==> e.urls[j] == ChunkURL(env, route, url, Count32(j + 1)))
            && (k < TwoTo31 ==> forall j :: 0 <= j < k ==> e.urls[j] == ChunkURL(env, route, url, j + 1))
  {
    if k > 0 {
      ChunksUploaded(env, route, url, chunks, k - 1);
      var destURL := ChunkURL(env, route, url, Count32(k));
      assert ChunkStep(env, route, url, chunks, k - 1).err.None?;
      TransferEffectShape(env, Transfer(route.dest, ChunkReader(env, route, chunks[k - 1]), Datafile(destURL, None)));
      assert ChunkStep(env, route, url, chunks, k - 1).urls == [destURL];
      assert ChunksRecords(env, route, url, chunks, k).urls
          == ChunksRecords(env, route, url, chunks, k - 1).urls + [destURL];
    }
    var e := ChunksRecords(env, route, url, chunks, k);
    if k < TwoTo31 {
      forall j | 0 <= j < k
        ensures e.urls[j] == ChunkURL(env, route, url, j + 1)
      {
        Count32Exact(j + 1);
      }
    }
  }

  /** The chunked path records something only once Split was reached, and
      every URL it records is the URL of one of Split's chunks. */
  lemma ChunkedEffectShape(env: Env, route: Route, url: string)
    ensures var e := ChunkedEffect(env, route, url);
            e.urls != [] || e.ids != [] ==>
              && SplitInput(env, route, url).Ok?
              && var chunks := env.split(route, SplitInput(env, route, url).value).chunks;
              forall u :: u in e.urls ==> IsChunkURL(env, route, url, |chunks|, u)
  {
    if SplitInput(env, route, url).Ok? {
      var chunks := env.split(route, SplitInput(env, route, url).value).chunks;
      ChunksRecordsShape(env, route, url, chunks, |chunks|);
      assert ChunkedEffect(env, route, url).urls == ChunksRecords(env, route, url, chunks, |chunks|).urls;
    }
  }

  /** A run records destination URLs or message IDs only when a route matched.
      For a whole-file route its transfer then succeeded and the only possible
      error is the actions'; for a split route Split was reached, and every
      URL recorded is one of its chunks' URLs. */
  lemma RecordsOnlyOnSuccess(env: Env, url: string)
    ensures var o := MirrorOutcome(env, url);
            o.effect.urls != [] || o.effect.ids != [] ==>
              && env.routeFor(url).Some?
              && var route := env.routeFor(url).value;
              && (route.split.None? ==>
                    && AssetEffect(env, route, url).err.None?
                    && o.effect.err == env.actions(route, None, url))
              && (route.split.Some? ==>
                    && SplitInput(env, route, url).Ok?
                    && var chunks := env.split(route, SplitInput(env, route, url).value).chunks;
                    forall u :: u in o.effect.urls ==> IsChunkURL(env, route, url, |chunks|, u))
  {
    var o := MirrorOutcome(env, url);
    if (o.effect.urls != [] || o.effect.ids != []) && env.routeFor(url).Some? {
      var route := env.routeFor(url).value;
      if route.split.None? {
        AssetEffectShape(env, route, url);
      } else {
        ChunkedEffectShape(env, route, url);
        assert o.effect.urls == ChunkedEffect(env, route, url).urls;
        assert o.effect.ids == ChunkedEffect(env, route, url).ids;
      }
    }
  }

  /** The chunk listener refuses a writer whose Reader is not set, and
      otherwise transfers the chunk uncompressed to its destination URL. */
  lemma ChunkEffectGuard(env: Env, route: Route, destURL: string, reader: Option<Bytes>)
    ensures reader.None? ==> ChunkEffect(env, route, destURL, reader) == Failed(Error("writer reader was empty"))
    ensures reader.Some? ==>
              ChunkEffect(env, route, destURL, reader) == TransferEffect(env, Transfer(route.dest, reader.value, Datafile(destURL, None)))
  {
  }

  /** The n-th writer the factory hands out has ordinal n, for fewer than 2^31 chunks,
      so the ordinals run 1, 2, 3, … in call order. */
  lemma ChunkOrdinals(n: nat)
    requires 0 < n < TwoTo31
    ensures Count32(n) == n && Count32(n) == Count32(n - 1) + 1
  {
    Count32Exact(n);
    Count32Exact(n - 1);
  }
}
