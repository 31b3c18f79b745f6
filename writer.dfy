/** The chunk writer of writer.go: writes go, through gzip when the route asks
    for it, into an in-memory buffer; closing it exposes the buffer as its Reader
    and hands the writer to its listener, whose verdict becomes Close's. */
module Chunk {
  import opened Common
  import opened Config

  /** bytes.Buffer as a sink: writes append and never fail. */
  class ByteBuffer {
    var data: Bytes

    constructor ()
      ensures data == []
    {
      data := [];
    }

    method Write(b: Bytes) returns (n: nat, err: Option<Error>)
      modifies this
      ensures data == old(data) + b
      ensures n == |b| && err == None
    {
      data := data + b;
      n, err := |b|, None;
    }
  }

  /** writeNopCloser (WriteNopCloser): the buffer as a WriteCloser whose Close does nothing. */
  class NopCloser {
    const w: ByteBuffer

    constructor (w: ByteBuffer)
      ensures this.w == w
    {
      this.w := w;
    }

    method Write(b: Bytes) returns (n: nat, err: Option<Error>)
      modifies w
      ensures w.data == old(w.data) + b
      ensures n == |b| && err == None
    {
      n, err := w.Write(b);
    }

    /** Close always succeeds and touches nothing. */
    method Close() returns (err: Option<Error>)
      ensures err == None
    {
      err := None;
    }
  }

  /** gzip.Writer over the buffer. The compressed stream is the opaque function
      compress of everything written; it reaches the buffer when the writer is
      closed. What the library reports for Flush and Close is given as fault. */
  class GzipWriter {
    const w: ByteBuffer
    const compress: Bytes -> Bytes
    /** Everything written to the gzip writer so far. */
    var input: Bytes
    var closed: bool

    constructor (w: ByteBuffer, compress: Bytes -> Bytes)
      ensures this.w == w && this.compress == compress
      ensures input == [] && !closed
    {
      this.w := w;
      this.compress := compress;
      input := [];
      closed := false;
    }

    method Write(b: Bytes) returns (n: nat, err: Option<Error>)
      requires !closed
      modifies this
      ensures input == old(input) + b && !closed
      ensures n == |b| && err == None
    {
      input := input + b;
      n, err := |b|, None;
    }

    method Flush(fault: Option<Error>) returns (err: Option<Error>)
      requires !closed
      ensures err == fault
    {
      err := fault;
    }

    /** On success the compressed stream is appended to the buffer and the
        writer is closed; on failure nothing changes. */
    method Close(fault: Option<Error>) returns (err: Option<Error>)
      requires !closed
      modifies this, w
      ensures err == fault && input == old(input)
      ensures fault.None? ==> closed && w.data == old(w.data) + compress(input)
      ensures fault.Some? ==> !closed && w.data == old(w.data)
    {
      err := fault;
      if fault.None? {
        var _, _ := w.Write(compress(input));
        closed := true;
      }
    }
  }

  /** Writer: the WriteCloser writes go through (the gzip writer, or the
      no-op closer over the buffer), the buffer, and the listener OnClose,
      which sees the writer's Reader. */
  class Writer {
    const route: Route
    const buffer: ByteBuffer
    const nop: NopCloser
    const gzip: GzipWriter?
    const listener: Option<Bytes> -> Option<Error>
    /** Reader != nil. */
    var readerSet: bool
    /** Every byte written to the writer. */
    ghost var written: Bytes
    /** How many times the listener has been called. */
    ghost var notified: nat

    /** Reader: nil while open, the buffer itself once closed. */
    function Reader(): Option<Bytes>
      reads this, buffer
    {
      if readerSet then Some(buffer.data) else None
    }

    ghost predicate Valid()
      reads this, buffer, gzip
    {
      && nop.w == buffer
      && (gzip != null ==> gzip.w == buffer && gzip.input == written && gzip.closed == readerSet)
      && buffer.data == (if gzip == null then written
                         else if readerSet then gzip.compress(written) else [])
      && notified == (if readerSet then 1 else 0)
    }

    /** NewWriter: an open writer over a fresh buffer, through gzip exactly when
        the route has a compression whose codec is gzip. */
    constructor (route: Route, listener: Option<Bytes> -> Option<Error>, compress: Bytes -> Bytes)
      ensures Valid() && fresh(buffer) && fresh(nop)
      ensures this.route == route && this.listener == listener
      ensures gzip != null <==> UsesGzip(route)
      ensures gzip != null ==> fresh(gzip) && gzip.compress == compress
      ensures Reader() == None && written == [] && notified == 0
    {
      var b := new ByteBuffer();
      this.route := route;
      this.listener := listener;
      buffer := b;
      nop := new NopCloser(b);
      if route.compression.Some? && route.compression.value.codec == GZipCodec {
        gzip := new GzipWriter(b, compress);
      } else {
        gzip := null;
      }
      readerSet := false;
      written := [];
      notified := 0;
    }

    /** Write, through the embedded WriteCloser. Without gzip the bytes land
        in the buffer as they are. */
    method Write(b: Bytes) returns (n: nat, err: Option<Error>)
      requires Valid() && !readerSet
      modifies this, buffer, gzip
      ensures Valid() && !readerSet && notified == old(notified)
      ensures written == old(written) + b
      ensures gzip == null ==> buffer.data == old(buffer.data) + b
      ensures n == |b| && err == None
    {
      if gzip != null {
        n, err := gzip.Write(b);
      } else {
        n, err := nop.Write(b);
      }
      written := written + b;
    }

    /** Close: flush and close gzip (when present) and stop at the first error;
        otherwise set Reader to the buffer and call the listener once, returning
        its verdict. flushFault and closeFault are what gzip reports. */
    method Close(flushFault: Option<Error>, closeFault: Option<Error>) returns (err: Option<Error>)
      requires Valid() && !readerSet
      modifies this, buffer, gzip
      ensures Valid() && written == old(written)
      ensures var fault := if gzip == null then None else if flushFault.Some? then flushFault else closeFault;
              && (fault.Some? ==> err == fault && Reader() == None && notified == 0
                                  && buffer.data == old(buffer.data))
              && (fault.None? ==> Reader() == Some(buffer.data) && notified == 1
                                  && err == listener(Reader()))
      ensures gzip == null ==> Reader() == Some(written)
      ensures gzip != null && flushFault.None? && closeFault.None? ==>
                Reader() == Some(gzip.compress(written))
    {
      if gzip != null {
        err := gzip.Flush(flushFault);
        if err.Some? {
          return;
        }
        err := gzip.Close(closeFault);
      } else {
        err := nop.Close();
      }
      if err.Some? {
        return;
      }
      readerSet := true;
      notified := notified + 1;
      err := listener(Reader());
    }
  }
}
