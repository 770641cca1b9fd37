// The two stream adapters of oledb_strm.c: zval_stream, the in-memory
// ISequentialStream a bound parameter hands to the provider (its buffer,
// offset and reference count, oledb_strm.c:221-385), and the LOB stream
// that reads a provider's ISequentialStream for the host, converting it
// through a staging buffer when a converter is attached
// (oledb_strm.c:31-219).

module Streams {
  import opened OleDbInt
  import opened ConvertLoops
  import opened Conversion

  function Min(a: int, b: int): int
  {
    if a <= b then a else b
  }

  /** The interfaces a QueryInterface may ask for. */
  datatype Iid = IidUnknown | IidSequentialStream | IidStream | IidOther

  // ======================================================= zval_stream

  /** The bytes zval_stream_Read copies from `offset`: min(cb, byte_count
      - offset) of them. */
  function ReadSlice(bytes: seq<Byte>, offset: nat, cb: nat): (r: seq<Byte>)
    requires offset <= |bytes|
    ensures |r| == Min(cb, |bytes| - offset) && offset + |r| <= |bytes|
  {
    bytes[offset..offset + Min(cb, |bytes| - offset)]
  }

  /** Two reads in a row deliver what one read of both sizes would. */
  lemma ReadsConcatenate(bytes: seq<Byte>, offset: nat, c1: nat, c2: nat)
    requires offset <= |bytes|
    ensures var r1 := ReadSlice(bytes, offset, c1);
      r1 + ReadSlice(bytes, offset + |r1|, c2) == ReadSlice(bytes, offset, c1 + c2)
  {
    var r1 := ReadSlice(bytes, offset, c1);
    var r2 := ReadSlice(bytes, offset + |r1|, c2);
    assert r1 + r2 == bytes[offset..offset + |r1| + |r2|];
  }

  /** Reading from the start with room for everything delivers the whole
      buffer, after which the stream is exhausted. */
  lemma ReadWhole(bytes: seq<Byte>, cb: nat)
    requires cb >= |bytes|
    ensures ReadSlice(bytes, 0, cb) == bytes
    ensures ReadSlice(bytes, |bytes|, cb) == []
  {
  }

  /** zval_stream.  `passthrough` is a host stream read directly
      (`this->stream`); otherwise `bytes` is the buffer (none for a null
      pointer).  `freed` records that the object was freed, and
      `bytesFreed` that the buffer was freed with it. */
  class ZvalStream {
    var bytes: Option<seq<Byte>>
    var offset: nat
    var passthrough: bool
    var ownString: bool
    var refcount: nat
    var freed: bool
    var bytesFreed: bool

    predicate Valid()
      reads this
    {
      bytes.Some? ==> offset <= |bytes.value|
    }

    /** oledb_create_zval_stream's object: zeroed, then the buffer or the
        host stream, and one reference from the final QueryInterface. */
    constructor (bytes: Option<seq<Byte>>, passthrough: bool, ownString: bool)
      ensures Valid() && this.bytes == bytes && offset == 0 && this.passthrough == passthrough
      ensures this.ownString == ownString && refcount == 1 && !freed && !bytesFreed
    {
      this.bytes := bytes;
      offset := 0;
      this.passthrough := passthrough;
      this.ownString := ownString;
      refcount := 1;
      freed := false;
      bytesFreed := false;
    }

    /** zval_stream_Read.  A host stream answers with what php_stream_read
        delivered (`hostRead`, never more than asked): S_OK when something
        came, S_FALSE otherwise.  A buffer gives the next min(cb,
        byte_count - offset) bytes and advances past them, S_FALSE once
        nothing is left (or nothing was asked for).  With neither, E_FAIL. */
    method Read(cb: U32, hostRead: seq<Byte>) returns (hr: HResult, data: seq<Byte>)
      requires Valid() && |hostRead| <= cb
      modifies this`offset
      ensures Valid()
      ensures passthrough ==> data == hostRead && offset == old(offset) && hr == (if |data| > 0 then S_OK else S_FALSE)
      ensures !passthrough && bytes.Some? ==>
        && data == ReadSlice(bytes.value, old(offset), cb)
        && offset == old(offset) + |data| <= |bytes.value|
        && hr == (if |data| > 0 then S_OK else S_FALSE)
      ensures !passthrough && bytes.None? ==> hr == E_FAIL && data == [] && offset == old(offset)
    {
      if passthrough {
        data := hostRead;
        hr := if |data| > 0 then S_OK else S_FALSE;
      } else if bytes.Some? {
        data := ReadSlice(bytes.value, offset, cb);
        if |data| == 0 {
          return S_FALSE, data;
        }
        offset := offset + |data|;
        hr := S_OK;
      } else {
        hr, data := E_FAIL, [];
      }
    }

    /** zval_stream_Write: always E_NOTIMPL. */
    method Write(data: seq<Byte>) returns (hr: HResult)
      ensures hr == E_NOTIMPL
    {
      hr := E_NOTIMPL;
    }

    /** zval_stream_AddRef. */
    method AddRef() returns (count: nat)
      modifies this`refcount
      ensures refcount == old(refcount) + 1 && count == refcount
    {
      refcount := refcount + 1;
      count := refcount;
    }

    /** zval_stream_Release: the last reference frees the object, and the
        buffer too when the stream owns it. */
    method Release() returns (count: nat)
      requires refcount > 0 && !freed
      modifies this`refcount, this`freed, this`bytesFreed
      ensures refcount == old(refcount) - 1 && count == refcount
      ensures freed <==> count == 0
      ensures bytesFreed == (old(bytesFreed) || (count == 0 && ownString && bytes.Some?))
    {
      refcount := refcount - 1;
      count := refcount;
      if refcount == 0 {
        if ownString && bytes.Some? {
          bytesFreed := true;
        }
        freed := true;
      }
    }

    /** zval_stream_QueryInterface: IUnknown and ISequentialStream give the
        object itself with a new reference; anything else E_NOINTERFACE
        and a null pointer. */
    method QueryInterface(iid: Iid) returns (hr: HResult, granted: bool)
      modifies this`refcount
      ensures granted <==> iid in {IidUnknown, IidSequentialStream}
      ensures granted ==> hr == S_OK && refcount == old(refcount) + 1
      ensures !granted ==> hr == E_NOINTERFACE && refcount == old(refcount)
    {
      if iid == IidUnknown || iid == IidSequentialStream {
        var _ := AddRef();
        hr, granted := S_OK, true;
      } else {
        hr, granted := E_NOINTERFACE, false;
      }
    }
  }

  /** AddRef then Release leaves the count where it was and frees
      nothing. */
  method AddRefRelease(s: ZvalStream)
    requires !s.freed && s.refcount > 0
    modifies s`refcount, s`freed, s`bytesFreed
    ensures s.refcount == old(s.refcount) && s.freed == old(s.freed) && s.bytesFreed == old(s.bytesFreed)
  {
    var _ := s.AddRef();
    var _ := s.Release();
  }

  // ------------------------------------------------ oledb_create_zval_stream

  /** What the host tells about a stream resource: whether php_stream_stat
      worked and the size it gave, whether filters are attached, and the
      contents php_stream_copy_to_mem would read. */
  datatype HostStream = HostStream(statOk: bool, size: nat, filtered: bool, contents: seq<Byte>)

  /** The values a stream is made from: a string, or a resource that is a
      stream or is not (None). */
  datatype HostValue = HString(s: seq<Byte>) | HResource(stream: Option<HostStream>)

  /** Where the stream's reads come from: a buffer (owned or borrowed from
      the string), or the host stream itself, whose size is reported. */
  datatype Source = Buffered(bytes: seq<Byte>, own: bool) | Passthrough(size: nat)

  /** A resource is read into memory when its final length cannot be
      known without reading it: stat fails or says 0, the contents are to
      be converted, or filters are attached. */
  function ResourceSource(h: HostStream, convert: bool): (src: Source)
    ensures src.Passthrough? <==> h.statOk && h.size != 0 && !convert && !h.filtered
    ensures src.Passthrough? ==> src.size == h.size
    ensures src.Buffered? ==> src == Buffered(h.contents, true)
  {
    if !h.statOk || h.size == 0 || convert || h.filtered then Buffered(h.contents, true) else Passthrough(h.size)
  }

  /** The length reported in *pLength: the stat size for a passthrough
      stream, else the number of bytes the stream holds (a DBLENGTH, so
      32 bits). */
  function ReportedLength(src: Source): U32
  {
    match src
    case Passthrough(size) => Wrap32(size)
    case Buffered(bytes, _) => Wrap32(|bytes|)
  }

  /** What creating the stream did to the source buffer when conversion
      was asked for: the status of oledb_convert_string, whether the
      stream's bytes are still the source buffer, and whether the source
      buffer was freed. */
  datatype ConversionFate = ConversionFate(hr: HResult, aliased: bool, sourceFreed: bool)

  /** As written (oledb_strm.c:359-363): the source is freed when the
      conversion answered S_FALSE, which is exactly when there was no
      converter and the stream kept the source buffer. */
  function SourceFateAsWritten(hr: HResult, own: bool): ConversionFate
  {
    ConversionFate(hr, hr == S_FALSE, hr == S_FALSE && own)
  }

  /** Corrected: an owned source is freed when the conversion replaced it
      with a new buffer. */
  function SourceFate(hr: HResult, own: bool): ConversionFate
  {
    ConversionFate(hr, hr == S_FALSE, hr != S_FALSE && own)
  }

  /** As written, an owned buffer with no converter is freed while the
      stream still reads from it, and a converted one is never freed. */
  lemma SourceFateAsWrittenDangles(own: bool)
    requires own
    ensures var f := SourceFateAsWritten(S_FALSE, own); f.aliased && f.sourceFreed
    ensures var f := SourceFateAsWritten(S_OK, own); !f.aliased && !f.sourceFreed
  {
  }

  /** Corrected, the stream never reads a freed buffer and an owned buffer
      that was replaced is always freed. */
  lemma SourceFateSound(hr: HResult, own: bool)
    ensures var f := SourceFate(hr, own);
      !(f.aliased && f.sourceFreed) && (own && !f.aliased ==> f.sourceFreed) && (!own ==> !f.sourceFreed)
  {
  }

  /** The outcome of oledb_create_zval_stream. */
  datatype Created = Created(hr: HResult, stream: Option<Source>, length: U32, errors: seq<Automation>)

  const STREAM_EXPECTED: Automation := ("Expected a stream resource", "HY105")

  /** As written, a resource that is not a stream answers
      ERROR_INVALID_PARAMETER, a positive number that SUCCEEDED accepts, so
      the caller goes on with no stream. */
  function NotAStreamAsWritten(): Created
  {
    Created(ERROR_INVALID_PARAMETER, None, 0, [STREAM_EXPECTED])
  }

  /** 0x80070057, HRESULT_FROM_WIN32(ERROR_INVALID_PARAMETER). */
  const E_INVALIDARG: HResult := -0x7FF8_FFA9

  /** Corrected: the failure is reported as an HRESULT. */
  function NotAStream(): Created
  {
    Created(E_INVALIDARG, None, 0, [STREAM_EXPECTED])
  }

  lemma NotAStreamAsWrittenSucceeds()
    ensures Succeeded(NotAStreamAsWritten().hr) && NotAStreamAsWritten().stream.None?
  {
  }

  lemma NotAStreamFails()
    ensures !Succeeded(NotAStream().hr) && NotAStream().stream.None?
  {
  }

  /** oledb_create_zval_stream for a string or a resource.  `convert` is
      `conversion != -1` and `converter` the context's slot for it
      (possibly null).  The status is that of the final QueryInterface,
      S_OK, whatever the conversion answered. */
  method CreateZvalStream(value: HostValue, convert: bool, converter: Option<(seq<Byte>, nat) -> Step<Byte>>, m: nat)
    returns (r: Created, fate: Option<ConversionFate>, s: ZvalStream?)
    requires converter.Some? ==> WellBehaved(converter.value, m)
    ensures value.HResource? && value.stream.None? ==> r == NotAStream() && fate.None? && s == null
    ensures !(value.HResource? && value.stream.None?) ==>
      && r.hr == S_OK && r.errors == [] && r.stream.Some? && s != null && fresh(s) && s.Valid()
      && r.length == ReportedLength(r.stream.value)
      && (value.HString? ==> r.stream.value.Buffered? && !r.stream.value.own)
      && (value.HResource? ==> r.stream.value.Passthrough? == ResourceSource(value.stream.value, convert).Passthrough?)
      && (convert <==> fate.Some?)
      && (convert ==> r.stream.value.Buffered?)
      && (convert && converter.None? ==> r.stream.value.bytes == Initial(value, convert).bytes && fate.value.aliased)
      && (convert && converter.Some? ==>
            var run := StringLoop(converter.value, m, Initial(value, convert).bytes, 0, 0, []);
            && r.stream.value.bytes == run.output && r.stream.value.own == Initial(value, convert).own
            && fate.value.hr == (if run.hr == S_FALSE then E_FAIL else run.hr)
            && !fate.value.aliased && fate.value.sourceFreed == Initial(value, convert).own)
      && (!convert ==> r.stream.value == Initial(value, convert))
      && s.refcount == 1 && s.offset == 0 && !s.freed
      && s.passthrough == r.stream.value.Passthrough?
      && (r.stream.value.Buffered? ==> s.bytes == Some(r.stream.value.bytes))
      && s.ownString == (r.stream.value.Buffered? && r.stream.value.own)
  {
    if value.HResource? && value.stream.None? {
      return NotAStream(), None, null;
    }
    var src := Initial(value, convert);
    fate := None;
    if convert {
      var hr, converted := ConvertString(converter, m, src.bytes);
      fate := Some(SourceFate(hr, src.own));
      src := Buffered(converted, src.own);
    }
    r := Created(S_OK, Some(src), ReportedLength(src), []);
    s := new ZvalStream(if src.Buffered? then Some(src.bytes) else None, src.Passthrough?,
                        src.Buffered? && src.own);
  }

  /** The source before conversion: a string's own bytes (not owned), or
      the resource's source. */
  function Initial(value: HostValue, convert: bool): (src: Source)
    requires !(value.HResource? && value.stream.None?)
    ensures convert ==> src.Buffered?
  {
    match value
    case HString(s) => Buffered(s, false)
    case HResource(h) => ResourceSource(h.value, convert)
  }

  // ========================================================= LOB stream

  /** One answer of the provider's ISequentialStream::Read. */
  datatype Chunk = Chunk(hr: HResult, data: seq<Byte>)

  /** The size of the staging buffer. */
  const STAGING_SIZE: nat := 1024

  /** The staging state of a converting read: the buffer, byte_count (the
      bytes the last read put in it) and offset (how many of them were
      converted). */
  datatype Staging = Staging(bytes: seq<Byte>, byteCount: int, offset: int)

  /** The bytes left over from the previous read, as the unsigned
      subtraction of oledb_blob_read computes them. */
  function Leftover(st: Staging): U32
  {
    Wrap32(st.byteCount - st.offset)
  }

  /** The staging state is coherent: the leftover bytes are inside the
      buffer. */
  predicate StagingValid(st: Staging)
  {
    0 <= st.offset <= st.byteCount <= |st.bytes| == STAGING_SIZE
  }

  /** The state a converting LOB stream starts in: the buffer is empty
      (offset == byte_count). */
  function InitialStaging(bytes: seq<Byte>): Staging
    requires |bytes| == STAGING_SIZE
  {
    Staging(bytes, STAGING_SIZE, STAGING_SIZE)
  }

  /** One round of the read loop, as written (oledb_strm.c:86-96): the
      provider's bytes fill the buffer and byte_count becomes their number;
      when there were some they are converted and `consumed` is what
      DoConversion took; then offset = len_src, the local that still holds
      the previous source length `lenSrc` when the read brought nothing. */
  function RefillAsWritten(st: Staging, data: seq<Byte>, consumed: nat, lenSrc: nat): Staging
    requires |data| <= |st.bytes|
  {
    Staging(data + st.bytes[|data|..], |data|, if |data| > 0 then consumed else lenSrc)
  }

  /** Corrected: an empty read leaves nothing to convert. */
  function Refill(st: Staging, data: seq<Byte>, consumed: nat): Staging
    requires |data| <= |st.bytes|
  {
    Staging(data + st.bytes[|data|..], |data|, if |data| > 0 then consumed else 0)
  }

  /** The leftover step: DoConversion took `consumed` of the leftover
      bytes. */
  function Drain(st: Staging, consumed: nat): Staging
  {
    st.(offset := st.offset + consumed)
  }

  /** Corrected, a refill keeps the staging state coherent. */
  lemma RefillValid(st: Staging, data: seq<Byte>, consumed: nat)
    requires StagingValid(st) && |data| <= st.byteCount && consumed <= |data|
    ensures StagingValid(Refill(st, data, consumed))
  {
  }

  /** So does draining what a converter took from the leftover. */
  lemma DrainValid(st: Staging, consumed: nat)
    requires StagingValid(st) && consumed <= Leftover(st)
    ensures StagingValid(Drain(st, consumed))
  {
  }

  /** In a coherent state the leftover is exactly the unconverted bytes,
      and they lie inside the buffer. */
  lemma LeftoverInside(st: Staging)
    requires StagingValid(st)
    ensures Leftover(st) == st.byteCount - st.offset && st.offset + Leftover(st) <= |st.bytes|
  {
  }

  /** As written: on a fresh stream (nothing left over, so len_src starts
      at 0) the provider gives 100 bytes, the converter takes them all, and
      the next read brings nothing; the following call then computes a
      leftover of 2^32 - 100 bytes starting 100 bytes into a buffer that
      holds none. */
  lemma RefillAsWrittenOverruns(bytes: seq<Byte>, data: seq<Byte>)
    requires |bytes| == STAGING_SIZE && |data| == 100
    ensures var st0 := InitialStaging(bytes);
      var st1 := RefillAsWritten(st0, data, 100, Leftover(st0));
      var st2 := RefillAsWritten(st1, [], 0, 100);
      && StagingValid(st0) && Leftover(st0) == 0 && StagingValid(st1)
      && st2.byteCount == 0 && st2.offset == 100
      && Leftover(st2) == TWO_32 - 100 && st2.offset + Leftover(st2) > |st2.bytes|
  {
  }

  /** Corrected, the same reads leave nothing over. */
  lemma RefillEmptiesStaging(bytes: seq<Byte>, data: seq<Byte>)
    requires |bytes| == STAGING_SIZE && |data| == 100
    ensures var st1 := Refill(InitialStaging(bytes), data, 100);
      var st2 := Refill(st1, [], 0);
      StagingValid(st2) && Leftover(st2) == 0
  {
  }

  /** oledb_lob_this.  The interfaces and the statement are identities in
      the reference ledger; `step` is the attached converter's
      DoConversion; `pending` is what the provider's stream will answer to
      the next reads.  `closed` records that close_stream_resources
      zeroed the record. */
  class LobStream {
    var iStream: Option<nat>
    var seqStream: Option<nat>
    var converter: Option<nat>
    var step: Option<(seq<Byte>, nat) -> Step<Byte>>
    var stmt: Option<nat>
    var length: U32
    var staging: Staging
    var pending: seq<Chunk>
    var closed: bool

    /** The references the record holds, in the order they are dropped. */
    function Held(): seq<Option<nat>>
      reads this
    {
      [converter, seqStream, iStream, stmt]
    }

    predicate Valid()
      reads this
    {
      && (converter.Some? <==> step.Some?)
      && (step.Some? ==> StagingValid(staging))
      && (closed ==> iStream.None? && seqStream.None? && converter.None? && stmt.None?)
    }

    /** The record as oledb_create_lob_stream fills it in. */
    constructor (iStream: Option<nat>, seqStream: Option<nat>, converter: Option<nat>,
                 step: Option<(seq<Byte>, nat) -> Step<Byte>>, stmt: Option<nat>, length: U32,
                 staging: Staging, pending: seq<Chunk>)
      requires converter.Some? <==> step.Some?
      requires step.Some? ==> StagingValid(staging)
      ensures Valid() && !closed && Held() == [converter, seqStream, iStream, stmt]
      ensures this.step == step && this.length == length && this.staging == staging && this.pending == pending
    {
      this.iStream, this.seqStream, this.converter, this.step, this.stmt := iStream, seqStream, converter, step, stmt;
      this.length := length;
      this.staging := staging;
      this.pending := pending;
      closed := false;
    }

    /** oledb_blob_stat: a size only for an unconverted stream whose
        length is known. */
    function Stat(): (r: Option<U32>)
      reads this
      ensures r.Some? <==> converter.None? && length != 0
      ensures r.Some? ==> r.value == length
    {
      if converter.None? && length != 0 then Some(length) else None
    }

    /** oledb_blob_seek: only an IStream can seek; `seekHr` is its
        answer. */
    function Seek(seekHr: HResult): (r: int)
      reads this
      ensures r == 0 <==> iStream.Some? && Succeeded(seekHr)
      ensures r == 0 || r == -1
    {
      if iStream.Some? && Succeeded(seekHr) then 0 else -1
    }

    /** oledb_blob_write: (size_t) -1. */
    function Write(data: seq<Byte>): (r: U32)
      ensures r == TWO_32 - 1
    {
      Wrap32(-1)
    }

    /** oledb_blob_close_stream_resources: the converter, the sequential
        stream and the IStream are released, the statement loses its
        reference, and the record is zeroed. */
    method CloseStreamResources(ledger: ComLedger)
      modifies this, ledger
      ensures Valid() && closed
      ensures Held() == [None, None, None, None] && step.None? && length == 0
      ensures staging == Staging([], 0, 0) && pending == []
      ensures ledger.next == old(ledger.next)
      ensures ledger.refs == DropHeld(old(ledger.refs), old(Held()))
    {
      var c, q, i, t := converter, seqStream, iStream, stmt;
      iStream, seqStream, converter, step, stmt := None, None, None, None, None;
      length := 0;
      staging := Staging([], 0, 0);
      pending := [];
      closed := true;
      // the four SAFE_RELEASEs, in the source's order
      ledger.refs := Bump(ledger.refs, c, -1);
      ledger.refs := Bump(ledger.refs, q, -1);
      ledger.refs := Bump(ledger.refs, i, -1);
      ledger.refs := Bump(ledger.refs, t, -1);
    }

    /** oledb_blob_close: with close_handle the resources go and the
        record is freed; the answer is always 0. */
    method Close(closeHandle: bool, ledger: ComLedger) returns (r: int)
      modifies this, ledger
      ensures r == 0
      ensures closeHandle ==> closed && Held() == [None, None, None, None]
                              && ledger.refs == DropHeld(old(ledger.refs), old(Held()))
      ensures !closeHandle ==> unchanged(this) && unchanged(ledger)
    {
      if closeHandle {
        CloseStreamResources(ledger);
      }
      r := 0;
    }

    /** The provider's next answer to a Read of `cb` bytes: the scripted
        chunk cut to `cb`, or S_FALSE with nothing at the end. */
    method ProviderRead(cb: nat) returns (c: Chunk)
      modifies this`pending
      ensures |c.data| <= cb
      ensures old(pending) == [] ==> c == Chunk(S_FALSE, []) && pending == []
      ensures old(pending) != [] ==>
        pending == old(pending)[1..] && c == Chunk(old(pending)[0].hr, old(pending)[0].data[..Min(cb, |old(pending)[0].data|)])
    {
      if pending == [] {
        c := Chunk(S_FALSE, []);
      } else {
        c := Chunk(pending[0].hr, pending[0].data[..Min(cb, |pending[0].data|)]);
        pending := pending[1..];
      }
    }

    /** oledb_blob_read: -1 when no stream is held, else the converting
        or the direct read. */
    method Read(count: U32, ledger: ComLedger) returns (n: int, data: seq<Byte>)
      requires Valid()
      requires step.Some? ==> forall inp: seq<Byte>, cap: nat {:trigger step.value(inp, cap)} ::
        step.value(inp, cap).consumed <= |inp| && |step.value(inp, cap).output| <= cap
      modifies this, ledger
      ensures Valid()
      ensures |data| <= count && (n == |data| || n == -1)
      ensures old(seqStream).None? ==> n == -1 && data == [] && unchanged(this) && unchanged(ledger)
      ensures old(seqStream).Some? && old(step).Some? ==>
        StagingValid(staging) && unchanged(ledger) && (|data| == count || staging.byteCount == 0 || n == -1)
    ensures old(seqStream).Some? && old(step).None? ==>
        && (old(pending) == [] ==> data == [] && n == 0)
        && (old(pending) != [] ==> data == old(pending)[0].data[..Min(count, |old(pending)[0].data|)]
                                   && (n == -1 <==> !Succeeded(old(pending)[0].hr)))
    ensures old(seqStream).Some? && old(step).None? && (old(pending) == [] || old(pending)[0].hr == S_FALSE) && old(iStream).None? ==>
        closed && Held() == [None, None, None, None] && ledger.refs == DropHeld(old(ledger.refs), old(Held()))
    {
      if seqStream.None? {
        return -1, [];
      }
      if step.Some? {
        n, data := ReadConverting(count);
      } else {
        n, data := ReadDirect(count, ledger);
      }
    }

    /** oledb_blob_read without a converter: the provider reads straight
        into the host's buffer; at the end of a stream that cannot seek
        back (S_FALSE and no IStream) the resources are dropped at once.
        The answer is the byte count, or -1 ((size_t) -1) on failure, and
        -1 too when no stream is held. */
    method ReadDirect(count: U32, ledger: ComLedger) returns (n: int, data: seq<Byte>)
      requires Valid() && step.None?
      modifies this, ledger
      ensures Valid()
      ensures |data| <= count && (n == |data| || n == -1)
      ensures old(seqStream).None? ==> n == -1 && data == [] && unchanged(this) && unchanged(ledger)
      ensures old(seqStream).Some? ==>
        && (old(pending) == [] ==> data == [] && n == 0)
        && (old(pending) != [] ==> data == old(pending)[0].data[..Min(count, |old(pending)[0].data|)]
                                   && (n == -1 <==> !Succeeded(old(pending)[0].hr)))
      ensures old(seqStream).Some? && (old(pending) == [] || old(pending)[0].hr == S_FALSE) && old(iStream).None? ==>
        closed && Held() == [None, None, None, None] && ledger.refs == DropHeld(old(ledger.refs), old(Held()))
    {
      if seqStream.None? {
        return -1, [];
      }
      var c := ProviderRead(count);
      data := c.data;
      if c.hr == S_FALSE && iStream.None? {
        CloseStreamResources(ledger);
      }
      n := if Succeeded(c.hr) then |data| else -1;
    }

    /** oledb_blob_read with a converter (corrected at the refill, see
        Refill): first the bytes left in the staging buffer are converted,
        then, while the host wants more and the last read brought any, the
        buffer is refilled from the provider and converted.  The answer is
        the number of bytes produced, or -1 when the last call failed. */
    method ReadConverting(count: U32) returns (n: int, data: seq<Byte>)
      requires Valid() && step.Some? && seqStream.Some?
      requires forall inp: seq<Byte>, cap: nat {:trigger step.value(inp, cap)} ::
        step.value(inp, cap).consumed <= |inp| && |step.value(inp, cap).output| <= cap
      modifies this`staging, this`pending
      ensures Valid() && StagingValid(staging)
      ensures |data| <= count && (n == |data| || n == -1)
      ensures |data| == count || staging.byteCount == 0 || n == -1
    {
      var f := step.value;
      var remaining: nat := count;
      var hr := E_UNEXPECTED;
      data := [];
      var left := Leftover(staging);
      if left != 0 {
        LeftoverInside(staging);
        var r := f(staging.bytes[staging.offset..staging.offset + left], remaining);
        hr := r.hr;
        DrainValid(staging, r.consumed);
        staging := Drain(staging, r.consumed);
        remaining := remaining - |r.output|;
        data := data + r.output;
      }
      while remaining > 0 && staging.byteCount > 0
        invariant StagingValid(staging) && Valid()
        invariant |data| + remaining == count
        decreases |pending|, if staging.byteCount > 0 then 1 else 0
      {
        var c := ProviderRead(staging.byteCount);
        if Succeeded(c.hr) {
          var consumed := 0;
          hr := c.hr;
          if |c.data| > 0 {
            var r := f(c.data, remaining);
            consumed := r.consumed;
            hr := r.hr;
            remaining := remaining - |r.output|;
            data := data + r.output;
          }
          RefillValid(staging, c.data, consumed);
          staging := Refill(staging, c.data, consumed);
        } else {
          hr := c.hr;
          break;
        }
      }
      n := if Succeeded(hr) then |data| else -1;
    }
  }

  /** oledb_create_lob_stream.  The provider's object `unk` is asked for
      IStream, which doubles as the sequential stream with a second
      reference, else for ISequentialStream; the caller's reference to it
      is then dropped.  A converter from the context's slot gets a
      reference and an empty 1024-byte staging buffer, and the statement
      always gets one.  When the host cannot allocate the stream the
      record is dropped again and the answer is E_FAIL. */
  method CreateLobStream(unk: nat, hasIStream: bool, hasSequentialStream: bool, length: U32,
                         converter: Option<nat>, step: Option<(seq<Byte>, nat) -> Step<Byte>>, buffer: seq<Byte>,
                         stmt: nat, pending: seq<Chunk>, streamAllocated: bool, ledger: ComLedger)
    returns (hr: HResult, s: LobStream?)
    requires converter.Some? <==> step.Some?
    requires |buffer| == STAGING_SIZE
    modifies ledger
    ensures ledger.next == old(ledger.next)
    ensures streamAllocated ==> s != null && fresh(s) && s.Valid() && !s.closed
    ensures streamAllocated ==> hr == (if hasIStream || hasSequentialStream then S_OK else E_NOINTERFACE)
    ensures streamAllocated ==> s.length == length && s.stmt == Some(stmt) && s.converter == converter && s.pending == pending
    ensures streamAllocated ==> s.iStream == (if hasIStream then Some(unk) else None)
    ensures streamAllocated ==> s.seqStream == (if hasIStream || hasSequentialStream then Some(unk) else None)
    ensures streamAllocated && converter.Some? ==> s.staging == InitialStaging(buffer)
    ensures streamAllocated ==> CountsMoved(ledger.refs, old(ledger.refs), s.Held(), unk)
    ensures !streamAllocated ==> hr == E_FAIL && s == null
    ensures !streamAllocated ==> CountsMoved(ledger.refs, old(ledger.refs), [], unk)
  {
    var iS: Option<nat> := if hasIStream then Some(unk) else None;
    var sq: Option<nat> := if hasIStream || hasSequentialStream then Some(unk) else None;
    hr := if sq.Some? then S_OK else E_NOINTERFACE;
    ghost var r0 := ledger.refs;
    ledger.refs := Bump(ledger.refs, iS, 1);
    ledger.refs := Bump(ledger.refs, sq, 1);
    ledger.refs := Bump(ledger.refs, Some(unk), -1);
    ledger.refs := Bump(ledger.refs, converter, 1);
    ledger.refs := Bump(ledger.refs, Some(stmt), 1);
    CreateCounts(r0, iS, sq, unk, converter, stmt);
    var staging := if converter.Some? then InitialStaging(buffer) else Staging([], 0, 0);
    var t := new LobStream(iS, sq, converter, step, Some(stmt), length, staging, pending);
    if !streamAllocated {
      ghost var r5 := ledger.refs;
      t.CloseStreamResources(ledger);
      forall id ensures Lookup(ledger.refs, id) == Lookup(old(ledger.refs), id) + Occurrences([], id) - (if id == unk then 1 else 0) {
        DropHeldCounts(r5, [converter, sq, iS, Some(stmt)], id);
      }
      return E_FAIL, null;
    }
    s := t;
  }

  /** Every count moved by one for each slot of `held` holding it, and the
      caller's object `unk` lost one. */
  ghost predicate CountsMoved(after: map<nat, int>, before: map<nat, int>, held: seq<Option<nat>>, unk: nat)
  {
    forall id :: Lookup(after, id) == Lookup(before, id) + Occurrences(held, id) - (if id == unk then 1 else 0)
  }

  /** One SAFE_ADDREF (delta 1) or SAFE_RELEASE (delta -1) on the ledger's
      counts. */
  function Bump(refs: map<nat, int>, x: Option<nat>, delta: int): map<nat, int>
  {
    if x.Some? then refs[x.value := Lookup(refs, x.value) + delta] else refs
  }

  /** The four releases of close_stream_resources, in their order. */
  function DropHeld(refs: map<nat, int>, held: seq<Option<nat>>): map<nat, int>
    requires |held| == 4
  {
    Bump(Bump(Bump(Bump(refs, held[0], -1), held[1], -1), held[2], -1), held[3], -1)
  }

  /** After them every identity has lost one reference per slot that held
      it. */
  lemma DropHeldCounts(refs: map<nat, int>, held: seq<Option<nat>>, id: nat)
    requires |held| == 4
    ensures Lookup(DropHeld(refs, held), id) == Lookup(refs, id) - Occurrences(held, id)
  {
    var r1 := Bump(refs, held[0], -1);
    var r2 := Bump(r1, held[1], -1);
    var r3 := Bump(r2, held[2], -1);
    BumpLookup(refs, held[0], -1, id);
    BumpLookup(r1, held[1], -1, id);
    BumpLookup(r2, held[2], -1, id);
    BumpLookup(r3, held[3], -1, id);
    HeldOccurrences(held[0], held[1], held[2], held[3], id);
    assert held == [held[0], held[1], held[2], held[3]];
  }

  /** A step moves the count of its own identity only. */
  lemma BumpLookup(refs: map<nat, int>, x: Option<nat>, delta: int, id: nat)
    ensures Lookup(Bump(refs, x, delta), id) == Lookup(refs, id) + (if x == Some(id) then delta else 0)
  {
  }

  /** The occurrences of an identity among the four held references. */
  lemma HeldOccurrences(a: Option<nat>, b: Option<nat>, c: Option<nat>, d: Option<nat>, id: nat)
    ensures Occurrences([a, b, c, d], id) ==
      (if a == Some(id) then 1 else 0) + (if b == Some(id) then 1 else 0)
      + (if c == Some(id) then 1 else 0) + (if d == Some(id) then 1 else 0)
  {
    assert [a, b, c, d][..3] == [a, b, c];
    assert [a, b, c][..2] == [a, b];
    assert [a, b][..1] == [a];
    assert [a][..0] == [];
    assert Occurrences([a], id) == (if a == Some(id) then 1 else 0);
    assert Occurrences([a, b], id) == Occurrences([a], id) + (if b == Some(id) then 1 else 0);
    assert Occurrences([a, b, c], id) == Occurrences([a, b], id) + (if c == Some(id) then 1 else 0);
  }

  /** The counts after oledb_create_lob_stream's five reference moves:
      one more for each reference the record holds, one less for the
      caller's object. */
  lemma CreateCounts(r0: map<nat, int>, i: Option<nat>, sq: Option<nat>, unk: nat, conv: Option<nat>, stmt: nat)
    ensures CountsMoved(Bump(Bump(Bump(Bump(Bump(r0, i, 1), sq, 1), Some(unk), -1), conv, 1), Some(stmt), 1),
                        r0, [conv, sq, i, Some(stmt)], unk)
  {
    forall id
      ensures Lookup(Bump(Bump(Bump(Bump(Bump(r0, i, 1), sq, 1), Some(unk), -1), conv, 1), Some(stmt), 1), id)
        == Lookup(r0, id) + Occurrences([conv, sq, i, Some(stmt)], id) - (if id == unk then 1 else 0)
    {
      var r1 := Bump(r0, i, 1);
      var r2 := Bump(r1, sq, 1);
      var r3 := Bump(r2, Some(unk), -1);
      var r4 := Bump(r3, conv, 1);
      BumpLookup(r0, i, 1, id);
      BumpLookup(r1, sq, 1, id);
      BumpLookup(r2, Some(unk), -1, id);
      BumpLookup(r3, conv, 1, id);
      BumpLookup(r4, Some(stmt), 1, id);
      HeldOccurrences(conv, sq, i, Some(stmt), id);
    }
  }
}
