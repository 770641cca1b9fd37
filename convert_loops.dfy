// The three conversion loops of oledb_driver.c: oledb_convert_string
// (narrow to narrow), oledb_create_bstr (narrow to UTF-16) and
// oledb_convert_bstr (UTF-16 to narrow).  Each one either passes the data
// through when its converter slot is empty, or drives an MLang converter
// step by step while growing the output buffer.
//
// The MLang converter is an abstract step: given the remaining input and
// the room left in the output buffer it reports a status, how much input it
// consumed and what it produced.  The loops terminate only for converters
// that behave (WellBehaved / FitsToUnicode); the model states those
// assumptions as preconditions.

module ConvertLoops {
  import opened OleDbInt

  datatype Step<U> = Step(hr: HResult, consumed: nat, output: seq<U>)

  /** A DoConversion / DoConversionFromUnicode step: it never reads past the
      input or writes past the room it is given, produces nothing without
      consuming, and makes progress once the room is m times the input. */
  ghost predicate WellBehaved<T(!new), U(!new)>(f: (seq<T>, nat) -> Step<U>, m: nat)
  {
    forall inp: seq<T>, cap: nat {:trigger f(inp, cap)} ::
      && f(inp, cap).consumed <= |inp|
      && |f(inp, cap).output| <= cap
      && (f(inp, cap).consumed == 0 ==> f(inp, cap).output == [])
      && (Succeeded(f(inp, cap).hr) && 0 < |inp| && Room(m, |inp|) <= cap ==> f(inp, cap).consumed > 0)
  }

  /** A DoConversionToUnicode step: as above, and a UTF-16 buffer with one
      unit per input byte always suffices. */
  ghost predicate FitsToUnicode<T(!new), U(!new)>(f: (seq<T>, nat) -> Step<U>)
  {
    forall inp: seq<T>, cap: nat {:trigger f(inp, cap)} ::
      && f(inp, cap).consumed <= |inp|
      && |f(inp, cap).output| <= cap
      && (Succeeded(f(inp, cap).hr) && |inp| <= cap ==> f(inp, cap).consumed == |inp|)
  }

  function Pos(x: int): nat { if x < 0 then 0 else x }

  /** The room n units need at m output units each (m * n, written as a sum
      so that the solver keeps to linear arithmetic). */
  function Room(m: nat, n: nat): (r: nat)
    decreases n
  {
    if n == 0 then 0 else Room(m, n - 1) + m
  }

  lemma {:induction false} RoomMono(m: nat, a: nat, b: nat)
    requires a <= b
    ensures m <= Room(m, b) || b == 0
    ensures Room(m, a) <= Room(m, b)
    decreases b
  {
    if a < b {
      RoomMono(m, a, b - 1);
    }
  }

  /** A round that succeeds without consuming anything had less room than
      the progress bound. */
  lemma {:induction false} NoProgressRoom<T(!new), U(!new)>(f: (seq<T>, nat) -> Step<U>, m: nat, inp: seq<T>, cap: nat, total: nat)
    requires WellBehaved(f, m)
    requires 0 < |inp| <= total
    requires Succeeded(f(inp, cap).hr) && f(inp, cap).consumed == 0
    ensures cap < Room(m, total) && f(inp, cap).output == []
  {
    RoomMono(m, |inp|, total);
  }

  // --------------------------------------------------- oledb_convert_string

  datatype RunState<U> = RunState(hr: HResult, consumed: nat, output: seq<U>)

  /** The do-while of oledb_convert_string from the state (total_converted_src,
      len_dest, dest): the buffer grows by the unconverted input, the step
      continues at total_converted_src and appends at total_converted_dest,
      and the loop goes on while the step says S_OK and input remains. */
  function StringLoop<T(!new)>(f: (seq<T>, nat) -> Step<T>, m: nat, src: seq<T>, ts: nat, lenDest: nat, dest: seq<T>): (r: RunState<T>)
    requires WellBehaved(f, m)
    requires ts <= |src| && |dest| <= lenDest
    ensures r.consumed <= |src|
    ensures r.hr == S_OK ==> r.consumed == |src|
    decreases |src| - ts, Pos(Room(m, |src|) + |dest| - lenDest)
  {
    var lenDest' := lenDest + (|src| - ts);
    var r := f(src[ts..], lenDest' - |dest|);
    var ts' := ts + r.consumed;
    var dest' := dest + r.output;
    if r.hr == S_OK && ts' < |src| then
      RoomMono(m, |src| - ts, |src|);
      StringLoop(f, m, src, ts', lenDest', dest')
    else RunState(r.hr, ts', dest')
  }

  /** One round of the loop of oledb_convert_string, from the step's result r. */
  lemma {:induction false} StringLoopRound<T(!new)>(f: (seq<T>, nat) -> Step<T>, m: nat, src: seq<T>, ts: nat, lenDest: nat, dest: seq<T>,
                                                   lenDest': nat, r: Step<T>)
    requires WellBehaved(f, m)
    requires ts <= |src| && |dest| <= lenDest
    requires lenDest' == lenDest + (|src| - ts) && r == f(src[ts..], lenDest' - |dest|)
    ensures ts + r.consumed <= |src| && |dest + r.output| <= lenDest'
    ensures StringLoop(f, m, src, ts, lenDest, dest)
            == if r.hr == S_OK && ts + r.consumed < |src| then StringLoop(f, m, src, ts + r.consumed, lenDest', dest + r.output)
               else RunState(r.hr, ts + r.consumed, dest + r.output)
    ensures Succeeded(r.hr) && r.consumed == 0 && ts < |src| ==> lenDest' - |dest| < Room(m, |src|)
  {
    if Succeeded(r.hr) && r.consumed == 0 && ts < |src| {
      NoProgressRoom(f, m, src[ts..], lenDest' - |dest|, |src|);
    }
  }

  /** oledb_convert_string.  Without a converter the source comes back as it
      is with S_FALSE; with one, the result of the loop, where a final S_FALSE
      (the converter gave up) is reported as E_FAIL. */
  method ConvertString<T(!new)>(converter: Option<(seq<T>, nat) -> Step<T>>, m: nat, src: seq<T>) returns (hr: HResult, dest: seq<T>)
    requires converter.Some? ==> WellBehaved(converter.value, m)
    ensures converter.None? ==> hr == S_FALSE && dest == src
    ensures converter.Some? ==>
      var s := StringLoop(converter.value, m, src, 0, 0, []);
      dest == s.output && hr == (if s.hr == S_FALSE then E_FAIL else s.hr)
    ensures converter.Some? ==> hr != S_FALSE
  {
    if converter.None? {
      return S_FALSE, src;
    }
    var f := converter.value;
    ghost var spec := StringLoop(f, m, src, 0, 0, []);
    var ts: nat, lenDest: nat := 0, 0;
    dest := [];
    hr := E_UNEXPECTED;
    var more := true;
    while more
      invariant ts <= |src| && |dest| <= lenDest
      invariant more ==> StringLoop(f, m, src, ts, lenDest, dest) == spec
      invariant !more ==> RunState(hr, ts, dest) == spec
      decreases if more then 1 else 0, |src| - ts, Pos(Room(m, |src|) + |dest| - lenDest)
    {
      var lenDest' := lenDest + (|src| - ts);
      var r := f(src[ts..], lenDest' - |dest|);
      StringLoopRound(f, m, src, ts, lenDest, dest, lenDest', r);
      lenDest, ts, dest, hr := lenDest', ts + r.consumed, dest + r.output, r.hr;
      more := r.hr == S_OK && ts < |src|;
    }
    if hr == S_FALSE {
      hr := E_FAIL;
    }
  }

  /** A converter between identical encodings: it copies as much as fits. */
  function CopyStep<T(!new)>(inp: seq<T>, cap: nat): Step<T>
  {
    var k := if |inp| <= cap then |inp| else cap;
    Step(S_OK, k, inp[..k])
  }

  function CopyConverter<T(!new)>(): (f: (seq<T>, nat) -> Step<T>)
    ensures WellBehaved(f, 1)
    ensures forall inp: seq<T>, cap: nat :: f(inp, cap) == CopyStep(inp, cap)
  {
    (inp: seq<T>, cap: nat) => CopyStep(inp, cap)
  }

  lemma {:induction false} StringLoopCopy<T(!new)>(src: seq<T>, ts: nat, lenDest: nat)
    requires ts <= |src| && ts <= lenDest
    ensures StringLoop(CopyConverter(), 1, src, ts, lenDest, src[..ts]) == RunState(S_OK, |src|, src)
  {
    var f := CopyConverter<T>();
    var r := f(src[ts..], lenDest + (|src| - ts) - ts);
    assert r.consumed == |src| - ts;
    assert src[..ts] + src[ts..][..|src| - ts] == src;
  }

  /** Converting with a copying converter returns the input unchanged. */
  lemma {:induction false} ConvertStringCopy<T(!new)>(src: seq<T>)
    ensures StringLoop(CopyConverter(), 1, src, 0, 0, []) == RunState(S_OK, |src|, src)
  {
    StringLoopCopy(src, 0, 0);
    assert src[..0] == [];
  }

  // ------------------------------------------------------- oledb_create_bstr

  /** The length argument: ~0 asks for the terminated length. */
  const LENGTH_AUTO: U32 := 0xFFFF_FFFF

  /** strlen / wcslen: the index of the first 0, or the whole sequence. */
  function TerminatedLength<T(==,!new)>(s: seq<T>, zero: T): (r: nat)
    ensures r <= |s| && zero !in s[..r]
    ensures r < |s| ==> s[r] == zero
  {
    if s == [] then 0
    else if s[0] == zero then 0
    else
      var n := TerminatedLength(s[1..], zero);
      assert s[..n + 1] == [s[0]] + s[1..][..n];
      n + 1
  }

  /** UTF-16 units read straight out of byte pairs, low byte first. */
  function BytesAsWide(s: seq<Byte>): (r: seq<Wchar>)
    ensures |r| == |s| / 2
  {
    if |s| < 2 then [] else [(s[0] as int + 256 * s[1] as int) as Wchar] + BytesAsWide(s[2..])
  }

  /** The bytes of UTF-16 units, low byte first. */
  function WideAsBytes(ws: seq<Wchar>): (r: seq<Byte>)
    ensures |r| == 2 * |ws|
  {
    if ws == [] then [] else [(ws[0] as int % 256) as Byte, (ws[0] as int / 256) as Byte] + WideAsBytes(ws[1..])
  }

  /** The pass-through of oledb_convert_bstr gives back what the pass-through
      of oledb_create_bstr was given, up to the odd last byte. */
  lemma {:induction false} WideBytesRoundTrip(s: seq<Byte>)
    ensures WideAsBytes(BytesAsWide(s)) == s[..|s| / 2 * 2]
    decreases |s|
  {
    if |s| >= 2 {
      WideBytesRoundTrip(s[2..]);
      assert s[..|s| / 2 * 2] == s[..2] + s[2..][..|s[2..]| / 2 * 2];
    }
  }

  lemma {:induction false} BytesWideRoundTrip(ws: seq<Wchar>)
    ensures BytesAsWide(WideAsBytes(ws)) == ws
    decreases |ws|
  {
    if ws != [] {
      BytesWideRoundTrip(ws[1..]);
      assert WideAsBytes(ws)[2..] == WideAsBytes(ws[1..]);
    }
  }

  /** oledb_create_bstr.  Without a converter the bytes are reinterpreted as
      UTF-16 (len / 2 units) and the status stays E_UNEXPECTED.  With one, the
      do-while reconverts the whole input into a buffer of len units; a
      converter that FitsToUnicode consumes it in that one round, so the
      result is that round's output. */
  method CreateBstr(converter: Option<(seq<Byte>, nat) -> Step<Wchar>>, s: seq<Byte>, lenArg: U32)
    returns (hr: HResult, ws: seq<Wchar>)
    requires lenArg == LENGTH_AUTO || lenArg <= |s|
    requires converter.Some? ==> FitsToUnicode(converter.value)
    ensures var len := if lenArg == LENGTH_AUTO then TerminatedLength(s, 0) else lenArg;
      && (converter.None? ==> hr == E_UNEXPECTED && ws == BytesAsWide(s[..len]))
      && (converter.Some? ==>
            && hr == converter.value(s[..len], len).hr
            && ws == converter.value(s[..len], len).output
            && |ws| <= len)
  {
    var len: nat := if lenArg == LENGTH_AUTO then TerminatedLength(s, 0) else lenArg;
    hr := E_UNEXPECTED;
    ws := [];
    if converter.Some? {
      var f := converter.value;
      var lenW: nat := 0;
      var converted: nat := 0;
      var more := true;
      ghost var rounds := 0;
      while more
        invariant more ==> rounds == 0 && lenW == 0 && converted == 0
        invariant !more ==> rounds == 1 && hr == f(s[..len], len).hr && ws == f(s[..len], len).output
        decreases if more then 1 else 0
      {
        lenW := lenW + (len - converted);
        var r := f(s[..len], lenW);
        lenW := |r.output|;
        converted := r.consumed;
        ws := r.output;
        hr := r.hr;
        more := Succeeded(hr) && converted < len;
        rounds := rounds + 1;
      }
    } else {
      ws := BytesAsWide(s[..len]);
    }
  }

  // ------------------------------------------------------ oledb_convert_bstr

  /** erealloc to n bytes; bytes beyond the old contents are undefined in C
      and are modelled as 0. */
  function Resize(s: seq<Byte>, n: nat): (r: seq<Byte>)
    ensures |r| == n
    ensures n >= |s| ==> r[..|s|] == s
  {
    if n <= |s| then s[..n] else s + seq(n - |s|, _ => 0 as Byte)
  }

  /** Bytes written at `at`, the rest kept. */
  function Overwrite(s: seq<Byte>, at: nat, out: seq<Byte>): (r: seq<Byte>)
    requires at + |out| <= |s|
    ensures |r| == |s|
  {
    s[..at] + out + s[at + |out|..]
  }

  datatype BstrState = BstrState(hr: HResult, converted: nat, len: nat, buffer: seq<Byte>)

  /** The do-while of oledb_convert_bstr AS WRITTEN: the buffer grows by lenW
      each round, but every round hands the converter the input from the
      start of ws (only its count shrinks) and lets it write at the start of
      the buffer (only its room shrinks). */
  function BstrLoopAsWritten(f: (seq<Wchar>, nat) -> Step<Byte>, m: nat, ws: seq<Wchar>,
                             converted: nat, len: nat, bufferSize: nat, s: seq<Byte>): (r: BstrState)
    requires WellBehaved(f, m)
    requires converted <= |ws| && len <= bufferSize && (bufferSize == 0 || |s| == bufferSize + 1)
    decreases |ws| - converted, Pos(Room(m, |ws|) + len - bufferSize)
  {
    var bufferSize' := bufferSize + |ws|;
    var s' := Resize(s, bufferSize' + 1);
    var input := |ws| - converted;
    var r := f(ws[..input], bufferSize' - len);
    if !Succeeded(r.hr) then BstrState(r.hr, converted, len, s')
    else
      var converted' := converted + r.consumed;
      var len' := len + |r.output|;
      var s'' := Overwrite(s', 0, r.output);
      if converted' < |ws| then
        RoomMono(m, input, |ws|);
        BstrLoopAsWritten(f, m, ws, converted', len', bufferSize', s'')
      else BstrState(r.hr, converted', len', s'')
  }

  /** The same loop as intended: each round continues at ws + converted and
      appends at s + len, so the first len bytes of the buffer are the
      outputs of the rounds in order; the state keeps just those bytes. */
  function BstrLoop(f: (seq<Wchar>, nat) -> Step<Byte>, m: nat, ws: seq<Wchar>,
                    converted: nat, bufferSize: nat, out: seq<Byte>): (r: BstrState)
    requires WellBehaved(f, m)
    requires converted <= |ws| && |out| <= bufferSize
    ensures r.len == |r.buffer| && r.converted <= |ws|
    ensures Succeeded(r.hr) ==> r.converted == |ws|
    decreases |ws| - converted, Pos(Room(m, |ws|) + |out| - bufferSize)
  {
    var bufferSize' := bufferSize + |ws|;
    var r := f(ws[converted..], bufferSize' - |out|);
    if !Succeeded(r.hr) then BstrState(r.hr, converted, |out|, out)
    else
      var converted' := converted + r.consumed;
      if converted' < |ws| then
        RoomMono(m, |ws| - converted, |ws|);
        BstrLoop(f, m, ws, converted', bufferSize', out + r.output)
      else BstrState(r.hr, converted', |out + r.output|, out + r.output)
  }

  /** oledb_convert_bstr as intended (see BstrLoopAsWritten for the code as
      written).  Without a converter the UTF-16 units are copied out as bytes
      and the status stays E_UNEXPECTED; with one, the result is what the
      rounds appended. */
  method ConvertBstr(converter: Option<(seq<Wchar>, nat) -> Step<Byte>>, m: nat, ws: seq<Wchar>, lenArg: U32)
    returns (hr: HResult, s: seq<Byte>)
    requires lenArg == LENGTH_AUTO || lenArg <= |ws|
    requires converter.Some? ==> WellBehaved(converter.value, m)
    ensures var lenW := if lenArg == LENGTH_AUTO then TerminatedLength(ws, 0) else lenArg;
      && (converter.None? ==> hr == E_UNEXPECTED && s == WideAsBytes(ws[..lenW]))
      && (converter.Some? ==>
            var st := BstrLoop(converter.value, m, ws[..lenW], 0, 0, []);
            hr == st.hr && s == st.buffer)
  {
    var lenW: nat := if lenArg == LENGTH_AUTO then TerminatedLength(ws, 0) else lenArg;
    var w := ws[..lenW];
    if converter.None? {
      return E_UNEXPECTED, WideAsBytes(w);
    }
    hr, s := BstrRounds(converter.value, m, w);
  }

  /** One round of the intended loop of oledb_convert_bstr, from the step's result r. */
  lemma {:induction false} BstrLoopStep(f: (seq<Wchar>, nat) -> Step<Byte>, m: nat, ws: seq<Wchar>,
                                        converted: nat, bufferSize: nat, out: seq<Byte>, bufferSize': nat, r: Step<Byte>)
    requires WellBehaved(f, m)
    requires converted <= |ws| && |out| <= bufferSize
    requires bufferSize' == bufferSize + |ws| && r == f(ws[converted..], bufferSize' - |out|)
    ensures converted + r.consumed <= |ws| && |out + r.output| <= bufferSize'
    ensures BstrLoop(f, m, ws, converted, bufferSize, out)
            == if !Succeeded(r.hr) then BstrState(r.hr, converted, |out|, out)
               else if converted + r.consumed < |ws| then BstrLoop(f, m, ws, converted + r.consumed, bufferSize', out + r.output)
               else BstrState(r.hr, converted + r.consumed, |out + r.output|, out + r.output)
    ensures Succeeded(r.hr) && r.consumed == 0 && converted < |ws| ==> bufferSize' - |out| < Room(m, |ws|)
  {
    if Succeeded(r.hr) && r.consumed == 0 && converted < |ws| {
      NoProgressRoom(f, m, ws[converted..], bufferSize' - |out|, |ws|);
    }
  }

  /** The rounds of oledb_convert_bstr's do-while (as intended). */
  method BstrRounds(f: (seq<Wchar>, nat) -> Step<Byte>, m: nat, w: seq<Wchar>) returns (hr: HResult, s: seq<Byte>)
    requires WellBehaved(f, m)
    ensures var st := BstrLoop(f, m, w, 0, 0, []); hr == st.hr && s == st.buffer
  {
    var lenW := |w|;
    ghost var spec := BstrLoop(f, m, w, 0, 0, []);
    var converted: nat, bufferSize: nat := 0, 0;
    s := [];
    hr := E_UNEXPECTED;
    var more := true;
    while more
      invariant converted <= lenW && |s| <= bufferSize
      invariant more ==> BstrLoop(f, m, w, converted, bufferSize, s) == spec
      invariant !more ==> hr == spec.hr && s == spec.buffer
      decreases if more then 1 else 0, lenW - converted, Pos(Room(m, lenW) + |s| - bufferSize)
    {
      var bufferSize' := bufferSize + lenW;
      var r := f(w[converted..], bufferSize' - |s|);
      BstrLoopStep(f, m, w, converted, bufferSize, s, bufferSize', r);
      bufferSize, hr := bufferSize', r.hr;
      if !Succeeded(r.hr) {
        more := false;
      } else {
        s := s + r.output;
        converted := converted + r.consumed;
        more := converted < lenW;
      }
    }
  }

  // -------------------------------------- converters that map unit by unit

  /** The conversion of a whole string by a per-unit table. */
  function MapAll<T(!new), U(!new)>(g: T -> seq<U>, s: seq<T>): seq<U>
    decreases |s|
  {
    if s == [] then [] else MapAll(g, s[..|s| - 1]) + g(s[|s| - 1])
  }

  lemma {:induction false} MapAllAppend<T(!new), U(!new)>(g: T -> seq<U>, a: seq<T>, b: seq<T>)
    ensures MapAll(g, a + b) == MapAll(g, a) + MapAll(g, b)
    decreases |b|
  {
    if b == [] {
      assert a + b == a;
    } else {
      MapAllAppend(g, a, b[..|b| - 1]);
      assert (a + b)[..|a + b| - 1] == a + b[..|b| - 1];
    }
  }

  /** How many leading units fit, converted, into `cap` units of room. */
  function Fit<T(!new), U(!new)>(g: T -> seq<U>, inp: seq<T>, cap: nat): (k: nat)
    ensures k <= |inp| && |MapAll(g, inp[..k])| <= cap
    ensures k < |inp| ==> |MapAll(g, inp[..k])| + |g(inp[k])| > cap
    decreases |inp|
  {
    if inp == [] || |g(inp[0])| > cap then
      assert inp[..0] == [];
      0
    else
      var k := Fit(g, inp[1..], cap - |g(inp[0])|);
      MapAllAppend(g, [inp[0]], inp[1..][..k]);
      assert inp[..k + 1] == [inp[0]] + inp[1..][..k];
      assert MapAll(g, [inp[0]]) == g(inp[0]) by { assert [inp[0]][..0] == []; }
      k + 1
  }

  /** The step of a per-unit converter: as many whole units as fit. */
  function MapStep<T(!new), U(!new)>(g: T -> seq<U>, inp: seq<T>, cap: nat): Step<U>
  {
    var k := Fit(g, inp, cap);
    Step(S_OK, k, MapAll(g, inp[..k]))
  }

  /** A per-unit converter whose units produce at most m bytes each behaves. */
  function MapConverter<T(!new), U(!new)>(g: T -> seq<U>): (f: (seq<T>, nat) -> Step<U>)
    ensures forall inp: seq<T>, cap: nat :: f(inp, cap) == MapStep(g, inp, cap)
  {
    (inp: seq<T>, cap: nat) => MapStep(g, inp, cap)
  }

  lemma {:induction false} MapStepWellBehaved<T(!new), U(!new)>(g: T -> seq<U>, m: nat)
    requires forall x: T :: |g(x)| <= m
    ensures WellBehaved(MapConverter(g), m)
  {
    forall inp: seq<T>, cap: nat | 0 < |inp| && Room(m, |inp|) <= cap
      ensures Fit(g, inp, cap) > 0
    {
      RoomMono(m, 1, |inp|);
      assert |g(inp[0])| <= cap;
    }
    forall inp: seq<T>, cap: nat
      ensures Fit(g, inp, cap) == 0 ==> MapAll(g, inp[..0]) == []
    {
      assert inp[..0] == [];
    }
  }

  // ------------------------------------ oledb_convert_bstr, as written and as intended

  /** A per-unit converter into UTF-16LE bytes: two bytes per unit. */
  function Utf16Le(x: Wchar): (r: seq<Byte>)
    ensures |r| == 2 && r[0] as int + 256 * r[1] as int == x as int
  {
    [(x as int % 256) as Byte, (x as int / 256) as Byte]
  }

  /** One successful round of the intended loop. */
  lemma {:induction false} BstrLoopRound(f: (seq<Wchar>, nat) -> Step<Byte>, m: nat, ws: seq<Wchar>,
                      c: nat, bs: nat, out: seq<Byte>, k: nat, o: seq<Byte>)
    requires WellBehaved(f, m)
    requires c <= |ws| && |out| <= bs
    requires f(ws[c..], bs + |ws| - |out|) == Step(S_OK, k, o)
    ensures c + k <= |ws| && |out + o| <= bs + |ws|
    ensures c + k < |ws| ==> BstrLoop(f, m, ws, c, bs, out) == BstrLoop(f, m, ws, c + k, bs + |ws|, out + o)
    ensures c + k >= |ws| ==> BstrLoop(f, m, ws, c, bs, out) == BstrState(S_OK, c + k, |out + o|, out + o)
  {
  }

  /** A round of the intended loop at `c` under a per-unit converter
      converts the units that fit in the room; their output followed by
      that of the units after them is the output of the units from `c`. */
  lemma {:induction false} PerUnitStep(f: (seq<Wchar>, nat) -> Step<Byte>, g: Wchar -> seq<Byte>, m: nat,
                                       ws: seq<Wchar>, c: nat, cap: nat)
    returns (k: nat, o: seq<Byte>)
    requires WellBehaved(f, m)
    requires forall inp: seq<Wchar>, cap: nat {:trigger MapStep(g, inp, cap)} :: f(inp, cap) == MapStep(g, inp, cap)
    requires c < |ws|
    ensures c + k <= |ws| && f(ws[c..], cap) == Step(S_OK, k, o)
    ensures o + MapAll(g, ws[c + k..]) == MapAll(g, ws[c..])
    ensures c + k == |ws| ==> o == MapAll(g, ws[c..])
    ensures k == 0 ==> cap < Room(m, |ws|)
  {
    var rest := ws[c..];
    k := Fit(g, rest, cap);
    o := MapAll(g, rest[..k]);
    assert f(rest, cap) == Step(S_OK, k, o) by {
      assert f(rest, cap) == MapStep(g, rest, cap);
    }
    assert o + MapAll(g, ws[c + k..]) == MapAll(g, rest) by {
      MapAllAppend(g, rest[..k], rest[k..]);
      assert rest[..k] + rest[k..] == rest;
      assert rest[k..] == ws[c + k..];
    }
    if k == 0 {
      NoProgressRoom(f, m, rest, cap, |ws|);
    }
    if c + k == |ws| {
      assert ws[c + k..] == [];
      assert o + [] == o;
    }
  }

  /** Moving the output of a round from what is left to what is done. */
  lemma Rebase(out: seq<Byte>, o: seq<Byte>, after: seq<Byte>, from: seq<Byte>, target: seq<Byte>)
    requires out + from == target && o + after == from
    ensures (out + o) + after == target
  {
    assert (out + o) + after == out + (o + after);
  }

  /** With a per-unit converter the intended loop, having produced `out`
      from the units before `c`, ends with `out` followed by the output of
      the units from `c` on. */
  lemma {:induction false} BstrLoopPerUnit(f: (seq<Wchar>, nat) -> Step<Byte>, g: Wchar -> seq<Byte>, m: nat,
                                            ws: seq<Wchar>, c: nat, bs: nat, out: seq<Byte>, target: seq<Byte>)
    requires WellBehaved(f, m)
    requires forall inp: seq<Wchar>, cap: nat {:trigger MapStep(g, inp, cap)} :: f(inp, cap) == MapStep(g, inp, cap)
    requires c <= |ws| && |out| <= bs && out + MapAll(g, ws[c..]) == target
    ensures BstrLoop(f, m, ws, c, bs, out) == BstrState(S_OK, |ws|, |target|, target)
    decreases |ws| - c, Pos(Room(m, |ws|) + |out| - bs)
  {
    var cap := bs + |ws| - |out|;
    if c == |ws| {
      assert ws[c..] == [];
      assert out + [] == out;
      assert f(ws[c..], cap) == MapStep(g, ws[c..], cap) == Step(S_OK, 0, []);
      BstrLoopRound(f, m, ws, c, bs, out, 0, []);
    } else {
      var k, o := PerUnitStep(f, g, m, ws, c, cap);
      BstrLoopRound(f, m, ws, c, bs, out, k, o);
      if c + k < |ws| {
        Rebase(out, o, MapAll(g, ws[c + k..]), MapAll(g, ws[c..]), target);
        BstrLoopPerUnit(f, g, m, ws, c + k, bs + |ws|, out + o, target);
      }
    }
  }

  /** The intended oledb_convert_bstr with a per-unit converter yields the
      units' outputs in order, with status S_OK. */
  lemma {:induction false} ConvertBstrPerUnit(g: Wchar -> seq<Byte>, m: nat, ws: seq<Wchar>)
    requires forall x: Wchar :: |g(x)| <= m
    ensures WellBehaved(MapConverter(g), m)
      && BstrLoop(MapConverter(g), m, ws, 0, 0, []) == BstrState(S_OK, |ws|, |MapAll(g, ws)|, MapAll(g, ws))
  {
    MapStepWellBehaved(g, m);
    assert ws[0..] == ws;
    assert [] + MapAll(g, ws) == MapAll(g, ws);
    BstrLoopPerUnit(MapConverter(g), g, m, ws, 0, 0, [], MapAll(g, ws));
  }

  /** UTF-16LE of the single unit "A". */
  lemma Utf16LeOfA()
    ensures MapAll(Utf16Le, [0x41]) == [0x41, 0]
  {
    assert [0x41 as Wchar][..0] == [];
  }

  /** Given "AB" and room for two bytes, the per-unit UTF-16LE step converts "A". */
  lemma StepOnAB()
    ensures MapStep(Utf16Le, [0x41, 0x42], 2) == Step(S_OK, 1, [0x41, 0])
  {
    var ws: seq<Wchar> := [0x41, 0x42];
    assert ws[1..] == [0x42];
    assert Fit(Utf16Le, [0x42], 0) == 0;
    assert Fit(Utf16Le, ws, 2) == 1;
    assert ws[..1] == [0x41];
    Utf16LeOfA();
  }

  /** Given "A" and room for two bytes, the same step converts "A". */
  lemma StepOnA()
    ensures MapStep(Utf16Le, [0x41], 2) == Step(S_OK, 1, [0x41, 0])
  {
    var ws: seq<Wchar> := [0x41];
    assert ws[1..] == [];
    assert Fit(Utf16Le, ws, 2) == 1;
    assert ws[..1] == ws;
    Utf16LeOfA();
  }

  /** The loop as written, on "AB" with a UTF-16LE converter: the first round
      has room for one unit only; the second round is handed "A" again
      instead of "B" and writes over the start of the buffer, so the result
      holds "A" and then the two bytes erealloc added, which C leaves
      undefined and Resize fills with zeros, where "B" belonged. */
  lemma BstrAsWrittenRepeatsInput()
    ensures WellBehaved(MapConverter(Utf16Le), 2)
      && var st := BstrLoopAsWritten(MapConverter(Utf16Le), 2, [0x41, 0x42], 0, 0, 0, []);
         st.hr == S_OK && st.len == 4 && st.buffer[..st.len] == [0x41, 0, 0, 0]
  {
    var f := MapConverter(Utf16Le);
    MapStepWellBehaved(Utf16Le, 2);
    var ws: seq<Wchar> := [0x41, 0x42];
    assert f(ws[..2], 2) == Step(S_OK, 1, [0x41, 0]) by {
      assert ws[..2] == ws;
      StepOnAB();
    }
    var s1 := Overwrite(Resize([], 3), 0, [0x41, 0]);
    assert s1 == [0x41, 0, 0];
    assert f(ws[..1], 2) == Step(S_OK, 1, [0x41, 0]) by {
      assert ws[..1] == [0x41];
      StepOnA();
    }
    var s2 := Overwrite(Resize(s1, 5), 0, [0x41, 0]);
    assert s2 == [0x41, 0, 0, 0, 0];
    assert BstrLoopAsWritten(f, 2, ws, 1, 2, 2, s1) == BstrState(S_OK, 2, 4, s2);
  }

  /** UTF-16LE of "AB". */
  lemma Utf16LeOfAB()
    ensures MapAll(Utf16Le, [0x41, 0x42]) == [0x41, 0, 0x42, 0]
  {
    var ws: seq<Wchar> := [0x41, 0x42];
    assert ws == [0x41 as Wchar] + [0x42 as Wchar];
    MapAllAppend(Utf16Le, [0x41], [0x42]);
    assert MapAll(Utf16Le, [0x41]) == [0x41, 0] by { assert [0x41 as Wchar][..0] == []; }
    assert MapAll(Utf16Le, [0x42]) == [0x42, 0] by { assert [0x42 as Wchar][..0] == []; }
  }

  /** The intended loop on the same input yields both units. */
  lemma BstrPerUnitOnAB()
    ensures WellBehaved(MapConverter(Utf16Le), 2)
      && BstrLoop(MapConverter(Utf16Le), 2, [0x41, 0x42], 0, 0, []).buffer == [0x41, 0, 0x42, 0]
  {
    ConvertBstrPerUnit(Utf16Le, 2, [0x41, 0x42]);
    Utf16LeOfAB();
  }
}
