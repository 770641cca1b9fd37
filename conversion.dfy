// The conversion context (oledb_driver.c:34-97, 620-791): a reference
// counted record of three charset names and CONVERTER_COUNT MLang converter
// slots, shared by a connection, its statements and their columns, and
// split off before it is changed.
//
// Converters are COM objects the driver does not own; their reference
// counts live in an OleDbInt.ComLedger and a slot holds an object identity.
// MLang itself is an oracle: whether it is loaded, what GetCharsetInfo
// answers for a name and what CreateConvertCharset answers for a pair of
// codepages.

module Conversion {
  import opened OleDbInt

  /** The charset names of a context: the input/output encoding, the query
      encoding and the varchar (server codepage) encoding. */
  datatype Names = Names(charset: Option<string>, queryCharset: Option<string>, varcharCharset: Option<string>)

  /** What GetCharsetInfo answers for a name. */
  datatype CharsetInfo = CharsetInfo(hr: HResult, codePage: int)

  /** The MLang oracle. */
  datatype MLang = MLang(present: bool, charsetInfo: string -> CharsetInfo, createHr: (int, int) -> HResult)

  /** An automation error: description and SQLSTATE. */
  type Automation = (string, string)

  const NO_CONVERTER_MESSAGE: string := "MLang cannot create converter for encoding."
  const MLANG_STATE: string := "58004"

  // ------------------------------------------------------ reference counts

  /** A ledger count, 0 for an identity never seen. */
  function Lookup(refs: map<nat, int>, id: nat): int
  {
    if id in refs then refs[id] else 0
  }

  /** How many slots hold the converter `id`. */
  function Occurrences(slots: seq<Option<nat>>, id: nat): (n: nat)
    ensures n <= |slots|
    decreases |slots|
  {
    if slots == [] then 0
    else Occurrences(slots[..|slots| - 1], id) + (if slots[|slots| - 1] == Some(id) then 1 else 0)
  }

  /** The counts after one SAFE_ADDREF (delta 1) or SAFE_RELEASE (delta -1)
      of each slot, in order. */
  function Recount(refs: map<nat, int>, slots: seq<Option<nat>>, delta: int): map<nat, int>
    decreases |slots|
  {
    if slots == [] then refs
    else
      var r := Recount(refs, slots[..|slots| - 1], delta);
      var last := slots[|slots| - 1];
      if last.Some? then r[last.value := Lookup(r, last.value) + delta] else r
  }

  /** Each object's count moves by delta once per slot holding it. */
  lemma {:induction false} RecountCounts(refs: map<nat, int>, slots: seq<Option<nat>>, delta: int, id: nat)
    ensures Lookup(Recount(refs, slots, delta), id) == Lookup(refs, id) + delta * Occurrences(slots, id)
    decreases |slots|
  {
    if slots != [] {
      var n := |slots| - 1;
      RecountCounts(refs, slots[..n], delta, id);
      var r := Recount(refs, slots[..n], delta);
      var o := Occurrences(slots[..n], id);
      assert Lookup(Recount(refs, slots, delta), id) == Lookup(r, id) + (if slots[n] == Some(id) then delta else 0);
      assert Occurrences(slots, id) == o + (if slots[n] == Some(id) then 1 else 0);
      MulStep(delta, o);
    }
  }

  lemma MulStep(a: int, b: nat)
    ensures a * (b + 1) == a * b + a
  {
  }

  /** Taking a reference for every slot and then dropping them again
      leaves every count where it was. */
  lemma AddRefThenRelease(refs: map<nat, int>, slots: seq<Option<nat>>, id: nat)
    ensures Lookup(Recount(Recount(refs, slots, 1), slots, -1), id) == Lookup(refs, id)
  {
    RecountCounts(refs, slots, 1, id);
    RecountCounts(Recount(refs, slots, 1), slots, -1, id);
  }

  /** A recount step for the first i slots, extended by slot i. */
  lemma RecountStep(refs: map<nat, int>, slots: seq<Option<nat>>, i: nat, delta: int)
    requires i < |slots|
    ensures var r := Recount(refs, slots[..i], delta);
      Recount(refs, slots[..i + 1], delta) ==
        if slots[i].Some? then r[slots[i].value := Lookup(r, slots[i].value) + delta] else r
  {
    assert slots[..i + 1][..i] == slots[..i];
  }

  /** One SAFE_ADDREF or SAFE_RELEASE. */
  lemma RecountOne(refs: map<nat, int>, x: Option<nat>, delta: int)
    ensures Recount(refs, [x], delta) == if x.Some? then refs[x.value := Lookup(refs, x.value) + delta] else refs
  {
    assert [x][..0] == [];
  }

  // ------------------------------------------------------ the context

  /** pdo_oledb_conversion.  `freed` records that its last reference was
      dropped. */
  class Context {
    var refcount: int
    var persistent: bool
    var names: Names
    var converters: seq<Option<nat>>
    var freed: bool

    predicate Valid()
      reads this
    {
      |converters| == CONVERTER_COUNT
    }

    /** oledb_create_conversion_options: zeroed, one reference. */
    constructor (persistent: bool)
      ensures Valid() && refcount == 1 && this.persistent == persistent && !freed
      ensures names == Names(None, None, None)
      ensures forall k :: 0 <= k < |converters| ==> converters[k].None?
    {
      refcount := 1;
      this.persistent := persistent;
      names := Names(None, None, None);
      converters := [None, None, None, None, None];
      freed := false;
    }
  }

  /** oledb_copy_conversion_options: the holder shares `src`, which gains a
      reference. */
  method CopyConversionOptions(src: Context) returns (conv: Context)
    modifies src`refcount
    ensures conv == src && src.refcount == old(src.refcount) + 1
  {
    conv := src;
    conv.refcount := conv.refcount + 1;
  }

  /** oledb_release_conversion_options: one reference fewer; when none is
      left the context is freed and each converter slot releases its
      object. */
  method ReleaseConversionOptions(conv: Context, ledger: ComLedger)
    requires conv.Valid()
    modifies conv`refcount, conv`freed, ledger
    ensures conv.refcount == old(conv.refcount) - 1
    ensures conv.freed == (old(conv.freed) || conv.refcount == 0)
    ensures ledger.next == old(ledger.next)
    ensures conv.refcount == 0 ==> ledger.refs == Recount(old(ledger.refs), conv.converters, -1)
    ensures conv.refcount != 0 ==> ledger.refs == old(ledger.refs)
  {
    conv.refcount := conv.refcount - 1;
    if conv.refcount == 0 {
      var slots := conv.converters;
      var i := 0;
      while i < CONVERTER_COUNT
        invariant 0 <= i <= CONVERTER_COUNT
        invariant ledger.next == old(ledger.next)
        invariant ledger.refs == Recount(old(ledger.refs), slots[..i], -1)
        invariant conv.refcount == 0 && conv.freed == old(conv.freed)
      {
        RecountStep(old(ledger.refs), slots, i, -1);
        ledger.SafeRelease(slots[i]);
        i := i + 1;
      }
      assert slots[..CONVERTER_COUNT] == slots;
      conv.freed := true;
    }
  }

  /** The names of the context oledb_split_conversion_options makes, as
      written: pemalloc does not clear the record, so a name that is null in
      the original keeps whatever the fresh memory held (`leftover`). */
  function SplitNamesAsWritten(org: Names, leftover: Names): (n: Names)
    ensures org.charset.Some? ==> n.charset == org.charset
    ensures org.queryCharset.Some? ==> n.queryCharset == org.queryCharset
    ensures org.varcharCharset.Some? ==> n.varcharCharset == org.varcharCharset
  {
    Names(if org.charset.Some? then org.charset else leftover.charset,
          if org.queryCharset.Some? then org.queryCharset else leftover.queryCharset,
          if org.varcharCharset.Some? then org.varcharCharset else leftover.varcharCharset)
  }

  /** oledb_driver.c:655-664 as written: a connection with only its default
      encoding set, split when a statement attribute is set, gives a
      context whose query name is the leftover "x" instead of null, so the
      statement reports the query encoding "x" instead of falling back to
      "windows-1252". */
  lemma SplitAsWrittenReportsLeftover()
    ensures var org := Names(Some("windows-1252"), None, None);
      var split := SplitNamesAsWritten(org, Names(Some("x"), Some("x"), Some("x")));
      && GetConversionOption(split, PDO_OLEDB_ATTR_QUERY_ENCODING) == (S_FALSE, Some("x"))
      && GetConversionOption(org, PDO_OLEDB_ATTR_QUERY_ENCODING) == (S_FALSE, Some("windows-1252"))
  {
  }

  /** oledb_split_conversion_options, with the names of the new context
      cleared before they are copied, so that it holds exactly the
      original's names.  A context with more than one holder is replaced,
      for this holder, by a fresh one with a single reference, the same
      names and the same converters, each of which gains a reference.  The
      original is not touched: its count still includes this holder. */
  method SplitConversionOptions(conv: Context, maintainPersistence: bool, ledger: ComLedger) returns (result: Context)
    requires conv.Valid()
    modifies ledger
    ensures result.Valid() && ledger.next == old(ledger.next)
    ensures old(conv.refcount) <= 1 ==> result == conv && ledger.refs == old(ledger.refs)
    ensures old(conv.refcount) > 1 ==>
      && fresh(result) && result.refcount == 1 && !result.freed
      && result.persistent == (conv.persistent && maintainPersistence)
      && result.names == conv.names && result.converters == conv.converters
      && ledger.refs == Recount(old(ledger.refs), conv.converters, 1)
    ensures forall attr :: GetConversionOption(result.names, attr) == GetConversionOption(conv.names, attr)
  {
    if conv.refcount <= 1 {
      return conv;
    }
    result := new Context(conv.persistent && maintainPersistence);
    result.names := conv.names;
    var slots := conv.converters;
    var i := 0;
    while i < CONVERTER_COUNT
      invariant 0 <= i <= CONVERTER_COUNT
      invariant ledger.next == old(ledger.next)
      invariant ledger.refs == Recount(old(ledger.refs), slots[..i], 1)
      invariant result.refcount == 1 && !result.freed && result.names == conv.names
      invariant result.persistent == (conv.persistent && maintainPersistence)
    {
      RecountStep(old(ledger.refs), slots, i, 1);
      ledger.SafeAddRef(slots[i]);
      i := i + 1;
    }
    assert slots[..CONVERTER_COUNT] == slots;
    result.converters := slots;
  }

  /** oledb_split_conversion_options as evidently intended: the holder that
      takes the split copy also gives up its reference on the original,
      which a shared original survives. */
  method SplitDroppingOriginal(conv: Context, maintainPersistence: bool, ledger: ComLedger) returns (result: Context)
    requires conv.Valid()
    modifies ledger, conv`refcount, conv`freed
    ensures result.Valid() && ledger.next == old(ledger.next) && conv.freed == old(conv.freed)
    ensures old(conv.refcount) <= 1 ==>
      result == conv && conv.refcount == old(conv.refcount) && ledger.refs == old(ledger.refs)
    ensures old(conv.refcount) > 1 ==>
      && fresh(result) && result.refcount == 1 && !result.freed
      && result.names == conv.names && result.converters == conv.converters
      && conv.refcount == old(conv.refcount) - 1
      && ledger.refs == Recount(old(ledger.refs), conv.converters, 1)
  {
    result := SplitConversionOptions(conv, maintainPersistence, ledger);
    if result != conv {
      ReleaseConversionOptions(conv, ledger);
    }
  }

  /** As written, the split strands the original: a connection's context
      shared with a statement, split when the statement sets an option,
      still counts the statement, so after the connection releases it no
      holder is left, yet it is never freed and its converters are never
      released. */
  method SplitStrandsOriginal(ledger: ComLedger) returns (org: Context, copy: Context)
    modifies ledger
    ensures fresh(org) && fresh(copy) && org != copy
    ensures org.refcount == 1 && !org.freed && copy.refcount == 1
  {
    org := new Context(false);
    var shared := CopyConversionOptions(org);
    copy := SplitConversionOptions(shared, false, ledger);
    ReleaseConversionOptions(org, ledger);
  }

  /** With the intended split, the same sequence frees the original once
      the connection releases it. */
  method SplitThenReleaseFrees(ledger: ComLedger) returns (org: Context, copy: Context)
    modifies ledger
    ensures fresh(org) && fresh(copy) && org != copy
    ensures org.refcount == 0 && org.freed && copy.refcount == 1
  {
    org := new Context(false);
    var shared := CopyConversionOptions(org);
    copy := SplitDroppingOriginal(shared, false, ledger);
    ReleaseConversionOptions(org, ledger);
  }

  // ------------------------------------------------------ codepages

  function AsciiLower(c: char): (d: char)
    ensures 'A' <= c <= 'Z' ==> d as int == c as int + 32
    ensures !('A' <= c <= 'Z') ==> d == c
  {
    if 'A' <= c <= 'Z' then (c as int + 32) as char else c
  }

  /** The lower-case form _stricmp compares. */
  function Lower(s: string): (t: string)
    ensures |t| == |s|
    ensures forall k :: 0 <= k < |s| ==> t[k] == AsciiLower(s[k])
  {
    seq(|s|, k requires 0 <= k < |s| => AsciiLower(s[k]))
  }

  /** Lower-casing twice changes nothing more. */
  lemma LowerIdempotent(s: string)
    ensures Lower(Lower(s)) == Lower(s)
  {
    forall k | 0 <= k < |s|
      ensures Lower(Lower(s))[k] == Lower(s)[k]
    {
      assert Lower(s)[k] == AsciiLower(s[k]);
    }
  }

  predicate IsUtf8Name(name: string)
  {
    Lower(name) == "utf8" || Lower(name) == "utf-8"
  }

  predicate IsUtf16Name(name: string)
  {
    Lower(name) == "utf16" || Lower(name) == "utf-16"
  }

  /** What oledb_get_codepage reports: its status, the codepage it wrote
      (none when it wrote none) and the automation error it set. */
  datatype CodePage = CodePage(hr: HResult, codePage: Option<int>, error: Option<Automation>)

  /** The description set when MLang does not know an encoding name; the
      name is cut to 64 characters. */
  function UnrecognizedMessage(name: string): (m: string)
    ensures |m| <= 25 + 64 + 22
  {
    "MLang does not recognize " + (if |name| > 64 then name[..64] else name) + " as a valid encoding."
  }

  /** oledb_get_codepage. */
  function GetCodePage(name: Option<string>, env: MLang): (r: CodePage)
    ensures name.None? ==> r == CodePage(S_FALSE, Some(-1), None)
    ensures name.Some? && !env.present ==> r == CodePage(E_FAIL, None, None)
    ensures name.Some? && env.present && IsUtf8Name(name.value) ==> r == CodePage(S_OK, Some(CP_UTF8), None)
    ensures name.Some? && env.present && IsUtf16Name(name.value) ==> r == CodePage(S_OK, Some(CP_UTF16), None)
    ensures Succeeded(r.hr) <==> r.codePage.Some?
  {
    if name.None? then CodePage(S_FALSE, Some(-1), None)
    else if !env.present then CodePage(E_FAIL, None, None)
    else if IsUtf8Name(name.value) then CodePage(S_OK, Some(CP_UTF8), None)
    else if IsUtf16Name(name.value) then CodePage(S_OK, Some(CP_UTF16), None)
    else
      var info := env.charsetInfo(name.value);
      if Succeeded(info.hr) then CodePage(info.hr, Some(info.codePage), None)
      else CodePage(info.hr, None, Some((UnrecognizedMessage(name.value), MLANG_STATE)))
  }

  /** The built-in names are matched without regard to case: every spelling
      gets the codepage of its lower-case form. */
  lemma CodePageIgnoresCase(name: string, env: MLang)
    requires env.present && (IsUtf8Name(name) || IsUtf16Name(name))
    ensures GetCodePage(Some(name), env) == GetCodePage(Some(Lower(name)), env)
    ensures GetCodePage(Some(name), env).codePage == Some(if IsUtf8Name(name) then CP_UTF8 else CP_UTF16)
  {
    LowerIdempotent(name);
  }

  // ------------------------------------------------------ converter slots

  /** The converter slots and the ledger, as values. */
  datatype Heap = Heap(slots: seq<Option<nat>>, refs: map<nat, int>, next: nat)

  /** A converter is made only between two distinct, known codepages. */
  predicate NeedsConverter(from: int, to: int)
  {
    from != to && from >= 0 && to >= 0
  }

  /** oledb_create_charset_converter on the slots: without MLang, E_FAIL and
      nothing changes; otherwise the slot's converter is released and the
      slot gets a new converter, or null (S_FALSE) when none is needed, or
      null with an automation error when MLang cannot make one. */
  function CreateOn(h: Heap, kind: nat, from: int, to: int, env: MLang): (r: (HResult, Heap, Option<Automation>))
    requires kind < |h.slots|
    ensures |r.1.slots| == |h.slots|
  {
    if !env.present then (E_FAIL, h, None)
    else
      var released := Recount(h.refs, [h.slots[kind]], -1);
      if !NeedsConverter(from, to) then (S_FALSE, h.(slots := h.slots[kind := None], refs := released), None)
      else
        var hr := env.createHr(from, to);
        if Succeeded(hr) then
          (hr, Heap(h.slots[kind := Some(h.next)], released[h.next := 1], h.next + 1), None)
        else (hr, h.(slots := h.slots[kind := None], refs := released), Some((NO_CONVERTER_MESSAGE, MLANG_STATE)))
  }

  /** oledb_share_charset_converter on the slots: the slot's converter is
      released and the slot takes the other slot's converter, with a
      reference of its own. */
  function ShareOn(h: Heap, kind: nat, other: nat): (r: Heap)
    requires kind < |h.slots| && other < |h.slots|
    ensures |r.slots| == |h.slots|
  {
    var released := Recount(h.refs, [h.slots[kind]], -1);
    h.(slots := h.slots[kind := h.slots[other]], refs := Recount(released, [h.slots[other]], 1))
  }

  method CreateCharsetConverter(conv: Context, kind: nat, from: int, to: int, env: MLang, ledger: ComLedger)
    returns (hr: HResult, error: Option<Automation>)
    requires conv.Valid() && kind < CONVERTER_COUNT
    modifies conv`converters, ledger
    ensures conv.Valid()
    ensures (hr, Heap(conv.converters, ledger.refs, ledger.next), error) ==
      CreateOn(Heap(old(conv.converters), old(ledger.refs), old(ledger.next)), kind, from, to, env)
  {
    error := None;
    if !env.present {
      return E_FAIL, None;
    }
    ghost var h := Heap(conv.converters, ledger.refs, ledger.next);
    RecountOne(h.refs, h.slots[kind], -1);
    ledger.SafeRelease(conv.converters[kind]);
    ghost var released := Recount(h.refs, [h.slots[kind]], -1);
    assert ledger.refs == released;
    if NeedsConverter(from, to) {
      hr := env.createHr(from, to);
      if Succeeded(hr) {
        var id := ledger.Create();
        conv.converters := conv.converters[kind := Some(id)];
        assert Heap(conv.converters, ledger.refs, ledger.next) == Heap(h.slots[kind := Some(h.next)], released[h.next := 1], h.next + 1);
      } else {
        conv.converters := conv.converters[kind := None];
        error := Some((NO_CONVERTER_MESSAGE, MLANG_STATE));
      }
    } else {
      conv.converters := conv.converters[kind := None];
      hr := S_FALSE;
    }
  }

  method ShareCharsetConverter(conv: Context, kind: nat, other: nat, ledger: ComLedger) returns (hr: HResult)
    requires conv.Valid() && kind < CONVERTER_COUNT && other < CONVERTER_COUNT
    modifies conv`converters, ledger
    ensures conv.Valid() && hr == S_OK
    ensures Heap(conv.converters, ledger.refs, ledger.next) ==
      ShareOn(Heap(old(conv.converters), old(ledger.refs), old(ledger.next)), kind, other)
  {
    ghost var refs0 := ledger.refs;
    assert [conv.converters[kind]][..0] == [];
    ledger.SafeRelease(conv.converters[kind]);
    assert ledger.refs == Recount(refs0, [old(conv.converters[kind])], -1);
    var o := conv.converters[other];
    assert [o][..0] == [];
    if o.Some? {
      conv.converters := conv.converters[kind := o];
      ledger.SafeAddRef(o);
    } else {
      conv.converters := conv.converters[kind := None];
    }
    assert ledger.refs == Recount(Recount(refs0, [old(conv.converters[kind])], -1), [old(conv.converters[other])], 1);
    assert conv.converters == old(conv.converters)[kind := old(conv.converters)[other]];
    assert ledger.next == old(ledger.next);
    hr := S_OK;
  }

  /** A slot that gets no converter is null; one that gets a converter
      holds a new object with a single reference. */
  lemma CreateOnSlot(h: Heap, kind: nat, from: int, to: int, env: MLang)
    requires kind < |h.slots| && env.present
    ensures var (hr, h2, err) := CreateOn(h, kind, from, to, env);
      && |h2.slots| == |h.slots|
      && (forall k :: 0 <= k < |h.slots| && k != kind ==> h2.slots[k] == h.slots[k])
      && (h2.slots[kind].Some? <==> NeedsConverter(from, to) && Succeeded(env.createHr(from, to)))
      && (h2.slots[kind].Some? ==> h2.slots[kind] == Some(h.next) && Lookup(h2.refs, h.next) == 1)
      && (!NeedsConverter(from, to) ==> hr == S_FALSE)
      && (err.Some? <==> NeedsConverter(from, to) && !Succeeded(env.createHr(from, to)))
  {
  }

  /** Sharing puts the other slot's converter into the slot and leaves the
      other slots alone; the shared converter gains a reference and the
      replaced one loses one (the two cancel when they are the same). */
  lemma ShareOnSlot(h: Heap, kind: nat, other: nat, id: nat)
    requires kind < |h.slots| && other < |h.slots|
    ensures var h2 := ShareOn(h, kind, other);
      && h2.slots[kind] == h.slots[other] && h2.next == h.next
      && (forall k :: 0 <= k < |h.slots| && k != kind ==> h2.slots[k] == h.slots[k])
      && Lookup(h2.refs, id) == Lookup(h.refs, id)
           - (if h.slots[kind] == Some(id) then 1 else 0) + (if h.slots[other] == Some(id) then 1 else 0)
  {
    var released := Recount(h.refs, [h.slots[kind]], -1);
    RecountCounts(h.refs, [h.slots[kind]], -1, id);
    RecountCounts(released, [h.slots[other]], 1, id);
    assert [h.slots[kind]][..0] == [];
    assert [h.slots[other]][..0] == [];
  }

  // ------------------------------------------------------ set / get

  /** The name a set stores: null for a null or empty value. */
  function NameFrom(val: Option<string>): (n: Option<string>)
    ensures n.Some? <==> val.Some? && |val.value| > 0
    ensures n.Some? ==> n == val
  {
    if val.Some? && |val.value| > 0 then val else None
  }

  /** What setting ENCODING does to the slots once both codepages are
      known: the four input/unicode/varchar converters are rebuilt, then the
      query slot shares the input-to-unicode converter if no query encoding
      is set.  The status is the last step's, made S_OK when it succeeded. */
  function EncodingOn(h: Heap, cp: int, vcp: int, hasQuery: bool, env: MLang): (r: (HResult, Heap, seq<Automation>))
    requires |h.slots| == CONVERTER_COUNT
    ensures |r.1.slots| == CONVERTER_COUNT
  {
    var (_, h0, e0) := CreateOn(h, CONVERT_FROM_INPUT_TO_UNICODE, cp, CP_UTF16, env);
    var (_, h1, e1) := CreateOn(h0, CONVERT_FROM_UNICODE_TO_OUTPUT, CP_UTF16, cp, env);
    var (_, h3, e3) := CreateOn(h1, CONVERT_FROM_INPUT_TO_VARCHAR, cp, vcp, env);
    var (hr4, h4, e4) := CreateOn(h3, CONVERT_FROM_VARCHAR_TO_OUTPUT, vcp, cp, env);
    var errs := Errors([e0, e1, e3, e4]);
    if hasQuery then (if Succeeded(hr4) then S_OK else hr4, h4, errs)
    else (S_OK, ShareOn(h4, CONVERT_FROM_INPUT_TO_QUERY, CONVERT_FROM_INPUT_TO_UNICODE), errs)
  }

  /** The automation errors that were set, in order. */
  function Errors(es: seq<Option<Automation>>): (r: seq<Automation>)
    ensures |r| <= |es|
    decreases |es|
  {
    if es == [] then []
    else Errors(es[..|es| - 1]) + (if es[|es| - 1].Some? then [es[|es| - 1].value] else [])
  }

  /** What setting CHAR_ENCODING does to the slots once both codepages are
      known: the two varchar converters are rebuilt. */
  function CharEncodingOn(h: Heap, cp: int, vcp: int, env: MLang): (r: (HResult, Heap, seq<Automation>))
    requires |h.slots| == CONVERTER_COUNT
    ensures |r.1.slots| == CONVERTER_COUNT
  {
    var (_, h3, e3) := CreateOn(h, CONVERT_FROM_INPUT_TO_VARCHAR, cp, vcp, env);
    var (hr4, h4, e4) := CreateOn(h3, CONVERT_FROM_VARCHAR_TO_OUTPUT, vcp, cp, env);
    (if Succeeded(hr4) then S_OK else hr4, h4, Errors([e3, e4]))
  }

  /** What setting QUERY_ENCODING does to the slots: a converter from the
      query codepage, or a share of the input-to-unicode converter when the
      query encoding is cleared. */
  function QueryEncodingOn(h: Heap, query: Option<string>, env: MLang): (r: (HResult, Heap, seq<Automation>))
    requires |h.slots| == CONVERTER_COUNT
    ensures |r.1.slots| == CONVERTER_COUNT
  {
    if query.Some? then
      var qcp := GetCodePage(query, env);
      if !Succeeded(qcp.hr) then (qcp.hr, h, Errors([qcp.error]))
      else
        var (hr, h2, e) := CreateOn(h, CONVERT_FROM_INPUT_TO_QUERY, qcp.codePage.value, CP_UTF16, env);
        (if Succeeded(hr) then S_OK else hr, h2, Errors([e]))
    else (S_OK, ShareOn(h, CONVERT_FROM_INPUT_TO_QUERY, CONVERT_FROM_INPUT_TO_UNICODE), [])
  }

  /** oledb_set_conversion_option after the split, on the names and the
      slots: the attribute's name is replaced, then the converters it
      governs are rebuilt; an attribute that is not an encoding gives
      S_FALSE and changes nothing. */
  function SetOptionOn(n: Names, h: Heap, attr: int, val: Option<string>, env: MLang): (r: (HResult, Names, Heap, seq<Automation>))
    requires |h.slots| == CONVERTER_COUNT
    ensures |r.2.slots| == CONVERTER_COUNT
  {
    if attr == PDO_OLEDB_ATTR_ENCODING then
      var n2 := n.(charset := NameFrom(val));
      var cp := GetCodePage(n2.charset, env);
      if !Succeeded(cp.hr) then (cp.hr, n2, h, Errors([cp.error]))
      else
        var vcp := GetCodePage(n2.varcharCharset, env);
        if !Succeeded(vcp.hr) then (vcp.hr, n2, h, Errors([vcp.error]))
        else
          var (hr, h2, errs) := EncodingOn(h, cp.codePage.value, vcp.codePage.value, n2.queryCharset.Some?, env);
          (hr, n2, h2, errs)
    else if attr == PDO_OLEDB_ATTR_QUERY_ENCODING then
      var n2 := n.(queryCharset := NameFrom(val));
      var (hr, h2, errs) := QueryEncodingOn(h, n2.queryCharset, env);
      (hr, n2, h2, errs)
    else if attr == PDO_OLEDB_ATTR_CHAR_ENCODING then
      var n2 := n.(varcharCharset := NameFrom(val));
      var cp := GetCodePage(n2.charset, env);
      if !Succeeded(cp.hr) then (cp.hr, n2, h, Errors([cp.error]))
      else
        var vcp := GetCodePage(n2.varcharCharset, env);
        if !Succeeded(vcp.hr) then (vcp.hr, n2, h, Errors([vcp.error]))
        else
          var (hr, h2, errs) := CharEncodingOn(h, cp.codePage.value, vcp.codePage.value, env);
          (hr, n2, h2, errs)
    else (S_FALSE, n, h, [])
  }

  /** oledb_get_conversion_option: the encoding, or for the query and
      varchar encodings their own name falling back to the encoding, which
      falls back to "".  The status is always S_FALSE, so callers go on to
      the internal flags; an attribute that is not an encoding writes no
      value. */
  function GetConversionOption(n: Names, attr: int): (r: (HResult, Option<string>))
    ensures r.0 == S_FALSE
    ensures r.1.Some? <==> attr in {PDO_OLEDB_ATTR_ENCODING, PDO_OLEDB_ATTR_QUERY_ENCODING, PDO_OLEDB_ATTR_CHAR_ENCODING}
  {
    var fallback := if n.charset.Some? then n.charset.value else "";
    if attr == PDO_OLEDB_ATTR_ENCODING then (S_FALSE, Some(fallback))
    else if attr == PDO_OLEDB_ATTR_QUERY_ENCODING then
      (S_FALSE, Some(if n.queryCharset.Some? then n.queryCharset.value else fallback))
    else if attr == PDO_OLEDB_ATTR_CHAR_ENCODING then
      (S_FALSE, Some(if n.varcharCharset.Some? then n.varcharCharset.value else fallback))
    else (S_FALSE, None)
  }

  /** oledb_set_conversion_option.  The holder's context is split first,
      whatever the attribute; the result is the context the holder now
      points at. */
  method SetConversionOption(conv: Context, attr: int, val: Option<string>, maintainPersistence: bool,
                             env: MLang, ledger: ComLedger)
    returns (hr: HResult, result: Context, errors: seq<Automation>)
    requires conv.Valid()
    modifies ledger, conv
    ensures result.Valid() && (result == conv || fresh(result))
    ensures old(conv.refcount) <= 1 ==> result == conv
    ensures old(conv.refcount) > 1 ==>
      && conv.refcount == old(conv.refcount) - 1 && conv.freed == old(conv.freed)
      && conv.names == old(conv.names) && conv.converters == old(conv.converters)
    ensures var h := Heap(old(conv.converters), old(ledger.refs), old(ledger.next));
      var split := if old(conv.refcount) <= 1 then h else h.(refs := Recount(h.refs, h.slots, 1));
      (hr, result.names, Heap(result.converters, ledger.refs, ledger.next), errors) ==
        SetOptionOn(old(conv.names), split, attr, val, env)
  {
    result := SplitDroppingOriginal(conv, maintainPersistence, ledger);
    hr, errors := SetOnSplit(result, attr, val, env, ledger);
  }

  /** The switch of oledb_set_conversion_option, on the context the split
      left the holder. */
  method SetOnSplit(result: Context, attr: int, val: Option<string>, env: MLang, ledger: ComLedger)
    returns (hr: HResult, errors: seq<Automation>)
    requires result.Valid()
    modifies result`names, result`converters, ledger
    ensures result.Valid()
    ensures (hr, result.names, Heap(result.converters, ledger.refs, ledger.next), errors) ==
      SetOptionOn(old(result.names), Heap(old(result.converters), old(ledger.refs), old(ledger.next)), attr, val, env)
  {
    errors := [];
    if attr == PDO_OLEDB_ATTR_ENCODING {
      result.names := result.names.(charset := NameFrom(val));
      var cp := GetCodePage(result.names.charset, env);
      if !Succeeded(cp.hr) {
        return cp.hr, Errors([cp.error]);
      }
      var vcp := GetCodePage(result.names.varcharCharset, env);
      if !Succeeded(vcp.hr) {
        return vcp.hr, Errors([vcp.error]);
      }
      var e0, e1, e3, e4;
      hr, e0 := CreateCharsetConverter(result, CONVERT_FROM_INPUT_TO_UNICODE, cp.codePage.value, CP_UTF16, env, ledger);
      hr, e1 := CreateCharsetConverter(result, CONVERT_FROM_UNICODE_TO_OUTPUT, CP_UTF16, cp.codePage.value, env, ledger);
      hr, e3 := CreateCharsetConverter(result, CONVERT_FROM_INPUT_TO_VARCHAR, cp.codePage.value, vcp.codePage.value, env, ledger);
      hr, e4 := CreateCharsetConverter(result, CONVERT_FROM_VARCHAR_TO_OUTPUT, vcp.codePage.value, cp.codePage.value, env, ledger);
      errors := Errors([e0, e1, e3, e4]);
      if result.names.queryCharset.None? {
        hr := ShareCharsetConverter(result, CONVERT_FROM_INPUT_TO_QUERY, CONVERT_FROM_INPUT_TO_UNICODE, ledger);
      }
      if Succeeded(hr) {
        hr := S_OK;
      }
    } else if attr == PDO_OLEDB_ATTR_QUERY_ENCODING {
      result.names := result.names.(queryCharset := NameFrom(val));
      if result.names.queryCharset.Some? {
        var qcp := GetCodePage(result.names.queryCharset, env);
        if !Succeeded(qcp.hr) {
          return qcp.hr, Errors([qcp.error]);
        }
        var e;
        hr, e := CreateCharsetConverter(result, CONVERT_FROM_INPUT_TO_QUERY, qcp.codePage.value, CP_UTF16, env, ledger);
        errors := Errors([e]);
      } else {
        hr := ShareCharsetConverter(result, CONVERT_FROM_INPUT_TO_QUERY, CONVERT_FROM_INPUT_TO_UNICODE, ledger);
      }
      if Succeeded(hr) {
        hr := S_OK;
      }
    } else if attr == PDO_OLEDB_ATTR_CHAR_ENCODING {
      result.names := result.names.(varcharCharset := NameFrom(val));
      var cp := GetCodePage(result.names.charset, env);
      if !Succeeded(cp.hr) {
        return cp.hr, Errors([cp.error]);
      }
      var vcp := GetCodePage(result.names.varcharCharset, env);
      if !Succeeded(vcp.hr) {
        return vcp.hr, Errors([vcp.error]);
      }
      var e3, e4;
      hr, e3 := CreateCharsetConverter(result, CONVERT_FROM_INPUT_TO_VARCHAR, cp.codePage.value, vcp.codePage.value, env, ledger);
      hr, e4 := CreateCharsetConverter(result, CONVERT_FROM_VARCHAR_TO_OUTPUT, vcp.codePage.value, cp.codePage.value, env, ledger);
      errors := Errors([e3, e4]);
      if Succeeded(hr) {
        hr := S_OK;
      }
    } else {
      hr := S_FALSE;
    }
  }

  // ------------------------------------------------------ properties of set

  /** Setting a name and reading it back: the attribute reports the value
      set (or, when it was cleared, its fallback), whatever the status. */
  lemma SetThenGet(n: Names, h: Heap, attr: int, val: Option<string>, env: MLang)
    requires |h.slots| == CONVERTER_COUNT
    requires attr in {PDO_OLEDB_ATTR_ENCODING, PDO_OLEDB_ATTR_QUERY_ENCODING, PDO_OLEDB_ATTR_CHAR_ENCODING}
    requires val.Some? && |val.value| > 0
    ensures GetConversionOption(SetOptionOn(n, h, attr, val, env).1, attr) == (S_FALSE, val)
  {
  }

  /** An attribute that is not an encoding is left to the internal flags:
      S_FALSE, and neither names nor slots change. */
  lemma SetOtherAttribute(n: Names, h: Heap, attr: int, val: Option<string>, env: MLang)
    requires |h.slots| == CONVERTER_COUNT
    requires attr !in {PDO_OLEDB_ATTR_ENCODING, PDO_OLEDB_ATTR_QUERY_ENCODING, PDO_OLEDB_ATTR_CHAR_ENCODING}
    ensures SetOptionOn(n, h, attr, val, env) == (S_FALSE, n, h, [])
  {
  }

  /** Every converter in the slots is older than the ledger's next
      identity. */
  predicate SlotsOlder(h: Heap)
  {
    forall k :: 0 <= k < |h.slots| && h.slots[k].Some? ==> h.slots[k].value < h.next
  }

  /** Creating a converter touches only the count of the slot's old
      converter and of the new one, and keeps the slots older than the
      ledger's next identity. */
  lemma CreateOnCounts(h: Heap, kind: nat, from: int, to: int, env: MLang, id: nat)
    requires kind < |h.slots| && SlotsOlder(h)
    ensures var h2 := CreateOn(h, kind, from, to, env).1;
      && SlotsOlder(h2) && h2.next >= h.next
      && (id != h.next && h.slots[kind] != Some(id) ==> Lookup(h2.refs, id) == Lookup(h.refs, id))
  {
    RecountCounts(h.refs, [h.slots[kind]], -1, id);
    assert Occurrences([h.slots[kind]], id) == (if h.slots[kind] == Some(id) then 1 else 0) by {
      assert [h.slots[kind]][..0] == [];
    }
  }

  /** Setting ENCODING with MLang present and both codepages known rebuilds
      each of the four converters (null exactly when its two codepages are
      equal or unknown, or MLang cannot make it), and with no query
      encoding the query slot then holds the input-to-unicode converter,
      which has two references, and the status is S_OK. */
  lemma EncodingRebuilds(h: Heap, cp: int, vcp: int, env: MLang)
    requires |h.slots| == CONVERTER_COUNT && env.present && SlotsOlder(h)
    ensures var (hr, h2, _) := EncodingOn(h, cp, vcp, false, env);
      && |h2.slots| == CONVERTER_COUNT
      && hr == S_OK
      && h2.slots[CONVERT_FROM_INPUT_TO_QUERY] == h2.slots[CONVERT_FROM_INPUT_TO_UNICODE]
      && (h2.slots[CONVERT_FROM_INPUT_TO_UNICODE].Some? <==> NeedsConverter(cp, CP_UTF16) && Succeeded(env.createHr(cp, CP_UTF16)))
      && (h2.slots[CONVERT_FROM_UNICODE_TO_OUTPUT].Some? <==> NeedsConverter(CP_UTF16, cp) && Succeeded(env.createHr(CP_UTF16, cp)))
      && (h2.slots[CONVERT_FROM_INPUT_TO_VARCHAR].Some? <==> NeedsConverter(cp, vcp) && Succeeded(env.createHr(cp, vcp)))
      && (h2.slots[CONVERT_FROM_VARCHAR_TO_OUTPUT].Some? <==> NeedsConverter(vcp, cp) && Succeeded(env.createHr(vcp, cp)))
      && (h2.slots[CONVERT_FROM_INPUT_TO_UNICODE].Some? ==>
            h2.slots[CONVERT_FROM_INPUT_TO_UNICODE] == Some(h.next) && Lookup(h2.refs, h.next) == 2)
  {
    var id := h.next;
    var h0 := CreateOn(h, CONVERT_FROM_INPUT_TO_UNICODE, cp, CP_UTF16, env).1;
    CreateOnSlot(h, CONVERT_FROM_INPUT_TO_UNICODE, cp, CP_UTF16, env);
    CreateOnCounts(h, CONVERT_FROM_INPUT_TO_UNICODE, cp, CP_UTF16, env, id);
    var h1 := CreateOn(h0, CONVERT_FROM_UNICODE_TO_OUTPUT, CP_UTF16, cp, env).1;
    CreateOnSlot(h0, CONVERT_FROM_UNICODE_TO_OUTPUT, CP_UTF16, cp, env);
    CreateOnCounts(h0, CONVERT_FROM_UNICODE_TO_OUTPUT, CP_UTF16, cp, env, id);
    var h3 := CreateOn(h1, CONVERT_FROM_INPUT_TO_VARCHAR, cp, vcp, env).1;
    CreateOnSlot(h1, CONVERT_FROM_INPUT_TO_VARCHAR, cp, vcp, env);
    CreateOnCounts(h1, CONVERT_FROM_INPUT_TO_VARCHAR, cp, vcp, env, id);
    var h4 := CreateOn(h3, CONVERT_FROM_VARCHAR_TO_OUTPUT, vcp, cp, env).1;
    CreateOnSlot(h3, CONVERT_FROM_VARCHAR_TO_OUTPUT, vcp, cp, env);
    CreateOnCounts(h3, CONVERT_FROM_VARCHAR_TO_OUTPUT, vcp, cp, env, id);
    var released := Recount(h4.refs, [h4.slots[CONVERT_FROM_INPUT_TO_QUERY]], -1);
    RecountCounts(h4.refs, [h4.slots[CONVERT_FROM_INPUT_TO_QUERY]], -1, id);
    RecountCounts(released, [h4.slots[CONVERT_FROM_INPUT_TO_UNICODE]], 1, id);
    assert [h4.slots[CONVERT_FROM_INPUT_TO_QUERY]][..0] == [];
    assert [h4.slots[CONVERT_FROM_INPUT_TO_UNICODE]][..0] == [];
  }
}
