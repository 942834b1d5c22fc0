/**
 * The wasm post-processor of the CLI: it finds the imports that
 * wasm-bindgen put under the module `wbg` in the import section (section
 * 5.5.5 of the WebAssembly Core Specification, section id 2), and renames
 * the module to `_` and every import to a short symbol, in the `.wasm`
 * import section and in the JavaScript glue alike.
 *
 * An import entry is a module name, a field name (each a length byte and
 * the bytes) and an import description, which for the functions
 * wasm-bindgen imports is 2 bytes long.
 */
module WasmImports {
  import opened Wrappers
  import opened Symbol

  newtype byte = x: int | 0 <= x < 256

  /** The id of the import section. */
  const IMPORT_SECTION_ID: byte := 2

  /** `\x03wbg`: the module name `wbg`, with its length byte. */
  const WBG: seq<byte> := [3, 0x77, 0x62, 0x67]

  /** `\x01_`: the module name `_`, with its length byte. */
  const UNDERSCORE: seq<byte> := [1, 0x5F]

  /** `.wbg`, `.wbg.`, `._` and `._.` in the JavaScript text. */
  const DOT_WBG: seq<byte> := [0x2E, 0x77, 0x62, 0x67]
  const DOT_WBG_DOT: seq<byte> := [0x2E, 0x77, 0x62, 0x67, 0x2E]
  const DOT_UNDERSCORE: seq<byte> := [0x2E, 0x5F]
  const DOT_UNDERSCORE_DOT: seq<byte> := [0x2E, 0x5F, 0x2E]

  const NO_NAME := "Couldn't read import name from Wasm"
  const OUT_OF_BOUNDS := "index out of bounds"
  const NOT_ALL_FOUND := "Some imports not found?"
  const NO_WBG := "Couldn't find the `wbg` imports in the JavaScript input"
  const NO_IMPORT := "Couldn't find the import in the JavaScript input"

  /** The section count is a `u32`, so there are fewer than 2^32 imports. */
  const U32: nat := 0x1_0000_0000

  predicate StartsAt(s: seq<byte>, i: nat, p: seq<byte>)
  {
    i + |p| <= |s| && s[i..i + |p|] == p
  }

  predicate EndsWith(s: seq<byte>, p: seq<byte>)
  {
    |p| <= |s| && s[|s| - |p|..] == p
  }

  /** `find`: the first position of `p` in `s`, searching from `i`. */
  function FindFrom(s: seq<byte>, p: seq<byte>, i: nat): (r: Option<nat>)
    requires i <= |s|
    ensures r.Some? ==> i <= r.value && StartsAt(s, r.value, p)
    ensures forall j: nat :: i <= j && (r.None? || j < r.value) ==> !StartsAt(s, j, p)
    decreases |s| - i
  {
    if StartsAt(s, i, p) then Some(i)
    else if i == |s| then None
    else FindFrom(s, p, i + 1)
  }

  function Find(s: seq<byte>, p: seq<byte>): (r: Option<nat>)
    ensures r.Some? ==> StartsAt(s, r.value, p)
    ensures forall j: nat :: r.None? || j < r.value ==> !StartsAt(s, j, p)
  {
    FindFrom(s, p, 0)
  }

  /**
   * The first loop of `Wasm::parse`: the bytes before the import section,
   * trimmed from the right until the last one is the section id, or none is
   * left.  The result is the longest prefix ending in the id.
   */
  method TrimHead(head: seq<byte>) returns (h: seq<byte>)
    ensures h <= head
    ensures |h| == 0 || h[|h| - 1] == IMPORT_SECTION_ID
    ensures forall i :: |h| <= i < |head| ==> head[i] != IMPORT_SECTION_ID
  {
    h := head;
    while |h| > 0
      invariant h <= head
      invariant forall i :: |h| <= i < |head| ==> head[i] != IMPORT_SECTION_ID
    {
      if h[|h| - 1] == IMPORT_SECTION_ID {
        break;
      }
      h := h[..|h| - 1];
    }
  }

  /** `Import`: the name read from the section, and its 2 description bytes. */
  datatype Import = Import(name: seq<byte>, ty: seq<byte>)

  /**
   * The records from the start of `w`: while `w` starts with `\x03wbg`, the
   * byte after it is the name's length, then come the name and 2 bytes of
   * description; a record that runs past the end panics.
   */
  function Records(w: seq<byte>): Result<seq<Import>>
    decreases |w|
  {
    if !StartsAt(w, 0, WBG) then Ok([])
    else if |w| <= 4 then Panic(OUT_OF_BOUNDS)
    else
      var len := w[4] as nat;
      if 5 + len > |w| then Panic(NO_NAME)
      else if 7 + len > |w| then Panic(OUT_OF_BOUNDS)
      else Prepend([Import(w[5..5 + len], w[5 + len..7 + len])], Records(w[7 + len..]))
  }

  /** The records found before some more, with a failure passed on. */
  function Prepend(found: seq<Import>, r: Result<seq<Import>>): Result<seq<Import>>
  {
    match r
    case Ok(rest) => Ok(found + rest)
    case Panic(m) => Panic(m)
  }

  lemma PrependTwice(found: seq<Import>, imp: Import, r: Result<seq<Import>>)
    ensures Prepend(found, Prepend([imp], r)) == Prepend(found + [imp], r)
  {
    if r.Ok? {
      assert found + ([imp] + r.value) == (found + [imp]) + r.value;
    }
  }

  /** A record starts at `i` in `w` just when one starts at the beginning of `w[i..]`. */
  lemma StartsAtSuffix(w: seq<byte>, i: nat)
    requires i <= |w|
    ensures StartsAt(w[i..], 0, WBG) <==> StartsAt(w, i, WBG)
  {
    if i + 4 <= |w| {
      assert w[i..][0..4] == w[i..i + 4];
    }
  }

  /** `Records` on the bytes from `i` on, read at `i` in `w`: the record there, or the way it fails. */
  lemma RecordsAt(w: seq<byte>, i: nat)
    requires StartsAt(w, i, WBG)
    ensures i + 4 >= |w| ==> Records(w[i..]) == Panic(OUT_OF_BOUNDS)
    ensures i + 4 < |w| && i + 5 + w[i + 4] as nat > |w| ==> Records(w[i..]) == Panic(NO_NAME)
    ensures i + 4 < |w| && i + 5 + w[i + 4] as nat <= |w| < i + 7 + w[i + 4] as nat ==>
      Records(w[i..]) == Panic(OUT_OF_BOUNDS)
    ensures i + 4 < |w| && i + 7 + w[i + 4] as nat <= |w| ==>
      Records(w[i..]) == Prepend([Import(w[i + 5..i + 5 + w[i + 4] as nat],
                                         w[i + 5 + w[i + 4] as nat..i + 7 + w[i + 4] as nat])],
                                 Records(w[i + 7 + w[i + 4] as nat..]))
  {
    var v := w[i..];
    StartsAtSuffix(w, i);
    if i + 4 < |w| {
      var len := w[i + 4] as nat;
      assert v[4] == w[i + 4];
      if i + 7 + len <= |w| {
        assert v[5..5 + len] == w[i + 5..i + 5 + len];
        assert v[5 + len..7 + len] == w[i + 5 + len..i + 7 + len];
        assert v[7 + len..] == w[i + 7 + len..];
      }
    }
  }

  /** Where the scan starts: at the first `\x03wbg`, or at the end if there is none. */
  function ScanStart(w: seq<byte>): (i: nat)
    ensures i <= |w|
    ensures i < |w| ==> StartsAt(w, i, WBG)
    ensures forall j: nat :: j < i ==> !StartsAt(w, j, WBG)
  {
    match Find(w, WBG)
    case Some(i) => i
    case None => |w|
  }

  /** What the scan of an import section yields: the records from the first `\x03wbg` on. */
  function Scanned(w: seq<byte>): Result<seq<Import>>
  {
    Records(w[ScanStart(w)..])
  }

  /** The first scanning loop of `Wasm::parse`: forward to the first `\x03wbg`. */
  method SkipToWbg(w: seq<byte>) returns (i: nat)
    ensures i == ScanStart(w)
  {
    i := 0;
    while i < |w| && !StartsAt(w, i, WBG)
      invariant i <= |w| && forall j: nat :: j < i ==> !StartsAt(w, j, WBG)
    {
      i := i + 1;
    }
    var k := ScanStart(w);
    assert !(k < i) && !(i < k);
  }

  /**
   * One turn of the second scanning loop of `Wasm::parse`, at a `\x03wbg`:
   * the record there and the position after it, or the panic that reading
   * it runs into.
   */
  method ReadRecord(w: seq<byte>, i: nat) returns (r: Result<(Import, nat)>)
    requires StartsAt(w, i, WBG)
    ensures r.Panic? ==> Records(w[i..]) == Panic(r.message)
    ensures r.Ok? ==> i < r.value.1 <= |w| && Records(w[i..]) == Prepend([r.value.0], Records(w[r.value.1..]))
  {
    RecordsAt(w, i);
    if i + 4 >= |w| {
      return Panic(OUT_OF_BOUNDS);
    }
    var len := w[i + 4] as nat;
    var at := i + 5;
    if at + len > |w| {
      return Panic(NO_NAME);
    }
    var name := w[at..at + len];
    at := at + len;
    if at + 2 > |w| {
      return Panic(OUT_OF_BOUNDS);
    }
    r := Ok((Import(name, w[at..at + 2]), at + 2));
  }

  /**
   * The two scanning loops of `Wasm::parse`: skip to the first `\x03wbg`,
   * then read one record per `\x03wbg` met back to back.
   */
  method Scan(w: seq<byte>) returns (r: Result<seq<Import>>)
    ensures r == Scanned(w)
  {
    var i := SkipToWbg(w);
    var imports := [];
    ghost var start := Records(w[i..]);
    assert start.Ok? ==> [] + start.value == start.value;
    while i < |w| && StartsAt(w, i, WBG)
      invariant i <= |w|
      invariant Prepend(imports, Records(w[i..])) == Scanned(w)
      decreases |w| - i
    {
      var read := ReadRecord(w, i);
      if read.Panic? {
        return Panic(read.message);
      }
      PrependTwice(imports, read.value.0, Records(w[read.value.1..]));
      imports := imports + [read.value.0];
      i := read.value.1;
    }
    StartsAtSuffix(w, i);
    assert imports + [] == imports;
    r := Ok(imports);
  }

  /** The bytes wasm-bindgen writes for an import of module `wbg`. */
  function WbgEntry(imp: Import): seq<byte>
    requires |imp.name| < 256
  {
    WBG + [|imp.name| as byte] + imp.name + imp.ty
  }

  predicate WellFormed(imports: seq<Import>)
  {
    forall i :: 0 <= i < |imports| ==> |imports[i].name| < 256 && |imports[i].ty| == 2
  }

  function WbgEntries(imports: seq<Import>): seq<byte>
    requires WellFormed(imports)
  {
    if |imports| == 0 then [] else WbgEntry(imports[0]) + WbgEntries(imports[1..])
  }

  /** One `wbg` entry, then anything: the record is read, and the scan goes on after it. */
  lemma RecordsCons(imp: Import, tail: seq<byte>)
    requires |imp.name| < 256 && |imp.ty| == 2
    ensures Records(WbgEntry(imp) + tail) == Prepend([imp], Records(tail))
  {
    var w := WbgEntry(imp) + tail;
    var len := |imp.name|;
    assert w[0..4] == WBG;
    assert w[4] == len as byte;
    assert w[5..5 + len] == imp.name;
    assert w[5 + len..7 + len] == imp.ty;
    assert w[7 + len..] == tail;
  }

  /**
   * The scan reads back exactly the imports a section of `wbg` entries
   * holds, whatever follows it as long as it is not one more such entry.
   */
  lemma {:induction false} RecordsRoundTrip(imports: seq<Import>, rest: seq<byte>)
    requires WellFormed(imports) && !StartsAt(rest, 0, WBG)
    ensures Records(WbgEntries(imports) + rest) == Ok(imports)
  {
    if |imports| == 0 {
      assert WbgEntries(imports) + rest == rest;
    } else {
      var imp := imports[0];
      RecordsRoundTrip(imports[1..], rest);
      assert WbgEntries(imports) + rest == WbgEntry(imp) + (WbgEntries(imports[1..]) + rest);
      RecordsCons(imp, WbgEntries(imports[1..]) + rest);
      assert [imp] + imports[1..] == imports;
    }
  }

  /** Every record read has a name shorter than 256 bytes and a 2-byte description. */
  lemma {:induction false} RecordsWellFormed(w: seq<byte>)
    ensures Records(w).Ok? ==> WellFormed(Records(w).value)
    decreases |w|
  {
    if StartsAt(w, 0, WBG) && |w| > 4 {
      var len := w[4] as nat;
      if 7 + len <= |w| {
        RecordsWellFormed(w[7 + len..]);
      }
    }
  }

  /** What `Wasm::parse` keeps of the module: the head up to the section id, the imports, the tail. */
  datatype Wasm = Wasm(size: nat, head: seq<byte>, imports: seq<Import>, tail: seq<byte>)

  /**
   * `Wasm::parse`, on the import section the binary parser located at
   * `start..end` of the module, with `count` entries per its header: the
   * head (all before the section's last size byte) is trimmed back to the
   * section id, the section is scanned, and a scan that found a different
   * number of imports than the header says panics.
   */
  method Parse(source: seq<byte>, start: nat, end: nat, count: nat) returns (r: Result<Wasm>)
    requires 1 <= start <= end <= |source|
    ensures Scanned(source[start..end]).Panic? ==> r == Panic(Scanned(source[start..end]).message)
    ensures Scanned(source[start..end]).Ok? && |Scanned(source[start..end]).value| != count ==> r == Panic(NOT_ALL_FOUND)
    ensures Scanned(source[start..end]).Ok? && |Scanned(source[start..end]).value| == count ==>
      r.Ok? && r.value.imports == Scanned(source[start..end]).value
    ensures r.Ok? ==> r.value.size == end - start && r.value.tail == source[end..] && r.value.head <= source[..start - 1]
    ensures r.Ok? ==> |r.value.head| == 0 || r.value.head[|r.value.head| - 1] == IMPORT_SECTION_ID
    ensures r.Ok? ==> forall i :: |r.value.head| <= i < start - 1 ==> source[i] != IMPORT_SECTION_ID
    ensures r.Ok? ==> WellFormed(r.value.imports)
  {
    var h := TrimHead(source[..start - 1]);
    var section := source[start..end];
    var scanned := Scan(section);
    if scanned.Panic? {
      return Panic(scanned.message);
    }
    if |scanned.value| != count {
      return Panic(NOT_ALL_FOUND);
    }
    RecordsWellFormed(section[ScanStart(section)..]);
    r := Ok(Wasm(end - start, h, scanned.value, source[end..]));
  }

  /** An import entry of the section as the renaming writes it. */
  datatype Entry = Entry(mod: seq<byte>, name: seq<byte>, ty: seq<byte>)

  predicate EntryOk(e: Entry)
  {
    |e.mod| < 256 && |e.name| < 256 && |e.ty| == 2
  }

  function Encode(e: Entry): seq<byte>
    requires EntryOk(e)
  {
    [|e.mod| as byte] + e.mod + [|e.name| as byte] + e.name + e.ty
  }

  predicate AllOk(es: seq<Entry>)
  {
    forall i :: 0 <= i < |es| ==> EntryOk(es[i])
  }

  function EncodeAll(es: seq<Entry>): seq<byte>
    requires AllOk(es)
  {
    if |es| == 0 then [] else Encode(es[0]) + EncodeAll(es[1..])
  }

  /** The entry at the head of the bytes and how many bytes it takes; `None` when it is cut short. */
  function Head(b: seq<byte>): (r: Option<(Entry, nat)>)
    requires |b| > 0
    ensures r.Some? ==> 4 <= r.value.1 <= |b|
  {
    var m := b[0] as nat;
    if 1 + m >= |b| then None
    else
      var n := b[1 + m] as nat;
      if 4 + m + n > |b| then None
      else Some((Entry(b[1..1 + m], b[2 + m..2 + m + n], b[2 + m + n..4 + m + n]), 4 + m + n))
  }

  /** Reading import entries until the bytes run out; `None` when one is cut short. */
  function Decode(b: seq<byte>): Option<seq<Entry>>
    decreases |b|
  {
    if |b| == 0 then Some([])
    else match Head(b)
      case None => None
      case Some((e, k)) =>
        match Decode(b[k..])
        case Some(rest) => Some([e] + rest)
        case None => None
  }

  /** One entry, then anything: the entry is read, and the reading goes on after it. */
  lemma {:induction false} DecodeCons(e: Entry, tail: seq<byte>)
    requires EntryOk(e)
    ensures Decode(tail).Some? ==> Decode(Encode(e) + tail) == Some([e] + Decode(tail).value)
    ensures Decode(tail).None? ==> Decode(Encode(e) + tail).None?
  {
    var b := Encode(e) + tail;
    HeadEncode(e, tail);
    assert b[4 + |e.mod| + |e.name|..] == tail;
  }

  /** An entry's bytes read back as that entry, whatever follows them. */
  lemma {:induction false} HeadEncode(e: Entry, tail: seq<byte>)
    requires EntryOk(e)
    ensures |Encode(e) + tail| > 0 && Head(Encode(e) + tail) == Some((e, 4 + |e.mod| + |e.name|))
  {
    var b, m, n := Encode(e) + tail, |e.mod|, |e.name|;
    EncodeFields(e, tail);
    assert Entry(b[1..1 + m], b[2 + m..2 + m + n], b[2 + m + n..4 + m + n]) == e;
  }

  /** Where the fields of an entry sit in its bytes, whatever follows them. */
  lemma {:induction false} EncodeFields(e: Entry, tail: seq<byte>)
    requires EntryOk(e)
    ensures var b, m, n := Encode(e) + tail, |e.mod|, |e.name|;
      |b| == 4 + m + n + |tail| && b[0] as nat == m && b[1 + m] as nat == n
      && b[1..1 + m] == e.mod && b[2 + m..2 + m + n] == e.name && b[2 + m + n..4 + m + n] == e.ty
      && b[4 + m + n..] == tail
  {
    var m, n := |e.mod|, |e.name|;
    var b := Encode(e) + tail;
    assert b == [m as byte] + (e.mod + ([n as byte] + (e.name + (e.ty + tail))));
  }

  /** Entries written one after another read back as themselves, as many as were written. */
  lemma {:induction false} DecodeEncode(es: seq<Entry>)
    requires AllOk(es)
    ensures Decode(EncodeAll(es)) == Some(es)
  {
    if |es| > 0 {
      assert AllOk(es[1..]);
      var tail := EncodeAll(es[1..]);
      assert EncodeAll(es) == Encode(es[0]) + tail;
      DecodeEncode(es[1..]);
      DecodeCons(es[0], tail);
      assert [es[0]] + es[1..] == es;
    }
  }

  lemma {:induction false} EncodeAllSnoc(es: seq<Entry>, e: Entry)
    requires AllOk(es) && EntryOk(e)
    ensures AllOk(es + [e]) && EncodeAll(es + [e]) == EncodeAll(es) + Encode(e)
  {
    if |es| > 0 {
      assert (es + [e])[1..] == es[1..] + [e];
      EncodeAllSnoc(es[1..], e);
    } else {
      assert es + [e] == [e];
    }
  }

  /** `symbol(n)` as bytes: the letters are ASCII. */
  function SymbolBytes(n: nat): (b: seq<byte>)
    ensures |b| == |SymbolOf(n)| > 0
  {
    SymbolLetters(n);
    seq(|SymbolOf(n)|, i requires 0 <= i < |SymbolOf(n)| => (SymbolOf(n)[i] as int) as byte)
  }

  function Pow52(k: nat): nat
  {
    if k == 0 then 1 else 52 * Pow52(k - 1)
  }

  /** A number below 52^k has a name of at most k letters. */
  lemma {:induction false} SymbolLength(n: nat, k: nat)
    requires 1 <= k && n < Pow52(k)
    ensures |SymbolOf(n)| <= k
    decreases k
  {
    if n / 52 != 0 {
      assert n / 52 - 1 < Pow52(k - 1);
      SymbolLength(n / 52 - 1, k - 1);
    }
  }

  /** The names of the imports of one section are at most 6 letters long. */
  lemma ShortSymbol(n: nat)
    requires n < U32
    ensures |SymbolBytes(n)| <= 6
  {
    assert Pow52(6) == 19770609664;
    SymbolLength(n, 6);
  }

  /** The entry of import `n`, renamed: module `_`, its symbol as the name. */
  function Renamed(n: nat, imp: Import): (e: Entry)
    requires n < U32 && |imp.ty| == 2
    ensures EntryOk(e) && e.mod == UNDERSCORE[1..] && e.name == SymbolBytes(n) && e.ty == imp.ty
  {
    ShortSymbol(n);
    Entry(UNDERSCORE[1..], SymbolBytes(n), imp.ty)
  }

  /** The entry of an import whose name is left as it is, under the module `_`. */
  function Kept(imp: Import): (e: Entry)
    requires |imp.name| < 256 && |imp.ty| == 2
    ensures EntryOk(e) && e.mod == UNDERSCORE[1..] && e.name == imp.name && e.ty == imp.ty
  {
    Entry(UNDERSCORE[1..], imp.name, imp.ty)
  }

  /** Where an import sits in the text still to rename: behind `.wbg.`, or somewhere else. */
  datatype Step = Skip | Rename(before: seq<byte>, after: seq<byte>)

  /**
   * The first occurrence of an import's name in the text still to rename:
   * a panic if there is none; if it follows `.wbg.`, the text before that
   * and the text after the name.
   */
  function Locate(remaining: seq<byte>, name: seq<byte>): (r: Result<Step>)
    ensures r.Panic? <==> Find(remaining, name).None?
    ensures r.Panic? ==> r.message == NO_IMPORT
    ensures r.Ok? && r.value.Rename? ==> remaining == r.value.before + DOT_WBG_DOT + name + r.value.after
    ensures r.Ok? && r.value.Rename? ==> Find(remaining, name) == Some(|r.value.before| + 5)
    ensures r.Ok? && r.value.Skip? ==> !EndsWith(remaining[..Find(remaining, name).value], DOT_WBG_DOT)
  {
    match Find(remaining, name)
    case None => Panic(NO_IMPORT)
    case Some(idx) =>
      if EndsWith(remaining[..idx], DOT_WBG_DOT) then
        assert remaining[..idx] == remaining[..idx - 5] + DOT_WBG_DOT;
        assert remaining[idx..idx + |name|] == name;
        assert remaining == remaining[..idx] + remaining[idx..idx + |name|] + remaining[idx + |name|..];
        Ok(Rename(remaining[..idx - 5], remaining[idx + |name|..]))
      else Ok(Skip)
  }

  /** The new import section (its count and its entries), the new JavaScript, and the bytes saved. */
  datatype Mangled = Mangled(js: seq<byte>, count: nat, entries: seq<byte>, saved: int)

  /** The text still to rename after the steps `s`: what follows the last renamed name. */
  function Tail(remaining: seq<byte>, s: seq<Step>): seq<byte>
  {
    if |s| == 0 then remaining
    else if s[|s| - 1].Rename? then s[|s| - 1].after
    else Tail(remaining, s[..|s| - 1])
  }

  /**
   * The step each import takes in turn, each looked up in the text left
   * after the renames before it; the first import missing from that text
   * panics.
   */
  function Steps(remaining: seq<byte>, imports: seq<Import>): (r: Result<seq<Step>>)
    ensures r.Panic? ==> r.message == NO_IMPORT
    ensures r.Ok? ==> |r.value| == |imports|
    decreases |imports|
  {
    if |imports| == 0 then Ok([])
    else
      var k := |imports| - 1;
      var before := Steps(remaining, imports[..k]);
      if before.Panic? then before
      else
        var s := before.value;
        match Locate(Tail(remaining, s), imports[k].name)
        case Panic(m) => Panic(m)
        case Ok(step) => Ok(s + [step])
  }

  /** The text the renamed steps consumed: for each, the text before it, `.wbg.` and the import's name. */
  function Orig(s: seq<Step>, imports: seq<Import>): seq<byte>
    requires |s| <= |imports|
  {
    if |s| == 0 then []
    else
      var k := |s| - 1;
      Orig(s[..k], imports) + (if s[k].Rename? then s[k].before + DOT_WBG_DOT + imports[k].name else [])
  }

  /** What the renamed steps wrote: for each, the text before it, `._.` and the import's symbol. */
  function Out(s: seq<Step>): seq<byte>
  {
    if |s| == 0 then []
    else
      var k := |s| - 1;
      Out(s[..k]) + (if s[k].Rename? then s[k].before + DOT_UNDERSCORE_DOT + SymbolBytes(k) else [])
  }

  /** The entries the steps write: the renamed entry for a renamed import, the kept one otherwise. */
  function Entries(s: seq<Step>, imports: seq<Import>): (es: seq<Entry>)
    requires |s| <= |imports| < U32 && WellFormed(imports)
    ensures |es| == |s| && AllOk(es)
    ensures forall k :: 0 <= k < |s| ==> es[k] == if s[k].Rename? then Renamed(k, imports[k]) else Kept(imports[k])
  {
    if |s| == 0 then []
    else
      var k := |s| - 1;
      var e := if s[k].Rename? then Renamed(k, imports[k]) else Kept(imports[k]);
      Entries(s[..k], imports) + [e]
  }

  /**
   * The text before the steps is the text they consumed followed by the
   * text left: each renamed import sat behind `.wbg.` at its place.
   */
  lemma {:induction false} StepsConsume(remaining: seq<byte>, imports: seq<Import>)
    requires Steps(remaining, imports).Ok?
    ensures remaining == Orig(Steps(remaining, imports).value, imports) + Tail(remaining, Steps(remaining, imports).value)
    decreases |imports|
  {
    if |imports| > 0 {
      var k := |imports| - 1;
      var s := Steps(remaining, imports).value;
      var before := Steps(remaining, imports[..k]).value;
      var step := s[k];
      assert s == before + [step] && s[..k] == before;
      assert Locate(Tail(remaining, before), imports[k].name) == Ok(step);
      StepsConsume(remaining, imports[..k]);
      OrigPrefix(before, imports[..k], imports);
      var orig := Orig(before, imports);
      assert remaining == orig + Tail(remaining, before);
      if step.Rename? {
        var piece := step.before + DOT_WBG_DOT + imports[k].name;
        assert Tail(remaining, before) == piece + step.after;
        assert Orig(s, imports) == orig + piece;
        assert Tail(remaining, s) == step.after;
      } else {
        assert Orig(s, imports) == orig + [];
        assert Tail(remaining, s) == Tail(remaining, before);
      }
    }
  }

  /** `Orig` reads only the names of the imports the steps cover. */
  lemma {:induction false} OrigPrefix(s: seq<Step>, a: seq<Import>, b: seq<Import>)
    requires |s| <= |a| <= |b| && a == b[..|a|]
    ensures Orig(s, a) == Orig(s, b)
    decreases |s|
  {
    if |s| > 0 {
      OrigPrefix(s[..|s| - 1], a, b);
    }
  }

  /** The steps of all the imports extend those of the first `k`, and step `k` is looked up in what those left. */
  lemma {:induction false} StepsAt(remaining: seq<byte>, imports: seq<Import>, k: nat)
    requires Steps(remaining, imports).Ok? && k < |imports|
    ensures var s := Steps(remaining, imports).value;
      Steps(remaining, imports[..k]) == Ok(s[..k]) && Locate(Tail(remaining, s[..k]), imports[k].name) == Ok(s[k])
    decreases |imports|
  {
    var n := |imports| - 1;
    var s := Steps(remaining, imports).value;
    StepsLast(remaining, imports);
    if k < n {
      StepsAt(remaining, imports[..n], k);
      assert imports[..n][..k] == imports[..k] && s[..n][..k] == s[..k];
    }
  }

  /** The last import's step, looked up in what the steps before it left. */
  lemma {:induction false} StepsLast(remaining: seq<byte>, imports: seq<Import>)
    requires Steps(remaining, imports).Ok? && |imports| > 0
    ensures var n, s := |imports| - 1, Steps(remaining, imports).value;
      Steps(remaining, imports[..n]) == Ok(s[..n]) && Locate(Tail(remaining, s[..n]), imports[n].name) == Ok(s[n])
  {
    var n := |imports| - 1;
    var before := Steps(remaining, imports[..n]);
    var s := Steps(remaining, imports).value;
    assert before.Ok?;
    var l := Locate(Tail(remaining, before.value), imports[n].name);
    assert l.Ok? && s == before.value + [l.value];
    assert s[..n] == before.value && s[n] == l.value;
  }

  /**
   * The steps panic exactly when some import, at its turn, is missing from
   * the text left by the renames before it.
   */
  lemma {:induction false} MissingImport(remaining: seq<byte>, imports: seq<Import>)
    ensures Steps(remaining, imports).Panic? <==>
      exists k :: 0 <= k < |imports| && Steps(remaining, imports[..k]).Ok?
        && Find(Tail(remaining, Steps(remaining, imports[..k]).value), imports[k].name).None?
    decreases |imports|
  {
    if Steps(remaining, imports).Ok? {
      forall k | 0 <= k < |imports| && Steps(remaining, imports[..k]).Ok?
        ensures Find(Tail(remaining, Steps(remaining, imports[..k]).value), imports[k].name).Some?
      {
        StepsAt(remaining, imports, k);
      }
    } else {
      var n := |imports| - 1;
      if Steps(remaining, imports[..n]).Panic? {
        MissingImport(remaining, imports[..n]);
        var j :| 0 <= j < n && Steps(remaining, imports[..n][..j]).Ok?
          && Find(Tail(remaining, Steps(remaining, imports[..n][..j]).value), imports[..n][j].name).None?;
        assert imports[..n][..j] == imports[..j];
      } else {
        assert Find(Tail(remaining, Steps(remaining, imports[..n]).value), imports[n].name).None?;
      }
    }
  }

  /**
   * When every import's name, at its turn, first occurs right behind
   * `.wbg.`, every import is renamed.
   */
  lemma AllRenamed(remaining: seq<byte>, imports: seq<Import>)
    requires WellFormed(imports) && |imports| < U32 && Steps(remaining, imports).Ok?
    requires forall k :: 0 <= k < |imports| ==>
      var t := Tail(remaining, Steps(remaining, imports).value[..k]);
      Find(t, imports[k].name).Some? && EndsWith(t[..Find(t, imports[k].name).value], DOT_WBG_DOT)
    ensures forall k :: 0 <= k < |imports| ==>
      Entries(Steps(remaining, imports).value, imports)[k] == Renamed(k, imports[k])
  {
    var s := Steps(remaining, imports).value;
    forall k | 0 <= k < |imports|
      ensures s[k].Rename?
    {
      StepsAt(remaining, imports, k);
    }
  }

  /** The text after the first `.wbg`, where the renaming starts. */
  function AfterWbg(js: seq<byte>): seq<byte>
    requires Find(js, DOT_WBG).Some?
  {
    js[Find(js, DOT_WBG).value + 4..]
  }

  /**
   * The rename loop of `mangle_wasm`, with the entry of a skipped import
   * kept.  The first `.wbg` becomes `._`; then each import takes its step:
   * if it sits behind `.wbg.`, that becomes `._.` and its name its symbol,
   * and the section gets the renamed entry; otherwise it gets the kept
   * entry.  Every import has exactly one entry, so the count written
   * before them holds, and the text shrinks by `saved` bytes plus the 2 of
   * the first rename.
   */
  method Mangle(js: seq<byte>, imports: seq<Import>) returns (r: Result<Mangled>)
    requires WellFormed(imports) && |imports| < U32
    ensures Find(js, DOT_WBG).None? <==> r == Panic(NO_WBG)
    ensures Find(js, DOT_WBG).Some? ==> (r.Panic? <==> Steps(AfterWbg(js), imports).Panic?)
    ensures r.Panic? ==> r.message == NO_WBG || r.message == NO_IMPORT
    ensures r.Ok? ==> Find(js, DOT_WBG).Some? && Steps(AfterWbg(js), imports).Ok?
    ensures r.Ok? ==> var s := Steps(AfterWbg(js), imports).value;
      r.value.js == js[..Find(js, DOT_WBG).value] + DOT_UNDERSCORE + Out(s) + Tail(AfterWbg(js), s)
    ensures r.Ok? ==> (r.value.count == |imports|
      && Decode(r.value.entries) == Some(Entries(Steps(AfterWbg(js), imports).value, imports)))
    ensures r.Ok? ==> |r.value.js| + r.value.saved + 2 == |js|
  {
    var first := Find(js, DOT_WBG);
    if first.None? {
      return Panic(NO_WBG);
    }
    r := RenameImports(js[..first.value] + DOT_UNDERSCORE, js[first.value + 4..], imports);
  }

  /**
   * The loop of `mangle_wasm` over the imports: `out` is the text written
   * so far, `rest` the text still to rename.
   */
  method RenameImports(out0: seq<byte>, rest: seq<byte>, imports: seq<Import>) returns (r: Result<Mangled>)
    requires WellFormed(imports) && |imports| < U32
    ensures r.Panic? <==> Steps(rest, imports).Panic?
    ensures r.Panic? ==> r.message == NO_IMPORT
    ensures r.Ok? ==> var s := Steps(rest, imports).value;
      r.value.js == out0 + Out(s) + Tail(rest, s)
    ensures r.Ok? ==> (r.value.count == |imports|
      && Decode(r.value.entries) == Some(Entries(Steps(rest, imports).value, imports)))
    ensures r.Ok? ==> |r.value.js| + r.value.saved == |out0| + |rest|
  {
    var out := out0;
    var remaining := rest;
    var entries := [];
    var saved := 0;
    var n := 0;
    ghost var s: seq<Step> := [];
    while n < |imports|
      invariant n <= |imports| && |s| == n
      invariant Looped(out0, rest, imports, s, out, remaining, saved, entries)
    {
      var imp := imports[n];
      var step := Locate(remaining, imp.name);
      if step.Panic? {
        LoopPanic(out0, rest, imports, s, out, remaining, saved, entries);
        return Panic(step.message);
      }
      var e;
      if step.value.Rename? {
        LoopRename(out0, rest, imports, s, step.value, out, remaining, saved, entries);
        e := Renamed(n, imp);
        saved := saved + (2 + |imp.name|) - |e.name|;
        out := out + step.value.before + DOT_UNDERSCORE_DOT + e.name;
        remaining := step.value.after;
      } else {
        LoopSkip(out0, rest, imports, s, out, remaining, saved, entries);
        e := Kept(imp);
      }
      entries := entries + Encode(e);
      s := s + [step.value];
      n := n + 1;
    }
    LoopDone(out0, rest, imports, s, out, remaining, saved, entries);
    r := Ok(Mangled(out + remaining, |imports|, entries, saved));
  }

  /**
   * What the rename loop has written after the steps `s`: the text so far,
   * the text left, the bytes saved and the entries.
   */
  ghost predicate Looped(out0: seq<byte>, rest: seq<byte>, imports: seq<Import>, s: seq<Step>,
                         out: seq<byte>, remaining: seq<byte>, saved: int, entries: seq<byte>)
  {
    |s| <= |imports| < U32 && WellFormed(imports)
    && Steps(rest, imports[..|s|]) == Ok(s)
    && remaining == Tail(rest, s) && out == out0 + Out(s)
    && |out| + |remaining| + saved == |out0| + |rest|
    && entries == EncodeAll(Entries(s, imports))
  }

  /** Concatenation regrouped, as the rename loop appends piece by piece. */
  lemma {:induction false} Regroup(p: seq<byte>, o: seq<byte>, b: seq<byte>, d: seq<byte>, y: seq<byte>)
    ensures p + o + b + d + y == p + (o + (b + d + y))
  {
  }

  /** One more step: how the steps, the text left, the text written and the entries grow. */
  lemma {:induction false} StepSnoc(rest: seq<byte>, imports: seq<Import>, s: seq<Step>, step: Step)
    requires |s| < |imports| < U32 && WellFormed(imports)
    requires Steps(rest, imports[..|s|]) == Ok(s)
    requires Locate(Tail(rest, s), imports[|s|].name) == Ok(step)
    ensures Steps(rest, imports[..|s| + 1]) == Ok(s + [step])
    ensures Tail(rest, s + [step]) == if step.Rename? then step.after else Tail(rest, s)
    ensures Out(s + [step]) == Out(s) + if step.Rename? then step.before + DOT_UNDERSCORE_DOT + SymbolBytes(|s|) else []
    ensures Entries(s + [step], imports) == Entries(s, imports)
      + [if step.Rename? then Renamed(|s|, imports[|s|]) else Kept(imports[|s|])]
  {
    StepsSnoc(rest, imports, s, step);
    var n := |s|;
    assert (s + [step])[..n] == s && (s + [step])[n] == step;
    EntriesSnoc(imports, s, step);
  }

  /** The steps of one import more are those before it and the one it takes. */
  lemma {:induction false} StepsSnoc(rest: seq<byte>, imports: seq<Import>, s: seq<Step>, step: Step)
    requires |s| < |imports|
    requires Steps(rest, imports[..|s|]) == Ok(s)
    requires Locate(Tail(rest, s), imports[|s|].name) == Ok(step)
    ensures Steps(rest, imports[..|s| + 1]) == Ok(s + [step])
  {
    var n := |s|;
    var pre := imports[..n + 1];
    assert pre[..n] == imports[..n] && pre[n] == imports[n];
  }

  /** The entries of one step more are those before it and the one it writes. */
  lemma {:induction false} EntriesSnoc(imports: seq<Import>, s: seq<Step>, step: Step)
    requires |s| < |imports| < U32 && WellFormed(imports)
    ensures Entries(s + [step], imports) == Entries(s, imports)
      + [if step.Rename? then Renamed(|s|, imports[|s|]) else Kept(imports[|s|])]
  {
    assert (s + [step])[..|s|] == s;
  }

  /** A pass of the rename loop that renames keeps what it has written in step with `Steps`. */
  lemma {:induction false} LoopRename(out0: seq<byte>, rest: seq<byte>, imports: seq<Import>, s: seq<Step>, step: Step,
                   out: seq<byte>, remaining: seq<byte>, saved: int, entries: seq<byte>)
    requires |s| < |imports| && Looped(out0, rest, imports, s, out, remaining, saved, entries)
    requires Locate(remaining, imports[|s|].name) == Ok(step) && step.Rename?
    ensures var n := |s|; var sym := SymbolBytes(n);
      Looped(out0, rest, imports, s + [step], out + step.before + DOT_UNDERSCORE_DOT + sym, step.after,
        saved + (2 + |imports[n].name|) - |sym|, entries + Encode(Renamed(n, imports[n])))
  {
    var n := |s|;
    StepSnoc(rest, imports, s, step);
    EncodeAllSnoc(Entries(s, imports), Renamed(n, imports[n]));
    Regroup(out0, Out(s), step.before, DOT_UNDERSCORE_DOT, SymbolBytes(n));
  }

  /** A pass of the rename loop that skips keeps what it has written in step with `Steps`. */
  lemma {:induction false} LoopSkip(out0: seq<byte>, rest: seq<byte>, imports: seq<Import>, s: seq<Step>,
                 out: seq<byte>, remaining: seq<byte>, saved: int, entries: seq<byte>)
    requires |s| < |imports| && Looped(out0, rest, imports, s, out, remaining, saved, entries)
    requires Locate(remaining, imports[|s|].name) == Ok(Skip)
    ensures Looped(out0, rest, imports, s + [Skip], out, remaining, saved, entries + Encode(Kept(imports[|s|])))
  {
    StepSnoc(rest, imports, s, Skip);
    EncodeAllSnoc(Entries(s, imports), Kept(imports[|s|]));
    assert Out(s) + [] == Out(s);
  }

  /** A pass of the rename loop that finds no import panics as `Steps` does. */
  lemma {:induction false} LoopPanic(out0: seq<byte>, rest: seq<byte>, imports: seq<Import>, s: seq<Step>,
                  out: seq<byte>, remaining: seq<byte>, saved: int, entries: seq<byte>)
    requires |s| < |imports| && Looped(out0, rest, imports, s, out, remaining, saved, entries)
    requires Locate(remaining, imports[|s|].name).Panic?
    ensures Steps(rest, imports).Panic?
  {
    var n := |s|;
    assert imports[..n + 1][..n] == imports[..n];
    PanicExtends(rest, imports, n + 1);
  }

  /** When the rename loop has passed every import, what it wrote is what `Mangle` promises. */
  lemma {:induction false} LoopDone(out0: seq<byte>, rest: seq<byte>, imports: seq<Import>, s: seq<Step>,
                 out: seq<byte>, remaining: seq<byte>, saved: int, entries: seq<byte>)
    requires |s| == |imports| && Looped(out0, rest, imports, s, out, remaining, saved, entries)
    ensures Steps(rest, imports) == Ok(s)
    ensures out + remaining == out0 + Out(s) + Tail(rest, s)
    ensures |out + remaining| + saved == |out0| + |rest|
    ensures Decode(entries) == Some(Entries(s, imports))
  {
    assert imports[..|s|] == imports;
    DecodeEncode(Entries(s, imports));
  }

  /** Once the steps of the first imports panic, so do those of all of them. */
  lemma {:induction false} PanicExtends(remaining: seq<byte>, imports: seq<Import>, n: nat)
    requires n <= |imports| && Steps(remaining, imports[..n]).Panic?
    ensures Steps(remaining, imports).Panic?
    decreases |imports| - n
  {
    if n < |imports| {
      assert imports[..n + 1][..n] == imports[..n];
      PanicExtends(remaining, imports, n + 1);
    } else {
      assert imports[..n] == imports;
    }
  }

  /**
   * The new text is the old one with the first `.wbg` turned into `._`
   * and each renamed import's `.wbg.` and name turned into `._.` and its
   * symbol; everything between is copied as it was.
   */
  lemma MangleText(js: seq<byte>, imports: seq<Import>)
    requires Find(js, DOT_WBG).Some? && Steps(AfterWbg(js), imports).Ok?
    ensures var s := Steps(AfterWbg(js), imports).value;
      js == js[..Find(js, DOT_WBG).value] + DOT_WBG + Orig(s, imports) + Tail(AfterWbg(js), s)
  {
    var f := Find(js, DOT_WBG).value;
    var after := AfterWbg(js);
    var s := Steps(after, imports).value;
    StepsConsume(after, imports);
    assert js[f..f + 4] == DOT_WBG;
    SplitAround(js, f, 4);
    Regroup4(js[..f], DOT_WBG, Orig(s, imports), Tail(after, s));
  }

  /** A sequence is what comes before a slice, the slice, and what comes after. */
  lemma {:induction false} SplitAround(js: seq<byte>, f: nat, w: nat)
    requires f + w <= |js|
    ensures js == js[..f] + js[f..f + w] + js[f + w..]
  {
  }

  /** Concatenation regrouped, as the text around the first `.wbg` is put back together. */
  lemma {:induction false} Regroup4(a: seq<byte>, b: seq<byte>, c: seq<byte>, d: seq<byte>)
    ensures a + b + (c + d) == a + b + c + d
  {
  }

  /**
   * The rename loop as written, from import `n` on: a skipped import gets
   * no entry at all, while the count is that of all the imports.
   */
  function MangleAsWritten(remaining: seq<byte>, imports: seq<Import>, n: nat, acc: Mangled): (r: Result<Mangled>)
    requires WellFormed(imports) && |imports| < U32
    ensures r.Ok? ==> r.value.count == acc.count
    decreases |imports| - n
  {
    if n >= |imports| then Ok(acc.(js := acc.js + remaining))
    else
      var imp := imports[n];
      match Locate(remaining, imp.name)
      case Panic(m) => Panic(m)
      case Ok(Skip) => MangleAsWritten(remaining, imports, n + 1, acc)
      case Ok(Rename(before, after)) =>
        var e := Renamed(n, imp);
        var next := Mangled(acc.js + before + DOT_UNDERSCORE_DOT + e.name, acc.count,
                            acc.entries + Encode(e), acc.saved + (2 + |imp.name|) - |e.name|);
        MangleAsWritten(after, imports, n + 1, next)
  }

  /**
   * As written, an import the text does not reference behind `.wbg.` loses
   * its entry: with the text `.wbg a` and the one import `a`, the section
   * says it holds one import and holds none.
   */
  lemma SkippedImportLost()
    ensures var imports := [Import([0x61], [0, 0])];
      var r := MangleAsWritten([0x20, 0x61], imports, 0, Mangled(DOT_UNDERSCORE, |imports|, [], 0));
      r.Ok? && r.value.count == 1 && Decode(r.value.entries) == Some([])
  {
    var rest: seq<byte> := [0x20, 0x61];
    assert StartsAt(rest, 1, [0x61]);
    assert rest[0..1] == [0x20];
    assert Find(rest, [0x61]) == Some(1);
  }

  /** `--autoreload`: `auto`, `always` or `never`. */
  datatype When = Auto | Always | Never

  /** Whether the autoreload script goes into `index.html`: always, never, or on debug builds. */
  function EmbedAutoreload(w: When, release: bool): (embed: bool)
    ensures embed <==> w == Always || (w == Auto && !release)
  {
    match w
    case Auto => !release
    case Always => true
    case Never => false
  }
}
