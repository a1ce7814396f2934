/**
  Writing modules (lib/module_writer.c). A writer counts bytes, or appends them
  to a file. Everything is written as a list of chunks, one for each call of the
  write function: a section is written twice, first to count, then to the file,
  with its size in between.
 */
module Writer {
  import opened Leb
  import M = Machine

  const U32_MAX: nat := 0xffff_ffff
  type u32 = x: int | 0 <= x <= 0xffff_ffff

  // ---- what is written ----

  predicate IsValtype(t: byte) { M.ValtypeCells(t).Some? }
  predicate IsReftype(t: byte) { t == 0x70 || t == 0x6f || t == 0x69 }

  type ValType = t: byte | IsValtype(t) witness 0x7f
  type RefType = t: byte | IsReftype(t) witness 0x70

  datatype Signature = Signature(params: seq<ValType>, results: seq<ValType>)
  datatype Limits = Limits(min: u32, max: u32)
  datatype TableType = TableType(et: RefType, lim: Limits)
  datatype MemType = MemType(lim: Limits, shared: bool, shift: byte)
  datatype GlobalType = GlobalType(t: ValType, mut: bool)
  datatype ImportDesc =
    | ImportFunc(typeidx: u32)
    | ImportTable(table: TableType)
    | ImportMem(mem: MemType)
    | ImportGlobal(global: GlobalType)
  datatype Import = Import(modName: seq<byte>, name: seq<byte>, desc: ImportDesc)

  /** The parts of a module whose sections are modelled. */
  datatype Mod = Mod(types: seq<Signature>, imports: seq<Import>, tables: seq<TableType>, mems: seq<MemType>)

  /** Every count fits its 32-bit field. */
  predicate ModFits(m: Mod) {
    && |m.types| <= U32_MAX && |m.imports| <= U32_MAX && |m.tables| <= U32_MAX && |m.mems| <= U32_MAX
    && (forall i :: 0 <= i < |m.types| ==> SignatureFits(m.types[i]))
    && (forall i :: 0 <= i < |m.imports| ==> |m.imports[i].modName| <= U32_MAX && |m.imports[i].name| <= U32_MAX)
  }

  predicate SignatureFits(t: Signature) { |t.params| <= U32_MAX && |t.results| <= U32_MAX }

  // ---- chunks ----

  type Chunks = seq<seq<byte>>

  function Flat(cs: Chunks): seq<byte> { if cs == [] then [] else cs[0] + Flat(cs[1..]) }

  lemma {:induction false} FlatConcat(a: Chunks, b: Chunks)
    ensures Flat(a + b) == Flat(a) + Flat(b)
    decreases a
  {
    if a == [] {
      assert a + b == b;
    } else {
      assert (a + b)[1..] == a[1..] + b;
      FlatConcat(a[1..], b);
    }
  }

  function LebChunks(u: nat): Chunks
    decreases u
  {
    if u < 128 then [[u]] else [[u % 128 + 128]] + LebChunks(u / 128)
  }

  /** One chunk for each type. */
  function TypesChunks(ts: seq<ValType>): Chunks { if ts == [] then [] else [[ts[0]]] + TypesChunks(ts[1..]) }

  function ResulttypeChunks(ts: seq<ValType>): Chunks { LebChunks(|ts|) + TypesChunks(ts) }

  function SignatureChunks(t: Signature): Chunks { [[0x60]] + ResulttypeChunks(t.params) + ResulttypeChunks(t.results) }

  function NameChunks(n: seq<byte>): Chunks { LebChunks(|n|) + [n] }

  const SHARED: nat := 2
  const CUSTOM_PAGE_SIZE: nat := 8
  const PAGE_SHIFT: nat := 16

  /** write_limits; `custom` is the flag of a page size. */
  function LimitsChunks(lim: Limits, shared: bool, custom: bool, shift: byte): Chunks {
    var flags: nat := (if shared then SHARED else 0) + if custom then CUSTOM_PAGE_SIZE else 0;
    (if lim.max == U32_MAX then [[flags]] + LebChunks(lim.min)
     else [[flags + 1]] + LebChunks(lim.min) + LebChunks(lim.max))
    + if custom then LebChunks(shift) else []
  }

  function TableChunks(t: TableType): Chunks { [[t.et]] + LimitsChunks(t.lim, false, false, 0) }

  function MemChunks(t: MemType): Chunks {
    LimitsChunks(t.lim, t.shared, t.shift != PAGE_SHIFT, if t.shift != PAGE_SHIFT then t.shift else 0)
  }

  function GlobalChunks(t: GlobalType): Chunks { [[t.t]] + [[if t.mut then 1 else 0]] }

  function DescChunks(d: ImportDesc): Chunks {
    match d
    case ImportFunc(i) => [[0]] + LebChunks(i)
    case ImportTable(t) => [[1]] + TableChunks(t)
    case ImportMem(t) => [[2]] + MemChunks(t)
    case ImportGlobal(t) => [[3]] + GlobalChunks(t)
  }

  function ImportChunks(i: Import): Chunks { NameChunks(i.modName) + NameChunks(i.name) + DescChunks(i.desc) }

  function SignaturesChunks(xs: seq<Signature>): Chunks {
    if xs == [] then [] else SignatureChunks(xs[0]) + SignaturesChunks(xs[1..])
  }
  function ImportsChunks(xs: seq<Import>): Chunks { if xs == [] then [] else ImportChunks(xs[0]) + ImportsChunks(xs[1..]) }
  function TablesChunks(xs: seq<TableType>): Chunks { if xs == [] then [] else TableChunks(xs[0]) + TablesChunks(xs[1..]) }
  function MemsChunks(xs: seq<MemType>): Chunks { if xs == [] then [] else MemChunks(xs[0]) + MemsChunks(xs[1..]) }

  datatype Section = TypeSection | ImportSection | TableSection | MemorySection

  function SectionId(s: Section): byte {
    match s case TypeSection => 1 case ImportSection => 2 case TableSection => 4 case MemorySection => 5
  }

  /** What the function of a section writes; nothing if there is nothing to write. */
  function ContentChunks(s: Section, m: Mod): Chunks {
    match s
    case TypeSection => if m.types == [] then [] else LebChunks(|m.types|) + SignaturesChunks(m.types)
    case ImportSection => if m.imports == [] then [] else LebChunks(|m.imports|) + ImportsChunks(m.imports)
    case TableSection => if m.tables == [] then [] else LebChunks(|m.tables|) + TablesChunks(m.tables)
    case MemorySection => if m.mems == [] then [] else LebChunks(|m.mems|) + MemsChunks(m.mems)
  }

  // ---- the state of a writer ----

  datatype Error = NoError | Overflow | IoError

  /** `size` wraps; the file takes `room` bytes in all. */
  datatype Output = Output(out: seq<byte>, size: u32, error: Error)

  datatype Kind = Counter | File(room: nat)

  function Wrap(n: nat): u32 { n % 0x1_0000_0000 }

  /** count and write_to_file. An empty fwrite reports that it has written no item. */
  function Put(k: Kind, w: Output, chunk: seq<byte>): Output {
    if w.error != NoError then w
    else
      var error := if U32_MAX - w.size < |chunk| then Overflow else NoError;
      if k.Counter? then Output(w.out, Wrap(w.size + |chunk|), error)
      else if |chunk| == 0 || |w.out| + |chunk| > k.room then Output(w.out, w.size, IoError)
      else Output(w.out + chunk, Wrap(w.size + |chunk|), error)
  }

  function PutAll(k: Kind, w: Output, cs: Chunks): Output
    decreases |cs|
  {
    if cs == [] then w else PutAll(k, Put(k, w, cs[0]), cs[1..])
  }

  lemma {:induction false} PutAllConcat(k: Kind, w: Output, a: Chunks, b: Chunks)
    ensures PutAll(k, w, a + b) == PutAll(k, PutAll(k, w, a), b)
    decreases |a|
  {
    if a == [] {
      assert a + b == b;
    } else {
      assert (a + b)[1..] == a[1..] + b;
      PutAllConcat(k, Put(k, w, a[0]), a[1..], b);
    }
  }

  lemma {:induction false} Sticky(k: Kind, w: Output, cs: Chunks)
    requires w.error != NoError
    ensures PutAll(k, w, cs) == w
    decreases |cs|
  {
    if cs != [] { Sticky(k, w, cs[1..]); }
  }

  predicate NoEmptyChunk(cs: Chunks) { forall i :: 0 <= i < |cs| ==> cs[i] != [] }

  /** The counter tells the number of bytes, exactly when it fits in 32 bits. */
  lemma {:induction false} CounterExact(w: Output, cs: Chunks)
    requires w.error == NoError
    ensures PutAll(Counter, w, cs).error == NoError <==> w.size + |Flat(cs)| <= U32_MAX
    ensures w.size + |Flat(cs)| <= U32_MAX ==> PutAll(Counter, w, cs) == Output(w.out, w.size + |Flat(cs)|, NoError)
    decreases |cs|
  {
    if cs != [] {
      var w1 := Put(Counter, w, cs[0]);
      if w1.error == NoError { CounterExact(w1, cs[1..]); } else { Sticky(Counter, w1, cs[1..]); }
    }
  }

  /**
    Writing succeeds exactly when no chunk is empty, the bytes fit the file and
    their number fits in 32 bits; and then the file has exactly these bytes more.
   */
  lemma {:induction false} FileExact(room: nat, w: Output, cs: Chunks)
    requires w.error == NoError && |w.out| <= room
    ensures PutAll(File(room), w, cs).error == NoError <==>
              NoEmptyChunk(cs) && w.size + |Flat(cs)| <= U32_MAX && |w.out| + |Flat(cs)| <= room
    ensures PutAll(File(room), w, cs).error == NoError ==>
              PutAll(File(room), w, cs) == Output(w.out + Flat(cs), w.size + |Flat(cs)|, NoError)
    decreases |cs|
  {
    if cs != [] {
      var w1 := Put(File(room), w, cs[0]);
      assert NoEmptyChunk(cs) <==> cs[0] != [] && NoEmptyChunk(cs[1..]) by { EmptyTail(cs); }
      if w1.error == NoError {
        FileExact(room, w1, cs[1..]);
        assert w.out + cs[0] + Flat(cs[1..]) == w.out + (cs[0] + Flat(cs[1..]));
      } else {
        Sticky(File(room), w1, cs[1..]);
      }
    }
  }

  lemma EmptyTail(cs: Chunks)
    requires cs != []
    ensures NoEmptyChunk(cs) <==> cs[0] != [] && NoEmptyChunk(cs[1..])
  {
    assert forall i :: 0 < i < |cs| ==> cs[i] == cs[1..][i - 1];
  }

  /** write_section: count, then the header and the content. */
  function PutSection(k: Kind, w: Output, id: byte, cs: Chunks): Output {
    var counter := PutAll(Counter, Output([], 0, NoError), cs);
    if counter.error != NoError then w.(error := counter.error)
    else if counter.size > 0 then PutAll(k, w, [[id]] + LebChunks(counter.size) + cs)
    else w
  }

  const SECTIONS: seq<Section> := [TypeSection, ImportSection, TableSection, MemorySection]

  function PutSections(k: Kind, w: Output, ss: seq<Section>, m: Mod): Output
    decreases |ss|
  {
    if ss == [] then w else PutSections(k, PutSection(k, w, SectionId(ss[0]), ContentChunks(ss[0], m)), ss[1..], m)
  }

  /** The magic number and the version, each one little-endian chunk. */
  const PREAMBLE: Chunks := [[0, 0x61, 0x73, 0x6d], [1, 0, 0, 0]]

  /** Everything that module_write1 does. */
  function Written(k: Kind, w: Output, m: Mod): Output { PutSections(k, PutAll(k, w, PREAMBLE), SECTIONS, m) }

  // ---- the writer ----

  class ByteWriter {
    const kind: Kind
    var out: seq<byte>
    var size: u32
    var error: Error

    /** counter_init and writer_stdio_init */
    constructor (kind: Kind)
      ensures this.kind == kind && Abs() == Output([], 0, NoError)
    {
      this.kind := kind;
      out, size, error := [], 0, NoError;
    }

    function Abs(): Output
      reads this
    {
      Output(out, size, error)
    }

    method Write(chunk: seq<byte>)
      modifies this
      ensures Abs() == Put(kind, old(Abs()), chunk)
    {
      if error != NoError { return; }
      if U32_MAX - size < |chunk| { error := Overflow; }
      if kind.File? {
        if |chunk| == 0 || |out| + |chunk| > kind.room {
          error := IoError;
          return;
        }
        out := out + chunk;
      }
      size := Wrap(size + |chunk|);
    }

    method WriteLebU32(u: u32)
      modifies this
      ensures Abs() == PutAll(kind, old(Abs()), LebChunks(u))
    {
      var v := u;
      while v >= 128
        invariant PutAll(kind, Abs(), LebChunks(v)) == PutAll(kind, old(Abs()), LebChunks(u))
      {
        assert LebChunks(v)[1..] == LebChunks(v / 128);
        Write([v % 128 + 128]);
        v := v / 128;
      }
      assert LebChunks(v)[1..] == [];
      Write([v]);
    }

    method WriteResulttype(ts: seq<ValType>)
      requires |ts| <= U32_MAX
      modifies this
      ensures Abs() == PutAll(kind, old(Abs()), ResulttypeChunks(ts))
    {
      PutAllConcat(kind, Abs(), LebChunks(|ts|), TypesChunks(ts));
      WriteLebU32(|ts|);
      var i := 0;
      assert ts[0..] == ts;
      while i < |ts|
        invariant i <= |ts|
        invariant PutAll(kind, Abs(), TypesChunks(ts[i..])) == PutAll(kind, old(Abs()), ResulttypeChunks(ts))
      {
        assert TypesChunks(ts[i..])[1..] == TypesChunks(ts[i + 1..]) by { assert ts[i..][1..] == ts[i + 1..]; }
        Write([ts[i]]);
        i := i + 1;
      }
    }

    method WriteFunctype(t: Signature)
      requires SignatureFits(t)
      modifies this
      ensures Abs() == PutAll(kind, old(Abs()), SignatureChunks(t))
    {
      PutAllConcat(kind, Abs(), [[0x60]] + ResulttypeChunks(t.params), ResulttypeChunks(t.results));
      PutAllConcat(kind, Abs(), [[0x60]], ResulttypeChunks(t.params));
      PutOne(kind, Abs(), [0x60]);
      Write([0x60]);
      WriteResulttype(t.params);
      WriteResulttype(t.results);
    }

    method WriteName(n: seq<byte>)
      requires |n| <= U32_MAX
      modifies this
      ensures Abs() == PutAll(kind, old(Abs()), NameChunks(n))
    {
      PutAllConcat(kind, Abs(), LebChunks(|n|), [n]);
      WriteLebU32(|n|);
      PutOne(kind, Abs(), n);
      Write(n);
    }

    method WriteLimits(lim: Limits, shared: bool, custom: bool, shift: byte)
      modifies this
      ensures Abs() == PutAll(kind, old(Abs()), LimitsChunks(lim, shared, custom, shift))
    {
      var flags: nat := (if shared then SHARED else 0) + if custom then CUSTOM_PAGE_SIZE else 0;
      ghost var head := if lim.max == U32_MAX then [[flags]] + LebChunks(lim.min) else [[flags + 1]] + LebChunks(lim.min) + LebChunks(lim.max);
      PutAllConcat(kind, Abs(), head, if custom then LebChunks(shift) else []);
      if lim.max == U32_MAX {
        PutAllConcat(kind, Abs(), [[flags]], LebChunks(lim.min));
        PutOne(kind, Abs(), [flags]);
        Write([flags]);
        WriteLebU32(lim.min);
      } else {
        PutAllConcat(kind, Abs(), [[flags + 1]] + LebChunks(lim.min), LebChunks(lim.max));
        PutAllConcat(kind, Abs(), [[flags + 1]], LebChunks(lim.min));
        PutOne(kind, Abs(), [flags + 1]);
        Write([flags + 1]);
        WriteLebU32(lim.min);
        WriteLebU32(lim.max);
      }
      if custom { WriteLebU32(shift); }
    }

    method WriteTabletype(t: TableType)
      modifies this
      ensures Abs() == PutAll(kind, old(Abs()), TableChunks(t))
    {
      PutAllConcat(kind, Abs(), [[t.et]], LimitsChunks(t.lim, false, false, 0));
      PutOne(kind, Abs(), [t.et]);
      Write([t.et]);
      WriteLimits(t.lim, false, false, 0);
    }

    method WriteMemtype(t: MemType)
      modifies this
      ensures Abs() == PutAll(kind, old(Abs()), MemChunks(t))
    {
      var custom, shift := false, 0;
      if t.shift != PAGE_SHIFT { custom, shift := true, t.shift; }
      WriteLimits(t.lim, t.shared, custom, shift);
    }

    method WriteGlobaltype(t: GlobalType)
      modifies this
      ensures Abs() == PutAll(kind, old(Abs()), GlobalChunks(t))
    {
      PutAllConcat(kind, Abs(), [[t.t]], [[if t.mut then 1 else 0]]);
      PutOne(kind, Abs(), [t.t]);
      Write([t.t]);
      PutOne(kind, Abs(), [if t.mut then 1 else 0]);
      Write([if t.mut then 1 else 0]);
    }

    method WriteImportdesc(d: ImportDesc)
      modifies this
      ensures Abs() == PutAll(kind, old(Abs()), DescChunks(d))
    {
      hide LebChunks, TableChunks, MemChunks, GlobalChunks, PutAll;
      var tag: byte := match d case ImportFunc(_) => 0 case ImportTable(_) => 1 case ImportMem(_) => 2 case ImportGlobal(_) => 3;
      PutOne(kind, Abs(), [tag]);
      PutAllConcat(kind, Abs(), [[tag]], DescChunks(d)[1..]);
      assert [[tag]] + DescChunks(d)[1..] == DescChunks(d);
      Write([tag]);
      match d {
        case ImportFunc(i) => assert DescChunks(d)[1..] == LebChunks(i); WriteLebU32(i);
        case ImportTable(t) => assert DescChunks(d)[1..] == TableChunks(t); WriteTabletype(t);
        case ImportMem(t) => assert DescChunks(d)[1..] == MemChunks(t); WriteMemtype(t);
        case ImportGlobal(t) => assert DescChunks(d)[1..] == GlobalChunks(t); WriteGlobaltype(t);
      }
    }

    method WriteImport(i: Import)
      requires |i.modName| <= U32_MAX && |i.name| <= U32_MAX
      modifies this
      ensures Abs() == PutAll(kind, old(Abs()), ImportChunks(i))
    {
      hide NameChunks, DescChunks, PutAll;
      PutAllConcat(kind, Abs(), NameChunks(i.modName) + NameChunks(i.name), DescChunks(i.desc));
      PutAllConcat(kind, Abs(), NameChunks(i.modName), NameChunks(i.name));
      WriteName(i.modName);
      WriteName(i.name);
      WriteImportdesc(i.desc);
    }

    method WriteTypeSection(m: Mod)
      requires ModFits(m)
      modifies this
      ensures Abs() == PutAll(kind, old(Abs()), ContentChunks(TypeSection, m))
    {
      hide PutAll, SignatureChunks;
      var xs := m.types;
      if xs == [] {
        PutNone(kind, Abs());
        return;
      }
      PutAllConcat(kind, Abs(), LebChunks(|xs|), SignaturesChunks(xs));
      WriteLebU32(|xs|);
      var i := 0;
      assert xs[0..] == xs;
      while i < |xs|
        invariant i <= |xs|
        invariant PutAll(kind, Abs(), SignaturesChunks(xs[i..])) == PutAll(kind, old(Abs()), ContentChunks(TypeSection, m))
      {
        assert xs[i..][1..] == xs[i + 1..];
        PutAllConcat(kind, Abs(), SignatureChunks(xs[i]), SignaturesChunks(xs[i + 1..]));
        WriteFunctype(xs[i]);
        i := i + 1;
      }
      PutNone(kind, Abs());
    }

    method WriteImportSection(m: Mod)
      requires ModFits(m)
      modifies this
      ensures Abs() == PutAll(kind, old(Abs()), ContentChunks(ImportSection, m))
    {
      hide PutAll, ImportChunks;
      var xs := m.imports;
      if xs == [] {
        PutNone(kind, Abs());
        return;
      }
      PutAllConcat(kind, Abs(), LebChunks(|xs|), ImportsChunks(xs));
      WriteLebU32(|xs|);
      var i := 0;
      assert xs[0..] == xs;
      while i < |xs|
        invariant i <= |xs|
        invariant PutAll(kind, Abs(), ImportsChunks(xs[i..])) == PutAll(kind, old(Abs()), ContentChunks(ImportSection, m))
      {
        assert xs[i..][1..] == xs[i + 1..];
        PutAllConcat(kind, Abs(), ImportChunks(xs[i]), ImportsChunks(xs[i + 1..]));
        WriteImport(xs[i]);
        i := i + 1;
      }
      PutNone(kind, Abs());
    }

    method WriteTableSection(m: Mod)
      requires ModFits(m)
      modifies this
      ensures Abs() == PutAll(kind, old(Abs()), ContentChunks(TableSection, m))
    {
      hide PutAll, TableChunks;
      var xs := m.tables;
      if xs == [] {
        PutNone(kind, Abs());
        return;
      }
      PutAllConcat(kind, Abs(), LebChunks(|xs|), TablesChunks(xs));
      WriteLebU32(|xs|);
      var i := 0;
      assert xs[0..] == xs;
      while i < |xs|
        invariant i <= |xs|
        invariant PutAll(kind, Abs(), TablesChunks(xs[i..])) == PutAll(kind, old(Abs()), ContentChunks(TableSection, m))
      {
        assert xs[i..][1..] == xs[i + 1..];
        PutAllConcat(kind, Abs(), TableChunks(xs[i]), TablesChunks(xs[i + 1..]));
        WriteTabletype(xs[i]);
        i := i + 1;
      }
      PutNone(kind, Abs());
    }

    method WriteMemorySection(m: Mod)
      requires ModFits(m)
      modifies this
      ensures Abs() == PutAll(kind, old(Abs()), ContentChunks(MemorySection, m))
    {
      hide PutAll, MemChunks;
      var xs := m.mems;
      if xs == [] {
        PutNone(kind, Abs());
        return;
      }
      PutAllConcat(kind, Abs(), LebChunks(|xs|), MemsChunks(xs));
      WriteLebU32(|xs|);
      var i := 0;
      assert xs[0..] == xs;
      while i < |xs|
        invariant i <= |xs|
        invariant PutAll(kind, Abs(), MemsChunks(xs[i..])) == PutAll(kind, old(Abs()), ContentChunks(MemorySection, m))
      {
        assert xs[i..][1..] == xs[i + 1..];
        PutAllConcat(kind, Abs(), MemChunks(xs[i]), MemsChunks(xs[i + 1..]));
        WriteMemtype(xs[i]);
        i := i + 1;
      }
      PutNone(kind, Abs());
    }

    /** The function of a section. */
    method WriteContent(s: Section, m: Mod)
      requires ModFits(m)
      modifies this
      ensures Abs() == PutAll(kind, old(Abs()), ContentChunks(s, m))
    {
      match s {
        case TypeSection => WriteTypeSection(m);
        case ImportSection => WriteImportSection(m);
        case TableSection => WriteTableSection(m);
        case MemorySection => WriteMemorySection(m);
      }
    }

    /** write_section: once into a counter, once for real. */
    method WriteSection(s: Section, m: Mod)
      requires ModFits(m)
      modifies this
      ensures Abs() == PutSection(kind, old(Abs()), SectionId(s), ContentChunks(s, m))
    {
      hide PutAll, ContentChunks, LebChunks;
      var counter := new ByteWriter(Counter);
      counter.WriteContent(s, m);
      if counter.error != NoError {
        error := counter.error;
        return;
      }
      if counter.size > 0 {
        PutAllConcat(kind, Abs(), [[SectionId(s)]] + LebChunks(counter.size), ContentChunks(s, m));
        PutAllConcat(kind, Abs(), [[SectionId(s)]], LebChunks(counter.size));
        PutOne(kind, Abs(), [SectionId(s)]);
        Write([SectionId(s)]);
        WriteLebU32(counter.size);
        WriteContent(s, m);
      }
    }

    /** module_write1 */
    method ModuleWrite1(m: Mod)
      requires ModFits(m)
      modifies this
      ensures Abs() == Written(kind, old(Abs()), m)
    {
      hide PutSection;
      ghost var w := PutAll(kind, Abs(), PREAMBLE);
      assert PREAMBLE == [PREAMBLE[0]] + [PREAMBLE[1]];
      PutAllConcat(kind, Abs(), [PREAMBLE[0]], [PREAMBLE[1]]);
      PutOne(kind, Abs(), PREAMBLE[0]);
      Write(PREAMBLE[0]);
      PutOne(kind, Abs(), PREAMBLE[1]);
      Write(PREAMBLE[1]);
      var i := 0;
      assert SECTIONS[0..] == SECTIONS;
      while i < |SECTIONS|
        invariant i <= |SECTIONS|
        invariant PutSections(kind, Abs(), SECTIONS[i..], m) == Written(kind, old(Abs()), m)
      {
        assert SECTIONS[i..][1..] == SECTIONS[i + 1..];
        WriteSection(SECTIONS[i], m);
        i := i + 1;
      }
    }
  }

  lemma PutNone(k: Kind, w: Output)
    ensures PutAll(k, w, []) == w
  {
  }

  lemma PutOne(k: Kind, w: Output, chunk: seq<byte>)
    ensures PutAll(k, w, [chunk]) == Put(k, w, chunk)
  {
    assert [chunk][1..] == [];
    assert PutAll(k, Put(k, w, chunk), []) == Put(k, w, chunk);
  }
}
