/**
  Which byte strings are modules (lib/module.c:2220-2370, 1833-1858, 36-67, 2126-2175):
  a declarative reading of the section loop, for all inputs. Custom sections may
  stand anywhere and change nothing.
 */
module Modules {
  import opened Leb
  import opened Writer
  import opened Reader
  import opened RoundTrip
  import Utf8

  /** A section: its id and its bytes. */
  type Raw = (byte, seq<byte>)

  /** The sections that a byte string consists of, if it does. */
  function Split(s: seq<byte>): Option<seq<Raw>>
    decreases |s|
  {
    if s == [] then Some([])
    else match DecSection(s)
      case None => None
      case Some(d) =>
        match Split(s[d.1..])
        case None => None
        case Some(ss) => Some([d.0] + ss)
  }

  /** All but the custom sections stand in order, and at most once. */
  ghost predicate Ordered(ss: seq<Raw>) {
    forall i, j :: 0 <= i < j < |ss| && ss[i].0 != 0 && ss[j].0 != 0 ==> ss[i].0 < ss[j].0
  }

  /** Custom sections and those for types, imports, tables and memories. */
  ghost predicate Known(ss: seq<Raw>) { forall i :: 0 <= i < |ss| ==> ss[i].0 in {0, 1, 2, 4, 5} }

  /** A custom section begins with a name in UTF-8. */
  ghost predicate HasName(c: seq<byte>) {
    exists k: nat, n: nat :: k + n <= |c| && UN(32, c[..k]) == Some(n) && Utf8.IsUtf8(c[k..k + n])
  }

  ghost predicate Named(ss: seq<Raw>) { forall i :: 0 <= i < |ss| && ss[i].0 == 0 ==> HasName(ss[i].1) }

  function Find(ss: seq<Raw>, id: byte): Option<seq<byte>> {
    if ss == [] then None else if ss[0].0 == id then Some(ss[0].1) else Find(ss[1..], id)
  }

  /** The elements of a section, or what there is without it. */
  predicate Holds<T(==)>(ss: seq<Raw>, id: byte, dec: seq<byte> -> Decoded<T>, xs: seq<T>, without: seq<T>) {
    match Find(ss, id)
    case None => xs == without
    case Some(c) => DecAll(dec, c) == Some(xs)
  }

  predicate HoldsAll(ss: seq<Raw>, m: Mod, have: Mod) {
    && Holds(ss, 1, DecSignature, m.types, have.types)
    && Holds(ss, 2, ImportDecoder(|m.types|), m.imports, have.imports)
    && Holds(ss, 4, DecTabletype, m.tables, have.tables)
    && Holds(ss, 5, DecMemtype, m.mems, have.mems)
  }

  /** The sections `ss` say `m`, on top of `have`. */
  ghost predicate Describes(ss: seq<Raw>, m: Mod, have: Mod) {
    Ordered(ss) && Known(ss) && Named(ss) && HoldsAll(ss, m, have)
  }

  lemma NameIs(c: seq<byte>)
    ensures DecName(c).Some? <==> HasName(c)
  {
    hide UN, DecU32;
    if DecName(c).Some? {
      var d := DecU32(c).value;
      U32Of(c);
      Utf8Valid(c[d.1..d.1 + d.0]);
      assert UN(32, c[..d.1]) == Some(d.0);
    }
    if HasName(c) {
      var k: nat, n: nat :| k + n <= |c| && UN(32, c[..k]) == Some(n) && Utf8.IsUtf8(c[k..k + n]);
      DecU32Is(c, k);
      Utf8Valid(c[k..k + n]);
    }
  }

  lemma U32Of(s: seq<byte>)
    ensures DecU32(s).Some? ==> UN(32, s[..DecU32(s).value.1]) == Some(DecU32(s).value.0)
  {
    hide UN;
  }

  lemma Utf8Valid(s: seq<byte>)
    ensures Utf8.Valid(s) <==> Utf8.IsUtf8(s)
  {
  }

  // ---- the loop over a list of sections ----

  function Load(ss: seq<Raw>, seen: nat, have: Mod): Option<Mod> {
    if ss == [] then Some(have)
    else if ss[0].0 > 0 && seen >= ss[0].0 then None
    else match DecContent(ss[0].0, ss[0].1, have)
      case None => None
      case Some(m1) => Load(ss[1..], if ss[0].0 > 0 then ss[0].0 else seen, m1)
  }

  lemma {:induction false} SectionsAreLoaded(s: seq<byte>, seen: nat, have: Mod)
    ensures DecSections(s, seen, have) == match Split(s) case None => None case Some(ss) => Load(ss, seen, have)
    decreases |s|
  {
    hide DecSection, DecContent;
    if s != [] && DecSection(s).Some? {
      var d := DecSection(s).value;
      if Split(s[d.1..]).Some? { assert ([d.0] + Split(s[d.1..]).value)[1..] == Split(s[d.1..]).value; }
      if d.0.0 == 0 || seen < d.0.0 {
        var c := DecContent(d.0.0, d.0.1, have);
        if c.Some? { SectionsAreLoaded(s[d.1..], if d.0.0 > 0 then d.0.0 else seen, c.value); }
      }
    }
  }

  /** No section with an id of `id` or less is in `ss`, but for custom ones. */
  ghost predicate After(ss: seq<Raw>, id: nat) { forall i :: 0 <= i < |ss| && ss[i].0 != 0 ==> ss[i].0 > id }

  lemma {:induction false} NotFound(ss: seq<Raw>, seen: nat, id: byte)
    requires After(ss, seen) && 0 < id <= seen
    ensures Find(ss, id) == None
    decreases ss
  {
    if ss != [] {
      assert forall i :: 0 <= i < |ss[1..]| ==> ss[1..][i] == ss[i + 1];
      NotFound(ss[1..], seen, id);
    }
  }

  lemma Front1(ss: seq<Raw>, seen: nat)
    requires ss != []
    ensures Ordered(ss) <==> Ordered(ss[1..]) && (ss[0].0 != 0 ==> After(ss[1..], ss[0].0))
    ensures Known(ss) <==> Known(ss[1..]) && ss[0].0 in {0, 1, 2, 4, 5}
    ensures Named(ss) <==> Named(ss[1..]) && (ss[0].0 == 0 ==> HasName(ss[0].1))
    ensures After(ss, seen) <==> After(ss[1..], seen) && (ss[0].0 != 0 ==> ss[0].0 > seen)
    ensures After(ss[1..], ss[0].0) && ss[0].0 > seen ==> After(ss[1..], seen)
  {
    hide HasName;
    var tl := ss[1..];
    assert forall i :: 0 <= i < |tl| ==> tl[i] == ss[i + 1];
    assert forall i :: 0 < i < |ss| ==> ss[i] == tl[i - 1];
  }

  lemma HeadOf<T>(ss: seq<Raw>, id: byte, dec: seq<byte> -> Decoded<T>, xs: seq<T>, without: seq<T>)
    requires ss != []
    ensures ss[0].0 == id ==> (Holds(ss, id, dec, xs, without) <==> DecAll(dec, ss[0].1) == Some(xs))
    ensures ss[0].0 != id ==> (Holds(ss, id, dec, xs, without) <==> Holds(ss[1..], id, dec, xs, without))
    ensures Find(ss[1..], id) == None ==> (Holds(ss[1..], id, dec, xs, without) <==> xs == without)
  {
    hide DecAll;
  }

  /** The first section gives its part, the others theirs. */
  lemma HeadHolds(ss: seq<Raw>, have: Mod, m: Mod)
    requires ss != [] && ss[0].0 in {1, 2, 4, 5} && After(ss[1..], ss[0].0)
    ensures var d := DecContent(ss[0].0, ss[0].1, have);
            HoldsAll(ss, m, have) <==> d.Some? && HoldsAll(ss[1..], m, d.value)
  {
    hide DecAll, DecSignature, DecTabletype, DecMemtype, After, DecName, Find, Holds;
    var (id, c) := ss[0];
    NoneLater(ss, id);
    var d := DecContent(id, c, have);
    var h := if d.Some? then d.value else have;
    HeadOf(ss, 1, DecSignature, m.types, have.types);
    HeadOf(ss, 2, ImportDecoder(|m.types|), m.imports, have.imports);
    HeadOf(ss, 4, DecTabletype, m.tables, have.tables);
    HeadOf(ss, 5, DecMemtype, m.mems, have.mems);
    if id == 1 { HeadOf(ss, 1, DecSignature, m.types, h.types); }
    if id == 2 { HeadOf(ss, 2, ImportDecoder(|m.types|), m.imports, h.imports); }
    if id == 4 { HeadOf(ss, 4, DecTabletype, m.tables, h.tables); }
    if id == 5 { HeadOf(ss, 5, DecMemtype, m.mems, h.mems); }
  }

  lemma CustomHolds(ss: seq<Raw>, have: Mod, m: Mod)
    requires ss != [] && ss[0].0 == 0
    ensures HoldsAll(ss, m, have) <==> HoldsAll(ss[1..], m, have)
  {
    hide DecSignature, DecTabletype, DecMemtype, Holds;
    SameHolds(ss, ss[1..], 1, DecSignature, m.types, have.types);
    SameHolds(ss, ss[1..], 2, ImportDecoder(|m.types|), m.imports, have.imports);
    SameHolds(ss, ss[1..], 4, DecTabletype, m.tables, have.tables);
    SameHolds(ss, ss[1..], 5, DecMemtype, m.mems, have.mems);
  }

  /** The loop gives exactly the module that the sections describe. */
  lemma {:induction false} LoadIs(ss: seq<Raw>, seen: nat, have: Mod, m: Mod)
    ensures Load(ss, seen, have) == Some(m) <==> After(ss, seen) && Describes(ss, m, have)
    decreases ss
  {
    hide Ordered, Known, Named, HasName, HoldsAll, After, DecName;
    if ss == [] {
      NoSections(seen);
      NothingHeld(have, m);
    } else {
      var (id, c) := ss[0];
      Front1(ss, seen);
      NameIs(c);
      UnknownContent(id, c, have);
      if id == 0 {
        CustomHolds(ss, have, m);
        if DecName(c).Some? { LoadIs(ss[1..], seen, have, m); }
      } else if seen < id && id in {1, 2, 4, 5} {
        hide DecContent;
        var d := DecContent(id, c, have);
        if d.Some? { LoadIs(ss[1..], id, d.value, m); }
        if After(ss[1..], id) { HeadHolds(ss, have, m); }
      }
    }
  }

  lemma UnknownContent(id: byte, c: seq<byte>, have: Mod)
    ensures id !in {0, 1, 2, 4, 5} ==> DecContent(id, c, have) == None
    ensures DecContent(0, c, have) == if DecName(c).None? then None else Some(have)
  {
    hide DecAll, DecName;
  }

  lemma NothingHeld(have: Mod, m: Mod)
    ensures HoldsAll([], m, have) <==> m == have
  {
    hide DecSignature, DecTabletype, DecMemtype;
  }

  lemma NoSections(seen: nat)
    ensures Ordered([]) && Known([]) && Named([]) && After([], seen)
  {
  }

  /** What stands after a section has a greater id. */
  lemma NoneLater(ss: seq<Raw>, id: byte)
    requires ss != [] && id == ss[0].0 && id > 0 && After(ss[1..], id)
    ensures forall k: byte :: 0 < k <= id ==> Find(ss[1..], k) == None
  {
    hide After;
    forall k: byte | 0 < k <= id ensures Find(ss[1..], k) == None { NotFound(ss[1..], id, k); }
  }

  // ---- modules ----

  /** module_load_into, for every byte string and every module. */
  lemma LoadedExactly(s: seq<byte>, m: Mod)
    ensures DecModule(s) == Some(m) <==>
              && |s| >= 8 && s[..8] == [0, 0x61, 0x73, 0x6d, 1, 0, 0, 0]
              && Split(s[8..]).Some? && Describes(Split(s[8..]).value, m, Mod([], [], [], [])) && OneMemory(m)
  {
    hide Describes, DecSections, Split, OneMemory, After;
    if |s| >= 8 {
      assert s[..8] == s[..4] + s[4..8];
      SectionsAreLoaded(s[8..], 0, EMPTY);
      if Split(s[8..]).Some? {
        LoadIs(Split(s[8..]).value, 0, EMPTY, m);
        AllAfter(Split(s[8..]).value);
      }
    }
  }

  lemma AllAfter(ss: seq<Raw>)
    ensures After(ss, 0)
  {
  }

  /** A section that is out of order or repeated is refused. */
  lemma OutOfOrder(s: seq<byte>, ss: seq<Raw>, i: nat, j: nat)
    requires |s| >= 8 && Split(s[8..]) == Some(ss) && i < j < |ss| && ss[i].0 >= ss[j].0 > 0
    ensures DecModule(s) == None
  {
    hide DecModule, Split;
    if DecModule(s).Some? { LoadedExactly(s, DecModule(s).value); }
  }

  /** And so is one whose id is none of a section, and a custom one without a name. */
  lemma UnknownSection(s: seq<byte>, ss: seq<Raw>, i: nat)
    requires |s| >= 8 && Split(s[8..]) == Some(ss) && i < |ss| && (ss[i].0 > 13 || (ss[i].0 == 0 && !HasName(ss[i].1)))
    ensures DecModule(s) == None
  {
    hide DecModule, Split, HasName;
    if DecModule(s).Some? { LoadedExactly(s, DecModule(s).value); }
  }

  /** Bytes that are not a sequence of whole sections are refused. */
  lemma NotSections(s: seq<byte>)
    requires |s| >= 8 && Split(s[8..]) == None
    ensures DecModule(s) == None
  {
    hide DecModule, Split;
    if DecModule(s).Some? { LoadedExactly(s, DecModule(s).value); }
  }

  // ---- custom sections ----

  lemma {:induction false} SplitConcat(a: seq<byte>, b: seq<byte>)
    requires Split(a).Some?
    ensures Split(a + b) == match Split(b) case None => None case Some(ss) => Some(Split(a).value + ss)
    decreases |a|
  {
    hide DecSection;
    if a == [] {
      assert a + b == b;
      if Split(b).Some? { assert [] + Split(b).value == Split(b).value; }
    } else {
      SectionStands(a, b);
      var d := DecSection(a).value;
      assert (a + b)[d.1..] == a[d.1..] + b;
      SplitConcat(a[d.1..], b);
      if Split(b).Some? {
        assert [d.0] + Split(a[d.1..]).value + Split(b).value == [d.0] + (Split(a[d.1..]).value + Split(b).value);
      }
    }
  }

  /** A section is what it is, whatever follows it. */
  lemma SectionStands(a: seq<byte>, b: seq<byte>)
    requires DecSection(a).Some?
    ensures DecSection(a + b) == DecSection(a)
  {
    hide DecU32;
    var n := DecU32(a[1..]).value;
    U32Of(a[1..]);
    assert (a + b)[1..] == a[1..] + b;
    assert (a[1..] + b)[..n.1] == a[1..][..n.1];
    DecU32Is(a[1..] + b, n.1);
    assert (a + b)[1 + n.1..1 + n.1 + n.0] == a[1 + n.1..1 + n.1 + n.0];
  }

  /** A custom section with a name and whatever bytes. */
  function Custom(name: seq<byte>, data: seq<byte>): seq<byte>
    requires |name| <= U32_MAX
  {
    SectionBytes(0, NameChunks(name) + [data])
  }

  lemma CustomIs(name: seq<byte>, data: seq<byte>)
    requires |name| <= U32_MAX && |Flat(NameChunks(name) + [data])| <= U32_MAX
    ensures Split(Custom(name, data)) == Some([(0, Flat(NameChunks(name)) + data)])
    ensures HasName(Flat(NameChunks(name)) + data) <==> Utf8.IsUtf8(name)
  {
    hide Flat, DecSection, Utf8.IsUtf8, NameChunks, DecName, LebChunks;
    var cs, c := NameChunks(name) + [data], Flat(NameChunks(name)) + data;
    FlatConcat(NameChunks(name), [data]);
    One(data);
    NameNotEmpty(name);
    SectionRestored(0, cs, []);
    var s := Custom(name, data);
    assert s + [] == s;
    assert s[|s|..] == [] && Split(s[|s|..]) == Some([]);
    assert [(0 as byte, c)] + [] == [(0 as byte, c)];
    NameRestored(name, data);
    NameIs(c);
  }

  lemma NameNotEmpty(name: seq<byte>)
    requires |name| <= U32_MAX
    ensures Flat(NameChunks(name)) != []
  {
    hide Flat;
    U32Restored(|name|, []);
    FlatConcat(LebChunks(|name|), [name]);
  }

  /**
    A custom section between any others: with a name in UTF-8 it changes nothing,
    whatever is in it, without it the module is refused.
   */
  lemma CustomInserted(a: seq<byte>, name: seq<byte>, data: seq<byte>, b: seq<byte>)
    requires |a| >= 8 && Split(a[8..]).Some? && |name| <= U32_MAX && |Flat(NameChunks(name) + [data])| <= U32_MAX
    ensures DecModule(a + Custom(name, data) + b) == if Utf8.IsUtf8(name) then DecModule(a + b) else None
  {
    hide DecModule, Split, Custom, Describes, HasName, Utf8.IsUtf8, NameChunks, Flat, OneMemory;
    var c := Flat(NameChunks(name)) + data;
    var s, t := a + Custom(name, data) + b, a + b;
    assert s[8..] == a[8..] + (Custom(name, data) + b) && t[8..] == a[8..] + b;
    assert s[..8] == a[..8] == t[..8];
    CustomIs(name, data);
    SplitConcat(Custom(name, data), b);
    SplitConcat(a[8..], Custom(name, data) + b);
    SplitConcat(a[8..], b);
    var sa := Split(a[8..]).value;
    forall m ensures DecModule(s) == Some(m) <==> (DecModule(t) == Some(m) && Utf8.IsUtf8(name)) {
      LoadedExactly(s, m);
      LoadedExactly(t, m);
      if Split(b).Some? {
        assert sa + ([(0, c)] + Split(b).value) == sa + [(0, c)] + Split(b).value;
        Inserted(sa, c, Split(b).value, m, EMPTY);
      }
    }
    SameOption(DecModule(s), DecModule(t), Utf8.IsUtf8(name));
  }

  lemma SameOption(x: Option<Mod>, y: Option<Mod>, c: bool)
    requires forall m :: x == Some(m) <==> (y == Some(m) && c)
    ensures x == if c then y else None
  {
    if x.Some? { assert x == Some(x.value); }
    if y.Some? { assert y == Some(y.value); }
  }

  lemma Inserted(a: seq<Raw>, c: seq<byte>, b: seq<Raw>, m: Mod, have: Mod)
    ensures Describes(a + [(0, c)] + b, m, have) <==> Describes(a + b, m, have) && HasName(c)
  {
    hide HasName, Ordered, Known, Named, HoldsAll;
    InsertedOrder(a, c, b);
    InsertedNames(a, c, b);
    InsertedHolds(a, c, b, m, have);
  }

  lemma InsertedHolds(a: seq<Raw>, c: seq<byte>, b: seq<Raw>, m: Mod, have: Mod)
    ensures HoldsAll(a + [(0, c)] + b, m, have) <==> HoldsAll(a + b, m, have)
  {
    hide Holds, DecSignature, DecTabletype, DecMemtype;
    var s, t := a + [(0, c)] + b, a + b;
    FindInserted(a, c, b, 1);
    FindInserted(a, c, b, 2);
    FindInserted(a, c, b, 4);
    FindInserted(a, c, b, 5);
    SameHolds(s, t, 1, DecSignature, m.types, have.types);
    SameHolds(s, t, 2, ImportDecoder(|m.types|), m.imports, have.imports);
    SameHolds(s, t, 4, DecTabletype, m.tables, have.tables);
    SameHolds(s, t, 5, DecMemtype, m.mems, have.mems);
  }

  lemma SameHolds<T>(s: seq<Raw>, t: seq<Raw>, id: byte, dec: seq<byte> -> Decoded<T>, xs: seq<T>, without: seq<T>)
    requires Find(s, id) == Find(t, id)
    ensures Holds(s, id, dec, xs, without) <==> Holds(t, id, dec, xs, without)
  {
    hide DecAll;
  }

  /** Where the sections of the one list are in the other. */
  lemma InsertedAt(a: seq<Raw>, c: seq<byte>, b: seq<Raw>, i: nat)
    ensures var s, t := a + [(0, c)] + b, a + b;
            && (i < |t| ==> (if i < |a| then s[i] else s[i + 1]) == t[i])
            && (i < |s| ==> s[i] == if i < |a| then t[i] else if i == |a| then (0, c) else t[i - 1])
  {
  }

  lemma InsertedOrder(a: seq<Raw>, c: seq<byte>, b: seq<Raw>)
    ensures Ordered(a + [(0, c)] + b) <==> Ordered(a + b)
  {
    var s, t := a + [(0, c)] + b, a + b;
    if Ordered(t) {
      forall i, j | 0 <= i < j < |s| && s[i].0 != 0 && s[j].0 != 0 ensures s[i].0 < s[j].0 {
        InsertedAt(a, c, b, i);
        InsertedAt(a, c, b, j);
      }
    }
    if Ordered(s) {
      forall i, j | 0 <= i < j < |t| && t[i].0 != 0 && t[j].0 != 0 ensures t[i].0 < t[j].0 {
        InsertedAt(a, c, b, i);
        InsertedAt(a, c, b, j);
      }
    }
  }

  lemma InsertedNames(a: seq<Raw>, c: seq<byte>, b: seq<Raw>)
    ensures var s, t := a + [(0, c)] + b, a + b;
            (Known(s) <==> Known(t)) && (Named(s) <==> Named(t) && HasName(c))
  {
    hide HasName;
    var s, t := a + [(0, c)] + b, a + b;
    assert s[|a|] == (0, c);
    if Known(s) { forall i | 0 <= i < |t| ensures t[i].0 in {0, 1, 2, 4, 5} { InsertedAt(a, c, b, i); } }
    if Known(t) { forall i | 0 <= i < |s| ensures s[i].0 in {0, 1, 2, 4, 5} { InsertedAt(a, c, b, i); } }
    if Named(s) { forall i | 0 <= i < |t| && t[i].0 == 0 ensures HasName(t[i].1) { InsertedAt(a, c, b, i); } }
    if Named(t) && HasName(c) { forall i | 0 <= i < |s| && s[i].0 == 0 ensures HasName(s[i].1) { InsertedAt(a, c, b, i); } }
  }

  lemma {:induction false} FindInserted(a: seq<Raw>, c: seq<byte>, b: seq<Raw>, id: byte)
    requires id > 0
    ensures Find(a + [(0, c)] + b, id) == Find(a + b, id)
    decreases a
  {
    if a == [] {
      assert a + [(0, c)] + b == [(0, c)] + b && a + b == b && ([(0, c)] + b)[1..] == b;
    } else {
      assert (a + [(0, c)] + b)[1..] == a[1..] + [(0, c)] + b && (a + b)[1..] == a[1..] + b;
      FindInserted(a[1..], c, b, id);
    }
  }
}
