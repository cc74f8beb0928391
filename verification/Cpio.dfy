/**
 The cpio newc reader of src/vfs.rs: hexadecimal header fields, lookup of a file by path and the
 directory-prefix test, on any byte string; and what they return on archives written entry by entry.
 */
module Cpio {
  type Byte = x: int | 0 <= x < 256
  type Bytes = seq<Byte>

  const SLASH: Byte := 0x2F
  const DOT: Byte := 0x2E
  const MAGIC: Bytes := [0x30, 0x37, 0x30, 0x37, 0x30, 0x31]                                   // 070701
  const TRAILER: Bytes := [0x54, 0x52, 0x41, 0x49, 0x4C, 0x45, 0x52, 0x21, 0x21, 0x21]         // TRAILER!!!
  const HEADER := 110

  // ---------- Fields ----------

  function Digit(b: Byte): (d: nat)
    ensures d < 16
  {
    if 0x30 <= b <= 0x39 then b - 0x30
    else if 0x61 <= b <= 0x66 then b - 0x61 + 10
    else if 0x41 <= b <= 0x46 then b - 0x41 + 10
    else 0
  }

  /** The value of the first `k` digits. */
  function HexPrefix(s: Bytes, k: nat): nat
    requires k <= |s|
  {
    if k == 0 then 0 else HexPrefix(s, k - 1) * 16 + Digit(s[k - 1])
  }

  function ParseHex(s: Bytes): nat { HexPrefix(s, |s|) }

  method ParseHexLoop(s: Bytes) returns (val: nat)
    ensures val == ParseHex(s)
  {
    val := 0;
    for i := 0 to |s|
      invariant val == HexPrefix(s, i)
    {
      val := val * 16 + Digit(s[i]);
    }
  }

  /** The digit of a value below 16, in either case. */
  function HexDigit(d: nat, upper: bool): Byte
    requires d < 16
  {
    if d < 10 then 0x30 + d else if upper then 0x41 + d - 10 else 0x61 + d - 10
  }

  function HexField(n: nat, width: nat, upper: bool): (s: Bytes)
    ensures |s| == width
  {
    if width == 0 then [] else HexField(n / 16, width - 1, upper) + [HexDigit(n % 16, upper)]
  }

  function Power16(k: nat): nat { if k == 0 then 1 else 16 * Power16(k - 1) }

  lemma {:induction false} PrefixOnly(s: Bytes, t: Bytes, k: nat)
    requires k <= |s| && s <= t
    ensures HexPrefix(t, k) == HexPrefix(s, k)
  {
    if k > 0 {
      PrefixOnly(s, t, k - 1);
    }
  }

  /** Fixed-width fields read back what was written, in upper or lower case. */
  lemma {:induction false} HexRoundTrip(n: nat, width: nat, upper: bool)
    requires n < Power16(width)
    ensures ParseHex(HexField(n, width, upper)) == n
  {
    if width > 0 {
      HexRoundTrip(n / 16, width - 1, upper);
      PrefixOnly(HexField(n / 16, width - 1, upper), HexField(n, width, upper), width - 1);
    }
  }

  /** The next multiple of four. */
  function Pad4(n: nat): (r: nat)
    ensures n <= r < n + 4 && r % 4 == 0
  {
    (n + 3) / 4 * 4
  }

  // ---------- The reader ----------

  datatype Lookup = Found(start: nat, len: nat) | NotFound | Panicked

  function NameSize(data: Bytes, off: nat): nat
    requires off + HEADER <= |data|
  {
    ParseHex(data[off + 94..off + 102])
  }

  function FileSize(data: Bytes, off: nat): nat
    requires off + HEADER <= |data|
  {
    ParseHex(data[off + 54..off + 62])
  }

  /** Where the contents of the entry at `off` begin. */
  function DataStart(data: Bytes, off: nat): nat
    requires off + HEADER <= |data|
  {
    Pad4(off + HEADER + NameSize(data, off))
  }

  function NextEntry(data: Bytes, off: nat): (next: nat)
    requires off + HEADER <= |data|
    ensures next > off
  {
    Pad4(DataStart(data, off) + FileSize(data, off))
  }

  predicate EntryAt(data: Bytes, off: nat) {
    off + HEADER <= |data| && data[off..off + 6] == MAGIC
  }

  function Normal(path: Bytes): Bytes {
    if [SLASH] <= path then path[1..] else if [DOT, SLASH] <= path then path[2..] else path
  }

  /** What one entry tells: an answer, or where to go on. */
  datatype Scan<T> = Stop(answer: T) | Next(off: nat)

  /** What the lookup reads at an offset; a name size of zero makes the slice of the name panic. */
  datatype Seen = Nothing | ZeroName | Seen(name: Bytes, content: Bytes, start: nat, next: nat)

  function See(data: Bytes, off: nat): (r: Seen)
    ensures r.Seen? ==> off < r.next && off < |data|
  {
    if !EntryAt(data, off) then Nothing
    else
      var nameEnd := off + HEADER + NameSize(data, off) - 1;
      var start, size := DataStart(data, off), FileSize(data, off);
      if nameEnd > |data| || start + size > |data| then Nothing
      else if nameEnd < off + HEADER then ZeroName
      else Seen(data[off + HEADER..nameEnd], data[start..start + size], start, NextEntry(data, off))
  }

  /** One entry of the lookup. */
  function LookupStep(data: Bytes, path: Bytes, off: nat): (r: Scan<Lookup>)
    ensures r.Next? ==> off < r.off && off < |data|
  {
    var seen := See(data, off);
    if seen.Nothing? then Stop(NotFound)
    else if seen.ZeroName? then Stop(Panicked)
    else if seen.name == TRAILER then Stop(NotFound)
    else if seen.name == Normal(path) then Stop(Found(seen.start, |seen.content|))
    else Next(seen.next)
  }

  /** The scan for `path` from offset `off` on. */
  function LookupFrom(data: Bytes, path: Bytes, off: nat): Lookup
    decreases |data| - off
  {
    var step := LookupStep(data, path, off);
    if step.Stop? then step.answer else LookupFrom(data, path, step.off)
  }

  method ReadSizes(data: Bytes, off: nat) returns (filesize: nat, namesize: nat)
    requires off + HEADER <= |data|
    ensures filesize == FileSize(data, off) && namesize == NameSize(data, off)
  {
    filesize := ParseHexLoop(data[off + 54..off + 62]);
    namesize := ParseHexLoop(data[off + 94..off + 102]);
  }

  method ReadEntry(data: Bytes, path: Bytes, offset: nat) returns (r: Scan<Lookup>)
    requires offset + HEADER <= |data|
    ensures r == LookupStep(data, path, offset)
  {
    if data[offset..offset + 6] != MAGIC {
      return Stop(NotFound);
    }
    var filesize, namesize := ReadSizes(data, offset);
    var nameStart := offset + HEADER;
    var nameEnd := nameStart + namesize - 1;
    var dataStart := Pad4(nameStart + namesize);
    var dataEnd := dataStart + filesize;
    if nameEnd > |data| || dataEnd > |data| {
      return Stop(NotFound);
    }
    if nameEnd < nameStart {
      return Stop(Panicked);
    }
    var name := data[nameStart..nameEnd];
    if name == TRAILER {
      return Stop(NotFound);
    }
    if name == Normal(path) {
      return Stop(Found(dataStart, filesize));
    }
    return Next(Pad4(dataEnd));
  }

  /** The whole scan; every entry passed moves the offset forward. */
  method CpioLookup(data: Bytes, path: Bytes) returns (r: Lookup)
    ensures r == LookupFrom(data, path, 0)
  {
    var offset := 0;
    while offset + HEADER <= |data|
      invariant LookupFrom(data, path, 0) == LookupFrom(data, path, offset)
      decreases |data| - offset
    {
      var step := ReadEntry(data, path, offset);
      if step.Stop? {
        return step.answer;
      }
      offset := step.off;
    }
    return NotFound;
  }

  // ---------- Archives ----------

  /** An entry and the bytes of its header; the other header fields are arbitrary. */
  datatype Entry = Entry(
    name: Bytes,
    content: Bytes,
    fields1: Bytes,
    sizeField: Bytes,
    fields2: Bytes,
    nameField: Bytes,
    check: Bytes)

  predicate WellFormed(e: Entry) {
    && |e.fields1| == 48 && |e.sizeField| == 8 && |e.fields2| == 32 && |e.nameField| == 8 && |e.check| == 8
    && ParseHex(e.sizeField) == |e.content| && ParseHex(e.nameField) == |e.name| + 1
  }

  function Zeroes(n: nat): (r: Bytes)
    ensures |r| == n
  {
    seq(n, _ => 0)
  }

  function Header(e: Entry): (h: Bytes)
    requires WellFormed(e)
    ensures |h| == HEADER
  {
    MAGIC + e.fields1 + e.sizeField + e.fields2 + e.nameField + e.check
  }

  /** Offset of the contents within an entry. */
  function ContentAt(e: Entry): nat { Pad4(HEADER + |e.name| + 1) }

  function Size(e: Entry): nat { Pad4(ContentAt(e) + |e.content|) }

  function Encode(e: Entry): (r: Bytes)
    requires WellFormed(e)
    ensures |r| == Size(e)
  {
    Header(e) + e.name + [0] + Zeroes(ContentAt(e) - HEADER - |e.name| - 1)
    + e.content + Zeroes(Size(e) - ContentAt(e) - |e.content|)
  }

  lemma HeaderFields(e: Entry)
    requires WellFormed(e)
    ensures Header(e)[..6] == MAGIC && Header(e)[54..62] == e.sizeField && Header(e)[94..102] == e.nameField
  {}

  lemma EncodedFields(e: Entry)
    requires WellFormed(e)
    ensures var b := Encode(e);
            && b[..6] == MAGIC && b[54..62] == e.sizeField && b[94..102] == e.nameField
            && b[HEADER..HEADER + |e.name|] == e.name
            && b[ContentAt(e)..ContentAt(e) + |e.content|] == e.content
  {
    HeaderFields(e);
    var b, h := Encode(e), Header(e);
    assert b[..HEADER] == h;
    assert b[..6] == h[..6] && b[54..62] == h[54..62] && b[94..102] == h[94..102];
  }

  lemma SubSlice(data: Bytes, off: nat, x: Bytes, a: nat, b: nat)
    requires off + |x| <= |data| && data[off..off + |x|] == x && a <= b <= |x|
    ensures data[off + a..off + b] == x[a..b]
  {
    assert forall i :: 0 <= i < |x| ==> x[i] == data[off..off + |x|][i] == data[off + i];
  }

  lemma PadShift(off: nat, k: nat)
    requires off % 4 == 0
    ensures Pad4(off + k) == off + Pad4(k)
  {
    var q := off / 4;
    assert off + k + 3 == 4 * q + (k + 3);
    assert (4 * q + (k + 3)) / 4 == q + (k + 3) / 4;
  }

  /** The bytes of the entry stand at `off`. */
  predicate Stored(data: Bytes, off: nat, e: Entry)
    requires WellFormed(e)
  {
    off + Size(e) <= |data| && data[off..off + Size(e)] == Encode(e)
  }

  lemma ReadsFields(data: Bytes, off: nat, e: Entry)
    requires WellFormed(e) && Stored(data, off, e)
    ensures EntryAt(data, off) && NameSize(data, off) == |e.name| + 1 && FileSize(data, off) == |e.content|
  {
    var b := Encode(e);
    EncodedFields(e);
    SubSlice(data, off, b, 0, 6);
    SubSlice(data, off, b, 54, 62);
    SubSlice(data, off, b, 94, 102);
  }

  lemma ReadsOffsets(data: Bytes, off: nat, e: Entry)
    requires WellFormed(e) && Stored(data, off, e) && off % 4 == 0
    ensures EntryAt(data, off) && DataStart(data, off) == off + ContentAt(e) && NextEntry(data, off) == off + Size(e)
  {
    ReadsFields(data, off, e);
    PadShift(off, HEADER + |e.name| + 1);
    PadShift(off, ContentAt(e) + |e.content|);
  }

  /** The reader finds at a multiple of four exactly what was encoded there. */
  lemma ReadsEntry(data: Bytes, off: nat, e: Entry)
    requires WellFormed(e) && Stored(data, off, e) && off % 4 == 0
    ensures ReadsAs(data, off, e)
  {
    ReadsFields(data, off, e);
    ReadsOffsets(data, off, e);
    EncodedFields(e);
    SubSlice(data, off, Encode(e), HEADER, HEADER + |e.name|);
    SubSlice(data, off, Encode(e), ContentAt(e), ContentAt(e) + |e.content|);
  }

  /** The reader sees entry `e` at offset `off`. */
  ghost predicate ReadsAs(data: Bytes, off: nat, e: Entry) {
    See(data, off) == Seen(e.name, e.content, off + ContentAt(e), off + Size(e))
  }

  // ---------- Blocks one after the other ----------

  function Concat(bs: seq<Bytes>): Bytes {
    if bs == [] then [] else bs[0] + Concat(bs[1..])
  }

  function OffsetOf(bs: seq<Bytes>, k: nat): nat
    requires k <= |bs|
  {
    if k == 0 then 0 else |bs[0]| + OffsetOf(bs[1..], k - 1)
  }

  lemma {:induction false} OffsetNext(bs: seq<Bytes>, k: nat)
    requires k < |bs|
    ensures OffsetOf(bs, k + 1) == OffsetOf(bs, k) + |bs[k]|
  {
    if k > 0 {
      OffsetNext(bs[1..], k - 1);
    }
  }

  lemma {:induction false} OffsetAligned(bs: seq<Bytes>, k: nat)
    requires k <= |bs| && forall i :: 0 <= i < |bs| ==> |bs[i]| % 4 == 0
    ensures OffsetOf(bs, k) % 4 == 0
  {
    if k > 0 {
      OffsetAligned(bs[1..], k - 1);
    }
  }

  lemma {:induction false} ConcatAt(bs: seq<Bytes>, k: nat)
    requires k < |bs|
    ensures OffsetOf(bs, k) + |bs[k]| <= |Concat(bs)|
    ensures Concat(bs)[OffsetOf(bs, k)..OffsetOf(bs, k) + |bs[k]|] == bs[k]
  {
    if k > 0 {
      ConcatAt(bs[1..], k - 1);
      assert Concat(bs)[|bs[0]|..] == Concat(bs[1..]);
    }
  }

  // ---------- Lookup on archives ----------

  ghost predicate Archive(es: seq<Entry>, trailer: Entry) {
    && (forall i :: 0 <= i < |es| ==> WellFormed(es[i]) && es[i].name != TRAILER)
    && WellFormed(trailer) && trailer.name == TRAILER
  }

  /** Entry `k`, the trailer after the last. */
  function Nth(es: seq<Entry>, trailer: Entry, k: nat): Entry { if k < |es| then es[k] else trailer }

  ghost function Blocks(es: seq<Entry>, trailer: Entry): (bs: seq<Bytes>)
    requires Archive(es, trailer)
  {
    seq(|es| + 1, k requires 0 <= k <= |es| => Encode(Nth(es, trailer, k)))
  }

  /** The archive's bytes; anything may follow the trailer. */
  ghost function Written(es: seq<Entry>, trailer: Entry, rest: Bytes): Bytes
    requires Archive(es, trailer)
  {
    Concat(Blocks(es, trailer)) + rest
  }

  function FirstNamed(es: seq<Entry>, name: Bytes): (i: nat)
    ensures i <= |es| && (i < |es| ==> es[i].name == name)
  {
    if es == [] || es[0].name == name then 0 else 1 + FirstNamed(es[1..], name)
  }

  /** The reader sees entry `k` at `offs[k]`, right in front of the next. */
  ghost predicate MeetsAt(data: Bytes, es: seq<Entry>, trailer: Entry, offs: seq<nat>, k: nat)
    requires k <= |es| == |offs| - 1
  {
    ReadsAs(data, offs[k], Nth(es, trailer, k)) && (k < |es| ==> offs[k + 1] == offs[k] + Size(es[k]))
  }

  /** The reader meets all entries one behind the other, and the trailer last. */
  ghost predicate Meets(data: Bytes, es: seq<Entry>, trailer: Entry, offs: seq<nat>) {
    |offs| == |es| + 1 && offs[0] == 0 && forall k: nat :: k <= |es| ==> MeetsAt(data, es, trailer, offs, k)
  }

  lemma BlockAt(es: seq<Entry>, trailer: Entry, k: nat)
    requires Archive(es, trailer) && k <= |es|
    ensures var bs, e := Blocks(es, trailer), Nth(es, trailer, k);
            OffsetOf(bs, k) % 4 == 0 && Stored(Concat(bs), OffsetOf(bs, k), e)
  {
    var bs := Blocks(es, trailer);
    assert bs[k] == Encode(Nth(es, trailer, k));
    ConcatAt(bs, k);
    OffsetAligned(bs, k);
  }

  lemma StoredLonger(data: Bytes, rest: Bytes, off: nat, e: Entry)
    requires WellFormed(e) && Stored(data, off, e)
    ensures Stored(data + rest, off, e)
  {
    assert (data + rest)[off..off + Size(e)] == data[off..off + Size(e)];
  }

  lemma WrittenAt(es: seq<Entry>, trailer: Entry, rest: Bytes, k: nat)
    requires Archive(es, trailer) && k <= |es|
    ensures ReadsAs(Written(es, trailer, rest), OffsetOf(Blocks(es, trailer), k), Nth(es, trailer, k))
  {
    var bs, e := Blocks(es, trailer), Nth(es, trailer, k);
    BlockAt(es, trailer, k);
    StoredLonger(Concat(bs), rest, OffsetOf(bs, k), e);
    ReadsEntry(Concat(bs) + rest, OffsetOf(bs, k), e);
  }

  /** The reader meets every entry of a written archive where it was put. */
  lemma WrittenMeets(es: seq<Entry>, trailer: Entry, rest: Bytes) returns (offs: seq<nat>)
    requires Archive(es, trailer)
    ensures Meets(Written(es, trailer, rest), es, trailer, offs)
  {
    var bs := Blocks(es, trailer);
    offs := seq(|es| + 1, k requires 0 <= k <= |es| => OffsetOf(bs, k));
    forall k: nat | k <= |es| ensures MeetsAt(Written(es, trailer, rest), es, trailer, offs, k) {
      WrittenAt(es, trailer, rest, k);
      if k < |es| { BlockNext(es, trailer, k); }
    }
  }

  lemma BlockNext(es: seq<Entry>, trailer: Entry, k: nat)
    requires Archive(es, trailer) && k < |es|
    ensures var bs := Blocks(es, trailer); OffsetOf(bs, k + 1) == OffsetOf(bs, k) + Size(es[k])
  {
    OffsetNext(Blocks(es, trailer), k);
  }

  /** The first entry of that name with exactly its bytes, or nothing if there is none. */
  ghost predicate Returns(data: Bytes, es: seq<Entry>, name: Bytes, r: Lookup) {
    var i := FirstNamed(es, name);
    if i == |es| then r == NotFound
    else r.Found? && r.start + r.len <= |data| && data[r.start..r.start + r.len] == es[i].content
  }

  /** A chain of offsets the scan follows to its answer. */
  lemma {:induction false} LookupChain(data: Bytes, path: Bytes, offs: seq<nat>, j: nat, i: nat, r: Lookup)
    requires j <= i < |offs| && LookupStep(data, path, offs[i]) == Stop(r)
    requires forall k :: j <= k < i ==> LookupStep(data, path, offs[k]) == Next(offs[k + 1])
    ensures LookupFrom(data, path, offs[j]) == r
    decreases i - j
  {
    if j < i {
      LookupChain(data, path, offs, j + 1, i, r);
    }
  }

  lemma LookupReads(data: Bytes, path: Bytes, off: nat, e: Entry)
    requires ReadsAs(data, off, e)
    ensures LookupStep(data, path, off) ==
            if e.name == TRAILER then Stop(NotFound)
            else if e.name == Normal(path) then Stop(Found(off + ContentAt(e), |e.content|)) else Next(off + Size(e))
  {}

  lemma LookupAt(data: Bytes, es: seq<Entry>, trailer: Entry, path: Bytes, offs: seq<nat>, k: nat)
    requires Archive(es, trailer) && Meets(data, es, trailer, offs) && k <= FirstNamed(es, Normal(path))
    ensures var e := Nth(es, trailer, k);
            LookupStep(data, path, offs[k]) ==
            if k < FirstNamed(es, Normal(path)) then Next(offs[k + 1])
            else if k == |es| then Stop(NotFound) else Stop(Found(offs[k] + ContentAt(e), |e.content|))
  {
    assert MeetsAt(data, es, trailer, offs, k);
    LookupReads(data, path, offs[k], Nth(es, trailer, k));
    NthName(es, trailer, Normal(path), k);
  }

  /** Before the first entry of that name come other names, and only the last of all is the trailer. */
  lemma NthName(es: seq<Entry>, trailer: Entry, name: Bytes, k: nat)
    requires k <= FirstNamed(es, name) && trailer.name == TRAILER
    requires forall i :: 0 <= i < |es| ==> es[i].name != TRAILER
    ensures var e := Nth(es, trailer, k);
            && (e.name == TRAILER <==> k == |es|)
            && (k < |es| ==> (e.name == name <==> k == FirstNamed(es, name)))
  {
    if k < FirstNamed(es, name) {
      BeforeFirst(es, name, k);
    }
  }

  /** Where the contents the reader sees come from. */
  lemma SeenContent(data: Bytes, off: nat)
    requires See(data, off).Seen?
    ensures var s := See(data, off);
            s.start + |s.content| <= |data| && data[s.start..s.start + |s.content|] == s.content
  {}

  lemma LookupAnswer(data: Bytes, es: seq<Entry>, trailer: Entry, path: Bytes, offs: seq<nat>)
    requires Archive(es, trailer) && Meets(data, es, trailer, offs)
    ensures var i := FirstNamed(es, Normal(path));
            LookupFrom(data, path, offs[0]) ==
            if i == |es| then NotFound else Found(offs[i] + ContentAt(es[i]), |es[i].content|)
  {
    var i := FirstNamed(es, Normal(path));
    forall k | 0 <= k < i ensures LookupStep(data, path, offs[k]) == Next(offs[k + 1]) {
      LookupAt(data, es, trailer, path, offs, k);
    }
    LookupAt(data, es, trailer, path, offs, i);
    LookupChain(data, path, offs, 0, i, LookupStep(data, path, offs[i]).answer);
  }

  lemma LookupExact(data: Bytes, es: seq<Entry>, trailer: Entry, path: Bytes, offs: seq<nat>)
    requires Archive(es, trailer) && Meets(data, es, trailer, offs)
    ensures Returns(data, es, Normal(path), LookupFrom(data, path, 0))
  {
    var i := FirstNamed(es, Normal(path));
    LookupAnswer(data, es, trailer, path, offs);
    assert MeetsAt(data, es, trailer, offs, i);
    SeenContent(data, offs[i]);
  }

  /** On a written archive the lookup returns the first entry of that name with exactly its bytes, or nothing. */
  lemma LookupRoundTrip(es: seq<Entry>, trailer: Entry, rest: Bytes, path: Bytes)
    requires Archive(es, trailer)
    ensures Returns(Written(es, trailer, rest), es, Normal(path), LookupFrom(Written(es, trailer, rest), path, 0))
  {
    var offs := WrittenMeets(es, trailer, rest);
    LookupExact(Written(es, trailer, rest), es, trailer, path, offs);
  }

  /** The ways to spell the path of a name: as it is, with a slash, or with a dot and a slash in front. */
  predicate Spells(path: Bytes, name: Bytes) {
    || path == [SLASH] + name
    || path == [DOT, SLASH] + name
    || (path == name && !([SLASH] <= name) && !([DOT, SLASH] <= name))
  }

  lemma NormalSpells(path: Bytes, name: Bytes)
    requires Spells(path, name)
    ensures Normal(path) == name
  {
    assert ([SLASH] + name)[1..] == name && ([DOT, SLASH] + name)[2..] == name;
    if path == [DOT, SLASH] + name {
      assert path[0] == DOT && [SLASH][0] == SLASH;
    }
  }

  /** However its path is spelled, a name is found. */
  lemma LookupByName(es: seq<Entry>, trailer: Entry, rest: Bytes, path: Bytes, name: Bytes)
    requires Archive(es, trailer) && Spells(path, name)
    ensures Returns(Written(es, trailer, rest), es, name, LookupFrom(Written(es, trailer, rest), path, 0))
  {
    NormalSpells(path, name);
    LookupRoundTrip(es, trailer, rest, path);
  }

  lemma {:induction false} BeforeFirst(es: seq<Entry>, name: Bytes, k: nat)
    requires k < FirstNamed(es, name)
    ensures es[k].name != name
  {
    if k > 0 {
      BeforeFirst(es[1..], name, k - 1);
    }
  }

  /** The index used above is the first one with the name, and it is found iff there is one. */
  lemma {:induction false} FirstNamedIsFirst(es: seq<Entry>, name: Bytes, k: nat)
    requires k < |es| && es[k].name == name
    ensures FirstNamed(es, name) <= k
  {
    if k > 0 && es[0].name != name {
      FirstNamedIsFirst(es[1..], name, k - 1);
    }
  }

  // ---------- Archives from names and contents ----------

  datatype File = File(name: Bytes, content: Bytes)

  /** Both sizes fit their eight-digit fields. */
  predicate Storable(f: File) { |f.name| + 1 < Power16(8) && |f.content| < Power16(8) }

  function EntryOf(f: File, upper: bool): Entry {
    Entry(f.name, f.content, HexField(0, 48, upper), HexField(|f.content|, 8, upper), HexField(0, 32, upper),
          HexField(|f.name| + 1, 8, upper), HexField(0, 8, upper))
  }

  function EntriesOf(files: seq<File>, upper: bool): seq<Entry> {
    seq(|files|, i requires 0 <= i < |files| => EntryOf(files[i], upper))
  }

  const LAST := File(TRAILER, [])

  lemma StorableWellFormed(f: File, upper: bool)
    requires Storable(f)
    ensures WellFormed(EntryOf(f, upper))
  {
    HexRoundTrip(|f.content|, 8, upper);
    HexRoundTrip(|f.name| + 1, 8, upper);
  }

  lemma LastStorable()
    ensures Storable(LAST)
  {
    assert Power16(8) == 16 * Power16(7) && Power16(7) >= 1;
  }

  lemma FilesArchive(files: seq<File>, upper: bool)
    requires forall i :: 0 <= i < |files| ==> Storable(files[i]) && files[i].name != TRAILER
    ensures Archive(EntriesOf(files, upper), EntryOf(LAST, upper))
  {
    forall i | 0 <= i < |files| ensures WellFormed(EntryOf(files[i], upper)) {
      StorableWellFormed(files[i], upper);
    }
    LastStorable();
    StorableWellFormed(LAST, upper);
  }

  /** Files written with hexadecimal sizes of either case are found by name, with exactly their contents. */
  lemma FilesRoundTrip(files: seq<File>, upper: bool, rest: Bytes, path: Bytes, name: Bytes)
    requires forall i :: 0 <= i < |files| ==> Storable(files[i]) && files[i].name != TRAILER
    requires Spells(path, name)
    ensures Archive(EntriesOf(files, upper), EntryOf(LAST, upper))
    ensures var data := Written(EntriesOf(files, upper), EntryOf(LAST, upper), rest);
            Returns(data, EntriesOf(files, upper), name, LookupFrom(data, path, 0))
  {
    FilesArchive(files, upper);
    LookupByName(EntriesOf(files, upper), EntryOf(LAST, upper), rest, path, name);
  }

  // ---------- Archives that panic ----------

  /** The bytes before the last of the name field. */
  function NameAt(data: Bytes, off: nat): Bytes
    requires off + HEADER <= |data| && NameSize(data, off) > 0 && off + HEADER + NameSize(data, off) - 1 <= |data|
  {
    data[off + HEADER..off + HEADER + NameSize(data, off) - 1]
  }

  /** A whole entry with a name. */
  predicate Named(data: Bytes, off: nat) {
    EntryAt(data, off) && NameSize(data, off) > 0 && off + HEADER + NameSize(data, off) - 1 <= |data|
  }

  predicate Within(data: Bytes, off: nat)
    requires off + HEADER <= |data|
  {
    DataStart(data, off) + FileSize(data, off) <= |data|
  }

  /** An entry the lookup passes over: whole, and neither the trailer nor the file looked for. */
  predicate Passes(data: Bytes, path: Bytes, off: nat) {
    Named(data, off) && Within(data, off) && NameAt(data, off) != TRAILER && NameAt(data, off) != Normal(path)
  }

  predicate ZeroNameAt(data: Bytes, off: nat) {
    EntryAt(data, off) && NameSize(data, off) == 0 && Within(data, off)
  }

  /** `offs` are the offsets of entries one behind the other, all but the last passed over. */
  ghost predicate Reaches(data: Bytes, path: Bytes, offs: seq<nat>) {
    && |offs| > 0
    && forall k :: 0 <= k < |offs| - 1 ==> Passes(data, path, offs[k]) && offs[k + 1] == NextEntry(data, offs[k])
  }

  lemma StepIff(data: Bytes, path: Bytes, off: nat)
    ensures LookupStep(data, path, off) == Stop(Panicked) <==> ZeroNameAt(data, off)
    ensures LookupStep(data, path, off).Next? <==> Passes(data, path, off)
    ensures Passes(data, path, off) ==> LookupStep(data, path, off).off == NextEntry(data, off)
  {}

  lemma {:induction false} PanicTrace(data: Bytes, path: Bytes, off: nat) returns (offs: seq<nat>)
    requires LookupFrom(data, path, off) == Panicked
    ensures Reaches(data, path, offs) && offs[0] == off && ZeroNameAt(data, offs[|offs| - 1])
    decreases |data| - off
  {
    StepIff(data, path, off);
    if LookupStep(data, path, off).Stop? {
      offs := [off];
    } else {
      var rest := PanicTrace(data, path, NextEntry(data, off));
      offs := [off] + rest;
    }
  }

  /** The lookup panics exactly when it comes to a header whose name size reads as zero, its contents inside the
      data, before a match, the trailer, or an entry that is cut off. */
  lemma PanicIff(data: Bytes, path: Bytes, off: nat)
    ensures LookupFrom(data, path, off) == Panicked <==>
            exists offs: seq<nat> :: Reaches(data, path, offs) && offs[0] == off && ZeroNameAt(data, offs[|offs| - 1])
  {
    if LookupFrom(data, path, off) == Panicked {
      var offs := PanicTrace(data, path, off);
    }
    forall offs: seq<nat> | Reaches(data, path, offs) && offs[0] == off && ZeroNameAt(data, offs[|offs| - 1])
      ensures LookupFrom(data, path, off) == Panicked
    {
      var last := |offs| - 1;
      StepIff(data, path, offs[last]);
      forall k | 0 <= k < last ensures LookupStep(data, path, offs[k]) == Next(offs[k + 1]) {
        StepIff(data, path, offs[k]);
      }
      LookupChain(data, path, offs, 0, last, Panicked);
    }
  }

  // ---------- The directory test ----------

  datatype Answer = Yes | No | Panic

  function Stripped(path: Bytes): Bytes { if [SLASH] <= path then path[1..] else path }

  /** The prefix a path must have below it, after one leading slash is dropped. */
  function DirPrefix(path: Bytes): Bytes {
    var p := Stripped(path);
    if p != [] && p[|p| - 1] == SLASH then p else p + [SLASH]
  }

  function DirStep(data: Bytes, prefix: Bytes, off: nat): (r: Scan<Answer>)
    ensures r.Next? ==> off < r.off && off < |data|
  {
    if off + HEADER >= |data| || data[off..off + 6] != MAGIC then Stop(No)
    else
      var nameEnd := off + HEADER + NameSize(data, off) - 1;
      if nameEnd > |data| then Stop(No)
      else if nameEnd < off + HEADER then Stop(Panic)
      else
        var name := data[off + HEADER..nameEnd];
        if name == TRAILER then Stop(No)
        else if prefix <= name then Stop(Yes)
        else Next(NextEntry(data, off))
  }

  function DirFrom(data: Bytes, prefix: Bytes, off: nat): Answer
    decreases |data| - off
  {
    var step := DirStep(data, prefix, off);
    if step.Stop? then step.answer else DirFrom(data, prefix, step.off)
  }

  function IsDirPrefix(data: Bytes, path: Bytes): Answer {
    if |Stripped(path)| >= 127 then No else DirFrom(data, DirPrefix(path), 0)
  }

  method IsDirPrefixLoop(data: Bytes, path: Bytes) returns (r: Answer)
    ensures r == IsDirPrefix(data, path)
  {
    var p := if [SLASH] <= path then path[1..] else path;
    if |p| >= 127 {
      return No;
    }
    var prefix := p;
    if p == [] || p[|p| - 1] != SLASH {
      prefix := p + [SLASH];
    }
    var offset := 0;
    while offset + HEADER < |data|
      invariant DirFrom(data, prefix, 0) == DirFrom(data, prefix, offset)
      decreases |data| - offset
    {
      var step := DirEntry(data, prefix, offset);
      if step.Stop? {
        return step.answer;
      }
      offset := step.off;
    }
    return No;
  }

  method DirEntry(data: Bytes, prefix: Bytes, offset: nat) returns (r: Scan<Answer>)
    requires offset + HEADER < |data|
    ensures r == DirStep(data, prefix, offset)
  {
    if data[offset..offset + 6] != MAGIC {
      return Stop(No);
    }
    var filesize, namesize := ReadSizes(data, offset);
    var nameStart := offset + HEADER;
    var nameEnd := nameStart + namesize - 1;
    if nameEnd > |data| {
      return Stop(No);
    }
    if nameEnd < nameStart {
      return Stop(Panic);
    }
    var name := data[nameStart..nameEnd];
    if name == TRAILER {
      return Stop(No);
    }
    if |name| >= |prefix| && name[..|prefix|] == prefix {
      return Stop(Yes);
    }
    return Next(Pad4(Pad4(nameStart + namesize) + filesize));
  }

  // The directory test looks at no contents, and at no header that ends the data.

  predicate DirPasses(data: Bytes, prefix: Bytes, off: nat) {
    off + HEADER < |data| && Named(data, off) && NameAt(data, off) != TRAILER && !(prefix <= NameAt(data, off))
  }

  predicate DirZeroNameAt(data: Bytes, off: nat) {
    off + HEADER < |data| && EntryAt(data, off) && NameSize(data, off) == 0
  }

  ghost predicate DirReaches(data: Bytes, prefix: Bytes, offs: seq<nat>) {
    && |offs| > 0
    && forall k :: 0 <= k < |offs| - 1 ==> DirPasses(data, prefix, offs[k]) && offs[k + 1] == NextEntry(data, offs[k])
  }

  lemma DirStepIff(data: Bytes, prefix: Bytes, off: nat)
    ensures DirStep(data, prefix, off) == Stop(Panic) <==> DirZeroNameAt(data, off)
    ensures DirStep(data, prefix, off).Next? <==> DirPasses(data, prefix, off)
    ensures DirPasses(data, prefix, off) ==> DirStep(data, prefix, off).off == NextEntry(data, off)
  {}

  lemma {:induction false} DirPanicTrace(data: Bytes, prefix: Bytes, off: nat) returns (offs: seq<nat>)
    requires DirFrom(data, prefix, off) == Panic
    ensures DirReaches(data, prefix, offs) && offs[0] == off && DirZeroNameAt(data, offs[|offs| - 1])
    decreases |data| - off
  {
    DirStepIff(data, prefix, off);
    if DirStep(data, prefix, off).Stop? {
      offs := [off];
    } else {
      var rest := DirPanicTrace(data, prefix, NextEntry(data, off));
      offs := [off] + rest;
    }
  }

  /** So it panics exactly when it comes to such a header, whatever the contents' size, before a name below the
      prefix, the trailer, or an entry that is cut off. */
  lemma DirPanicIff(data: Bytes, prefix: Bytes, off: nat)
    ensures DirFrom(data, prefix, off) == Panic <==>
            exists offs: seq<nat> ::
              DirReaches(data, prefix, offs) && offs[0] == off && DirZeroNameAt(data, offs[|offs| - 1])
  {
    if DirFrom(data, prefix, off) == Panic {
      var offs := DirPanicTrace(data, prefix, off);
    }
    forall offs: seq<nat> | DirReaches(data, prefix, offs) && offs[0] == off && DirZeroNameAt(data, offs[|offs| - 1])
      ensures DirFrom(data, prefix, off) == Panic
    {
      var last := |offs| - 1;
      DirStepIff(data, prefix, offs[last]);
      forall k | 0 <= k < last ensures DirStep(data, prefix, offs[k]) == Next(offs[k + 1]) {
        DirStepIff(data, prefix, offs[k]);
      }
      DirChain(data, prefix, offs, 0, last, Panic);
    }
  }

  /** The directory test reads the same names at the same places. */
  lemma DirSees(data: Bytes, prefix: Bytes, off: nat)
    requires See(data, off).Seen?
    ensures var s := See(data, off);
            DirStep(data, prefix, off) ==
            if s.name == TRAILER then Stop(No) else if prefix <= s.name then Stop(Yes) else Next(s.next)
  {}

  lemma {:induction false} DirChain(data: Bytes, prefix: Bytes, offs: seq<nat>, j: nat, i: nat, r: Answer)
    requires j <= i < |offs| && DirStep(data, prefix, offs[i]) == Stop(r)
    requires forall k :: j <= k < i ==> DirStep(data, prefix, offs[k]) == Next(offs[k + 1])
    ensures DirFrom(data, prefix, offs[j]) == r
    decreases i - j
  {
    if j < i {
      DirChain(data, prefix, offs, j + 1, i, r);
    }
  }

  predicate SomeBelow(es: seq<Entry>, prefix: Bytes) {
    exists i :: 0 <= i < |es| && prefix <= es[i].name
  }

  function FirstBelow(es: seq<Entry>, prefix: Bytes): (i: nat)
    ensures i <= |es| && (i < |es| ==> prefix <= es[i].name)
  {
    if es == [] || prefix <= es[0].name then 0 else 1 + FirstBelow(es[1..], prefix)
  }

  lemma {:induction false} NoneBefore(es: seq<Entry>, prefix: Bytes, k: nat)
    requires k < FirstBelow(es, prefix)
    ensures !(prefix <= es[k].name)
  {
    if k > 0 {
      NoneBefore(es[1..], prefix, k - 1);
    }
  }

  lemma FirstBelowIff(es: seq<Entry>, prefix: Bytes)
    ensures SomeBelow(es, prefix) <==> FirstBelow(es, prefix) < |es|
  {
    if FirstBelow(es, prefix) == |es| {
      forall k | 0 <= k < |es| ensures !(prefix <= es[k].name) {
        NoneBefore(es, prefix, k);
      }
    }
  }

  lemma DirAt(data: Bytes, es: seq<Entry>, trailer: Entry, prefix: Bytes, offs: seq<nat>, k: nat)
    requires Archive(es, trailer) && Meets(data, es, trailer, offs) && k <= FirstBelow(es, prefix)
    ensures DirStep(data, prefix, offs[k]) ==
            if k < FirstBelow(es, prefix) then Next(offs[k + 1]) else Stop(if k == |es| then No else Yes)
  {
    assert MeetsAt(data, es, trailer, offs, k);
    DirSees(data, prefix, offs[k]);
    if k < FirstBelow(es, prefix) {
      NoneBefore(es, prefix, k);
    }
  }

  lemma DirExact(data: Bytes, es: seq<Entry>, trailer: Entry, prefix: Bytes, offs: seq<nat>)
    requires Archive(es, trailer) && Meets(data, es, trailer, offs)
    ensures DirFrom(data, prefix, 0) == if SomeBelow(es, prefix) then Yes else No
  {
    var i := FirstBelow(es, prefix);
    FirstBelowIff(es, prefix);
    forall k | 0 <= k < i ensures DirStep(data, prefix, offs[k]) == Next(offs[k + 1]) {
      DirAt(data, es, trailer, prefix, offs, k);
    }
    DirAt(data, es, trailer, prefix, offs, i);
    DirChain(data, prefix, offs, 0, i, if i == |es| then No else Yes);
  }

  /** On a written archive a path is a directory iff it is under 127 bytes and some name lies below it. */
  lemma DirRoundTrip(es: seq<Entry>, trailer: Entry, rest: Bytes, path: Bytes)
    requires Archive(es, trailer)
    ensures IsDirPrefix(Written(es, trailer, rest), path)
            == if |Stripped(path)| < 127 && SomeBelow(es, DirPrefix(path)) then Yes else No
  {
    var offs := WrittenMeets(es, trailer, rest);
    DirExact(Written(es, trailer, rest), es, trailer, DirPrefix(path), offs);
  }

  /** A path names a directory exactly when it is short enough and an entry lies below it, with or without a slash
      in front and behind. */
  lemma DirByName(es: seq<Entry>, trailer: Entry, rest: Bytes, path: Bytes, dir: Bytes)
    requires Archive(es, trailer) && dir != [] && dir[|dir| - 1] != SLASH && !([SLASH] <= dir)
    requires path in {dir, [SLASH] + dir, dir + [SLASH], [SLASH] + dir + [SLASH]}
    ensures IsDirPrefix(Written(es, trailer, rest), path) ==
            if (if path[|path| - 1] == SLASH then |dir| + 1 else |dir|) < 127
               && exists i :: 0 <= i < |es| && dir + [SLASH] <= es[i].name
            then Yes else No
  {
    assert ([SLASH] + dir)[1..] == dir && ([SLASH] + dir + [SLASH])[1..] == dir + [SLASH];
    assert ([SLASH] <= dir + [SLASH]) <==> ([SLASH] <= dir) by { assert (dir + [SLASH])[0] == dir[0]; }
    DirRoundTrip(es, trailer, rest, path);
  }

  lemma {:induction false} NoDigits(s: Bytes, k: nat)
    requires k <= |s| && forall i :: 0 <= i < |s| ==> s[i] == 0
    ensures HexPrefix(s, k) == 0
  {
    if k > 0 {
      NoDigits(s, k - 1);
    }
  }

  /** A bare magic number followed by zeroes makes both panic, whatever is looked for. */
  lemma ZeroNameSizePanics(path: Bytes)
    ensures LookupFrom(MAGIC + Zeroes(106), path, 0) == Panicked
    ensures |Stripped(path)| < 127 ==> IsDirPrefix(MAGIC + Zeroes(106), path) == Panic
  {
    var data := MAGIC + Zeroes(106);
    NoDigits(data[54..62], 8);
    NoDigits(data[94..102], 8);
    StepIff(data, path, 0);
    DirStepIff(data, DirPrefix(path), 0);
  }
}
