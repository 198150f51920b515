/**
 The self-extracting archive: writer, reader and extraction.

 Layout: executable, compressed blobs, manifest, then 16 bytes of footer (manifest
 length and magic, both little-endian). DEFLATE, JSON and SHA-256 are functions the
 archive code is given; what it needs from them is the predicate `Faithful`.
 */
module Payload {
  import opened Common
  import opened Text

  type Byte = b: int | 0 <= b < 256

  type Bytes = seq<Byte>

  datatype Entry = Entry(name: string, offset: nat, compressed: nat, uncompressed: nat, sha: string)

  datatype Manifest = Manifest(version: nat, entries: seq<Entry>)

  /** The inflated bytes, and whether the stream then turns out to be broken. */
  datatype Inflated = Inflated(bytes: Bytes, broken: bool)

  datatype Codec = Codec(
    deflate: Bytes -> Bytes,
    inflate: Bytes -> Inflated,
    sha256: Bytes -> string,
    toJson: Manifest -> Bytes,
    fromJson: Bytes -> Option<Manifest>)

  /** Inflating undoes deflating, parsing undoes printing, no stream is empty and no object prints shorter than braces. */
  ghost predicate Faithful(c: Codec) {
    && (forall d :: c.inflate(c.deflate(d)) == Inflated(d, false))
    && (forall d :: |c.deflate(d)| > 0)
    && (forall m :: c.fromJson(c.toJson(m)) == Some(m))
    && (forall m :: |c.toJson(m)| >= 2)
  }

  datatype Error =
    | BadName | DuplicateName
    | TooSmall | BadMagic | BadManifestLength | BadJson | BadVersion | NoEntries
    | EmptyEntry | OffsetOverflow | ManifestOverlap | EntriesOverlap
    | OutOfRange | BrokenStream | WrongSize | WrongHash
    | IoFailed

  datatype Archive = Archive(manifest: Manifest, blobs: Bytes)

  datatype File = File(name: string, data: Bytes)

  const FOOTER_LEN: nat := 16

  const FORMAT_VERSION: nat := 1

  /** The ASCII bytes of `TMSUPAYL`. */
  const MAGIC_BYTES: Bytes := [0x54, 0x4D, 0x53, 0x55, 0x50, 0x41, 0x59, 0x4C]

  const MAGIC: nat := FromLe(MAGIC_BYTES)

  // ------------------------------------------------------------- numbers

  function ToLe(n: nat, width: nat): (r: Bytes)
    ensures |r| == width
  {
    if width == 0 then [] else [n % 256] + ToLe(n / 256, width - 1)
  }

  function FromLe(b: Bytes): nat {
    if b == [] then 0 else b[0] + 256 * FromLe(b[1..])
  }

  function Capacity(width: nat): nat {
    if width == 0 then 1 else 256 * Capacity(width - 1)
  }

  lemma {:induction false} LeRoundTrip(n: nat, width: nat)
    requires n < Capacity(width)
    ensures FromLe(ToLe(n, width)) == n
    decreases width
  {
    if width > 0 {
      LeRoundTrip(n / 256, width - 1);
      assert ToLe(n, width)[1..] == ToLe(n / 256, width - 1);
    }
  }

  lemma {:induction false} FromLeFits(b: Bytes)
    ensures FromLe(b) < Capacity(|b|)
    decreases |b|
  {
    if b != [] {
      FromLeFits(b[1..]);
    }
  }

  lemma EightBytesHoldU64()
    ensures Capacity(8) == U64_MAX + 1
  {
    assert Capacity(2) == 0x1_0000;
    assert Capacity(4) == 0x1_0000_0000;
    assert Capacity(6) == 0x1_0000_0000_0000;
  }

  // --------------------------------------------------------------- names

  predicate HasDotDot(name: string) {
    exists i :: 0 <= i < |name| - 1 && name[i] == '.' && name[i + 1] == '.'
  }

  predicate ValidName(name: string) {
    && name != [] && Utf8Len(name) <= 128
    && '/' !in name && '\\' !in name && ':' !in name
    && !HasDotDot(name) && name[0] != '.'
    && Trim(name) == name
  }

  // -------------------------------------------------------------- writing

  function Blobs(c: Codec, files: seq<File>): Bytes {
    if files == [] then [] else Blobs(c, files[..|files| - 1]) + c.deflate(files[|files| - 1].data)
  }

  function Entries(c: Codec, files: seq<File>): (r: seq<Entry>)
    ensures |r| == |files|
    ensures forall i :: 0 <= i < |files| ==> r[i].name == files[i].name
  {
    if files == [] then []
    else
      var f := files[|files| - 1];
      Entries(c, files[..|files| - 1]) +
      [Entry(f.name, |Blobs(c, files[..|files| - 1])|, |c.deflate(f.data)|, |f.data|, c.sha256(f.data))]
  }

  predicate NameTaken(files: seq<File>, name: string) {
    exists i :: 0 <= i < |files| && files[i].name == name
  }

  /** The first name the writer refuses. */
  function WriterError(files: seq<File>): Option<Error> {
    if files == [] then None
    else
      var earlier, f := files[..|files| - 1], files[|files| - 1];
      if WriterError(earlier).Some? then WriterError(earlier)
      else if !ValidName(f.name) then Some(BadName)
      else if NameTaken(earlier, f.name) then Some(DuplicateName)
      else None
  }

  lemma OneMoreFile(c: Codec, files: seq<File>, i: nat)
    requires i < |files| && WriterError(files[..i]).None?
    ensures var f, earlier := files[i], files[..i];
            && WriterError(files[..i + 1]) ==
               (if !ValidName(f.name) then Some(BadName) else if NameTaken(earlier, f.name) then Some(DuplicateName) else None)
            && Blobs(c, files[..i + 1]) == Blobs(c, earlier) + c.deflate(f.data)
            && Entries(c, files[..i + 1]) == Entries(c, earlier) +
               [Entry(f.name, |Blobs(c, earlier)|, |c.deflate(f.data)|, |f.data|, c.sha256(f.data))]
  {
    assert files[..i + 1][..i] == files[..i];
  }

  method WriteBlobs(c: Codec, files: seq<File>) returns (out: Bytes, r: Result<Manifest, Error>)
    ensures r == match WriterError(files) case Some(e) => Err(e) case None => Ok(Manifest(FORMAT_VERSION, Entries(c, files)))
    ensures r.Ok? ==> out == Blobs(c, files)
  {
    assert files[..0] == [] && WriterError(files[..0]).None? && Blobs(c, files[..0]) == [] && Entries(c, files[..0]) == [];
    hide ValidName, WriterError, Blobs, Entries;
    out := [];
    var entries: seq<Entry> := [];
    var offset := 0;
    for i := 0 to |files|
      invariant WriterError(files[..i]).None?
      invariant out == Blobs(c, files[..i]) && entries == Entries(c, files[..i]) && offset == |out|
    {
      OneMoreFile(c, files, i);
      var f := files[i];
      if !ValidName(f.name) {
        FirstErrorStays(files, i + 1);
        return out, Err(BadName);
      }
      if exists k :: 0 <= k < |entries| && entries[k].name == f.name {
        FirstErrorStays(files, i + 1);
        return out, Err(DuplicateName);
      }
      var compressed := c.deflate(f.data);
      out := out + compressed;
      entries := entries + [Entry(f.name, offset, |compressed|, |f.data|, c.sha256(f.data))];
      offset := offset + |compressed|;
    }
    assert files[..|files|] == files;
    r := Ok(Manifest(FORMAT_VERSION, entries));
  }

  lemma {:induction false} FirstErrorStays(files: seq<File>, n: nat)
    requires n <= |files| && WriterError(files[..n]).Some?
    ensures WriterError(files) == WriterError(files[..n])
    decreases |files|
  {
    if n < |files| {
      assert files[..|files| - 1][..n] == files[..n];
      FirstErrorStays(files[..|files| - 1], n);
    } else {
      assert files[..n] == files;
    }
  }

  predicate AllNamesValid(files: seq<File>) {
    forall i :: 0 <= i < |files| ==> ValidName(files[i].name)
  }

  predicate NamesDistinct(files: seq<File>) {
    forall i, j :: 0 <= i < j < |files| ==> files[i].name != files[j].name
  }

  lemma NamesAppend(files: seq<File>, f: File)
    ensures AllNamesValid(files + [f]) <==> AllNamesValid(files) && ValidName(f.name)
    ensures NamesDistinct(files + [f]) <==> NamesDistinct(files) && !NameTaken(files, f.name)
  {
    var all := files + [f];
    assert all[|files|] == f;
    assert forall i :: 0 <= i < |files| ==> all[i] == files[i];
  }

  /** The writer accepts exactly the lists of distinct valid names. */
  lemma {:induction false} WriterAcceptsIff(files: seq<File>)
    ensures WriterError(files).None? <==> AllNamesValid(files) && NamesDistinct(files)
    decreases |files|
  {
    if files != [] {
      var earlier, f := files[..|files| - 1], files[|files| - 1];
      WriterAcceptsIff(earlier);
      NamesAppend(earlier, f);
      assert files == earlier + [f];
    }
  }

  function Footer(manifestLen: nat): Bytes {
    ToLe(manifestLen, 8) + ToLe(MAGIC, 8)
  }

  function Assemble(c: Codec, files: seq<File>): Bytes {
    var json := c.toJson(Manifest(FORMAT_VERSION, Entries(c, files)));
    Blobs(c, files) + json + Footer(|json|)
  }

  method BuildPayload(c: Codec, files: seq<File>) returns (r: Result<Bytes, Error>)
    ensures r == match WriterError(files) case Some(e) => Err(e) case None => Ok(Assemble(c, files))
  {
    var blobs, m := WriteBlobs(c, files);
    if m.Err? {
      return Err(m.error);
    }
    var json := c.toJson(m.value);
    var out := blobs + json;
    out := out + ToLe(|json|, 8);
    out := out + ToLe(MAGIC, 8);
    assert out == blobs + json + Footer(|json|);
    r := Ok(out);
  }

  // -------------------------------------------------------------- reading

  function End(e: Entry): nat {
    e.offset + e.compressed
  }

  /** The largest end offset. */
  function MaxEnd(entries: seq<Entry>): nat {
    if entries == [] then 0
    else
      var earlier := MaxEnd(entries[..|entries| - 1]);
      if End(entries[|entries| - 1]) > earlier then End(entries[|entries| - 1]) else earlier
  }

  function EntryError(e: Entry): Option<Error> {
    if !ValidName(e.name) then Some(BadName)
    else if e.uncompressed == 0 || e.compressed == 0 then Some(EmptyEntry)
    else if End(e) > U64_MAX then Some(OffsetOverflow)
    else None
  }

  function FirstEntryError(entries: seq<Entry>): Option<Error> {
    if entries == [] then None
    else if FirstEntryError(entries[..|entries| - 1]).Some? then FirstEntryError(entries[..|entries| - 1])
    else EntryError(entries[|entries| - 1])
  }

  /** Two byte ranges share a byte. */
  predicate Overlap(a: Entry, b: Entry) {
    a.offset < End(b) && b.offset < End(a)
  }

  predicate Disjoint(entries: seq<Entry>) {
    forall i, j :: 0 <= i < j < |entries| ==> !Overlap(entries[i], entries[j])
  }

  function ManifestLen(data: Bytes): nat
    requires |data| >= FOOTER_LEN
  {
    FromLe(data[|data| - FOOTER_LEN..|data| - 8])
  }

  /** What parsing means: the first thing wrong with the file, or the archive in it. */
  function Parsed(c: Codec, data: Bytes): Result<Archive, Error> {
    if |data| < FOOTER_LEN then Err(TooSmall)
    else if FromLe(data[|data| - 8..]) != MAGIC then Err(BadMagic)
    else
      var footerAt, len := |data| - FOOTER_LEN, ManifestLen(data);
      if len < 2 || len > footerAt then Err(BadManifestLength)
      else
        var start := footerAt - len;
        var m := c.fromJson(data[start..footerAt]);
        if m.None? then Err(BadJson)
        else if m.value.version != FORMAT_VERSION then Err(BadVersion)
        else if m.value.entries == [] then Err(NoEntries)
        else if FirstEntryError(m.value.entries).Some? then Err(FirstEntryError(m.value.entries).value)
        else if start < MaxEnd(m.value.entries) then Err(ManifestOverlap)
        else if !Disjoint(m.value.entries) then Err(EntriesOverlap)
        else Ok(Archive(m.value, data[start - MaxEnd(m.value.entries)..start]))
  }

  datatype Span = Span(from: nat, to: nat)

  predicate SpanLeq(a: Span, b: Span) {
    a.from < b.from || (a.from == b.from && a.to <= b.to)
  }

  predicate SortedSpans(s: seq<Span>) {
    forall i, j :: 0 <= i < j < |s| ==> SpanLeq(s[i], s[j])
  }

  function SpansOf(entries: seq<Entry>): (r: seq<Span>)
    ensures |r| == |entries|
    ensures forall i :: 0 <= i < |r| ==> r[i] == Span(entries[i].offset, End(entries[i]))
  {
    if entries == [] then []
    else SpansOf(entries[..|entries| - 1]) + [Span(entries[|entries| - 1].offset, End(entries[|entries| - 1]))]
  }

  /** Sorting by start, then end; names only break ties between equal ranges. */
  method SortSpans(s: seq<Span>) returns (r: seq<Span>)
    ensures multiset(r) == multiset(s) && SortedSpans(r)
  {
    hide SortedSpans;
    NothingSorted();
    r := [];
    for i := 0 to |s|
      invariant multiset(r) == multiset(s[..i]) && SortedSpans(r)
    {
      var k := |r|;
      while k > 0 && !SpanLeq(r[k - 1], s[i])
        invariant 0 <= k <= |r|
        invariant forall j :: k <= j < |r| ==> !SpanLeq(r[j], s[i])
      {
        k := k - 1;
      }
      assert s[..i + 1] == s[..i] + [s[i]];
      InsertSorted(r, k, s[i]);
      InsertKeeps(r, k, s[i]);
      r := r[..k] + [s[i]] + r[k..];
    }
    assert s[..|s|] == s;
  }

  lemma NothingSorted()
    ensures SortedSpans([])
  {
  }

  lemma InsertKeeps(r: seq<Span>, k: nat, x: Span)
    requires k <= |r|
    ensures multiset(r[..k] + [x] + r[k..]) == multiset(r) + multiset{x}
  {
    assert r == r[..k] + r[k..];
  }

  lemma InsertSorted(r: seq<Span>, k: nat, x: Span)
    requires SortedSpans(r) && k <= |r|
    requires k > 0 ==> SpanLeq(r[k - 1], x)
    requires forall j :: k <= j < |r| ==> !SpanLeq(r[j], x)
    ensures SortedSpans(r[..k] + [x] + r[k..])
  {
    var n := r[..k] + [x] + r[k..];
    forall i, j | 0 <= i < j < |n|
      ensures SpanLeq(n[i], n[j])
    {
      var a, b := if i < k then i else i - 1, if j < k then j else j - 1;
      assert i != k ==> n[i] == r[a];
      assert j != k ==> n[j] == r[b];
      if j == k && i < k - 1 {
        assert SpanLeq(r[i], r[k - 1]);
      }
    }
  }

  predicate Apart(s: seq<Span>) {
    forall i, j :: 0 <= i < j < |s| ==> !(s[i].from < s[j].to && s[j].from < s[i].to)
  }

  predicate NeighboursApart(s: seq<Span>) {
    forall i :: 0 <= i < |s| - 1 ==> s[i].to <= s[i + 1].from
  }

  /** On sorted non-empty ranges it is enough to compare neighbours. */
  lemma NeighboursSuffice(s: seq<Span>)
    requires SortedSpans(s) && forall i :: 0 <= i < |s| ==> s[i].from < s[i].to
    ensures NeighboursApart(s) <==> Apart(s)
  {
    if NeighboursApart(s) {
      forall i, j | 0 <= i < j < |s|
        ensures s[i].to <= s[j].from
      {
        NeighboursChain(s, i, j);
      }
    }
    if Apart(s) {
      forall i | 0 <= i < |s| - 1
        ensures s[i].to <= s[i + 1].from
      {
        assert SpanLeq(s[i], s[i + 1]);
      }
    }
  }

  lemma {:induction false} NeighboursChain(s: seq<Span>, i: nat, j: nat)
    requires NeighboursApart(s) && i < j < |s| && forall k :: 0 <= k < |s| ==> s[k].from < s[k].to
    ensures s[i].to <= s[j].from
    decreases j
  {
    assert s[j - 1].to <= s[j - 1 + 1].from;
    if i < j - 1 {
      NeighboursChain(s, i, j - 1);
    }
  }

  /** Whether some pair overlaps does not depend on the order of the ranges. */
  lemma ApartPermutes(s: seq<Span>, t: seq<Span>)
    requires multiset(s) == multiset(t) && Apart(s)
    requires forall i :: 0 <= i < |s| ==> s[i].from < s[i].to
    ensures Apart(t)
  {
    forall i, j | 0 <= i < j < |t|
      ensures !(t[i].from < t[j].to && t[j].from < t[i].to)
    {
      var x, y := t[i], t[j];
      if x == y {
        TwiceOccurs(t, i, j);
        var a, b := OccursTwice(s, x);
      } else {
        assert x in multiset(s) && y in multiset(s);
        var a :| 0 <= a < |s| && s[a] == x;
        var b :| 0 <= b < |s| && s[b] == y;
        assert a < b || b < a;
      }
    }
  }

  lemma TwiceOccurs(t: seq<Span>, i: nat, j: nat)
    requires i < j < |t| && t[i] == t[j]
    ensures multiset(t)[t[i]] >= 2
  {
    assert t == t[..i] + [t[i]] + t[i + 1..j] + [t[j]] + t[j + 1..];
  }

  lemma OccursTwice(s: seq<Span>, x: Span) returns (a: nat, b: nat)
    requires multiset(s)[x] >= 2
    ensures a < b < |s| && s[a] == x && s[b] == x
  {
    assert x in multiset(s);
    a :| 0 <= a < |s| && s[a] == x;
    var rest := s[..a] + s[a + 1..];
    assert s == s[..a] + [x] + s[a + 1..];
    assert multiset(rest)[x] >= 1;
    assert x in multiset(rest);
    var k :| 0 <= k < |rest| && rest[k] == x;
    b := if k < a then k else k + 1;
    assert s[b] == x;
    if b < a { a, b := b, a; }
  }

  lemma {:induction false} EntriesFine(entries: seq<Entry>)
    ensures FirstEntryError(entries).None? <==> forall i :: 0 <= i < |entries| ==> EntryError(entries[i]).None?
    decreases |entries|
  {
    if entries != [] {
      var earlier, e := entries[..|entries| - 1], entries[|entries| - 1];
      EntriesFine(earlier);
      assert entries == earlier + [e];
      if FirstEntryError(earlier).None? && EntryError(e).None? {
        assert forall i :: 0 <= i < |entries| ==> entries[i] == if i < |earlier| then earlier[i] else e;
      } else if FirstEntryError(earlier).Some? {
        var i :| 0 <= i < |earlier| && EntryError(earlier[i]).Some?;
        assert EntryError(entries[i]).Some?;
      }
    }
  }

  lemma {:induction false} MaxEndBounds(entries: seq<Entry>)
    ensures forall i :: 0 <= i < |entries| ==> End(entries[i]) <= MaxEnd(entries)
    ensures entries != [] ==> exists i :: 0 <= i < |entries| && End(entries[i]) == MaxEnd(entries)
    decreases |entries|
  {
    if entries != [] {
      var earlier := entries[..|entries| - 1];
      MaxEndBounds(earlier);
      assert forall i :: 0 <= i < |earlier| ==> earlier[i] == entries[i];
      if MaxEnd(entries) == MaxEnd(earlier) && earlier != [] {
        var i :| 0 <= i < |earlier| && End(earlier[i]) == MaxEnd(earlier);
        assert End(entries[i]) == MaxEnd(entries);
      } else {
        assert End(entries[|entries| - 1]) == MaxEnd(entries);
      }
    }
  }

  lemma {:induction false} FirstEntryErrorStays(entries: seq<Entry>, n: nat)
    requires n <= |entries| && FirstEntryError(entries[..n]).Some?
    ensures FirstEntryError(entries) == FirstEntryError(entries[..n])
    decreases |entries|
  {
    if n < |entries| {
      assert entries[..|entries| - 1][..n] == entries[..n];
      FirstEntryErrorStays(entries[..|entries| - 1], n);
    } else {
      assert entries[..n] == entries;
    }
  }

  /** The first loop of `parse`: check every entry and find the end of the blob region. */
  method CheckEntries(entries: seq<Entry>) returns (r: Result<nat, Error>)
    ensures r == match FirstEntryError(entries) case Some(e) => Err(e) case None => Ok(MaxEnd(entries))
  {
    var blobLen := 0;
    for i := 0 to |entries|
      invariant FirstEntryError(entries[..i]).None? && blobLen == MaxEnd(entries[..i])
    {
      assert entries[..i + 1][..i] == entries[..i];
      var e := entries[i];
      if !ValidName(e.name) {
        FirstEntryErrorStays(entries, i + 1);
        return Err(BadName);
      }
      if e.uncompressed == 0 || e.compressed == 0 {
        FirstEntryErrorStays(entries, i + 1);
        return Err(EmptyEntry);
      }
      var end := e.offset + e.compressed;
      if end > U64_MAX {
        FirstEntryErrorStays(entries, i + 1);
        return Err(OffsetOverflow);
      }
      blobLen := if end > blobLen then end else blobLen;
    }
    assert entries[..|entries|] == entries;
    r := Ok(blobLen);
  }

  /** The sorted-neighbours test of `parse`. */
  method NoOverlap(entries: seq<Entry>) returns (ok: bool)
    requires FirstEntryError(entries).None?
    ensures ok <==> Disjoint(entries)
  {
    var spans := SpansOf(entries);
    var sorted := SortSpans(spans);
    SpansNotEmpty(entries, spans, sorted);
    NeighboursSuffice(sorted);
    DisjointIsApart(entries, spans, sorted);
    hide FirstEntryError, Disjoint, SpansOf;
    ok := true;
    var i := 0;
    while i + 1 < |sorted|
      invariant ok && forall k :: 0 <= k < i && k + 1 < |sorted| ==> sorted[k].to <= sorted[k + 1].from
    {
      if sorted[i].to > sorted[i + 1].from {
        return false;
      }
      i := i + 1;
    }
  }

  lemma SpansNotEmpty(entries: seq<Entry>, spans: seq<Span>, sorted: seq<Span>)
    requires FirstEntryError(entries).None?
    requires spans == SpansOf(entries) && multiset(spans) == multiset(sorted)
    ensures forall i :: 0 <= i < |spans| ==> spans[i].from < spans[i].to
    ensures forall i :: 0 <= i < |sorted| ==> sorted[i].from < sorted[i].to
  {
    hide ValidName;
    EntriesFine(entries);
    forall i | 0 <= i < |spans|
      ensures spans[i].from < spans[i].to
    {
      assert EntryError(entries[i]).None?;
    }
    hide FirstEntryError, EntryError, SpansOf;
    SameSpansNotEmpty(spans, sorted);
  }

  lemma SameSpansNotEmpty(spans: seq<Span>, sorted: seq<Span>)
    requires multiset(spans) == multiset(sorted)
    requires forall i :: 0 <= i < |spans| ==> spans[i].from < spans[i].to
    ensures forall i :: 0 <= i < |sorted| ==> sorted[i].from < sorted[i].to
  {
    forall i | 0 <= i < |sorted|
      ensures sorted[i].from < sorted[i].to
    {
      assert sorted[i] in multiset(sorted) && sorted[i] in multiset(spans);
      assert sorted[i] in spans;
    }
  }

  lemma DisjointIsApart(entries: seq<Entry>, spans: seq<Span>, sorted: seq<Span>)
    requires spans == SpansOf(entries) && multiset(spans) == multiset(sorted)
    requires forall i :: 0 <= i < |sorted| ==> sorted[i].from < sorted[i].to
    requires forall i :: 0 <= i < |spans| ==> spans[i].from < spans[i].to
    ensures Disjoint(entries) <==> Apart(sorted)
  {
    assert Disjoint(entries) <==> Apart(spans);
    if Apart(spans) { ApartPermutes(spans, sorted); }
    if Apart(sorted) { ApartPermutes(sorted, spans); }
  }

  method Parse(c: Codec, data: Bytes) returns (r: Result<Archive, Error>)
    ensures r == Parsed(c, data)
  {
    hide FromLe, FirstEntryError, MaxEnd, Disjoint, ValidName;
    if |data| < FOOTER_LEN {
      return Err(TooSmall);
    }
    var footerAt := |data| - FOOTER_LEN;
    var manifestLen := FromLe(data[footerAt..footerAt + 8]);
    var magic := FromLe(data[footerAt + 8..footerAt + 16]);
    assert data[footerAt + 8..footerAt + 16] == data[|data| - 8..];
    if magic != MAGIC {
      return Err(BadMagic);
    }
    if manifestLen < 2 || manifestLen > footerAt {
      return Err(BadManifestLength);
    }
    var manifestStart := footerAt - manifestLen;
    var m := c.fromJson(data[manifestStart..footerAt]);
    if m.None? {
      return Err(BadJson);
    }
    var manifest := m.value;
    if manifest.version != FORMAT_VERSION {
      return Err(BadVersion);
    }
    if manifest.entries == [] {
      return Err(NoEntries);
    }
    var len := CheckEntries(manifest.entries);
    if len.Err? {
      return Err(len.error);
    }
    if manifestStart < len.value {
      return Err(ManifestOverlap);
    }
    var apart := NoOverlap(manifest.entries);
    if !apart {
      return Err(EntriesOverlap);
    }
    r := Ok(Archive(manifest, data[manifestStart - len.value..manifestStart]));
  }
}
