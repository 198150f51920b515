/**
 What the archive code accepts, in terms of paths, bytes and ranges: the exact conditions
 under which a name is valid, a file parses and an entry is read.
 */
module Acceptance {
  import opened Common
  import opened Text
  import opened Paths
  import opened Payload
  import opened Extraction

  // ---------------------------------------------------------------- names

  /** What makes a name acceptable beside staying inside. */
  ghost predicate PlainName(name: string) {
    && StaysInside(name)
    && |Utf8(name)| <= 128
    && name[0] != '.'
    && !White(name[0]) && !White(name[|name| - 1])
    && forall i :: 0 <= i < |name| - 1 ==> !(name[i] == '.' && name[i + 1] == '.')
  }

  lemma SeparatorsIff(name: string)
    ensures '/' !in name && '\\' !in name <==> NoSeparator(name)
    ensures ':' !in name <==> NoColon(name)
  {
    assert '/' in name <==> exists i :: 0 <= i < |name| && name[i] == '/';
    assert '\\' in name <==> exists i :: 0 <= i < |name| && name[i] == '\\';
    assert ':' in name <==> exists i :: 0 <= i < |name| && name[i] == ':';
  }

  /** A leading dot is excluded, so the special names are too. */
  lemma DotNames(name: string)
    requires name != "" && name[0] != '.'
    ensures name != "." && name != ".."
  {
  }

  /** A name is valid exactly if it leads to a file of that name in any directory and obeys the further rules. */
  lemma ValidNameIff(name: string)
    ensures ValidName(name) <==> PlainName(name)
  {
    hide StaysInside, White, NoSeparator, NoColon, Utf8Len, Utf8, Trim;
    StaysInsideIff(name);
    SeparatorsIff(name);
    Utf8LenIs(name);
    TrimIff(name);
    if name != "" && name[0] != '.' {
      DotNames(name);
    }
  }

  /** The writer accepts exactly lists of distinct names that stay inside any directory and obey the further rules. */
  lemma WriterAcceptsPlainNames(files: seq<File>)
    ensures WriterError(files).None? <==>
              && (forall i :: 0 <= i < |files| ==> PlainName(files[i].name))
              && (forall i, j :: 0 <= i < j < |files| ==> files[i].name != files[j].name)
  {
    hide ValidName, PlainName, WriterError;
    WriterAcceptsIff(files);
    forall i | 0 <= i < |files|
      ensures ValidName(files[i].name) <==> PlainName(files[i].name)
    {
      ValidNameIff(files[i].name);
    }
  }

  // ---------------------------------------------------------------- files

  /** The numbers of one entry make sense for a blob region of this length. */
  predicate Fitting(e: Entry, blobs: nat) {
    e.compressed > 0 && e.uncompressed > 0 && e.offset + e.compressed <= blobs && e.offset + e.compressed <= U64_MAX
  }

  /** Byte `k` of the blob region belongs to this entry. */
  predicate Covers(e: Entry, k: nat) {
    e.offset <= k < e.offset + e.compressed
  }

  /** A manifest that describes a blob region of this length: plain names, sound numbers, no byte used twice, the last one used. */
  ghost predicate Describes(m: Manifest, blobs: nat) {
    && m.version == 1
    && m.entries != []
    && (forall i :: 0 <= i < |m.entries| ==> PlainName(m.entries[i].name) && Fitting(m.entries[i], blobs))
    && (forall i, j, k: nat :: 0 <= i < j < |m.entries| ==> !(Covers(m.entries[i], k) && Covers(m.entries[j], k)))
    && (exists i :: 0 <= i < |m.entries| && m.entries[i].offset + m.entries[i].compressed == blobs)
  }

  /** The file is some executable, the blobs, the manifest text, its length and the mark at the end. */
  ghost predicate LaidOut(data: Bytes, prefix: Bytes, blobs: Bytes, json: Bytes) {
    && 2 <= |json| <= U64_MAX
    && data == prefix + blobs + json + ToLe(|json|, 8) + [0x54, 0x4D, 0x53, 0x55, 0x50, 0x41, 0x59, 0x4C]
  }

  lemma {:induction false} DisjointIff(entries: seq<Entry>)
    requires forall i :: 0 <= i < |entries| ==> entries[i].compressed > 0
    ensures Disjoint(entries) <==>
            forall i, j, k: nat :: 0 <= i < j < |entries| ==> !(Covers(entries[i], k) && Covers(entries[j], k))
  {
    if forall i, j, k: nat :: 0 <= i < j < |entries| ==> !(Covers(entries[i], k) && Covers(entries[j], k)) {
      forall i, j | 0 <= i < j < |entries|
        ensures !Overlap(entries[i], entries[j])
      {
        var k := if entries[i].offset < entries[j].offset then entries[j].offset else entries[i].offset;
        assert !(Covers(entries[i], k) && Covers(entries[j], k));
      }
    }
  }

  lemma {:induction false} EntriesFitIff(entries: seq<Entry>, blobs: nat)
    requires MaxEnd(entries) == blobs
    ensures FirstEntryError(entries).None? <==>
            forall i :: 0 <= i < |entries| ==> PlainName(entries[i].name) && Fitting(entries[i], blobs)
  {
    hide ValidName, PlainName, FirstEntryError, MaxEnd;
    EntriesFine(entries);
    MaxEndBounds(entries);
    forall i | 0 <= i < |entries|
      ensures EntryError(entries[i]).None? <==> PlainName(entries[i].name) && Fitting(entries[i], blobs)
    {
      ValidNameIff(entries[i].name);
    }
  }

  lemma {:induction false} MaxEndIs(entries: seq<Entry>, blobs: nat)
    requires entries != []
    ensures MaxEnd(entries) == blobs <==>
              && (forall i :: 0 <= i < |entries| ==> entries[i].offset + entries[i].compressed <= blobs)
              && (exists i :: 0 <= i < |entries| && entries[i].offset + entries[i].compressed == blobs)
  {
    hide MaxEnd;
    MaxEndBounds(entries);
    var i :| 0 <= i < |entries| && End(entries[i]) == MaxEnd(entries);
    assert entries[i].offset + entries[i].compressed == MaxEnd(entries);
    assert forall j :: 0 <= j < |entries| ==> entries[j].offset + entries[j].compressed == End(entries[j]);
  }

  /** The reader's checks on the manifest, in these terms. */
  lemma DescribesIff(m: Manifest, blobs: nat)
    ensures Describes(m, blobs) <==>
              && m.version == FORMAT_VERSION && m.entries != [] && FirstEntryError(m.entries).None?
              && MaxEnd(m.entries) == blobs && Disjoint(m.entries)
  {
    hide PlainName, FirstEntryError, MaxEnd, Disjoint, Covers;
    if m.entries != [] {
      MaxEndIs(m.entries, blobs);
      if MaxEnd(m.entries) == blobs {
        EntriesFitIff(m.entries, blobs);
        if forall i :: 0 <= i < |m.entries| ==> PlainName(m.entries[i].name) && Fitting(m.entries[i], blobs) {
          DisjointIff(m.entries);
        }
      }
    }
  }

  lemma {:induction false} LeBack(b: Bytes)
    ensures ToLe(FromLe(b), |b|) == b
    decreases |b|
  {
    if b != [] {
      LeBack(b[1..]);
      assert (b[0] + 256 * FromLe(b[1..])) % 256 == b[0] && (b[0] + 256 * FromLe(b[1..])) / 256 == FromLe(b[1..]);
      assert b == [b[0]] + b[1..];
    }
  }

  /** The last eight bytes are the mark, byte for byte. */
  lemma MarkIff(b: Bytes)
    requires |b| == 8
    ensures FromLe(b) == MAGIC <==> b == MAGIC_BYTES
    ensures ToLe(MAGIC, 8) == MAGIC_BYTES
  {
    hide FromLe, ToLe;
    LeBack(b);
    LeBack(MAGIC_BYTES);
  }

  /** Cut a file at its footer. */
  lemma Cut(data: Bytes, blobs: nat)
    requires |data| >= FOOTER_LEN && FromLe(data[|data| - 8..]) == MAGIC
    requires 2 <= ManifestLen(data) && ManifestLen(data) + blobs <= |data| - FOOTER_LEN
    ensures var start := |data| - FOOTER_LEN - ManifestLen(data);
            LaidOut(data, data[..start - blobs], data[start - blobs..start], data[start..|data| - FOOTER_LEN])
  {
    hide FromLe, ToLe, Capacity;
    var footerAt := |data| - FOOTER_LEN;
    var start := footerAt - ManifestLen(data);
    var len := data[footerAt..|data| - 8];
    LeBack(len);
    FromLeFits(len);
    EightBytesHoldU64();
    MarkIff(data[|data| - 8..]);
    var json := data[start..footerAt];
    assert |json| == FromLe(len);
    assert data == data[..start - blobs] + data[start - blobs..start] + json + len + data[|data| - 8..];
  }

  /** A laid-out file is cut where it was joined. */
  lemma Joint(data: Bytes, prefix: Bytes, blobs: Bytes, json: Bytes)
    requires LaidOut(data, prefix, blobs, json)
    ensures |data| >= FOOTER_LEN && FromLe(data[|data| - 8..]) == MAGIC && ManifestLen(data) == |json|
    ensures data[|data| - FOOTER_LEN - |json|..|data| - FOOTER_LEN] == json
    ensures |data| - FOOTER_LEN - |json| == |prefix| + |blobs| && data[|prefix|..|prefix| + |blobs|] == blobs
  {
    hide FromLe, ToLe, ManifestLen;
    MarkIff(MAGIC_BYTES);
    assert data == prefix + (blobs + json + Footer(|json|));
    Pieces(prefix, blobs, json);
  }

  /**
   Exactly what parses, and as what: some executable, a blob region, a manifest text of at least two
   bytes, its length and the mark; a text that means version 1 of the manifest; and a manifest that
   describes the blob region.
   */
  lemma ParseAcceptsIff(c: Codec, data: Bytes, a: Archive)
    ensures Parsed(c, data) == Ok(a) <==>
            exists prefix: Bytes, json: Bytes ::
              LaidOut(data, prefix, a.blobs, json) && c.fromJson(json) == Some(a.manifest) && Describes(a.manifest, |a.blobs|)
  {
    hide FromLe, FirstEntryError, MaxEnd, Disjoint, Describes, ManifestLen, LaidOut;
    if Parsed(c, data) == Ok(a) {
      ParsedIsLaidOut(c, data, a);
    }
    if prefix: Bytes, json: Bytes :|
      LaidOut(data, prefix, a.blobs, json) && c.fromJson(json) == Some(a.manifest) && Describes(a.manifest, |a.blobs|)
    {
      Joint(data, prefix, a.blobs, json);
      LaidOutLengths(data, prefix, a.blobs, json);
      DescribesIff(a.manifest, |a.blobs|);
    }
  }

  lemma LaidOutLengths(data: Bytes, prefix: Bytes, blobs: Bytes, json: Bytes)
    requires LaidOut(data, prefix, blobs, json)
    ensures |json| >= 2 && |data| == |prefix| + |blobs| + |json| + 16
  {
    hide ToLe;
  }

  lemma ParsedIsLaidOut(c: Codec, data: Bytes, a: Archive)
    requires Parsed(c, data) == Ok(a)
    ensures exists prefix: Bytes, json: Bytes ::
              LaidOut(data, prefix, a.blobs, json) && c.fromJson(json) == Some(a.manifest) && Describes(a.manifest, |a.blobs|)
  {
    hide FromLe, FirstEntryError, MaxEnd, Disjoint, Describes, ManifestLen, LaidOut;
    Cut(data, MaxEnd(a.manifest.entries));
    DescribesIff(a.manifest, |a.blobs|);
    var start := |data| - FOOTER_LEN - ManifestLen(data);
    assert a.blobs == data[start - MaxEnd(a.manifest.entries)..start];
    assert LaidOut(data, data[..start - |a.blobs|], a.blobs, data[start..|data| - FOOTER_LEN]);
  }

  /** Whatever file is parsed, no entry leads out of the directory it is unpacked into. */
  lemma UnpackedStaysInside(c: Codec, data: Bytes, dir: Place)
    requires Parsed(c, data).Ok?
    ensures var entries := Parsed(c, data).value.manifest.entries;
            forall i :: 0 <= i < |entries| ==>
              var name := entries[i].name;
              name != "" && name != "." && name != ".." && Joined(dir, name) == Place(dir.drive, dir.parts + [name], None)
  {
    hide Parsed, ValidName;
    ParseAcceptsIff(c, data, Parsed(c, data).value);
    hide Joined, Covers, Fitting, LaidOut;
  }

  // ------------------------------------------------------------- contents

  /**
   An entry is read as `out` exactly if its range lies in the blob region, the stream there inflates
   soundly to `out` (the largest length may also cut a longer or broken stream), and `out` has the
   length and the hash that the manifest declares.
   */
  lemma ReadEntryIff(c: Codec, a: Archive, e: Entry, out: Bytes)
    requires e.uncompressed <= U64_MAX
    ensures ReadEntry(c, a, e) == Ok(out) <==>
            && e.offset + e.compressed <= |a.blobs|
            && |out| == e.uncompressed
            && c.sha256(out) == e.sha
            && var stream := c.inflate(a.blobs[e.offset..e.offset + e.compressed]);
               stream == Inflated(out, false) || (e.uncompressed == U64_MAX && out <= stream.bytes)
  {
    if End(e) <= |a.blobs| {
      var stream := c.inflate(a.blobs[e.offset..End(e)]);
      hide InflateBounded;
      InflateBoundedIff(stream, e.uncompressed);
      if |stream.bytes| == e.uncompressed {
        assert stream.bytes[..e.uncompressed] == stream.bytes;
      }
      if out <= stream.bytes && |out| == e.uncompressed {
        assert stream.bytes[..e.uncompressed] == out;
      }
    }
  }

  /** After a complete extraction every entry's file has the length and the hash the manifest declares, unless a later entry repeats its name. */
  lemma ExtractedIsVerified(c: Codec, a: Archive, before: Directory, i: nat)
    requires AllVerify(c, a) && i < |a.manifest.entries| && a.manifest.entries[i].uncompressed <= U64_MAX
    requires forall j :: i < j < |a.manifest.entries| ==> a.manifest.entries[j].name != a.manifest.entries[i].name
    ensures var e, after := a.manifest.entries[i], Written(c, a, before, |a.manifest.entries|);
            e.name in after && |after[e.name]| == e.uncompressed && c.sha256(after[e.name]) == e.sha
  {
    hide ReadEntry, Written;
    WrittenHolds(c, a, before, i, |a.manifest.entries|);
    ReadEntryIff(c, a, a.manifest.entries[i], Written(c, a, before, |a.manifest.entries|)[a.manifest.entries[i].name]);
  }

  // ------------------------------------------------------------ complaints

  /** The manifest text of a file that ends in the mark and a sensible length. */
  function ManifestText(data: Bytes): Option<Bytes> {
    if |data| < 16 || data[|data| - 8..] != MAGIC_BYTES then None
    else
      var len := FromLe(data[|data| - 16..|data| - 8]);
      if 2 <= len <= |data| - 16 then Some(data[|data| - 16 - len..|data| - 16]) else None
  }

  ghost predicate SomeBadName(entries: seq<Entry>) {
    exists i :: 0 <= i < |entries| && !PlainName(entries[i].name)
  }

  predicate SomeEmpty(entries: seq<Entry>) {
    exists i :: 0 <= i < |entries| && (entries[i].compressed == 0 || entries[i].uncompressed == 0)
  }

  predicate SomeEndBeyond(entries: seq<Entry>, bound: nat) {
    exists i :: 0 <= i < |entries| && entries[i].offset + entries[i].compressed > bound
  }

  ghost predicate SomeByteTwice(entries: seq<Entry>) {
    exists i, j, k: nat :: 0 <= i < j < |entries| && Covers(entries[i], k) && Covers(entries[j], k)
  }

  /** What is wrong with a file of which the reader complains in this way. */
  ghost predicate IsTrueOf(e: Error, c: Codec, data: Bytes) {
    var text := ManifestText(data);
    var m := if text.Some? then c.fromJson(text.value) else None;
    match e
    case TooSmall => |data| < 16
    case BadMagic => |data| >= 16 && data[|data| - 8..] != MAGIC_BYTES
    case BadManifestLength => |data| >= 16 && data[|data| - 8..] == MAGIC_BYTES && text.None?
    case BadJson => text.Some? && m.None?
    case BadVersion => m.Some? && m.value.version != 1
    case NoEntries => m.Some? && m.value.entries == []
    case BadName => m.Some? && SomeBadName(m.value.entries)
    case EmptyEntry => m.Some? && SomeEmpty(m.value.entries)
    case OffsetOverflow => m.Some? && SomeEndBeyond(m.value.entries, U64_MAX)
    case ManifestOverlap => m.Some? && SomeEndBeyond(m.value.entries, |data| - 16 - |text.value|)
    case EntriesOverlap => m.Some? && SomeByteTwice(m.value.entries)
    case _ => false
  }

  lemma {:induction false} FirstErrorIsTrue(entries: seq<Entry>)
    requires FirstEntryError(entries).Some?
    ensures match FirstEntryError(entries).value
            case BadName => SomeBadName(entries)
            case EmptyEntry => SomeEmpty(entries)
            case OffsetOverflow => SomeEndBeyond(entries, U64_MAX)
            case _ => false
    decreases |entries|
  {
    hide ValidName, PlainName;
    var earlier, e := entries[..|entries| - 1], entries[|entries| - 1];
    if FirstEntryError(earlier).Some? {
      FirstErrorIsTrue(earlier);
      assert forall i :: 0 <= i < |earlier| ==> earlier[i] == entries[i];
    } else {
      ValidNameIff(e.name);
      assert e == entries[|entries| - 1];
    }
  }

  /** Ranges that end too late or share a byte. */
  lemma RangeErrorIsTrue(entries: seq<Entry>, bound: nat)
    requires entries != [] && FirstEntryError(entries).None?
    ensures bound < MaxEnd(entries) ==> SomeEndBeyond(entries, bound)
    ensures !Disjoint(entries) ==> SomeByteTwice(entries)
  {
    hide FirstEntryError, MaxEnd, Disjoint, Covers;
    MaxEndIs(entries, MaxEnd(entries));
    NonEmptyEntries(entries);
    DisjointIff(entries);
  }

  /** Every complaint of the reader is true of the file. */
  lemma ComplaintIsTrue(c: Codec, data: Bytes)
    requires Parsed(c, data).Err?
    ensures IsTrueOf(Parsed(c, data).error, c, data)
  {
    hide FromLe, FirstEntryError, MaxEnd, Disjoint, SomeBadName, SomeEmpty, SomeEndBeyond, SomeByteTwice;
    if |data| >= 16 {
      MarkIff(data[|data| - 8..]);
      var text := ManifestText(data);
      if text.Some? && c.fromJson(text.value).Some? {
        var entries := c.fromJson(text.value).value.entries;
        if FirstEntryError(entries).Some? {
          FirstErrorIsTrue(entries);
        } else if entries != [] {
          RangeErrorIsTrue(entries, |data| - 16 - |text.value|);
        }
      }
    }
  }

  lemma NonEmptyEntries(entries: seq<Entry>)
    requires FirstEntryError(entries).None?
    ensures forall i :: 0 <= i < |entries| ==> entries[i].compressed > 0
  {
    hide ValidName, FirstEntryError;
    EntriesFine(entries);
    forall i | 0 <= i < |entries|
      ensures entries[i].compressed > 0
    {
      assert EntryError(entries[i]).None?;
    }
  }
}
