/** Reading entries back, extracting them, and what the archive format guarantees. */
module Extraction {
  import opened Common
  import opened Payload

  /** Inflate, never taking more than `declared + 1` bytes (saturating). */
  function InflateBounded(stream: Inflated, declared: nat): Result<Bytes, Error> {
    var limit := SatAdd(declared, 1);
    if |stream.bytes| < limit && stream.broken then Err(BrokenStream)
    else
      var out := if |stream.bytes| < limit then stream.bytes else stream.bytes[..limit];
      if |out| != declared then Err(WrongSize) else Ok(out)
  }

  /** A stream is accepted exactly when it ends soundly after the declared number of bytes (the largest size also takes longer ones). */
  lemma InflateBoundedIff(stream: Inflated, declared: nat)
    requires declared <= U64_MAX
    ensures InflateBounded(stream, declared).Ok? <==>
              (|stream.bytes| == declared && !stream.broken) || (declared == U64_MAX && |stream.bytes| >= declared)
    ensures InflateBounded(stream, declared).Ok? ==> InflateBounded(stream, declared).value == stream.bytes[..declared]
  {
    if |stream.bytes| == declared {
      assert stream.bytes[..declared] == stream.bytes;
    }
  }

  /** One byte too many is noticed before anything after it, broken or not; a shorter stream is either broken or too short. */
  lemma InflateErrors(stream: Inflated, declared: nat)
    requires declared < U64_MAX
    ensures InflateBounded(stream, declared) == Err(BrokenStream) <==> |stream.bytes| <= declared && stream.broken
    ensures InflateBounded(stream, declared) == Err(WrongSize) <==>
              |stream.bytes| > declared || (|stream.bytes| < declared && !stream.broken)
  {
  }

  function ReadEntry(c: Codec, a: Archive, e: Entry): Result<Bytes, Error> {
    if End(e) > |a.blobs| then Err(OutOfRange)
    else
      var out := InflateBounded(c.inflate(a.blobs[e.offset..End(e)]), e.uncompressed);
      if out.Err? then out
      else if c.sha256(out.value) != e.sha then Err(WrongHash)
      else out
  }

  // -------------------------------------------------- what acceptance means

  /** A manifest entry is safe to use with an archive. */
  ghost predicate Sound(a: Archive) {
    var entries := a.manifest.entries;
    && entries != []
    && (forall i :: 0 <= i < |entries| ==>
          ValidName(entries[i].name) && entries[i].compressed > 0 && entries[i].uncompressed > 0
          && End(entries[i]) <= |a.blobs| && End(entries[i]) <= U64_MAX)
    && (exists i :: 0 <= i < |entries| && End(entries[i]) == |a.blobs|)
    && Disjoint(entries)
  }

  /**
   Whenever parsing succeeds, every name is a plain file name, every range lies inside
   the blob region, which ends exactly where the manifest begins, no two ranges share a
   byte, and no later addition or slice can go out of range.
   */
  lemma AcceptedIsSound(c: Codec, data: Bytes)
    requires Parsed(c, data).Ok?
    ensures var a := Parsed(c, data).value;
            && Sound(a)
            && (forall i :: 0 <= i < |a.manifest.entries| ==> ReadEntry(c, a, a.manifest.entries[i]) != Err(OutOfRange))
            && var start := |data| - FOOTER_LEN - ManifestLen(data);
               && |a.blobs| <= start
               && a.blobs == data[start - |a.blobs|..start]
               && c.fromJson(data[start..|data| - FOOTER_LEN]) == Some(a.manifest)
  {
    hide ValidName;
    var a := Parsed(c, data).value;
    var entries := a.manifest.entries;
    EntriesFine(entries);
    MaxEndBounds(entries);
    forall i | 0 <= i < |entries|
      ensures ValidName(entries[i].name) && entries[i].compressed > 0 && entries[i].uncompressed > 0 && End(entries[i]) <= U64_MAX
    {
      assert EntryError(entries[i]).None?;
    }
    var start := |data| - FOOTER_LEN - ManifestLen(data);
    assert a.blobs == data[start - |a.blobs|..start];
  }

  // ---------------------------------------------------------- round trip

  predicate AllNonEmpty(files: seq<File>) {
    forall i :: 0 <= i < |files| ==> files[i].data != []
  }

  /** Where one file landed. */
  lemma {:induction false} Layout(c: Codec, files: seq<File>, i: nat)
    requires i < |files|
    ensures var e := Entries(c, files)[i];
            && End(e) <= |Blobs(c, files)|
            && Blobs(c, files)[e.offset..End(e)] == c.deflate(files[i].data)
            && e == Entry(files[i].name, |Blobs(c, files[..i])|, |c.deflate(files[i].data)|, |files[i].data|, c.sha256(files[i].data))
    decreases |files|
  {
    var rest, f := files[..|files| - 1], files[|files| - 1];
    if i < |files| - 1 {
      Layout(c, rest, i);
      assert rest[..i] == files[..i];
      var e := Entries(c, files)[i];
      assert e == Entries(c, rest)[i];
      assert Blobs(c, files)[e.offset..End(e)] == Blobs(c, rest)[e.offset..End(e)];
    } else {
      var e := Entries(c, files)[i];
      assert Blobs(c, files)[e.offset..End(e)] == c.deflate(f.data);
    }
  }

  lemma {:induction false} BlobsGrow(c: Codec, files: seq<File>, n: nat)
    requires n <= |files|
    ensures |Blobs(c, files[..n])| <= |Blobs(c, files)|
    decreases |files|
  {
    if n < |files| {
      assert files[..|files| - 1][..n] == files[..n];
      BlobsGrow(c, files[..|files| - 1], n);
    } else {
      assert files[..n] == files;
    }
  }

  lemma WrittenDisjoint(c: Codec, files: seq<File>)
    ensures Disjoint(Entries(c, files))
  {
    var entries := Entries(c, files);
    forall i, j | 0 <= i < j < |entries|
      ensures End(entries[i]) <= entries[j].offset
    {
      Layout(c, files, i);
      Layout(c, files, j);
      assert files[..j][..i + 1] == files[..i + 1] && files[..i + 1][..i] == files[..i];
      BlobsGrow(c, files[..j], i + 1);
      assert Blobs(c, files[..i + 1]) == Blobs(c, files[..i]) + c.deflate(files[i].data);
    }
  }

  lemma {:induction false} WrittenEnd(c: Codec, files: seq<File>)
    ensures MaxEnd(Entries(c, files)) == |Blobs(c, files)|
    decreases |files|
  {
    if files != [] {
      WrittenEnd(c, files[..|files| - 1]);
      var entries := Entries(c, files);
      assert entries[..|entries| - 1] == Entries(c, files[..|files| - 1]);
    }
  }

  lemma OneMoreWritten(c: Codec, files: seq<File>)
    requires files != []
    ensures var rest, f := files[..|files| - 1], files[|files| - 1];
            var entries, last := Entries(c, files), Entry(f.name, |Blobs(c, rest)|, |c.deflate(f.data)|, |f.data|, c.sha256(f.data));
            && entries[..|entries| - 1] == Entries(c, rest) && entries[|entries| - 1] == last
            && End(last) == |Blobs(c, files)|
            && FirstEntryError(entries) ==
               if FirstEntryError(Entries(c, rest)).Some? then FirstEntryError(Entries(c, rest)) else EntryError(last)
  {
    hide EntryError, FirstEntryError;
    var entries := Entries(c, files);
    assert entries[..|entries| - 1] == Entries(c, files[..|files| - 1]);
    FirstErrorStep(entries);
  }

  lemma FirstErrorStep(entries: seq<Entry>)
    requires entries != []
    ensures FirstEntryError(entries) ==
            if FirstEntryError(entries[..|entries| - 1]).Some? then FirstEntryError(entries[..|entries| - 1])
            else EntryError(entries[|entries| - 1])
  {
    hide EntryError;
  }

  lemma NonEmptyAppend(rest: seq<File>, f: File)
    ensures AllNonEmpty(rest + [f]) <==> AllNonEmpty(rest) && f.data != []
  {
    var files := rest + [f];
    assert files[|rest|] == f;
    assert forall i :: 0 <= i < |rest| ==> files[i] == rest[i];
  }

  /** The reader's only complaint about what the writer wrote is an empty file. */
  lemma {:induction false} WrittenErrors(c: Codec, files: seq<File>)
    requires Faithful(c) && AllNamesValid(files) && |Blobs(c, files)| <= U64_MAX
    ensures FirstEntryError(Entries(c, files)) == if AllNonEmpty(files) then None else Some(EmptyEntry)
    decreases |files|
  {
    if files == [] {
      assert Entries(c, files) == [];
    } else {
      hide ValidName, FirstEntryError, Entries, AllNamesValid, AllNonEmpty;
      var rest, f := files[..|files| - 1], files[|files| - 1];
      assert files == rest + [f];
      NamesAppend(rest, f);
      NonEmptyAppend(rest, f);
      OneMoreWritten(c, files);
      WrittenErrors(c, rest);
      assert |c.deflate(f.data)| > 0;
    }
  }

  /** The pieces of a built file, seen from its end. */
  lemma Pieces(prefix: Bytes, blobs: Bytes, json: Bytes)
    requires |json| <= U64_MAX
    ensures var data := prefix + (blobs + json + Footer(|json|));
            && |data| >= FOOTER_LEN
            && FromLe(data[|data| - 8..]) == MAGIC
            && ManifestLen(data) == |json|
            && data[|data| - FOOTER_LEN - |json|..|data| - FOOTER_LEN] == json
            && |data| - FOOTER_LEN - |json| - |blobs| == |prefix|
            && data[|prefix|..|prefix| + |blobs|] == blobs
  {
    hide FromLe, ToLe, Capacity;
    var data := prefix + (blobs + json + Footer(|json|));
    EightBytesHoldU64();
    LeRoundTrip(|json|, 8);
    FromLeFits(MAGIC_BYTES);
    LeRoundTrip(MAGIC, 8);
    assert data[|data| - 8..] == ToLe(MAGIC, 8);
    assert data[|data| - FOOTER_LEN..|data| - 8] == ToLe(|json|, 8);
    assert data[|data| - FOOTER_LEN - |json|..|data| - FOOTER_LEN] == json;
    assert data[|prefix|..|prefix| + |blobs|] == blobs;
  }

  /**
   Whatever executable the payload is appended to, parsing what the writer accepted
   succeeds exactly when there is a file and no file is empty, and then recovers the
   written manifest and blob region.
   */
  lemma ParseAssembled(c: Codec, prefix: Bytes, files: seq<File>)
    requires Faithful(c) && WriterError(files).None?
    requires |prefix + Assemble(c, files)| <= U64_MAX
    ensures Parsed(c, prefix + Assemble(c, files)) ==
            if files == [] then Err(NoEntries)
            else if !AllNonEmpty(files) then Err(EmptyEntry)
            else Ok(Archive(Manifest(FORMAT_VERSION, Entries(c, files)), Blobs(c, files)))
  {
    hide ValidName, WriterError, AllNamesValid, NamesDistinct, FirstEntryError, MaxEnd, Disjoint, Entries, Blobs, Footer, FromLe, ManifestLen;
    var m := Manifest(FORMAT_VERSION, Entries(c, files));
    var json := c.toJson(m);
    Pieces(prefix, Blobs(c, files), json);
    WriterAcceptsIff(files);
    WrittenErrors(c, files);
    WrittenEnd(c, files);
    WrittenDisjoint(c, files);
    assert c.fromJson(json) == Some(m);
  }

  /** Every file comes back byte for byte. */
  lemma RoundTrip(c: Codec, prefix: Bytes, files: seq<File>, i: nat)
    requires Faithful(c) && AllNamesValid(files) && NamesDistinct(files) && AllNonEmpty(files) && i < |files|
    requires |prefix + Assemble(c, files)| <= U64_MAX
    requires |files[i].data| <= U64_MAX
    ensures var r := Parsed(c, prefix + Assemble(c, files));
            && r.Ok? && |r.value.manifest.entries| == |files|
            && r.value.manifest.entries[i].name == files[i].name
            && ReadEntry(c, r.value, r.value.manifest.entries[i]) == Ok(files[i].data)
  {
    hide ValidName, WriterError, AllNamesValid, NamesDistinct, Parsed, Assemble, Entries, Blobs, InflateBounded;
    WriterAcceptsIff(files);
    ParseAssembled(c, prefix, files);
    Layout(c, files, i);
    InflateBoundedIff(c.inflate(c.deflate(files[i].data)), |files[i].data|);
    assert c.inflate(c.deflate(files[i].data)) == Inflated(files[i].data, false);
    assert files[i].data[..|files[i].data|] == files[i].data;
  }

  // ----------------------------------------------------------- extraction

  type Directory = map<string, Bytes>

  predicate AllVerify(c: Codec, a: Archive) {
    forall i :: 0 <= i < |a.manifest.entries| ==> ReadEntry(c, a, a.manifest.entries[i]).Ok?
  }

  /** The directory after the first `n` entries have been written. */
  function Written(c: Codec, a: Archive, before: Directory, n: nat): Directory
    requires AllVerify(c, a) && n <= |a.manifest.entries|
  {
    if n == 0 then before
    else Written(c, a, before, n - 1)[a.manifest.entries[n - 1].name := ReadEntry(c, a, a.manifest.entries[n - 1]).value]
  }

  class Target {
    var files: Directory

    constructor (initial: Directory)
      ensures files == initial
    {
      files := initial;
    }

    /**
     Verify everything in memory, then write; the operation after `budget` successful
     disk operations fails. Nothing at all is written unless every entry verifies.
     */
    method ExtractTo(c: Codec, a: Archive, budget: nat) returns (r: Result<seq<string>, Error>)
      modifies this
      ensures !AllVerify(c, a) ==> r.Err? && files == old(files)
      ensures AllVerify(c, a) ==>
                var n := |a.manifest.entries|;
                && (r.Ok? <==> budget > n)
                && files == Written(c, a, old(files), if budget == 0 then 0 else if budget > n then n else budget - 1)
                && (r.Ok? ==> |r.value| == n && forall i :: 0 <= i < n ==> r.value[i] == a.manifest.entries[i].name)
    {
      hide ReadEntry;
      var entries := a.manifest.entries;
      var verified: seq<(string, Bytes)> := [];
      for i := 0 to |entries|
        invariant files == old(files) && |verified| == i
        invariant forall k :: 0 <= k < i ==> ReadEntry(c, a, entries[k]) == Ok(verified[k].1) && verified[k].0 == entries[k].name
      {
        var data := ReadEntry(c, a, entries[i]);
        if data.Err? {
          return Err(data.error);
        }
        verified := verified + [(entries[i].name, data.value)];
      }
      if budget == 0 {
        return Err(IoFailed);
      }
      var paths: seq<string> := [];
      for i := 0 to |verified|
        invariant |paths| == i && budget > i
        invariant forall k :: 0 <= k < i ==> paths[k] == entries[k].name
        invariant files == Written(c, a, old(files), i)
      {
        if budget == i + 1 {
          return Err(IoFailed);
        }
        files := files[verified[i].0 := verified[i].1];
        paths := paths + [verified[i].0];
      }
      r := Ok(paths);
    }
  }

  /** A later entry does not disturb an earlier one of another name. */
  lemma {:induction false} WrittenHolds(c: Codec, a: Archive, before: Directory, i: nat, n: nat)
    requires AllVerify(c, a) && i < n <= |a.manifest.entries|
    requires forall j :: i < j < n ==> a.manifest.entries[j].name != a.manifest.entries[i].name
    ensures var w := Written(c, a, before, n);
            a.manifest.entries[i].name in w && Ok(w[a.manifest.entries[i].name]) == ReadEntry(c, a, a.manifest.entries[i])
    decreases n
  {
    if i < n - 1 {
      WrittenHolds(c, a, before, i, n - 1);
    }
  }

  lemma {:induction false} WrittenElsewhere(c: Codec, a: Archive, before: Directory, n: nat, name: string)
    requires AllVerify(c, a) && n <= |a.manifest.entries|
    requires forall j :: 0 <= j < n ==> a.manifest.entries[j].name != name
    ensures var w := Written(c, a, before, n);
            (name in w <==> name in before) && (name in w ==> w[name] == before[name])
    decreases n
  {
    if n > 0 {
      WrittenElsewhere(c, a, before, n - 1, name);
    }
  }

  /** Build, append to any executable, parse and extract: the directory gains exactly the original files. */
  lemma InstallRoundTrip(c: Codec, prefix: Bytes, files: seq<File>, before: Directory)
    requires Faithful(c) && AllNamesValid(files) && NamesDistinct(files) && AllNonEmpty(files) && files != []
    requires |prefix + Assemble(c, files)| <= U64_MAX
    requires forall i :: 0 <= i < |files| ==> |files[i].data| <= U64_MAX
    ensures var r := Parsed(c, prefix + Assemble(c, files));
            && r.Ok? && |r.value.manifest.entries| == |files| && AllVerify(c, r.value)
            && var after := Written(c, r.value, before, |files|);
               && (forall i :: 0 <= i < |files| ==> files[i].name in after && after[files[i].name] == files[i].data)
               && (forall name :: !NameTaken(files, name) ==>
                     (name in after <==> name in before) && (name in after ==> after[name] == before[name]))
  {
    hide ValidName, WriterError, AllNamesValid, Parsed, Assemble, ReadEntry, Blobs;
    var data := prefix + Assemble(c, files);
    WriterAcceptsIff(files);
    ParseAssembled(c, prefix, files);
    var a := Parsed(c, data).value;
    forall i | 0 <= i < |files|
      ensures ReadEntry(c, a, a.manifest.entries[i]) == Ok(files[i].data)
    {
      RoundTrip(c, prefix, files, i);
    }
    forall i | 0 <= i < |files|
      ensures files[i].name in Written(c, a, before, |files|) && Written(c, a, before, |files|)[files[i].name] == files[i].data
    {
      WrittenHolds(c, a, before, i, |files|);
    }
    forall name | !NameTaken(files, name)
      ensures var after := Written(c, a, before, |files|);
              (name in after <==> name in before) && (name in after ==> after[name] == before[name])
    {
      WrittenElsewhere(c, a, before, |files|, name);
    }
  }
}
