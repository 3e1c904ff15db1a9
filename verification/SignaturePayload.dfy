/**
 The bytes that the signature of a plugin package covers: a fixed prefix, then one length-prefixed chunk for
 the manifest and one for each of three documents that the package has. Decoding gets all of it back.
 */
module SignaturePayload {
  import opened Unicode
  import opened Wrappers

  const PREFIX := "meerkit-plugin-signature-v1"
  const MANIFEST_NAME := "meerkit-plugin.yaml"

  /** The documents, in the order in which they are signed. */
  const SIGNED_DOCUMENTS: seq<string> := ["README.md", "README.en.md", "LICENSE"]

  function Ascii(s: string): Bytes { seq(|s|, i requires 0 <= i < |s| => (if s[i] < 128 as char then s[i] as int else 0) as Byte) }

  /** The low bytes of a number, the highest first: what does not fit is cut off. */
  function BigEndian(n: nat, width: nat): (b: Bytes)
    ensures |b| == width
  {
    if width == 0 then [] else BigEndian(n / 256, width - 1) + [n % 256]
  }

  function Chunk(name: string, data: Bytes): Bytes {
    BigEndian(|name|, 4) + Ascii(name) + BigEndian(|data|, 8) + data
  }

  function Documents(names: seq<string>, files: map<string, Bytes>): Bytes {
    if names == [] then []
    else (if names[0] in files then Chunk(names[0], files[names[0]]) else []) + Documents(names[1..], files)
  }

  function Payload(manifest: Bytes, files: map<string, Bytes>): Bytes {
    Ascii(PREFIX) + Chunk(MANIFEST_NAME, manifest) + Documents(SIGNED_DOCUMENTS, files)
  }

  class Buffer {
    var contents: Bytes

    constructor ()
      ensures contents == []
    {
      contents := [];
    }

    method Write(data: Bytes)
      modifies this
      ensures contents == old(contents) + data
    {
      contents := contents + data;
    }
  }

  method WriteSignatureChunk(payload: Buffer, name: string, data: Bytes)
    modifies payload
    ensures payload.contents == old(payload.contents) + Chunk(name, data)
  {
    payload.Write(BigEndian(|name|, 4));
    payload.Write(Ascii(name));
    payload.Write(BigEndian(|data|, 8));
    payload.Write(data);
  }

  method WritePayload(manifest: Bytes, files: map<string, Bytes>) returns (payload: Bytes)
    ensures payload == Payload(manifest, files)
  {
    hide Chunk;
    hide Ascii;
    hide Documents;
    var buffer := new Buffer();
    buffer.Write(Ascii(PREFIX));
    WriteSignatureChunk(buffer, MANIFEST_NAME, manifest);
    WriteDocuments(buffer, SIGNED_DOCUMENTS, files);
    return buffer.contents;
  }

  /** The loop over the signed documents. */
  method WriteDocuments(payload: Buffer, names: seq<string>, files: map<string, Bytes>)
    modifies payload
    ensures payload.contents == old(payload.contents) + Documents(names, files)
  {
    hide Chunk;
    for i := 0 to |names|
      invariant payload.contents + Documents(names[i..], files) == old(payload.contents) + Documents(names, files)
    {
      assert names[i..][1..] == names[i + 1..];
      if names[i] in files {
        WriteSignatureChunk(payload, names[i], files[names[i]]);
      }
    }
  }

  // ----- Numbers -----

  function Number(b: Bytes): nat {
    if b == [] then 0 else Number(b[..|b| - 1]) * 256 + b[|b| - 1]
  }

  function Power(width: nat): nat {
    if width == 0 then 1 else 256 * Power(width - 1)
  }

  lemma {:induction false} NumberBack(n: nat, width: nat)
    requires n < Power(width)
    ensures Number(BigEndian(n, width)) == n
  {
    if width > 0 {
      NumberBack(n / 256, width - 1);
    }
  }

  lemma {:induction false} BigEndianBack(b: Bytes)
    ensures BigEndian(Number(b), |b|) == b
  {
    if b != [] {
      BigEndianBack(b[..|b| - 1]);
    }
  }

  lemma Powers()
    ensures Power(4) == 0x1_0000_0000 && Power(8) == 0x1_0000_0000_0000_0000
  {
    assert Power(4) == 256 * (256 * (256 * 256)) by {
      assert Power(2) == 256 * 256;
      assert Power(3) == 256 * Power(2);
    }
    assert Power(6) == 256 * (256 * Power(4)) by {
      assert Power(5) == 256 * Power(4);
    }
    assert Power(8) == 256 * Power(7) && Power(7) == 256 * Power(6);
  }

  // ----- Decoding -----

  datatype Split = Split(name: Bytes, data: Bytes, rest: Bytes)

  function SplitChunk(b: Bytes): Option<Split> {
    if |b| < 4 then None
    else
      var n := Number(b[..4]);
      if |b| < 4 + n + 8 then None
      else
        var m := Number(b[4 + n..4 + n + 8]);
        if |b| < 4 + n + 8 + m then None
        else Some(Split(b[4..4 + n], b[4 + n + 8..4 + n + 8 + m], b[4 + n + 8 + m..]))
  }

  function DecodeDocuments(names: seq<string>, b: Bytes): Option<map<string, Bytes>> {
    if b == [] then Some(map[])
    else if names == [] then None
    else
      var split := SplitChunk(b);
      if split.None? then None
      else if split.value.name != Ascii(names[0]) then DecodeDocuments(names[1..], b)
      else
        var others := DecodeDocuments(names[1..], split.value.rest);
        if others.None? then None else Some(others.value[names[0] := split.value.data])
  }

  datatype Content = Content(manifest: Bytes, documents: map<string, Bytes>)

  function Decode(b: Bytes): Option<Content> {
    var prefix := Ascii(PREFIX);
    if !(prefix <= b) then None
    else
      var split := SplitChunk(b[|prefix|..]);
      if split.None? || split.value.name != Ascii(MANIFEST_NAME) then None
      else
        var documents := DecodeDocuments(SIGNED_DOCUMENTS, split.value.rest);
        if documents.None? then None else Some(Content(split.value.data, documents.value))
  }

  /** The documents that are signed, of all the files of a package. */
  function Signed(files: map<string, Bytes>): map<string, Bytes> {
    map name | name in files && name in SIGNED_DOCUMENTS :: files[name]
  }

  /** Lengths that fit their fields. */
  ghost predicate Fits(data: Bytes) { |data| < 0x1_0000_0000_0000_0000 }

  ghost predicate AllFit(files: map<string, Bytes>) { forall name :: name in files ==> Fits(files[name]) }

  lemma ChunkBack(name: string, data: Bytes, rest: Bytes)
    requires |name| < 0x1_0000_0000 && Fits(data)
    ensures SplitChunk(Chunk(name, data) + rest) == Some(Split(Ascii(name), data, rest))
  {
    hide BigEndian;
    hide Number;
    Powers();
    NumberBack(|name|, 4);
    NumberBack(|data|, 8);
    var b, n, m := Chunk(name, data) + rest, |name|, |data|;
    assert b[..4] == BigEndian(n, 4);
    assert b[4..4 + n] == Ascii(name);
    assert b[4 + n..4 + n + 8] == BigEndian(m, 8);
    assert b[4 + n + 8..4 + n + 8 + m] == data;
    assert b[4 + n + 8 + m..] == rest;
  }

  lemma ChunkFound(b: Bytes, name: string)
    requires SplitChunk(b).Some? && SplitChunk(b).value.name == Ascii(name)
    ensures b == Chunk(name, SplitChunk(b).value.data) + SplitChunk(b).value.rest
  {
    hide BigEndian;
    hide Number;
    var n := Number(b[..4]);
    assert |Ascii(name)| == |name| == n;
    BigEndianBack(b[..4]);
    BigEndianBack(b[4 + n..4 + n + 8]);
  }

  ghost predicate NamesApart(names: seq<string>) {
    && (forall i :: 0 <= i < |names| ==> |names[i]| < 0x1_0000_0000)
    && (forall i, j :: 0 <= i < j < |names| ==> |names[i]| != |names[j]|)
  }

  function Listed(names: seq<string>, files: map<string, Bytes>): map<string, Bytes> {
    map name | name in files && name in names :: files[name]
  }

  /** The documents start with the chunk of a listed file, unless no file is listed. */
  lemma {:induction false} FirstDocument(names: seq<string>, files: map<string, Bytes>)
    requires NamesApart(names) && AllFit(files)
    ensures Documents(names, files) == [] ==> Listed(names, files) == map[]
    ensures Documents(names, files) != [] ==>
      var split := SplitChunk(Documents(names, files));
      split.Some? && exists i :: 0 <= i < |names| && |split.value.name| == |names[i]|
  {
    if names != [] {
      if names[0] in files {
        ChunkBack(names[0], files[names[0]], Documents(names[1..], files));
      } else {
        FirstDocument(names[1..], files);
        assert Documents(names, files) == Documents(names[1..], files);
        assert forall i :: 1 <= i < |names| ==> names[i] == names[1..][i - 1];
      }
    }
  }

  lemma {:induction false} DocumentsBack(names: seq<string>, files: map<string, Bytes>)
    requires NamesApart(names) && AllFit(files)
    ensures DecodeDocuments(names, Documents(names, files)) == Some(Listed(names, files))
  {
    hide Chunk;
    hide SplitChunk;
    hide NamesApart;
    hide AllFit;
    if names != [] {
      OthersApart(names);
      DocumentsBack(names[1..], files);
      ListedFirst(names, files);
      if names[0] in files {
        PresentDocument(names, files);
      } else {
        AbsentDocument(names, files);
      }
    }
  }

  lemma OthersApart(names: seq<string>)
    requires NamesApart(names) && names != []
    ensures NamesApart(names[1..]) && |names[0]| < 0x1_0000_0000
    ensures forall i :: 0 <= i < |names[1..]| ==> |names[1..][i]| != |names[0]|
  {
  }

  lemma ListedFirst(names: seq<string>, files: map<string, Bytes>)
    requires names != []
    ensures Listed(names, files) ==
      if names[0] in files then Listed(names[1..], files)[names[0] := files[names[0]]] else Listed(names[1..], files)
  {
    assert names == [names[0]] + names[1..];
  }

  lemma PresentDocument(names: seq<string>, files: map<string, Bytes>)
    requires names != [] && names[0] in files && |names[0]| < 0x1_0000_0000 && AllFit(files)
    requires DecodeDocuments(names[1..], Documents(names[1..], files)) == Some(Listed(names[1..], files))
    ensures DecodeDocuments(names, Documents(names, files)) == Some(Listed(names[1..], files)[names[0] := files[names[0]]])
  {
    hide SplitChunk;
    ChunkBack(names[0], files[names[0]], Documents(names[1..], files));
  }

  lemma AbsentDocument(names: seq<string>, files: map<string, Bytes>)
    requires names != [] && names[0] !in files && NamesApart(names) && AllFit(files)
    requires DecodeDocuments(names[1..], Documents(names[1..], files)) == Some(Listed(names[1..], files))
    ensures DecodeDocuments(names, Documents(names, files)) == Some(Listed(names[1..], files))
  {
    hide SplitChunk;
    hide Chunk;
    OthersApart(names);
    FirstDocument(names[1..], files);
    assert Documents(names, files) == Documents(names[1..], files);
  }

  lemma SignedNamesApart()
    ensures NamesApart(SIGNED_DOCUMENTS)
  {
    assert |"README.md"| == 9 && |"README.en.md"| == 12 && |"LICENSE"| == 7;
  }

  /** Decoding a payload gives back the manifest, and the presence and the bytes of every signed document. */
  lemma PayloadRoundTrip(manifest: Bytes, files: map<string, Bytes>)
    requires Fits(manifest) && AllFit(files)
    ensures Decode(Payload(manifest, files)) == Some(Content(manifest, Signed(files)))
  {
    var payload, prefix := Payload(manifest, files), Ascii(PREFIX);
    var documents := Documents(SIGNED_DOCUMENTS, files);
    assert payload == prefix + (Chunk(MANIFEST_NAME, manifest) + documents);
    assert payload[|prefix|..] == Chunk(MANIFEST_NAME, manifest) + documents;
    ChunkBack(MANIFEST_NAME, manifest, documents);
    SignedNamesApart();
    DocumentsBack(SIGNED_DOCUMENTS, files);
  }

  lemma {:induction false} DocumentsFound(names: seq<string>, b: Bytes)
    requires NamesApart(names) && DecodeDocuments(names, b).Some?
    ensures DecodeDocuments(names, b).value.Keys <= set i | 0 <= i < |names| :: names[i]
    ensures Documents(names, DecodeDocuments(names, b).value) == b
  {
    hide SplitChunk, Chunk;
    var files := DecodeDocuments(names, b).value;
    if b == [] {
      NoDocuments(names);
    } else {
      var split, others := SplitChunk(b).value, names[1..];
      OthersApart(names);
      assert forall i :: 1 <= i < |names| ==> names[i] == others[i - 1];
      if split.name == Ascii(names[0]) {
        ChunkFound(b, names[0]);
        DocumentsFound(others, split.rest);
        FirstFound(names, split.data, DecodeDocuments(others, split.rest).value);
      } else {
        DocumentsFound(others, b);
        assert names[0] !in files;
      }
    }
  }

  lemma FirstFound(names: seq<string>, data: Bytes, rest: map<string, Bytes>)
    requires names != [] && forall i :: 0 <= i < |names[1..]| ==> |names[1..][i]| != |names[0]|
    ensures Documents(names, rest[names[0] := data]) == Chunk(names[0], data) + Documents(names[1..], rest)
  {
    hide Chunk;
    OtherFiles(names[1..], rest[names[0] := data], rest);
  }

  lemma {:induction false} NoDocuments(names: seq<string>)
    ensures Documents(names, map[]) == []
  {
    if names != [] {
      NoDocuments(names[1..]);
    }
  }

  /** Only the files under the listed names count. */
  lemma {:induction false} OtherFiles(names: seq<string>, files: map<string, Bytes>, others: map<string, Bytes>)
    requires forall i :: 0 <= i < |names| ==>
      (names[i] in files <==> names[i] in others) && (names[i] in files ==> files[names[i]] == others[names[i]])
    ensures Documents(names, files) == Documents(names, others)
  {
    if names != [] {
      OtherFiles(names[1..], files, others);
    }
  }

  /** The encoding is canonical: bytes that decode are the payload of what they decode to. */
  lemma DecodedIsPayload(b: Bytes)
    requires Decode(b).Some?
    ensures Payload(Decode(b).value.manifest, Decode(b).value.documents) == b
  {
    var prefix := Ascii(PREFIX);
    SignedNamesApart();
    ChunkFound(b[|prefix|..], MANIFEST_NAME);
    DocumentsFound(SIGNED_DOCUMENTS, SplitChunk(b[|prefix|..]).value.rest);
    assert b == prefix + b[|prefix|..];
  }

  /** Payloads are equal exactly if the signed content is: files under other names never matter. */
  lemma PayloadsEqualIff(manifest: Bytes, files: map<string, Bytes>, manifest': Bytes, files': map<string, Bytes>)
    requires Fits(manifest) && AllFit(files) && Fits(manifest') && AllFit(files')
    ensures Payload(manifest, files) == Payload(manifest', files') <==> manifest == manifest' && Signed(files) == Signed(files')
  {
    PayloadRoundTrip(manifest, files);
    PayloadRoundTrip(manifest', files');
    if manifest == manifest' && Signed(files) == Signed(files') {
      SignedCounts(files);
      SignedCounts(files');
    }
  }

  lemma SignedCounts(files: map<string, Bytes>)
    ensures Documents(SIGNED_DOCUMENTS, files) == Documents(SIGNED_DOCUMENTS, Signed(files))
  {
    OtherFiles(SIGNED_DOCUMENTS, files, Signed(files));
  }

  ghost predicate AgreeOn(name: string, files: map<string, Bytes>, files': map<string, Bytes>) {
    (name in files <==> name in files') && (name in files ==> files[name] == files'[name])
  }

  /** So the signature covers the manifest, the two readme files and the license, there or missing. */
  lemma PayloadCovers(manifest: Bytes, files: map<string, Bytes>, manifest': Bytes, files': map<string, Bytes>)
    requires Fits(manifest) && AllFit(files) && Fits(manifest') && AllFit(files')
    ensures Payload(manifest, files) == Payload(manifest', files') <==>
      && manifest == manifest'
      && AgreeOn("README.md", files, files') && AgreeOn("README.en.md", files, files') && AgreeOn("LICENSE", files, files')
  {
    hide Payload;
    PayloadsEqualIff(manifest, files, manifest', files');
    var names := ["README.md", "README.en.md", "LICENSE"];
    assert names == SIGNED_DOCUMENTS;
    assert names[0] in names && names[1] in names && names[2] in names;
    if Signed(files) == Signed(files') {
      forall name | name in names
        ensures AgreeOn(name, files, files')
      {
        assert name in files <==> name in Signed(files);
        assert name in files' <==> name in Signed(files');
        assert name in files ==> files[name] == Signed(files)[name] == Signed(files')[name] == files'[name];
      }
    }
    if AgreeOn(names[0], files, files') && AgreeOn(names[1], files, files') && AgreeOn(names[2], files, files') {
      assert forall name :: name in names ==> AgreeOn(name, files, files');
      assert Signed(files) == Signed(files');
    }
  }

  /** The bytes in front: the prefix, the length of the manifest's name in four bytes, the name, the length
      of the manifest in eight, the highest byte first, and the manifest. */
  lemma PayloadStarts(manifest: Bytes, files: map<string, Bytes>)
    requires Fits(manifest)
    ensures var payload, m := Payload(manifest, files), |manifest|;
      && |payload| >= 58 + m
      && (forall i :: 0 <= i < 27 ==> payload[i] as int == "meerkit-plugin-signature-v1"[i] as int)
      && payload[27..31] == [0, 0, 0, 19]
      && (forall i :: 0 <= i < 19 ==> payload[31 + i] as int == "meerkit-plugin.yaml"[i] as int)
      && Number(payload[50..58]) == m
      && payload[58..58 + m] == manifest
  {
    hide BigEndian, Number;
    var payload, m := Payload(manifest, files), |manifest|;
    var documents := Documents(SIGNED_DOCUMENTS, files);
    var front, name, size := Ascii(PREFIX), Ascii(MANIFEST_NAME), BigEndian(m, 8);
    assert |PREFIX| == 27 && |MANIFEST_NAME| == 19;
    assert payload == front + (BigEndian(19, 4) + (name + (size + (manifest + documents))));
    Nineteen();
    Powers();
    NumberBack(m, 8);
    assert payload[..27] == front && payload[27..31] == BigEndian(19, 4) && payload[31..50] == name;
    assert payload[50..58] == size && payload[58..58 + m] == manifest;
    forall i | 0 <= i < 27
      ensures payload[i] as int == "meerkit-plugin-signature-v1"[i] as int
    {
      assert payload[i] == front[i];
      PlainAscii(PREFIX, i);
    }
    forall i | 0 <= i < 19
      ensures payload[31 + i] as int == "meerkit-plugin.yaml"[i] as int
    {
      assert payload[31..50][i] == name[i];
      PlainAscii(MANIFEST_NAME, i);
    }
  }

  lemma PlainAscii(s: string, i: nat)
    requires i < |s| && (s == PREFIX || s == MANIFEST_NAME)
    ensures s[i] < 128 as char
  {
  }

  lemma Nineteen()
    ensures BigEndian(19, 4) == [0, 0, 0, 19]
  {
    assert BigEndian(0, 1) == [0] && BigEndian(0, 2) == [0, 0] && BigEndian(0, 3) == [0, 0, 0];
  }

  // ----- The two ends -----

  /** The importer's side: the documents that are in the unpacked package. */
  method CollectDocuments(stage: map<string, Bytes>) returns (documents: map<string, Bytes>)
    ensures documents == Signed(stage)
  {
    documents := map[];
    for i := 0 to |SIGNED_DOCUMENTS|
      invariant documents == Listed(SIGNED_DOCUMENTS[..i], stage)
    {
      var name := SIGNED_DOCUMENTS[i];
      assert SIGNED_DOCUMENTS[..i + 1] == SIGNED_DOCUMENTS[..i] + [name];
      if name !in stage {
        continue;
      }
      documents := documents[name := stage[name]];
    }
    assert SIGNED_DOCUMENTS[..|SIGNED_DOCUMENTS|] == SIGNED_DOCUMENTS;
  }

  /** The packer signs the payload over all files of the package so far, the importer checks the payload
      over the documents it finds, beside the signature itself: they are the same bytes. */
  lemma PackerAndImporterAgree(manifest: Bytes, files: map<string, Bytes>, signature: Bytes)
    ensures var stage := files["meerkit-plugin.sig" := signature];
      Payload(manifest, files) == Payload(manifest, Signed(stage))
  {
    var stage := files["meerkit-plugin.sig" := signature];
    assert |"meerkit-plugin.sig"| == 18 && |"README.md"| == 9 && |"README.en.md"| == 12 && |"LICENSE"| == 7;
    assert Signed(stage) == Signed(files);
    SignedCounts(files);
  }
}
