/**
 The identity of a build: the text hashed by `digestRecords` and
 `generationDigest` of `src/build-manifest.ts`.  Text is a sequence of bytes, one
 `char` per byte.  SHA-256 is any function to 64 hexadecimal digits that
 does not collide on the texts at hand.
 */
module BuildIdentity {
  import PathText
  import opened Wrappers

  type Text = string

  datatype FileRecord = FileRecord(path: Text, bytes: nat, sha256: Text)

  datatype Presence = Required | Absent
  datatype Artifacts = Artifacts(backend: seq<FileRecord>, ui: seq<FileRecord>)

  /** What a manifest's generation is computed from. */
  datatype Identity =
    Identity(inputs: Text, outputs: seq<FileRecord>, ui: Option<seq<FileRecord>>,
             presence: Option<Presence>, artifacts: Option<Artifacts>)

  const MAX_SAFE_INTEGER := 9007199254740991

  // ----- `isFileRecord`

  predicate IsHexDigest(t: Text) {
    |t| == 64 && forall c <- t :: '0' <= c <= '9' || 'a' <= c <= 'f'
  }

  predicate IsFileRecord(r: FileRecord) {
    && r.path != "" && '\\' !in r.path && r.path[0] != '/'
    && (forall part <- PathText.Segments(r.path) :: part != "" && part != "." && part != "..")
    && r.bytes <= MAX_SAFE_INTEGER
    && IsHexDigest(r.sha256)
  }

  predicate AreFileRecords(rs: seq<FileRecord>) {
    forall r <- rs :: IsFileRecord(r)
  }

  // ----- Decimal numbers

  function Digit(d: nat): char
    requires d < 10
  {
    '0' + d as char
  }

  function Decimal(n: nat): Text {
    if n < 10 then [Digit(n)] else Decimal(n / 10) + [Digit(n % 10)]
  }

  function ParseDecimal(t: Text): Option<nat> {
    if t == "" then Some(0)
    else
      var d := t[|t| - 1];
      match ParseDecimal(t[..|t| - 1])
      case None => None
      case Some(n) => if '0' <= d <= '9' then Some(10 * n + (d as int - '0' as int)) else None
  }

  lemma {:induction false} DecimalRoundTrip(n: nat)
    ensures ParseDecimal(Decimal(n)) == Some(n)
    ensures ':' !in Decimal(n)
  {
    if n >= 10 {
      DecimalRoundTrip(n / 10);
      assert Decimal(n)[..|Decimal(n)| - 1] == Decimal(n / 10);
    } else {
      assert Decimal(n)[..0] == "";
    }
  }

  // ----- `digestRecords`

  function EncodeRecord(r: FileRecord): Text {
    Decimal(|r.path|) + ":" + r.path + ":" + Decimal(r.bytes) + ":" + r.sha256 + "\n"
  }

  function EncodeRecords(rs: seq<FileRecord>): Text {
    if rs == [] then "" else EncodeRecord(rs[0]) + EncodeRecords(rs[1..])
  }

  /** Split at the first `:`. */
  function Cut(t: Text): Option<(Text, Text)> {
    if t == "" then None
    else if t[0] == ':' then Some(("", t[1..]))
    else match Cut(t[1..])
      case None => None
      case Some((before, after)) => Some(([t[0]] + before, after))
  }

  /** One record, and what follows it. */
  function DecodeRecord(t: Text): (r: Option<(FileRecord, Text)>)
    ensures r.Some? ==> |r.value.1| < |t|
  {
    match Cut(t)
    case None => None
    case Some((length, afterLength)) =>
      CutShortens(t);
      match ParseDecimal(length)
      case None => None
      case Some(n) =>
        if n >= |afterLength| || afterLength[n] != ':' then None
        else
          var afterPath := afterLength[n + 1..];
          match Cut(afterPath)
          case None => None
          case Some((size, afterSize)) =>
            CutShortens(afterPath);
            match ParseDecimal(size)
            case None => None
            case Some(bytes) =>
              if |afterSize| < 65 || afterSize[64] != '\n' then None
              else Some((FileRecord(afterLength[..n], bytes, afterSize[..64]), afterSize[65..]))
  }

  function DecodeRecords(t: Text): Option<seq<FileRecord>>
    decreases |t|
  {
    if t == "" then Some([])
    else match DecodeRecord(t)
      case None => None
      case Some((r, rest)) =>
        match DecodeRecords(rest)
        case None => None
        case Some(rs) => Some([r] + rs)
  }

  lemma CutShortens(t: Text)
    ensures Cut(t).Some? ==> |Cut(t).value.1| < |t|
  {
  }

  lemma {:induction false} CutAtColon(a: Text, b: Text)
    requires ':' !in a
    ensures Cut(a + ":" + b) == Some((a, b))
  {
    if a == "" {
      assert a + ":" + b == ":" + b;
    } else {
      CutAtColon(a[1..], b);
      assert (a + ":" + b)[1..] == a[1..] + ":" + b;
      assert [a[0]] + a[1..] == a;
    }
  }

  lemma {:induction false} DecodeOne(r: FileRecord, rest: Text)
    requires IsFileRecord(r)
    ensures DecodeRecord(EncodeRecord(r) + rest) == Some((r, rest))
  {
    var afterSize := r.sha256 + "\n" + rest;
    var afterPath := Decimal(r.bytes) + ":" + afterSize;
    var afterLength := r.path + ":" + afterPath;
    assert EncodeRecord(r) + rest == Decimal(|r.path|) + ":" + afterLength;
    DecimalRoundTrip(|r.path|);
    DecimalRoundTrip(r.bytes);
    CutAtColon(Decimal(|r.path|), afterLength);
    assert afterLength[..|r.path|] == r.path && afterLength[|r.path| + 1..] == afterPath;
    CutAtColon(Decimal(r.bytes), afterSize);
    assert afterSize[..64] == r.sha256 && afterSize[65..] == rest;
  }

  /** Length prefixes make the encoding decodable, whatever bytes the paths contain. */
  lemma {:induction false} RecordsRoundTrip(rs: seq<FileRecord>)
    requires AreFileRecords(rs)
    ensures DecodeRecords(EncodeRecords(rs)) == Some(rs)
  {
    if rs != [] {
      DecodeOne(rs[0], EncodeRecords(rs[1..]));
      RecordsRoundTrip(rs[1..]);
      assert [rs[0]] + rs[1..] == rs;
    }
  }

  // ----- `generationDigest`

  ghost predicate IsHexHash(hash: Text -> Text) {
    forall t :: IsHexDigest(hash(t))
  }

  /** The hash tells the given texts apart. No hash tells all texts apart. */
  ghost predicate CollisionFree(hash: Text -> Text, texts: set<Text>) {
    IsHexHash(hash) && forall a, b | a in texts && b in texts :: hash(a) == hash(b) ==> a == b
  }

  /** The loop of `digestRecords`, feeding the hash record by record. */
  method FeedRecords(rs: seq<FileRecord>) returns (fed: Text)
    ensures fed == EncodeRecords(rs)
  {
    hide *;
    fed := "";
    assert fed == EncodeRecords(rs[..0]) by { EncodeNothing(rs); }
    for i := 0 to |rs|
      invariant fed == EncodeRecords(rs[..i])
    {
      EncodeOneMore(rs, i);
      fed := fed + EncodeRecord(rs[i]);
    }
    assert rs[..|rs|] == rs;
  }

  lemma EncodeNothing(rs: seq<FileRecord>)
    ensures EncodeRecords(rs[..0]) == ""
  {
  }

  lemma {:induction false} EncodeOneMore(rs: seq<FileRecord>, i: nat)
    requires i < |rs|
    ensures EncodeRecords(rs[..i + 1]) == EncodeRecords(rs[..i]) + EncodeRecord(rs[i])
  {
    if i == 0 {
      assert rs[..1][1..] == [];
    } else {
      EncodeOneMore(rs[1..], i - 1);
      assert rs[..i + 1][1..] == rs[1..][..i] && rs[..i][1..] == rs[1..][..i - 1];
    }
  }

  function DigestRecords(rs: seq<FileRecord>, hash: Text -> Text): Text {
    hash(EncodeRecords(rs))
  }

  function UiPart(ui: Option<seq<FileRecord>>, hash: Text -> Text): Text {
    if ui.Some? then "\nui:" + DigestRecords(ui.value, hash) else ""
  }

  function PresencePart(presence: Option<Presence>): Text {
    match presence
    case None => ""
    case Some(Required) => "\nui-presence:required"
    case Some(Absent) => "\nui-presence:absent"
  }

  function ArtifactsPart(artifacts: Option<Artifacts>, hash: Text -> Text): Text {
    if artifacts.Some?
    then "\nartifacts:" + DigestRecords(artifacts.value.backend, hash) + ":" + DigestRecords(artifacts.value.ui, hash)
    else ""
  }

  function GenerationText(m: Identity, hash: Text -> Text): Text {
    m.inputs + "\n" + DigestRecords(m.outputs, hash)
    + (UiPart(m.ui, hash) + (PresencePart(m.presence) + ArtifactsPart(m.artifacts, hash)))
  }

  function GenerationDigest(m: Identity, hash: Text -> Text): Text {
    hash(GenerationText(m, hash))
  }

  /** Every text hashed for the generation of `m`. */
  function HashedTexts(m: Identity, hash: Text -> Text): set<Text> {
    {GenerationText(m, hash), EncodeRecords(m.outputs)}
    + (if m.ui.Some? then {EncodeRecords(m.ui.value)} else {})
    + (if m.artifacts.Some? then {EncodeRecords(m.artifacts.value.backend), EncodeRecords(m.artifacts.value.ui)}
       else {})
  }

  predicate IsIdentity(m: Identity) {
    && IsHexDigest(m.inputs) && AreFileRecords(m.outputs)
    && (m.ui.Some? ==> AreFileRecords(m.ui.value))
    && (m.artifacts.Some? ==> AreFileRecords(m.artifacts.value.backend) && AreFileRecords(m.artifacts.value.ui))
  }

  lemma {:induction false} SameDigestSameRecords(a: seq<FileRecord>, b: seq<FileRecord>, hash: Text -> Text)
    requires CollisionFree(hash, {EncodeRecords(a), EncodeRecords(b)}) && AreFileRecords(a) && AreFileRecords(b)
    requires DigestRecords(a, hash) == DigestRecords(b, hash)
    ensures a == b
  {
    RecordsRoundTrip(a);
    RecordsRoundTrip(b);
  }

  lemma {:induction false} SplitEqual(a: Text, b: Text, c: Text, d: Text)
    requires a + b == c + d && |a| == |c|
    ensures a == c && b == d
  {
    assert a == (a + b)[..|a|] && c == (c + d)[..|c|];
    assert b == (a + b)[|a|..] && d == (c + d)[|c|..];
  }

  /** What the text after the outputs says about the optional parts. */
  predicate ReadsUi(t: Text) {
    |t| > 3 && t[3] == ':'
  }

  function ReadPresence(t: Text): Option<Presence> {
    if |t| <= 13 || t[3] != '-' then None else if t[13] == 'r' then Some(Required) else Some(Absent)
  }

  lemma {:induction false} PresenceReadsBack(m: Identity, hash: Text -> Text)
    ensures ReadPresence(PresencePart(m.presence) + ArtifactsPart(m.artifacts, hash)) == m.presence
    ensures !ReadsUi(PresencePart(m.presence) + ArtifactsPart(m.artifacts, hash))
  {
    var t := PresencePart(m.presence) + ArtifactsPart(m.artifacts, hash);
    if m.presence.None? && m.artifacts.Some? {
      assert t[3] == "\nartifacts:"[3];
    }
  }

  lemma {:induction false} UiReadsBack(m: Identity, hash: Text -> Text)
    requires IsHexHash(hash)
    ensures |UiPart(m.ui, hash)| == if m.ui.Some? then 68 else 0
    ensures ReadsUi(UiPart(m.ui, hash) + (PresencePart(m.presence) + ArtifactsPart(m.artifacts, hash))) <==> m.ui.Some?
  {
    PresenceReadsBack(m, hash);
    if m.ui.Some? {
      assert UiPart(m.ui, hash)[3] == "\nui:"[3];
    } else {
      var tail := PresencePart(m.presence) + ArtifactsPart(m.artifacts, hash);
      assert UiPart(m.ui, hash) + tail == tail;
    }
  }

  lemma {:induction false} SameOptionalUi(a: Option<seq<FileRecord>>, b: Option<seq<FileRecord>>, hash: Text -> Text)
    requires a.Some? && b.Some? ==> CollisionFree(hash, {EncodeRecords(a.value), EncodeRecords(b.value)})
    requires IsHexHash(hash) && (a.Some? ==> AreFileRecords(a.value)) && (b.Some? ==> AreFileRecords(b.value))
    requires UiPart(a, hash) == UiPart(b, hash)
    ensures a == b
  {
    if a.Some? && b.Some? {
      SplitEqual("\nui:", DigestRecords(a.value, hash), "\nui:", DigestRecords(b.value, hash));
      SameDigestSameRecords(a.value, b.value, hash);
    }
  }

  lemma {:induction false} SameOptionalArtifacts(a: Option<Artifacts>, b: Option<Artifacts>, hash: Text -> Text)
    requires IsHexHash(hash)
    requires a.Some? && b.Some? ==>
               && CollisionFree(hash, {EncodeRecords(a.value.backend), EncodeRecords(b.value.backend)})
               && CollisionFree(hash, {EncodeRecords(a.value.ui), EncodeRecords(b.value.ui)})
    requires a.Some? ==> AreFileRecords(a.value.backend) && AreFileRecords(a.value.ui)
    requires b.Some? ==> AreFileRecords(b.value.backend) && AreFileRecords(b.value.ui)
    requires ArtifactsPart(a, hash) == ArtifactsPart(b, hash)
    ensures a == b
  {
    if a.Some? && b.Some? {
      var ab, au := DigestRecords(a.value.backend, hash), DigestRecords(a.value.ui, hash);
      var bb, bu := DigestRecords(b.value.backend, hash), DigestRecords(b.value.ui, hash);
      SplitEqual("\nartifacts:" + ab + ":", au, "\nartifacts:" + bb + ":", bu);
      SplitEqual("\nartifacts:" + ab, ":", "\nartifacts:" + bb, ":");
      SplitEqual("\nartifacts:", ab, "\nartifacts:", bb);
      SameDigestSameRecords(a.value.backend, b.value.backend, hash);
      SameDigestSameRecords(a.value.ui, b.value.ui, hash);
    }
  }

  /** Two manifests of one generation attest the same build: nothing the digest covers can be reinterpreted. */
  lemma {:induction false} GenerationIsInjective(a: Identity, b: Identity, hash: Text -> Text)
    requires CollisionFree(hash, HashedTexts(a, hash) + HashedTexts(b, hash)) && IsIdentity(a) && IsIdentity(b)
    requires GenerationDigest(a, hash) == GenerationDigest(b, hash)
    ensures a == b
  {
    hide UiPart, PresencePart, ArtifactsPart, EncodeRecords, ReadPresence, ReadsUi;
    var ta, tb := ArtifactsPart(a.artifacts, hash), ArtifactsPart(b.artifacts, hash);
    var ra, rb := PresencePart(a.presence) + ta, PresencePart(b.presence) + tb;
    var ua, ub := UiPart(a.ui, hash), UiPart(b.ui, hash);
    SplitEqual(a.inputs + "\n" + DigestRecords(a.outputs, hash), ua + ra,
               b.inputs + "\n" + DigestRecords(b.outputs, hash), ub + rb);
    SplitEqual(a.inputs + "\n", DigestRecords(a.outputs, hash), b.inputs + "\n", DigestRecords(b.outputs, hash));
    SplitEqual(a.inputs, "\n", b.inputs, "\n");
    SameDigestSameRecords(a.outputs, b.outputs, hash);
    UiReadsBack(a, hash);
    UiReadsBack(b, hash);
    SplitEqual(ua, ra, ub, rb);
    SameOptionalUi(a.ui, b.ui, hash);
    PresenceReadsBack(a, hash);
    PresenceReadsBack(b, hash);
    SplitEqual(PresencePart(a.presence), ta, PresencePart(b.presence), tb);
    SameOptionalArtifacts(a.artifacts, b.artifacts, hash);
  }
}
