/** Audit manifests: printing one and reading it back. */
module Manifests {
  import opened Types
  import opened JsonText

  datatype Format = Jsonl | PlainText
  datatype FileEntry = FileEntry(fileName: string, recordCount: nat, byteSize: nat, contentChecksum: nat, chainChecksum: nat)
  datatype Signature = Signature(algorithm: string, keyId: string, valueHex: string)
  datatype Manifest = Manifest(schemaVersion: nat, creator: string, createdAt: string, format: Format, files: seq<FileEntry>,
                               chainChecksum: nat, signature: Option<Signature>)

  datatype Key =
    | RecordKey | SchemaKey | FormatKey | CreatorKey | CreatedAtKey | ChainKey | AlgorithmKey
    | KeyIdKey | SignatureKey | FileNameKey | RecordsKey | SizeKey | ContentKey | AuditKey

  function Name(k: Key): string {
    match k
    case RecordKey => "record"
    case SchemaKey => "schema_version"
    case FormatKey => "format"
    case CreatorKey => "creator"
    case CreatedAtKey => "created_at"
    case ChainKey => "chain_checksum"
    case AlgorithmKey => "signature_algorithm"
    case KeyIdKey => "signature_key_id"
    case SignatureKey => "signature"
    case FileNameKey => "file_name"
    case RecordsKey => "record_count"
    case SizeKey => "byte_size"
    case ContentKey => "content_checksum"
    case AuditKey => "audit_chain_checksum"
  }

  /** Length and first letter tell the keys apart. */
  function Shape(k: Key): (nat, char) {
    match k
    case RecordKey => (6, 'r')
    case SchemaKey => (14, 's')
    case FormatKey => (6, 'f')
    case CreatorKey => (7, 'c')
    case CreatedAtKey => (10, 'c')
    case ChainKey => (14, 'c')
    case AlgorithmKey => (19, 's')
    case KeyIdKey => (16, 's')
    case SignatureKey => (9, 's')
    case FileNameKey => (9, 'f')
    case RecordsKey => (12, 'r')
    case SizeKey => (9, 'b')
    case ContentKey => (16, 'c')
    case AuditKey => (20, 'a')
  }

  lemma NameHasShape(k: Key)
    ensures Name(k) != [] && Shape(k) == (|Name(k)|, Name(k)[0]) && PlainKey(Name(k))
  {
    if Shape(k).0 < 12 {
      ShortNameIsPlain(k);
    } else if Shape(k).0 < 16 {
      MiddleNameIsPlain(k);
    } else if Shape(k).0 < 19 {
      LongNameIsPlain(k);
    } else {
      LongestNameIsPlain(k);
    }
  }

  lemma ShortNameIsPlain(k: Key)
    requires Shape(k).0 < 12
    ensures PlainKey(Name(k))
  {
  }

  lemma MiddleNameIsPlain(k: Key)
    requires 12 <= Shape(k).0 < 16
    ensures PlainKey(Name(k))
  {
  }

  lemma LongNameIsPlain(k: Key)
    requires 16 <= Shape(k).0 < 19
    ensures PlainKey(Name(k))
  {
  }

  lemma LongestNameIsPlain(k: Key)
    requires 19 <= Shape(k).0
    ensures PlainKey(Name(k))
  {
  }

  lemma NamesDiffer(j: Key, k: Key)
    requires j != k
    ensures Name(j) != Name(k)
  {
    NameHasShape(j);
    NameHasShape(k);
    assert Shape(j) != Shape(k);
  }

  function Keyed(k: Key, v: Value): Field {
    Field(Name(k), v)
  }

  function Lookup(line: string, k: Key): Option<string> {
    RawValue(line, Name(k))
  }

  const BLANK := Manifest(1, "asterion", "", Jsonl, [], 0, None)
  const MAX_U32 := 4294967295
  const MAX_U64 := 18446744073709551615

  function FormatName(f: Format): string {
    match f case Jsonl => "jsonl" case PlainText => "text"
  }

  // ----- printing

  function SignatureFields(s: Option<Signature>): seq<Field> {
    match s
    case None => []
    case Some(g) => [Keyed(AlgorithmKey, Text(g.algorithm)), Keyed(KeyIdKey, Text(g.keyId)),
                     Keyed(SignatureKey, Text(g.valueHex))]
  }

  function HeaderFields(m: Manifest): seq<Field> {
    [Keyed(RecordKey, Text("manifest")), Keyed(SchemaKey, Num(m.schemaVersion)), Keyed(FormatKey, Text(FormatName(m.format))),
     Keyed(CreatorKey, Text(m.creator)), Keyed(CreatedAtKey, Text(m.createdAt)), Keyed(ChainKey, Num(m.chainChecksum))]
    + SignatureFields(m.signature)
  }

  function FileFields(e: FileEntry): seq<Field> {
    [Keyed(RecordKey, Text("file")), Keyed(FileNameKey, Text(e.fileName)), Keyed(RecordsKey, Num(e.recordCount)),
     Keyed(SizeKey, Num(e.byteSize)), Keyed(ContentKey, Num(e.contentChecksum)),
     Keyed(AuditKey, Num(e.chainChecksum))]
  }

  function FileLines(files: seq<FileEntry>): string {
    if files == [] then [] else Line(FileFields(files[0])) + ("\n" + FileLines(files[1..]))
  }

  function Serialized(m: Manifest): string {
    Line(HeaderFields(m)) + ("\n" + FileLines(m.files))
  }

  // ----- reading

  datatype Problem =
    | MissingRecord | DuplicateHeader | MalformedHeader | InvalidFormat | FileBeforeHeader | MalformedFile | UnknownRecord | MissingHeader
  datatype Progress = Progress(manifest: Manifest, headerSeen: bool, lineNumber: nat)
  datatype Parsed = Good(manifest: Manifest) | Bad(lineNumber: nat, problem: Problem)
  datatype LineResult = Continue(next: Progress) | Stop(lineNumber: nat, problem: Problem)

  const NOTHING_READ := Progress(BLANK, false, 0)

  function Integral(token: Option<string>, max: nat): Option<nat> {
    match token
    case None => None
    case Some(s) =>
      match Number(s)
      case None => None
      case Some(n) => if n <= max then Some(n) else None
  }

  function FormatOf(token: Option<string>): Option<Format> {
    if token == Some("jsonl") then Some(Jsonl) else if token == Some("text") then Some(PlainText) else None
  }

  function UnescapedOr(token: Option<string>, otherwise: string): string {
    match token case None => otherwise case Some(s) => Unescape(s)
  }

  // The raw texts of the keys each kind of line may have.
  datatype Header = Header(version: Option<string>, chain: Option<string>, format: Option<string>, creator: Option<string>,
                           createdAt: Option<string>, algorithm: Option<string>, keyId: Option<string>, signature: Option<string>)
  datatype Entry = Entry(name: Option<string>, records: Option<string>, size: Option<string>, content: Option<string>, chain: Option<string>)

  function HeaderOf(line: string): Header {
    Header(Lookup(line, SchemaKey), Lookup(line, ChainKey), Lookup(line, FormatKey), Lookup(line, CreatorKey),
           Lookup(line, CreatedAtKey), Lookup(line, AlgorithmKey), Lookup(line, KeyIdKey), Lookup(line, SignatureKey))
  }

  function EntryOf(line: string): Entry {
    Entry(Lookup(line, FileNameKey), Lookup(line, RecordsKey), Lookup(line, SizeKey), Lookup(line, ContentKey), Lookup(line, AuditKey))
  }

  function SignatureOf(h: Header): Option<Signature> {
    if h.signature == None then None
    else Some(Signature(UnescapedOr(h.algorithm, ""), UnescapedOr(h.keyId, ""), Unescape(h.signature.value)))
  }

  function ParseHeader(p: Progress, h: Header): LineResult {
    var version, chain, format := Integral(h.version, MAX_U32), Integral(h.chain, MAX_U64), FormatOf(h.format);
    if p.headerSeen then Stop(p.lineNumber, DuplicateHeader)
    else if version == None || chain == None then Stop(p.lineNumber, MalformedHeader)
    else if format == None then Stop(p.lineNumber, InvalidFormat)
    else
      Continue(p.(headerSeen := true,
                  manifest := p.manifest.(schemaVersion := version.value, chainChecksum := chain.value, format := format.value,
                                          creator := UnescapedOr(h.creator, p.manifest.creator),
                                          createdAt := UnescapedOr(h.createdAt, p.manifest.createdAt),
                                          signature := SignatureOf(h))))
  }

  function ParseFile(p: Progress, t: Entry): LineResult {
    var records, size := Integral(t.records, MAX_U64), Integral(t.size, MAX_U64);
    var content, chain := Integral(t.content, MAX_U64), Integral(t.chain, MAX_U64);
    if !p.headerSeen then Stop(p.lineNumber, FileBeforeHeader)
    else if t.name == None || records == None || size == None || content == None || chain == None then Stop(p.lineNumber, MalformedFile)
    else
      Continue(p.(manifest := p.manifest.(files := p.manifest.files
                  + [FileEntry(Unescape(t.name.value), records.value, size.value, content.value, chain.value)])))
  }

  function ParseRecord(p: Progress, record: Option<string>, h: Header, t: Entry): LineResult {
    if record == None then Stop(p.lineNumber, MissingRecord)
    else if record.value == "manifest" then ParseHeader(p, h)
    else if record.value == "file" then ParseFile(p, t)
    else Stop(p.lineNumber, UnknownRecord)
  }

  /** Everything a line says, under every key the parser knows. */
  datatype LineFields = LineFields(record: Option<string>, header: Header, entry: Entry)

  function FieldsOf(line: string): LineFields {
    LineFields(Lookup(line, RecordKey), HeaderOf(line), EntryOf(line))
  }

  function ParseFields(p: Progress, f: LineFields): LineResult {
    ParseRecord(p.(lineNumber := p.lineNumber + 1), f.record, f.header, f.entry)
  }

  function ParseLine(p: Progress, line: string): LineResult {
    ParseFields(p, FieldsOf(line))
  }

  function FirstBreak(text: string, i: nat): (n: nat)
    requires i <= |text|
    ensures i <= n <= |text|
    decreases |text| - i
  {
    if i < |text| && text[i] != '\n' then FirstBreak(text, i + 1) else i
  }

  function Stripped(line: string): string {
    if line != [] && line[|line| - 1] == '\r' then line[..|line| - 1] else line
  }

  function Ended(p: Progress): Parsed {
    if p.headerSeen then Good(p.manifest) else Bad(0, MissingHeader)
  }

  function ParseFrom(text: string, p: Progress): Parsed
    decreases |text|
  {
    var n := FirstBreak(text, 0);
    var line := Stripped(text[..n]);
    if line == [] then
      if n == |text| then Ended(p) else ParseFrom(text[n + 1..], p)
    else
      match ParseLine(p, line)
      case Stop(lineNumber, problem) => Bad(lineNumber, problem)
      case Continue(next) => if n == |text| then Ended(next) else ParseFrom(text[n + 1..], next)
  }

  function Parse(text: string): Parsed {
    ParseFrom(text, NOTHING_READ)
  }

  // ----- reading back what was printed

  predicate FieldNamed(fs: seq<Field>, i: nat, key: string) {
    i < |fs| && fs[i].key == key && forall j :: 0 <= j < i ==> fs[j].key != key
  }

  lemma {:induction false} FieldRawAt(fs: seq<Field>, i: nat, key: string)
    requires FieldNamed(fs, i, key)
    ensures FieldRaw(fs, key) == Some(RawText(fs[i].value))
    decreases i
  {
    if i > 0 {
      FieldRawAt(fs[1..], i - 1, key);
    }
  }

  lemma {:induction false} FieldRawNone(fs: seq<Field>, key: string)
    requires forall j :: 0 <= j < |fs| ==> fs[j].key != key
    ensures FieldRaw(fs, key) == None
  {
    if fs != [] {
      FieldRawNone(fs[1..], key);
    }
  }

  predicate Labelled(fs: seq<Field>, ks: seq<Key>) {
    && |fs| == |ks| && (forall i :: 0 <= i < |fs| ==> fs[i].key == Name(ks[i]))
    && forall i, j :: 0 <= j < i < |ks| ==> ks[j] != ks[i]
  }

  lemma LabelledPlain(fs: seq<Field>, ks: seq<Key>)
    requires Labelled(fs, ks)
    ensures PlainKeys(fs)
  {
    forall i | 0 <= i < |fs| ensures PlainKey(fs[i].key) {
      NameHasShape(ks[i]);
    }
  }

  /** Looking up one of a line's keys gives that field's raw text. */
  lemma ReadBack(fs: seq<Field>, ks: seq<Key>, i: nat)
    requires Labelled(fs, ks) && i < |ks|
    ensures Lookup(Line(fs), ks[i]) == Some(RawText(fs[i].value))
  {
    LabelledPlain(fs, ks);
    NameHasShape(ks[i]);
    forall j | 0 <= j < i ensures fs[j].key != fs[i].key {
      NamesDiffer(ks[j], ks[i]);
    }
    LookupIs(fs, Name(ks[i]));
    FieldRawAt(fs, i, Name(ks[i]));
  }

  /** Looking up a key that is not on the line gives nothing. */
  lemma ReadsNothing(fs: seq<Field>, ks: seq<Key>, k: Key)
    requires Labelled(fs, ks) && k !in ks
    ensures Lookup(Line(fs), k) == None
  {
    LabelledPlain(fs, ks);
    NameHasShape(k);
    forall j | 0 <= j < |fs| ensures fs[j].key != Name(k) {
      NamesDiffer(ks[j], k);
    }
    LookupIs(fs, Name(k));
    FieldRawNone(fs, Name(k));
  }

  predicate InRange(m: Manifest) {
    && m.schemaVersion <= MAX_U32 && m.chainChecksum <= MAX_U64
    && forall i :: 0 <= i < |m.files| ==> EntryInRange(m.files[i])
  }

  predicate EntryInRange(e: FileEntry) {
    e.recordCount <= MAX_U64 && e.byteSize <= MAX_U64 && e.contentChecksum <= MAX_U64 && e.chainChecksum <= MAX_U64
  }

  lemma TextBack(s: string)
    ensures Unescape(RawText(Text(s))) == s
  {
    UnescapeEscape(s);
  }

  lemma NumberBack(n: nat, max: nat)
    requires n <= max
    ensures Integral(Some(RawText(Num(n))), max) == Some(n)
  {
    NumberOfDecimal(n);
  }

  // ----- a file line

  const FILE_KEYS := [RecordKey, FileNameKey, RecordsKey, SizeKey, ContentKey, AuditKey]

  lemma FileLookups(e: FileEntry)
    ensures var line := Line(FileFields(e));
      && Lookup(line, RecordKey) == Some(RawText(Text("file")))
      && Lookup(line, FileNameKey) == Some(RawText(Text(e.fileName)))
      && Lookup(line, RecordsKey) == Some(RawText(Num(e.recordCount)))
      && Lookup(line, SizeKey) == Some(RawText(Num(e.byteSize)))
      && Lookup(line, ContentKey) == Some(RawText(Num(e.contentChecksum)))
      && Lookup(line, AuditKey) == Some(RawText(Num(e.chainChecksum)))
  {
    var fs, ks := FileFields(e), FILE_KEYS;
    assert Labelled(fs, ks);
    forall i | 0 <= i < 6 ensures Lookup(Line(fs), ks[i]) == Some(RawText(fs[i].value)) {
      ReadBack(fs, ks, i);
    }
    assert ks[0] == RecordKey && ks[1] == FileNameKey && ks[2] == RecordsKey && ks[3] == SizeKey && ks[4] == ContentKey && ks[5] == AuditKey;
  }

  lemma EntryFromTokens(p: Progress, t: Entry, e: FileEntry)
    requires p.headerSeen && t.name != None && Unescape(t.name.value) == e.fileName
    requires Integral(t.records, MAX_U64) == Some(e.recordCount) && Integral(t.size, MAX_U64) == Some(e.byteSize)
    requires Integral(t.content, MAX_U64) == Some(e.contentChecksum)
    requires Integral(t.chain, MAX_U64) == Some(e.chainChecksum)
    ensures ParseFile(p, t) == Continue(p.(manifest := p.manifest.(files := p.manifest.files + [e])))
  {
  }

  lemma EntryBack(p: Progress, e: FileEntry)
    requires p.headerSeen && EntryInRange(e)
    ensures ParseFile(p, EntryOf(Line(FileFields(e)))) == Continue(p.(manifest := p.manifest.(files := p.manifest.files + [e])))
  {
    FileLookups(e);
    TextBack(e.fileName);
    NumberBack(e.recordCount, MAX_U64);
    NumberBack(e.byteSize, MAX_U64);
    NumberBack(e.contentChecksum, MAX_U64);
    NumberBack(e.chainChecksum, MAX_U64);
    EntryFromTokens(p, EntryOf(Line(FileFields(e))), e);
  }

  lemma RecordIsFile(p: Progress, h: Header, t: Entry)
    ensures ParseRecord(p, Some("file"), h, t) == ParseFile(p, t)
  {
    assert "file"[0] != "manifest"[0];
  }

  /** A record line names its kind first, in letters that need no escape. */
  lemma RecordWord(fs: seq<Field>, ks: seq<Key>, word: string)
    requires Labelled(fs, ks) && ks != [] && ks[0] == RecordKey && fs[0].value == Text(word)
    requires forall i :: 0 <= i < |word| ==> Bare(word[i])
    ensures Lookup(Line(fs), RecordKey) == Some(word)
  {
    ReadBack(fs, ks, 0);
    EscapeBare(word);
  }

  lemma FileLabelled(e: FileEntry)
    ensures Labelled(FileFields(e), FILE_KEYS) && FileFields(e)[0].value == Text("file")
  {
  }

  lemma FileReadsBack(p: Progress, e: FileEntry)
    requires p.headerSeen && EntryInRange(e)
    ensures ParseLine(p, Line(FileFields(e))) == Continue(WithFile(p, e))
  {
    var line, counted := Line(FileFields(e)), p.(lineNumber := p.lineNumber + 1);
    FileLabelled(e);
    RecordWord(FileFields(e), FILE_KEYS, "file");
    EntryBack(counted, e);
    RecordIsFile(counted, HeaderOf(line), EntryOf(line));
  }

  function WithFile(p: Progress, e: FileEntry): Progress {
    p.(lineNumber := p.lineNumber + 1, manifest := p.manifest.(files := p.manifest.files + [e]))
  }

  // ----- the header line

  const HEADER_KEYS := [RecordKey, SchemaKey, FormatKey, CreatorKey, CreatedAtKey, ChainKey]
  const SIGNATURE_KEYS := [AlgorithmKey, KeyIdKey, SignatureKey]

  function KeysOf(m: Manifest): seq<Key> {
    HEADER_KEYS + if m.signature == None then [] else SIGNATURE_KEYS
  }

  lemma HeaderKeysDiffer(m: Manifest)
    ensures forall i, j :: 0 <= j < i < |KeysOf(m)| ==> KeysOf(m)[j] != KeysOf(m)[i]
  {
    var ks := KeysOf(m);
    forall i, j | 0 <= j < i < |ks| ensures ks[j] != ks[i] {
      assert j < 6 ==> ks[j] == HEADER_KEYS[j];
      assert i < 6 ==> ks[i] == HEADER_KEYS[i];
      assert j >= 6 ==> ks[j] == SIGNATURE_KEYS[j - 6];
      assert i >= 6 ==> ks[i] == SIGNATURE_KEYS[i - 6];
    }
  }

  lemma HeaderLabelled(m: Manifest)
    ensures Labelled(HeaderFields(m), KeysOf(m))
  {
    var fs, ks := HeaderFields(m), KeysOf(m);
    forall i | 0 <= i < |fs| ensures fs[i].key == Name(ks[i]) {
      if i >= 6 {
        assert fs[i] == SignatureFields(m.signature)[i - 6] && ks[i] == SIGNATURE_KEYS[i - 6];
      } else {
        assert ks[i] == HEADER_KEYS[i];
      }
    }
    HeaderKeysDiffer(m);
  }

  lemma HeaderLookups(m: Manifest)
    ensures var line := Line(HeaderFields(m));
      && Lookup(line, RecordKey) == Some(RawText(Text("manifest")))
      && Lookup(line, SchemaKey) == Some(RawText(Num(m.schemaVersion)))
      && Lookup(line, FormatKey) == Some(RawText(Text(FormatName(m.format))))
      && Lookup(line, CreatorKey) == Some(RawText(Text(m.creator)))
      && Lookup(line, CreatedAtKey) == Some(RawText(Text(m.createdAt)))
      && Lookup(line, ChainKey) == Some(RawText(Num(m.chainChecksum)))
  {
    var fs, ks := HeaderFields(m), KeysOf(m);
    HeaderLabelled(m);
    forall i | 0 <= i < 6 ensures ks[i] == HEADER_KEYS[i] && Lookup(Line(fs), ks[i]) == Some(RawText(fs[i].value)) {
      ReadBack(fs, ks, i);
    }
    assert HEADER_KEYS[0] == RecordKey && HEADER_KEYS[1] == SchemaKey && HEADER_KEYS[2] == FormatKey;
    assert HEADER_KEYS[3] == CreatorKey && HEADER_KEYS[4] == CreatedAtKey && HEADER_KEYS[5] == ChainKey;
  }

  /** A signature is read exactly when one was printed, even from strings that spell its key. */
  lemma SignatureReadsBack(m: Manifest)
    ensures SignatureOf(HeaderOf(Line(HeaderFields(m)))) == m.signature
  {
    var fs, ks := HeaderFields(m), KeysOf(m);
    HeaderLabelled(m);
    match m.signature
    case None =>
      assert ks == HEADER_KEYS;
      ReadsNothing(fs, ks, SignatureKey);
    case Some(g) =>
      assert ks[6] == AlgorithmKey && ks[7] == KeyIdKey && ks[8] == SignatureKey;
      ReadBack(fs, ks, 6);
      ReadBack(fs, ks, 7);
      ReadBack(fs, ks, 8);
      TextBack(g.algorithm);
      TextBack(g.keyId);
      TextBack(g.valueHex);
  }

  lemma FormatReadsBack(f: Format)
    ensures FormatOf(Some(RawText(Text(FormatName(f))))) == Some(f)
  {
    EscapeBare(FormatName(f));
    assert "text" != "jsonl";
  }

  function Headed(m: Manifest): Progress {
    Progress(m.(files := []), true, 1)
  }

  lemma HeaderFromTokens(h: Header, m: Manifest)
    requires Integral(h.version, MAX_U32) == Some(m.schemaVersion)
    requires Integral(h.chain, MAX_U64) == Some(m.chainChecksum)
    requires FormatOf(h.format) == Some(m.format) && SignatureOf(h) == m.signature
    requires h.creator != None && Unescape(h.creator.value) == m.creator && h.createdAt != None
    requires Unescape(h.createdAt.value) == m.createdAt
    ensures ParseHeader(NOTHING_READ.(lineNumber := 1), h) == Continue(Headed(m))
  {
  }

  lemma HeaderBack(m: Manifest)
    requires InRange(m)
    ensures ParseHeader(NOTHING_READ.(lineNumber := 1), HeaderOf(Line(HeaderFields(m)))) == Continue(Headed(m))
  {
    HeaderLookups(m);
    SignatureReadsBack(m);
    FormatReadsBack(m.format);
    TextBack(m.creator);
    TextBack(m.createdAt);
    NumberBack(m.schemaVersion, MAX_U32);
    NumberBack(m.chainChecksum, MAX_U64);
    HeaderFromTokens(HeaderOf(Line(HeaderFields(m))), m);
  }

  lemma RecordIsHeader(p: Progress, h: Header, t: Entry)
    ensures ParseRecord(p, Some("manifest"), h, t) == ParseHeader(p, h)
  {
  }

  lemma HeaderRecord(m: Manifest)
    ensures Lookup(Line(HeaderFields(m)), RecordKey) == Some("manifest")
  {
    HeaderLabelled(m);
    assert KeysOf(m)[0] == HEADER_KEYS[0] == RecordKey;
    RecordWord(HeaderFields(m), KeysOf(m), "manifest");
  }

  lemma HeaderReadsBack(m: Manifest)
    requires InRange(m)
    ensures ParseLine(NOTHING_READ, Line(HeaderFields(m))) == Continue(Headed(m))
  {
    var line, counted := Line(HeaderFields(m)), NOTHING_READ.(lineNumber := 1);
    HeaderRecord(m);
    HeaderBack(m);
    RecordIsHeader(counted, HeaderOf(line), EntryOf(line));
  }

  // ----- lines in a text

  predicate OneLine(s: string) {
    forall i :: 0 <= i < |s| ==> s[i] != '\n'
  }

  lemma ValueIsOneLine(v: Value)
    ensures OneLine(ValueText(v))
  {
    match v
    case Text(s) => EscapedQuotes(s);
    case Num(n) =>
  }

  lemma {:induction false} JoinedIsOneLine(fs: seq<Field>)
    requires PlainKeys(fs)
    ensures OneLine(Joined(fs))
    decreases |fs|
  {
    if fs != [] {
      ValueIsOneLine(fs[0].value);
      assert PlainKey(fs[0].key);
      assert OneLine(FieldText(fs[0]));
      JoinedIsOneLine(fs[1..]);
    }
  }

  lemma {:induction false} BreakAt(text: string, i: nat, n: nat)
    requires i <= n < |text| && text[n] == '\n' && forall j :: i <= j < n ==> text[j] != '\n'
    ensures FirstBreak(text, i) == n
    decreases n - i
  {
    if i < n {
      BreakAt(text, i + 1, n);
    }
  }

  function GoOn(r: LineResult, rest: string): Parsed {
    if r.Stop? then Bad(r.lineNumber, r.problem) else ParseFrom(rest, r.next)
  }

  lemma BreakStep(text: string, n: nat, line: string, p: Progress)
    requires n < |text| && FirstBreak(text, 0) == n && Stripped(text[..n]) == line != []
    ensures ParseFrom(text, p) == GoOn(ParseLine(p, line), text[n + 1..])
  {
  }

  /** A printed line followed by a line break is read as that line, and reading goes on after it. */
  lemma LineIsRead(fs: seq<Field>, rest: string, p: Progress)
    requires PlainKeys(fs) && fs != []
    ensures ParseFrom(Line(fs) + ("\n" + rest), p) == GoOn(ParseLine(p, Line(fs)), rest)
  {
    JoinedIsOneLine(fs);
    TextIsRead(Line(fs), rest, p);
  }

  lemma TextIsRead(line: string, rest: string, p: Progress)
    requires line != [] && OneLine(line) && line[|line| - 1] == '}'
    ensures ParseFrom(line + ("\n" + rest), p) == GoOn(ParseLine(p, line), rest)
  {
    var text := line + ("\n" + rest);
    BreakAt(text, 0, |line|);
    assert text[..|line|] == line && text[|line| + 1..] == rest;
    BreakStep(text, |line|, line, p);
  }

  lemma FileStep(files: seq<FileEntry>, p: Progress)
    requires files != [] && p.headerSeen && EntryInRange(files[0])
    ensures ParseFrom(FileLines(files), p) == ParseFrom(FileLines(files[1..]), WithFile(p, files[0]))
  {
    LabelledPlain(FileFields(files[0]), FILE_KEYS);
    LineIsRead(FileFields(files[0]), FileLines(files[1..]), p);
    FileReadsBack(p, files[0]);
  }

  lemma Rejoined<T>(a: seq<T>, b: seq<T>)
    requires b != []
    ensures a + [b[0]] + b[1..] == a + b
  {
  }

  lemma NothingLeft(p: Progress)
    requires p.headerSeen
    ensures ParseFrom(FileLines([]), p) == Good(p.manifest.(files := p.manifest.files + []))
  {
    assert p.manifest.files + [] == p.manifest.files;
  }

  lemma {:induction false} FilesReadBack(files: seq<FileEntry>, p: Progress)
    requires p.headerSeen && forall i :: 0 <= i < |files| ==> EntryInRange(files[i])
    ensures ParseFrom(FileLines(files), p) == Good(p.manifest.(files := p.manifest.files + files))
    decreases |files|
  {
    if files == [] {
      NothingLeft(p);
    } else {
      FileStep(files, p);
      FilesReadBack(files[1..], WithFile(p, files[0]));
      Rejoined(p.manifest.files, files);
    }
  }

  lemma HeaderIsRead(m: Manifest, rest: string)
    requires InRange(m)
    ensures ParseFrom(Line(HeaderFields(m)) + ("\n" + rest), NOTHING_READ) == ParseFrom(rest, Headed(m))
  {
    HeaderLabelled(m);
    LabelledPlain(HeaderFields(m), KeysOf(m));
    LineIsRead(HeaderFields(m), rest, NOTHING_READ);
    HeaderReadsBack(m);
  }

  lemma HeadedWhole(m: Manifest)
    ensures Headed(m).headerSeen && Headed(m).manifest.(files := Headed(m).manifest.files + m.files) == m
  {
    assert [] + m.files == m.files;
  }

  /** Reading a printed manifest gives it back exactly, whatever its strings contain. */
  lemma RoundTrip(m: Manifest)
    requires InRange(m)
    ensures Parse(Serialized(m)) == Good(m)
  {
    HeaderIsRead(m, FileLines(m.files));
    HeadedWhole(m);
    FilesReadBack(m.files, Headed(m));
  }
}
