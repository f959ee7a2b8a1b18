/** Which texts are manifests: a header line and then file lines, blank lines aside, and what is wrong
    with the first line that does not fit. */
module ManifestShape {
  import opened Types
  import opened JsonText
  import opened Manifests

  /** What each line of a text that is not blank says under the known keys. */
  function Lines(text: string): seq<LineFields>
    decreases |text|
  {
    var n := FirstBreak(text, 0);
    var line := Stripped(text[..n]);
    (if line == [] then [] else [FieldsOf(line)]) + if n == |text| then [] else Lines(text[n + 1..])
  }

  // ----- what fits

  /** A number is written there, and not too large a one. */
  predicate IsNumber(token: Option<string>, max: nat) {
    token != None && Number(token.value) != None && Number(token.value).value <= max
  }

  function NumberIn(token: Option<string>): nat
    requires IsNumber(token, MAX_U64)
  {
    Number(token.value).value
  }

  predicate HeaderNumbers(h: Header) {
    IsNumber(h.version, MAX_U32) && IsNumber(h.chain, MAX_U64)
  }

  predicate KnownFormat(h: Header) {
    h.format == Some("jsonl") || h.format == Some("text")
  }

  predicate FileFieldsThere(t: Entry) {
    && t.name != None && IsNumber(t.records, MAX_U64) && IsNumber(t.size, MAX_U64)
    && IsNumber(t.content, MAX_U64) && IsNumber(t.chain, MAX_U64)
  }

  predicate SaysManifest(f: LineFields) {
    f.record == Some("manifest")
  }

  predicate SaysFile(f: LineFields) {
    f.record == Some("file")
  }

  predicate IsHeader(f: LineFields) {
    SaysManifest(f) && HeaderNumbers(f.header) && KnownFormat(f.header)
  }

  predicate IsFile(f: LineFields) {
    SaysFile(f) && FileFieldsThere(f.entry)
  }

  /** The first line is a header and every other one a file. */
  predicate Fits(fs: seq<LineFields>, i: nat)
    requires i < |fs|
  {
    if i == 0 then IsHeader(fs[i]) else IsFile(fs[i])
  }

  predicate AllFit(fs: seq<LineFields>, n: nat)
    requires n <= |fs|
  {
    forall i :: 0 <= i < n ==> Fits(fs, i)
  }

  /** What is wrong with a line, the first one or a later one. */
  predicate Wrong(f: LineFields, first: bool, problem: Problem) {
    match problem
    case MissingRecord => f.record == None
    case DuplicateHeader => SaysManifest(f) && !first
    case MalformedHeader => SaysManifest(f) && first && !HeaderNumbers(f.header)
    case InvalidFormat => SaysManifest(f) && first && HeaderNumbers(f.header) && !KnownFormat(f.header)
    case FileBeforeHeader => SaysFile(f) && first
    case MalformedFile => SaysFile(f) && !first && !FileFieldsThere(f.entry)
    case UnknownRecord => f.record != None && !SaysManifest(f) && !SaysFile(f)
    case MissingHeader => false
  }

  // ----- what is read

  predicate TextOr(token: Option<string>, otherwise: string, s: string) {
    s == if token == None then otherwise else Unescape(token.value)
  }

  predicate HeaderGives(h: Header, m: Manifest)
    requires HeaderNumbers(h)
  {
    && m.schemaVersion == NumberIn(h.version) && m.chainChecksum == NumberIn(h.chain)
    && m.format == (if h.format == Some("jsonl") then Jsonl else PlainText)
    && TextOr(h.creator, "asterion", m.creator) && TextOr(h.createdAt, "", m.createdAt)
    && (m.signature == None <==> h.signature == None)
    && (m.signature != None ==> TextOr(h.signature, "", m.signature.value.valueHex)
                                && TextOr(h.algorithm, "", m.signature.value.algorithm) && TextOr(h.keyId, "", m.signature.value.keyId))
  }

  predicate FileGives(t: Entry, e: FileEntry)
    requires FileFieldsThere(t)
  {
    && e.fileName == Unescape(t.name.value) && e.recordCount == NumberIn(t.records) && e.byteSize == NumberIn(t.size)
    && e.contentChecksum == NumberIn(t.content) && e.chainChecksum == NumberIn(t.chain)
  }

  /** The manifest holds what its lines say, the files in order. */
  ghost predicate Holds(fs: seq<LineFields>, n: nat, m: Manifest)
    requires 0 < n <= |fs| && AllFit(fs, n)
  {
    assert Fits(fs, 0);
    && HeaderGives(fs[0].header, m) && |m.files| == n - 1
    && forall i :: 0 < i < n ==> Fits(fs, i) && FileGives(fs[i].entry, m.files[i - 1])
  }

  /** What the first `n` lines, all of them fitting, have given so far. */
  ghost predicate ReadSoFar(fs: seq<LineFields>, n: nat, p: Progress)
    requires n <= |fs| && AllFit(fs, n)
  {
    p.lineNumber == n && p.headerSeen == (n > 0) && if n == 0 then p == NOTHING_READ else Holds(fs, n, p.manifest)
  }

  // ----- reading a text is reading its lines

  function ReadLines(fs: seq<LineFields>, p: Progress): Parsed {
    if fs == [] then Ended(p)
    else
      match ParseFields(p, fs[0])
      case Stop(lineNumber, problem) => Bad(lineNumber, problem)
      case Continue(next) => ReadLines(fs[1..], next)
  }

  lemma {:induction false} TextIsLines(text: string, p: Progress)
    ensures ParseFrom(text, p) == ReadLines(Lines(text), p)
    decreases |text|
  {
    var n := FirstBreak(text, 0);
    if Stripped(text[..n]) == [] {
      BlankLine(text, p);
      if n < |text| { TextIsLines(text[n + 1..], p); }
    } else {
      var f := SaidLine(text, p);
      ReadFirst(f, if n == |text| then [] else Lines(text[n + 1..]), p);
      if n < |text| && ParseFields(p, f).Continue? {
        TextIsLines(text[n + 1..], ParseFields(p, f).next);
      }
    }
  }

  lemma BlankLine(text: string, p: Progress)
    requires Stripped(text[..FirstBreak(text, 0)]) == []
    ensures var n := FirstBreak(text, 0);
      && Lines(text) == (if n == |text| then [] else Lines(text[n + 1..]))
      && ParseFrom(text, p) == if n == |text| then Ended(p) else ParseFrom(text[n + 1..], p)
  {
  }

  /** What the first line says, and where reading goes from there. */
  lemma SaidLine(text: string, p: Progress) returns (f: LineFields)
    requires Stripped(text[..FirstBreak(text, 0)]) != []
    ensures var n := FirstBreak(text, 0);
      && Lines(text) == [f] + (if n == |text| then [] else Lines(text[n + 1..]))
      && ParseFrom(text, p) ==
           if ParseFields(p, f).Stop? then Bad(ParseFields(p, f).lineNumber, ParseFields(p, f).problem)
           else if n == |text| then Ended(ParseFields(p, f).next)
           else ParseFrom(text[n + 1..], ParseFields(p, f).next)
  {
    f := FieldsOf(Stripped(text[..FirstBreak(text, 0)]));
  }

  lemma ReadFirst(f: LineFields, rest: seq<LineFields>, p: Progress)
    ensures ReadLines([f] + rest, p) ==
      if ParseFields(p, f).Stop? then Bad(ParseFields(p, f).lineNumber, ParseFields(p, f).problem)
      else ReadLines(rest, ParseFields(p, f).next)
  {
    assert ([f] + rest)[1..] == rest;
  }

  lemma HeaderLine(f: LineFields)
    requires IsHeader(f)
    ensures ParseFields(NOTHING_READ, f).Continue?
    ensures var next := ParseFields(NOTHING_READ, f).next;
      HeaderGives(f.header, next.manifest) && next.manifest.files == [] && next.headerSeen && next.lineNumber == 1
  {
  }

  lemma FileLine(p: Progress, f: LineFields)
    requires IsFile(f) && p.headerSeen
    ensures ParseFields(p, f).Continue?
    ensures var next := ParseFields(p, f).next;
      && next.headerSeen && next.lineNumber == p.lineNumber + 1 && |next.manifest.files| == |p.manifest.files| + 1
      && FileGives(f.entry, next.manifest.files[|p.manifest.files|])
      && next.manifest == p.manifest.(files := p.manifest.files + [next.manifest.files[|p.manifest.files|]])
  {
  }

  lemma FilesKept(fs: seq<LineFields>, n: nat, p: Progress, next: Progress)
    requires 0 < n < |fs| && AllFit(fs, n + 1) && Holds(fs, n, p.manifest) && |next.manifest.files| == n
    requires next.manifest == p.manifest.(files := p.manifest.files + [next.manifest.files[n - 1]])
    requires Fits(fs, n) && FileGives(fs[n].entry, next.manifest.files[n - 1])
    ensures Holds(fs, n + 1, next.manifest)
  {
    forall i | 0 < i <= n ensures Fits(fs, i) && FileGives(fs[i].entry, next.manifest.files[i - 1]) {
      assert Fits(fs, i);
    }
  }

  lemma OneMoreLine(fs: seq<LineFields>, n: nat, p: Progress)
    requires n < |fs| && AllFit(fs, n + 1) && ReadSoFar(fs, n, p)
    ensures ParseFields(p, fs[n]).Continue? && ReadSoFar(fs, n + 1, ParseFields(p, fs[n]).next)
  {
    assert Fits(fs, n);
    if n == 0 {
      HeaderLine(fs[0]);
    } else {
      FileLine(p, fs[n]);
      var next := ParseFields(p, fs[n]).next;
      FilesKept(fs, n, p, next);
    }
  }

  lemma WrongLine(p: Progress, f: LineFields, first: bool)
    requires p.headerSeen == !first && !(if first then IsHeader(f) else IsFile(f))
    ensures ParseFields(p, f).Stop? && ParseFields(p, f).lineNumber == p.lineNumber + 1
    ensures Wrong(f, first, ParseFields(p, f).problem)
  {
  }

  lemma {:induction false} FittingLines(fs: seq<LineFields>, n: nat) returns (p: Progress)
    requires n <= |fs| && AllFit(fs, n)
    ensures ReadSoFar(fs, n, p) && ReadLines(fs, NOTHING_READ) == ReadLines(fs[n..], p)
  {
    if n == 0 {
      p := NOTHING_READ;
      assert fs[0..] == fs;
    } else {
      var q := FittingLines(fs, n - 1);
      OneMoreLine(fs, n - 1, q);
      p := ParseFields(q, fs[n - 1]).next;
      assert fs[n - 1..][0] == fs[n - 1] && fs[n - 1..][1..] == fs[n..];
    }
  }

  lemma AllLines(text: string)
    requires AllFit(Lines(text), |Lines(text)|)
    ensures var fs := Lines(text);
      if fs == [] then Parse(text) == Bad(0, MissingHeader) else Parse(text).Good? && Holds(fs, |fs|, Parse(text).manifest)
  {
    var fs := Lines(text);
    TextIsLines(text, NOTHING_READ);
    var p := FittingLines(fs, |fs|);
    assert fs[|fs|..] == [];
  }

  /** Reading stops at the first line that does not fit, with its number among the lines that are not
      blank, and says what is wrong with it. */
  lemma FirstWrong(text: string, n: nat)
    requires n < |Lines(text)| && AllFit(Lines(text), n) && !Fits(Lines(text), n)
    ensures Parse(text).Bad? && Parse(text).lineNumber == n + 1 && Wrong(Lines(text)[n], n == 0, Parse(text).problem)
  {
    var fs := Lines(text);
    TextIsLines(text, NOTHING_READ);
    var p := FittingLines(fs, n);
    WrongLine(p, fs[n], n == 0);
    assert fs[n..][0] == fs[n];
  }

  lemma FirstUnfit(fs: seq<LineFields>) returns (n: nat)
    requires !AllFit(fs, |fs|)
    ensures n < |fs| && !Fits(fs, n) && AllFit(fs, n)
  {
    n := 0;
    while n < |fs| && Fits(fs, n)
      invariant n <= |fs| && AllFit(fs, n)
      decreases |fs| - n
    {
      n := n + 1;
    }
  }

  /** A text is a manifest exactly when its lines are one header and then files; the manifest then holds
      what the header says and the files in order. */
  lemma ReadIff(text: string)
    ensures var fs := Lines(text);
      && (Parse(text).Good? <==> fs != [] && AllFit(fs, |fs|))
      && (Parse(text).Good? ==> Holds(fs, |fs|, Parse(text).manifest))
  {
    var fs := Lines(text);
    if AllFit(fs, |fs|) {
      AllLines(text);
    } else {
      var n := FirstUnfit(fs);
      FirstWrong(text, n);
    }
  }
}
