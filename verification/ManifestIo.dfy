/** The cursor-driven code that prints and reads audit manifests, proved against the functions. */
module ManifestIo {
  import opened Types
  import opened JsonText
  import opened Manifests

  lemma {:induction false} EscapeAppend(s: string, c: char)
    ensures Escape(s + [c]) == Escape(s) + EscapeChar(c)
    decreases |s|
  {
    if s == [] {
      assert Escape([c]) == EscapeChar(c) + [];
    } else {
      EscapeAppend(s[1..], c);
      assert (s + [c])[1..] == s[1..] + [c];
    }
  }

  method WriteChar(output: string, c: char) returns (written: string)
    ensures written == output + EscapeChar(c)
  {
    match c
    case '\\' => written := output + "\\\\";
    case '"' => written := output + "\\\"";
    case '\n' => written := output + "\\n";
    case '\r' => written := output + "\\r";
    case '\t' => written := output + "\\t";
    case ch => written := output + [ch];
  }

  /** Writing one more character of an open string. */
  lemma OneMoreChar(output: string, quote: string, value: string, i: nat)
    requires i < |value|
    ensures output + (quote + Escape(value[..i])) + EscapeChar(value[i]) == output + (quote + Escape(value[..i + 1]))
  {
    EscapeAppend(value[..i], value[i]);
    assert value[..i + 1] == value[..i] + [value[i]];
  }

  method WriteJsonString(output: string, value: string) returns (written: string)
    ensures written == output + ValueText(Text(value))
  {
    written := output + "\"";
    for i := 0 to |value|
      invariant written == output + ("\"" + Escape(value[..i]))
    {
      OneMoreChar(output, "\"", value, i);
      written := WriteChar(written, value[i]);
    }
    assert value[..|value|] == value;
    written := written + "\"";
  }

  method JsonUnescape(value: string) returns (output: string)
    ensures output == Unescape(value)
  {
    output := "";
    var i := 0;
    while i < |value|
      invariant i <= |value| && output + Unescape(value[i..]) == Unescape(value)
    {
      var rest := value[i..];
      assert rest[1..] == value[i + 1..];
      if value[i] == '\\' && i + 1 < |value| {
        assert rest[2..] == value[i + 2..];
        output := output + [UnescapeChar(value[i + 1])];
        i := i + 2;
      } else {
        output := output + [value[i]];
        i := i + 1;
      }
    }
  }

  /** The text up to the closing quote. */
  method ReadQuoted(rest: string) returns (raw: Option<string>)
    requires rest != [] && rest[0] == '"'
    ensures raw == RawFrom(rest)
  {
    var end := 1;
    var escaped := false;
    while end < |rest|
      invariant 1 <= end <= |rest| && Closing(rest, end, escaped) == Closing(rest, 1, false)
    {
      var ch := rest[end];
      if !escaped && ch == '"' {
        return Some(rest[1..end]);
      }
      escaped := !escaped && ch == '\\';
      end := end + 1;
    }
    return None;
  }

  /** The text up to the next comma or brace. */
  method ReadBare(rest: string) returns (raw: string)
    ensures raw == rest[..Until(rest, 0)]
  {
    var end := 0;
    while end < |rest| && rest[end] != ',' && rest[end] != '}'
      invariant end <= |rest| && Until(rest, end) == Until(rest, 0)
    {
      end := end + 1;
    }
    return rest[..end];
  }

  /** The raw text after a quoted key: up to the closing quote of a string, or to the next comma or brace. */
  method JsonRawValue(line: string, key: string) returns (raw: Option<string>)
    ensures raw == RawValue(line, key)
  {
    var needle := "\"" + key + "\":";
    var place := Find(line, needle);
    if place == None {
      return None;
    }
    FoundFits(line, needle);
    var rest := line[place.value + |needle|..];
    if rest == [] {
      return None;
    }
    if rest[0] == '"' {
      raw := ReadQuoted(rest);
    } else {
      var bare := ReadBare(rest);
      raw := Some(bare);
    }
  }

  // ----- printing

  method WriteField(output: string, key: string, value: Value, first: bool) returns (written: string)
    ensures written == output + (Separator(first) + FieldText(Field(key, value)))
  {
    written := output + Separator(first) + "\"" + key + "\":";
    FieldRegroups(output, Separator(first), "\"", key, "\":", ValueText(value));
    written := WriteValue(written, value);
  }

  method WriteValue(output: string, value: Value) returns (written: string)
    ensures written == output + ValueText(value)
  {
    match value
    case Text(s) => written := WriteJsonString(output, s);
    case Num(n) => written := output + Decimal(n);
  }

  lemma FieldRegroups(output: string, sep: string, quote: string, key: string, colon: string, v: string)
    ensures output + sep + quote + key + colon + v == output + (sep + (quote + key + colon + v))
  {
  }

  function Open(fs: seq<Field>): string {
    if fs == [] then [] else Open(fs[..|fs| - 1]) + (Separator(|fs| == 1) + FieldText(fs[|fs| - 1]))
  }

  /** A line is its opened fields and the closing brace. */
  lemma {:induction false} OpenIsLine(fs: seq<Field>)
    requires fs != []
    ensures Open(fs) + "}" == Line(fs)
  {
    OpenSplits([], fs);
    assert [] + fs == fs;
  }

  lemma Regroup(o: string, sep: string, f: string, j: string)
    ensures (o + (sep + f)) + j == o + (sep + (f + j))
  {
  }

  lemma Assoc(a: string, b: string, c: string)
    ensures a + b + c == a + (b + c)
  {
  }

  function Separator(first: bool): string {
    if first then "{" else ","
  }

  lemma OpenAppend(done: seq<Field>, f: Field)
    ensures Open(done + [f]) == Open(done) + (Separator(done == []) + FieldText(f))
  {
    assert (done + [f])[..|done|] == done;
  }

  lemma {:induction false} OpenSplits(done: seq<Field>, rest: seq<Field>)
    requires rest != []
    ensures Open(done + rest) + "}" == Open(done) + (Separator(done == []) + Joined(rest))
    decreases |rest|
  {
    var sep, f := Separator(done == []), rest[0];
    OpenAppend(done, f);
    Rejoined(done, rest);
    if |rest| == 1 {
      OnlyOne(done, rest);
      Regroup(Open(done), sep, FieldText(f), "}");
    } else {
      OpenSplits(done + [f], rest[1..]);
      JoinedStep(rest);
      Regroup(Open(done), sep, FieldText(f), "," + Joined(rest[1..]));
    }
  }

  lemma OnlyOne(done: seq<Field>, rest: seq<Field>)
    requires |rest| == 1
    ensures done + rest == done + [rest[0]] && Joined(rest) == FieldText(rest[0]) + "}"
  {
    assert rest == [rest[0]];
  }

  lemma JoinedStep(fs: seq<Field>)
    requires |fs| > 1
    ensures Joined(fs) == FieldText(fs[0]) + ("," + Joined(fs[1..]))
  {
  }

  lemma CloseLine(output: string, fs: seq<Field>)
    requires fs != []
    ensures output + Open(fs) + "}" + "\n" == output + (Line(fs) + "\n")
  {
    OpenIsLine(fs);
    Assoc(output, Open(fs), "}");
    Assoc(output, Line(fs), "\n");
  }

  /** Writing one more field of a line. */
  lemma OneMoreField(output: string, fs: seq<Field>, i: nat)
    requires i < |fs|
    ensures output + Open(fs[..i]) + (Separator(i == 0) + FieldText(fs[i])) == output + Open(fs[..i + 1])
  {
    assert fs[..i + 1] == fs[..i] + [fs[i]];
    OpenAppend(fs[..i], fs[i]);
    Assoc(output, Open(fs[..i]), Separator(i == 0) + FieldText(fs[i]));
  }

  method WriteLine(output: string, fs: seq<Field>) returns (written: string)
    requires fs != []
    ensures written == output + (Line(fs) + "\n")
  {
    written := output;
    for i := 0 to |fs|
      invariant written == output + Open(fs[..i])
    {
      OneMoreField(output, fs, i);
      written := WriteField(written, fs[i].key, fs[i].value, i == 0);
    }
    assert fs[..|fs|] == fs;
    CloseLine(output, fs);
    written := written + "}" + "\n";
  }

  /** Printing one file line moves it from what is left to what is written. */
  lemma FileMoves(output: string, files: seq<FileEntry>)
    requires files != []
    ensures output + (Line(FileFields(files[0])) + "\n") + FileLines(files[1..]) == output + FileLines(files)
  {
    Assoc(Line(FileFields(files[0])), "\n", FileLines(files[1..]));
    Assoc(output, Line(FileFields(files[0])) + "\n", FileLines(files[1..]));
  }

  method WriteFiles(output: string, files: seq<FileEntry>) returns (written: string)
    ensures written == output + FileLines(files)
  {
    written := output;
    assert files[0..] == files;
    for i := 0 to |files|
      invariant written + FileLines(files[i..]) == output + FileLines(files)
    {
      FileMoves(written, files[i..]);
      assert files[i..][1..] == files[i + 1..] && files[i..][0] == files[i];
      written := WriteLine(written, FileFields(files[i]));
    }
    assert written + [] == written;
  }

  lemma FirstLine(line: string, rest: string)
    ensures [] + (line + "\n") + rest == line + ("\n" + rest)
  {
  }

  method SerializeManifest(m: Manifest) returns (output: string)
    ensures output == Serialized(m)
  {
    ghost var line, rest := Line(HeaderFields(m)), FileLines(m.files);
    output := WriteLine([], HeaderFields(m));
    FirstLine(line, rest);
    output := WriteFiles(output, m.files);
    assert output == line + ("\n" + rest);
  }

  // ----- reading

  method ReadHeader(line: string) returns (h: Header)
    ensures h == HeaderOf(line)
  {
    var version := JsonRawValue(line, Name(SchemaKey));
    var chain := JsonRawValue(line, Name(ChainKey));
    var format := JsonRawValue(line, Name(FormatKey));
    var creator := JsonRawValue(line, Name(CreatorKey));
    var createdAt := JsonRawValue(line, Name(CreatedAtKey));
    var signature := JsonRawValue(line, Name(SignatureKey));
    var algorithm := JsonRawValue(line, Name(AlgorithmKey));
    var keyId := JsonRawValue(line, Name(KeyIdKey));
    return Header(version, chain, format, creator, createdAt, algorithm, keyId, signature);
  }

  method ReadEntry(line: string) returns (t: Entry)
    ensures t == EntryOf(line)
  {
    var name := JsonRawValue(line, Name(FileNameKey));
    var records := JsonRawValue(line, Name(RecordsKey));
    var size := JsonRawValue(line, Name(SizeKey));
    var content := JsonRawValue(line, Name(ContentKey));
    var chain := JsonRawValue(line, Name(AuditKey));
    return Entry(name, records, size, content, chain);
  }

  method ReadFields(line: string) returns (f: LineFields)
    ensures f == FieldsOf(line)
  {
    var record := JsonRawValue(line, Name(RecordKey));
    var header := ReadHeader(line);
    var entry := ReadEntry(line);
    return LineFields(record, header, entry);
  }

  method UnescapeOr(token: Option<string>, otherwise: string) returns (s: string)
    ensures s == UnescapedOr(token, otherwise)
  {
    if token == None {
      return otherwise;
    }
    s := JsonUnescape(token.value);
  }

  method ReadSignature(h: Header) returns (signature: Option<Signature>)
    ensures signature == SignatureOf(h)
  {
    if h.signature == None {
      return None;
    }
    var valueHex := JsonUnescape(h.signature.value);
    var algorithm := UnescapeOr(h.algorithm, "");
    var keyId := UnescapeOr(h.keyId, "");
    return Some(Signature(algorithm, keyId, valueHex));
  }

  method AcceptHeader(p: Progress, h: Header) returns (r: LineResult)
    ensures r == ParseHeader(p, h)
  {
    if p.headerSeen {
      return Stop(p.lineNumber, DuplicateHeader);
    }
    var version, chain, format := Integral(h.version, MAX_U32), Integral(h.chain, MAX_U64), FormatOf(h.format);
    if version == None || chain == None {
      return Stop(p.lineNumber, MalformedHeader);
    }
    if format == None {
      return Stop(p.lineNumber, InvalidFormat);
    }
    var creator := UnescapeOr(h.creator, p.manifest.creator);
    var createdAt := UnescapeOr(h.createdAt, p.manifest.createdAt);
    var signature := ReadSignature(h);
    return Continue(p.(headerSeen := true,
                       manifest := p.manifest.(schemaVersion := version.value, chainChecksum := chain.value, format := format.value,
                                               creator := creator, createdAt := createdAt, signature := signature)));
  }

  method AcceptFile(p: Progress, t: Entry) returns (r: LineResult)
    ensures r == ParseFile(p, t)
  {
    if !p.headerSeen {
      return Stop(p.lineNumber, FileBeforeHeader);
    }
    var records, size := Integral(t.records, MAX_U64), Integral(t.size, MAX_U64);
    var content, chain := Integral(t.content, MAX_U64), Integral(t.chain, MAX_U64);
    if t.name == None || records == None || size == None || content == None || chain == None {
      return Stop(p.lineNumber, MalformedFile);
    }
    var name := JsonUnescape(t.name.value);
    var entry := FileEntry(name, records.value, size.value, content.value, chain.value);
    return Continue(p.(manifest := p.manifest.(files := p.manifest.files + [entry])));
  }

  method AcceptFields(p: Progress, f: LineFields) returns (r: LineResult)
    ensures r == ParseFields(p, f)
  {
    var counted := p.(lineNumber := p.lineNumber + 1);
    if f.record == None {
      return Stop(counted.lineNumber, MissingRecord);
    }
    if f.record.value == "manifest" {
      r := AcceptHeader(counted, f.header);
    } else if f.record.value == "file" {
      r := AcceptFile(counted, f.entry);
    } else {
      r := Stop(counted.lineNumber, UnknownRecord);
    }
  }

  method ReadLine(p: Progress, line: string) returns (r: LineResult)
    ensures r == ParseLine(p, line)
  {
    var f := ReadFields(line);
    r := AcceptFields(p, f);
  }

  /** Where reading goes after a line, given what the line came to. */
  function AfterLine(rest: string, p: Progress, end: nat, line: string, step: LineResult): Parsed
    requires end <= |rest|
  {
    if line != [] && step.Stop? then Bad(step.lineNumber, step.problem)
    else
      var p' := if line == [] then p else step.next;
      if end == |rest| then Ended(p') else ParseFrom(rest[end + 1..], p')
  }

  lemma LineDecides(rest: string, p: Progress, end: nat, line: string, step: LineResult)
    requires end == FirstBreak(rest, 0) && line == Stripped(rest[..end]) && (line != [] ==> step == ParseLine(p, line))
    ensures ParseFrom(rest, p) == AfterLine(rest, p, end, line, step)
  {
  }

  /** Reads one line: either the reading ends with it, or so many characters are used up. */
  method ReadNext(rest: string, p: Progress) returns (ended: bool, r: Parsed, p': Progress, used: nat)
    ensures ended ==> r == ParseFrom(rest, p)
    ensures !ended ==> 0 < used <= |rest| && ParseFrom(rest, p) == ParseFrom(rest[used..], p')
  {
    var end := FirstBreak(rest, 0);
    var line := Stripped(rest[..end]);
    var step := Continue(p);
    if line != [] {
      step := ReadLine(p, line);
    }
    LineDecides(rest, p, end, line, step);
    if step.Stop? {
      return true, Bad(step.lineNumber, step.problem), p, 0;
    }
    return end == |rest|, Ended(step.next), step.next, end + 1;
  }

  method ParseManifest(text: string) returns (r: Parsed)
    ensures r == Parse(text)
  {
    var p, rest, ended := NOTHING_READ, text, false;
    r := Ended(p);
    while !ended
      invariant if ended then r == Parse(text) else ParseFrom(rest, p) == Parse(text)
      decreases |rest|, !ended
    {
      var used;
      ended, r, p, used := ReadNext(rest, p);
      if !ended {
        rest := rest[used..];
      }
    }
  }

  /** Printing a manifest and reading the text gives the manifest back. */
  method RoundTripped(m: Manifest) returns (r: Parsed)
    requires InRange(m)
    ensures r == Good(m)
  {
    RoundTrip(m);
    var text := SerializeManifest(m);
    r := ParseManifest(text);
  }
}
