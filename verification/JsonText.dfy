/** The line format of audit manifests: escaped strings, decimal numbers, and a search for quoted keys. */
module JsonText {
  import opened Types

  // ----- decimal numbers

  function Digit(d: nat): char
    requires d < 10
  {
    (48 + d) as char
  }

  predicate IsDigit(c: char) {
    '0' <= c <= '9'
  }

  function Decimal(n: nat): (s: string)
    ensures s != [] && forall i :: 0 <= i < |s| ==> IsDigit(s[i])
  {
    if n < 10 then [Digit(n)] else Decimal(n / 10) + [Digit(n % 10)]
  }

  /** The number a text of digits stands for; anything else is no number. */
  function Number(s: string): Option<nat> {
    if s == [] then None
    else if !IsDigit(s[|s| - 1]) then None
    else if |s| == 1 then Some((s[0] as int) - 48)
    else
      match Number(s[..|s| - 1])
      case None => None
      case Some(n) => Some(10 * n + (s[|s| - 1] as int) - 48)
  }

  lemma {:induction false} NumberOfDecimal(n: nat)
    ensures Number(Decimal(n)) == Some(n)
  {
    if n >= 10 {
      NumberOfDecimal(n / 10);
      assert Decimal(n)[..|Decimal(n)| - 1] == Decimal(n / 10);
    }
  }

  /** Exactly the texts of one or more digits are numbers. */
  lemma {:induction false} NumberIffDigits(s: string)
    ensures Number(s) != None <==> s != [] && forall i :: 0 <= i < |s| ==> IsDigit(s[i])
  {
    if |s| > 1 {
      NumberIffDigits(s[..|s| - 1]);
      assert forall i :: 0 <= i < |s| - 1 ==> s[..|s| - 1][i] == s[i];
    }
  }

  // ----- escaped strings

  function EscapeChar(c: char): string {
    if c == '\\' then "\\\\" else if c == '"' then "\\\"" else if c == '\n' then "\\n"
    else if c == '\r' then "\\r" else if c == '\t' then "\\t" else [c]
  }

  function Escape(s: string): string {
    if s == [] then [] else EscapeChar(s[0]) + Escape(s[1..])
  }

  function UnescapeChar(c: char): char {
    if c == 'n' then '\n' else if c == 'r' then '\r' else if c == 't' then '\t' else c
  }

  function Unescape(e: string): string {
    if e == [] then []
    else if e[0] == '\\' && |e| > 1 then [UnescapeChar(e[1])] + Unescape(e[2..])
    else [e[0]] + Unescape(e[1..])
  }

  /** Text without a backslash stands for itself, wherever it comes. */
  lemma {:induction false} UnescapePlain(plain: string, tail: string)
    requires '\\' !in plain
    ensures Unescape(plain + tail) == plain + Unescape(tail)
  {
    if plain == [] {
      assert plain + tail == tail;
    } else {
      assert (plain + tail)[1..] == plain[1..] + tail && plain == [plain[0]] + plain[1..];
      UnescapePlain(plain[1..], tail);
    }
  }

  lemma UnescapeStep(c: char, tail: string)
    ensures Unescape(EscapeChar(c) + tail) == [c] + Unescape(tail)
  {
    var e := EscapeChar(c) + tail;
    if |EscapeChar(c)| == 2 {
      assert e[2..] == tail;
    } else {
      assert e[1..] == tail;
    }
  }

  lemma {:induction false} UnescapeEscape(s: string)
    ensures Unescape(Escape(s)) == s
  {
    if s != [] {
      UnescapeEscape(s[1..]);
      UnescapeStep(s[0], Escape(s[1..]));
      assert s == [s[0]] + s[1..];
    }
  }

  /** An escaped text has no line break, and a backslash before every quote. */
  lemma {:induction false} EscapedQuotes(s: string)
    ensures forall j :: 0 <= j < |Escape(s)| ==> Escape(s)[j] != '\n' && Escape(s)[j] != '\r'
    ensures forall j :: 0 <= j < |Escape(s)| && Escape(s)[j] == '"' ==> j > 0 && Escape(s)[j - 1] == '\\'
  {
    if s != [] {
      EscapedQuotes(s[1..]);
      var head, tail, e := EscapeChar(s[0]), Escape(s[1..]), Escape(s);
      forall j | 0 <= j < |e| ensures e[j] != '\n' && e[j] != '\r' && (e[j] == '"' ==> j > 0 && e[j - 1] == '\\') {
        if j >= |head| {
          assert e[j] == tail[j - |head|];
          if e[j] == '"' {
            assert tail[j - |head| - 1] == e[j - 1];
          }
        }
      }
    }
  }

  predicate Bare(c: char) {
    c != '"' && c != '\\' && c != '\n' && c != '\r' && c != '\t'
  }

  lemma {:induction false} EscapeBare(s: string)
    requires forall i :: 0 <= i < |s| ==> Bare(s[i])
    ensures Escape(s) == s
  {
    if s != [] {
      EscapeBare(s[1..]);
      assert s == [s[0]] + s[1..];
    }
  }

  // ----- fields and lines

  datatype Value = Text(text: string) | Num(number: nat)
  datatype Field = Field(key: string, value: Value)

  function RawText(v: Value): string {
    match v case Text(s) => Escape(s) case Num(n) => Decimal(n)
  }

  function ValueText(v: Value): string {
    match v case Text(s) => "\"" + Escape(s) + "\"" case Num(n) => Decimal(n)
  }

  function FieldText(f: Field): string {
    "\"" + f.key + "\":" + ValueText(f.value)
  }

  function Joined(fs: seq<Field>): (s: string)
    ensures fs != [] ==> s != [] && s[|s| - 1] == '}'
  {
    if fs == [] then [] else if |fs| == 1 then FieldText(fs[0]) + "}" else FieldText(fs[0]) + ("," + Joined(fs[1..]))
  }

  function Line(fs: seq<Field>): string {
    "{" + Joined(fs)
  }

  /** Keys are names without any of the characters the format gives a meaning. */
  predicate PlainKey(key: string) {
    key != [] && forall i :: 0 <= i < |key| ==> Bare(key[i]) && key[i] != ',' && key[i] != ':' && key[i] != '}'
  }

  predicate PlainKeys(fs: seq<Field>) {
    forall i :: 0 <= i < |fs| ==> PlainKey(fs[i].key)
  }

  // ----- looking a key up in a line of text

  function Needle(key: string): string {
    "\"" + key + "\":"
  }

  /** The first place where one text occurs in another. */
  function Find(text: string, needle: string): Option<nat> {
    if |text| < |needle| then None
    else if needle <= text then Some(0)
    else if text == [] then None
    else Shifted(Find(text[1..], needle), 1)
  }

  function Shifted(p: Option<nat>, n: nat): Option<nat> {
    match p case None => None case Some(q) => Some(q + n)
  }

  /** The position of the first quote that is not escaped. */
  function Closing(t: string, i: nat, escaped: bool): (p: Option<nat>)
    requires i <= |t|
    ensures p != None ==> i <= p.value < |t|
    decreases |t| - i
  {
    if i == |t| then None
    else if !escaped && t[i] == '"' then Some(i)
    else Closing(t, i + 1, !escaped && t[i] == '\\')
  }

  /** The text before the next comma or closing brace. */
  function Until(t: string, i: nat): (p: nat)
    requires i <= |t|
    ensures i <= p <= |t|
    decreases |t| - i
  {
    if i < |t| && t[i] != ',' && t[i] != '}' then Until(t, i + 1) else i
  }

  function RawFrom(t: string): Option<string> {
    if t == [] then None
    else if t[0] == '"' then
      match Closing(t, 1, false)
      case None => None
      case Some(p) => Some(t[1..p])
    else Some(t[..Until(t, 0)])
  }

  function After(text: string, n: nat): string {
    if n <= |text| then text[n..] else []
  }

  function RawAfter(text: string, place: Option<nat>, n: nat): Option<string> {
    match place
    case None => None
    case Some(p) => RawFrom(After(text, p + n))
  }

  function RawValue(line: string, key: string): Option<string> {
    RawAfter(line, Find(line, Needle(key)), |Needle(key)|)
  }

  // ----- a lookup finds the field, never text that looks like it

  lemma FindStep(text: string, needle: string)
    requires text != [] && !(needle <= text)
    ensures Find(text, needle) == Shifted(Find(text[1..], needle), 1)
  {
    if |text| < |needle| {
      FindShort(text, needle);
      FindShort(text[1..], needle);
    }
  }

  /** Where the needle does not stand at the first `n` places, it is found in what follows them. */
  lemma {:induction false} FindSkips(text: string, needle: string, n: nat)
    requires n <= |text| && forall p :: 0 <= p < n ==> !(needle <= text[p..])
    ensures Find(text, needle) == Shifted(Find(text[n..], needle), n)
    decreases n
  {
    if n == 0 {
      assert text[0..] == text;
    } else {
      FindSkips(text, needle, n - 1);
      FindStep(text[n - 1..], needle);
      assert text[n - 1..][1..] == text[n..];
    }
  }

  lemma FindShort(text: string, needle: string)
    requires |text| < |needle|
    ensures Find(text, needle) == None
  {
  }

  /** A quoted key and its colon stand at this place. */
  predicate KeyAt(text: string, p: nat, key: string) {
    && p + |key| + 2 < |text| && text[p] == '"' && text[p + 1 + |key|] == '"' && text[p + 2 + |key|] == ':'
    && forall q :: p < q <= p + |key| ==> text[q] == key[q - p - 1]
  }

  lemma MatchChars(text: string, p: nat, key: string)
    requires p <= |text| && Needle(key) <= text[p..]
    ensures KeyAt(text, p, key)
  {
    var t, needle := text[p..], Needle(key);
    assert forall i :: 0 <= i < |needle| ==> t[i] == needle[i];
    assert needle[0] == '"' && needle[1 + |key|] == '"' && needle[2 + |key|] == ':';
    forall q | p < q <= p + |key| ensures text[q] == key[q - p - 1] {
      assert t[q - p] == needle[q - p];
    }
    assert t[0] == '"' && t[1 + |key|] == '"' && t[2 + |key|] == ':';
  }

  /** Every quote in a value opens it, closes it, or is escaped. */
  lemma QuotesInValue(v: Value)
    ensures forall q :: 0 <= q < |ValueText(v)| && ValueText(v)[q] == '"' ==>
      v.Text? && (q == 0 || q == |ValueText(v)| - 1 || ValueText(v)[q - 1] == '\\')
    ensures v.Text? ==> |ValueText(v)| >= 2 && ValueText(v)[|ValueText(v)| - 1] == '"'
  {
    match v
    case Text(s) =>
      EscapedQuotes(s);
      var t, e := ValueText(v), Escape(s);
      forall q | 0 < q < |t| - 1 ensures t[q] == e[q - 1] {}
    case Num(n) =>
  }

  lemma KeyBare(text: string, p: nat, key: string)
    requires PlainKey(key) && KeyAt(text, p, key)
    ensures forall q :: p < q <= p + |key| ==> Bare(text[q]) && text[q] != ',' && text[q] != '}'
  {
  }

  /** A value holds no quoted key: its own quotes are escaped, and what follows it is no colon. */
  lemma NoKeyInValue(v: Value, tail: string, key: string, p: nat)
    requires PlainKey(key) && tail != [] && (tail[0] == ',' || tail[0] == '}') && p < |ValueText(v)|
    ensures !KeyAt(ValueText(v) + tail, p, key)
  {
    var text := ValueText(v) + tail;
    if KeyAt(text, p, key) {
      KeyBare(text, p, key);
      NoColonAfter(v, tail, p, p + 1 + |key|);
    }
  }

  /** Between two quotes with only bare characters between them, at least one of them in the value, the
      second is the value's last character. */
  lemma NoColonAfter(v: Value, tail: string, p: nat, r: nat)
    requires tail != [] && (tail[0] == ',' || tail[0] == '}') && p < |ValueText(v)| && p + 1 < r
    requires var text := ValueText(v) + tail;
      && r + 1 < |text| && text[p] == '"' && text[r] == '"'
      && forall q :: p < q < r ==> Bare(text[q]) && text[q] != ',' && text[q] != '}'
    ensures (ValueText(v) + tail)[r + 1] != ':'
  {
    var t := ValueText(v);
    var text := t + tail;
    QuotesInValue(v);
    assert forall q :: 0 <= q < |t| ==> text[q] == t[q];
    assert text[|t|] == tail[0] && text[|t| - 1] == t[|t| - 1] && text[r - 1] != '\\';
  }

  /** Inside a field a quoted key stands nowhere but at the start, and then it is the field's own. */
  lemma OnlyOwnKey(f: Field, tail: string, key: string, p: nat)
    requires PlainKey(f.key) && PlainKey(key) && tail != [] && (tail[0] == ',' || tail[0] == '}')
    requires p < |FieldText(f)| && KeyAt(FieldText(f) + tail, p, key)
    ensures p == 0 && f.key == key
  {
    var text, k := FieldText(f) + tail, |f.key|;
    var rest := ValueText(f.value) + tail;
    assert text == "\"" + f.key + "\":" + rest;
    assert text[0] == '"' && text[k + 1] == '"' && text[k + 2] == ':';
    assert forall q :: 1 <= q <= k ==> text[q] == f.key[q - 1];
    assert forall q :: p < q <= p + |key| ==> text[q] != '"' && text[q] != ':';
    if p == 0 {
      assert |key| == k;
      assert forall i :: 0 <= i < k ==> key[i] == text[i + 1] == f.key[i];
    } else {
      KeyShifts(text, rest, k + 3, p, key);
      if p >= k + 3 { NoKeyInValue(f.value, tail, key, p - (k + 3)); }
    }
  }

  lemma KeyShifts(text: string, rest: string, n: nat, p: nat, key: string)
    requires n <= |text| && text[n..] == rest && KeyAt(text, p, key)
    ensures p >= n ==> KeyAt(rest, p - n, key)
  {
    if p >= n {
      assert forall q :: 0 <= q < |rest| ==> rest[q] == text[n + q];
    }
  }

  // ----- the value at a key

  /** The search for the closing quote steps over one escaped character. */
  lemma ClosingStep(t: string, i: nat, c: char, tail: string)
    requires i <= |t| && t[i..] == EscapeChar(c) + tail
    ensures var n := |EscapeChar(c)|;
      i + n <= |t| && t[i + n..] == tail && Closing(t, i, false) == Closing(t, i + n, false)
  {
    var head := EscapeChar(c);
    assert forall j :: 0 <= j < |head| ==> t[i + j] == t[i..][j] == head[j];
    assert t[i + |head|..] == t[i..][|head|..] == tail;
  }

  lemma {:induction false} ClosingAt(t: string, i: nat, s: string, rest: string)
    requires i <= |t| && t[i..] == Escape(s) + ("\"" + rest)
    ensures Closing(t, i, false) == Some(i + |Escape(s)|)
    decreases |s|
  {
    if s == [] {
      assert t[i] == t[i..][0] == '"';
    } else {
      var head, tail := EscapeChar(s[0]), Escape(s[1..]);
      assert t[i..] == head + (tail + ("\"" + rest));
      ClosingStep(t, i, s[0], tail + ("\"" + rest));
      ClosingAt(t, i + |head|, s[1..], rest);
    }
  }

  lemma {:induction false} UntilEnd(t: string, i: nat, n: nat)
    requires i <= n < |t| && (t[n] == ',' || t[n] == '}')
    requires forall j :: i <= j < n ==> t[j] != ',' && t[j] != '}'
    ensures Until(t, i) == n
    decreases n - i
  {
    if i < n {
      UntilEnd(t, i + 1, n);
    }
  }

  /** A quoted text starts after its opening quote. */
  lemma Opened(quote: string, e: string, tail: string)
    requires |quote| == 1
    ensures var t := quote + e + quote + tail;
      |t| > 0 && t[0] == quote[0] && t[1..] == e + (quote + tail) && t[1..1 + |e|] == e
  {
  }

  lemma RawOfText(s: string, tail: string)
    ensures RawFrom(ValueText(Text(s)) + tail) == Some(Escape(s))
  {
    Opened("\"", Escape(s), tail);
    ClosingAt(ValueText(Text(s)) + tail, 1, s, tail);
  }

  lemma RawOfNumber(n: nat, tail: string)
    requires tail != [] && (tail[0] == ',' || tail[0] == '}')
    ensures RawFrom(ValueText(Num(n)) + tail) == Some(Decimal(n))
  {
    var t := ValueText(Num(n)) + tail;
    UntilEnd(t, 0, |Decimal(n)|);
    assert t[..|Decimal(n)|] == Decimal(n);
  }

  /** A value followed by a comma or a brace is read back in full. */
  lemma RawOfValue(v: Value, tail: string)
    requires tail != [] && (tail[0] == ',' || tail[0] == '}')
    ensures RawFrom(ValueText(v) + tail) == Some(RawText(v))
  {
    match v
    case Text(s) => RawOfText(s, tail);
    case Num(n) => RawOfNumber(n, tail);
  }

  /** The raw text of the first field with this key. */
  function FieldRaw(fs: seq<Field>, key: string): Option<string> {
    if fs == [] then None else if fs[0].key == key then Some(RawText(fs[0].value)) else FieldRaw(fs[1..], key)
  }

  lemma RawSkips(text: string, key: string, n: nat)
    requires n <= |text| && forall p :: 0 <= p < n ==> !(Needle(key) <= text[p..])
    ensures RawValue(text, key) == RawValue(text[n..], key)
  {
    FindSkips(text, Needle(key), n);
    FoundFits(text[n..], Needle(key));
    RawShift(text, n, Find(text[n..], Needle(key)), |Needle(key)|);
  }

  lemma RawShift(text: string, n: nat, place: Option<nat>, m: nat)
    requires n <= |text| && (place != None ==> place.value + m <= |text| - n)
    ensures RawAfter(text, Shifted(place, n), m) == RawAfter(text[n..], place, m)
  {
    if place != None {
      AfterShift(text, n, place.value + m);
    }
  }

  lemma AfterShift(text: string, n: nat, m: nat)
    requires n + m <= |text|
    ensures After(text[n..], m) == After(text, m + n)
  {
    assert text[n..][m..] == text[m + n..];
  }

  lemma {:induction false} FoundFits(text: string, needle: string)
    ensures Find(text, needle) != None ==> Find(text, needle).value + |needle| <= |text|
  {
    if |text| >= |needle| && !(needle <= text) && text != [] {
      FoundFits(text[1..], needle);
    }
  }

  lemma OwnField(f: Field, tail: string)
    requires tail != [] && (tail[0] == ',' || tail[0] == '}')
    ensures RawValue(FieldText(f) + tail, f.key) == Some(RawText(f.value))
  {
    var text, needle := FieldText(f) + tail, Needle(f.key);
    assert text == needle + (ValueText(f.value) + tail);
    assert needle <= text;
    assert text[|needle|..] == ValueText(f.value) + tail;
    RawOfValue(f.value, tail);
  }

  lemma OtherField(f: Field, tail: string, key: string)
    requires PlainKey(f.key) && PlainKey(key) && f.key != key && tail != [] && (tail[0] == ',' || tail[0] == '}')
    ensures RawValue(FieldText(f) + tail, key) == RawValue(tail[1..], key)
  {
    var text, n := FieldText(f) + tail, |FieldText(f)| + 1;
    forall p | 0 <= p < n ensures !(Needle(key) <= text[p..]) {
      if Needle(key) <= text[p..] {
        MatchChars(text, p, key);
        assert text[|FieldText(f)|] == tail[0];
        if p < |FieldText(f)| { OnlyOwnKey(f, tail, key, p); }
      }
    }
    RawSkips(text, key, n);
    assert text[n..] == tail[1..];
  }

  lemma {:induction false} LookupInFields(fs: seq<Field>, key: string)
    requires PlainKeys(fs) && PlainKey(key)
    ensures RawValue(Joined(fs), key) == FieldRaw(fs, key)
    decreases |fs|
  {
    if fs == [] {
      FindShort([], Needle(key));
    } else {
      var tail := if |fs| == 1 then "}" else "," + Joined(fs[1..]);
      assert Joined(fs) == FieldText(fs[0]) + tail;
      assert fs[1..] == [] ==> Joined(fs[1..]) == [];
      assert tail[1..] == Joined(fs[1..]);
      if fs[0].key == key {
        OwnField(fs[0], tail);
      } else {
        OtherField(fs[0], tail, key);
        LookupInFields(fs[1..], key);
      }
    }
  }

  /** Looking a key up in a line finds the field of that key if there is one, and otherwise nothing,
      whatever the strings in the line say. */
  lemma LookupIs(fs: seq<Field>, key: string)
    requires PlainKeys(fs) && PlainKey(key)
    ensures RawValue(Line(fs), key) == FieldRaw(fs, key)
  {
    var line := Line(fs);
    assert line[0..] == line && line[0] == '{';
    forall p | 0 <= p < 1 ensures !(Needle(key) <= line[p..]) {
      assert Needle(key)[0] == '"';
    }
    RawSkips(line, key, 1);
    assert line[1..] == Joined(fs);
    LookupInFields(fs, key);
  }
}
