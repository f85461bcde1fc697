/** Key predicates: how an entity's key is written in a URL, and read back from one. */
module KeyPredicates {
  import opened Common
  import opened Text

  /** A string key; `most` is its declared length, 0 for none. */
  datatype Key = Key(name: string, most: nat)

  datatype Error = NeedsPairs | Malformed | NotAKey(name: string) | TooLong(name: string) | Missing

  datatype Parsed = Values(values: map<string, string>) | Bad(error: Error)

  // ----- writing -----

  /** Quotes inside a literal are written twice. */
  function Doubled(v: string): string {
    if v == "" then ""
    else (if v[0] == '\'' then "''" else [v[0]]) + Doubled(v[1..])
  }

  function Quoted(v: string): string { "'" + Doubled(v) + "'" }

  function Pair(key: Key, v: string): string { key.name + "=" + Quoted(v) }

  function Pairs(keys: seq<Key>, values: seq<string>): (r: seq<string>)
    requires |keys| == |values|
    ensures |r| == |keys|
  {
    seq(|keys|, i requires 0 <= i < |keys| => Pair(keys[i], values[i]))
  }

  function Joined(parts: seq<string>): string {
    if |parts| == 0 then ""
    else if |parts| == 1 then parts[0]
    else Joined(parts[..|parts| - 1]) + "," + parts[|parts| - 1]
  }

  function Print(keys: seq<Key>, values: seq<string>): string
    requires |keys| == |values| > 0
  {
    if |keys| == 1 then "(" + Quoted(values[0]) + ")" else "(" + Joined(Pairs(keys, values)) + ")"
  }

  // ----- splitting at the commas outside quotes -----

  datatype Scan = Scan(parts: seq<string>, buf: string, inString: bool)

  function Feed(s: Scan, c: char): Scan {
    var inString := if c == '\'' then !s.inString else s.inString;
    if c == ',' && !inString then Scan(s.parts + [s.buf], "", inString)
    else Scan(s.parts, s.buf + [c], inString)
  }

  function ScanFrom(s: Scan, text: string): Scan {
    if |text| == 0 then s else Feed(ScanFrom(s, text[..|text| - 1]), text[|text| - 1])
  }

  function Finished(s: Scan): seq<string> {
    var parts := if Strip(s.buf) != "" then s.parts + [s.buf] else s.parts;
    Filter(Map(parts, (p: string) => Strip(p)), (p: string) => p != "")
  }

  function SplitTopLevel(text: string): seq<string> {
    Finished(ScanFrom(Scan([], "", false), text))
  }

  method SplitAtCommas(text: string) returns (parts: seq<string>)
    ensures parts == SplitTopLevel(text)
  {
    parts := [];
    var buf, inString := "", false;
    for i := 0 to |text|
      invariant Scan(parts, buf, inString) == ScanFrom(Scan([], "", false), text[..i])
    {
      assert text[..i + 1][..i] == text[..i];
      if text[i] == '\'' {
        inString := !inString;
      }
      if text[i] == ',' && !inString {
        parts := parts + [buf];
        buf := "";
      } else {
        buf := buf + [text[i]];
      }
    }
    assert text[..|text|] == text;
    if Strip(buf) != "" {
      parts := parts + [buf];
    }
    parts := Filter(Map(parts, (p: string) => Strip(p)), (p: string) => p != "");
  }

  // ----- reading one part -----

  predicate IsNameStart(c: char) {
    'A' <= c <= 'Z' || 'a' <= c <= 'z' || c == '_'
  }

  predicate IsNameChar(c: char) {
    IsNameStart(c) || '0' <= c <= '9'
  }

  /** How many characters from the start satisfy `p`. */
  function Span(s: string, p: char -> bool): (n: nat)
    ensures n <= |s|
  {
    if s != "" && p(s[0]) then 1 + Span(s[1..], p) else 0
  }

  function AfterSpace(s: string): string {
    s[Span(s, c => IsSpace(c))..]
  }

  /** A name, an equals sign, and the rest of the line; None where the part is not of that shape. */
  function PairOf(part: string): Option<(string, string)> {
    var s := AfterSpace(part);
    if s == "" || !IsNameStart(s[0]) then None
    else
      var n := Span(s, c => IsNameChar(c));
      var rest := AfterSpace(s[n..]);
      if rest == "" || rest[0] != '=' then None
      else
        var raw := AfterSpace(rest[1..]);
        Some((s[..n], Strip(raw[..Span(raw, c => c != '\n')])))
  }

  function Undoubled(s: string): string {
    if |s| >= 2 && s[0] == '\'' && s[1] == '\'' then "'" + Undoubled(s[2..])
    else if s == "" then ""
    else [s[0]] + Undoubled(s[1..])
  }

  predicate Prefixed(raw: string) {
    "datetime'" <= Lower(raw) || "guid'" <= Lower(raw) || "time'" <= Lower(raw)
  }

  /** What is between the first quote and the last character. */
  function Within(raw: string): string {
    var n := Span(raw, c => c != '\'');
    if n + 1 < |raw| then raw[n + 1..|raw| - 1] else ""
  }

  /** A number's type suffix goes. */
  function Unsuffixed(raw: string): string {
    if raw != "" && raw[|raw| - 1] in "LlmMdDfF" then raw[..|raw| - 1] else raw
  }

  function Fitting(s: string, key: Key): Option<string> {
    if key.most != 0 && |s| > key.most then None else Some(s)
  }

  function Literal(raw: string, key: Key): Option<string> {
    var raw := Strip(raw);
    if raw != "" && raw[0] == '\'' && raw[|raw| - 1] == '\'' then
      Some(Undoubled(if |raw| >= 2 then raw[1..|raw| - 1] else ""))
    else if Prefixed(raw) then Fitting(Within(raw), key)
    else Fitting(Unsuffixed(raw), key)
  }

  // ----- reading a predicate -----

  function KeyNamed(keys: seq<Key>, name: string): Option<Key> {
    if |keys| == 0 then None
    else if keys[0].name == name then Some(keys[0])
    else KeyNamed(keys[1..], name)
  }

  /** The values of the parts so far; the first part that will not do ends it. */
  function ReadPairs(parts: seq<string>, keys: seq<Key>): Parsed {
    if |parts| == 0 then Values(map[])
    else
      match ReadPairs(parts[..|parts| - 1], keys)
      case Bad(error) => Bad(error)
      case Values(values) => ReadPair(parts[|parts| - 1], keys, values)
  }

  function ReadPair(part: string, keys: seq<Key>, values: map<string, string>): Parsed {
    match PairOf(part)
    case None => Bad(Malformed)
    case Some((name, raw)) =>
      match KeyNamed(keys, name)
      case None => Bad(NotAKey(name))
      case Some(key) =>
        match Literal(raw, key)
        case None => Bad(TooLong(name))
        case Some(v) => Values(values[name := v])
  }

  function Inner(text: string): string {
    var inner := Strip(text);
    if inner != "" && inner[0] == '(' && inner[|inner| - 1] == ')' then
      (if |inner| >= 2 then inner[1..|inner| - 1] else "")
    else inner
  }

  function Parse(text: string, keys: seq<Key>): Parsed {
    ParseParts(SplitTopLevel(Inner(text)), keys)
  }

  function ParseParts(parts: seq<string>, keys: seq<Key>): Parsed {
    if |parts| == 1 && '=' !in parts[0] then
      if |keys| != 1 then Bad(NeedsPairs)
      else match Literal(parts[0], keys[0])
        case None => Bad(TooLong(keys[0].name))
        case Some(v) => Values(map[keys[0].name := v])
    else
      match ReadPairs(parts, keys)
      case Bad(error) => Bad(error)
      case Values(values) =>
        if exists i :: 0 <= i < |keys| && keys[i].name !in values then Bad(Missing) else Values(values)
  }

  /** As it runs, part by part. */
  method ParseKeyPredicate(text: string, keys: seq<Key>) returns (r: Parsed)
    ensures r == Parse(text, keys)
  {
    var parts := SplitAtCommas(Inner(text));
    if |parts| == 1 && '=' !in parts[0] {
      if |keys| != 1 {
        return Bad(NeedsPairs);
      }
      var v := Literal(parts[0], keys[0]);
      if v.None? {
        return Bad(TooLong(keys[0].name));
      }
      return Values(map[keys[0].name := v.value]);
    }
    var values: map<string, string> := map[];
    for i := 0 to |parts|
      invariant ReadPairs(parts[..i], keys) == Values(values)
    {
      assert parts[..i + 1][..i] == parts[..i];
      var pair := PairOf(parts[i]);
      if pair.None? {
        ReadStops(parts, keys, i + 1);
        return Bad(Malformed);
      }
      var key := KeyNamed(keys, pair.value.0);
      if key.None? {
        ReadStops(parts, keys, i + 1);
        return Bad(NotAKey(pair.value.0));
      }
      var v := Literal(pair.value.1, key.value);
      if v.None? {
        ReadStops(parts, keys, i + 1);
        return Bad(TooLong(pair.value.0));
      }
      values := values[pair.value.0 := v.value];
    }
    assert parts[..|parts|] == parts;
    if exists i :: 0 <= i < |keys| && keys[i].name !in values {
      return Bad(Missing);
    }
    return Values(values);
  }

  lemma {:induction false} ReadStops(parts: seq<string>, keys: seq<Key>, n: nat)
    requires n <= |parts| && ReadPairs(parts[..n], keys).Bad?
    ensures ReadPairs(parts, keys) == ReadPairs(parts[..n], keys)
    decreases |parts|
  {
    if n == |parts| {
      assert parts[..n] == parts;
    } else {
      assert parts[..|parts| - 1][..n] == parts[..n];
      ReadStops(parts[..|parts| - 1], keys, n);
    }
  }

  // ----- quoting -----

  lemma {:induction false} UndoubledDoubled(v: string)
    ensures Undoubled(Doubled(v)) == v
  {
    if v != "" {
      UndoubledDoubled(v[1..]);
      var d := Doubled(v);
      if v[0] == '\'' {
        assert d[2..] == Doubled(v[1..]);
      } else {
        assert d[1..] == Doubled(v[1..]);
      }
    }
  }

  lemma {:induction false} ScanAppend(s: Scan, t: string, u: string)
    ensures ScanFrom(s, t + u) == ScanFrom(ScanFrom(s, t), u)
  {
    if u == "" {
      assert t + u == t;
    } else {
      ScanAppend(s, t, u[..|u| - 1]);
      assert (t + u)[..|t + u| - 1] == t + u[..|u| - 1];
    }
  }

  lemma {:induction false} ScanOne(s: Scan, c: char)
    ensures ScanFrom(s, [c]) == Feed(s, c)
  {
    assert [c][..0] == "";
  }

  lemma {:induction false} ScanTwo(s: Scan, c: char, d: char)
    ensures ScanFrom(s, [c, d]) == Feed(Feed(s, c), d)
  {
    assert [c, d][..1] == [c];
    ScanOne(s, c);
  }

  /** Inside a literal nothing splits, and doubled quotes leave the scanner inside it. */
  lemma {:induction false} ScanDoubled(s: Scan, v: string)
    requires s.inString
    ensures ScanFrom(s, Doubled(v)) == Scan(s.parts, s.buf + Doubled(v), true)
    decreases v
  {
    if v == "" {
      assert s.buf + "" == s.buf;
    } else {
      var head := if v[0] == '\'' then "''" else [v[0]];
      ScanAppend(s, head, Doubled(v[1..]));
      if v[0] == '\'' {
        ScanTwo(s, '\'', '\'');
        assert s.buf + "'" + "'" == s.buf + head;
      } else {
        ScanOne(s, v[0]);
      }
      ScanDoubled(Scan(s.parts, s.buf + head, true), v[1..]);
      assert s.buf + head + Doubled(v[1..]) == s.buf + Doubled(v);
    }
  }

  lemma {:induction false} ScanQuoted(s: Scan, v: string)
    requires !s.inString
    ensures ScanFrom(s, Quoted(v)) == Scan(s.parts, s.buf + Quoted(v), false)
  {
    var begun := Scan(s.parts, s.buf + "'", true);
    ScanOne(s, '\'');
    ScanAppend(s, "'", Doubled(v));
    ScanDoubled(begun, v);
    ScanAppend(s, "'" + Doubled(v), "'");
    ScanOne(Scan(s.parts, s.buf + "'" + Doubled(v), true), '\'');
    assert s.buf + "'" + Doubled(v) + "'" == s.buf + Quoted(v);
  }

  ghost predicate Plain(s: string) {
    forall i :: 0 <= i < |s| ==> s[i] != '\'' && s[i] != ','
  }

  lemma {:induction false} ScanPlain(s: Scan, t: string)
    requires !s.inString && Plain(t)
    ensures ScanFrom(s, t) == Scan(s.parts, s.buf + t, false)
  {
    if |t| == 0 {
      assert s.buf + t == s.buf;
    } else {
      ScanPlain(s, t[..|t| - 1]);
      assert s.buf + t[..|t| - 1] + [t[|t| - 1]] == s.buf + t;
    }
  }

  ghost predicate IsName(s: string) {
    s != "" && IsNameStart(s[0]) && forall i :: 0 <= i < |s| ==> IsNameChar(s[i])
  }

  lemma {:induction false} ScanPair(s: Scan, key: Key, v: string)
    requires !s.inString && IsName(key.name)
    ensures ScanFrom(s, Pair(key, v)) == Scan(s.parts, s.buf + Pair(key, v), false)
  {
    var front := key.name + "=";
    ScanPlain(s, front);
    ScanAppend(s, front, Quoted(v));
    ScanQuoted(Scan(s.parts, s.buf + front, false), v);
    assert s.buf + front + Quoted(v) == s.buf + Pair(key, v);
  }

  // ----- what is printed splits as it was joined -----

  ghost predicate KeysNamed(keys: seq<Key>) {
    && (forall i :: 0 <= i < |keys| ==> IsName(keys[i].name))
    && (forall i, j :: 0 <= i < j < |keys| ==> keys[i].name != keys[j].name)
  }

  lemma {:induction false} ScanJoined(keys: seq<Key>, values: seq<string>)
    requires |keys| == |values| > 0 && KeysNamed(keys)
    ensures var pairs := Pairs(keys, values);
      ScanFrom(Scan([], "", false), Joined(pairs)) == Scan(pairs[..|pairs| - 1], pairs[|pairs| - 1], false)
  {
    var start := Scan([], "", false);
    var pairs, n := Pairs(keys, values), |keys| - 1;
    if n == 0 {
      ScanPair(start, keys[0], values[0]);
      assert "" + Pair(keys[0], values[0]) == pairs[0];
    } else {
      ScanJoined(keys[..n], values[..n]);
      PairsPrefix(keys, values, n);
      ScanNext(start, Joined(pairs[..n]), pairs[..n][..n - 1], pairs[n - 1], keys[n], values[n]);
      assert pairs[..n][..n - 1] + [pairs[n - 1]] == pairs[..n];
    }
  }

  lemma {:induction false} ScanNext(start: Scan, front: string, parts: seq<string>, last: string, key: Key, v: string)
    requires ScanFrom(start, front) == Scan(parts, last, false) && IsName(key.name)
    ensures ScanFrom(start, front + "," + Pair(key, v)) == Scan(parts + [last], Pair(key, v), false)
  {
    ScanAppend(start, front, ",");
    ScanOne(Scan(parts, last, false), ',');
    ScanAppend(start, front + ",", Pair(key, v));
    ScanPair(Scan(parts + [last], "", false), key, v);
    assert "" + Pair(key, v) == Pair(key, v);
  }

  lemma {:induction false} PairsPrefix(keys: seq<Key>, values: seq<string>, n: nat)
    requires |keys| == |values| && n <= |keys|
    ensures Pairs(keys, values)[..n] == Pairs(keys[..n], values[..n])
  {
  }

  lemma {:induction false} Unstripped(s: string)
    requires s != "" && !IsSpace(s[0]) && !IsSpace(s[|s| - 1])
    ensures Strip(s) == s
  {
  }

  lemma {:induction false} FinishedPairs(parts: seq<string>)
    requires |parts| > 0
    requires forall i :: 0 <= i < |parts| ==> parts[i] != "" && Strip(parts[i]) == parts[i]
    ensures Finished(Scan(parts[..|parts| - 1], parts[|parts| - 1], false)) == parts
  {
    var all := parts[..|parts| - 1] + [parts[|parts| - 1]];
    assert all == parts;
    assert Map(parts, (p: string) => Strip(p)) == parts;
    FilterAll(parts, (p: string) => p != "");
  }

  lemma {:induction false} PairStripped(key: Key, v: string)
    requires IsName(key.name)
    ensures Pair(key, v) != "" && Strip(Pair(key, v)) == Pair(key, v)
  {
    var p := Pair(key, v);
    assert p[0] == key.name[0] && p[|p| - 1] == '\'';
    Unstripped(p);
  }

  lemma {:induction false} InnerOf(s: string)
    ensures Inner("(" + s + ")") == s
  {
    var t := "(" + s + ")";
    Unstripped(t);
    assert t[1..|t| - 1] == s;
  }

  lemma {:induction false} SplitJoined(keys: seq<Key>, values: seq<string>)
    requires |keys| == |values| > 0 && KeysNamed(keys)
    ensures SplitTopLevel(Joined(Pairs(keys, values))) == Pairs(keys, values)
  {
    var pairs := Pairs(keys, values);
    ScanJoined(keys, values);
    forall i | 0 <= i < |pairs| ensures pairs[i] != "" && Strip(pairs[i]) == pairs[i] {
      PairStripped(keys[i], values[i]);
    }
    FinishedPairs(pairs);
  }

  lemma {:induction false} SplitQuoted(v: string)
    ensures SplitTopLevel(Quoted(v)) == [Quoted(v)]
  {
    var q := Quoted(v);
    ScanQuoted(Scan([], "", false), v);
    assert "" + q == q;
    Unstripped(q);
    FinishedPairs([q]);
    assert [q][..0] == [];
  }

  // ----- one part -----

  lemma {:induction false} SpanAll(s: string, p: char -> bool, n: nat)
    requires n <= |s| && (forall i :: 0 <= i < n ==> p(s[i])) && (n < |s| ==> !p(s[n]))
    ensures Span(s, p) == n
  {
    if n > 0 {
      SpanAll(s[1..], p, n - 1);
    }
  }

  /** The part of a literal on its first line. */
  function FirstLine(s: string): string {
    s[..Span(s, c => c != '\n')]
  }

  lemma {:induction false} PairRead(key: Key, v: string)
    requires IsName(key.name)
    ensures PairOf(Pair(key, v)) == Some((key.name, Strip(FirstLine(Quoted(v)))))
  {
    var p, q, n := Pair(key, v), Quoted(v), |key.name|;
    assert p == key.name + ("=" + q);
    SpanAll(p, c => IsSpace(c), 0);
    assert AfterSpace(p) == p;
    SpanAll(p, c => IsNameChar(c), n);
    assert p[..n] == key.name && p[n..] == "=" + q;
    SpanAll("=" + q, c => IsSpace(c), 0);
    assert AfterSpace("=" + q) == "=" + q && ("=" + q)[1..] == q;
    SpanAll(q, c => IsSpace(c), 0);
    assert AfterSpace(q) == q;
  }

  lemma {:induction false} LiteralQuoted(v: string, key: Key)
    ensures Literal(Quoted(v), key) == Some(v)
  {
    var q := Quoted(v);
    Unstripped(q);
    assert q[1..|q| - 1] == Doubled(v);
    UndoubledDoubled(v);
  }

  predicate HasBreak(v: string) { '\n' in v }

  lemma {:induction false} DoubledMembers(v: string, c: char)
    ensures c in Doubled(v) <==> c in v
  {
    if v != "" {
      DoubledMembers(v[1..], c);
      assert v == [v[0]] + v[1..];
      assert c in Doubled(v) <==> c == v[0] || c in Doubled(v[1..]);
    }
  }

  lemma {:induction false} QuotedBreak(v: string)
    ensures '\n' in Quoted(v) <==> HasBreak(v)
    ensures '=' in Quoted(v) <==> '=' in v
  {
    DoubledMembers(v, '\n');
    DoubledMembers(v, '=');
  }

  lemma {:induction false} SpanStops(s: string, c: char)
    ensures var n := Span(s, x => x != c); c !in s[..n] && (c !in s <==> n == |s|)
  {
    if s != "" && s[0] != c {
      SpanStops(s[1..], c);
      var n := Span(s[1..], x => x != c);
      assert s[..n + 1] == [s[0]] + s[1..][..n];
      assert s == [s[0]] + s[1..];
    }
  }

  lemma {:induction false} UndoubledMembers(s: string, c: char)
    requires c in Undoubled(s)
    ensures c in s
  {
    if |s| >= 2 && s[0] == '\'' && s[1] == '\'' {
      if c in Undoubled(s[2..]) {
        UndoubledMembers(s[2..], c);
      }
    } else if s != "" {
      if c in Undoubled(s[1..]) {
        UndoubledMembers(s[1..], c);
      }
    }
  }

  lemma {:induction false} StripMembers(s: string, c: char)
    requires c in Strip(s)
    ensures c in s
    decreases |s|
  {
    if s != "" && IsSpace(s[|s| - 1]) {
      StripMembers(s[..|s| - 1], c);
    } else {
      StripLeftMembers(s, c);
    }
  }

  lemma {:induction false} StripLeftMembers(s: string, c: char)
    requires c in StripLeft(s)
    ensures c in s
    decreases |s|
  {
    if s != "" && IsSpace(s[0]) {
      StripLeftMembers(s[1..], c);
    }
  }

  /** Reading a literal never makes up a line break. */
  lemma {:induction false} LiteralBreak(raw: string, key: Key)
    requires '\n' !in raw
    ensures Literal(raw, key).Some? ==> '\n' !in Literal(raw, key).value
  {
    var stripped := Strip(raw);
    if '\n' in stripped {
      StripMembers(raw, '\n');
    }
    if |stripped| >= 2 && '\n' in Undoubled(stripped[1..|stripped| - 1]) {
      UndoubledMembers(stripped[1..|stripped| - 1], '\n');
    }
  }

  lemma {:induction false} PairReadsAs(keys: seq<Key>, key: Key, v: string, values: map<string, string>, read: Option<string>)
    requires IsName(key.name) && KeyNamed(keys, key.name) == Some(key)
    requires read == Literal(Strip(FirstLine(Quoted(v))), key)
    ensures ReadPair(Pair(key, v), keys, values)
         == if read.None? then Bad(TooLong(key.name)) else Values(values[key.name := read.value])
  {
    PairRead(key, v);
  }

  /** The first line of a printed value reads back as the value just when that was all of it. */
  lemma {:induction false} LineReads(key: Key, v: string)
    ensures Literal(Strip(FirstLine(Quoted(v))), key) == Some(v) <==> !HasBreak(v)
  {
    var q, line := Quoted(v), FirstLine(Quoted(v));
    QuotedBreak(v);
    SpanStops(q, '\n');
    if HasBreak(v) {
      if '\n' in Strip(line) {
        StripMembers(line, '\n');
      }
      LiteralBreak(Strip(line), key);
    } else {
      assert line == q;
      Unstripped(q);
      LiteralQuoted(v, key);
    }
  }

  /** One printed pair reads back as its value just when the value has no line break. */
  lemma {:induction false} PairRoundTrip(keys: seq<Key>, key: Key, v: string, values: map<string, string>)
    requires IsName(key.name) && KeyNamed(keys, key.name) == Some(key)
    ensures var r := ReadPair(Pair(key, v), keys, values);
      && (r == Values(values[key.name := v]) <==> !HasBreak(v))
      && (r.Values? ==> key.name in r.values && (HasBreak(v) ==> r.values[key.name] != v))
  {
    var read := Literal(Strip(FirstLine(Quoted(v))), key);
    PairReadsAs(keys, key, v, values, read);
    LineReads(key, v);
    if read.Some? && HasBreak(v) {
      assert values[key.name := read.value][key.name] != values[key.name := v][key.name];
    }
  }

  // ----- the whole predicate -----

  function ValuesOf(keys: seq<Key>, values: seq<string>): map<string, string>
    requires |keys| == |values|
  {
    if |keys| == 0 then map[]
    else ValuesOf(keys[..|keys| - 1], values[..|keys| - 1])[keys[|keys| - 1].name := values[|keys| - 1]]
  }

  lemma {:induction false} KeyFound(keys: seq<Key>, i: nat)
    requires i < |keys| && KeysNamed(keys)
    ensures KeyNamed(keys, keys[i].name) == Some(keys[i])
  {
    if i > 0 {
      KeyFound(keys[1..], i - 1);
    }
  }

  lemma {:induction false} ValuesAt(keys: seq<Key>, values: seq<string>, i: nat)
    requires |keys| == |values| && i < |keys| && KeysNamed(keys)
    ensures keys[i].name in ValuesOf(keys, values) && ValuesOf(keys, values)[keys[i].name] == values[i]
  {
    if i < |keys| - 1 {
      ValuesAt(keys[..|keys| - 1], values[..|keys| - 1], i);
    }
  }

  ghost predicate NoBreaks(values: seq<string>) {
    forall i :: 0 <= i < |values| ==> !HasBreak(values[i])
  }

  lemma {:induction false} ReadPairsBack(all: seq<Key>, keys: seq<Key>, values: seq<string>)
    requires |keys| == |values| && KeysNamed(all) && keys <= all && NoBreaks(values)
    ensures ReadPairs(Pairs(keys, values), all) == Values(ValuesOf(keys, values))
  {
    if |keys| > 0 {
      var n := |keys| - 1;
      ReadPairsBack(all, keys[..n], values[..n]);
      PairsPrefix(keys, values, n);
      KeyFound(all, n);
      PairRoundTrip(all, keys[n], values[n], ValuesOf(keys[..n], values[..n]));
    }
  }

  /** Read as something else, or not at all. */
  ghost predicate Loses(r: Parsed, name: string, v: string) {
    r.Values? ==> name in r.values && r.values[name] != v
  }

  lemma {:induction false} LosesHere(keys: seq<Key>, key: Key, v: string, values: map<string, string>)
    requires IsName(key.name) && KeyNamed(keys, key.name) == Some(key) && HasBreak(v)
    ensures Loses(ReadPair(Pair(key, v), keys, values), key.name, v)
  {
    PairRoundTrip(keys, key, v, values);
  }

  lemma {:induction false} LosesStill(keys: seq<Key>, key: Key, v: string, values: map<string, string>, name: string, w: string)
    requires IsName(key.name) && KeyNamed(keys, key.name) == Some(key) && name != key.name
    requires Loses(Values(values), name, w)
    ensures Loses(ReadPair(Pair(key, v), keys, values), name, w)
  {
    PairReadsAs(keys, key, v, values, Literal(Strip(FirstLine(Quoted(v))), key));
  }

  lemma {:induction false} LastRead(parts: seq<string>, keys: seq<Key>, before: Parsed)
    requires |parts| > 0 && before == ReadPairs(parts[..|parts| - 1], keys)
    ensures ReadPairs(parts, keys)
         == if before.Bad? then before else ReadPair(parts[|parts| - 1], keys, before.values)
  {
  }

  /** One more part read: the loss of an earlier value stands, or this one is lost. */
  lemma {:induction false} OneMoreLost(all: seq<Key>, key: Key, v: string, before: Parsed, name: string, w: string)
    requires IsName(key.name) && KeyNamed(all, key.name) == Some(key)
    requires (name != key.name && Loses(before, name, w)) || (name == key.name && w == v && HasBreak(v))
    ensures Loses(if before.Bad? then before else ReadPair(Pair(key, v), all, before.values), name, w)
  {
    if before.Values? {
      if name != key.name {
        LosesStill(all, key, v, before.values, name, w);
      } else {
        LosesHere(all, key, v, before.values);
      }
    }
  }

  lemma {:induction false} ReadPairsLose(all: seq<Key>, keys: seq<Key>, values: seq<string>, i: nat)
    requires |keys| == |values| && KeysNamed(all) && keys <= all && i < |keys| && HasBreak(values[i])
    ensures Loses(ReadPairs(Pairs(keys, values), all), keys[i].name, values[i])
  {
    hide Loses, ReadPairs, ReadPair, Pair, KeyNamed, HasBreak;
    var n := |keys| - 1;
    var before := ReadPairs(Pairs(keys[..n], values[..n]), all);
    PairsPrefix(keys, values, n);
    LastRead(Pairs(keys, values), all, before);
    KeyFound(all, n);
    assert keys[n] == all[n] && keys[i] == all[i];
    if i < n {
      ReadPairsLose(all, keys[..n], values[..n], i);
    }
    OneMoreLost(all, keys[n], values[n], before, keys[i].name, values[i]);
  }

  /** Several keys: what is printed reads back as the same values, quotes and commas and all, just
      when no value has a line break. */
  lemma {:induction false} CompositeRoundTrip(keys: seq<Key>, values: seq<string>)
    requires |keys| == |values| >= 2 && KeysNamed(keys)
    ensures Parse(Print(keys, values), keys) == Values(ValuesOf(keys, values)) <==> NoBreaks(values)
  {
    var pairs := Pairs(keys, values);
    InnerOf(Joined(pairs));
    SplitJoined(keys, values);
    assert Parse(Print(keys, values), keys) == ParseParts(pairs, keys);
    if NoBreaks(values) {
      ReadPairsBack(keys, keys, values);
      forall i | 0 <= i < |keys| ensures keys[i].name in ValuesOf(keys, values) {
        ValuesAt(keys, values, i);
      }
    } else {
      var i :| 0 <= i < |values| && HasBreak(values[i]);
      ReadPairsLose(keys, keys, values, i);
      ValuesAt(keys, values, i);
    }
  }

  lemma {:induction false} NoPair(v: string)
    ensures PairOf(Quoted(v)) == None
  {
    var q := Quoted(v);
    SpanAll(q, c => IsSpace(c), 0);
    assert AfterSpace(q) == q;
  }

  lemma {:induction false} ReadOne(part: string, keys: seq<Key>)
    ensures ReadPairs([part], keys) == ReadPair(part, keys, map[])
  {
    assert [part][..0] == [];
  }

  /** One key: what is printed reads back just when the value has no equals sign. */
  lemma {:induction false} SingleRoundTrip(key: Key, v: string)
    ensures Parse(Print([key], [v]), [key]) == Values(map[key.name := v]) <==> '=' !in v
  {
    InnerOf(Quoted(v));
    SplitQuoted(v);
    assert Parse(Print([key], [v]), [key]) == ParseParts([Quoted(v)], [key]);
    QuotedBreak(v);
    if '=' !in v {
      LiteralQuoted(v, key);
    } else {
      NoPair(v);
      ReadOne(Quoted(v), [key]);
    }
  }

  // ----- pairs in any order, and not all of them -----

  ghost predicate KeysAmong(some: seq<Key>, all: seq<Key>) {
    forall i :: 0 <= i < |some| ==> KeyNamed(all, some[i].name) == Some(some[i])
  }

  lemma {:induction false} ReadsAmong(all: seq<Key>, keys: seq<Key>, values: seq<string>)
    requires |keys| == |values| && KeysNamed(keys) && KeysAmong(keys, all) && NoBreaks(values)
    ensures ReadPairs(Pairs(keys, values), all) == Values(ValuesOf(keys, values))
  {
    if |keys| > 0 {
      var n := |keys| - 1;
      ReadsAmong(all, keys[..n], values[..n]);
      PairsPrefix(keys, values, n);
      PairRoundTrip(all, keys[n], values[n], ValuesOf(keys[..n], values[..n]));
    }
  }

  lemma {:induction false} OnlyNamed(keys: seq<Key>, values: seq<string>, name: string)
    requires |keys| == |values|
    ensures name in ValuesOf(keys, values) <==> exists i :: 0 <= i < |keys| && keys[i].name == name
  {
    if |keys| > 0 {
      var n := |keys| - 1;
      OnlyNamed(keys[..n], values[..n], name);
      if i :| 0 <= i < |keys| && keys[i].name == name && i < n {
        assert keys[..n][i].name == name;
      }
    }
  }

  ghost predicate NamesAll(all: seq<Key>, keys: seq<Key>) {
    forall k :: 0 <= k < |all| ==> exists i :: 0 <= i < |keys| && keys[i].name == all[k].name
  }

  /** Pairs of an entity's keys, in whatever order: read as their values if every key is there, and
      refused as incomplete if one is not. */
  lemma {:induction false} PairsInAnyOrder(all: seq<Key>, keys: seq<Key>, values: seq<string>)
    requires |keys| == |values| >= 1 && KeysNamed(keys) && KeysAmong(keys, all) && NoBreaks(values)
    ensures Parse("(" + Joined(Pairs(keys, values)) + ")", all)
         == if NamesAll(all, keys) then Values(ValuesOf(keys, values)) else Bad(Missing)
  {
    hide ReadPairs, Pair, KeyNamed, HasBreak, SplitTopLevel, KeysNamed, Joined, Inner;
    var pairs := Pairs(keys, values);
    InnerOf(Joined(pairs));
    SplitJoined(keys, values);
    HasEquals(keys[0], values[0]);
    ReadsAmong(all, keys, values);
    forall k | 0 <= k < |all|
      ensures all[k].name in ValuesOf(keys, values) <==> exists i :: 0 <= i < |keys| && keys[i].name == all[k].name
    {
      OnlyNamed(keys, values, all[k].name);
    }
  }

  lemma {:induction false} HasEquals(key: Key, v: string)
    ensures '=' in Pair(key, v)
  {
    assert Pair(key, v)[|key.name|] == '=';
  }

  lemma {:induction false} JoinedTwo(p: string, q: string)
    ensures Joined([p, q]) == p + "," + q
  {
    assert [p, q][..1] == [p];
  }

  /** How a predicate is written: a single key's value alone, two as pairs, each value in quotes. */
  lemma {:induction false} PrintedAs(keys: seq<Key>, values: seq<string>)
    requires |keys| == |values| == 2
    ensures Print(keys[..1], values[..1]) == "(" + ("'" + Doubled(values[0]) + "'") + ")"
    ensures var first, second := "'" + Doubled(values[0]) + "'", "'" + Doubled(values[1]) + "'";
      Print(keys, values) == "(" + (keys[0].name + "=" + first + "," + (keys[1].name + "=" + second)) + ")"
  {
    hide Doubled, Joined;
    var p, q := Pair(keys[0], values[0]), Pair(keys[1], values[1]);
    assert Pairs(keys, values) == [p, q];
    JoinedTwo(p, q);
  }

  /** And the quotes in a value twice, nothing else of it changed. */
  lemma {:induction false} DoubledAs(before: string, after: string)
    requires '\'' !in before
    ensures Doubled(before + "'" + after) == before + "''" + Doubled(after)
    ensures Doubled(before) == before
  {
    hide Doubled;
    DoubledParts(before, after);
    DoubledPlain(before);
  }

  lemma {:induction false} DoubledParts(before: string, after: string)
    ensures Doubled(before + "'" + after) == Doubled(before) + "''" + Doubled(after)
  {
    if before == "" {
      assert "" + "'" + after == "'" + after && ("'" + after)[1..] == after;
    } else {
      var rest := before[1..];
      DoubledParts(rest, after);
      assert (before + "'" + after)[1..] == rest + "'" + after;
    }
  }

  lemma {:induction false} DoubledPlain(v: string)
    requires '\'' !in v
    ensures Doubled(v) == v
  {
    if v != "" {
      assert v == [v[0]] + v[1..];
      DoubledPlain(v[1..]);
    }
  }
}
