/** The journal's value renderer (logfmt.py), and the quote-counting reader every consumer of a line is. */
module LogFmt {
  import opened Common
  import opened Text

  /** A field's value as it is given. */
  datatype Value = Absent | Bool(b: bool) | Text(text: string)

  /** Unicode's Cc category. */
  predicate IsControl(c: char) { c as int <= 0x1f || 0x7f <= c as int <= 0x9f }

  function BlankControls(s: string): (r: string)
    ensures |r| == |s|
  {
    seq(|s|, i requires 0 <= i < |s| => if IsControl(s[i]) then ' ' else s[i])
  }

  /** `split()`, with `word` the word being read. */
  function Split(s: string, word: string): seq<string> {
    var ended := if word == "" then [] else [word];
    if s == "" then ended
    else if IsSpace(s[0]) then ended + Split(s[1..], "")
    else Split(s[1..], word + [s[0]])
  }

  /** `" ".join`. */
  function Join(words: seq<string>): string {
    if words == [] then ""
    else if |words| == 1 then words[0]
    else words[0] + " " + Join(words[1..])
  }

  function Flatten(s: string): string { Join(Split(BlankControls(s), "")) }

  function Swapped(s: string): (r: string)
    ensures |r| == |s|
  {
    seq(|s|, i requires 0 <= i < |s| => if s[i] == '"' then '\'' else s[i])
  }

  function TextOf(value: Value): string {
    match value
    case Absent => ""
    case Bool(b) => if b then "true" else "false"
    case Text(text) => text
  }

  /** `_render_value`. */
  function Rendered(value: Value): string {
    var text := Flatten(TextOf(value));
    if ' ' in text || '=' in text || '"' in text then "\"" + Swapped(text) + "\"" else text
  }

  /** What a reader is to find: the flattened value, its own quotes swapped. */
  function Normal(value: Value): string { Swapped(Flatten(TextOf(value))) }

  /** The fields that are not dropped, in order, as a reader is to find them. */
  function Fields(pairs: seq<(string, Value)>): seq<(string, string)> {
    if pairs == [] then []
    else
      var n := |pairs| - 1;
      var before := Fields(pairs[..n]);
      if Normal(pairs[n].1) == "" then before else before + [(pairs[n].0, Normal(pairs[n].1))]
  }

  function Parts(pairs: seq<(string, Value)>): seq<string> {
    if pairs == [] then []
    else
      var n := |pairs| - 1;
      var before := Parts(pairs[..n]);
      if Rendered(pairs[n].1) == "" then before else before + [pairs[n].0 + "=" + Rendered(pairs[n].1)]
  }

  /** `log_fields`. */
  method LogFields(pairs: seq<(string, Value)>) returns (line: string)
    requires forall i :: 0 <= i < |pairs| ==> IsKey(pairs[i].0)
    ensures line == Join(Parts(pairs)) && Parse(line) == Fields(pairs)
  {
    var parts := [];
    for n := 0 to |pairs|
      invariant parts == Parts(pairs[..n])
    {
      var (key, value) := pairs[n];
      assert pairs[..n + 1][..n] == pairs[..n];
      if value.Absent? {
        FlattenEmpty();
        continue;
      }
      var text := Rendered(value);
      if text != "" {
        parts := parts + [key + "=" + text];
      }
    }
    assert pairs[..|pairs|] == pairs;
    line := Join(parts);
    RoundTrip(pairs);
  }

  lemma FlattenEmpty()
    ensures Flatten("") == ""
  {
    assert BlankControls("") == "";
  }

  // ---------------------------------------------------------------- the reader

  /** A keyword argument's name has none of the characters the line is built with, and no control. */
  predicate IsKey(key: string) {
    forall c :: c in key ==> c != ' ' && c != '=' && c != '"' && !IsControl(c)
  }

  /** How many double quotes. */
  function Quotes(s: string): nat {
    if s == "" then 0 else Quotes(s[..|s| - 1]) + if s[|s| - 1] == '"' then 1 else 0
  }

  /** Cut at each space with an even number of quotes before it. `quoted` is whether the number so far is
      odd, and `token` is the token being read. */
  function Tokens(s: string, quoted: bool, token: string): seq<string> {
    if s == "" then [token]
    else if s[0] == ' ' && !quoted then [token] + Tokens(s[1..], false, "")
    else Tokens(s[1..], quoted != (s[0] == '"'), token + [s[0]])
  }

  function KeyLength(token: string): (n: nat)
    ensures n <= |token|
  {
    if token == "" || token[0] == '=' then 0 else 1 + KeyLength(token[1..])
  }

  function Unquoted(text: string): string {
    if |text| >= 2 && text[0] == '"' && text[|text| - 1] == '"' then text[1..|text| - 1] else text
  }

  function Field(token: string): (string, string) {
    var n := KeyLength(token);
    (token[..n], Unquoted(if n < |token| then token[n + 1..] else ""))
  }

  function ParseAll(tokens: seq<string>): (fs: seq<(string, string)>)
    ensures |fs| == |tokens|
  {
    seq(|tokens|, i requires 0 <= i < |tokens| => Field(tokens[i]))
  }

  function Parse(line: string): seq<(string, string)> {
    if line == "" then [] else ParseAll(Tokens(line, false, ""))
  }

  // ---------------------------------------------------------------- flattening

  ghost predicate IsWord(w: string) { w != "" && forall c :: c in w ==> !IsSpace(c) && !IsControl(c) }

  ghost predicate AreWords(words: seq<string>) { forall i :: 0 <= i < |words| ==> IsWord(words[i]) }

  lemma {:induction false} SplitGivesWords(s: string, word: string)
    requires word == "" || IsWord(word)
    requires forall c :: c in s ==> !IsControl(c)
    ensures AreWords(Split(s, word))
  {
    if s != "" {
      assert s[0] in s;
      assert forall c :: c in s[1..] ==> c in s;
      SplitGivesWords(s[1..], if IsSpace(s[0]) then "" else word + [s[0]]);
    }
  }

  lemma {:induction false} SplitWord(w: string, rest: string, word: string)
    requires forall c :: c in w ==> !IsSpace(c)
    ensures Split(w + rest, word) == Split(rest, word + w)
  {
    if w == "" {
      assert w + rest == rest && word + w == word;
    } else {
      assert w[0] in w && (w + rest)[0] == w[0];
      assert forall c :: c in w[1..] ==> c in w;
      assert (w + rest)[1..] == w[1..] + rest && word + [w[0]] + w[1..] == word + w;
      SplitWord(w[1..], rest, word + [w[0]]);
    }
  }

  lemma {:induction false} SplitOfJoin(words: seq<string>)
    requires AreWords(words)
    ensures Split(Join(words), "") == words
  {
    if words != [] {
      var w := words[0];
      assert IsWord(w);
      assert "" + w == w;
      if |words| == 1 {
        assert w + "" == w;
        SplitWord(w, "", "");
      } else {
        var rest := " " + Join(words[1..]);
        assert Join(words) == w + rest;
        SplitWord(w, rest, "");
        assert rest[1..] == Join(words[1..]) && IsSpace(rest[0]);
        assert Split(rest, w) == [w] + Split(rest[1..], "");
        assert AreWords(words[1..]) by { assert forall i :: 0 <= i < |words[1..]| ==> words[1..][i] == words[i + 1]; }
        SplitOfJoin(words[1..]);
      }
    }
  }

  lemma {:induction false} JoinChars(words: seq<string>)
    requires AreWords(words)
    ensures forall c :: c in Join(words) ==> !IsControl(c) && (IsSpace(c) ==> c == ' ')
  {
    if |words| == 1 {
      assert IsWord(words[0]);
    } else if |words| > 1 {
      assert IsWord(words[0]);
      assert AreWords(words[1..]) by { assert forall i :: 0 <= i < |words[1..]| ==> words[1..][i] == words[i + 1]; }
      JoinChars(words[1..]);
    }
  }

  lemma FlattenGivesWords(s: string) returns (words: seq<string>)
    ensures AreWords(words) && Flatten(s) == Join(words)
    ensures forall c :: c in Flatten(s) ==> !IsControl(c) && (IsSpace(c) ==> c == ' ')
  {
    words := Split(BlankControls(s), "");
    SplitGivesWords(BlankControls(s), "");
    JoinChars(words);
  }

  lemma BlankNothing(s: string)
    requires forall c :: c in s ==> !IsControl(c)
    ensures BlankControls(s) == s
  {
    forall i | 0 <= i < |s| ensures BlankControls(s)[i] == s[i] {
      assert s[i] in s;
    }
  }

  /** Swapping quotes word by word. */
  function SwappedWords(words: seq<string>): (r: seq<string>)
    ensures |r| == |words|
  {
    seq(|words|, i requires 0 <= i < |words| => Swapped(words[i]))
  }

  lemma {:induction false} SwappedJoin(words: seq<string>)
    ensures Swapped(Join(words)) == Join(SwappedWords(words))
  {
    if |words| > 1 {
      SwappedJoin(words[1..]);
      assert SwappedWords(words)[1..] == SwappedWords(words[1..]);
      assert Swapped(words[0] + " " + Join(words[1..])) == Swapped(words[0]) + " " + Swapped(Join(words[1..]));
    }
  }

  lemma SwappedAreWords(words: seq<string>)
    requires AreWords(words)
    ensures AreWords(SwappedWords(words))
  {
    forall i | 0 <= i < |words| ensures IsWord(SwappedWords(words)[i]) {
      assert IsWord(words[i]);
      forall c | c in Swapped(words[i]) ensures !IsSpace(c) && !IsControl(c) {
        var j :| 0 <= j < |words[i]| && Swapped(words[i])[j] == c;
        assert words[i][j] in words[i];
      }
    }
  }

  /** Normalizing a normalized value changes nothing. */
  lemma NormalIsIdempotent(value: Value)
    ensures Normal(Text(Normal(value))) == Normal(value)
  {
    var words := FlattenGivesWords(TextOf(value));
    SwappedJoin(words);
    SwappedAreWords(words);
    JoinChars(SwappedWords(words));
    BlankNothing(Normal(value));
    SplitOfJoin(SwappedWords(words));
    assert Swapped(Normal(value)) == Normal(value);
  }

  // ---------------------------------------------------------------- a token is read back

  /** Reading `s` from `quoted` meets no separator, and ends outside quotes. */
  predicate Solid(s: string, quoted: bool) {
    if s == "" then !quoted
    else (s[0] != ' ' || quoted) && Solid(s[1..], quoted != (s[0] == '"'))
  }

  lemma {:induction false} TokensSolid(s: string, rest: string, quoted: bool, token: string)
    requires Solid(s, quoted)
    ensures Tokens(s + rest, quoted, token) == Tokens(rest, false, token + s)
  {
    if s == "" {
      assert s + rest == rest && token + s == token;
    } else {
      assert (s + rest)[1..] == s[1..] + rest && token + [s[0]] + s[1..] == token + s;
      TokensSolid(s[1..], rest, quoted != (s[0] == '"'), token + [s[0]]);
    }
  }

  lemma {:induction false} SolidConcat(a: string, b: string, quoted: bool)
    requires '"' !in a && (quoted || ' ' !in a) && Solid(b, quoted)
    ensures Solid(a + b, quoted)
  {
    if a == "" {
      assert a + b == b;
    } else {
      assert a[0] in a && (a + b)[1..] == a[1..] + b;
      assert forall c :: c in a[1..] ==> c in a;
      SolidConcat(a[1..], b, quoted);
    }
  }

  lemma NoQuotesLeft(s: string)
    ensures '"' !in Swapped(s)
    ensures '"' !in s ==> Swapped(s) == s
  {
  }

  lemma QuotedReadsBack(text: string)
    ensures Solid("\"" + Swapped(text) + "\"", false) && Unquoted("\"" + Swapped(text) + "\"") == Swapped(text)
  {
    var quoted := "\"" + Swapped(text) + "\"";
    NoQuotesLeft(text);
    SolidConcat(Swapped(text), "\"", true);
    assert quoted[1..] == Swapped(text) + "\"";
    assert quoted[1..|quoted| - 1] == Swapped(text);
  }

  lemma PlainReadsBack(text: string)
    requires ' ' !in text && '"' !in text
    ensures Solid(text, false) && Unquoted(text) == Swapped(text)
  {
    NoQuotesLeft(text);
    SolidConcat(text, "", false);
    assert text + "" == text;
    if |text| >= 2 {
      assert text[0] in text;
    }
  }

  lemma RenderedIsSolid(value: Value)
    ensures Solid(Rendered(value), false) && Unquoted(Rendered(value)) == Normal(value)
    ensures Rendered(value) == "" <==> Normal(value) == ""
  {
    var text := Flatten(TextOf(value));
    if ' ' in text || '=' in text || '"' in text {
      QuotedReadsBack(text);
    } else {
      PlainReadsBack(text);
    }
  }

  lemma {:induction false} KeyLengthOf(key: string, rest: string)
    requires '=' !in key
    ensures KeyLength(key + "=" + rest) == |key|
  {
    if key != "" {
      assert key[0] in key && (key + "=" + rest)[1..] == key[1..] + "=" + rest;
      assert forall c :: c in key[1..] ==> c in key;
      KeyLengthOf(key[1..], rest);
    }
  }

  /** One part is one token, and reads back as its key and its normalized value. */
  lemma PartReadsBack(key: string, value: Value)
    requires IsKey(key)
    ensures var part := key + "=" + Rendered(value); Solid(part, false) && Field(part) == (key, Normal(value))
  {
    RenderedIsSolid(value);
    KeyLengthOf(key, Rendered(value));
    var part := key + "=" + Rendered(value);
    assert part == (key + "=") + Rendered(value);
    SolidConcat(key + "=", Rendered(value), false);
    assert part[..|key|] == key && part[|key| + 1..] == Rendered(value);
  }

  // ---------------------------------------------------------------- a line is read back

  ghost predicate AllSolid(parts: seq<string>) {
    forall i :: 0 <= i < |parts| ==> parts[i] != "" && Solid(parts[i], false)
  }

  lemma {:induction false} TokensOfJoin(parts: seq<string>)
    requires parts != [] && AllSolid(parts)
    ensures Tokens(Join(parts), false, "") == parts
  {
    var p := parts[0];
    assert "" + p == p;
    if |parts| == 1 {
      assert p + "" == p;
      TokensSolid(p, "", false, "");
    } else {
      var rest := " " + Join(parts[1..]);
      assert Join(parts) == p + rest && rest[1..] == Join(parts[1..]);
      TokensSolid(p, rest, false, "");
      assert Tokens(rest, false, p) == [p] + Tokens(rest[1..], false, "");
      assert AllSolid(parts[1..]) by { assert forall i :: 0 <= i < |parts[1..]| ==> parts[1..][i] == parts[i + 1]; }
      TokensOfJoin(parts[1..]);
    }
  }

  lemma {:induction false} PartsReadBack(pairs: seq<(string, Value)>)
    requires forall i :: 0 <= i < |pairs| ==> IsKey(pairs[i].0)
    ensures AllSolid(Parts(pairs)) && ParseAll(Parts(pairs)) == Fields(pairs)
  {
    if pairs != [] {
      var n := |pairs| - 1;
      assert forall i :: 0 <= i < n ==> pairs[..n][i] == pairs[i];
      PartsReadBack(pairs[..n]);
      RenderedIsSolid(pairs[n].1);
      PartReadsBack(pairs[n].0, pairs[n].1);
      OneMorePart(Parts(pairs[..n]), pairs[n].0 + "=" + Rendered(pairs[n].1));
    }
  }

  lemma OneMorePart(parts: seq<string>, part: string)
    requires AllSolid(parts) && part != "" && Solid(part, false)
    ensures AllSolid(parts + [part]) && ParseAll(parts + [part]) == ParseAll(parts) + [Field(part)]
  {
  }

  lemma JoinNonEmpty(parts: seq<string>)
    requires AllSolid(parts)
    ensures Join(parts) == "" <==> parts == []
  {
    if parts != [] {
      assert parts[0] != "";
    }
  }

  /** A reader that counts quotes recovers exactly the fields that were not dropped, in order. */
  lemma RoundTrip(pairs: seq<(string, Value)>)
    requires forall i :: 0 <= i < |pairs| ==> IsKey(pairs[i].0)
    ensures Parse(Join(Parts(pairs))) == Fields(pairs)
  {
    PartsReadBack(pairs);
    JoinNonEmpty(Parts(pairs));
    if Parts(pairs) != [] {
      TokensOfJoin(Parts(pairs));
    }
  }

  // ---------------------------------------------------------------- what the consumers count

  lemma {:induction false} QuotesConcat(a: string, b: string)
    ensures Quotes(a + b) == Quotes(a) + Quotes(b)
  {
    if b == "" {
      assert a + b == a;
    } else {
      QuotesConcat(a, b[..|b| - 1]);
      assert (a + b)[..|a + b| - 1] == a + b[..|b| - 1];
    }
  }

  /** A solid token's quotes pair up, and any space in it has an odd number before it. */
  lemma {:induction false} SolidQuotes(s: string, quoted: bool, i: int)
    requires Solid(s, quoted)
    ensures (Quotes(s) % 2 == 1) == quoted
    ensures 0 <= i < |s| && s[i] == ' ' ==> (Quotes(s[..i]) % 2 == 1) != quoted
    decreases |s|
  {
    if s != "" {
      SolidQuotes(s[1..], quoted != (s[0] == '"'), i - 1);
      QuotesHead(s[0], s[1..]);
      assert s == [s[0]] + s[1..];
      if 0 < i < |s| {
        assert s[..i] == [s[0]] + s[1..][..i - 1];
        QuotesHead(s[0], s[1..][..i - 1]);
      }
    }
  }

  lemma QuotesHead(c: char, rest: string)
    ensures Quotes([c] + rest) == (if c == '"' then 1 else 0) + Quotes(rest)
  {
    QuotesConcat([c], rest);
    assert [c][..0] == "";
  }

  /** Where the separators of a line are: after each part but the last. */
  ghost predicate IsSeparator(parts: seq<string>, i: int) {
    exists k :: 0 < k < |parts| && i == |Join(parts[..k])|
  }

  /** A space in a line has an even number of quotes before it exactly when it separates two fields. */
  lemma {:induction false} SeparatorsAreTheEvenSpaces(parts: seq<string>, i: int)
    requires AllSolid(parts) && 0 <= i < |Join(parts)| && Join(parts)[i] == ' '
    ensures Quotes(Join(parts)[..i]) % 2 == 0 <==> IsSeparator(parts, i)
    decreases |parts|
  {
    var p := parts[0];
    SolidQuotes(p, false, i);
    if |parts| > 1 {
      var tail := Join(parts[1..]);
      assert Join(parts) == p + " " + tail;
      assert AllSolid(parts[1..]) by { assert forall j :: 0 <= j < |parts[1..]| ==> parts[1..][j] == parts[j + 1]; }
      assert parts[..1] == [p];
      if i < |p| {
        NotInTheFirst(parts, i);
        assert Join(parts)[..i] == p[..i];
      } else if i == |p| {
        assert Join(parts)[..i] == p;
        assert i == |Join(parts[..1])|;
      } else {
        var j := i - |p| - 1;
        SeparatorsAreTheEvenSpaces(parts[1..], j);
        assert Join(parts)[..i] == p + " " + tail[..j];
        QuotesConcat(p, " ");
        QuotesConcat(p + " ", tail[..j]);
        assert Quotes(" ") == 0 by { assert " "[..0] == ""; }
        SeparatorsShift(parts, j);
      }
    } else {
      assert Join(parts) == p;
    }
  }

  lemma JoinHead(parts: seq<string>, k: int)
    requires 1 < k <= |parts|
    ensures Join(parts[..k]) == parts[0] + " " + Join(parts[1..][..k - 1])
  {
    assert parts[..k][1..] == parts[1..][..k - 1];
  }

  lemma NotInTheFirst(parts: seq<string>, i: int)
    requires |parts| > 1 && i < |parts[0]|
    ensures !IsSeparator(parts, i)
  {
    forall k | 0 < k < |parts| ensures i != |Join(parts[..k])| {
      if k == 1 {
        assert parts[..1] == [parts[0]];
      } else {
        JoinHead(parts, k);
      }
    }
  }

  lemma SeparatorsShift(parts: seq<string>, j: int)
    requires |parts| > 1 && 0 <= j
    ensures IsSeparator(parts, |parts[0]| + 1 + j) <==> IsSeparator(parts[1..], j)
  {
    var i := |parts[0]| + 1 + j;
    if IsSeparator(parts[1..], j) {
      var k :| 0 < k < |parts[1..]| && j == |Join(parts[1..][..k])|;
      JoinHead(parts, k + 1);
      assert i == |Join(parts[..k + 1])|;
    }
    if IsSeparator(parts, i) {
      var k :| 0 < k < |parts| && i == |Join(parts[..k])|;
      assert parts[..1] == [parts[0]];
      if k > 1 {
        JoinHead(parts, k);
        assert j == |Join(parts[1..][..k - 1])|;
      }
    }
  }

  /** For any fields, then: the spaces a consumer may cut at are exactly the separators. */
  lemma LineSeparators(pairs: seq<(string, Value)>, i: int)
    requires forall j :: 0 <= j < |pairs| ==> IsKey(pairs[j].0)
    requires 0 <= i < |Join(Parts(pairs))| && Join(Parts(pairs))[i] == ' '
    ensures Quotes(Join(Parts(pairs))[..i]) % 2 == 0 <==> IsSeparator(Parts(pairs), i)
  {
    PartsReadBack(pairs);
    SeparatorsAreTheEvenSpaces(Parts(pairs), i);
  }

  predicate ControlFree(s: string) { forall c :: c in s ==> !IsControl(c) }

  lemma PartHasNoControls(key: string, value: Value)
    requires IsKey(key)
    ensures ControlFree(key + "=" + Rendered(value))
  {
    var words := FlattenGivesWords(TextOf(value));
  }

  lemma JoinHasNoControls(parts: seq<string>, part: string)
    requires ControlFree(Join(parts)) && ControlFree(part)
    ensures ControlFree(Join(parts + [part]))
  {
    JoinSnoc(parts, part);
    assert ControlFree(" ");
  }

  /** And no value can put a control character in a line, so none can break or paint it. */
  lemma {:induction false} LineHasNoControls(pairs: seq<(string, Value)>)
    requires forall i :: 0 <= i < |pairs| ==> IsKey(pairs[i].0)
    ensures ControlFree(Join(Parts(pairs)))
    ensures forall c :: c in Join(Parts(pairs)) ==> 0x20 <= c as int <= 0x7e || 0xa0 <= c as int
  {
    if pairs != [] {
      var n := |pairs| - 1;
      assert forall i :: 0 <= i < n ==> pairs[..n][i] == pairs[i];
      LineHasNoControls(pairs[..n]);
      var part := pairs[n].0 + "=" + Rendered(pairs[n].1);
      PartHasNoControls(pairs[n].0, pairs[n].1);
      JoinHasNoControls(Parts(pairs[..n]), part);
    }
  }

  lemma {:induction false} JoinSnoc(parts: seq<string>, part: string)
    ensures Join(parts + [part]) == if parts == [] then part else Join(parts) + " " + part
  {
    if parts == [] {
      assert parts + [part] == [part];
    } else {
      JoinSnoc(parts[1..], part);
      assert (parts + [part])[1..] == parts[1..] + [part];
      assert parts == [parts[0]] + parts[1..];
    }
  }
}
