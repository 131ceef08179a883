/** What a rendered value keeps of the text it was given: every character that is neither white space nor control, in
    order, and one space wherever there was white space or a control between two of them. */
module LogValues {
  import opened Common
  import opened Text
  import opened LogFmt

  /** White space or a control character. */
  predicate IsGap(c: char) { IsSpace(c) || IsControl(c) }

  /** Everything else, in order. */
  function Letters(s: string): string {
    if s == "" then "" else if IsGap(s[0]) then Letters(s[1..]) else [s[0]] + Letters(s[1..])
  }

  /** For each letter, whether there is a gap between it and the letter before; `gap` is whether there is one before
      the text. */
  function BreaksFrom(s: string, gap: bool): seq<bool> {
    if s == "" then []
    else if IsGap(s[0]) then BreaksFrom(s[1..], true)
    else [gap] + BreaksFrom(s[1..], false)
  }

  /** For each letter, whether it is the first or there is a gap before it. */
  function Breaks(s: string): seq<bool> { BreaksFrom(s, true) }

  /** The only gaps are single spaces, each with a letter after it. */
  ghost predicate Tight(s: string) {
    forall i :: 0 <= i < |s| && IsGap(s[i]) ==> s[i] == ' ' && i + 1 < |s| && !IsGap(s[i + 1])
  }

  // ---------------------------------------------------------------- splitting and joining, in one pass

  /** What joining the split of `s` adds to a word being read; `open` is whether there is one. */
  function Tail(s: string, open: bool): string {
    if s == "" then ""
    else if IsSpace(s[0]) then
      var rest := Tail(s[1..], false);
      if open && rest != "" then " " + rest else rest
    else [s[0]] + Tail(s[1..], true)
  }

  lemma {:induction false} SplitNonEmpty(s: string, word: string)
    requires word != ""
    ensures Split(s, word) != []
    decreases |s|
  {
    if s != "" && !IsSpace(s[0]) {
      SplitNonEmpty(s[1..], word + [s[0]]);
    }
  }

  lemma {:induction false} SplitEmptyIff(s: string)
    ensures Split(s, "") == [] <==> Tail(s, false) == ""
  {
    if s != "" {
      if IsSpace(s[0]) {
        SplitEmptyIff(s[1..]);
      } else {
        SplitNonEmpty(s[1..], "" + [s[0]]);
      }
    }
  }

  lemma {:induction false} JoinIsTail(s: string, word: string)
    ensures Join(Split(s, word)) == word + Tail(s, word != "")
  {
    if s == "" {
      assert word + "" == word;
    } else if IsSpace(s[0]) {
      JoinIsTail(s[1..], "");
      JoinAtSpace(s, word);
    } else {
      JoinIsTail(s[1..], word + [s[0]]);
      assert word + [s[0]] + Tail(s[1..], true) == word + ([s[0]] + Tail(s[1..], true));
    }
  }

  lemma AtSpace(s: string, word: string)
    requires s != "" && IsSpace(s[0])
    ensures Split(s, word) == (if word == "" then [] else [word]) + Split(s[1..], "")
    ensures Tail(s, word != "")
            == if word != "" && Tail(s[1..], false) != "" then " " + Tail(s[1..], false) else Tail(s[1..], false)
  {
  }

  lemma JoinAtSpace(s: string, word: string)
    requires s != "" && IsSpace(s[0]) && Join(Split(s[1..], "")) == "" + Tail(s[1..], false)
    ensures Join(Split(s, word)) == word + Tail(s, word != "")
  {
    AtSpace(s, word);
    SplitEmptyIff(s[1..]);
    JoinWord(word, Split(s[1..], ""), Tail(s[1..], false));
  }

  lemma JoinWord(word: string, rest: seq<string>, tail: string)
    requires Join(rest) == "" + tail && (rest == [] <==> tail == "")
    ensures Join((if word == "" then [] else [word]) + rest)
            == word + if word != "" && tail != "" then " " + tail else tail
  {
    assert "" + tail == tail;
    if word == "" {
      assert [] + rest == rest;
    } else {
      JoinCons(word, rest);
      assert word + "" == word && word + " " + tail == word + (" " + tail);
    }
  }

  lemma JoinCons(word: string, rest: seq<string>)
    ensures Join([word] + rest) == if rest == [] then word else word + " " + Join(rest)
  {
    assert ([word] + rest)[1..] == rest;
  }

  // ---------------------------------------------------------------- what is kept

  ghost predicate OnlySpaces(s: string) { forall i :: 0 <= i < |s| && IsGap(s[i]) ==> IsSpace(s[i]) }

  lemma {:induction false} TailKeeps(s: string, open: bool)
    requires OnlySpaces(s)
    ensures Letters(Tail(s, open)) == Letters(s)
    ensures BreaksFrom(Tail(s, open), !open) == BreaksFrom(s, !open)
    ensures Tight(Tail(s, open)) && (!open && Tail(s, open) != "" ==> !IsGap(Tail(s, open)[0]))
  {
    if s != "" {
      var rest := Tail(s[1..], !IsSpace(s[0]));
      TailKeeps(s[1..], !IsSpace(s[0]));
      if IsSpace(s[0]) {
        assert (" " + rest)[1..] == rest;
        TightCons(' ', rest);
      } else {
        assert !IsGap(s[0]);
        assert ([s[0]] + rest)[1..] == rest;
        TightCons(s[0], rest);
      }
    }
  }

  lemma TightCons(c: char, rest: string)
    requires Tight(rest)
    ensures !IsGap(c) || (c == ' ' && rest != "" && !IsGap(rest[0])) ==> Tight([c] + rest)
  {
    var s := [c] + rest;
    if !IsGap(c) || (c == ' ' && rest != "" && !IsGap(rest[0])) {
      forall i | 0 <= i < |s| && IsGap(s[i]) ensures s[i] == ' ' && i + 1 < |s| && !IsGap(s[i + 1]) {
        if i > 0 {
          assert s[i] == rest[i - 1];
          assert rest[i - 1] == ' ' && i < |rest| && !IsGap(rest[i]);
        }
      }
    }
  }

  /** Two texts alike in which characters are gaps, and in the others as `f` turns them, have alike letters and the
      same breaks. */
  lemma {:induction false} BlankedKeeps(s: string)
    ensures Letters(BlankControls(s)) == Letters(s)
    ensures forall gap :: BreaksFrom(BlankControls(s), gap) == BreaksFrom(s, gap)
  {
    if s != "" {
      BlankedKeeps(s[1..]);
      assert BlankControls(s)[1..] == BlankControls(s[1..]);
      assert IsGap(BlankControls(s)[0]) <==> IsGap(s[0]);
    }
  }

  lemma {:induction false} SwappedKeeps(s: string)
    ensures Letters(Swapped(s)) == Swapped(Letters(s))
    ensures forall gap :: BreaksFrom(Swapped(s), gap) == BreaksFrom(s, gap)
  {
    if s != "" {
      SwappedKeeps(s[1..]);
      assert Swapped(s)[1..] == Swapped(s[1..]);
      assert IsGap(Swapped(s)[0]) <==> IsGap(s[0]);
    }
  }

  lemma SwappedTight(s: string)
    requires Tight(s)
    ensures Tight(Swapped(s))
  {
    forall i | 0 <= i < |s| ensures IsGap(Swapped(s)[i]) <==> IsGap(s[i]) {
    }
  }

  /** The same but for its double quotes, which are single ones. */
  predicate QuotesTurned(s: string, t: string) {
    |t| == |s| && forall i :: 0 <= i < |s| ==> t[i] == if s[i] == '"' then '\'' else s[i]
  }

  /** What a reader finds of a text: its letters, each double quote as a single one, with one space between two of them
      exactly where there was a gap, and nothing else. */
  lemma NormalKeeps(text: string)
    ensures QuotesTurned(Letters(text), Letters(Normal(Text(text))))
    ensures Breaks(Normal(Text(text))) == Breaks(text)
    ensures Tight(Normal(Text(text))) && (Normal(Text(text)) != "" ==> !IsGap(Normal(Text(text))[0]))
  {
    var blanked := BlankControls(text);
    var flat := Flatten(text);
    JoinIsTail(blanked, "");
    assert "" + Tail(blanked, false) == Tail(blanked, false) == flat;
    TailKeeps(blanked, false);
    BlankedKeeps(text);
    SwappedKeeps(flat);
    SwappedTight(flat);
  }

  /** And that is all there is to say: only one text has these letters and breaks and no other gap. */
  lemma {:induction false} LettersAndBreaksDetermine(a: string, b: string)
    requires Tight(a) && Tight(b) && Letters(a) == Letters(b) && BreaksFrom(a, false) == BreaksFrom(b, false)
    ensures a == b
    decreases |a|
  {
    TightTail(a);
    TightTail(b);
    FirstLetter(a);
    FirstLetter(b);
    if a != "" && b != "" {
      assert BreaksFrom(a, false)[0] == BreaksFrom(b, false)[0] && Letters(a)[0] == Letters(b)[0];
      assert Letters(a)[1..] == Letters(b)[1..] && BreaksFrom(a, false)[1..] == BreaksFrom(b, false)[1..];
      if IsGap(a[0]) {
        TightTail(a[1..]);
        TightTail(b[1..]);
        assert a == " " + [a[1]] + a[1..][1..] && b == " " + [b[1]] + b[1..][1..];
        LettersAndBreaksDetermine(a[1..][1..], b[1..][1..]);
      } else {
        assert a == [a[0]] + a[1..] && b == [b[0]] + b[1..];
        LettersAndBreaksDetermine(a[1..], b[1..]);
      }
    }
  }

  lemma TightTail(s: string)
    requires Tight(s)
    ensures s != "" ==> Tight(s[1..])
  {
    if s != "" {
      forall i | 0 <= i < |s| - 1 && IsGap(s[1..][i])
        ensures s[1..][i] == ' ' && i + 1 < |s| - 1 && !IsGap(s[1..][i + 1]) {
        assert s[1..][i] == s[i + 1];
      }
    }
  }

  /** How a tight text begins shows in its first letter and its first break. */
  lemma FirstLetter(s: string)
    requires Tight(s)
    ensures s == "" <==> Letters(s) == ""
    ensures s != "" && !IsGap(s[0]) ==>
              Letters(s) == [s[0]] + Letters(s[1..]) && BreaksFrom(s, false) == [false] + BreaksFrom(s[1..], false)
    ensures s != "" && IsGap(s[0]) ==>
              && |s| >= 2 && s[0] == ' '
              && Letters(s) == [s[1]] + Letters(s[1..][1..])
              && BreaksFrom(s, false) == [true] + BreaksFrom(s[1..][1..], false)
  {
  }

  // ---------------------------------------------------------------- values as they are

  /** A text without a gap or a double quote is left as it is. */
  lemma PlainIsKept(text: string)
    requires forall c :: c in text ==> !IsGap(c) && c != '"'
    ensures Normal(Text(text)) == text && Rendered(Text(text)) == if '=' in text then "\"" + text + "\"" else text
  {
    var blanked := BlankControls(text);
    assert blanked == text by {
      forall i | 0 <= i < |text| ensures blanked[i] == text[i] {
        assert text[i] in text;
      }
    }
    SplitWord(text, "", "");
    assert text + "" == text && "" + text == text;
    assert Flatten(text) == text;
    NoQuotesLeft(text);
    assert ' ' !in text by { assert IsSpace(' '); }
  }

  /** A truth value reads back in lower case, and is never dropped; a value that is absent is. */
  lemma TruthValues()
    ensures Normal(Bool(true)) == "true" && Normal(Bool(false)) == "false" && Normal(Absent) == ""
  {
    PlainIsKept("true");
    PlainIsKept("false");
    FlattenEmpty();
  }

  /** A value is dropped exactly when it has no letter. */
  lemma {:induction false} DroppedIff(text: string)
    ensures Normal(Text(text)) == "" <==> forall c :: c in text ==> IsGap(c)
  {
    NormalKeeps(text);
    FirstLetter(Normal(Text(text)));
    NoLetters(text);
  }

  lemma {:induction false} NoLetters(s: string)
    ensures Letters(s) == "" <==> forall c :: c in s ==> IsGap(c)
  {
    if s != "" {
      NoLetters(s[1..]);
      assert s == [s[0]] + s[1..];
    }
  }

  /** A value is put in quotes exactly when it has a gap between two letters, an equals sign or a double quote; what
      is written is then what a reader finds, between two quotes, and otherwise just that. */
  lemma QuotedIff(text: string)
    ensures var found := Normal(Text(text));
            Rendered(Text(text)) == if ' ' in found || '=' in text || '"' in text then "\"" + found + "\"" else found
  {
    var flat := Flatten(text);
    FlatHas(text, '=');
    FlatHas(text, '"');
    NoQuotesLeft(flat);
    assert ' ' in flat <==> ' ' in Swapped(flat) by {
      assert forall i :: 0 <= i < |flat| ==> (Swapped(flat)[i] == ' ' <==> flat[i] == ' ');
    }
  }

  lemma FlatHas(text: string, c: char)
    requires !IsGap(c)
    ensures c in Flatten(text) <==> c in text
  {
    var blanked := BlankControls(text);
    JoinIsTail(blanked, "");
    assert "" + Tail(blanked, false) == Tail(blanked, false) == Flatten(text);
    TailKeeps(blanked, false);
    BlankedKeeps(text);
    LettersHave(Flatten(text), c);
    LettersHave(text, c);
  }

  lemma {:induction false} LettersHave(s: string, c: char)
    requires !IsGap(c)
    ensures c in Letters(s) <==> c in s
  {
    if s != "" {
      LettersHave(s[1..], c);
      assert s == [s[0]] + s[1..];
    }
  }

  // ---------------------------------------------------------------- which fields there are

  /** Every pair's key, and what a reader finds of its value. */
  function Found(pairs: seq<(string, Value)>): (found: seq<(string, string)>)
    ensures |found| == |pairs|
  {
    seq(|pairs|, i requires 0 <= i < |pairs| => (pairs[i].0, Normal(pairs[i].1)))
  }

  /** `fields` are those of `found`, at the positions `kept`, of which anything is found: all of them, in order. */
  ghost predicate KeepsThose(found: seq<(string, string)>, fields: seq<(string, string)>, kept: seq<int>) {
    && |fields| == |kept|
    && (forall m :: 0 <= m < |kept| ==>
          0 <= kept[m] < |found| && fields[m] == found[kept[m]] && found[kept[m]].1 != "")
    && (forall m, n :: 0 <= m < n < |kept| ==> kept[m] < kept[n])
    && (forall i :: 0 <= i < |found| && found[i].1 != "" ==> i in kept)
  }

  /** A line's fields are exactly the pairs whose value leaves something to find, in order. */
  lemma {:induction false} FieldsAreTheKept(pairs: seq<(string, Value)>) returns (kept: seq<int>)
    ensures KeepsThose(Found(pairs), Fields(pairs), kept)
  {
    if pairs == [] {
      kept := [];
    } else {
      var n := |pairs| - 1;
      kept := FieldsAreTheKept(pairs[..n]);
      OneMoreField(Found(pairs[..n]), Fields(pairs[..n]), kept, (pairs[n].0, Normal(pairs[n].1)));
      assert Found(pairs) == Found(pairs[..n]) + [(pairs[n].0, Normal(pairs[n].1))];
      kept := if Normal(pairs[n].1) == "" then kept else kept + [n];
    }
  }

  lemma OneMoreField(found: seq<(string, string)>, fields: seq<(string, string)>, kept: seq<int>, f: (string, string))
    requires KeepsThose(found, fields, kept)
    ensures if f.1 == "" then KeepsThose(found + [f], fields, kept)
            else KeepsThose(found + [f], fields + [f], kept + [|found|])
  {
    forall i | 0 <= i <= |found| && (found + [f])[i].1 != ""
      ensures i in if f.1 == "" then kept else kept + [|found|] {
      if i < |found| { assert found[i].1 != ""; }
    }
  }
}
