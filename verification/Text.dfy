/** What Python's string methods take for white space and for lower case. */
module Text {

  /** What `str.split` splits at and `str.strip` strips. */
  predicate IsSpace(c: char) {
    var n := c as int;
    || 0x09 <= n <= 0x0d || 0x1c <= n <= 0x20 || n == 0x85 || n == 0xa0 || n == 0x1680
    || 0x2000 <= n <= 0x200a || n == 0x2028 || n == 0x2029 || n == 0x202f || n == 0x205f || n == 0x3000
  }

  /** `not s.strip()`. */
  predicate Blank(s: string) { forall i :: 0 <= i < |s| ==> IsSpace(s[i]) }

  /** `str(n)`. */
  function Decimal(n: nat): string {
    (if n < 10 then "" else Decimal(n / 10)) + ["0123456789"[n % 10]]
  }

  predicate AllDigits(s: string) { forall i :: 0 <= i < |s| ==> '0' <= s[i] <= '9' }

  /** What a run of digits says. */
  function NumberOf(digits: string): nat
    requires AllDigits(digits)
  {
    if digits == "" then 0
    else NumberOf(digits[..|digits| - 1]) * 10 + (digits[|digits| - 1] - '0') as nat
  }

  /** A number is written in digits that read back as it, without a leading zero. */
  lemma {:induction false} DecimalReadsBack(n: nat)
    ensures AllDigits(Decimal(n))
    ensures NumberOf(Decimal(n)) == n && Decimal(n) != "" && (n > 0 ==> Decimal(n)[0] != '0')
  {
    var last := "0123456789"[n % 10];
    assert last as int == '0' as int + n % 10;
    if n < 10 {
      assert Decimal(n) == [last] && [last][..0] == "";
    } else {
      DecimalReadsBack(n / 10);
      assert Decimal(n) == Decimal(n / 10) + [last] && Decimal(n)[..|Decimal(n)| - 1] == Decimal(n / 10);
    }
  }

  /** `strip()`. */
  function Stripped(s: string): string
    decreases |s|
  {
    if s == "" then s
    else if IsSpace(s[0]) then Stripped(s[1..])
    else if IsSpace(s[|s| - 1]) then Stripped(s[..|s| - 1])
    else s
  }

  /** `lower()`, on ASCII. */
  function LowerChar(c: char): char { if 'A' <= c <= 'Z' then c + 32 as char else c }

  function Lower(s: string): string {
    seq(|s|, i requires 0 <= i < |s| => LowerChar(s[i]))
  }

  /** The two cases of one letter. */
  predicate Cases(upper: char, lower: char) { 'A' <= upper <= 'Z' && lower as int == upper as int + 0x20 }

  /** Two texts that differ in nothing but the case of letters. */
  predicate SameButCase(s: string, t: string) {
    |s| == |t| && forall i :: 0 <= i < |s| ==> s[i] == t[i] || Cases(s[i], t[i]) || Cases(t[i], s[i])
  }

  lemma {:induction false} LowerEqualIff(s: string, t: string)
    ensures Lower(s) == Lower(t) <==> SameButCase(s, t)
  {
    if Lower(s) == Lower(t) {
      assert |Lower(s)| == |s| && |Lower(t)| == |t|;
      forall i | 0 <= i < |s| ensures s[i] == t[i] || Cases(s[i], t[i]) || Cases(t[i], s[i]) {
        assert Lower(s)[i] == Lower(t)[i];
      }
    }
  }

  /** Some stretch of the text reads `word`, in either case, and around it is nothing but white space. */
  ghost predicate Says(text: string, word: string) {
    exists i, j :: 0 <= i <= j <= |text| && Blank(text[..i]) && Blank(text[j..]) && SameButCase(text[i..j], word)
  }

  /** What is stripped off is white space, and what is left neither begins nor ends with any. */
  lemma {:induction false} StrippedWithin(s: string) returns (i: int, j: int)
    ensures 0 <= i <= j <= |s| && Stripped(s) == s[i..j]
    ensures forall m :: 0 <= m < i || j <= m < |s| ==> IsSpace(s[m])
    ensures i < j ==> !IsSpace(s[i]) && !IsSpace(s[j - 1])
    decreases |s|
  {
    if s == "" {
      i, j := 0, 0;
    } else if IsSpace(s[0]) {
      i, j := StrippedWithin(s[1..]);
      assert s[1..][i..j] == s[i + 1..j + 1];
      i, j := i + 1, j + 1;
    } else if IsSpace(s[|s| - 1]) {
      i, j := StrippedWithin(s[..|s| - 1]);
      assert s[..|s| - 1][i..j] == s[i..j];
    } else {
      i, j := 0, |s|;
    }
  }

  /** For a word with no white space in it, the stripped text in lower case is the word's exactly when the text
      says the word. */
  lemma SaysIff(text: string, word: string)
    requires word != "" && forall c :: c in word ==> !IsSpace(c)
    ensures Lower(Stripped(text)) == Lower(word) <==> Says(text, word)
  {
    var i, j := StrippedWithin(text);
    LowerEqualIff(Stripped(text), word);
    if k, l :| 0 <= k <= l <= |text| && Blank(text[..k]) && Blank(text[l..]) && SameButCase(text[k..l], word) {
      OneStretch(text, word, i, j, k, l);
    }
  }

  /** A letter has no white-space case. */
  lemma OneStretch(text: string, word: string, i: int, j: int, k: int, l: int)
    requires word != "" && forall c :: c in word ==> !IsSpace(c)
    requires 0 <= i <= j <= |text| && forall m :: 0 <= m < i || j <= m < |text| ==> IsSpace(text[m])
    requires i < j ==> !IsSpace(text[i]) && !IsSpace(text[j - 1])
    requires 0 <= k <= l <= |text| && Blank(text[..k]) && Blank(text[l..]) && SameButCase(text[k..l], word)
    ensures i == k && j == l
  {
    var w := text[k..l];
    assert word[0] in word && word[|word| - 1] in word;
    assert w[0] == text[k] && w[|w| - 1] == text[l - 1];
    assert !IsSpace(text[k]) && !IsSpace(text[l - 1]);
    BlankEnds(text, k, l);
  }

  lemma BlankEnds(text: string, i: int, j: int)
    requires 0 <= i <= j <= |text| && Blank(text[..i]) && Blank(text[j..])
    ensures forall m :: 0 <= m < i || j <= m < |text| ==> IsSpace(text[m])
  {
    forall m | 0 <= m < i || j <= m < |text| ensures IsSpace(text[m]) {
      assert if m < i then text[..i][m] == text[m] else text[j..][m - j] == text[m];
    }
  }

  /** A text has nothing left when it is stripped exactly when it is blank. */
  lemma StrippedOfBlank(text: string)
    ensures Stripped(text) == "" <==> Blank(text)
  {
    var i, j := StrippedWithin(text);
  }
}
