/** The JavaScript string operations the dashboard applies to names and
    e-mail addresses: `trim`, `split(/\s+/)`, `split(' ')`, `toUpperCase` and
    `toLowerCase`. Strings are sequences of Unicode characters. */
module JsString {

  /** The characters JavaScript's `trim` removes and the regular-expression
      class `\s` matches: the WhiteSpace set (tab, vertical tab, form feed,
      space, no-break space, byte order mark and the space separators) and
      the LineTerminator set (line feed, carriage return, line and paragraph
      separators). */
  predicate IsSpace(c: char) {
    || c == '\t' || c == '\n' || c == '\U{B}' || c == '\U{C}' || c == '\r'
    || c == ' ' || c == '\U{A0}' || c == '\U{1680}'
    || ('\U{2000}' <= c <= '\U{200A}')
    || c == '\U{2028}' || c == '\U{2029}' || c == '\U{202F}' || c == '\U{205F}'
    || c == '\U{3000}' || c == '\U{FEFF}'
  }

  /** Every character is white space (true of the empty string). */
  predicate Blank(s: string) {
    forall i :: 0 <= i < |s| ==> IsSpace(s[i])
  }

  /** No character is white space. */
  predicate NoSpace(s: string) {
    forall i :: 0 <= i < |s| ==> !IsSpace(s[i])
  }

  /** The number of white-space characters at the start of `s`. */
  function LeadingSpace(s: string): (n: nat)
    ensures n <= |s|
    ensures Blank(s[..n])
    ensures n < |s| ==> !IsSpace(s[n])
  {
    if |s| > 0 && IsSpace(s[0]) then
      var n := 1 + LeadingSpace(s[1..]);
      assert forall i :: 1 <= i < n ==> s[i] == s[1..][..n - 1][i - 1];
      n
    else
      0
  }

  /** Where the trailing white space of `s` begins. */
  function TrailingSpace(s: string): (e: nat)
    ensures e <= |s|
    ensures Blank(s[e..])
    ensures e > 0 ==> !IsSpace(s[e - 1])
  {
    if |s| > 0 && IsSpace(s[|s| - 1]) then
      var e := TrailingSpace(s[..|s| - 1]);
      assert forall i :: e <= i < |s| - 1 ==> s[i] == s[..|s| - 1][e..][i - e];
      e
    else
      |s|
  }

  /** `String.prototype.trimStart`: the string after its leading white
      space. */
  function TrimStart(s: string): (r: string)
    ensures r == [] || !IsSpace(r[0])
  {
    s[LeadingSpace(s)..]
  }

  /** `String.prototype.trimEnd`: the string before its trailing white
      space. */
  function TrimEnd(s: string): (r: string)
    ensures r == [] || !IsSpace(r[|r| - 1])
  {
    s[..TrailingSpace(s)]
  }

  /** `String.prototype.trim`: white space removed at both ends. Nothing is
      left exactly when the string was blank, and what is left starts and
      ends with a non-space character. */
  function Trim(s: string): (r: string)
    ensures r == [] <==> Blank(s)
    ensures r != [] ==> !IsSpace(r[0]) && !IsSpace(r[|r| - 1])
  {
    TrimEnds(s);
    TrimEnd(TrimStart(s))
  }

  /** The facts behind `Trim`'s contract. */
  lemma TrimEnds(s: string)
    ensures TrimEnd(TrimStart(s)) == [] <==> Blank(s)
    ensures TrimEnd(TrimStart(s)) != [] ==> TrimEnd(TrimStart(s))[0] == TrimStart(s)[0]
  {
    var n := LeadingSpace(s);
    var t := s[n..];
    var e := TrailingSpace(t);
    if e == 0 {
      assert t[e..] == t;
      BlankConcat(s[..n], t);
      assert s[..n] + t == s;
    }
  }

  /** `trimStart` removes only leading white space: what it leaves is a
      suffix of the string, and what comes before it is blank. */
  lemma TrimStartIsSuffix(s: string)
    ensures exists i :: 0 <= i <= |s| && TrimStart(s) == s[i..] && Blank(s[..i])
  {
    var i := LeadingSpace(s);
    assert TrimStart(s) == s[i..];
  }

  /** `trimEnd` removes only trailing white space: what it leaves is a
      prefix of the string, and what comes after it is blank. */
  lemma TrimEndIsPrefix(s: string)
    ensures exists j :: 0 <= j <= |s| && TrimEnd(s) == s[..j] && Blank(s[j..])
  {
    var j := TrailingSpace(s);
    assert TrimEnd(s) == s[..j];
  }

  /** `trim` removes only white space at the two ends: what it leaves is
      a stretch of the string with blank text before and after it. */
  lemma TrimRemovesOnlyEnds(s: string)
    ensures exists i, j :: 0 <= i <= j <= |s| && Trim(s) == s[i..j] && Blank(s[..i]) && Blank(s[j..])
  {
    var i := LeadingSpace(s);
    var t := s[i..];
    var e := TrailingSpace(t);
    var j := i + e;
    assert Trim(s) == t[..e] == s[i..j];
    assert s[j..] == t[e..];
  }

  /** The index of the first white-space character, or the length when
      there is none. */
  function FirstSpace(s: string): (i: nat)
    ensures i <= |s|
    ensures NoSpace(s[..i])
    ensures i < |s| ==> IsSpace(s[i])
  {
    if |s| == 0 || IsSpace(s[0]) then 0 else 1 + FirstSpace(s[1..])
  }

  /** `s.split(/\s+/)`: the fields between maximal runs of white space. A
      leading or trailing run yields an empty field and the empty string
      yields one empty field; there is always at least one field and no
      field holds white space. */
  function Split(s: string): (parts: seq<string>)
    ensures |parts| >= 1
    ensures forall k :: 0 <= k < |parts| ==> NoSpace(parts[k])
    decreases |s|
  {
    var i := FirstSpace(s);
    if i == |s| then [s]
    else
      var rest := TrimStart(s[i..]);
      assert |rest| < |s[i..]|;
      [s[..i]] + Split(rest)
  }

  /** `s.split(' ')[0]`: everything before the first ordinary space (only
      U+0020 separates here, unlike `\s`). The result is the longest prefix
      without a space: the whole string, or the part cut off by a space. */
  function FirstField(s: string): (f: string)
    ensures f <= s
    ensures ' ' !in f
    ensures f == s || s[|f|] == ' '
  {
    if |s| == 0 || s[0] == ' ' then [] else [s[0]] + FirstField(s[1..])
  }

  /** The words of a string: its maximal non-empty runs of non-space
      characters, left to right. This is the reference reading of "the
      tokens of a name", defined character by character. */
  function Words(s: string): (w: seq<string>)
    ensures forall k :: 0 <= k < |w| ==> |w[k]| > 0 && NoSpace(w[k])
    ensures w == [] <==> Blank(s)
    decreases |s|
  {
    if |s| == 0 then []
    else if IsSpace(s[0]) then
      var w := Words(s[1..]);
      assert Blank(s) <==> Blank(s[1..]) by {
        if Blank(s[1..]) {
          forall i | 0 <= i < |s| ensures IsSpace(s[i]) {
            if i > 0 {
              assert s[i] == s[1..][i - 1];
            }
          }
        }
      }
      w
    else
      var i := FirstSpace(s);
      [s[..i]] + Words(s[i..])
  }

  /** Two blank strings put together are blank. */
  lemma BlankConcat(a: string, b: string)
    requires Blank(a) && Blank(b)
    ensures Blank(a + b)
  {
    forall i | 0 <= i < |a + b| ensures IsSpace((a + b)[i]) {
      if i >= |a| {
        assert (a + b)[i] == b[i - |a|];
      }
    }
  }

  /** Leading white space does not change the words. */
  lemma {:induction false} WordsSkipLeading(s: string)
    ensures Words(TrimStart(s)) == Words(s)
    decreases |s|
  {
    if |s| > 0 && IsSpace(s[0]) {
      WordsSkipLeading(s[1..]);
    }
  }

  /** Trailing white space does not change the words. */
  lemma {:induction false} WordsIgnoreTrailing(x: string, sp: string)
    requires Blank(sp)
    ensures Words(x + sp) == Words(x)
    decreases |x|
  {
    if |x| == 0 {
      assert x + sp == sp;
    } else if IsSpace(x[0]) {
      assert (x + sp)[1..] == x[1..] + sp;
      WordsIgnoreTrailing(x[1..], sp);
    } else if FirstSpace(x) < |x| {
      var i := FirstSpace(x);
      WordsSplitAt(x, sp, i);
      WordsIgnoreTrailing(x[i..], sp);
    } else {
      WordsOneWordThenSpace(x, sp);
    }
  }

  /** A first word that ends inside `x` ends at the same place in `x + sp`. */
  lemma WordsSplitAt(x: string, sp: string, i: nat)
    requires |x| > 0 && !IsSpace(x[0]) && i == FirstSpace(x) && i < |x|
    ensures Words(x + sp) == [x[..i]] + Words(x[i..] + sp)
    ensures Words(x) == [x[..i]] + Words(x[i..])
  {
    var y := x + sp;
    assert y[..i + 1] == x[..i + 1];
    FirstSpaceOfPrefix(y, i);
    assert y[0] == x[0];
    assert y[..i] == x[..i];
    assert y[i..] == x[i..] + sp;
  }

  /** A string without white space followed by white space is one word. */
  lemma WordsOneWordThenSpace(x: string, sp: string)
    requires |x| > 0 && !IsSpace(x[0]) && FirstSpace(x) == |x| && Blank(sp)
    ensures Words(x + sp) == [x] == Words(x)
  {
    assert x[..|x|] == x && x[|x|..] == [];
    if |sp| == 0 {
      assert x + sp == x;
    } else {
      var y := x + sp;
      assert y[..|x|] == x;
      FirstSpaceOfPrefix(y, |x|);
      assert y[0] == x[0];
      assert y[|x|..] == sp;
    }
  }

  /** FirstSpace is the first index whose character is white space. */
  lemma FirstSpaceOfPrefix(s: string, i: nat)
    requires i < |s| && IsSpace(s[i]) && NoSpace(s[..i])
    ensures FirstSpace(s) == i
  {
  }

  /** The words of a string do not depend on the white space around it. */
  lemma WordsOfTrim(s: string)
    ensures Words(Trim(s)) == Words(s)
  {
    var t := TrimStart(s);
    var r := TrimEnd(t);
    assert t == r + t[|r|..];
    WordsIgnoreTrailing(r, t[|r|..]);
    WordsSkipLeading(s);
  }

  /** On a non-empty string that starts and ends with a non-space character,
      JavaScript's split at runs of white space yields exactly the words. */
  lemma {:induction false} SplitTrimmed(u: string)
    requires u != [] && !IsSpace(u[0]) && !IsSpace(u[|u| - 1])
    ensures Split(u) == Words(u)
    decreases |u|
  {
    var i := FirstSpace(u);
    if i == |u| {
      assert u[..i] == u && u[i..] == [];
    } else {
      var rest := TrimStart(u[i..]);
      assert rest != [];
      assert rest[|rest| - 1] == u[|u| - 1];
      WordsSkipLeading(u[i..]);
      SplitTrimmed(rest);
      assert rest[0..] == rest;
    }
  }

  /** The fields `s.trim().split(/\s+/)` are the words of `s` whenever `s`
      is not blank. */
  lemma SplitTrimIsWords(s: string)
    requires !Blank(s)
    ensures Split(Trim(s)) == Words(s)
  {
    SplitTrimmed(Trim(s));
    WordsOfTrim(s);
  }

  /** The letters of a string: its non-space characters in order. */
  function Letters(s: string): string {
    if |s| == 0 then [] else (if IsSpace(s[0]) then [] else [s[0]]) + Letters(s[1..])
  }

  /** Joining strings end to end. */
  function Concat(w: seq<string>): string {
    if |w| == 0 then [] else w[0] + Concat(w[1..])
  }

  /** A prefix without white space contributes all its characters. */
  lemma {:induction false} LettersOfNoSpacePrefix(s: string, i: nat)
    requires i <= |s| && NoSpace(s[..i])
    ensures Letters(s) == s[..i] + Letters(s[i..])
    decreases i
  {
    if i > 0 {
      assert s[..i][0] == s[0];
      assert s[1..][..i - 1] == s[1..i];
      LettersOfNoSpacePrefix(s[1..], i - 1);
      assert s[1..][i - 1..] == s[i..];
    }
  }

  /** Splitting into words loses no character but the white space: the words
      laid end to end are the letters of the string. */
  lemma {:induction false} WordsKeepEveryLetter(s: string)
    ensures Concat(Words(s)) == Letters(s)
    decreases |s|
  {
    if |s| == 0 {
    } else if IsSpace(s[0]) {
      WordsKeepEveryLetter(s[1..]);
    } else {
      var i := FirstSpace(s);
      var w := Words(s);
      assert w == [s[..i]] + Words(s[i..]);
      assert w[1..] == Words(s[i..]);
      WordsKeepEveryLetter(s[i..]);
      LettersOfNoSpacePrefix(s, i);
    }
  }

  /** `toUpperCase` on one character; only the ASCII letters are mapped. */
  function UpperChar(c: char): char {
    if 'a' <= c <= 'z' then (c as int - 32) as char else c
  }

  /** `toLowerCase` on one character; only the ASCII letters are mapped. */
  function LowerChar(c: char): char {
    if 'A' <= c <= 'Z' then (c as int + 32) as char else c
  }

  /** `String.prototype.toUpperCase`. */
  function Upper(s: string): (r: string)
    ensures |r| == |s|
    ensures forall i :: 0 <= i < |s| ==> !('a' <= r[i] <= 'z')
  {
    seq(|s|, i requires 0 <= i < |s| => UpperChar(s[i]))
  }

  /** `String.prototype.toLowerCase`. */
  function Lower(s: string): (r: string)
    ensures |r| == |s|
    ensures forall i :: 0 <= i < |s| ==> !('A' <= r[i] <= 'Z')
  {
    seq(|s|, i requires 0 <= i < |s| => LowerChar(s[i]))
  }

  /** Upper-casing first does not change the lower-case form, so comparing
      lower-case forms ignores the case of ASCII letters. */
  lemma LowerOfUpper(s: string)
    ensures Lower(Upper(s)) == Lower(s)
  {
    var a := Lower(Upper(s));
    var b := Lower(s);
    forall i | 0 <= i < |s| ensures a[i] == b[i] {
      assert Upper(s)[i] == UpperChar(s[i]);
    }
  }

  /** Two characters that differ at most in ASCII case: equal, or an
      upper-case letter `A`-`Z` and its own lower-case letter. */
  predicate SameIgnoringCase(x: char, y: char) {
    || x == y
    || ('A' <= x <= 'Z' && y as int == x as int + 32)
    || ('A' <= y <= 'Z' && x as int == y as int + 32)
  }

  /** One character's lower-case form is another's exactly when they differ
      at most in ASCII case. */
  lemma LowerCharEqualIff(x: char, y: char)
    ensures LowerChar(x) == LowerChar(y) <==> SameIgnoringCase(x, y)
  {
  }

  /** Comparing lower-case forms, as the e-mail lookup does, is comparing
      character by character while ignoring ASCII case: the lower-case forms
      are equal exactly when the strings have the same length and each pair
      of characters is equal or an upper-case letter and its own lower-case
      letter. */
  lemma LowerEqualIff(a: string, b: string)
    ensures Lower(a) == Lower(b) <==>
      |a| == |b| && forall i :: 0 <= i < |a| ==> SameIgnoringCase(a[i], b[i])
  {
    if Lower(a) == Lower(b) {
      forall i | 0 <= i < |a| ensures SameIgnoringCase(a[i], b[i]) {
        assert Lower(a)[i] == Lower(b)[i];
        LowerCharEqualIff(a[i], b[i]);
      }
    }
    if |a| == |b| && forall i :: 0 <= i < |a| ==> SameIgnoringCase(a[i], b[i]) {
      forall i | 0 <= i < |a| ensures Lower(a)[i] == Lower(b)[i] {
        LowerCharEqualIff(a[i], b[i]);
      }
    }
  }
}
