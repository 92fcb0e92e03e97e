/**
 * ASCII versions of the Python string operations the validators use:
 * str.isspace, str.strip, str.lower, str.split() with no argument,
 * ' '.join, str.title, str.isdigit, str.isalpha, str.isupper, str.rfind
 * and the `in` substring test; and the white-space trimming DRF's
 * character fields apply to a request value before checking it.
 */
module Text {
  import opened Wrappers

  /** Python's str.isspace on ASCII: space, tab, newline, vertical tab,
      form feed, carriage return and the separators 0x1C to 0x1F. */
  predicate IsSpace(c: char) {
    c == ' ' || ('\t' <= c <= '\r') || ('\U{001C}' <= c <= '\U{001F}')
  }

  predicate IsDigit(c: char) { '0' <= c <= '9' }
  predicate IsUpper(c: char) { 'A' <= c <= 'Z' }
  predicate IsLower(c: char) { 'a' <= c <= 'z' }
  predicate IsLetter(c: char) { IsUpper(c) || IsLower(c) }

  predicate AllDigits(s: string) { forall i :: 0 <= i < |s| ==> IsDigit(s[i]) }
  predicate AllLetters(s: string) { forall i :: 0 <= i < |s| ==> IsLetter(s[i]) }
  predicate NoSpace(s: string) { forall i :: 0 <= i < |s| ==> !IsSpace(s[i]) }

  /** str.isdigit(): non-empty and made of digits only. */
  predicate IsDigitString(s: string) { |s| > 0 && AllDigits(s) }

  /** str.isalpha(): non-empty and made of letters only. */
  predicate IsAlphaString(s: string) { |s| > 0 && AllLetters(s) }

  /** str.isupper(): at least one cased character and no lower-case one. */
  predicate IsUpperString(s: string) {
    (exists i :: 0 <= i < |s| && IsUpper(s[i])) && forall i :: 0 <= i < |s| ==> !IsLower(s[i])
  }

  function ToLowerChar(c: char): (r: char)
    ensures IsSpace(r) == IsSpace(c) && IsLetter(r) == IsLetter(c) && IsDigit(r) == IsDigit(c)
    ensures !IsUpper(r)
  {
    if IsUpper(c) then (c as int + 32) as char else c
  }

  function ToUpperChar(c: char): (r: char)
    ensures IsSpace(r) == IsSpace(c) && IsLetter(r) == IsLetter(c) && IsDigit(r) == IsDigit(c)
    ensures !IsLower(r)
  {
    if IsLower(c) then (c as int - 32) as char else c
  }

  /** str.lower() */
  function Lower(s: string): (r: string)
    ensures |r| == |s|
    ensures forall i :: 0 <= i < |s| ==> r[i] == ToLowerChar(s[i])
  {
    seq(|s|, i requires 0 <= i < |s| => ToLowerChar(s[i]))
  }

  predicate IsLowerCase(s: string) { forall i :: 0 <= i < |s| ==> !IsUpper(s[i]) }

  lemma LowerIsLowerCase(s: string)
    ensures IsLowerCase(Lower(s))
    ensures Lower(Lower(s)) == Lower(s)
  {
  }

  /** Lower-casing leaves a string that has no upper-case letter as it is. */
  lemma LowerOfLowerCase(s: string)
    requires IsLowerCase(s)
    ensures Lower(s) == s
  {
  }

  function TrimLeft(s: string): (r: string)
    ensures |r| <= |s|
    ensures r == [] || !IsSpace(r[0])
  {
    if s != [] && IsSpace(s[0]) then TrimLeft(s[1..]) else s
  }

  function TrimRight(s: string): (r: string)
    ensures r <= s
    ensures r == [] || !IsSpace(r[|r| - 1])
  {
    if s != [] && IsSpace(s[|s| - 1]) then TrimRight(s[..|s| - 1]) else s
  }

  /** str.strip(): drops leading and trailing white space. */
  function Strip(s: string): (r: string)
    ensures |r| <= |s|
    ensures r == [] || (!IsSpace(r[0]) && !IsSpace(r[|r| - 1]))
  {
    TrimRight(TrimLeft(s))
  }

  /** DRF's "required"/"blank" for a character field: missing, or empty
      once its surrounding white space is stripped. */
  predicate Blank(v: Option<string>) { v.None? || Strip(v.value) == "" }

  /** The value a DRF CharField or EmailField hands to its validators: the
      input with surrounding white space stripped (trim_whitespace). */
  function Trimmed(v: Option<string>): string {
    if v.None? then "" else Strip(v.value)
  }

  /** A trimmed value has nothing more to trim. */
  lemma TrimmedIsStripped(v: Option<string>)
    ensures Strip(Trimmed(v)) == Trimmed(v)
  {
    StripOfStripped(Trimmed(v));
  }

  /** A string that has no white space at either end is its own strip. */
  lemma StripOfStripped(s: string)
    requires s == [] || (!IsSpace(s[0]) && !IsSpace(s[|s| - 1]))
    ensures Strip(s) == s
  {
  }

  /** TrimLeft keeps a suffix and drops only white space. */
  lemma {:induction false} TrimLeftDropsSpaces(s: string)
    ensures TrimLeft(s) == s[|s| - |TrimLeft(s)|..]
    ensures forall i :: 0 <= i < |s| - |TrimLeft(s)| ==> IsSpace(s[i])
  {
    if s != [] && IsSpace(s[0]) {
      TrimLeftDropsSpaces(s[1..]);
    }
  }

  /** TrimRight keeps a prefix and drops only white space. */
  lemma {:induction false} TrimRightDropsSpaces(s: string)
    ensures forall i :: |TrimRight(s)| <= i < |s| ==> IsSpace(s[i])
  {
    if s != [] && IsSpace(s[|s| - 1]) {
      TrimRightDropsSpaces(s[..|s| - 1]);
    }
  }

  /** A character that is not white space survives strip(). */
  lemma StripKeeps(s: string, i: int)
    requires 0 <= i < |s| && !IsSpace(s[i])
    ensures exists j :: 0 <= j < |Strip(s)| && Strip(s)[j] == s[i]
  {
    var t := TrimLeft(s);
    TrimLeftDropsSpaces(s);
    var off := |s| - |t|;
    assert t[i - off] == s[i];
    TrimRightDropsSpaces(t);
    assert Strip(s)[i - off] == s[i];
  }

  /** A string of white space only strips to nothing. */
  lemma StripOfBlank(s: string)
    requires forall i :: 0 <= i < |s| ==> IsSpace(s[i])
    ensures Strip(s) == []
  {
    TrimLeftDropsSpaces(s);
  }

  lemma {:induction false} TrimLeftLower(s: string)
    ensures TrimLeft(Lower(s)) == Lower(TrimLeft(s))
  {
    if s != [] {
      assert Lower(s)[1..] == Lower(s[1..]);
      TrimLeftLower(s[1..]);
    }
  }

  lemma {:induction false} TrimRightLower(s: string)
    ensures TrimRight(Lower(s)) == Lower(TrimRight(s))
  {
    if s != [] {
      assert Lower(s)[..|s| - 1] == Lower(s[..|s| - 1]);
      TrimRightLower(s[..|s| - 1]);
    }
  }

  /** Stripping and lower-casing commute. */
  lemma StripLower(s: string)
    ensures Strip(Lower(s)) == Lower(Strip(s))
  {
    TrimLeftLower(s);
    TrimRightLower(TrimLeft(s));
  }

  /** Length of the run of non-space characters at the front of s. */
  function WordLen(s: string): (n: nat)
    ensures n <= |s|
    ensures NoSpace(s[..n])
    ensures n < |s| ==> IsSpace(s[n])
  {
    if s == [] || IsSpace(s[0]) then 0 else 1 + WordLen(s[1..])
  }

  predicate IsWord(w: string) { w != [] && NoSpace(w) }

  /** str.split() with no argument: the maximal runs of non-space characters. */
  function Words(s: string): (ws: seq<string>)
    ensures forall w :: w in ws ==> IsWord(w)
    decreases |s|
  {
    if s == [] then []
    else if IsSpace(s[0]) then Words(s[1..])
    else
      var n := WordLen(s);
      [s[..n]] + Words(s[n..])
  }

  /** ' '.join(ws) */
  function JoinWords(ws: seq<string>): string {
    if |ws| == 0 then ""
    else if |ws| == 1 then ws[0]
    else ws[0] + " " + JoinWords(ws[1..])
  }

  /** ' '.join(s.split()): runs of white space become one space, ends trimmed. */
  function CollapseSpaces(s: string): string {
    JoinWords(Words(s))
  }

  lemma {:induction false} WordLenOfWord(w: string, t: string)
    requires NoSpace(w)
    requires t == [] || IsSpace(t[0])
    ensures WordLen(w + t) == |w|
    decreases |w|
  {
    if w != [] {
      assert (w + t)[1..] == w[1..] + t;
      WordLenOfWord(w[1..], t);
    } else {
      assert w + t == t;
    }
  }

  lemma {:induction false} WordsAfterSpace(t: string)
    requires t != [] && IsSpace(t[0])
    ensures Words(t) == Words(t[1..])
  {
  }

  /** Splitting a space-joined list of words gives the words back. */
  lemma {:induction false} WordsOfJoin(ws: seq<string>)
    requires forall w :: w in ws ==> IsWord(w)
    ensures Words(JoinWords(ws)) == ws
    decreases |ws|
  {
    if |ws| == 0 {
    } else if |ws| == 1 {
      var w := ws[0];
      assert w in ws;
      WordLenOfWord(w, []);
      assert w + [] == w;
      assert w[..|w|] == w && w[|w|..] == [];
    } else {
      var w, rest := ws[0], JoinWords(ws[1..]);
      assert w in ws;
      var t := " " + rest;
      assert JoinWords(ws) == w + t;
      WordLenOfWord(w, t);
      assert (w + t)[..|w|] == w;
      assert (w + t)[|w|..] == t;
      WordsAfterSpace(t);
      assert t[1..] == rest;
      WordsOfJoin(ws[1..]);
    }
  }

  /** Collapsing white space keeps the words, so it is idempotent on them. */
  lemma CollapseKeepsWords(s: string)
    ensures Words(CollapseSpaces(s)) == Words(s)
  {
    WordsOfJoin(Words(s));
  }

  /** a and b have white space at the same positions. */
  predicate SameSpacing(a: string, b: string) {
    |a| == |b| && forall i :: 0 <= i < |a| ==> IsSpace(a[i]) == IsSpace(b[i])
  }

  lemma {:induction false} WordLenSameSpacing(a: string, b: string)
    requires SameSpacing(a, b)
    ensures WordLen(a) == WordLen(b)
    decreases |a|
  {
    if a != [] && !IsSpace(a[0]) {
      WordLenSameSpacing(a[1..], b[1..]);
    }
  }

  /** Strings with the same spacing split into the same number of words. */
  lemma {:induction false} WordCountSameSpacing(a: string, b: string)
    requires SameSpacing(a, b)
    ensures |Words(a)| == |Words(b)|
    decreases |a|
  {
    if a == [] {
    } else if IsSpace(a[0]) {
      WordCountSameSpacing(a[1..], b[1..]);
    } else {
      WordLenSameSpacing(a, b);
      var n := WordLen(a);
      WordCountSameSpacing(a[n..], b[n..]);
    }
  }

  /** str.title() on ASCII, `afterLetter` telling whether the previous
      character was a letter. */
  function TitleFrom(s: string, afterLetter: bool): (r: string)
    ensures |r| == |s|
    ensures SameSpacing(s, r)
    ensures forall i :: 0 <= i < |s| ==>
      r[i] == (if (if i == 0 then afterLetter else IsLetter(s[i - 1]))
               then ToLowerChar(s[i]) else ToUpperChar(s[i]))
  {
    if s == [] then []
    else [if afterLetter then ToLowerChar(s[0]) else ToUpperChar(s[0])] + TitleFrom(s[1..], IsLetter(s[0]))
  }

  /** str.title(): every letter that starts a run of letters is upper-cased,
      every other letter lower-cased; other characters are kept. */
  function Title(s: string): (r: string)
    ensures SameSpacing(s, r)
    ensures |r| == |s|
    ensures forall i :: 0 <= i < |s| ==>
      r[i] == (if i > 0 && IsLetter(s[i - 1]) then ToLowerChar(s[i]) else ToUpperChar(s[i]))
  {
    TitleFrom(s, false)
  }

  /** title() changes only the case of letters. */
  lemma LowerOfTitle(s: string)
    ensures Lower(Title(s)) == Lower(s)
  {
    var t := TitleFrom(s, false);
    assert t == Title(s);
    forall i | 0 <= i < |s| ensures Lower(t)[i] == Lower(s)[i] {
      var after := if i == 0 then false else IsLetter(s[i - 1]);
      assert t[i] == if after then ToLowerChar(s[i]) else ToUpperChar(s[i]);
      assert ToLowerChar(ToUpperChar(s[i])) == ToLowerChar(s[i]);
      assert ToLowerChar(ToLowerChar(s[i])) == ToLowerChar(s[i]);
    }
  }

  /** Index of the last occurrence of c in s (str.rfind). */
  function LastIndexOf(s: string, c: char): (r: Option<nat>)
    ensures r.Some? ==> r.value < |s| && s[r.value] == c
    ensures r.Some? ==> forall j :: r.value < j < |s| ==> s[j] != c
    ensures r.None? ==> forall j :: 0 <= j < |s| ==> s[j] != c
  {
    if s == [] then None
    else if s[|s| - 1] == c then Some(|s| - 1)
    else LastIndexOf(s[..|s| - 1], c)
  }

  /** `needle in hay` for strings. */
  predicate Contains(hay: string, needle: string) {
    exists i | 0 <= i <= |hay| - |needle| :: OccursAt(hay, needle, i)
  }

  /** needle appears in hay starting at index i. */
  predicate OccursAt(hay: string, needle: string, i: int) {
    0 <= i <= |hay| - |needle| && hay[i..i + |needle|] == needle
  }

  /** Case-insensitive containment, as Django's `icontains` lookup. */
  predicate ContainsIgnoreCase(hay: string, needle: string) {
    Contains(Lower(hay), Lower(needle))
  }

  /** s[:n] with Python's clamping of the bound. */
  function Take(s: string, n: nat): (r: string)
    ensures |r| <= n && r <= s
    ensures |s| <= n ==> r == s
  {
    if |s| <= n then s else s[..n]
  }

  /** The distinct elements of a list, as Python's set(). */
  function SetOf(ws: seq<string>): set<string> {
    set w | w in ws
  }

  /** A list without repetitions has as many distinct elements as it has elements. */
  lemma {:induction false} DistinctCount(ws: seq<string>)
    requires forall i, j :: 0 <= i < j < |ws| ==> ws[i] != ws[j]
    ensures |SetOf(ws)| == |ws|
  {
    if ws != [] {
      DistinctCount(ws[1..]);
      assert SetOf(ws) == {ws[0]} + SetOf(ws[1..]);
      assert ws[0] !in SetOf(ws[1..]);
    }
  }

  /** A list never has more distinct elements than it has elements. */
  lemma {:induction false} SetOfBound(ws: seq<string>)
    ensures |SetOf(ws)| <= |ws|
  {
    if ws != [] {
      SetOfBound(ws[1..]);
      assert SetOf(ws) == {ws[0]} + SetOf(ws[1..]);
    }
  }
}
