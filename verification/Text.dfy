/** The handful of string operations the engine relies on. */
module Text {

  predicate HasPrefix(s: string, prefix: string) {
    prefix <= s
  }

  predicate HasSuffix(s: string, suffix: string) {
    |suffix| <= |s| && s[|s| - |suffix|..] == suffix
  }

  lemma SuffixLast(s: string, suffix: string)
    requires suffix != "" && HasSuffix(s, suffix)
    ensures s[|s| - 1] == suffix[|suffix| - 1]
  {
    assert s[|s| - |suffix|..][|suffix| - 1] == suffix[|suffix| - 1];
  }

  predicate Contains(s: string, word: string) {
    if |s| < |word| then false
    else word <= s || Contains(s[1..], word)
  }

  lemma {:induction false} ContainedSplits(s: string, word: string) returns (a: string, b: string)
    requires Contains(s, word)
    ensures s == a + word + b
  {
    if word <= s {
      a, b := [], s[|word|..];
    } else {
      a, b := ContainedSplits(s[1..], word);
      a := [s[0]] + a;
    }
  }

  lemma {:induction false} SplitContains(a: string, word: string, b: string)
    ensures Contains(a + word + b, word)
  {
    if a != [] {
      assert (a + word + b)[1..] == a[1..] + word + b;
      SplitContains(a[1..], word, b);
    } else {
      assert (a + word + b)[..|word|] == word;
    }
  }

  /** A word is contained where something may stand before and after it. */
  lemma ContainsMeaning(s: string, word: string)
    ensures Contains(s, word) <==> exists a, b :: s == a + word + b
  {
    if Contains(s, word) {
      var a, b := ContainedSplits(s, word);
    }
    if a, b :| s == a + word + b {
      SplitContains(a, word, b);
    }
  }

  /** Lower-casing as far as it can produce an ASCII letter: besides 'A'..'Z', only U+212A (Kelvin sign)
      and U+0130 (dotted capital I) lower-case to one. So a lower-cased string contains an ASCII word
      exactly when it does under the full Unicode mapping. */
  function LowerChar(c: char): char {
    if 'A' <= c <= 'Z' then c - 'A' + 'a'
    else if c == '\U{212A}' then 'k'
    else if c == '\U{0130}' then 'i'
    else c
  }

  function ToLower(s: string): (r: string)
    ensures |r| == |s|
  {
    if s == "" then "" else [LowerChar(s[0])] + ToLower(s[1..])
  }

  /** The character is the one given, its capital, or one of the two others that lower-case to it. */
  ghost predicate ReadsAs(c: char, l: char) {
    c == l || ('a' <= l <= 'z' && c as int + 32 == l as int) || (c == '\U{212A}' && l == 'k') || (c == '\U{0130}' && l == 'i')
  }

  /** The word stands at the position but for case. */
  ghost predicate WordAt(s: string, at: int, word: string) {
    0 <= at <= |s| - |word| && forall k :: 0 <= k < |word| ==> ReadsAs(s[at + k], word[k])
  }

  predicate IsPlain(word: string) {
    forall c :: c in word ==> 'a' <= c <= 'z' || c == '_' || c == '['
  }

  lemma {:induction false} ToLowerAt(s: string, i: nat)
    requires i < |s|
    ensures ToLower(s)[i] == LowerChar(s[i])
  {
    if i > 0 {
      ToLowerAt(s[1..], i - 1);
    }
  }

  /** A lower-cased string has a plain word at a position exactly if the string has it there but for case. */
  lemma LowerWordAt(s: string, at: nat, word: string)
    requires IsPlain(word)
    ensures WordAt(s, at, word) <==> at + |word| <= |s| && ToLower(s)[at..at + |word|] == word
  {
    if at + |word| <= |s| {
      var part := ToLower(s)[at..at + |word|];
      forall k | 0 <= k < |word| ensures ReadsAs(s[at + k], word[k]) <==> part[k] == word[k] {
        ToLowerAt(s, at + k);
        assert word[k] in word;
      }
    }
  }

  /** A word is contained but for case where it stands at some position. */
  lemma LowerContains(s: string, word: string)
    requires IsPlain(word)
    ensures Contains(ToLower(s), word) <==> exists at :: WordAt(s, at, word)
  {
    ContainsMeaning(ToLower(s), word);
    if a, b :| ToLower(s) == a + word + b {
      assert ToLower(s)[|a|..|a| + |word|] == word;
      LowerWordAt(s, |a|, word);
    }
    if at :| WordAt(s, at, word) {
      LowerWordAt(s, at, word);
      assert ToLower(s) == ToLower(s)[..at] + word + ToLower(s)[at + |word|..];
    }
  }

  /** Simple case folding as far as it can produce an ASCII letter: besides 'A'..'Z', only U+212A (Kelvin
      sign) and U+017F (long s) fold to one; U+0130 does not. */
  function FoldChar(c: char): char {
    if 'A' <= c <= 'Z' then c - 'A' + 'a'
    else if c == '\U{212A}' then 'k'
    else if c == '\U{017F}' then 's'
    else c
  }

  /** Whether a string is the same as a lower-case ASCII word but for case. */
  predicate EqualFold(s: string, word: string) {
    |s| == |word| && forall i :: 0 <= i < |s| ==> FoldChar(s[i]) == word[i]
  }

  /** The word "image", each letter in upper or lower case. */
  ghost predicate SaysImage(name: string) {
    |name| == 5 && name[0] in {'i', 'I'} && name[1] in {'m', 'M'} && name[2] in {'a', 'A'} && name[3] in {'g', 'G'}
    && name[4] in {'e', 'E'}
  }

  lemma SaysImageExactly(name: string)
    ensures EqualFold(name, "image") <==> SaysImage(name)
  {
    if EqualFold(name, "image") {
      assert FoldChar(name[0]) == 'i' && FoldChar(name[1]) == 'm' && FoldChar(name[2]) == 'a' && FoldChar(name[3]) == 'g'
             && FoldChar(name[4]) == 'e';
    }
  }

  /** One of the keys kept for the engine: the prefix, then '_' or '.', then anything. */
  ghost predicate ReservedKey(key: string, prefix: string) {
    prefix != "" && exists rest :: key == prefix + "_" + rest || key == prefix + "." + rest
  }

  lemma ReservedExactly(key: string, prefix: string)
    ensures ReservedKey(key, prefix) <==> prefix != "" && (HasPrefix(key, prefix + "_") || HasPrefix(key, prefix + "."))
  {
    if HasPrefix(key, prefix + "_") {
      assert key == prefix + "_" + key[|prefix| + 1..];
    } else if HasPrefix(key, prefix + ".") {
      assert key == prefix + "." + key[|prefix| + 1..];
    }
    if rest :| key == prefix + "_" + rest || key == prefix + "." + rest {
      assert key[..|prefix| + 1] == prefix + "_" || key[..|prefix| + 1] == prefix + ".";
    }
  }

  /** White space in the sense of unicode.IsSpace. */
  predicate IsSpace(c: char) {
    c in "\t\n\U{000B}\U{000C}\r \U{0085}\U{00A0}\U{1680}\U{2028}\U{2029}\U{202F}\U{205F}\U{3000}"
    || '\U{2000}' <= c <= '\U{200A}'
  }

  function TrimLeft(s: string): (r: string)
    ensures r == "" || !IsSpace(r[0])
    ensures |r| <= |s| && s[|s| - |r|..] == r
    ensures forall i :: 0 <= i < |s| - |r| ==> IsSpace(s[i])
  {
    if s != "" && IsSpace(s[0]) then TrimLeft(s[1..]) else s
  }

  function TrimRight(s: string): (r: string)
    ensures r == "" || !IsSpace(r[|r| - 1])
    ensures r <= s
    ensures forall i :: |r| <= i < |s| ==> IsSpace(s[i])
  {
    if s != "" && IsSpace(s[|s| - 1]) then TrimRight(s[..|s| - 1]) else s
  }

  function TrimSpace(s: string): string {
    TrimRight(TrimLeft(s))
  }

  /** Trimming changes a string exactly when a space starts or ends it, and then it shortens it. */
  lemma TrimSpaceFixed(s: string)
    ensures TrimSpace(s) == s <==> (s == "" || (!IsSpace(s[0]) && !IsSpace(s[|s| - 1])))
    ensures TrimSpace(s) != s ==> |TrimSpace(s)| < |s|
  {
    var l := TrimLeft(s);
    var t := TrimRight(l);
    if s != "" && IsSpace(s[0]) {
      assert l == TrimLeft(s[1..]);
      assert |t| <= |l| < |s|;
    } else {
      assert l == s;
      if s != "" && IsSpace(s[|s| - 1]) {
        assert t == TrimRight(s[..|s| - 1]);
      }
    }
  }

  /** Nothing is left of a string that is all white space. */
  lemma TrimsToNothing(s: string)
    ensures TrimSpace(s) == "" <==> forall c :: c in s ==> IsSpace(c)
  {
    hide IsSpace;
    var l := TrimLeft(s);
    var t := TrimRight(l);
    if t != "" {
      assert t[0] == l[0] == s[|s| - |l|];
      assert l[0] in s && !IsSpace(l[0]);
    } else {
      forall c | c in s ensures IsSpace(c) {
        var i :| 0 <= i < |s| && s[i] == c;
        assert i >= |s| - |l| ==> l[i - (|s| - |l|)] == c;
      }
    }
  }

  /** The part of a path after its last '/', the whole path when it has none. */
  function LastSegment(path: string): (r: string)
    ensures '/' !in r
    ensures HasSuffix(path, r)
    ensures r != path ==> path[|path| - |r| - 1] == '/'
  {
    if path == "" then ""
    else if path[|path| - 1] == '/' then ""
    else
      var r := LastSegment(path[..|path| - 1]);
      r + [path[|path| - 1]]
  }

  lemma {:induction false} LastSegmentOf(dir: string, leaf: string)
    ensures '/' !in leaf ==> LastSegment(dir + "/" + leaf) == leaf
    ensures |LastSegment(dir + "/" + leaf)| <= |leaf|
  {
    var path := dir + "/" + leaf;
    if leaf != "" {
      var shorter := leaf[..|leaf| - 1];
      assert path[..|path| - 1] == dir + "/" + shorter;
      LastSegmentOf(dir, shorter);
      assert '/' !in leaf ==> '/' !in shorter && leaf[|leaf| - 1] != '/';
    }
  }

  /** Decimal printing of an unsigned number, as the %d verb does. */
  function Decimal(n: nat): (r: string)
    ensures r != "" && (|r| == 1 <==> n < 10)
    ensures forall c :: c in r ==> '0' <= c <= '9'
  {
    var digit := ['0' + (n % 10) as char];
    if n < 10 then digit else Decimal(n / 10) + digit
  }

  lemma {:induction false} DecimalInjective(m: nat, n: nat)
    requires Decimal(m) == Decimal(n)
    ensures m == n
    decreases m
  {
    var dm, dn := Decimal(m), Decimal(n);
    assert dm[|dm| - 1] == '0' + (m % 10) as char;
    assert dn[|dn| - 1] == '0' + (n % 10) as char;
    assert m % 10 == n % 10;
    if m >= 10 {
      assert Decimal(m / 10) == dm[..|dm| - 1];
      assert Decimal(n / 10) == dn[..|dn| - 1];
      DecimalInjective(m / 10, n / 10);
    }
  }
}
