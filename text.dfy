/**
 * Text helpers used by the upload handler: the whitespace test behind
 * Python's `str.strip()`, stripping itself, and the page-by-page
 * concatenation of extracted text.
 */
module Text {

  /** The ASCII characters Python counts as whitespace: tab, line feed,
      vertical tab, form feed, carriage return, the four separators
      0x1C-0x1F, and space. */
  const AsciiWhitespace: string := "\t\n\U{B}\U{C}\r\U{1C}\U{1D}\U{1E}\U{1F} "

  /** The characters Python's `str.isspace()` accepts; `str.strip()` with no
      argument removes exactly these from both ends of a string. */
  predicate IsWhitespace(c: char) {
    var n := c as int;
    || 0x09 <= n <= 0x0D
    || 0x1C <= n <= 0x20
    || n == 0x85 || n == 0xA0 || n == 0x1680
    || 0x2000 <= n <= 0x200A
    || n == 0x2028 || n == 0x2029 || n == 0x202F || n == 0x205F || n == 0x3000
  }

  /** Among ASCII characters, the whitespace ones are exactly those listed. */
  lemma AsciiWhitespaceExactly(c: char)
    requires c as int < 0x80
    ensures IsWhitespace(c) <==> c in AsciiWhitespace
  {
  }

  /** A string with no character other than whitespace (the empty string included). */
  predicate IsBlank(s: string) {
    forall i :: 0 <= i < |s| ==> IsWhitespace(s[i])
  }

  /** Drops leading whitespace: the result is the suffix of `s` that starts
      at its first non-whitespace character. */
  function TrimStart(s: string): (r: string)
    ensures |r| <= |s| && r == s[|s| - |r|..]
    ensures IsBlank(s[..|s| - |r|])
    ensures r == [] || !IsWhitespace(r[0])
    decreases |s|
  {
    if |s| > 0 && IsWhitespace(s[0]) then
      var r := TrimStart(s[1..]);
      assert s[..|s| - |r|] == [s[0]] + s[1..][..|s| - 1 - |r|];
      BlankAppend([s[0]], s[1..][..|s| - 1 - |r|]);
      r
    else
      s
  }

  /** Drops trailing whitespace: the result is the prefix of `s` that ends
      at its last non-whitespace character. */
  function TrimEnd(s: string): (r: string)
    ensures |r| <= |s| && r == s[..|r|]
    ensures IsBlank(s[|r|..])
    ensures r == [] || !IsWhitespace(r[|r| - 1])
    decreases |s|
  {
    if |s| > 0 && IsWhitespace(s[|s| - 1]) then
      var r := TrimEnd(s[..|s| - 1]);
      assert s[|r|..] == s[..|s| - 1][|r|..] + [s[|s| - 1]];
      BlankAppend(s[..|s| - 1][|r|..], [s[|s| - 1]]);
      r
    else
      s
  }

  /** Trailing-whitespace removal leaves nothing exactly when `t` is blank. */
  lemma TrimEndEmptyIffBlank(t: string)
    ensures TrimEnd(t) == [] <==> IsBlank(t)
  {
    var r := TrimEnd(t);
    if r == [] {
      assert t[|r|..] == t;
    } else {
      assert t[|r| - 1] == r[|r| - 1];
    }
  }

  /** Python's `s.strip()`. */
  function Strip(s: string): string {
    TrimEnd(TrimStart(s))
  }

  /** `not s.strip()` holds exactly for the blank strings. */
  lemma StripEmptyIffBlank(s: string)
    ensures Strip(s) == [] <==> IsBlank(s)
  {
    var t := TrimStart(s);
    var k := |s| - |t|;
    var p := s[..k];
    assert s == p + t;
    assert IsBlank(p);
    TrimEndEmptyIffBlank(t);
    assert Strip(s) == TrimEnd(t);
    BlankAppend(p, t);
  }

  /** The number of characters on all pages together. */
  function TotalLength(pages: seq<string>): nat {
    if pages == [] then 0 else |pages[0]| + TotalLength(pages[1..])
  }

  lemma {:induction false} TotalLengthAppend(pages: seq<string>, page: string)
    ensures TotalLength(pages + [page]) == TotalLength(pages) + |page|
    decreases |pages|
  {
    if pages != [] {
      assert (pages + [page])[1..] == pages[1..] + [page];
      TotalLengthAppend(pages[1..], page);
    }
  }

  /** The text of a document: the pages' texts joined in page order with
      nothing between them, built as `text += page` one page at a time. */
  function Concat(pages: seq<string>): string {
    if pages == [] then [] else Concat(pages[..|pages| - 1]) + pages[|pages| - 1]
  }

  /** The text is exactly as long as the pages together: no separator is added. */
  lemma {:induction false} ConcatLength(pages: seq<string>)
    ensures |Concat(pages)| == TotalLength(pages)
    decreases |pages|
  {
    if pages != [] {
      var init, last := pages[..|pages| - 1], pages[|pages| - 1];
      assert init + [last] == pages;
      ConcatLength(init);
      TotalLengthAppend(init, last);
    }
  }

  /** Any split of the page list splits the text at the same place. */
  lemma {:induction false} ConcatSplit(pages: seq<string>, k: nat)
    requires k <= |pages|
    ensures Concat(pages) == Concat(pages[..k]) + Concat(pages[k..])
    decreases |pages|
  {
    if k == |pages| {
      assert pages[..k] == pages;
      assert pages[k..] == [];
    } else {
      var n := |pages| - 1;
      var init := pages[..n];
      ConcatSplit(init, k);
      assert init[..k] == pages[..k];
      assert init[k..] == pages[k..n];
      var tail := pages[k..];
      assert tail[..|tail| - 1] == pages[k..n];
      assert tail[|tail| - 1] == pages[n];
    }
  }

  /** Page `i`'s text sits, verbatim, between the text of the pages before
      it and the text of the pages after it. */
  lemma ConcatPageAt(pages: seq<string>, i: nat)
    requires i < |pages|
    ensures Concat(pages) == Concat(pages[..i]) + pages[i] + Concat(pages[i + 1..])
  {
    var rest := pages[i..];
    ConcatSplit(pages, i);
    ConcatSplit(rest, 1);
    assert rest[..1] == [pages[i]];
    assert [pages[i]][..0] == [];
    assert Concat(rest[..1]) == pages[i];
    assert rest[1..] == pages[i + 1..];
    var a, b, c := Concat(pages[..i]), pages[i], Concat(pages[i + 1..]);
    assert Concat(pages) == a + (b + c);
    assert a + (b + c) == a + b + c;
  }

  lemma BlankAppend(a: string, b: string)
    ensures IsBlank(a + b) <==> IsBlank(a) && IsBlank(b)
  {
    var ab := a + b;
    if IsBlank(ab) {
      forall i | 0 <= i < |a| ensures IsWhitespace(a[i]) { assert a[i] == ab[i]; }
      forall i | 0 <= i < |b| ensures IsWhitespace(b[i]) { assert b[i] == ab[|a| + i]; }
    }
    if IsBlank(a) && IsBlank(b) {
      forall i | 0 <= i < |ab| ensures IsWhitespace(ab[i]) {
        if i < |a| { assert ab[i] == a[i]; } else { assert ab[i] == b[i - |a|]; }
      }
    }
  }

  /** The document text is blank exactly when every page's text is. */
  lemma {:induction false} ConcatBlankIffPagesBlank(pages: seq<string>)
    ensures IsBlank(Concat(pages)) <==> forall i :: 0 <= i < |pages| ==> IsBlank(pages[i])
    decreases |pages|
  {
    if pages != [] {
      var n := |pages| - 1;
      var init := pages[..n];
      assert Concat(pages) == Concat(init) + pages[n];
      ConcatBlankIffPagesBlank(init);
      BlankAppend(Concat(init), pages[n]);
      if IsBlank(Concat(pages)) {
        forall i | 0 <= i < |pages| ensures IsBlank(pages[i]) {
          if i < n { assert pages[i] == init[i]; }
        }
      }
      if forall i :: 0 <= i < |pages| ==> IsBlank(pages[i]) {
        forall i | 0 <= i < n ensures IsBlank(init[i]) {
          assert init[i] == pages[i];
        }
      }
    }
  }
}
