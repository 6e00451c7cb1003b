/** The Python string built-ins the program relies on: str.isspace, str.strip, str.split() and str.lower. */
module PyStr {

  /** Python's str.isspace for a single character. */
  predicate IsSpace(c: char) {
    var n := c as int;
    || (0x09 <= n <= 0x0D) || (0x1C <= n <= 0x20) || n == 0x85 || n == 0xA0 || n == 0x1680
    || (0x2000 <= n <= 0x200A) || n == 0x2028 || n == 0x2029 || n == 0x202F || n == 0x205F || n == 0x3000
  }

  predicate NoSpace(s: string) {
    forall i :: 0 <= i < |s| ==> !IsSpace(s[i])
  }

  /** A token that str.split() can produce: non-empty, no whitespace. */
  predicate IsWord(w: string) {
    |w| > 0 && NoSpace(w)
  }

  /** Length of the longest whitespace-free prefix of s. */
  function WordLength(s: string): (n: nat)
    ensures n <= |s|
    ensures NoSpace(s[..n])
    ensures n < |s| ==> IsSpace(s[n])
  {
    if s == [] || IsSpace(s[0]) then 0
    else
      var m := WordLength(s[1..]);
      assert s[..m + 1] == [s[0]] + s[1..][..m];
      m + 1
  }

  /** str.split() with no separator: the maximal runs of non-whitespace characters, in order. */
  function Split(s: string): (ws: seq<string>)
    ensures forall i :: 0 <= i < |ws| ==> IsWord(ws[i])
    decreases |s|
  {
    if s == [] then []
    else if IsSpace(s[0]) then Split(s[1..])
    else
      var n := WordLength(s);
      [s[..n]] + Split(s[n..])
  }

  function TrimStart(s: string): (r: string)
    decreases |s|
  {
    if s != [] && IsSpace(s[0]) then TrimStart(s[1..]) else s
  }

  function TrimEnd(s: string): (r: string)
    decreases |s|
  {
    if s != [] && IsSpace(s[|s| - 1]) then TrimEnd(s[..|s| - 1]) else s
  }

  /** str.strip() with no argument. */
  function Strip(s: string): (r: string) {
    TrimEnd(TrimStart(s))
  }

  /** The tokens joined back with one space between each pair. */
  function Join(ws: seq<string>): (r: string) {
    if |ws| == 0 then ""
    else if |ws| == 1 then ws[0]
    else ws[0] + " " + Join(ws[1..])
  }

  function LowerChar(c: char): (r: char) {
    if 'A' <= c <= 'Z' then (c as int + 32) as char else c
  }

  /** str.lower() on the ASCII letters. */
  function Lower(s: string): (r: string)
    ensures |r| == |s|
  {
    seq(|s|, i requires 0 <= i < |s| => LowerChar(s[i]))
  }

  /** Only "y" and "Y" lower-case to "y". */
  lemma LowerIsY(s: string)
    ensures Lower(s) == "y" <==> s == "y" || s == "Y"
  {
    if Lower(s) == "y" {
      assert |s| == 1 && Lower(s)[0] == 'y';
      assert LowerChar(s[0]) == 'y';
      assert s == [s[0]];
    }
    if s == "Y" {
      assert Lower(s)[0] == 'y';
    }
  }

  lemma {:induction false} WordLengthOfWord(w: string, rest: string)
    requires NoSpace(w)
    requires rest == [] || IsSpace(rest[0])
    ensures WordLength(w + rest) == |w|
    decreases |w|
  {
    if w != [] {
      assert !IsSpace(w[0]);
      assert NoSpace(w[1..]);
      assert (w + rest)[1..] == w[1..] + rest;
      WordLengthOfWord(w[1..], rest);
    } else {
      assert w + rest == rest;
    }
  }

  /** Splitting words joined by single spaces gives the words back. */
  lemma {:induction false} SplitJoin(ws: seq<string>)
    requires forall i :: 0 <= i < |ws| ==> IsWord(ws[i])
    ensures Split(Join(ws)) == ws
    decreases |ws|
  {
    if |ws| == 1 {
      var w := ws[0];
      WordLengthOfWord(w, []);
      assert w + [] == w;
      assert w[..|w|] == w;
      assert Split(w) == [w] + Split(w[|w|..]);
    } else if |ws| > 1 {
      var w, tail := ws[0], Join(ws[1..]);
      var s := w + " " + tail;
      WordLengthOfWord(w, " " + tail);
      assert s == w + (" " + tail);
      assert s[..|w|] == w;
      assert s[|w|..] == " " + tail;
      assert Split(" " + tail) == Split(tail) by {
        assert (" " + tail)[1..] == tail;
      }
      SplitJoin(ws[1..]);
      assert Split(s) == [w] + Split(s[|w|..]);
    }
  }

  /** Whitespace in front of the text adds no token. */
  lemma {:induction false} SplitLeadingSpace(sep: string, rest: string)
    requires forall i :: 0 <= i < |sep| ==> IsSpace(sep[i])
    ensures Split(sep + rest) == Split(rest)
    decreases |sep|
  {
    if sep == [] {
      assert sep + rest == rest;
    } else {
      assert (sep + rest)[0] == sep[0];
      assert (sep + rest)[1..] == sep[1..] + rest;
      SplitLeadingSpace(sep[1..], rest);
    }
  }

  /** A run of one or more whitespace characters after a word is a single separator. */
  lemma {:induction false} SplitSep(w: string, sep: string, rest: string)
    requires IsWord(w) && |sep| > 0
    requires forall i :: 0 <= i < |sep| ==> IsSpace(sep[i])
    ensures Split(w + sep + rest) == [w] + Split(rest)
  {
    var s := w + sep + rest;
    assert s == w + (sep + rest);
    assert (sep + rest)[0] == sep[0];
    WordLengthOfWord(w, sep + rest);
    assert s[0] == w[0];
    assert s[..|w|] == w;
    assert s[|w|..] == sep + rest;
    SplitLeadingSpace(sep, rest);
  }

  /** Splitting gives nothing exactly when the text is all whitespace. */
  lemma {:induction false} SplitBlank(s: string)
    ensures Split(s) == [] <==> forall i :: 0 <= i < |s| ==> IsSpace(s[i])
    decreases |s|
  {
    if s != [] {
      if IsSpace(s[0]) {
        SplitBlank(s[1..]);
        assert forall i :: 1 <= i < |s| ==> s[i] == s[1..][i - 1];
      }
    }
  }

  lemma {:induction false} SplitSnoc(x: string, c: char)
    requires IsSpace(c)
    ensures Split(x + [c]) == Split(x)
    decreases |x|
  {
    if x == [] {
      assert Split([c]) == Split([c][1..]);
    } else if IsSpace(x[0]) {
      assert (x + [c])[1..] == x[1..] + [c];
      SplitSnoc(x[1..], c);
    } else {
      var n := WordLength(x);
      assert x == x[..n] + x[n..];
      if n < |x| {
        WordLengthOfWord(x[..n], x[n..] + [c]);
        WordLengthOfWord(x[..n], x[n..]);
        assert x + [c] == x[..n] + (x[n..] + [c]);
      } else {
        WordLengthOfWord(x, [c]);
      }
      assert (x + [c])[..n] == x[..n];
      assert (x + [c])[n..] == x[n..] + [c];
      SplitSnoc(x[n..], c);
    }
  }

  lemma {:induction false} SplitTrimStart(s: string)
    ensures Split(TrimStart(s)) == Split(s)
    decreases |s|
  {
    if s != [] && IsSpace(s[0]) {
      SplitTrimStart(s[1..]);
    }
  }

  lemma {:induction false} SplitTrimEnd(s: string)
    ensures Split(TrimEnd(s)) == Split(s)
    decreases |s|
  {
    if s != [] && IsSpace(s[|s| - 1]) {
      var x := s[..|s| - 1];
      assert s == x + [s[|s| - 1]];
      SplitSnoc(x, s[|s| - 1]);
      SplitTrimEnd(x);
    }
  }

  /** Stripping before splitting (as `.strip().split()` does) changes nothing. */
  lemma SplitStrip(s: string)
    ensures Split(Strip(s)) == Split(s)
  {
    SplitTrimEnd(TrimStart(s));
    SplitTrimStart(s);
  }

  /** A string with no whitespace survives str.strip() unchanged. */
  lemma {:induction false} StripNoSpace(s: string)
    requires NoSpace(s)
    ensures Strip(s) == s
  {
    if s != [] {
      assert !IsSpace(s[0]);
      assert !IsSpace(s[|s| - 1]);
    }
  }
}
