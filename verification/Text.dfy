/** The string operations the parsers use, on ASCII text. */
module Text {

  predicate IsSpace(c: char) {
    c == ' ' || '\t' <= c <= '\r' || '\U{1C}' <= c <= '\U{1F}'
  }

  predicate IsDigit(c: char) {
    '0' <= c <= '9'
  }

  function LStrip(s: string): string {
    if s != [] && IsSpace(s[0]) then LStrip(s[1..]) else s
  }

  function RStrip(s: string): string {
    if s != [] && IsSpace(s[|s| - 1]) then RStrip(s[..|s| - 1]) else s
  }

  function Strip(s: string): string {
    RStrip(LStrip(s))
  }

  /** The position of the first space, or the length. */
  function WordEnd(s: string): (n: nat)
    ensures n <= |s|
    ensures n < |s| ==> IsSpace(s[n])
  {
    if s == [] || IsSpace(s[0]) then 0 else 1 + WordEnd(s[1..])
  }

  lemma {:induction false} LStripShorter(s: string)
    ensures |LStrip(s)| <= |s|
    ensures LStrip(s) != [] ==> !IsSpace(LStrip(s)[0]) && WordEnd(LStrip(s)) > 0
  {
    if s != [] && IsSpace(s[0]) {
      LStripShorter(s[1..]);
    }
  }

  /** `s.split()`: the words between runs of white space. */
  function Words(s: string): seq<string>
    decreases |s|
  {
    LStripShorter(s);
    var t := LStrip(s);
    if t == [] then [] else [t[..WordEnd(t)]] + Words(t[WordEnd(t)..])
  }

  /** `" ".join(words)`. */
  function Join(words: seq<string>): string {
    if words == [] then [] else if |words| == 1 then words[0] else words[0] + " " + Join(words[1..])
  }

  /** What follows the last `sep`: `s.split(sep)[-1]`. */
  function AfterLast(s: string, sep: char): string {
    if sep !in s then s
    else if s[|s| - 1] == sep then [] else AfterLast(s[..|s| - 1], sep) + [s[|s| - 1]]
  }

  /** What precedes the first space: `s.split(" ", 1)[0]`. */
  function FirstToken(s: string): string {
    if s == [] || s[0] == ' ' then [] else [s[0]] + FirstToken(s[1..])
  }

  function Without(s: string, c: char): string {
    if s == [] then [] else (if s[0] == c then [] else [s[0]]) + Without(s[1..], c)
  }

  predicate AllDigits(s: string) {
    s != [] && forall i :: 0 <= i < |s| ==> IsDigit(s[i])
  }

  function Lower(s: string): (r: string)
    ensures |r| == |s|
  {
    seq(|s|, i requires 0 <= i < |s| =>
      if 'A' <= s[i] <= 'Z' then (s[i] as int + 32) as char else s[i])
  }

  lemma {:induction false} RStripProperties(s: string)
    ensures RStrip(s) <= s
    ensures RStrip(s) != [] ==> !IsSpace(RStrip(s)[|RStrip(s)| - 1])
  {
    if s != [] && IsSpace(s[|s| - 1]) {
      RStripProperties(s[..|s| - 1]);
    }
  }

  /** A stripped string neither starts nor ends with white space. */
  lemma StripProperties(s: string)
    ensures |Strip(s)| <= |s|
    ensures Strip(s) != [] ==> !IsSpace(Strip(s)[0]) && !IsSpace(Strip(s)[|Strip(s)| - 1])
  {
    LStripShorter(s);
    RStripProperties(LStrip(s));
  }

  // ---- What the operations mean --------------------------------------------

  predicate Blank(s: string) {
    forall i :: 0 <= i < |s| ==> IsSpace(s[i])
  }

  /** Neither end is white space. */
  predicate Trim(s: string) {
    s == [] || (!IsSpace(s[0]) && !IsSpace(s[|s| - 1]))
  }

  lemma {:induction false} LStripDrops(w: string, s: string)
    requires Blank(w)
    ensures LStrip(w + s) == LStrip(s)
  {
    if w == [] {
      assert w + s == s;
    } else {
      assert (w + s)[1..] == w[1..] + s;
      LStripDrops(w[1..], s);
    }
  }

  lemma {:induction false} RStripDrops(s: string, w: string)
    requires Blank(w)
    ensures RStrip(s + w) == RStrip(s)
  {
    if w == [] {
      assert s + w == s;
    } else {
      var front := w[..|w| - 1];
      assert (s + w)[..|s + w| - 1] == s + front;
      RStripDrops(s, front);
    }
  }

  /** Stripping takes off the white space around a text, and nothing else. */
  lemma StripIs(before: string, s: string, after: string)
    requires Blank(before) && Trim(s) && Blank(after)
    ensures Strip(before + s + after) == s
  {
    assert before + s + after == before + (s + after);
    LStripDrops(before, s + after);
    if s == [] {
      LStripDrops(after, []);
      assert s + after == after + [];
    } else {
      assert (s + after)[0] == s[0];
      RStripDrops(s, after);
    }
  }

  lemma WhiteSpace(c: char)
    ensures IsSpace(c) <==> c in " \t\n\U{0B}\U{0C}\r\U{1C}\U{1D}\U{1E}\U{1F}"
    ensures IsDigit(c) <==> c in "0123456789"
  {
  }

  predicate IsWord(s: string) {
    s != [] && forall i :: 0 <= i < |s| ==> !IsSpace(s[i])
  }

  lemma {:induction false} WordEndIs(w: string, s: string)
    requires (forall i :: 0 <= i < |w| ==> !IsSpace(w[i])) && (s == [] || IsSpace(s[0]))
    ensures WordEnd(w + s) == |w|
  {
    if w == [] {
      assert w + s == s;
    } else {
      assert (w + s)[1..] == w[1..] + s;
      WordEndIs(w[1..], s);
    }
  }

  /** The words of a text: leading white space is skipped, and a word ends at white space. */
  lemma WordsAre(blank: string, w: string, s: string)
    requires Blank(blank) && IsWord(w) && (s == [] || IsSpace(s[0]))
    ensures Words(blank) == []
    ensures Words(blank + w + s) == [w] + Words(s)
  {
    LStripDrops(blank, []);
    assert blank + [] == blank;
    assert blank + w + s == blank + (w + s);
    LStripDrops(blank, w + s);
    assert (w + s)[0] == w[0];
    WordEndIs(w, s);
    assert (w + s)[..|w|] == w && (w + s)[|w|..] == s;
  }

  /** Joining puts one space between any two parts. */
  lemma {:induction false} JoinIs(a: seq<string>, b: seq<string>)
    requires a != [] && b != []
    ensures Join(a + b) == Join(a) + " " + Join(b)
    ensures |a| == 1 ==> Join(a) == a[0]
  {
    if |a| > 1 {
      assert (a + b)[1..] == a[1..] + b;
      JoinIs(a[1..], b);
      assert a[0] + " " + (Join(a[1..]) + " " + Join(b)) == (a[0] + " " + Join(a[1..])) + " " + Join(b);
    } else {
      assert (a + b)[1..] == b;
    }
  }

  /** What follows the last separator. */
  lemma {:induction false} AfterLastIs(a: string, b: string, sep: char)
    requires sep !in b
    ensures AfterLast(a + [sep] + b, sep) == b && AfterLast(b, sep) == b
  {
    var s := a + [sep] + b;
    assert s[|a|] == sep;
    if b != [] {
      var front := b[..|b| - 1];
      assert s[..|s| - 1] == a + [sep] + front && s[|s| - 1] == b[|b| - 1];
      AfterLastIs(a, front, sep);
      assert b == front + [b[|b| - 1]];
    }
  }

  /** What precedes the first space. */
  lemma {:induction false} FirstTokenIs(a: string, b: string)
    requires ' ' !in a
    ensures FirstToken(a + " " + b) == a && FirstToken(a) == a
  {
    if a != [] {
      FirstTokenIs(a[1..], b);
      assert (a + " " + b)[1..] == a[1..] + " " + b;
      assert a == [a[0]] + a[1..];
    }
  }

  /** Removing a character keeps all others, in order. */
  lemma {:induction false} WithoutIs(a: string, b: string, c: char)
    ensures Without(a + b, c) == Without(a, c) + Without(b, c)
    ensures |a| == 1 ==> Without(a, c) == if a[0] == c then [] else a
  {
    if a == [] {
      assert a + b == b;
    } else {
      var rest := a[1..];
      assert (a + b)[1..] == rest + b;
      WithoutIs(rest, b, c);
    }
  }

  /** Lower case changes the capitals, letter for letter, and nothing else. */
  lemma LowerIs(s: string, i: nat)
    requires i < |s|
    ensures s[i] < 'A' || 'Z' < s[i] ==> Lower(s)[i] == s[i]
    ensures 'A' <= s[i] <= 'Z' ==> 'a' <= Lower(s)[i] <= 'z' && Lower(s)[i] - 'a' == s[i] - 'A'
  {
  }
}
