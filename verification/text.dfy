/** The string primitives of Rust's standard library that the engine relies on:
    `trim`, `trim_start`, `strip_prefix`, `split_once`, `split_whitespace`, the line
    splitting of a buffered reader, and decimal rendering of an unsigned integer. */
module Text {
  import opened Results

  /** Rust's `char::is_whitespace`: the code points with the Unicode White_Space property. */
  predicate IsWhitespace(c: char) {
    var n := c as int;
    (0x09 <= n <= 0x0D) || n == 0x20 || n == 0x85 || n == 0xA0 || n == 0x1680
    || (0x2000 <= n <= 0x200A) || n == 0x2028 || n == 0x2029 || n == 0x202F
    || n == 0x205F || n == 0x3000
  }

  predicate NoWhitespace(s: string) {
    forall i | 0 <= i < |s| :: !IsWhitespace(s[i])
  }

  predicate AllWhitespace(s: string) {
    forall i | 0 <= i < |s| :: IsWhitespace(s[i])
  }

  /** Neither end of `s` is whitespace: `s` is its own `trim()`. */
  predicate IsTrimmed(s: string) {
    s == [] || (!IsWhitespace(s[0]) && !IsWhitespace(s[|s| - 1]))
  }

  /** `str::trim_start`: drops the leading whitespace and nothing else. */
  function TrimStart(s: string): (r: string)
    ensures |r| <= |s| && r == s[|s| - |r|..]
    ensures AllWhitespace(s[..|s| - |r|])
    ensures r == [] || !IsWhitespace(r[0])
  {
    if s != [] && IsWhitespace(s[0]) then
      var r := TrimStart(s[1..]);
      assert s[..|s| - |r|] == [s[0]] + s[1..][..|s| - 1 - |r|];
      r
    else s
  }

  /** `str::trim_end`: drops the trailing whitespace and nothing else. */
  function TrimEnd(s: string): (r: string)
    ensures |r| <= |s| && r == s[..|r|]
    ensures AllWhitespace(s[|r|..])
    ensures r == [] || !IsWhitespace(r[|r| - 1])
  {
    if s != [] && IsWhitespace(s[|s| - 1]) then
      var r := TrimEnd(s[..|s| - 1]);
      assert s[|r|..] == s[..|s| - 1][|r|..] + [s[|s| - 1]];
      r
    else s
  }

  lemma {:induction false} TrimStartOfWhitespace(s: string)
    requires AllWhitespace(s)
    ensures TrimStart(s) == []
  {
    if s != [] {
      TrimStartOfWhitespace(s[1..]);
    }
  }

  /** `str::trim`: the longest infix of `s` whose ends are not whitespace. */
  function Trim(s: string): (r: string)
    ensures IsTrimmed(r)
    ensures |r| <= |s|
    ensures r == [] <==> AllWhitespace(s)
  {
    var t := TrimStart(s);
    var r := TrimEnd(t);
    assert AllWhitespace(s) ==> t == [] by {
      if AllWhitespace(s) {
        TrimStartOfWhitespace(s);
      }
    }
    assert r == [] ==> AllWhitespace(s) by {
      if r == [] {
        assert t[|r|..] == t;
        assert t == [];
        assert s[..|s| - |t|] == s;
      }
    }
    r
  }

  /** Trimming text that is already trimmed changes nothing. */
  lemma TrimOfTrimmed(s: string)
    requires IsTrimmed(s)
    ensures Trim(s) == s
  {
    if s != [] {
      assert TrimStart(s) == s;
      assert TrimEnd(s) == s;
    }
  }

  /** A single leading space in front of trimmed text is all that `trim` removes. */
  lemma TrimLeadingSpace(s: string)
    requires s != [] && IsTrimmed(s)
    ensures Trim([' '] + s) == s
  {
    assert ([' '] + s)[1..] == s;
    assert TrimStart(s) == s;
    assert TrimEnd(s) == s;
  }

  /** `str::strip_prefix`: the rest of `s` after `p`, when `s` starts with `p`. */
  function StripPrefix(s: string, p: string): (r: Option<string>)
    ensures r.Some? <==> p <= s
    ensures r.Some? ==> s == p + r.value
  {
    if p <= s then Some(s[|p|..]) else None
  }

  /** `str::split_once` on a character: the parts before and after its first occurrence. */
  function SplitOnce(s: string, c: char): (r: Option<(string, string)>)
    ensures r.None? <==> c !in s
    ensures r.Some? ==> s == r.value.0 + [c] + r.value.1 && c !in r.value.0
  {
    if s == [] then None
    else if s[0] == c then Some(([], s[1..]))
    else
      match SplitOnce(s[1..], c)
      case None => None
      case Some(parts) => Some(([s[0]] + parts.0, parts.1))
  }

  /** Splitting is determined by the first occurrence: whatever follows it may contain `c`. */
  lemma {:induction false} SplitOnceAt(a: string, c: char, b: string)
    requires c !in a
    ensures SplitOnce(a + [c] + b, c) == Some((a, b))
  {
    if a == [] {
      assert a + [c] + b == [c] + b;
    } else {
      assert (a + [c] + b)[0] == a[0];
      assert (a + [c] + b)[1..] == a[1..] + [c] + b;
      SplitOnceAt(a[1..], c, b);
      assert [a[0]] + a[1..] == a;
    }
  }

  /** Length of the leading run of non-whitespace characters. */
  function WordLength(s: string): (n: nat)
    ensures n <= |s|
    ensures NoWhitespace(s[..n])
    ensures n == |s| || IsWhitespace(s[n])
  {
    if s == [] || IsWhitespace(s[0]) then 0 else 1 + WordLength(s[1..])
  }

  /** The characters of `s` that are not whitespace, in order. */
  function Visible(s: string): string {
    if s == [] then []
    else if IsWhitespace(s[0]) then Visible(s[1..])
    else [s[0]] + Visible(s[1..])
  }

  function Concat(words: seq<string>): string {
    if words == [] then [] else words[0] + Concat(words[1..])
  }

  lemma {:induction false} VisibleAppend(a: string, b: string)
    ensures Visible(a + b) == Visible(a) + Visible(b)
  {
    if a == [] {
      assert a + b == b;
    } else {
      assert (a + b)[1..] == a[1..] + b;
      VisibleAppend(a[1..], b);
    }
  }

  lemma {:induction false} VisibleOfWhitespace(s: string)
    requires AllWhitespace(s)
    ensures Visible(s) == []
  {
    if s != [] {
      VisibleOfWhitespace(s[1..]);
    }
  }

  lemma {:induction false} VisibleOfWord(s: string)
    requires NoWhitespace(s)
    ensures Visible(s) == s
  {
    if s != [] {
      VisibleOfWord(s[1..]);
    }
  }

  /** `str::split_whitespace`: the non-empty maximal runs of non-whitespace characters. */
  function SplitWhitespace(s: string): (words: seq<string>)
    ensures forall i | 0 <= i < |words| :: words[i] != [] && NoWhitespace(words[i])
    decreases |s|
  {
    var t := TrimStart(s);
    if t == [] then []
    else
      var n := WordLength(t);
      [t[..n]] + SplitWhitespace(t[n..])
  }

  /** Words separated by single spaces, as a command line is written out. */
  function JoinWords(words: seq<string>): string
    decreases |words|
  {
    if words == [] then []
    else if |words| == 1 then words[0]
    else words[0] + " " + JoinWords(words[1..])
  }

  /** Splitting words joined by spaces gives back the words, provided each is non-empty
      and holds no whitespace: the split cuts exactly at the whitespace and nowhere else. */
  lemma {:induction false} SplitJoinWords(words: seq<string>)
    requires forall i | 0 <= i < |words| :: words[i] != [] && NoWhitespace(words[i])
    ensures SplitWhitespace(JoinWords(words)) == words
    decreases |words|
  {
    if words == [] {
      SplitEmpty();
    } else if |words| == 1 {
      assert words[0] + [] == words[0];
      SplitWordThen(words[0], []);
      SplitEmpty();
    } else {
      var more := words[1..];
      assert forall i | 0 <= i < |more| :: more[i] == words[i + 1];
      assert words == [words[0]] + more;
      SplitJoinWords(more);
      SplitWordThenSpace(words[0], JoinWords(more), more);
    }
  }

  /** A word, a space and text whose words are `more` split into the word, then `more`. */
  lemma SplitWordThenSpace(w: string, tail: string, more: seq<string>)
    requires w != [] && NoWhitespace(w) && SplitWhitespace(tail) == more
    ensures SplitWhitespace(w + " " + tail) == [w] + more
  {
    assert w + " " + tail == w + (" " + tail);
    SplitWordThen(w, " " + tail);
    SplitAfterSpace(tail);
  }

  lemma SplitEmpty()
    ensures SplitWhitespace([]) == []
  {
    assert TrimStart([]) == [];
  }

  /** A word followed by whitespace, or by nothing, is the first word of the split. */
  lemma SplitWordThen(w: string, rest: string)
    requires w != [] && NoWhitespace(w) && (rest == [] || IsWhitespace(rest[0]))
    ensures SplitWhitespace(w + rest) == [w] + SplitWhitespace(rest)
  {
    var s := w + rest;
    assert TrimStart(s) == s by {
      assert s[0] == w[0];
    }
    WordLengthOfWord(w, rest);
    assert s[..|w|] == w && s[|w|..] == rest;
  }

  /** Joined words begin with the first word. */
  lemma JoinWordsHead(words: seq<string>)
    requires words != []
    ensures |words[0]| <= |JoinWords(words)| && JoinWords(words)[..|words[0]|] == words[0]
  {
  }

  /** A word ends at the first whitespace after it. */
  lemma {:induction false} WordLengthOfWord(w: string, rest: string)
    requires NoWhitespace(w) && (rest == [] || IsWhitespace(rest[0]))
    ensures WordLength(w + rest) == |w|
    decreases |w|
  {
    if w != [] {
      assert (w + rest)[1..] == w[1..] + rest;
      WordLengthOfWord(w[1..], rest);
    } else {
      assert w + rest == rest;
    }
  }

  /** A space in front of text changes none of its words. */
  lemma SplitAfterSpace(s: string)
    ensures SplitWhitespace(" " + s) == SplitWhitespace(s)
  {
    assert (" " + s)[1..] == s;
    assert TrimStart(" " + s) == TrimStart(s);
  }

  /** Dropping leading whitespace does not change the visible characters. */
  lemma VisibleTrimStart(s: string)
    ensures Visible(TrimStart(s)) == Visible(s)
  {
    var t := TrimStart(s);
    var spaces := s[..|s| - |t|];
    assert s == spaces + t;
    VisibleAfterWhitespace(s, spaces, t);
  }

  /** Whitespace in front of text adds no visible characters. */
  lemma VisibleAfterWhitespace(s: string, spaces: string, t: string)
    requires s == spaces + t && AllWhitespace(spaces)
    ensures Visible(s) == Visible(t)
  {
    VisibleAppend(spaces, t);
    VisibleOfWhitespace(spaces);
  }

  /** The words of `s`, concatenated, are exactly its non-whitespace characters. */
  lemma {:induction false} SplitWhitespaceVisible(s: string)
    ensures Concat(SplitWhitespace(s)) == Visible(s)
    decreases |s|
  {
    var t := TrimStart(s);
    if t == [] {
      VisibleTrimStart(s);
    } else {
      var n := WordLength(t);
      assert t == t[..n] + t[n..];
      VisibleOfSplit(s, t, t[..n], t[n..]);
      SplitWhitespaceVisible(t[n..]);
      ConcatCons(t[..n], SplitWhitespace(t[n..]));
    }
  }

  /** The visible characters of text are those of its first word, then those after it. */
  lemma VisibleOfSplit(s: string, t: string, word: string, rest: string)
    requires t == TrimStart(s) && t == word + rest && NoWhitespace(word)
    ensures Visible(s) == word + Visible(rest)
  {
    assert Visible(s) == Visible(t) by {
      VisibleTrimStart(s);
    }
    assert Visible(t) == Visible(word) + Visible(rest) by {
      VisibleAppend(word, rest);
    }
    assert Visible(word) == word by {
      VisibleOfWord(word);
    }
  }

  lemma ConcatCons(word: string, words: seq<string>)
    ensures Concat([word] + words) == word + Concat(words)
  {
    assert ([word] + words)[0] == word;
    assert ([word] + words)[1..] == words;
  }

  /** Removes one trailing carriage return, as a reader does for a CRLF line ending. */
  function DropCarriageReturn(line: string): string {
    if line != [] && line[|line| - 1] == '\r' then line[..|line| - 1] else line
  }

  /** The lines of `text` as `AsyncBufReadExt::lines` yields them: split at each '\n',
      a '\r' before that '\n' removed, and no empty line after a final '\n'. */
  function Lines(text: string): (lines: seq<string>)
    ensures forall i | 0 <= i < |lines| :: '\n' !in lines[i]
    decreases |text|
  {
    match SplitOnce(text, '\n')
    case None => if text == [] then [] else [text]
    case Some(parts) => [DropCarriageReturn(parts.0)] + Lines(parts.1)
  }

  /** Each line followed by a newline, as a writer of one line per entry produces. */
  function Unlines(lines: seq<string>): string {
    if lines == [] then [] else lines[0] + "\n" + Unlines(lines[1..])
  }

  /** Reading back what was written line by line gives the same lines, provided no line
      holds a newline or ends with a carriage return. */
  lemma {:induction false} LinesOfUnlines(lines: seq<string>)
    requires forall i | 0 <= i < |lines| :: '\n' !in lines[i]
    requires forall i | 0 <= i < |lines| :: lines[i] == [] || lines[i][|lines[i]| - 1] != '\r'
    ensures Lines(Unlines(lines)) == lines
  {
    if lines != [] {
      var rest := Unlines(lines[1..]);
      assert SplitOnce(Unlines(lines), '\n') == Some((lines[0], rest)) by {
        assert Unlines(lines) == lines[0] + ['\n'] + rest;
        SplitOnceAt(lines[0], '\n', rest);
      }
      assert Lines(rest) == lines[1..] by {
        LinesOfUnlines(lines[1..]);
      }
      assert lines == [lines[0]] + lines[1..];
    }
  }

  predicate IsDigit(c: char) {
    '0' <= c <= '9'
  }

  function DigitChar(d: nat): (c: char)
    requires d < 10
    ensures IsDigit(c)
  {
    "0123456789"[d]
  }

  function DigitValue(c: char): (d: nat)
    requires IsDigit(c)
    ensures d < 10
  {
    (c as int) - ('0' as int)
  }

  /** Rust's `Display` for an unsigned integer: its decimal digits, no leading zero. */
  function Decimal(n: nat): (s: string)
    ensures s != [] && forall i | 0 <= i < |s| :: IsDigit(s[i])
    ensures |s| > 1 ==> s[0] != '0'
  {
    if n < 10 then [DigitChar(n)] else Decimal(n / 10) + [DigitChar(n % 10)]
  }

  /** The number a string of decimal digits denotes. */
  function DecimalValue(s: string): nat
    requires forall i | 0 <= i < |s| :: IsDigit(s[i])
  {
    if s == [] then 0 else 10 * DecimalValue(s[..|s| - 1]) + DigitValue(s[|s| - 1])
  }

  /** Rendering in decimal loses nothing: the digits denote the number again. */
  lemma {:induction false} DecimalRoundTrip(n: nat)
    ensures DecimalValue(Decimal(n)) == n
  {
    if n >= 10 {
      DecimalRoundTrip(n / 10);
      var s := Decimal(n);
      assert s[..|s| - 1] == Decimal(n / 10);
    }
  }
}
