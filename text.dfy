/** The pieces of Rust's `str` API that the solvers rely on: `split` on a character, `lines`,
    `trim`, `matches(c).count()`. Strings are sequences of Unicode scalar values; byte offsets
    and byte lengths coincide with character offsets for the ASCII inputs the puzzles use. */
module Text {

  /** Join `pieces` with `sep` between consecutive pieces (the inverse of Split). */
  function Join(pieces: seq<string>, sep: char): string
    requires |pieces| >= 1
  {
    if |pieces| == 1 then pieces[0] else pieces[0] + [sep] + Join(pieces[1..], sep)
  }

  /** `s.split(sep)`: the maximal runs of `s` between occurrences of `sep`; an empty string
      gives one empty piece, and every separator starts a new piece. */
  function Split(s: string, sep: char): (r: seq<string>)
    ensures |r| >= 1
    ensures forall i :: 0 <= i < |r| ==> sep !in r[i]
    ensures Join(r, sep) == s
  {
    if s == [] then [""]
    else
      var rest := Split(s[1..], sep);
      if s[0] == sep then [""] + rest
      else [[s[0]] + rest[0]] + rest[1..]
  }

  /** Split undoes Join whenever no piece contains the separator. */
  lemma {:induction false} SplitJoin(pieces: seq<string>, sep: char)
    requires |pieces| >= 1
    requires forall i :: 0 <= i < |pieces| ==> sep !in pieces[i]
    ensures Split(Join(pieces, sep), sep) == pieces
  {
    if |pieces| == 1 {
      SplitNoSep(pieces[0], sep);
    } else {
      SplitJoin(pieces[1..], sep);
      SplitPrefix(pieces[0], sep, Join(pieces[1..], sep));
    }
  }

  lemma {:induction false} SplitNoSep(s: string, sep: char)
    requires sep !in s
    ensures Split(s, sep) == [s]
  {
    if s != [] {
      SplitNoSep(s[1..], sep);
    }
  }

  lemma {:induction false} SplitPrefix(a: string, sep: char, b: string)
    requires sep !in a
    ensures Split(a + [sep] + b, sep) == [a] + Split(b, sep)
  {
    if a == [] {
      assert a + [sep] + b == [sep] + b;
      assert ([sep] + b)[1..] == b;
    } else {
      assert (a + [sep] + b)[1..] == a[1..] + [sep] + b;
      SplitPrefix(a[1..], sep, b);
      assert [a[0]] + a[1..] == a;
    }
  }

  /** A line with its final carriage return, if any, removed. */
  function StripCr(line: string): (r: string)
    ensures r == line || r + "\r" == line
  {
    if |line| > 0 && line[|line| - 1] == '\r' then line[..|line| - 1] else line
  }

  /** `s.lines()`: the pieces between newlines, where a final newline does not start an
      extra, empty line, and a line ended by "\r\n" loses the '\r' as well. A '\r' at the
      very end of the text, not followed by '\n', stays part of the last line. */
  function Lines(s: string): (r: seq<string>)
    ensures forall i :: 0 <= i < |r| ==> '\n' !in r[i]
  {
    if s == [] then []
    else
      var pieces := Split(s, '\n');
      var n := |pieces| - 1;
      var ended := seq(n, i requires 0 <= i < n => StripCr(pieces[i]));
      assert forall i :: 0 <= i < n ==> '\n' !in ended[i] by {
        forall i | 0 <= i < n ensures '\n' !in ended[i] {
          assert '\n' !in pieces[i];
          if ended[i] != pieces[i] {
            assert pieces[i] == ended[i] + "\r";
          }
        }
      }
      if pieces[n] == "" then ended else ended + [pieces[n]]
  }

  /** A line that reads back as itself: no newline inside it and no carriage return at its
      end. */
  predicate Unbroken(line: string)
  {
    '\n' !in line && !(|line| > 0 && line[|line| - 1] == '\r')
  }

  /** Lines undoes joining with newlines when the last line is not empty. */
  lemma LinesJoin(lines: seq<string>)
    requires |lines| >= 1 && |lines[|lines| - 1]| > 0
    requires forall i :: 0 <= i < |lines| ==> Unbroken(lines[i])
    ensures Lines(Join(lines, '\n')) == lines
  {
    JoinLast(lines, '\n');
    SplitJoin(lines, '\n');
    LinesOfPieces(Join(lines, '\n'), lines);
  }

  /** The lines of a text whose pieces between newlines need no carriage return removed are
      those pieces, less a final empty one. */
  lemma LinesOfPieces(s: string, pieces: seq<string>)
    requires s != [] && Split(s, '\n') == pieces
    requires forall i :: 0 <= i < |pieces| - 1 ==> StripCr(pieces[i]) == pieces[i]
    ensures Lines(s) == if pieces[|pieces| - 1] == "" then pieces[..|pieces| - 1] else pieces
  {
    var n := |pieces| - 1;
    var ended := seq(n, i requires 0 <= i < n => StripCr(pieces[i]));
    assert ended == pieces[..n];
    assert pieces == ended + [pieces[n]];
  }

  /** Concatenation of the lines, each followed by a newline. */
  function Unlines(lines: seq<string>): string
  {
    if lines == [] then "" else lines[0] + "\n" + Unlines(lines[1..])
  }

  /** Lines undoes Unlines: a text written one line per row reads back as the same rows. */
  lemma LinesUnlines(lines: seq<string>)
    requires forall i :: 0 <= i < |lines| ==> Unbroken(lines[i])
    ensures Lines(Unlines(lines)) == lines
  {
    if lines != [] {
      UnlinesSplit(lines);
      assert Unlines(lines) == lines[0] + "\n" + Unlines(lines[1..]);
      LinesOfEnded(Unlines(lines), lines + [""], lines);
    }
  }

  /** The lines of a text that ends in a newline are its pieces between newlines, each with
      its final carriage return removed. */
  lemma LinesOfEnded(s: string, pieces: seq<string>, out: seq<string>)
    requires s != [] && Split(s, '\n') == pieces
    requires |out| == |pieces| - 1 && pieces[|out|] == ""
    requires forall i :: 0 <= i < |out| ==> StripCr(pieces[i]) == out[i]
    ensures Lines(s) == out
  {
  }

  /** Concatenation of the lines, each followed by "\r\n". */
  function UnlinesCrlf(lines: seq<string>): string
  {
    if lines == [] then "" else lines[0] + "\r\n" + UnlinesCrlf(lines[1..])
  }

  /** The lines each with a carriage return added at its end. */
  function WithCr(lines: seq<string>): (r: seq<string>)
    ensures |r| == |lines| && forall i :: 0 <= i < |lines| ==> r[i] == lines[i] + "\r"
  {
    seq(|lines|, i requires 0 <= i < |lines| => lines[i] + "\r")
  }

  /** Ending lines with "\r\n" is ending them with '\r' and then '\n'. */
  lemma {:induction false} UnlinesCrlfWithCr(lines: seq<string>)
    ensures UnlinesCrlf(lines) == Unlines(WithCr(lines))
  {
    if lines != [] {
      UnlinesCrlfWithCr(lines[1..]);
      assert WithCr(lines)[1..] == WithCr(lines[1..]);
      assert lines[0] + "\r\n" == lines[0] + "\r" + "\n";
    }
  }

  /** Lines undoes UnlinesCrlf: a text with Windows line endings reads back as the same rows,
      without their carriage returns. */
  lemma LinesCrlf(lines: seq<string>)
    requires forall i :: 0 <= i < |lines| ==> '\n' !in lines[i]
    ensures Lines(UnlinesCrlf(lines)) == lines
  {
    UnlinesCrlfWithCr(lines);
    var crs := WithCr(lines);
    WithCrFacts(lines);
    if lines != [] {
      UnlinesSplit(crs);
      assert Unlines(crs) == crs[0] + "\n" + Unlines(crs[1..]);
      LinesOfEnded(Unlines(crs), crs + [""], lines);
    }
  }

  /** Adding a carriage return keeps lines free of newlines, and StripCr takes it off again. */
  lemma WithCrFacts(lines: seq<string>)
    requires forall i :: 0 <= i < |lines| ==> '\n' !in lines[i]
    ensures forall i :: 0 <= i < |lines| ==> '\n' !in WithCr(lines)[i]
    ensures forall i :: 0 <= i < |lines| ==> StripCr((WithCr(lines) + [""])[i]) == lines[i]
  {
    var crs := WithCr(lines);
    forall i | 0 <= i < |lines| ensures '\n' !in crs[i] && StripCr((crs + [""])[i]) == lines[i] {
      assert (crs + [""])[i] == crs[i] == lines[i] + "\r";
      assert crs[i][..|crs[i]| - 1] == lines[i];
    }
  }

  /** A '\r' before a newline goes; one at the very end of the text stays. */
  lemma LinesCrExample(s: string)
    requires s == "a\r\nb\r"
    ensures Lines(s) == ["a", "b\r"]
  {
    var first, last := "a\r", "b\r";
    assert s == first + ['\n'] + last;
    SplitPrefix(first, '\n', last);
    SplitNoSep(last, '\n');
    assert Split(s, '\n') == [first, last];
    assert StripCr(first) == "a";
  }

  /** Splitting a text written one line per row gives the rows and a final empty piece. */
  lemma {:induction false} UnlinesSplit(lines: seq<string>)
    requires forall i :: 0 <= i < |lines| ==> '\n' !in lines[i]
    ensures Split(Unlines(lines), '\n') == lines + [""]
  {
    if lines != [] {
      UnlinesSplit(lines[1..]);
      SplitPrefix(lines[0], '\n', Unlines(lines[1..]));
      assert Unlines(lines) == lines[0] + ['\n'] + Unlines(lines[1..]);
      assert [lines[0]] + (lines[1..] + [""]) == lines + [""];
    }
  }

  /** Rust's `char::is_whitespace`: the characters with the Unicode White_Space property. */
  predicate IsWhitespace(c: char)
  {
    ('\U{9}' <= c <= '\U{D}') || c == '\U{20}' || c == '\U{85}' || c == '\U{A0}' || c == '\U{1680}'
    || ('\U{2000}' <= c <= '\U{200A}') || c == '\U{2028}' || c == '\U{2029}' || c == '\U{202F}'
    || c == '\U{205F}' || c == '\U{3000}'
  }

  /** Every character of `s` is whitespace. */
  predicate AllWhitespace(s: string)
  {
    forall i :: 0 <= i < |s| ==> IsWhitespace(s[i])
  }

  /** `s.trim_start()`. */
  function TrimStart(s: string): (r: string)
    ensures |r| <= |s|
  {
    if s != [] && IsWhitespace(s[0]) then TrimStart(s[1..]) else s
  }

  /** What trim_start removes is the whitespace at the front, up to the first character that
      is not whitespace, and what it keeps is the rest. */
  lemma {:induction false} TrimStartFacts(s: string)
    ensures var r := TrimStart(s); r == s[|s| - |r|..]
    ensures var r := TrimStart(s); r != [] ==> !IsWhitespace(r[0])
    ensures forall i :: 0 <= i < |s| - |TrimStart(s)| ==> IsWhitespace(s[i])
  {
    if s != [] && IsWhitespace(s[0]) {
      TrimStartFacts(s[1..]);
    }
  }

  /** `s.trim_end()`. */
  function TrimEnd(s: string): (r: string)
    ensures |r| <= |s|
  {
    if s != [] && IsWhitespace(s[|s| - 1]) then TrimEnd(s[..|s| - 1]) else s
  }

  /** What trim_end removes is the whitespace at the back, and what it keeps is the rest. */
  lemma {:induction false} TrimEndFacts(s: string)
    ensures var r := TrimEnd(s); r == s[..|r|]
    ensures var r := TrimEnd(s); r != [] ==> !IsWhitespace(r[|r| - 1])
    ensures forall i :: |TrimEnd(s)| <= i < |s| ==> IsWhitespace(s[i])
  {
    if s != [] && IsWhitespace(s[|s| - 1]) {
      TrimEndFacts(s[..|s| - 1]);
    }
  }

  /** `s.trim()`: nothing is left exactly when every character is whitespace. */
  function Trim(s: string): (r: string)
    ensures |r| <= |s|
    ensures r == [] <==> AllWhitespace(s)
  {
    var t := TrimStart(s);
    TrimStartFacts(s);
    TrimEndFacts(t);
    var r := TrimEnd(t);
    assert r != [] ==> r[0] == t[0] == s[|s| - |t|];
    r
  }

  /** `s.matches(c).count()`: how many times the character occurs. */
  function Occurrences(s: string, c: char): (n: nat)
    ensures n <= |s|
    ensures n == 0 <==> c !in s
  {
    if s == [] then 0 else Occurrences(s[..|s| - 1], c) + (if s[|s| - 1] == c then 1 else 0)
  }

  /** The count is the multiplicity of the character in the string. */
  lemma {:induction false} OccurrencesMultiset(s: string, c: char)
    ensures Occurrences(s, c) == multiset(s)[c]
  {
    if s != [] {
      OccurrencesMultiset(s[..|s| - 1], c);
      assert s == s[..|s| - 1] + [s[|s| - 1]];
    }
  }

  /** Counting over one more character of a prefix. */
  lemma OccurrencesPrefix(s: string, k: nat, c: char)
    requires k < |s|
    ensures Occurrences(s[..k + 1], c) == Occurrences(s[..k], c) + (if s[k] == c then 1 else 0)
  {
    assert s[..k + 1][..k] == s[..k];
  }

  /** A string splits into more than one piece exactly when it holds the separator. */
  lemma SplitSeveral(s: string, sep: char)
    ensures |Split(s, sep)| >= 2 <==> sep in s
  {
    var r := Split(s, sep);
    if |r| >= 2 {
      assert Join(r, sep) == r[0] + [sep] + Join(r[1..], sep);
      assert s[|r[0]|] == sep;
    } else {
      assert s == r[0];
    }
  }

  /** The joined string starts with the first piece when that piece is not empty. */
  lemma JoinFirst(pieces: seq<string>, sep: char)
    requires |pieces| >= 1 && |pieces[0]| > 0
    ensures |Join(pieces, sep)| > 0 && Join(pieces, sep)[0] == pieces[0][0]
  {
  }

  /** The joined string ends with the last piece when that piece is not empty. */
  lemma {:induction false} JoinLast(pieces: seq<string>, sep: char)
    requires |pieces| >= 1 && |pieces[|pieces| - 1]| > 0
    ensures |Join(pieces, sep)| > 0
    ensures Join(pieces, sep)[|Join(pieces, sep)| - 1] == pieces[|pieces| - 1][|pieces[|pieces| - 1]| - 1]
  {
    if |pieces| > 1 {
      var rest := pieces[1..];
      assert rest[|rest| - 1] == pieces[|pieces| - 1];
      JoinLast(rest, sep);
    }
  }

  /** A character that is neither the separator nor in any piece is not in the joined string. */
  lemma {:induction false} JoinExcludes(pieces: seq<string>, sep: char, c: char)
    requires |pieces| >= 1 && c != sep
    requires forall i :: 0 <= i < |pieces| ==> c !in pieces[i]
    ensures c !in Join(pieces, sep)
  {
    if |pieces| > 1 {
      JoinExcludes(pieces[1..], sep, c);
    }
  }

  /** Trimming leaves a string alone when neither end is whitespace. */
  lemma TrimKeeps(s: string)
    requires |s| > 0 && !IsWhitespace(s[0]) && !IsWhitespace(s[|s| - 1])
    ensures Trim(s) == s
  {
  }
}
