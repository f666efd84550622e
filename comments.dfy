/**
 * Comment stripping: every line is cut at its first `#`, and the pieces are
 * concatenated with no separator. Lines are those of Rust's `str::lines`.
 */
module Comments {

  /**
   * Index of the first `c` in `s`, or `|s|` when there is none: `str::find`
   * for one character. `find` returns a byte offset and this a character
   * index, but both cut off the same prefix, which is all `remove_comments`
   * uses them for.
   */
  function IndexOf(s: string, c: char): (k: nat)
    ensures k <= |s|
    ensures k < |s| ==> s[k] == c
    ensures forall j :: 0 <= j < k ==> s[j] != c
  {
    if s == [] then 0
    else if s[0] == c then 0
    else 1 + IndexOf(s[1..], c)
  }

  /** Drops one trailing carriage return, if there is one. */
  function StripCarriageReturn(l: string): (r: string)
    ensures |l| > 0 && l[|l| - 1] == '\r' ==> l == r + ['\r']
    ensures !(|l| > 0 && l[|l| - 1] == '\r') ==> r == l
  {
    if |l| > 0 && l[|l| - 1] == '\r' then l[..|l| - 1] else l
  }

  /**
   * `str::lines`: the pieces between `\n`s, each with a `\r` that stood just
   * before its `\n` removed, and no empty piece after a final `\n`. A last
   * piece with no `\n` after it keeps a trailing `\r`.
   */
  function Lines(s: string): (ls: seq<string>)
    ensures forall k :: 0 <= k < |ls| ==> '\n' !in ls[k]
    decreases |s|
  {
    if s == [] then []
    else
      var k := IndexOf(s, '\n');
      if k == |s| then [s]
      else [StripCarriageReturn(s[..k])] + Lines(s[k + 1..])
  }

  /** One line with everything from its first `#` on removed. */
  function StripComment(line: string): (r: string)
    ensures |r| <= |line| && r == line[..|r|]
    ensures '#' !in r
    ensures |r| < |line| ==> line[|r|] == '#'
  {
    if '#' in line then line[..IndexOf(line, '#')] else line
  }

  /** The stripped lines, concatenated with no separator. */
  function Join(lines: seq<string>): (r: string)
    ensures '#' !in r
    ensures (forall k :: 0 <= k < |lines| ==> '\n' !in lines[k]) ==> '\n' !in r
  {
    if lines == [] then [] else StripComment(lines[0]) + Join(lines[1..])
  }

  /** What `remove_comments` returns. */
  function Cleaned(text: string): (r: string)
    ensures '#' !in r && '\n' !in r
  {
    Join(Lines(text))
  }

  /** Adding a line to the end adds its stripped text to the end. */
  lemma {:induction false} JoinAppend(lines: seq<string>, line: string)
    ensures Join(lines + [line]) == Join(lines) + StripComment(line)
  {
    if lines != [] {
      assert (lines + [line])[1..] == lines[1..] + [line];
      JoinAppend(lines[1..], line);
    }
  }

  /** `remove_comments`: a `for` loop over the lines, appending each cut line. */
  method RemoveComments(text: string) returns (output: string)
    ensures output == Cleaned(text)
  {
    output := "";
    var lines := Lines(text);
    for j := 0 to |lines|
      invariant output == Join(lines[..j])
    {
      var line := lines[j];
      var filtered := if '#' in line then line[..IndexOf(line, '#')] else line;
      JoinAppend(lines[..j], line);
      assert lines[..j + 1] == lines[..j] + [line];
      output := output + filtered;
    }
    assert lines[..|lines|] == lines;
  }

  // ---------------------------------------------------------------------------
  // Properties of comment stripping

  /** The output is never longer than the input. */
  lemma {:induction false} CleanedNoLonger(text: string)
    ensures |Cleaned(text)| <= |text|
    decreases |text|
  {
    if text != [] {
      var k := IndexOf(text, '\n');
      if k < |text| {
        var line, rest := text[..k], text[k + 1..];
        assert text == line + "\n" + rest;
        LinesUnfold(line, rest);
        assert Join(Lines(text)) == StripComment(StripCarriageReturn(line)) + Join(Lines(rest));
        assert |StripComment(StripCarriageReturn(line))| <= |line|;
        CleanedNoLonger(rest);
      } else {
        LinesOfOneLine(text);
        assert Join([text]) == StripComment(text) + Join([]);
      }
    }
  }

  /** A text without `\n` is a single line (or none, when empty). */
  lemma LinesOfOneLine(text: string)
    requires '\n' !in text
    ensures Lines(text) == if text == [] then [] else [text]
  {
  }

  /** Stripping comments twice is the same as stripping them once. */
  lemma CleanedIdempotent(text: string)
    ensures Cleaned(Cleaned(text)) == Cleaned(text)
  {
    var once := Cleaned(text);
    LinesOfOneLine(once);
    if once != [] {
      assert Join([once]) == StripComment(once) + Join([]);
    }
  }

  /** `"++#x\n+"` becomes `"+++"`: the comment goes, and so does the line break. */
  lemma CleanedExample()
    ensures Cleaned("++#x\n+") == "+++"
  {
    assert "++#x\n+" == "++#x" + "\n" + "+";
    LinesUnfold("++#x", "+");
    LinesOfOneLine("+");
  }

  /** A text with no `#` and no `\n` comes through unchanged. */
  lemma CleanedFixesPlainText(text: string)
    requires '#' !in text && '\n' !in text
    ensures Cleaned(text) == text
  {
    LinesOfOneLine(text);
    if text != [] {
      assert Join([text]) == StripComment(text) + Join([]);
    }
  }

  // ---------------------------------------------------------------------------
  // Properties of the line split

  /** The lines put back together with `\n` between them. */
  function Unlines(lines: seq<string>): string {
    if lines == [] then []
    else if |lines| == 1 then lines[0]
    else lines[0] + "\n" + Unlines(lines[1..])
  }

  /** A non-empty text has at least one line. */
  lemma LinesNonEmpty(s: string)
    requires s != []
    ensures Lines(s) != []
  {
  }

  /**
   * The lines are the pieces between the `\n`s, in order: for a text with no
   * `\r` that does not end in `\n`, joining them with `\n` gives the text back.
   */
  lemma {:induction false} LinesRoundTrip(s: string)
    requires '\r' !in s && (s == [] || s[|s| - 1] != '\n')
    ensures Unlines(Lines(s)) == s
    decreases |s|
  {
    if s != [] {
      var k := IndexOf(s, '\n');
      if k < |s| {
        var line, rest := s[..k], s[k + 1..];
        assert s == line + "\n" + rest;
        assert rest != [] && rest[|rest| - 1] == s[|s| - 1];
        assert '\r' !in rest by {
          forall j | 0 <= j < |rest| ensures rest[j] != '\r' {
            assert rest[j] == s[k + 1 + j];
          }
        }
        assert '\r' !in line;
        assert Lines(s) == [line] + Lines(rest);
        LinesNonEmpty(rest);
        LinesRoundTrip(rest);
        UnlinesCons(line, Lines(rest));
      }
    }
  }

  lemma UnlinesCons(line: string, lines: seq<string>)
    requires lines != []
    ensures Unlines([line] + lines) == line + "\n" + Unlines(lines)
  {
    assert ([line] + lines)[1..] == lines;
  }

  /** `IndexOf` is the first occurrence. */
  lemma IndexOfFirst(s: string, c: char, j: nat)
    requires j < |s| && s[j] == c && forall i :: 0 <= i < j ==> s[i] != c
    ensures IndexOf(s, c) == j
  {
  }

  /**
   * The first line is everything before the first `\n`, less a `\r` just
   * before it; the rest are the lines of what follows. With `LinesOfOneLine`
   * this determines `Lines` on every text.
   */
  lemma LinesUnfold(a: string, b: string)
    requires '\n' !in a
    ensures Lines(a + "\n" + b) == [StripCarriageReturn(a)] + Lines(b)
  {
    var s := a + "\n" + b;
    IndexOfFirst(s, '\n', |a|);
    assert s[..|a|] == a;
    assert s[|a| + 1..] == b;
  }

  /** A `\r` right before `\n` is dropped with it. */
  lemma LinesCarriageReturnNewline(a: string, b: string)
    requires '\n' !in a
    ensures Lines(a + "\r\n" + b) == [a] + Lines(b)
  {
    LinesUnfold(a + "\r", b);
    assert a + "\r\n" + b == (a + "\r") + "\n" + b;
  }

  /**
   * A final `\n` adds no line: it only ends the last one, dropping a `\r`
   * that stood before it. Without that `\r` the lines are the same.
   */
  lemma {:induction false} LinesFinalNewline(s: string)
    requires s != [] && s[|s| - 1] != '\n'
    ensures var ls := Lines(s);
            ls != [] && Lines(s + "\n") == ls[..|ls| - 1] + [StripCarriageReturn(ls[|ls| - 1])]
    ensures s[|s| - 1] != '\r' ==> Lines(s + "\n") == Lines(s)
    decreases |s|
  {
    var k := IndexOf(s, '\n');
    if k == |s| {
      LinesOfOneLine(s);
      LinesUnfold(s, []);
      assert s + "\n" + [] == s + "\n";
    } else {
      var a, b := s[..k], s[k + 1..];
      assert s == a + "\n" + b;
      assert s + "\n" == a + "\n" + (b + "\n");
      assert b != [] && b[|b| - 1] == s[|s| - 1];
      LinesUnfold(a, b);
      LinesUnfold(a, b + "\n");
      LinesFinalNewline(b);
      LastLineEnded(StripCarriageReturn(a), Lines(b), Lines(b + "\n"));
    }
  }

  /** Putting a line in front commutes with ending the last line. */
  lemma LastLineEnded(first: string, lb: seq<string>, ended: seq<string>)
    requires lb != [] && ended == lb[..|lb| - 1] + [StripCarriageReturn(lb[|lb| - 1])]
    ensures var ls := [first] + lb;
            [first] + ended == ls[..|ls| - 1] + [StripCarriageReturn(ls[|ls| - 1])]
  {
    var ls := [first] + lb;
    assert ls[..|ls| - 1] == [first] + lb[..|lb| - 1];
  }
}
