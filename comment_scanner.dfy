/** The comment scanner script: the lines of a source file are read in
    order; a line that is exactly `'''` opens or closes a multi-line
    comment, whose lines are gathered and printed when it closes; outside
    such a comment, the text after the last double quote is examined and
    the text between its first `#` and the next `#` (or the end of the line)
    is the line's comment, printed when it contains "ideaflow". Reading the
    file and splitting it into lines are not part of this model: the lines
    are the input, and the printed lines are the output. */
module CommentScanner {
  import opened Text

  const Delimiter: string := "'''"
  const Keyword: string := "ideaflow"
  const Quote: char := '"'
  const Hash: char := '#'
  const CommentLabel: string := "Comment: "
  const MultilineLabel: string := "Multiline comment: "

  // ---------------------------------------------------------------------------
  // Splitting a line

  /** `s.split(c)[-1]`: the longest suffix of `s` without `c`, which is all
      of `s` when `c` does not occur in it. */
  function AfterLast(s: string, c: char): (r: string)
    ensures c !in r
    ensures |r| <= |s| && r == s[|s| - |r|..]
    ensures |r| < |s| ==> s[|s| - |r| - 1] == c
  {
    if s == [] then []
    else if s[|s| - 1] == c then []
    else
      var init := s[..|s| - 1];
      var rest := AfterLast(init, c);
      assert s[|s| - |rest| - 1..] == init[|init| - |rest|..] + [s[|s| - 1]];
      rest + [s[|s| - 1]]
  }

  /** The longest prefix of `s` without `c`. */
  function UpTo(s: string, c: char): (r: string)
    ensures c !in r
    ensures |r| <= |s| && r == s[..|r|]
    ensures |r| < |s| ==> s[|r|] == c
  {
    if s == [] then []
    else if s[0] == c then []
    else [s[0]] + UpTo(s[1..], c)
  }

  /** `s.split(c)[1]`, for an `s` in which `c` occurs: the text between the
      first `c` and the next one, or the end of `s`. */
  function SecondField(s: string, c: char): (r: string)
    requires c in s
    ensures c !in r
    ensures var n := |UpTo(s, c)| + 1 + |r|;
            n <= |s| && s[..n] == UpTo(s, c) + [c] + r && (n < |s| ==> s[n] == c)
  {
    var head := UpTo(s, c);
    var r := UpTo(s[|head| + 1..], c);
    assert s[..|head| + 1 + |r|] == s[..|head|] + [c] + s[|head| + 1..][..|r|];
    r
  }

  /** A character of the second field is a character of the line. */
  lemma SecondFieldWithin(s: string, c: char, x: char)
    requires c in s && x in SecondField(s, c)
    ensures x in s
  {
    var r := SecondField(s, c);
    var n := |UpTo(s, c)| + 1 + |r|;
    var i :| 0 <= i < |r| && r[i] == x;
    assert s[..n][|UpTo(s, c)| + 1 + i] == x;
  }

  /** A string without `c` is its own prefix up to `c`. */
  lemma UpToAbsent(s: string, c: char)
    requires c !in s
    ensures UpTo(s, c) == s
  {
  }

  // ---------------------------------------------------------------------------
  // The scan

  /** The loop's variables: the multi-line flag, the pending comment, and
      the lines printed so far. */
  datatype ScanState = ScanState(inMultiline: bool, comment: string, printed: seq<string>)

  const Initial := ScanState(false, "", [])

  /** The text a line outside a multi-line comment is examined for. */
  function Examined(line: string): string {
    if Quote in line then AfterLast(line, Quote) else line
  }

  /** The first half of an iteration: a delimiter line flips the flag, and
      closing a multi-line comment prints it and clears it. */
  function Toggle(st: ScanState, line: string): ScanState {
    if line != Delimiter then st
    else if st.inMultiline then ScanState(false, "", st.printed + [MultilineLabel + st.comment + Delimiter])
    else st.(inMultiline := true)
  }

  /** The second half: inside a multi-line comment the line is appended;
      outside, the line's comment replaces the pending one and is printed
      and cleared when it holds the keyword. */
  function Examine(st: ScanState, line: string): ScanState {
    if st.inMultiline then st.(comment := st.comment + line)
    else
      var examined := Examined(line);
      if Hash !in examined then st
      else
        var field := SecondField(examined, Hash);
        if Contains(field, Keyword) then st.(comment := "", printed := st.printed + [CommentLabel + field])
        else st.(comment := field)
  }

  /** One iteration of the loop. */
  function Step(st: ScanState, line: string): ScanState {
    Examine(Toggle(st, line), line)
  }

  /** The loop over `lines` from state `st`. */
  function Run(st: ScanState, lines: seq<string>): ScanState {
    if lines == [] then st else Step(Run(st, lines[..|lines| - 1]), lines[|lines| - 1])
  }

  function Scan(lines: seq<string>): ScanState {
    Run(Initial, lines)
  }

  /** The script's loop, over the lines of the file. */
  method ScanComments(lines: seq<string>) returns (printed: seq<string>)
    ensures printed == Scan(lines).printed
  {
    var comment := "";
    var isInMultilineComment := false;
    printed := [];
    for index := 0 to |lines|
      invariant ScanState(isInMultilineComment, comment, printed) == Run(Initial, lines[..index])
    {
      assert lines[..index + 1][..index] == lines[..index];
      var line := lines[index];
      if line == Delimiter {
        isInMultilineComment := !isInMultilineComment;
        if !isInMultilineComment {
          printed := printed + [MultilineLabel + comment + Delimiter];
          comment := "";
        }
      }
      if isInMultilineComment {
        comment := comment + line;
      } else {
        if Quote in line {
          line := AfterLast(line, Quote);
        }
        if Hash in line {
          comment := SecondField(line, Hash);
          if Contains(comment, Keyword) {
            printed := printed + [CommentLabel + comment];
            comment := "";
          }
        }
      }
    }
    assert lines[..|lines|] == lines;
  }

  // ---------------------------------------------------------------------------
  // Properties

  lemma {:induction false} RunAppend(st: ScanState, a: seq<string>, b: seq<string>)
    ensures Run(st, a + b) == Run(Run(st, a), b)
  {
    if b == [] {
      assert a + b == a;
    } else {
      assert (a + b)[..|a + b| - 1] == a + b[..|b| - 1];
      RunAppend(st, a, b[..|b| - 1]);
    }
  }

  /** The number of delimiter lines. */
  function Toggles(lines: seq<string>): nat {
    if lines == [] then 0
    else Toggles(lines[..|lines| - 1]) + (if lines[|lines| - 1] == Delimiter then 1 else 0)
  }

  lemma StepFlag(st: ScanState, line: string)
    ensures Step(st, line).inMultiline == (if line == Delimiter then !st.inMultiline else st.inMultiline)
  {
  }

  /** Each delimiter line flips the multi-line flag and no other line does. */
  lemma {:induction false} MultilineParity(st: ScanState, lines: seq<string>)
    ensures Run(st, lines).inMultiline == (st.inMultiline != (Toggles(lines) % 2 == 1))
  {
    if lines != [] {
      MultilineParity(st, lines[..|lines| - 1]);
      StepFlag(Run(st, lines[..|lines| - 1]), lines[|lines| - 1]);
    }
  }

  /** What a printed line looks like: a single-line comment holding the
      keyword and neither a `#` nor a double quote, or a multi-line comment
      ending with the delimiter. */
  predicate IsReport(p: string) {
    (|CommentLabel| <= |p| && p[..|CommentLabel|] == CommentLabel && Contains(p[|CommentLabel|..], Keyword) &&
     Hash !in p[|CommentLabel|..] && Quote !in p[|CommentLabel|..]) ||
    (|MultilineLabel| + |Delimiter| <= |p| && p[..|MultilineLabel|] == MultilineLabel &&
     p[|p| - |Delimiter|..] == Delimiter)
  }

  /** One step prints at most one line, and it is a report. */
  lemma StepReports(st: ScanState, line: string)
    ensures var p := Step(st, line).printed;
            |st.printed| <= |p| <= |st.printed| + 1 && p[..|st.printed|] == st.printed &&
            (|p| > |st.printed| ==> IsReport(p[|st.printed|]))
  {
    var t := Toggle(st, line);
    if line == Delimiter && st.inMultiline {
      var m := MultilineLabel + st.comment + Delimiter;
      assert m[..|MultilineLabel|] == MultilineLabel;
      assert m[|m| - |Delimiter|..] == Delimiter;
      assert t.printed == st.printed + [m];
    }
    if !t.inMultiline {
      var examined := Examined(line);
      if Hash in examined {
        var field := SecondField(examined, Hash);
        if Contains(field, Keyword) {
          var c := CommentLabel + field;
          assert c[|CommentLabel|..] == field;
          if Quote in field {
            SecondFieldWithin(examined, Hash, Quote);
          }
          assert IsReport(c);
        }
      }
    }
  }

  /** Printed lines are only ever added, and each one is a report. */
  lemma {:induction false} OnlyReportsPrinted(st: ScanState, lines: seq<string>)
    ensures var p := Run(st, lines).printed;
            |st.printed| <= |p| && p[..|st.printed|] == st.printed &&
            forall k :: |st.printed| <= k < |p| ==> IsReport(p[k])
  {
    if lines != [] {
      var mid := Run(st, lines[..|lines| - 1]);
      OnlyReportsPrinted(st, lines[..|lines| - 1]);
      StepReports(mid, lines[|lines| - 1]);
      var p := Run(st, lines).printed;
      assert p[..|mid.printed|] == mid.printed;
      assert p[..|st.printed|] == mid.printed[..|st.printed|];
    }
  }

  lemma RunOne(st: ScanState, line: string)
    ensures Run(st, [line]) == Step(st, line)
  {
    assert [line][..0] == [];
  }

  /** Inside a multi-line comment every non-delimiter line is appended. */
  lemma {:induction false} GatherBody(st: ScanState, body: seq<string>)
    requires st.inMultiline
    requires forall k :: 0 <= k < |body| ==> body[k] != Delimiter
    ensures Run(st, body) == st.(comment := st.comment + Concat(body))
  {
    if body == [] {
      assert st.comment + Concat(body) == st.comment;
    } else {
      var init := body[..|body| - 1];
      assert forall k :: 0 <= k < |init| ==> init[k] == body[k];
      GatherBody(st, init);
      ConcatAppend(init, body[|body| - 1]);
      assert init + [body[|body| - 1]] == body;
    }
  }

  /** A delimiter line outside a multi-line comment opens one, starting
      with the delimiter itself. */
  lemma OpenStep(st: ScanState)
    requires !st.inMultiline
    ensures Step(st, Delimiter) == ScanState(true, st.comment + Delimiter, st.printed)
  {
  }

  /** A delimiter line inside a multi-line comment closes it, printing it
      and clearing it. */
  lemma CloseStep(st: ScanState)
    requires st.inMultiline
    ensures Step(st, Delimiter) == ScanState(false, "", st.printed + [MultilineLabel + st.comment + Delimiter])
  {
    assert Quote !in Delimiter && Hash !in Delimiter;
  }

  /** A multi-line comment is printed whatever it holds, its lines gathered
      with no separator, with the opening delimiter and any comment left
      pending before it in front. */
  lemma MultilineBlock(st: ScanState, body: seq<string>)
    requires !st.inMultiline
    requires forall k :: 0 <= k < |body| ==> body[k] != Delimiter
    ensures Run(st, [Delimiter] + body + [Delimiter]) ==
            ScanState(false, "", st.printed + [MultilineLabel + st.comment + Delimiter + Concat(body) + Delimiter])
  {
    var entered := ScanState(true, st.comment + Delimiter, st.printed);
    OpenStep(st);
    RunOne(st, Delimiter);
    GatherBody(entered, body);
    RunAppend(st, [Delimiter], body);
    var gathered := Run(st, [Delimiter] + body);
    assert gathered == ScanState(true, st.comment + Delimiter + Concat(body), st.printed);
    RunAppend(st, [Delimiter] + body, [Delimiter]);
    RunOne(gathered, Delimiter);
    CloseStep(gathered);
    assert MultilineLabel + gathered.comment + Delimiter == MultilineLabel + st.comment + Delimiter + Concat(body) + Delimiter;
  }

  /** Outside a multi-line comment, a line made of `#` and text without
      `#` or a double quote has that text as its comment. */
  lemma HashLine(st: ScanState, text: string)
    requires !st.inMultiline && Hash !in text && Quote !in text
    ensures var line := [Hash] + text;
            Step(st, line) ==
            if Contains(text, Keyword) then ScanState(false, "", st.printed + [CommentLabel + text])
            else st.(comment := text)
  {
    var line := [Hash] + text;
    assert line != Delimiter by {
      assert line[0] != Delimiter[0];
    }
    assert Quote !in line;
    assert UpTo(line, Hash) == [];
    assert line[1..] == text;
    UpToAbsent(text, Hash);
  }

  /** A single-line comment without the keyword is not cleared: it ends up
      in front of the next multi-line comment. */
  lemma LeftoverPrefixesBlock(body: seq<string>)
    requires forall k :: 0 <= k < |body| ==> body[k] != Delimiter
    ensures Scan([[Hash] + "note"] + ([Delimiter] + body + [Delimiter])).printed ==
            [MultilineLabel + "note" + Delimiter + Concat(body) + Delimiter]
  {
    var first := [Hash] + "note";
    assert !Contains("note", Keyword);
    HashLine(Initial, "note");
    RunOne(Initial, first);
    var after := ScanState(false, "note", []);
    MultilineBlock(after, body);
    RunAppend(Initial, [first], [Delimiter] + body + [Delimiter]);
  }

  /** The keyword match is case-sensitive: a lower-case keyword is reported
      and an upper-case one is not. */
  lemma KeywordCaseSensitive()
    ensures Scan([[Hash] + Keyword]).printed == [CommentLabel + Keyword]
    ensures Scan([[Hash] + "IDEAFLOW"]).printed == []
  {
    assert OccursAt(Keyword, Keyword, 0);
    assert !Contains("IDEAFLOW", Keyword) by {
      assert "IDEAFLOW"[0..|Keyword|][0] != Keyword[0];
    }
    HashLine(Initial, Keyword);
    HashLine(Initial, "IDEAFLOW");
    RunOne(Initial, [Hash] + Keyword);
    RunOne(Initial, [Hash] + "IDEAFLOW");
  }

  /** Only the text after the last double quote is examined, so a `#`
      before it does not start a comment. */
  lemma TextAfterLastQuote()
    ensures Scan(["#ideaflow\"x"]).printed == []
  {
    var line := "#ideaflow\"x";
    assert line[..|line| - 1] == "#ideaflow\"";
    assert AfterLast("#ideaflow\"", Quote) == [];
    assert AfterLast(line, Quote) == "x";
    assert line != Delimiter;
    RunOne(Initial, line);
  }
}
