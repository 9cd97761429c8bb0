/** Blueprint text parsing (lib/building/blueprint-text.ts): newline
    normalisation, trimming of blank edge lines and removal of the common
    indentation. */
module BlueprintText {
  import opened Types

  /** The characters JavaScript's `trim` and the regular-expression class `\s`
      treat as white space (WhiteSpace and LineTerminator of ECMA-262). */
  predicate IsJsWhitespace(c: char)
  {
    c in {' ', '\t', '\n', '\r', '\U{000B}', '\U{000C}', '\U{00A0}', '\U{1680}',
          '\U{2000}', '\U{2001}', '\U{2002}', '\U{2003}', '\U{2004}', '\U{2005}',
          '\U{2006}', '\U{2007}', '\U{2008}', '\U{2009}', '\U{200A}',
          '\U{2028}', '\U{2029}', '\U{202F}', '\U{205F}', '\U{3000}', '\U{FEFF}'}
  }

  /** `line.trim() === ""`: the line is empty or white space only. */
  predicate IsBlank(line: string)
  {
    forall i :: 0 <= i < |line| ==> IsJsWhitespace(line[i])
  }

  /** `replaceAll("\r\n", "\n")`: each CR LF pair, scanning left to right, becomes LF.
      Two pairs never overlap, so this is the text with every CR that directly precedes an
      LF deleted. */
  function ReplaceCrLf(s: string): (r: string)
    ensures r == CrLfDropped(s)
    ensures forall c :: c in r && c != '\r' ==> c in s
  {
    if |s| >= 2 && s[0] == '\r' && s[1] == '\n' then
      assert s[1..][1..] == s[2..];
      "\n" + ReplaceCrLf(s[2..])
    else if s == [] then []
    else [s[0]] + ReplaceCrLf(s[1..])
  }

  /** The characters of s, one at a time, each kept unless it is a CR directly followed by
      an LF. */
  function CrLfDropped(s: string): (r: string)
    ensures |r| <= |s|
  {
    if s == [] then []
    else if |s| >= 2 && s[0] == '\r' && s[1] == '\n' then CrLfDropped(s[1..])
    else [s[0]] + CrLfDropped(s[1..])
  }

  /** A text without CR is left as it is. */
  lemma {:induction false} ReplaceCrLfNoCr(s: string)
    requires '\r' !in s
    ensures ReplaceCrLf(s) == s
  {
    if s != [] {
      assert '\r' !in s[1..] by {
        assert forall i :: 0 <= i < |s[1..]| ==> s[1..][i] == s[i + 1];
      }
      ReplaceCrLfNoCr(s[1..]);
    }
  }

  /** The scan does not restart behind a replacement: a CR before a CR LF pair stays, and
      forms a new pair with the LF that replaced the old one. */
  lemma ReplaceCrLfSinglePass()
    ensures ReplaceCrLf("\r\r\n") == "\r\n"
  {
    assert "\r\r\n"[1..] == "\r\n";
    assert "\r\n"[2..] == "";
  }

  /** `replaceAll("\r", "\n")`. */
  function ReplaceCr(s: string): (r: string)
    ensures |r| == |s| && '\r' !in r
    ensures forall i :: 0 <= i < |s| ==> r[i] == if s[i] == '\r' then '\n' else s[i]
  {
    seq(|s|, i requires 0 <= i < |s| => if s[i] == '\r' then '\n' else s[i])
  }

  /** `lines.join("\n")`. */
  function JoinLines(lines: seq<string>): string
  {
    if lines == [] then ""
    else if |lines| == 1 then lines[0]
    else lines[0] + "\n" + JoinLines(lines[1..])
  }

  /** `split("\n")`: the pieces between line feeds, which joined by LF give the text back;
      the empty string gives one empty piece. */
  function SplitLines(s: string): (lines: seq<string>)
    ensures |lines| >= 1
    ensures forall i :: 0 <= i < |lines| ==> '\n' !in lines[i]
    ensures forall i, c :: 0 <= i < |lines| && c in lines[i] ==> c in s
    ensures JoinLines(lines) == s
  {
    if s == [] then [""]
    else
      var rest := SplitLines(s[1..]);
      assert forall c :: c in s[1..] ==> c in s;
      assert s == [s[0]] + s[1..];
      if s[0] == '\n' then
        var lines := [""] + rest;
        assert forall i :: 1 <= i < |lines| ==> lines[i] == rest[i - 1];
        assert lines[1..] == rest;
        lines
      else
        var lines := [[s[0]] + rest[0]] + rest[1..];
        assert forall i :: 1 <= i < |lines| ==> lines[i] == rest[i];
        JoinFirstCons(s[0], rest);
        lines
  }

  /** Putting a character in front of the first piece puts it in front of the join. */
  lemma {:induction false} JoinFirstCons(c: char, rest: seq<string>)
    requires |rest| >= 1
    ensures JoinLines([[c] + rest[0]] + rest[1..]) == [c] + JoinLines(rest)
  {
    var lines := [[c] + rest[0]] + rest[1..];
    if |rest| >= 2 {
      assert lines[1..] == rest[1..];
      var tail := JoinLines(rest[1..]);
      assert JoinLines(lines) == ([c] + rest[0]) + "\n" + tail;
      assert JoinLines(rest) == rest[0] + "\n" + tail;
      assert ([c] + rest[0]) + "\n" + tail == [c] + (rest[0] + "\n" + tail);
    }
  }

  /** A piece without LF splits into itself. */
  lemma {:induction false} SplitNoBreak(w: string)
    requires '\n' !in w
    ensures SplitLines(w) == [w]
  {
    if w != [] {
      assert '\n' !in w[1..] by {
        assert forall i :: 0 <= i < |w[1..]| ==> w[1..][i] == w[i + 1];
      }
      SplitNoBreak(w[1..]);
      assert [w[0]] + w[1..] == w;
    }
  }

  /** A piece without LF followed by an LF is split off as the first piece. */
  lemma {:induction false} SplitPrefix(w: string, t: string)
    requires '\n' !in w
    ensures SplitLines(w + "\n" + t) == [w] + SplitLines(t)
  {
    var s := w + "\n" + t;
    if w == [] {
      assert s[1..] == t;
    } else {
      assert '\n' !in w[1..] by {
        assert forall i :: 0 <= i < |w[1..]| ==> w[1..][i] == w[i + 1];
      }
      assert s[1..] == w[1..] + "\n" + t;
      SplitPrefix(w[1..], t);
      assert [w[0]] + w[1..] == w;
    }
  }

  /** Splitting undoes joining: pieces without LF come back from their join. */
  lemma {:induction false} SplitJoin(lines: seq<string>)
    requires |lines| >= 1
    requires forall i :: 0 <= i < |lines| ==> '\n' !in lines[i]
    ensures SplitLines(JoinLines(lines)) == lines
  {
    if |lines| == 1 {
      SplitNoBreak(lines[0]);
    } else {
      SplitJoin(lines[1..]);
      SplitPrefix(lines[0], JoinLines(lines[1..]));
      assert [lines[0]] + lines[1..] == lines;
    }
  }

  /** How many blank lines open the list. */
  function LeadingBlankCount(lines: seq<string>): (n: nat)
    ensures n <= |lines|
    ensures forall i :: 0 <= i < n ==> IsBlank(lines[i])
    ensures n < |lines| ==> !IsBlank(lines[n])
  {
    if lines == [] || !IsBlank(lines[0]) then 0
    else
      var n := 1 + LeadingBlankCount(lines[1..]);
      assert forall i :: 1 <= i < n ==> lines[i] == lines[1..][i - 1];
      n
  }

  /** The end of the block lines[start..e] once its trailing blank lines are dropped. */
  function TrimmedEnd(lines: seq<string>, start: nat, e: nat): (r: nat)
    requires start <= e <= |lines|
    ensures start <= r <= e
    ensures forall i :: r <= i < e ==> IsBlank(lines[i])
    ensures r > start ==> !IsBlank(lines[r - 1])
    decreases e
  {
    if e > start && IsBlank(lines[e - 1]) then TrimmedEnd(lines, start, e - 1) else e
  }

  /** The lines with the blank lines at both edges removed: a contiguous block whose
      first and last lines are not blank, outside which every line is blank. */
  function TrimEdges(lines: seq<string>): (r: seq<string>)
    ensures r == [] || (!IsBlank(r[0]) && !IsBlank(r[|r| - 1]))
    ensures r == lines[LeadingBlankCount(lines)..TrimmedEnd(lines, LeadingBlankCount(lines), |lines|)]
    ensures (forall i :: 0 <= i < |lines| ==> IsBlank(lines[i])) <==> r == []
  {
    var s := LeadingBlankCount(lines);
    var e := TrimmedEnd(lines, s, |lines|);
    lines[s..e]
  }

  /** Lines 3-9: advances `start` past leading blank lines and pulls `end` back past
      trailing ones, then slices. */
  method TrimEmptyEdges(lines: seq<string>) returns (r: seq<string>)
    ensures r == TrimEdges(lines)
  {
    var start := 0;
    var end := |lines|;
    while start < end && IsBlank(lines[start])
      invariant 0 <= start <= end == |lines|
      invariant forall i :: 0 <= i < start ==> IsBlank(lines[i])
    {
      start := start + 1;
    }
    assert start == LeadingBlankCount(lines);
    while end > start && IsBlank(lines[end - 1])
      invariant start <= end <= |lines|
      invariant TrimmedEnd(lines, start, |lines|) == TrimmedEnd(lines, start, end)
    {
      end := end - 1;
    }
    r := lines[start..end];
  }

  /** The number of leading white-space characters: the length of the match of /^\s+/. */
  function LeadingWhitespace(line: string): (n: nat)
    ensures n <= |line|
    ensures forall i :: 0 <= i < n ==> IsJsWhitespace(line[i])
    ensures n < |line| ==> !IsJsWhitespace(line[n])
  {
    if line == [] || !IsJsWhitespace(line[0]) then 0 else 1 + LeadingWhitespace(line[1..])
  }

  /** The least indentation over the non-blank lines, or None when every line is blank. */
  function MinIndent(lines: seq<string>): (m: Option<nat>)
    ensures m.None? <==> forall i :: 0 <= i < |lines| ==> IsBlank(lines[i])
    ensures m.Some? ==> forall i :: 0 <= i < |lines| && !IsBlank(lines[i]) ==> m.value <= LeadingWhitespace(lines[i])
    ensures m.Some? ==> exists i :: 0 <= i < |lines| && !IsBlank(lines[i]) && LeadingWhitespace(lines[i]) == m.value
  {
    if lines == [] then None
    else
      var rest := MinIndent(lines[1..]);
      assert forall i :: 1 <= i < |lines| ==> lines[i] == lines[1..][i - 1];
      if IsBlank(lines[0]) then rest
      else
        var here := LeadingWhitespace(lines[0]);
        if rest.Some? && rest.value < here then rest else Some(here)
  }

  /** `l.slice(k)`: drops the first k characters (all of them when the line is shorter). */
  function DropPrefix(line: string, k: nat): (r: string)
    ensures k <= |line| ==> line == line[..k] + r
    ensures k > |line| ==> r == ""
  {
    if k <= |line| then line[k..] else ""
  }

  /** Removing at most a non-blank line's indentation leaves it non-blank, and removing
      exactly its indentation leaves it starting with a non-white-space character. */
  lemma DropIndent(line: string, k: nat)
    requires !IsBlank(line) && k <= LeadingWhitespace(line)
    ensures line == line[..k] + DropPrefix(line, k)
    ensures forall i :: 0 <= i < k ==> IsJsWhitespace(line[i])
    ensures !IsBlank(DropPrefix(line, k))
    ensures k == LeadingWhitespace(line) ==> !IsJsWhitespace(DropPrefix(line, k)[0])
  {
    var j :| 0 <= j < |line| && !IsJsWhitespace(line[j]);
    IndentBeforeText(line, j);
    assert DropPrefix(line, k)[j - k] == line[j];
  }

  /** A non-white-space character lies at or after the indentation. */
  lemma IndentBeforeText(line: string, j: nat)
    requires j < |line| && !IsJsWhitespace(line[j])
    ensures LeadingWhitespace(line) <= j
  {
  }

  /** A blank line stays blank when a prefix is dropped. */
  lemma DropBlank(line: string, k: nat)
    requires IsBlank(line)
    ensures IsBlank(DropPrefix(line, k))
  {
    var r := DropPrefix(line, k);
    if k <= |line| {
      assert forall i :: 0 <= i < |r| ==> r[i] == line[k + i];
    }
  }

  /** The lines of a text after both newline replacements and the split on line feeds. */
  function NormalizedLines(text: string): (lines: seq<string>)
    ensures |lines| >= 1
    ensures forall i :: 0 <= i < |lines| ==> '\r' !in lines[i] && '\n' !in lines[i]
    ensures JoinLines(lines) == ReplaceCr(ReplaceCrLf(text))
  {
    SplitLines(ReplaceCr(ReplaceCrLf(text)))
  }

  /** A text without CR is split on its line feeds as it stands. */
  lemma NormalizedLinesNoCr(text: string)
    requires '\r' !in text
    ensures NormalizedLines(text) == SplitLines(text)
  {
    ReplaceCrLfNoCr(text);
    assert ReplaceCr(text) == text;
  }

  /** The common indentation: 0 when no line is non-blank. */
  function CommonIndent(lines: seq<string>): (m: nat)
    ensures forall i :: 0 <= i < |lines| && !IsBlank(lines[i]) ==> m <= LeadingWhitespace(lines[i])
    ensures (exists i :: 0 <= i < |lines| && !IsBlank(lines[i])) ==>
              exists i :: 0 <= i < |lines| && !IsBlank(lines[i]) && LeadingWhitespace(lines[i]) == m
  {
    match MinIndent(lines)
    case None => 0
    case Some(m) => m
  }

  /** Lines 16-28: removes the common indentation from every line. */
  function Dedent(lines: seq<string>): (rows: seq<string>)
    ensures |rows| == |lines|
    ensures forall i :: 0 <= i < |lines| ==> rows[i] == DropPrefix(lines[i], CommonIndent(lines))
  {
    var m := CommonIndent(lines);
    seq(|lines|, i requires 0 <= i < |lines| => if m > 0 then DropPrefix(lines[i], m) else lines[i])
  }

  /** Lines 11-29: the blueprint rows of a text. */
  function RowsFromText(text: string): (rows: seq<string>)
    ensures |rows| == |TrimEdges(NormalizedLines(text))|
  {
    Dedent(TrimEdges(NormalizedLines(text)))
  }

  /** A blueprint whose rows are read from text. */
  datatype Blueprint = Blueprint(rows: seq<string>)

  /** Lines 31-33. */
  function BlueprintFromText(text: string): (b: Blueprint)
    ensures b.rows == RowsFromText(text)
    ensures forall i :: 0 <= i < |b.rows| ==> '\r' !in b.rows[i] && '\n' !in b.rows[i]
  {
    RowsFromTextLineBreaks(text);
    Blueprint(RowsFromText(text))
  }

  /** No row contains a carriage return or a line feed. */
  lemma RowsFromTextLineBreaks(text: string)
    ensures forall i :: 0 <= i < |RowsFromText(text)| ==> '\r' !in RowsFromText(text)[i] && '\n' !in RowsFromText(text)[i]
  {
    var trimmed := TrimEdges(NormalizedLines(text));
    TrimKeepsNoBreaks(NormalizedLines(text));
    DropKeepsNoBreaks(trimmed, CommonIndent(trimmed));
  }

  predicate NoBreaks(lines: seq<string>)
  {
    forall i :: 0 <= i < |lines| ==> '\r' !in lines[i] && '\n' !in lines[i]
  }

  lemma TrimKeepsNoBreaks(lines: seq<string>)
    requires NoBreaks(lines)
    ensures NoBreaks(TrimEdges(lines))
  {
    var s := LeadingBlankCount(lines);
    var e := TrimmedEnd(lines, s, |lines|);
    assert forall i :: 0 <= i < e - s ==> lines[s..e][i] == lines[s + i];
  }

  lemma DropKeepsNoBreaks(lines: seq<string>, m: nat)
    requires NoBreaks(lines)
    ensures forall i :: 0 <= i < |lines| ==> '\r' !in DropPrefix(lines[i], m) && '\n' !in DropPrefix(lines[i], m)
  {
    forall i | 0 <= i < |lines| ensures '\r' !in DropPrefix(lines[i], m) && '\n' !in DropPrefix(lines[i], m) {
      DropPrefixChars(lines[i], m);
    }
  }

  /** Dropping a prefix adds no character. */
  lemma DropPrefixChars(line: string, k: nat)
    ensures forall c :: c in DropPrefix(line, k) ==> c in line
  {
    if k <= |line| {
      assert forall j :: 0 <= j < |line| - k ==> line[k..][j] == line[k + j];
    }
  }

  /** Interior blank lines are kept: one row per line of the edge-trimmed text, and a row is
      blank exactly when its line is. The first and last rows are not blank. */
  lemma RowsFromTextShape(text: string)
    ensures |RowsFromText(text)| == |TrimEdges(NormalizedLines(text))|
    ensures forall i :: 0 <= i < |RowsFromText(text)| ==>
              (IsBlank(RowsFromText(text)[i]) <==> IsBlank(TrimEdges(NormalizedLines(text))[i]))
    ensures RowsFromText(text) == [] ||
              (!IsBlank(RowsFromText(text)[0]) && !IsBlank(RowsFromText(text)[|RowsFromText(text)| - 1]))
  {
    var trimmed := TrimEdges(NormalizedLines(text));
    var rows := RowsFromText(text);
    var m := CommonIndent(trimmed);
    forall i | 0 <= i < |rows| ensures IsBlank(rows[i]) <==> IsBlank(trimmed[i]) {
      if IsBlank(trimmed[i]) { DropBlank(trimmed[i], m); } else { DropIndent(trimmed[i], m); }
    }
  }

  /** The output is empty exactly when every line of the text is blank; the empty text is
      one such text. */
  lemma RowsFromTextEmpty(text: string)
    ensures RowsFromText(text) == [] <==> forall i :: 0 <= i < |NormalizedLines(text)| ==> IsBlank(NormalizedLines(text)[i])
    ensures RowsFromText("") == []
  {
    assert NormalizedLines("") == [""];
  }

  /** Each non-blank row is its line with exactly the common indentation removed; that
      indentation is white space, at most any non-blank line's indentation, and equal to
      some non-blank line's, so that line's row starts with a non-white-space character. */
  lemma RowsFromTextDedent(text: string)
    ensures var trimmed := TrimEdges(NormalizedLines(text));
            var m := CommonIndent(trimmed);
            forall i :: 0 <= i < |trimmed| && !IsBlank(trimmed[i]) ==>
              m <= LeadingWhitespace(trimmed[i]) &&
              trimmed[i] == trimmed[i][..m] + RowsFromText(text)[i] &&
              forall j :: 0 <= j < m ==> IsJsWhitespace(trimmed[i][j])
    ensures RowsFromText(text) != [] ==>
              exists i :: 0 <= i < |RowsFromText(text)| && !IsBlank(RowsFromText(text)[i]) &&
                          !IsJsWhitespace(RowsFromText(text)[i][0])
  {
    var trimmed := TrimEdges(NormalizedLines(text));
    var rows := RowsFromText(text);
    var m := CommonIndent(trimmed);
    forall i | 0 <= i < |trimmed| && !IsBlank(trimmed[i])
      ensures trimmed[i] == trimmed[i][..m] + rows[i] && forall j :: 0 <= j < m ==> IsJsWhitespace(trimmed[i][j])
    {
      DropIndent(trimmed[i], m);
    }
    if rows != [] {
      assert !IsBlank(trimmed[0]);
      var i :| 0 <= i < |trimmed| && !IsBlank(trimmed[i]) && LeadingWhitespace(trimmed[i]) == m;
      DropIndent(trimmed[i], m);
    }
  }

  /** When some non-blank line has no indentation, the rows are the edge-trimmed lines. */
  lemma RowsFromTextUnindented(text: string)
    requires exists i :: 0 <= i < |TrimEdges(NormalizedLines(text))| &&
               !IsBlank(TrimEdges(NormalizedLines(text))[i]) && LeadingWhitespace(TrimEdges(NormalizedLines(text))[i]) == 0
    ensures RowsFromText(text) == TrimEdges(NormalizedLines(text))
  {
    var trimmed := TrimEdges(NormalizedLines(text));
    assert CommonIndent(trimmed) == 0;
    assert forall i :: 0 <= i < |trimmed| ==> RowsFromText(text)[i] == trimmed[i];
  }
}
