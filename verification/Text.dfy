/** The Python string operations that segmentation relies on, with their exact edge cases. */
module Text {
  import opened Common

  /** The characters `str.strip` removes. */
  predicate IsSpace(c: char) {
    || '\U{9}' <= c <= '\U{d}'
    || '\U{1c}' <= c <= '\U{20}'
    || c == '\U{85}' || c == '\U{a0}' || c == '\U{1680}'
    || '\U{2000}' <= c <= '\U{200a}'
    || c == '\U{2028}' || c == '\U{2029}' || c == '\U{202f}' || c == '\U{205f}' || c == '\U{3000}'
  }

  predicate IsBlank(s: string) {
    forall i :: 0 <= i < |s| ==> IsSpace(s[i])
  }

  /** `"\n".join(parts)`. */
  function Join(parts: seq<string>): string {
    if parts == [] then ""
    else if |parts| == 1 then parts[0]
    else parts[0] + "\n" + Join(parts[1..])
  }

  function TotalLength(parts: seq<string>): nat {
    if parts == [] then 0 else |parts[0]| + TotalLength(parts[1..])
  }

  lemma {:induction false} TotalLengthAppend(a: seq<string>, b: seq<string>)
    ensures TotalLength(a + b) == TotalLength(a) + TotalLength(b)
  {
    if a == [] {
      assert a + b == b;
    } else {
      TotalLengthAppend(a[1..], b);
      assert (a + b)[1..] == a[1..] + b;
    }
  }

  /** Joining adds one newline per seam. */
  lemma {:induction false} JoinLength(parts: seq<string>)
    requires parts != []
    ensures |Join(parts)| == TotalLength(parts) + |parts| - 1
  {
    if |parts| > 1 {
      JoinLength(parts[1..]);
    } else {
      assert parts == [parts[0]];
    }
  }

  /** The characters `str.splitlines` breaks at; carriage return plus line feed is one break. */
  predicate IsBreak(c: char) {
    || '\U{a}' <= c <= '\U{d}'
    || '\U{1c}' <= c <= '\U{1e}'
    || c == '\U{85}' || c == '\U{2028}' || c == '\U{2029}'
  }

  function FirstBreak(s: string): (i: nat)
    ensures i <= |s|
    ensures forall k :: 0 <= k < i ==> !IsBreak(s[k])
    ensures i < |s| ==> IsBreak(s[i])
  {
    if s == "" || IsBreak(s[0]) then 0 else 1 + FirstBreak(s[1..])
  }

  function BreakWidth(s: string, i: nat): (w: nat)
    requires i < |s|
    ensures 1 <= w && i + w <= |s|
  {
    if s[i] == '\r' && i + 1 < |s| && s[i + 1] == '\n' then 2 else 1
  }

  /** `str.splitlines()`: a trailing break opens no further line. */
  function SplitLines(s: string): (lines: seq<string>)
    ensures forall k :: 0 <= k < |lines| ==> BreakFree(lines[k])
    decreases |s|
  {
    if s == "" then []
    else
      var i := FirstBreak(s);
      if i == |s| then [s] else [s[..i]] + SplitLines(s[i + BreakWidth(s, i)..])
  }

  ghost predicate BreakFree(line: string) {
    forall k :: 0 <= k < |line| ==> !IsBreak(line[k])
  }

  /** A separator of lines: a carriage return and a line feed together, or any one break. */
  ghost predicate Separates(sep: string, rest: string) {
    || sep == "\r\n"
    || (|sep| == 1 && IsBreak(sep[0]) && (sep == "\r" && rest != "" ==> rest[0] != '\n'))
  }

  /** A text is its first line, one separator, and the lines of the rest; without a separator it is one
      line, unless it is empty. */
  lemma {:induction false} LinesExact(line: string, sep: string, rest: string)
    requires BreakFree(line)
    ensures Separates(sep, rest) ==> SplitLines(line + sep + rest) == [line] + SplitLines(rest)
    ensures SplitLines(line) == if line == "" then [] else [line]
  {
    if line != "" {
      LastLine(line);
    }
    if Separates(sep, rest) {
      var s := line + sep + rest;
      assert s[|line|] == sep[0];
      assert forall k :: 0 <= k < |line| ==> s[k] == line[k];
      assert FirstBreak(s) == |line|;
      assert s[..|line|] == line;
      if sep == "\r\n" {
        assert s[|line| + 1] == '\n';
      } else if rest != "" {
        assert s[|line| + 1] == rest[0];
      }
      assert s[|line| + |sep|..] == rest;
    }
  }

  /** The characters that are space, break lines, and end sentences; every line break is a space. */
  lemma CharacterClasses(c: char)
    ensures IsSentenceEnd(c) <==> c in ['\U{3002}', '\U{ff01}', '\U{ff1f}', '\U{ff1b}', '\n']
    ensures IsBreak(c) <==> c as int in {10, 11, 12, 13, 28, 29, 30, 0x85, 0x2028, 0x2029}
    ensures IsSpace(c) <==>
              || c as int in {9, 31, 32, 0xa0, 0x1680, 0x202f, 0x205f, 0x3000} || 0x2000 <= c as int <= 0x200a
              || IsBreak(c)
  {
  }

  lemma {:induction false} LastLine(line: string)
    requires BreakFree(line) && line != ""
    ensures SplitLines(line) == [line]
  {
    assert FirstBreak(line) == |line|;
  }

  function Kept(lines: seq<string>): seq<string> {
    if lines != [] && lines[|lines| - 1] == "" then lines[..|lines| - 1] else lines
  }

  /** Splitting undoes joining exactly when the last line is not empty; otherwise only that
      empty last line is lost. */
  lemma {:induction false} SplitJoin(lines: seq<string>)
    requires forall k :: 0 <= k < |lines| ==> BreakFree(lines[k])
    ensures SplitLines(Join(lines)) == Kept(lines)
  {
    if |lines| == 1 {
      if lines[0] != "" {
        LastLine(lines[0]);
      }
    } else if |lines| > 1 {
      SplitJoin(lines[1..]);
      LinesExact(lines[0], "\n", Join(lines[1..]));
      KeptFirst(lines);
    }
  }

  lemma KeptFirst(lines: seq<string>)
    requires |lines| > 1
    ensures Kept(lines) == [lines[0]] + Kept(lines[1..])
  {
    assert lines[1..][|lines| - 2] == lines[|lines| - 1];
  }

  predicate IsSentenceEnd(c: char) {
    c == '\U{3002}' || c == '\U{ff01}' || c == '\U{ff1f}' || c == '\U{ff1b}' || c == '\n'
  }

  function FirstSentenceEnd(s: string): (i: nat)
    ensures i <= |s|
    ensures forall k :: 0 <= k < i ==> !IsSentenceEnd(s[k])
    ensures i < |s| ==> IsSentenceEnd(s[i])
  {
    if s == "" || IsSentenceEnd(s[0]) then 0 else 1 + FirstSentenceEnd(s[1..])
  }

  /** `re.split` at the empty position after each sentence end; the last piece may be empty. */
  function SplitSentences(s: string): (pieces: seq<string>)
    ensures pieces != []
    decreases |s|
  {
    var i := FirstSentenceEnd(s);
    if i == |s| then [s] else [s[..i + 1]] + SplitSentences(s[i + 1..])
  }

  predicate EndFree(s: string) {
    forall k :: 0 <= k < |s| ==> !IsSentenceEnd(s[k])
  }

  predicate OneSentence(s: string) {
    s != "" && IsSentenceEnd(s[|s| - 1]) && EndFree(s[..|s| - 1])
  }

  /** The pieces are the text again, every piece but the last ends at its only sentence end, and the
      last one has none. */
  lemma {:induction false} SentencesConcat(s: string)
    ensures Flatten(SplitSentences(s)) == s
    ensures var p := SplitSentences(s);
            (forall i :: 0 <= i < |p| - 1 ==> OneSentence(p[i])) && EndFree(p[|p| - 1])
    decreases |s|
  {
    var i := FirstSentenceEnd(s);
    if i == |s| {
      assert Flatten([s]) == s + Flatten([]);
    } else {
      SentencesConcat(s[i + 1..]);
      assert s == s[..i + 1] + s[i + 1..];
      assert OneSentence(s[..i + 1]);
      assert SplitSentences(s)[1..] == SplitSentences(s[i + 1..]);
    }
  }

  // ---------------------------------------------------------------- substrings

  predicate OccursAt(text: string, quote: string, i: nat) {
    i + |quote| <= |text| && text[i..i + |quote|] == quote
  }

  predicate Contains(text: string, quote: string) {
    exists i: nat :: i <= |text| && OccursAt(text, quote, i)
  }

  /** A text contains its parts and nothing else. */
  ghost predicate IsPart(quote: string, text: string) {
    exists before: string, after: string :: Around(before, quote, after, text)
  }

  ghost predicate Around(before: string, quote: string, after: string, text: string) {
    text == before + quote + after
  }

  lemma ContainsExact(text: string, quote: string)
    ensures Contains(text, quote) <==> IsPart(quote, text)
  {
    if i: nat :| i <= |text| && OccursAt(text, quote, i) {
      assert Around(text[..i], quote, text[i + |quote|..], text);
    }
    if before: string, after: string :| Around(before, quote, after, text) {
      assert OccursAt(text, quote, |before|);
    }
  }
}
