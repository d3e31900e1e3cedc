// String helpers with Python's meaning of whitespace.
module Text {
  // str.isspace() on one character, which is also what \s matches.
  predicate IsSpace(c: char) {
    var n := c as int;
    || 9 <= n <= 13 || 28 <= n <= 32 || n == 0x85 || n == 0xA0 || n == 0x1680
    || 0x2000 <= n <= 0x200A || n == 0x2028 || n == 0x2029 || n == 0x202F || n == 0x205F || n == 0x3000
  }

  predicate IsBlank(s: string) {
    forall i :: 0 <= i < |s| ==> IsSpace(s[i])
  }

  function StripLeft(s: string): string {
    if s != [] && IsSpace(s[0]) then StripLeft(s[1..]) else s
  }

  function StripRight(s: string): string {
    if s != [] && IsSpace(s[|s| - 1]) then StripRight(s[..|s| - 1]) else s
  }

  // str.strip()
  function Strip(s: string): string {
    StripRight(StripLeft(s))
  }

  predicate IsTrimmed(s: string) {
    s != [] ==> !IsSpace(s[0]) && !IsSpace(s[|s| - 1])
  }

  lemma {:induction false} StripRightKeepsFirst(s: string)
    requires s != [] && !IsSpace(s[0])
    ensures StripRight(s) != [] && StripRight(s)[0] == s[0]
    ensures !IsSpace(StripRight(s)[|StripRight(s)| - 1])
    ensures |StripRight(s)| <= |s|
  {
    if IsSpace(s[|s| - 1]) {
      StripRightKeepsFirst(s[..|s| - 1]);
    }
  }

  lemma {:induction false} StripLeftTrims(s: string)
    ensures StripLeft(s) != [] ==> !IsSpace(StripLeft(s)[0])
    ensures |StripLeft(s)| <= |s|
  {
    if s != [] && IsSpace(s[0]) {
      StripLeftTrims(s[1..]);
    }
  }

  lemma StripTrims(s: string)
    ensures IsTrimmed(Strip(s)) && |Strip(s)| <= |s|
  {
    StripLeftTrims(s);
    if StripLeft(s) != [] {
      StripRightKeepsFirst(StripLeft(s));
    }
  }

  lemma StripOfTrimmed(s: string)
    requires IsTrimmed(s)
    ensures Strip(s) == s
  {
  }

  // Stripping empties exactly the blank strings.
  lemma {:induction false} StripLeftOfBlank(s: string)
    ensures StripLeft(s) == [] <==> IsBlank(s)
  {
    if s != [] {
      if IsSpace(s[0]) {
        StripLeftOfBlank(s[1..]);
        assert IsBlank(s) <==> IsBlank(s[1..]) by {
          if IsBlank(s[1..]) {
            forall i | 0 <= i < |s| ensures IsSpace(s[i]) {
              assert i > 0 ==> s[i] == s[1..][i - 1];
            }
          }
        }
      }
    }
  }

  // re.sub(r"\s+", " ", s)
  function Collapse(s: string): string {
    if s == [] then []
    else if !IsSpace(s[0]) then [s[0]] + Collapse(s[1..])
    else if |s| > 1 && IsSpace(s[1]) then Collapse(s[1..])
    else [' '] + Collapse(s[1..])
  }

  // The only whitespace is single spaces.
  predicate IsSpaced(s: string) {
    && (forall i :: 0 <= i < |s| && IsSpace(s[i]) ==> s[i] == ' ')
    && (forall i :: 0 <= i < |s| - 1 ==> !(s[i] == ' ' && s[i + 1] == ' '))
  }

  lemma {:induction false} CollapseIsSpaced(s: string)
    ensures IsSpaced(Collapse(s)) && |Collapse(s)| <= |s|
    ensures s != [] ==> Collapse(s) != [] && Collapse(s)[0] == if IsSpace(s[0]) then ' ' else s[0]
  {
    if s != [] {
      CollapseIsSpaced(s[1..]);
    }
  }

  lemma {:induction false} CollapseOfSpaced(s: string)
    requires IsSpaced(s)
    ensures Collapse(s) == s
  {
    if s != [] {
      assert IsSpaced(s[1..]) by {
        forall i | 0 <= i < |s[1..]| && IsSpace(s[1..][i]) ensures s[1..][i] == ' ' {
          assert s[1..][i] == s[i + 1];
        }
        forall i | 0 <= i < |s[1..]| - 1 ensures !(s[1..][i] == ' ' && s[1..][i + 1] == ' ') {
          assert s[1..][i] == s[i + 1] && s[1..][i + 1] == s[i + 2];
        }
      }
      CollapseOfSpaced(s[1..]);
      assert s == [s[0]] + s[1..];
    }
  }

  lemma {:induction false} StripKeepsSpaced(s: string)
    requires IsSpaced(s)
    ensures IsSpaced(StripLeft(s)) && IsSpaced(StripRight(s))
    decreases |s|
  {
    if s != [] {
      var tail, front := s[1..], s[..|s| - 1];
      assert IsSpaced(tail) by {
        forall i | 0 <= i < |tail| - 1 ensures !(tail[i] == ' ' && tail[i + 1] == ' ') {
          assert tail[i] == s[i + 1] && tail[i + 1] == s[i + 2];
        }
      }
      assert IsSpaced(front) by {
        forall i | 0 <= i < |front| - 1 ensures !(front[i] == ' ' && front[i + 1] == ' ') {
          assert front[i] == s[i] && front[i + 1] == s[i + 1];
        }
      }
      StripKeepsSpaced(tail);
      StripKeepsSpaced(front);
    }
  }

  // _inline in app/summary_output.py
  function Inline(s: string): string {
    Strip(Collapse(s))
  }

  predicate IsInline(s: string) {
    IsTrimmed(s) && IsSpaced(s)
  }

  // The result is in normal form, and a normal form is its own result.
  lemma InlineNormalizes(s: string)
    ensures IsInline(Inline(s)) && |Inline(s)| <= |s|
    ensures IsInline(s) ==> Inline(s) == s
  {
    CollapseIsSpaced(s);
    StripTrims(Collapse(s));
    StripKeepsSpaced(Collapse(s));
    StripKeepsSpaced(StripLeft(Collapse(s)));
    if IsInline(s) {
      CollapseOfSpaced(s);
      StripOfTrimmed(s);
    }
  }

  /* ---- Words ---- */

  // The longest runs without whitespace.
  function Words(s: string): (words: seq<string>)
    ensures s != [] && !IsSpace(s[0]) ==> words != []
  {
    if s == [] then []
    else if IsSpace(s[0]) then Words(s[1..])
    else if |s| > 1 && !IsSpace(s[1]) then [[s[0]] + Words(s[1..])[0]] + Words(s[1..])[1..]
    else [[s[0]]] + Words(s[1..])
  }

  lemma {:induction false} WordsOfBlank(s: string)
    ensures Words(s) == [] <==> IsBlank(s)
  {
    if s != [] && IsSpace(s[0]) {
      WordsOfBlank(s[1..]);
      assert forall i :: 0 < i < |s| ==> s[i] == s[1..][i - 1];
    }
  }

  lemma {:induction false} WordsOfCollapsed(s: string)
    ensures Words(Collapse(s)) == Words(s)
  {
    if s != [] {
      var tail := s[1..];
      WordsOfCollapsed(tail);
      CollapseIsSpaced(tail);
      assert !IsSpace(s[0]) ==> Collapse(s)[1..] == Collapse(tail);
      assert IsSpace(s[0]) && !(|s| > 1 && IsSpace(s[1])) ==> Collapse(s)[1..] == Collapse(tail);
    }
  }

  lemma {:induction false} WordsBeforeSpace(s: string, c: char)
    requires IsSpace(c)
    ensures Words(s + [c]) == Words(s)
  {
    if s != [] {
      WordsBeforeSpace(s[1..], c);
      assert (s + [c])[1..] == s[1..] + [c];
    } else {
      assert [c][1..] == [] && s + [c] == [c];
    }
  }

  lemma {:induction false} WordsOfStripped(s: string)
    ensures Words(StripLeft(s)) == Words(s) && Words(StripRight(s)) == Words(s)
    decreases |s|
  {
    if s != [] {
      WordsOfStripped(s[1..]);
      WordsOfStripped(s[..|s| - 1]);
      if IsSpace(s[|s| - 1]) {
        WordsBeforeSpace(s[..|s| - 1], s[|s| - 1]);
        assert s == s[..|s| - 1] + [s[|s| - 1]];
      }
    }
  }

  // The normal form of a text has its words and no others.
  lemma InlineKeepsWords(s: string)
    ensures Words(Inline(s)) == Words(s)
    ensures Inline(s) == [] <==> IsBlank(s)
  {
    WordsOfCollapsed(s);
    WordsOfStripped(Collapse(s));
    WordsOfStripped(StripLeft(Collapse(s)));
    WordsOfBlank(s);
    InlineNormalizes(s);
  }

  lemma StripOfBlank(s: string)
    ensures Strip(s) == [] <==> IsBlank(s)
  {
    WordsOfStripped(s);
    WordsOfStripped(StripLeft(s));
    WordsOfBlank(s);
    WordsOfBlank(Strip(s));
    StripTrims(s);
  }

  // Python's whitespace.
  lemma SpacesAre(c: char)
    ensures IsSpace(c) == (c in "\t\n\U{b}\U{c}\r \U{1c}\U{1d}\U{1e}\U{1f}\U{85}\U{a0}"
      + "\U{1680}\U{2000}\U{2001}\U{2002}\U{2003}\U{2004}\U{2005}\U{2006}\U{2007}\U{2008}\U{2009}\U{200a}"
      + "\U{2028}\U{2029}\U{202f}\U{205f}\U{3000}")
  {
  }

  /* ---- Lines ---- */

  // "\n".join(lines)
  function Join(lines: seq<string>): string {
    if lines == [] then []
    else if |lines| == 1 then lines[0]
    else lines[0] + ['\n'] + Join(lines[1..])
  }

  predicate NoNewline(s: string) {
    '\n' !in s
  }

  // The lines between newlines; there is always at least one.
  function Split(s: string): (lines: seq<string>)
    ensures lines != []
  {
    if s == [] then [[]]
    else
      var rest := Split(s[1..]);
      if s[0] == '\n' then [[]] + rest
      else [[s[0]] + rest[0]] + rest[1..]
  }

  lemma {:induction false} SplitOfLine(line: string, rest: string)
    requires NoNewline(line)
    ensures Split(line + ['\n'] + rest) == [line] + Split(rest)
    ensures Split(line) == [line]
  {
    if line == [] {
      assert line + ['\n'] + rest == ['\n'] + rest;
      assert (['\n'] + rest)[1..] == rest;
    } else {
      var tail := line[1..];
      SplitOfLine(tail, rest);
      var whole := line + ['\n'] + rest;
      assert whole[1..] == tail + ['\n'] + rest;
      assert [line[0]] + tail == line;
    }
  }

  // Joining and splitting again gives back the lines.
  lemma {:induction false} SplitOfJoin(lines: seq<string>)
    requires lines != [] && forall i :: 0 <= i < |lines| ==> NoNewline(lines[i])
    ensures Split(Join(lines)) == lines
  {
    if |lines| == 1 {
      SplitOfLine(lines[0], []);
      assert lines == [lines[0]];
    } else {
      SplitOfJoin(lines[1..]);
      SplitOfLine(lines[0], Join(lines[1..]));
      assert lines == [lines[0]] + lines[1..];
    }
  }

  lemma {:induction false} JoinEnds(lines: seq<string>)
    requires lines != [] && lines[0] != [] && lines[|lines| - 1] != []
    ensures Join(lines) != [] && Join(lines)[0] == lines[0][0]
    ensures var last := lines[|lines| - 1]; Join(lines)[|Join(lines)| - 1] == last[|last| - 1]
  {
    JoinLast(lines);
  }

  lemma {:induction false} JoinLast(lines: seq<string>)
    requires lines != [] && lines[|lines| - 1] != []
    ensures Join(lines) != []
    ensures var last := lines[|lines| - 1]; Join(lines)[|Join(lines)| - 1] == last[|last| - 1]
  {
    if |lines| > 1 {
      JoinLast(lines[1..]);
    }
  }
}
