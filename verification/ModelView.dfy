/** The view of a text that models are shown: mixed-script letters and default-ignorable characters
    are spelled out (app/unicode_security.py).

    The Unicode database and NFC are parameters; the digest of the text and lone surrogates are left
    out. */
module ModelView {
  import opened Wrappers

  datatype Ucd = Ucd(
    isAlpha: char -> bool, isCombining: char -> bool, isFormat: char -> bool, name: char -> string, nfc: string -> string)

  datatype Script = Latin | Greek | Cyrillic | Armenian | Hebrew | Arabic

  predicate In(c: char, from: int, to: int) {
    from <= c as int <= to
  }

  predicate IsBidiControl(c: char) {
    In(c, 0x061C, 0x061C) || In(c, 0x200E, 0x200F) || In(c, 0x202A, 0x202E) || In(c, 0x2066, 0x2069)
  }

  predicate IsZeroWidth(c: char) {
    In(c, 0x200B, 0x200D) || In(c, 0x2060, 0x2060) || In(c, 0xFEFF, 0xFEFF)
  }

  predicate IsDefaultIgnorable(u: Ucd, c: char) {
    u.isFormat(c) || In(c, 0x034F, 0x034F) || In(c, 0x180B, 0x180F) || In(c, 0xFE00, 0xFE0F) || In(c, 0xE0100, 0xE01EF)
  }

  // _script
  function ScriptOf(u: Ucd, c: char): Option<Script> {
    if !u.isAlpha(c) then None
    else if In(c, 0x0041, 0x024F) || In(c, 0x1E00, 0x1EFF) then Some(Latin)
    else if In(c, 0x0370, 0x03FF) || In(c, 0x1F00, 0x1FFF) then Some(Greek)
    else if In(c, 0x0400, 0x052F) || In(c, 0x2DE0, 0x2DFF) || In(c, 0xA640, 0xA69F) then Some(Cyrillic)
    else if In(c, 0x0530, 0x058F) then Some(Armenian)
    else if In(c, 0x0590, 0x05FF) then Some(Hebrew)
    else if In(c, 0x0600, 0x06FF) || In(c, 0x0750, 0x077F) || In(c, 0x08A0, 0x08FF) || In(c, 0xFB50, 0xFDFF)
      || In(c, 0xFE70, 0xFEFF) then Some(Arabic)
    else None
  }

  predicate IsWord(u: Ucd, c: char) {
    u.isAlpha(c) || u.isCombining(c)
  }

  const OPEN := '⟦'
  const CLOSE := '⟧'

  predicate IsPrintableAscii(c: char) {
    In(c, 0x20, 0x7E)
  }

  // What the Unicode database says of these characters.
  ghost predicate IsUcd(u: Ucd) {
    && !IsWord(u, OPEN) && !IsWord(u, CLOSE) && !u.isFormat(OPEN) && !u.isFormat(CLOSE)
    && (forall c: char :: IsPrintableAscii(c) ==> !u.isFormat(c))
    && (forall c: char :: IsBidiControl(c) || IsZeroWidth(c) ==> u.isFormat(c))
    && (forall c: char, i: int :: 0 <= i < |u.name(c)| ==> IsPrintableAscii(u.name(c)[i]))
  }

  /* ---- Words and their scripts ---- */

  // The maximal stretch of word characters around position i.
  function WordStart(u: Ucd, text: string, i: nat): nat
    requires i <= |text|
  {
    if i == 0 || !IsWord(u, text[i - 1]) then i else WordStart(u, text, i - 1)
  }

  function WordEnd(u: Ucd, text: string, i: nat): nat
    requires i <= |text|
    decreases |text| - i
  {
    if i == |text| || !IsWord(u, text[i]) then i else WordEnd(u, text, i + 1)
  }

  function Scripts(u: Ucd, text: string, from: nat, to: nat): set<Script>
    requires to <= |text|
  {
    set k | from <= k < to && ScriptOf(u, text[k]).Some? :: ScriptOf(u, text[k]).value
  }

  // "Latin" if it is among them, else the first by name.
  function Primary(scripts: set<Script>): Option<Script> {
    if Latin in scripts then Some(Latin)
    else if Arabic in scripts then Some(Arabic)
    else if Armenian in scripts then Some(Armenian)
    else if Cyrillic in scripts then Some(Cyrillic)
    else if Greek in scripts then Some(Greek)
    else if Hebrew in scripts then Some(Hebrew)
    else None
  }

  function WordPrimary(u: Ucd, text: string, i: nat): Option<Script>
    requires i < |text|
  {
    WordEndBound(u, text, i);
    Primary(Scripts(u, text, WordStart(u, text, i), WordEnd(u, text, i)))
  }

  // A letter that is not of the main script of its word.
  predicate IsMixed(u: Ucd, text: string, i: nat)
    requires i < |text|
  {
    IsWord(u, text[i]) && ScriptOf(u, text[i]).Some? && ScriptOf(u, text[i]) != WordPrimary(u, text, i)
  }

  lemma {:induction false} WordEndBound(u: Ucd, text: string, i: nat)
    requires i <= |text|
    ensures i <= WordEnd(u, text, i) <= |text|
    ensures forall k :: i <= k < WordEnd(u, text, i) ==> IsWord(u, text[k])
    ensures WordEnd(u, text, i) < |text| ==> !IsWord(u, text[WordEnd(u, text, i)])
    decreases |text| - i
  {
    if i < |text| && IsWord(u, text[i]) {
      WordEndBound(u, text, i + 1);
    }
  }

  lemma {:induction false} WordStartBound(u: Ucd, text: string, i: nat)
    requires i <= |text|
    ensures WordStart(u, text, i) <= i
    ensures forall k :: WordStart(u, text, i) <= k < i ==> IsWord(u, text[k])
    ensures WordStart(u, text, i) > 0 ==> !IsWord(u, text[WordStart(u, text, i) - 1])
  {
    if i > 0 && IsWord(u, text[i - 1]) {
      WordStartBound(u, text, i - 1);
    }
  }

  // All positions of a maximal stretch have the same start and end.
  lemma {:induction false} SameWord(u: Ucd, text: string, from: nat, to: nat, i: nat)
    requires from <= i <= to <= |text| && forall k :: from <= k < to ==> IsWord(u, text[k])
    requires (from > 0 ==> !IsWord(u, text[from - 1])) && (to < |text| ==> !IsWord(u, text[to]))
    ensures WordStart(u, text, i) == from && WordEnd(u, text, i) == to
  {
    StartIs(u, text, from, i);
    EndIs(u, text, to, i);
  }

  lemma {:induction false} StartIs(u: Ucd, text: string, from: nat, i: nat)
    requires from <= i <= |text| && (forall k :: from <= k < i ==> IsWord(u, text[k])) && (from > 0 ==> !IsWord(u, text[from - 1]))
    ensures WordStart(u, text, i) == from
  {
    if i > from {
      StartIs(u, text, from, i - 1);
    }
  }

  lemma {:induction false} EndIs(u: Ucd, text: string, to: nat, i: nat)
    requires i <= to <= |text| && (forall k :: i <= k < to ==> IsWord(u, text[k])) && (to < |text| ==> !IsWord(u, text[to]))
    ensures WordEnd(u, text, i) == to
    decreases |text| - i
  {
    if i < to {
      EndIs(u, text, to, i + 1);
    }
  }

  /* ---- Which characters are meant ---- */

  function LettersOf(s: Script): set<(int, int)> {
    match s
    case Latin => {(0x41, 0x24F), (0x1E00, 0x1EFF)}
    case Greek => {(0x370, 0x3FF), (0x1F00, 0x1FFF)}
    case Cyrillic => {(0x400, 0x52F), (0x2DE0, 0x2DFF), (0xA640, 0xA69F)}
    case Armenian => {(0x530, 0x58F)}
    case Hebrew => {(0x590, 0x5FF)}
    case Arabic => {(0x600, 0x6FF), (0x750, 0x77F), (0x8A0, 0x8FF), (0xFB50, 0xFDFF), (0xFE70, 0xFEFF)}
  }

  predicate IsBetween(c: char, range: (int, int)) {
    range.0 <= c as int && c as int <= range.1
  }

  // A letter has the script in one of whose ranges it lies; no two scripts share a code point.
  lemma ScriptExactly(u: Ucd, c: char, s: Script)
    ensures ScriptOf(u, c) == Some(s) <==> u.isAlpha(c) && exists range :: range in LettersOf(s) && IsBetween(c, range)
  {
    if ScriptOf(u, c) == Some(s) {
      var range := SomeRange(u, c, s);
    }
  }

  lemma SomeRange(u: Ucd, c: char, s: Script) returns (range: (int, int))
    requires ScriptOf(u, c) == Some(s)
    ensures range in LettersOf(s) && IsBetween(c, range)
  {
    range := match s
      case Latin => if c as int <= 0x24F then (0x41, 0x24F) else (0x1E00, 0x1EFF)
      case Greek => if c as int <= 0x3FF then (0x370, 0x3FF) else (0x1F00, 0x1FFF)
      case Cyrillic => if c as int <= 0x52F then (0x400, 0x52F) else if c as int <= 0x2DFF then (0x2DE0, 0x2DFF) else (0xA640, 0xA69F)
      case Armenian => (0x530, 0x58F)
      case Hebrew => (0x590, 0x5FF)
      case Arabic =>
        if c as int <= 0x6FF then (0x600, 0x6FF) else if c as int <= 0x77F then (0x750, 0x77F)
        else if c as int <= 0x8FF then (0x8A0, 0x8FF) else if c as int <= 0xFDFF then (0xFB50, 0xFDFF) else (0xFE70, 0xFEFF);
  }

  lemma SpecialCharacters(u: Ucd, c: char)
    ensures IsBidiControl(c) <==>
      c as int in {0x61C, 0x200E, 0x200F, 0x202A, 0x202B, 0x202C, 0x202D, 0x202E, 0x2066, 0x2067, 0x2068, 0x2069}
    ensures IsZeroWidth(c) <==> c as int in {0x200B, 0x200C, 0x200D, 0x2060, 0xFEFF}
    ensures IsDefaultIgnorable(u, c) <==>
      u.isFormat(c) || c as int == 0x34F || IsBetween(c, (0x180B, 0x180F)) || IsBetween(c, (0xFE00, 0xFE0F)) || IsBetween(c, (0xE0100, 0xE01EF))
  {
  }

  const BY_NAME: seq<Script> := [Arabic, Armenian, Cyrillic, Greek, Hebrew]

  // Some letter of the word is of the script.
  ghost predicate Occurs(u: Ucd, text: string, from: nat, to: nat, s: Script)
    requires to <= |text|
  {
    exists k :: from <= k < to && ScriptOf(u, text[k]) == Some(s)
  }

  // From here to there is a longest stretch of letters and combining marks.
  ghost predicate IsLongest(u: Ucd, text: string, from: nat, to: nat)
    requires from <= to <= |text|
  {
    && (forall k :: from <= k < to ==> u.isAlpha(text[k]) || u.isCombining(text[k]))
    && (from > 0 ==> !u.isAlpha(text[from - 1]) && !u.isCombining(text[from - 1]))
    && (to < |text| ==> !u.isAlpha(text[to]) && !u.isCombining(text[to]))
  }

  // A letter is mixed exactly if its word has a Latin letter and it is none, or the word has no Latin
  // letter but one of a script that comes before its own by name.
  lemma MixedExactly(u: Ucd, text: string, from: nat, to: nat, i: nat, s: Script)
    requires from <= i < to <= |text| && IsLongest(u, text, from, to) && ScriptOf(u, text[i]) == Some(s)
    ensures IsMixed(u, text, i) <==>
      || (s != Latin && Occurs(u, text, from, to, Latin))
      || (!Occurs(u, text, from, to, Latin)
          && exists a, b :: 0 <= a < b < |BY_NAME| && BY_NAME[b] == s && Occurs(u, text, from, to, BY_NAME[a]))
  {
    SameWord(u, text, from, to, i);
    var scripts := Scripts(u, text, from, to);
    forall t: Script ensures t in scripts <==> Occurs(u, text, from, to, t) {
    }
    PrimaryExactly(scripts, s);
  }

  lemma PrimaryExactly(scripts: set<Script>, s: Script)
    requires s in scripts
    ensures Primary(scripts) != Some(s) <==>
      || (s != Latin && Latin in scripts)
      || (Latin !in scripts && exists a, b :: 0 <= a < b < |BY_NAME| && BY_NAME[b] == s && BY_NAME[a] in scripts)
  {
    if Latin !in scripts {
      var b := match s case Arabic => 0 case Armenian => 1 case Cyrillic => 2 case Greek => 3 case Hebrew => 4 case Latin => 0;
      assert BY_NAME[b] == s;
      if a :| 0 <= a < b && BY_NAME[a] in scripts {
        assert Primary(scripts) != Some(s);
      }
      if Primary(scripts) != Some(s) {
        var t := Primary(scripts).value;
        var a := match t case Arabic => 0 case Armenian => 1 case Cyrillic => 2 case Greek => 3 case Hebrew => 4 case Latin => 0;
        assert BY_NAME[a] == t && a < b;
      }
    }
  }

  // What is neither letter nor combining mark, or a letter of no script, is never mixed.
  lemma NeverMixed(u: Ucd, text: string, i: nat)
    requires i < |text| && ScriptOf(u, text[i]) == None
    ensures !IsMixed(u, text, i)
  {
  }

  /* ---- _mixed_script_positions ---- */

  // The letters of a finished token that are not of its main script.
  method TokenScripts(u: Ucd, text: string, token: seq<nat>) returns (scripts: set<Script>)
    requires forall k :: 0 <= k < |token| ==> token[k] < |text|
    ensures scripts == set k | 0 <= k < |token| && ScriptOf(u, text[token[k]]).Some? :: ScriptOf(u, text[token[k]]).value
  {
    scripts := {};
    var i := 0;
    while i < |token|
      invariant 0 <= i <= |token|
      invariant scripts == set k | 0 <= k < i && ScriptOf(u, text[token[k]]).Some? :: ScriptOf(u, text[token[k]]).value
    {
      var script := ScriptOf(u, text[token[i]]);
      if script.Some? {
        scripts := scripts + {script.value};
      }
      i := i + 1;
    }
  }

  method Flush(u: Ucd, text: string, token: seq<nat>) returns (suspicious: set<nat>)
    requires forall k :: 0 <= k < |token| ==> token[k] < |text|
    ensures var scripts := set k | 0 <= k < |token| && ScriptOf(u, text[token[k]]).Some? :: ScriptOf(u, text[token[k]]).value;
      suspicious == set k | 0 <= k < |token| && ScriptOf(u, text[token[k]]).Some?
                            && ScriptOf(u, text[token[k]]) != Primary(scripts) :: token[k]
  {
    var scripts := TokenScripts(u, text, token);
    suspicious := {};
    if |scripts| < 2 {
      OneScript(scripts);
      return;
    }
    var i := 0;
    while i < |token|
      invariant 0 <= i <= |token|
      invariant suspicious == set k | 0 <= k < i && ScriptOf(u, text[token[k]]).Some?
                                      && ScriptOf(u, text[token[k]]) != Primary(scripts) :: token[k]
    {
      var script := ScriptOf(u, text[token[i]]);
      if script.Some? && script != Primary(scripts) {
        suspicious := suspicious + {token[i]};
      }
      i := i + 1;
    }
  }

  lemma OneScript(scripts: set<Script>)
    requires |scripts| < 2
    ensures forall s :: s in scripts ==> Primary(scripts) == Some(s)
  {
    forall s | s in scripts ensures Primary(scripts) == Some(s) {
      assert |scripts - {s}| == 0 && scripts - {s} == {};
      forall t | t in scripts ensures t == s {
        assert t !in scripts - {s};
      }
      assert scripts == {s};
    }
  }

  function Range(from: nat, to: nat): seq<nat>
    requires from <= to
  {
    seq(to - from, k requires 0 <= k < to - from => from + k)
  }

  function MixedUpTo(u: Ucd, text: string, n: nat): set<nat>
    requires n <= |text|
  {
    set i: nat | i < n && IsMixed(u, text, i)
  }

  // A finished token is a whole word, and what is flushed are its mixed letters.
  lemma FlushedWord(u: Ucd, text: string, from: nat, to: nat, suspicious: set<nat>)
    requires from <= to <= |text| && forall k :: from <= k < to ==> IsWord(u, text[k])
    requires (from > 0 ==> !IsWord(u, text[from - 1])) && (to < |text| ==> !IsWord(u, text[to]))
    requires suspicious == set k: nat | from <= k < to && ScriptOf(u, text[k]).Some?
                                        && ScriptOf(u, text[k]) != Primary(Scripts(u, text, from, to)) :: k
    ensures MixedUpTo(u, text, to) == MixedUpTo(u, text, from) + suspicious
  {
    forall i: nat | from <= i < to ensures IsMixed(u, text, i) <==> i in suspicious {
      SameWord(u, text, from, to, i);
    }
  }

  method FlushRange(u: Ucd, text: string, from: nat, to: nat, token: seq<nat>) returns (suspicious: set<nat>)
    requires from <= to <= |text| && token == Range(from, to)
    ensures suspicious == set k: nat | from <= k < to && ScriptOf(u, text[k]).Some?
                                       && ScriptOf(u, text[k]) != Primary(Scripts(u, text, from, to)) :: k
  {
    suspicious := Flush(u, text, token);
    var scripts := set k | 0 <= k < |token| && ScriptOf(u, text[token[k]]).Some? :: ScriptOf(u, text[token[k]]).value;
    forall s ensures s in scripts <==> s in Scripts(u, text, from, to) {
      if s in Scripts(u, text, from, to) {
        var k :| from <= k < to && ScriptOf(u, text[k]) == Some(s);
        assert token[k - from] == k;
      }
    }
    assert scripts == Scripts(u, text, from, to);
    forall k: nat | from <= k < to ensures k in suspicious <==>
      ScriptOf(u, text[k]).Some? && ScriptOf(u, text[k]) != Primary(Scripts(u, text, from, to))
    {
      assert token[k - from] == k;
    }
  }

  method MixedScriptPositions(u: Ucd, text: string) returns (suspicious: set<nat>)
    ensures suspicious == MixedUpTo(u, text, |text|)
  {
    suspicious := {};
    var token: seq<nat>, i := [], 0;
    var from: nat := 0;
    while i < |text|
      invariant 0 <= i <= |text|
      invariant from <= i && token == Range(from, i)
      invariant forall k :: from <= k < i ==> IsWord(u, text[k])
      invariant from > 0 ==> !IsWord(u, text[from - 1])
      invariant suspicious == MixedUpTo(u, text, from)
    {
      if IsWord(u, text[i]) {
        token := token + [i];
      } else {
        var more := FlushRange(u, text, from, i, token);
        FlushedWord(u, text, from, i, more);
        suspicious := suspicious + more;
        token := [];
        from := i + 1;
        assert MixedUpTo(u, text, i + 1) == MixedUpTo(u, text, i);
      }
      i := i + 1;
    }
    var more := FlushRange(u, text, from, i, token);
    FlushedWord(u, text, from, i, more);
    suspicious := suspicious + more;
  }

  /* ---- model_view_text ---- */

  function HexDigit(n: nat): char
    requires n < 16
  {
    if n < 10 then ('0' as int + n) as char else ('A' as int + n - 10) as char
  }

  // f"{n:X}"
  function Hex(n: nat): string {
    if n < 16 then [HexDigit(n)] else Hex(n / 16) + [HexDigit(n % 16)]
  }

  function Padded(s: string): string
    decreases 4 - |s|
  {
    if |s| >= 4 then s else Padded("0" + s)
  }

  function Spelled(u: Ucd, c: char): string {
    "U+" + Padded(Hex(c as int)) + " " + u.name(c)
  }

  // _visible_codepoint
  function VisibleCodepoint(u: Ucd, c: char): string {
    [OPEN] + Spelled(u, c) + [CLOSE]
  }

  // The number that hexadecimal digits stand for.
  function ReadHex(s: string): nat
    requires forall i :: 0 <= i < |s| ==> s[i] in "0123456789ABCDEF"
  {
    if s == [] then 0
    else
      var d := s[|s| - 1];
      16 * ReadHex(s[..|s| - 1]) + if d <= '9' then d as int - '0' as int else d as int - 'A' as int + 10
  }

  ghost predicate IsHexOf(s: string, n: nat) {
    (forall i :: 0 <= i < |s| ==> s[i] in "0123456789ABCDEF") && ReadHex(s) == n
  }

  lemma {:induction false} HexReads(n: nat)
    ensures IsHexOf(Hex(n), n) && Hex(n) != []
    ensures n > 0 ==> Hex(n)[0] != '0'
  {
    var d := HexDigit(n % 16);
    assert d in "0123456789ABCDEF";
    if n < 16 {
      assert Hex(n) == [d] && Hex(n)[..0] == [];
    } else {
      HexReads(n / 16);
      assert Hex(n)[..|Hex(n)| - 1] == Hex(n / 16);
    }
  }

  lemma {:induction false} LeadingZero(s: string, n: nat)
    requires IsHexOf(s, n)
    ensures IsHexOf("0" + s, n)
  {
    if s == [] {
      assert "0" + s == "0" && "0"[..0] == [];
    } else {
      var front := s[..|s| - 1];
      LeadingZero(front, ReadHex(front));
      assert ("0" + s)[..|s|] == "0" + front;
    }
  }

  lemma {:induction false} PaddedReads(s: string, n: nat)
    requires IsHexOf(s, n) && s != []
    ensures IsHexOf(Padded(s), n)
    ensures |Padded(s)| == if |s| < 4 then 4 else |s|
    ensures |s| >= 4 ==> Padded(s) == s
    decreases 4 - |s|
  {
    if |s| < 4 {
      LeadingZero(s, n);
      PaddedReads("0" + s, n);
    }
  }

  ghost predicate IsNumeral(digits: string, n: nat) {
    IsHexOf(digits, n) && |digits| >= 4 && (|digits| > 4 ==> digits[0] != '0')
  }

  // A replaced character is spelled out by its number, in at least four hexadecimal digits and no
  // more than needed, and its name.
  lemma SpelledOut(u: Ucd, c: char)
    ensures exists digits :: IsNumeral(digits, c as int) && VisibleCodepoint(u, c) == "⟦U+" + digits + " " + u.name(c) + "⟧"
  {
    var digits := Padded(Hex(c as int));
    HexReads(c as int);
    PaddedReads(Hex(c as int), c as int);
    Bracketed(digits, u.name(c));
  }

  lemma Bracketed(digits: string, name: string)
    ensures [OPEN] + ("U+" + digits + " " + name) + [CLOSE] == "⟦U+" + digits + " " + name + "⟧"
  {
    assert [OPEN] + "U+" == "⟦U+" && [CLOSE] == "⟧";
    assert [OPEN] + ("U+" + digits + " " + name) == "⟦U+" + digits + " " + name;
  }

  predicate IsReplaced(u: Ucd, text: string, i: nat)
    requires i < |text|
  {
    IsDefaultIgnorable(u, text[i]) || IsMixed(u, text, i)
  }

  function Shown(u: Ucd, text: string, i: nat): string
    requires i < |text|
  {
    if IsReplaced(u, text, i) then VisibleCodepoint(u, text[i]) else [text[i]]
  }

  // The rendering from position i on.
  function RenderFrom(u: Ucd, text: string, i: nat): string
    requires i <= |text|
    decreases |text| - i
  {
    if i == |text| then [] else Shown(u, text, i) + RenderFrom(u, text, i + 1)
  }

  function Render(u: Ucd, text: string): string {
    RenderFrom(u, text, 0)
  }

  datatype Flags = Flags(bidi: bool, zeroWidth: bool, ignorable: bool, mixed: bool)

  const NO_FLAGS := Flags(false, false, false, false)

  predicate AnyIgnorable(u: Ucd, s: string) { exists i :: 0 <= i < |s| && IsDefaultIgnorable(u, s[i]) }
  predicate AnyMixed(u: Ucd, s: string) { exists i :: 0 <= i < |s| && IsMixed(u, s, i) }

  // The flags raised by the first n characters.
  function FlagsUpTo(u: Ucd, text: string, n: nat): Flags
    requires n <= |text|
  {
    if n == 0 then NO_FLAGS
    else
      var f, c := FlagsUpTo(u, text, n - 1), text[n - 1];
      Flags(f.bidi || IsBidiControl(c), f.zeroWidth || IsZeroWidth(c), f.ignorable || IsDefaultIgnorable(u, c),
            f.mixed || IsMixed(u, text, n - 1))
  }

  function FlagsOf(u: Ucd, text: string): Flags {
    FlagsUpTo(u, text, |text|)
  }

  lemma {:induction false} FlagsUpToMeans(u: Ucd, text: string, n: nat)
    requires n <= |text|
    ensures var f := FlagsUpTo(u, text, n);
      && (f.bidi <==> exists k :: 0 <= k < n && IsBidiControl(text[k]))
      && (f.zeroWidth <==> exists k :: 0 <= k < n && IsZeroWidth(text[k]))
      && (f.ignorable <==> exists k :: 0 <= k < n && IsDefaultIgnorable(u, text[k]))
      && (f.mixed <==> exists k :: 0 <= k < n && IsMixed(u, text, k))
  {
    if n > 0 {
      FlagsUpToMeans(u, text, n - 1);
    }
  }

  lemma {:induction false} RenderSplits(u: Ucd, text: string, done: string, i: nat)
    requires i < |text|
    ensures done + RenderFrom(u, text, i) == (done + Shown(u, text, i)) + RenderFrom(u, text, i + 1)
  {
  }

  method ModelViewText(u: Ucd, value: string) returns (text: string, flags: Flags)
    ensures text == Render(u, u.nfc(value)) && flags == FlagsOf(u, u.nfc(value))
  {
    var normalized := u.nfc(value);
    var mixed := MixedScriptPositions(u, normalized);
    text, flags := [], NO_FLAGS;
    var i := 0;
    while i < |normalized|
      invariant 0 <= i <= |normalized|
      invariant text + RenderFrom(u, normalized, i) == Render(u, normalized)
      invariant flags == FlagsUpTo(u, normalized, i)
    {
      var shown, raised := ShowAt(u, normalized, i, mixed, flags);
      RenderSplits(u, normalized, text, i);
      text, flags := text + shown, raised;
      i := i + 1;
    }
  }

  method ShowAt(u: Ucd, text: string, i: nat, mixed: set<nat>, flags: Flags) returns (shown: string, raised: Flags)
    requires i < |text| && mixed == MixedUpTo(u, text, |text|) && flags == FlagsUpTo(u, text, i)
    ensures shown == Shown(u, text, i) && raised == FlagsUpTo(u, text, i + 1)
  {
    var c := text[i];
    var ignorable := IsDefaultIgnorable(u, c);
    raised := Flags(flags.bidi || IsBidiControl(c), flags.zeroWidth || IsZeroWidth(c), flags.ignorable || ignorable,
                    flags.mixed || i in mixed);
    shown := if ignorable || i in mixed then VisibleCodepoint(u, c) else [c];
  }

  /* ---- The view holds nothing to replace ---- */

  lemma {:induction false} HexIsAscii(n: nat)
    ensures forall i :: 0 <= i < |Hex(n)| ==> IsPrintableAscii(Hex(n)[i])
  {
    if n >= 16 {
      HexIsAscii(n / 16);
    }
  }

  lemma {:induction false} PaddedIsAscii(s: string)
    requires forall i :: 0 <= i < |s| ==> IsPrintableAscii(s[i])
    ensures forall i :: 0 <= i < |Padded(s)| ==> IsPrintableAscii(Padded(s)[i])
    decreases 4 - |s|
  {
    if |s| < 4 {
      PaddedIsAscii("0" + s);
    }
  }

  lemma SpelledIsAscii(u: Ucd, c: char)
    requires IsUcd(u)
    ensures forall i :: 0 <= i < |Spelled(u, c)| ==> IsPrintableAscii(Spelled(u, c)[i])
  {
    HexIsAscii(c as int);
    PaddedIsAscii(Hex(c as int));
  }

  lemma VisibleIsNotIgnorable(u: Ucd, c: char)
    requires IsUcd(u)
    ensures forall i :: 0 <= i < |VisibleCodepoint(u, c)| ==> !IsDefaultIgnorable(u, VisibleCodepoint(u, c)[i])
  {
    SpelledIsAscii(u, c);
    var v, s := VisibleCodepoint(u, c), Spelled(u, c);
    forall i | 0 <= i < |v| ensures !IsDefaultIgnorable(u, v[i]) {
      if 0 < i < |v| - 1 {
        assert v[i] == s[i - 1];
      } else {
        assert v[i] == OPEN || v[i] == CLOSE;
      }
    }
  }

  lemma {:induction false} NothingIgnorable(u: Ucd, text: string, i: nat)
    requires IsUcd(u) && i <= |text|
    ensures forall k :: 0 <= k < |RenderFrom(u, text, i)| ==> !IsDefaultIgnorable(u, RenderFrom(u, text, i)[k])
    decreases |text| - i
  {
    if i < |text| {
      NothingIgnorable(u, text, i + 1);
      VisibleIsNotIgnorable(u, text[i]);
    }
  }

  // Reading on with the script of the word so far, no letter of another script turns up.
  predicate NoMix(u: Ucd, s: string, seen: Option<Script>) {
    s == [] ||
    var c := s[0];
    var script := ScriptOf(u, c);
    if !IsWord(u, c) then NoMix(u, s[1..], None)
    else if script == None then NoMix(u, s[1..], seen)
    else (seen == None || seen == script) && NoMix(u, s[1..], script)
  }

  // Characters of one script, or none, up to the closing mark.
  lemma {:induction false} AsciiThenClose(u: Ucd, s: string, rest: string, seen: Option<Script>)
    requires IsUcd(u) && (forall i :: 0 <= i < |s| ==> IsPrintableAscii(s[i]))
    requires (seen == None || seen == Some(Latin)) && NoMix(u, rest, None)
    ensures NoMix(u, s + [CLOSE] + rest, seen)
  {
    var all := s + [CLOSE] + rest;
    if s == [] {
      assert all[1..] == rest;
    } else {
      assert all[1..] == s[1..] + [CLOSE] + rest;
      AsciiScript(u, s[0]);
      AsciiThenClose(u, s[1..], rest, None);
      AsciiThenClose(u, s[1..], rest, Some(Latin));
    }
  }

  lemma AsciiScript(u: Ucd, c: char)
    requires IsPrintableAscii(c)
    ensures ScriptOf(u, c) == None || ScriptOf(u, c) == Some(Latin)
  {
  }

  lemma VisibleThenRest(u: Ucd, c: char, rest: string, seen: Option<Script>)
    requires IsUcd(u) && NoMix(u, rest, None)
    ensures NoMix(u, VisibleCodepoint(u, c) + rest, seen)
  {
    SpelledIsAscii(u, c);
    AsciiThenClose(u, Spelled(u, c), rest, None);
    var all := VisibleCodepoint(u, c) + rest;
    assert all[1..] == Spelled(u, c) + [CLOSE] + rest;
  }

  // The scripts a kept letter may follow at position i.
  predicate MayFollow(u: Ucd, text: string, i: nat, seen: Option<Script>)
    requires i <= |text|
  {
    seen == None || i == |text| || !IsWord(u, text[i]) || seen == WordPrimary(u, text, i)
  }

  lemma NextInWord(u: Ucd, text: string, i: nat)
    requires i + 1 < |text| && IsWord(u, text[i]) && IsWord(u, text[i + 1])
    ensures WordPrimary(u, text, i) == WordPrimary(u, text, i + 1)
  {
    WordStartBound(u, text, i);
    WordEndBound(u, text, i);
  }

  lemma {:induction false} RenderedHasNoMix(u: Ucd, text: string, i: nat, seen: Option<Script>)
    requires IsUcd(u) && i <= |text| && MayFollow(u, text, i, seen)
    ensures NoMix(u, RenderFrom(u, text, i), seen)
    decreases |text| - i
  {
    if i < |text| {
      var c, rest := text[i], RenderFrom(u, text, i + 1);
      if IsReplaced(u, text, i) {
        RenderedHasNoMix(u, text, i + 1, None);
        VisibleThenRest(u, c, rest, seen);
      } else {
        var script := ScriptOf(u, c);
        var next := if !IsWord(u, c) then None else if script == None then seen else script;
        if IsWord(u, c) && i + 1 < |text| && IsWord(u, text[i + 1]) {
          NextInWord(u, text, i);
        }
        RenderedHasNoMix(u, text, i + 1, next);
        assert RenderFrom(u, text, i)[1..] == rest;
      }
    }
  }

  /* ---- No mix means no mixed letter ---- */

  lemma {:induction false} LaterAgrees(u: Ucd, text: string, k: nat, j: nat, s: Script)
    requires k <= j < |text| && NoMix(u, text[k..], Some(s)) && forall l :: k <= l <= j ==> IsWord(u, text[l])
    requires ScriptOf(u, text[j]).Some?
    ensures ScriptOf(u, text[j]) == Some(s)
    decreases j - k
  {
    assert text[k..][1..] == text[k + 1..];
    if k < j {
      LaterAgrees(u, text, k + 1, j, s);
    }
  }

  lemma {:induction false} NoMixFrom(u: Ucd, text: string, k: nat) returns (seen: Option<Script>)
    requires k <= |text| && NoMix(u, text, None)
    ensures NoMix(u, text[k..], seen)
  {
    if k == 0 {
      seen := None;
      assert text[0..] == text;
    } else {
      var before := NoMixFrom(u, text, k - 1);
      assert text[k - 1..][1..] == text[k..];
      var c := text[k - 1];
      seen := if !IsWord(u, c) then None else if ScriptOf(u, c) == None then before else ScriptOf(u, c);
    }
  }

  // Two letters of one word are of one script.
  lemma OneScriptInWord(u: Ucd, text: string, i: nat, j: nat)
    requires i < j < |text| && NoMix(u, text, None) && forall l :: i <= l <= j ==> IsWord(u, text[l])
    requires ScriptOf(u, text[i]).Some? && ScriptOf(u, text[j]).Some?
    ensures ScriptOf(u, text[i]) == ScriptOf(u, text[j])
  {
    var seen := NoMixFrom(u, text, i);
    assert text[i..][1..] == text[i + 1..];
    LaterAgrees(u, text, i + 1, j, ScriptOf(u, text[i]).value);
  }

  lemma NoMixedLetter(u: Ucd, text: string, i: nat)
    requires NoMix(u, text, None) && i < |text|
    ensures !IsMixed(u, text, i)
  {
    if IsWord(u, text[i]) && ScriptOf(u, text[i]).Some? {
      WordStartBound(u, text, i);
      WordEndBound(u, text, i);
      var from, to := WordStart(u, text, i), WordEnd(u, text, i);
      var s := ScriptOf(u, text[i]).value;
      forall k | from <= k < to && ScriptOf(u, text[k]).Some? ensures ScriptOf(u, text[k]) == Some(s) {
        if k < i {
          OneScriptInWord(u, text, k, i);
        } else if i < k {
          OneScriptInWord(u, text, i, k);
        }
      }
      assert Scripts(u, text, from, to) == {s};
      OneScript({s});
    }
  }

  // The view holds no default-ignorable character and no letter of a second script in a word.
  lemma ViewIsClean(u: Ucd, text: string)
    requires IsUcd(u)
    ensures !AnyIgnorable(u, Render(u, text)) && !AnyMixed(u, Render(u, text))
  {
    NothingIgnorable(u, text, 0);
    RenderedHasNoMix(u, text, 0, None);
    forall i | 0 <= i < |Render(u, text)| ensures !IsMixed(u, Render(u, text), i) {
      NoMixedLetter(u, Render(u, text), i);
    }
  }

  lemma {:induction false} CleanIsUnchanged(u: Ucd, text: string, i: nat)
    requires i <= |text| && !AnyIgnorable(u, text) && !AnyMixed(u, text)
    ensures RenderFrom(u, text, i) == text[i..]
    decreases |text| - i
  {
    if i < |text| {
      CleanIsUnchanged(u, text, i + 1);
      assert text[i..] == [text[i]] + text[i + 1..];
    }
  }

  lemma {:induction false} ReplacedIsLonger(u: Ucd, text: string, i: nat)
    requires i <= |text|
    ensures |RenderFrom(u, text, i)| >= |text| - i
    ensures (exists k :: i <= k < |text| && IsReplaced(u, text, k)) ==> |RenderFrom(u, text, i)| > |text| - i
    decreases |text| - i
  {
    if i < |text| {
      ReplacedIsLonger(u, text, i + 1);
      ShownLength(u, text, i);
      if (exists k :: i <= k < |text| && IsReplaced(u, text, k)) && !IsReplaced(u, text, i) {
        var k :| i <= k < |text| && IsReplaced(u, text, k);
        assert i + 1 <= k;
      }
    }
  }

  lemma ShownLength(u: Ucd, text: string, i: nat)
    requires i < |text|
    ensures |Shown(u, text, i)| >= 1 && (IsReplaced(u, text, i) ==> |Shown(u, text, i)| > 1)
    ensures RenderFrom(u, text, i) == Shown(u, text, i) + RenderFrom(u, text, i + 1)
  {
  }

  // The flags are empty exactly when the view is the normalised text itself.
  lemma FlagsMean(u: Ucd, text: string)
    requires IsUcd(u)
    ensures FlagsOf(u, text) == NO_FLAGS <==> Render(u, text) == text
  {
    FlagsUpToMeans(u, text, |text|);
    ReplacedIsLonger(u, text, 0);
    if !AnyIgnorable(u, text) && !AnyMixed(u, text) {
      CleanIsUnchanged(u, text, 0);
      assert text[0..] == text;
    } else {
      var k :| 0 <= k < |text| && (IsDefaultIgnorable(u, text[k]) || IsMixed(u, text, k));
      assert IsReplaced(u, text, k);
    }
  }

  // Where NFC (UAX #15) leaves the view alone, viewing it again changes nothing and raises no flag.
  lemma ViewIsIdempotent(u: Ucd, value: string)
    requires IsUcd(u)
    requires var view := Render(u, u.nfc(value)); u.nfc(view) == view
    ensures var view := Render(u, u.nfc(value)); Render(u, u.nfc(view)) == view && FlagsOf(u, u.nfc(view)) == NO_FLAGS
  {
    var view := Render(u, u.nfc(value));
    ViewIsClean(u, u.nfc(value));
    CleanIsUnchanged(u, view, 0);
    assert view[0..] == view;
    FlagsMean(u, view);
  }
}
