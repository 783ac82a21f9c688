/** Strings as the source manipulates them: blanks, identifiers and decimal counters. */
module Text {

  /** The characters JavaScript's `trim` and `\s` treat as white space. */
  predicate IsSpace(c: char) {
    || c in "\t\n\r \U{000B}\U{000C}\U{00A0}\U{1680}\U{2028}\U{2029}\U{202F}\U{205F}\U{3000}\U{FEFF}"
    || '\U{2000}' <= c <= '\U{200A}'
  }

  predicate Blank(s: string) {
    forall i :: 0 <= i < |s| ==> IsSpace(s[i])
  }

  predicate OccursAt(text: string, part: string, i: nat) {
    i + |part| <= |text| && text[i..i + |part|] == part
  }

  predicate Contains(text: string, part: string) {
    exists i :: 0 <= i <= |text| && OccursAt(text, part, i)
  }

  lemma ContainsEmpty(text: string)
    ensures Contains(text, "")
  {
    assert OccursAt(text, "", 0);
  }

  lemma ContainsItself(text: string)
    ensures Contains(text, text)
  {
    assert OccursAt(text, text, 0);
  }

  function LowerChar(c: char): char {
    if 'A' <= c <= 'Z' then ((c as int) + 32) as char else c
  }

  function Lower(s: string): (r: string)
    ensures |r| == |s|
  {
    seq(|s|, i requires 0 <= i < |s| => LowerChar(s[i]))
  }

  function TrimLeft(s: string): string {
    if s != "" && IsSpace(s[0]) then TrimLeft(s[1..]) else s
  }

  function TrimRight(s: string): string {
    if s != "" && IsSpace(s[|s| - 1]) then TrimRight(s[..|s| - 1]) else s
  }

  function Trim(s: string): string {
    TrimRight(TrimLeft(s))
  }

  /** White space at the ends and the case of letters set aside. */
  function Folded(text: string): string {
    Lower(Trim(text))
  }

  predicate IsSeparator(c: char) {
    c == '_' || IsSpace(c)
  }

  function SkipSeparators(s: string): (r: string)
    ensures |r| <= |s|
  {
    if s != "" && IsSeparator(s[0]) then SkipSeparators(s[1..]) else s
  }

  /** Every maximal run of underscores and white space becomes one dash. */
  function Dashed(s: string): string
    decreases |s|
  {
    if s == "" then ""
    else if IsSeparator(s[0]) then "-" + Dashed(SkipSeparators(s[1..]))
    else [s[0]] + Dashed(s[1..])
  }

  function Normalize(s: string): string {
    Dashed(Folded(s))
  }

  lemma BlankParts(s: string, i: nat)
    requires i <= |s|
    ensures Blank(s) <==> Blank(s[..i]) && Blank(s[i..])
  {
    hide IsSpace;
    assert forall k :: 0 <= k < |s| ==> s[k] == if k < i then s[..i][k] else s[i..][k - i];
  }

  lemma TrimLeftEmpty(s: string)
    ensures TrimLeft(s) == "" <==> Blank(s)
  {
    hide IsSpace;
    if s != "" && IsSpace(s[0]) {
      TrimLeftEmpty(s[1..]);
      BlankParts(s, 1);
    }
  }

  lemma TrimRightEmpty(s: string)
    ensures TrimRight(s) == "" <==> Blank(s)
  {
    hide IsSpace;
    if s != "" && IsSpace(s[|s| - 1]) {
      TrimRightEmpty(s[..|s| - 1]);
      BlankParts(s, |s| - 1);
    }
  }

  lemma TrimLeftKeepsNonSpace(s: string)
    requires !Blank(s)
    ensures !Blank(TrimLeft(s))
  {
    hide IsSpace;
    if s != "" && IsSpace(s[0]) {
      BlankParts(s, 1);
      TrimLeftKeepsNonSpace(s[1..]);
    }
  }

  /** An identifier disappears under normalisation exactly when it is blank. */
  lemma NormalizesToEmpty(s: string)
    ensures Normalize(s) == "" <==> Blank(s)
  {
    TrimLeftEmpty(s);
    TrimRightEmpty(TrimLeft(s));
    if !Blank(s) {
      TrimLeftKeepsNonSpace(s);
    }
  }

  // ---- what folding and normalising mean, by characters and positions ----

  /** The white space and line terminators of ECMAScript, by code point. */
  lemma SpaceCodes(c: char)
    ensures var n := c as int;
      IsSpace(c) <==> 9 <= n <= 13 || n == 0x20 || n == 0xA0 || n == 0x1680 || 0x2000 <= n <= 0x200A
                      || n == 0x2028 || n == 0x2029 || n == 0x202F || n == 0x205F || n == 0x3000 || n == 0xFEFF
  {
  }

  /** The same character, or the two cases of one letter. */
  predicate SameLetter(c: char, d: char) {
    || c == d
    || ('A' <= c <= 'Z' && d as int == c as int + 32)
    || ('A' <= d <= 'Z' && c as int == d as int + 32)
  }

  lemma LowerIff(c: char, d: char)
    ensures LowerChar(c) == LowerChar(d) <==> SameLetter(c, d)
    ensures SameLetter(c, LowerChar(c)) && !('A' <= LowerChar(c) <= 'Z')
  {
  }

  lemma SameLetterSameSpace(c: char, d: char)
    requires SameLetter(c, d)
    ensures IsSpace(c) <==> IsSpace(d)
  {
    SpaceCodes(c);
    SpaceCodes(d);
  }

  ghost predicate SameLetters(s: string, t: string) {
    |s| == |t| && forall k :: 0 <= k < |s| ==> SameLetter(s[k], t[k])
  }

  /** Neither end of the text is white space. */
  predicate IsTight(s: string) {
    s != "" ==> !IsSpace(s[0]) && !IsSpace(s[|s| - 1])
  }

  ghost predicate Framed(s: string, before: string, core: string, after: string) {
    s == before + core + after && Blank(before) && Blank(after)
  }

  /** What is left of the text without the white space at its ends. */
  ghost predicate CoreOf(s: string, core: string) {
    IsTight(core) && exists before, after :: Framed(s, before, core, after)
  }

  /** The texts agree up to white space at their ends and letter case. */
  ghost predicate Alike(a: string, b: string) {
    exists c, d :: CoreOf(a, c) && CoreOf(b, d) && SameLetters(c, d)
  }

  /** The text is the word, up to white space at its ends and letter case. */
  ghost predicate Says(text: string, word: string) {
    exists before, said, after :: Framed(text, before, said, after) && SameLetters(said, word)
  }

  lemma BlankJoin(s: string, t: string)
    ensures Blank(s + t) <==> Blank(s) && Blank(t)
  {
    BlankParts(s + t, |s|);
    assert (s + t)[..|s|] == s && (s + t)[|s|..] == t;
  }

  lemma TrimLeftFrames(s: string) returns (before: string)
    ensures s == before + TrimLeft(s) && Blank(before)
    ensures TrimLeft(s) != "" ==> !IsSpace(TrimLeft(s)[0])
  {
    hide IsSpace;
    before := "";
    if s != "" && IsSpace(s[0]) {
      var more := TrimLeftFrames(s[1..]);
      before := [s[0]] + more;
      BlankJoin([s[0]], more);
      assert s == [s[0]] + s[1..];
    } else {
      assert s == "" + s;
    }
  }

  lemma TrimRightFrames(s: string) returns (after: string)
    ensures s == TrimRight(s) + after && Blank(after) && TrimRight(s) <= s
    ensures TrimRight(s) != "" ==> !IsSpace(TrimRight(s)[|TrimRight(s)| - 1])
  {
    hide IsSpace;
    after := "";
    if s != "" && IsSpace(s[|s| - 1]) {
      var more := TrimRightFrames(s[..|s| - 1]);
      after := more + [s[|s| - 1]];
      BlankJoin(more, [s[|s| - 1]]);
      assert s == s[..|s| - 1] + [s[|s| - 1]];
    } else {
      assert s == s + "";
    }
  }

  /** Trimming leaves the core. */
  lemma TrimIsCore(s: string)
    ensures CoreOf(s, Trim(s))
  {
    hide IsSpace;
    var before := TrimLeftFrames(s);
    var after := TrimRightFrames(TrimLeft(s));
    assert Framed(s, before, Trim(s), after);
  }

  lemma CoreIsUnique(s: string, c: string, d: string)
    requires CoreOf(s, c) && CoreOf(s, d)
    ensures c == d
  {
    hide IsSpace;
    var b, a :| Framed(s, b, c, a);
    var y, z :| Framed(s, y, d, z);
    if c == "" || d == "" {
      BlankFrame(s, b, c, a);
      BlankFrame(s, y, d, z);
    } else {
      StartsAlike(s, b, c, a, y, d, z);
      EndsAlike(s, b, c, a, y, d, z);
      assert c == s[|b|..|b| + |c|] && d == s[|y|..|y| + |d|];
    }
  }

  lemma BlankFrame(s: string, before: string, core: string, after: string)
    requires Framed(s, before, core, after) && IsTight(core)
    ensures core == "" <==> Blank(s)
  {
    hide IsSpace;
    BlankJoin(before, core);
    BlankJoin(before + core, after);
  }

  lemma StartsAlike(s: string, b: string, c: string, a: string, y: string, d: string, z: string)
    requires Framed(s, b, c, a) && Framed(s, y, d, z) && c != "" && d != "" && !IsSpace(c[0]) && !IsSpace(d[0])
    ensures |b| == |y|
  {
    hide IsSpace;
    assert s[|b|] == c[0] && s[|y|] == d[0];
    assert forall k :: 0 <= k < |b| ==> s[k] == b[k];
    assert forall k :: 0 <= k < |y| ==> s[k] == y[k];
  }

  lemma EndsAlike(s: string, b: string, c: string, a: string, y: string, d: string, z: string)
    requires Framed(s, b, c, a) && Framed(s, y, d, z) && c != "" && d != "" && !IsSpace(c[|c| - 1]) && !IsSpace(d[|d| - 1])
    ensures |b| + |c| == |y| + |d|
  {
    hide IsSpace;
    var i, j := |b| + |c|, |y| + |d|;
    assert s[i - 1] == c[|c| - 1] && s[j - 1] == d[|d| - 1];
    assert forall k :: i <= k < |s| ==> s[k] == a[k - i];
    assert forall k :: j <= k < |s| ==> s[k] == z[k - j];
  }

  lemma LowerSameIff(s: string, t: string)
    ensures Lower(s) == Lower(t) <==> SameLetters(s, t)
  {
    hide LowerChar, SameLetter;
    if Lower(s) == Lower(t) {
      assert |Lower(s)| == |Lower(t)|;
      forall k | 0 <= k < |s|
        ensures SameLetter(s[k], t[k])
      {
        assert Lower(s)[k] == Lower(t)[k];
        LowerIff(s[k], t[k]);
      }
    }
    if SameLetters(s, t) {
      forall k | 0 <= k < |s|
        ensures Lower(s)[k] == Lower(t)[k]
      {
        LowerIff(s[k], t[k]);
      }
    }
  }

  /** Folding forgets exactly the white space at the ends and the case of letters. */
  lemma FoldedIff(a: string, b: string)
    ensures Folded(a) == Folded(b) <==> Alike(a, b)
  {
    hide Lower, Trim, CoreOf, SameLetters;
    TrimIsCore(a);
    TrimIsCore(b);
    LowerSameIff(Trim(a), Trim(b));
    if c, d :| CoreOf(a, c) && CoreOf(b, d) && SameLetters(c, d) {
      CoreIsUnique(a, Trim(a), c);
      CoreIsUnique(b, Trim(b), d);
    }
  }

  /** The word is written in lower case and without white space at its ends. */
  predicate IsPlain(word: string) {
    IsTight(word) && forall k :: 0 <= k < |word| ==> !('A' <= word[k] <= 'Z')
  }

  lemma LettersArePlain(word: string)
    requires forall k :: 0 <= k < |word| ==> 'a' <= word[k] <= 'z'
    ensures IsPlain(word)
  {
    hide IsSpace;
    if word != "" {
      SpaceCodes(word[0]);
      SpaceCodes(word[|word| - 1]);
    }
  }

  lemma TightIsItsCore(s: string)
    requires IsTight(s)
    ensures Trim(s) == s && CoreOf(s, s)
  {
    hide IsSpace;
    assert Framed(s, "", s, "");
    TrimIsCore(s);
    CoreIsUnique(s, Trim(s), s);
  }

  lemma PlainIsFolded(word: string)
    requires IsPlain(word)
    ensures Folded(word) == word
  {
    TightIsItsCore(word);
    assert Lower(word) == word;
  }

  /** Folding gives a plain word exactly for the texts that say it. */
  lemma SaysIff(text: string, word: string)
    requires IsPlain(word)
    ensures Folded(text) == word <==> Says(text, word)
  {
    hide IsSpace, Lower, Trim, SameLetters;
    PlainIsFolded(word);
    TightIsItsCore(word);
    FoldedIff(text, word);
    if c, d :| CoreOf(text, c) && CoreOf(word, d) && SameLetters(c, d) {
      CoreIsUnique(word, word, d);
    }
    if before, said, after :| Framed(text, before, said, after) && SameLetters(said, word) {
      SameLettersTight(said, word);
      assert CoreOf(text, said);
    }
  }

  lemma SameLettersTight(s: string, t: string)
    requires SameLetters(s, t) && IsTight(t)
    ensures IsTight(s)
  {
    hide IsSpace;
    if s != "" {
      SameLetterSameSpace(s[0], t[0]);
      SameLetterSameSpace(s[|s| - 1], t[|t| - 1]);
    }
  }

  /** Text without underscores and white space is left alone. */
  lemma {:induction false} DashedPlain(s: string)
    requires forall k :: 0 <= k < |s| ==> s[k] != '_' && !IsSpace(s[k])
    ensures Dashed(s) == s
  {
    if s != "" {
      DashedPlain(s[1..]);
      assert s == [s[0]] + s[1..];
    }
  }

  ghost predicate Run(s: string) {
    s != "" && forall k :: 0 <= k < |s| ==> s[k] == '_' || IsSpace(s[k])
  }

  lemma {:induction false} RunIsSkipped(run: string, b: string)
    requires run == "" || Run(run)
    requires b != "" ==> b[0] != '_' && !IsSpace(b[0])
    ensures SkipSeparators(run + b) == b
  {
    hide IsSpace;
    if run == "" {
      assert run + b == b;
    } else {
      assert (run + b)[1..] == run[1..] + b;
      RunIsSkipped(run[1..], b);
    }
  }

  lemma {:induction false} SkipStaysLeft(a: string, rest: string)
    requires a != "" && a[|a| - 1] != '_' && !IsSpace(a[|a| - 1])
    ensures SkipSeparators(a + rest) == SkipSeparators(a) + rest
    ensures SkipSeparators(a) != "" && SkipSeparators(a)[|SkipSeparators(a)| - 1] == a[|a| - 1]
  {
    hide IsSpace;
    if IsSeparator(a[0]) {
      assert (a + rest)[1..] == a[1..] + rest;
      SkipStaysLeft(a[1..], rest);
    }
  }

  lemma DashedHead(s: string)
    requires s != ""
    ensures Dashed(s) == if IsSeparator(s[0]) then "-" + Dashed(SkipSeparators(s[1..])) else [s[0]] + Dashed(s[1..])
  {
  }

  /** A text can be split behind any character that is kept. */
  lemma {:induction false} DashedSplit(a: string, t: string)
    requires a != "" ==> a[|a| - 1] != '_' && !IsSpace(a[|a| - 1])
    ensures Dashed(a + t) == Dashed(a) + Dashed(t)
    decreases |a|
  {
    hide *;
    if a == "" {
      assert a + t == t && Dashed("") == "" by { DashedPlain(""); }
    } else {
      DashedHead(a);
      DashedHead(a + t);
      assert (a + t)[0] == a[0] && (a + t)[1..] == a[1..] + t;
      if IsSeparator(a[0]) {
        SeparatorIs(a[0]);
        SkipStaysLeft(a[1..], t);
        DashedSplit(SkipSeparators(a[1..]), t);
        Prefixed("-", Dashed(SkipSeparators(a[1..])), Dashed(t));
      } else {
        DashedSplit(a[1..], t);
        Prefixed([a[0]], Dashed(a[1..]), Dashed(t));
      }
    }
  }

  lemma SeparatorIs(c: char)
    ensures IsSeparator(c) <==> c == '_' || IsSpace(c)
  {
  }

  lemma Prefixed(x: string, y: string, z: string)
    ensures x + (y + z) == x + y + z
  {
  }

  lemma RunBecomesADash(run: string, b: string)
    requires Run(run)
    requires b != "" ==> b[0] != '_' && !IsSpace(b[0])
    ensures Dashed(run + b) == "-" + Dashed(b)
  {
    hide IsSpace, Dashed, SkipSeparators;
    var t := run + b;
    DashedHead(t);
    assert t[0] == run[0] && t[1..] == run[1..] + b;
    assert IsSeparator(t[0]);
    RunIsSkipped(run[1..], b);
  }

  /** A maximal run of them becomes one dash. */
  lemma DashedRun(a: string, run: string, b: string)
    requires Run(run)
    requires a != "" ==> a[|a| - 1] != '_' && !IsSpace(a[|a| - 1])
    requires b != "" ==> b[0] != '_' && !IsSpace(b[0])
    ensures Dashed(a + run + b) == Dashed(a) + "-" + Dashed(b)
  {
    hide *;
    RunBecomesADash(run, b);
    DashedSplit(a, run + b);
    assert a + run + b == a + (run + b);
    assert Dashed(a) + ("-" + Dashed(b)) == Dashed(a) + "-" + Dashed(b);
  }

  /** Identifiers that agree up to case and outer white space normalise alike. */
  lemma NormalizeForgets(a: string, b: string)
    requires Alike(a, b)
    ensures Normalize(a) == Normalize(b)
  {
    FoldedIff(a, b);
  }

  /** An identifier written in lower case without underscores or white space is its own normal form. */
  lemma NormalizeKeeps(word: string)
    requires IsPlain(word) && forall k :: 0 <= k < |word| ==> word[k] != '_' && !IsSpace(word[k])
    ensures Normalize(word) == word
  {
    PlainIsFolded(word);
    DashedPlain(word);
  }

  /** Parts joined by underscores and white space normalise to their normal forms joined by a dash. */
  lemma NormalizeJoins(a: string, run: string, b: string)
    requires a != "" && b != "" && Run(run) && IsTight(a) && IsTight(b)
    requires a[|a| - 1] != '_' && b[0] != '_'
    ensures Normalize(a + run + b) == Normalize(a) + "-" + Normalize(b)
  {
    hide IsSpace, LowerChar, Dashed, Trim;
    var s := a + run + b;
    TightIsItsCore(a);
    TightIsItsCore(b);
    TightIsItsCore(s);
    assert Lower(s) == Lower(a) + Lower(run) + Lower(b);
    LowerKeepsSeparators(a[|a| - 1]);
    LowerKeepsSeparators(b[0]);
    forall k | 0 <= k < |run|
      ensures Lower(run)[k] == '_' || IsSpace(Lower(run)[k])
    {
      LowerKeepsSeparators(run[k]);
    }
    DashedRun(Lower(a), Lower(run), Lower(b));
  }

  lemma LowerKeepsSeparators(c: char)
    ensures LowerChar(c) == '_' <==> c == '_'
    ensures IsSpace(LowerChar(c)) <==> IsSpace(c)
  {
    LowerIff(c, LowerChar(c));
    SameLetterSameSpace(c, LowerChar(c));
  }

  /** Containing a text is having it between two others. */
  lemma ContainsIff(text: string, part: string)
    ensures Contains(text, part) <==> exists a, b :: text == a + part + b
  {
    if i :| 0 <= i <= |text| && OccursAt(text, part, i) {
      assert text == text[..i] + part + text[i + |part|..];
    }
    if a, b :| text == a + part + b {
      assert OccursAt(text, part, |a|);
    }
  }

  // ---- decimal counters ----

  function Digit(d: nat): char
    requires d < 10
  {
    ('0' as int + d) as char
  }

  /** The decimal numeral of a counter, as `String(n)` writes it. */
  function Numeral(n: nat): (s: string)
    ensures s != ""
  {
    if n < 10 then [Digit(n)] else Numeral(n / 10) + [Digit(n % 10)]
  }

  /** What a string of digits denotes. */
  function ValueOf(s: string): int {
    if s == "" then 0 else 10 * ValueOf(s[..|s| - 1]) + (s[|s| - 1] as int - '0' as int)
  }

  lemma NumeralRoundTrip(n: nat)
    ensures ValueOf(Numeral(n)) == n
  {
    if n >= 10 {
      var s := Numeral(n);
      assert s[..|s| - 1] == Numeral(n / 10);
      NumeralRoundTrip(n / 10);
    } else {
      assert Numeral(n)[..0] == "";
    }
  }

  lemma NumeralInjective(m: nat, n: nat)
    requires Numeral(m) == Numeral(n)
    ensures m == n
  {
    NumeralRoundTrip(m);
    NumeralRoundTrip(n);
  }

  function Zeros(n: nat): (s: string)
    ensures |s| == n
  {
    if n == 0 then "" else "0" + Zeros(n - 1)
  }

  /** `padStart(width, '0')`: numerals that are already wide enough are left alone. */
  function PadStart(s: string, width: nat): string {
    if |s| >= width then s else Zeros(width - |s|) + s
  }

  /** It fills up with zeros on the left, and never shortens. */
  lemma PadStartPads(s: string, width: nat)
    ensures var padded := PadStart(s, width);
      && |padded| == (if |s| >= width then |s| else width)
      && padded[|padded| - |s|..] == s && forall k :: 0 <= k < |padded| - |s| ==> padded[k] == '0'
  {
    if |s| < width {
      ZerosAreZeros(width - |s|);
    }
  }

  lemma {:induction false} ZerosAreZeros(n: nat)
    ensures forall k :: 0 <= k < n ==> Zeros(n)[k] == '0'
  {
    if n > 0 {
      ZerosAreZeros(n - 1);
    }
  }

  lemma LeadingZero(s: string)
    ensures ValueOf("0" + s) == ValueOf(s)
  {
    var t := "0" + s;
    if s == "" {
      assert t[..0] == "";
    } else {
      assert t[..|t| - 1] == "0" + s[..|s| - 1];
      LeadingZero(s[..|s| - 1]);
    }
  }

  lemma ZerosKeepValue(k: nat, s: string)
    ensures ValueOf(Zeros(k) + s) == ValueOf(s)
  {
    if k == 0 {
      assert Zeros(0) + s == s;
    } else {
      assert Zeros(k) + s == "0" + (Zeros(k - 1) + s);
      LeadingZero(Zeros(k - 1) + s);
      ZerosKeepValue(k - 1, s);
    }
  }

  /** Padding never makes two counters collide, however wide they grow. */
  lemma PaddedInjective(m: nat, n: nat, width: nat)
    requires PadStart(Numeral(m), width) == PadStart(Numeral(n), width)
    ensures m == n
  {
    PaddedValue(m, width);
    PaddedValue(n, width);
  }

  lemma PaddedValue(n: nat, width: nat)
    ensures ValueOf(PadStart(Numeral(n), width)) == n
  {
    NumeralRoundTrip(n);
    var s := Numeral(n);
    if |s| < width {
      ZerosKeepValue(width - |s|, s);
    }
  }
}
