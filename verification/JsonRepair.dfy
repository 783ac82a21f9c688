/** Escaping raw control characters inside JSON string literals (src/framework/ai-diagnosis.ts). */
module JsonRepair {

  /** Where the scanner stands. */
  datatype Scan = Scan(inString: bool, escaped: bool)

  const OUTSIDE: Scan := Scan(false, false)

  function HexDigit(n: nat): char
    requires n < 16
  {
    if n < 10 then ('0' as int + n) as char else ('a' as int + n - 10) as char
  }

  predicate IsControl(c: char) {
    (c as int) < 0x20
  }

  /** The escape written for a control character: a short one where JSON has one, else `\u00XX`. */
  function EscapeOf(c: char): (r: string)
    requires IsControl(c)
  {
    if c == '\n' then "\\n"
    else if c == '\r' then "\\r"
    else if c == '\t' then "\\t"
    else if c as int == 8 then "\\b"
    else if c as int == 12 then "\\f"
    else "\\u00" + [HexDigit(c as int / 16), HexDigit(c as int % 16)]
  }

  /** Control characters are U+0000 to U+001F, as in section 7 of RFC 8259. */
  lemma ControlIff(c: char)
    ensures IsControl(c) <==> 0 <= c as int <= 31
  {
  }

  /** Backspace, tab, line feed, form feed and carriage return have a short escape, the others the long one. */
  lemma EscapesByCode(c: char)
    requires IsControl(c)
    ensures c as int == 8 ==> EscapeOf(c) == "\\b"
    ensures c as int == 9 ==> EscapeOf(c) == "\\t"
    ensures c as int == 10 ==> EscapeOf(c) == "\\n"
    ensures c as int == 12 ==> EscapeOf(c) == "\\f"
    ensures c as int == 13 ==> EscapeOf(c) == "\\r"
    ensures c as int !in {8, 9, 10, 12, 13} ==> |EscapeOf(c)| == 6 && EscapeOf(c)[..4] == "\\u00"
  {
  }

  /** What one character contributes to the output. */
  function Emit(st: Scan, c: char): string {
    if !st.escaped && st.inString && c != '\\' && c != '"' && IsControl(c) then EscapeOf(c) else [c]
  }

  function Next(st: Scan, c: char): Scan {
    if st.escaped then st.(escaped := false)
    else if c == '\\' && st.inString then st.(escaped := true)
    else if c == '"' then st.(inString := !st.inString)
    else st
  }

  function Repair(st: Scan, s: string): string
    decreases s
  {
    if s == "" then "" else Emit(st, s[0]) + Repair(Next(st, s[0]), s[1..])
  }

  function ScanAll(st: Scan, s: string): Scan
    decreases s
  {
    if s == "" then st else ScanAll(Next(st, s[0]), s[1..])
  }

  /** `escapeControlCharsInStrings`. */
  method EscapeControlCharsInStrings(json: string) returns (out: string)
    ensures out == Repair(OUTSIDE, json)
  {
    out := "";
    var inString, escaped := false, false;
    for i := 0 to |json|
      invariant out + Repair(Scan(inString, escaped), json[i..]) == Repair(OUTSIDE, json)
    {
      var c := json[i];
      ghost var st := Scan(inString, escaped);
      assert json[i..][0] == c && json[i..][1..] == json[i + 1..];
      assert out + Repair(st, json[i..]) == out + Emit(st, c) + Repair(Next(st, c), json[i + 1..]);
      if escaped {
        out := out + [c];
        escaped := false;
      } else if c == '\\' && inString {
        out := out + [c];
        escaped := true;
      } else if c == '"' {
        inString := !inString;
        out := out + [c];
      } else if inString && IsControl(c) {
        out := out + EscapeOf(c);
      } else {
        out := out + [c];
      }
    }
    assert out + "" == out;
  }

  // ---- structure is kept ----

  lemma {:induction false} ScanAppend(st: Scan, s: string, t: string)
    ensures ScanAll(st, s + t) == ScanAll(ScanAll(st, s), t)
    decreases s
  {
    if s == "" {
      assert s + t == t;
    } else {
      assert (s + t)[0] == s[0] && (s + t)[1..] == s[1..] + t;
      ScanAppend(Next(st, s[0]), s[1..], t);
    }
  }

  lemma EscapeScans(c: char)
    requires IsControl(c)
    ensures ScanAll(Scan(true, false), EscapeOf(c)) == Scan(true, false)
    ensures forall i :: 0 <= i < |EscapeOf(c)| ==> !IsControl(EscapeOf(c)[i])
  {
    var e := EscapeOf(c);
    if |e| == 2 {
      TwoScans(e);
    } else {
      SixScans(e);
    }
  }

  lemma TwoScans(e: string)
    requires |e| == 2 && e[0] == '\\'
    ensures ScanAll(Scan(true, false), e) == Scan(true, false)
  {
    assert e[1..][0] == e[1] && e[1..][1..] == "";
    assert ScanAll(Scan(true, true), e[1..]) == ScanAll(Scan(true, false), e[1..][1..]);
  }

  lemma SixScans(e: string)
    requires |e| == 6 && e[0] == '\\' && forall i :: 2 <= i < 6 ==> e[i] != '\\' && e[i] != '"'
    ensures ScanAll(Scan(true, false), e) == Scan(true, false)
  {
    var head, tail := e[..2], e[2..];
    TwoScans(head);
    PlainScans(tail);
    ScanAppend(Scan(true, false), head, tail);
    assert e == head + tail;
  }

  lemma {:induction false} PlainScans(t: string)
    requires forall i :: 0 <= i < |t| ==> t[i] != '\\' && t[i] != '"'
    ensures ScanAll(Scan(true, false), t) == Scan(true, false)
  {
    if t != "" {
      PlainScans(t[1..]);
    }
  }

  /** After any prefix, the scanner stands in the output where it stands in the input. */
  lemma {:induction false} ScannersCorrespond(st: Scan, s: string)
    ensures ScanAll(st, Repair(st, s)) == ScanAll(st, s)
    decreases s
  {
    if s != "" {
      var c := s[0];
      ScanAppend(st, Emit(st, c), Repair(Next(st, c), s[1..]));
      if Emit(st, c) == [c] {
        assert ScanAll(st, [c]) == Next(st, c) by { assert [c][1..] == ""; }
      } else {
        EscapeScans(c);
      }
      ScannersCorrespond(Next(st, c), s[1..]);
    }
  }

  /** The text with every string literal's content left out. */
  function Outside(st: Scan, s: string): string
    decreases s
  {
    if s == "" then ""
    else (if st.inString && !(s[0] == '"' && !st.escaped) then "" else [s[0]]) + Outside(Next(st, s[0]), s[1..])
  }

  lemma {:induction false} OutsideAppend(st: Scan, s: string, t: string)
    ensures Outside(st, s + t) == Outside(st, s) + Outside(ScanAll(st, s), t)
    decreases s
  {
    if s == "" {
      assert s + t == t;
    } else {
      assert (s + t)[0] == s[0] && (s + t)[1..] == s[1..] + t;
      OutsideAppend(Next(st, s[0]), s[1..], t);
    }
  }

  lemma {:induction false} InsideIsEmpty(st: Scan, e: string)
    requires st.inString && forall i :: 0 <= i < |e| ==> e[i] != '"'
    ensures Outside(st, e) == ""
    decreases e
  {
    if e != "" {
      InsideIsEmpty(Next(st, e[0]), e[1..]);
    }
  }

  /** Nothing outside the literals changes. */
  lemma {:induction false} OutsideIsKept(st: Scan, s: string)
    ensures Outside(st, Repair(st, s)) == Outside(st, s)
    decreases s
  {
    if s != "" {
      var c := s[0];
      OutsideAppend(st, Emit(st, c), Repair(Next(st, c), s[1..]));
      if Emit(st, c) == [c] {
        assert [c][1..] == "";
        assert Outside(st, [c]) + Outside(Next(st, c), s[1..]) == Outside(st, s);
        assert ScanAll(st, [c]) == Next(st, c);
      } else {
        EscapeScans(c);
        InsideIsEmpty(st, EscapeOf(c));
      }
      OutsideIsKept(Next(st, c), s[1..]);
    }
  }

  // ---- a second repair changes nothing ----

  /** No raw control character in a literal, except right after a backslash. */
  predicate Clean(st: Scan, s: string)
    decreases s
  {
    s == "" || ((st.inString && !st.escaped ==> !IsControl(s[0])) && Clean(Next(st, s[0]), s[1..]))
  }

  lemma {:induction false} CleanAppend(st: Scan, s: string, t: string)
    ensures Clean(st, s + t) <==> Clean(st, s) && Clean(ScanAll(st, s), t)
    decreases s
  {
    if s == "" {
      assert s + t == t;
    } else {
      assert (s + t)[0] == s[0] && (s + t)[1..] == s[1..] + t;
      CleanAppend(Next(st, s[0]), s[1..], t);
    }
  }

  lemma {:induction false} NoControlIsClean(st: Scan, e: string)
    requires forall i :: 0 <= i < |e| ==> !IsControl(e[i])
    ensures Clean(st, e)
    decreases e
  {
    if e != "" {
      NoControlIsClean(Next(st, e[0]), e[1..]);
    }
  }

  lemma {:induction false} RepairedIsClean(st: Scan, s: string)
    ensures Clean(st, Repair(st, s))
    decreases s
  {
    if s != "" {
      var c := s[0];
      RepairedIsClean(Next(st, c), s[1..]);
      CleanAppend(st, Emit(st, c), Repair(Next(st, c), s[1..]));
      if Emit(st, c) == [c] {
        assert [c][1..] == "";
        assert Clean(st, [c]) && ScanAll(st, [c]) == Next(st, c);
      } else {
        EscapeScans(c);
        NoControlIsClean(st, EscapeOf(c));
      }
    }
  }

  lemma {:induction false} CleanIsUntouched(st: Scan, s: string)
    ensures Clean(st, s) <==> Repair(st, s) == s
    decreases s
  {
    if s != "" {
      var c := s[0];
      CleanIsUntouched(Next(st, c), s[1..]);
      assert s == [c] + s[1..];
      if Emit(st, c) == [c] {
        assert Repair(st, s) == [c] + Repair(Next(st, c), s[1..]);
        if Repair(st, s) == s {
          assert Repair(Next(st, c), s[1..]) == Repair(st, s)[1..];
        }
      } else {
        assert Repair(st, s)[0] == '\\';
      }
    }
  }

  /** A text is its own repair exactly when it is clean, every repair is clean, and so repairing twice
      is repairing once. */
  lemma RepairIsIdempotent(json: string)
    ensures Repair(OUTSIDE, json) == json <==> Clean(OUTSIDE, json)
    ensures Repair(OUTSIDE, Repair(OUTSIDE, json)) == Repair(OUTSIDE, json)
  {
    CleanIsUntouched(OUTSIDE, json);
    RepairedIsClean(OUTSIDE, json);
    CleanIsUntouched(OUTSIDE, Repair(OUTSIDE, json));
  }

  // ---- literals keep their meaning ----

  /** What a reader sees: text outside literals, the quotes, the code points a literal denotes (raw
      control characters, which JSON forbids, taken at face value) and escapes it does not know. */
  datatype Token = Raw(c: char) | Quote | Content(code: int) | BadEscape(c: char) | Dangling

  function HexValue(c: char): int {
    if '0' <= c <= '9' then c as int - '0' as int
    else if 'a' <= c <= 'f' then c as int - 'a' as int + 10
    else if 'A' <= c <= 'F' then c as int - 'A' as int + 10
    else -1
  }

  predicate IsHex(c: char) {
    HexValue(c) >= 0
  }

  predicate FourHex(s: string) {
    |s| >= 4 && IsHex(s[0]) && IsHex(s[1]) && IsHex(s[2]) && IsHex(s[3])
  }

  function FourHexValue(s: string): int
    requires FourHex(s)
  {
    ((HexValue(s[0]) * 16 + HexValue(s[1])) * 16 + HexValue(s[2])) * 16 + HexValue(s[3])
  }

  /** The escapes of RFC 8259, section 7, other than `\uXXXX`. */
  function ShortEscape(c: char): Token {
    if c == '"' || c == '\\' || c == '/' then Content(c as int)
    else if c == 'n' then Content(10)
    else if c == 'r' then Content(13)
    else if c == 't' then Content(9)
    else if c == 'b' then Content(8)
    else if c == 'f' then Content(12)
    else BadEscape(c)
  }

  function Read(inString: bool, s: string): seq<Token>
    decreases |s|
  {
    if s == "" then []
    else if !inString then
      if s[0] == '"' then [Quote] + Read(true, s[1..]) else [Raw(s[0])] + Read(false, s[1..])
    else if s[0] == '"' then [Quote] + Read(false, s[1..])
    else if s[0] != '\\' then [Content(s[0] as int)] + Read(true, s[1..])
    else if |s| == 1 then [Dangling]
    else if s[1] == 'u' && FourHex(s[2..]) then [Content(FourHexValue(s[2..]))] + Read(true, s[6..])
    else [ShortEscape(s[1])] + Read(true, s[2..])
  }

  lemma EscapeReads(c: char, rest: string)
    requires IsControl(c)
    ensures Read(true, EscapeOf(c) + rest) == [Content(c as int)] + Read(true, rest)
  {
    var e := EscapeOf(c);
    var t := e + rest;
    if |e| == 2 {
      assert t[2..] == rest;
      assert t[1] != 'u';
    } else {
      assert t[2..][..4] == e[2..];
      assert t[6..] == rest;
      assert t[2] == e[2] && t[3] == e[3] && t[4] == e[4] && t[5] == e[5];
      HexRoundTrip(c);
    }
  }

  lemma HexRoundTrip(c: char)
    requires IsControl(c)
    ensures HexValue(HexDigit(c as int / 16)) * 16 + HexValue(HexDigit(c as int % 16)) == c as int
    ensures IsHex(HexDigit(c as int / 16)) && IsHex(HexDigit(c as int % 16))
  {
  }

  lemma RepairCons(st: Scan, s: string)
    requires s != ""
    ensures Repair(st, s) == Emit(st, s[0]) + Repair(Next(st, s[0]), s[1..])
  {
  }

  /** Characters that need no escape pass through one by one. */
  lemma {:induction false} RepairOfPlain(s: string, n: nat)
    requires n <= |s| && forall i :: 0 <= i < n ==> s[i] != '\\' && s[i] != '"' && !IsControl(s[i])
    ensures Repair(Scan(true, false), s) == s[..n] + Repair(Scan(true, false), s[n..])
    decreases n
  {
    hide Repair;
    var st := Scan(true, false);
    if n == 0 {
      assert s[..0] == "" && s[0..] == s;
    } else {
      RepairOfPlain(s[1..], n - 1);
      RepairCons(st, s);
      assert s[1..][n - 1..] == s[n..];
      assert s[..n] == [s[0]] + s[1..][..n - 1];
    }
  }

  lemma HexIsPlain(c: char)
    requires IsHex(c)
    ensures c != '\\' && c != '"' && !IsControl(c)
  {
  }

  lemma {:induction false} HexRunIsKept(s: string)
    ensures FourHex(Repair(Scan(true, false), s)) <==> FourHex(s)
    ensures FourHex(s) ==> Repair(Scan(true, false), s) == s[..4] + Repair(Scan(true, false), s[4..])
  {
    var st := Scan(true, false);
    if FourHex(s) {
      forall i | 0 <= i < 4 ensures s[i] != '\\' && s[i] != '"' && !IsControl(s[i]) {
        HexIsPlain(s[i]);
      }
      RepairOfPlain(s, 4);
    }
    if FourHex(Repair(st, s)) {
      HexPrefixReflected(s, 4);
    }
  }

  /** Hexadecimal digits at the start of a repair were there before. */
  lemma {:induction false} HexPrefixReflected(s: string, n: nat)
    requires |Repair(Scan(true, false), s)| >= n && forall i :: 0 <= i < n ==> IsHex(Repair(Scan(true, false), s)[i])
    ensures |s| >= n && forall i :: 0 <= i < n ==> IsHex(s[i])
    decreases n
  {
    var st := Scan(true, false);
    if n > 0 {
      var r := Repair(st, s);
      assert s != "";
      assert r == Emit(st, s[0]) + Repair(Next(st, s[0]), s[1..]);
      assert r[0] == Emit(st, s[0])[0];
      HexIsPlain(r[0]);
      assert Emit(st, s[0]) == [s[0]] && Next(st, s[0]) == st;
      assert r[1..] == Repair(st, s[1..]);
      forall i | 0 <= i < n - 1 ensures IsHex(Repair(st, s[1..])[i]) {
        assert r[i + 1] == r[1..][i];
      }
      HexPrefixReflected(s[1..], n - 1);
      forall i | 0 <= i < n ensures IsHex(s[i]) {
        if i > 0 {
          assert s[i] == s[1..][i - 1];
        }
      }
    }
  }

  lemma BackslashSteps(c: char)
    ensures Emit(Scan(true, false), '\\') == ['\\'] && Next(Scan(true, false), '\\') == Scan(true, true)
    ensures Emit(Scan(true, true), c) == [c] && Next(Scan(true, true), c) == Scan(true, false)
  {
  }

  lemma TwoInFront(x: char, y: char, rest: string)
    ensures [x] + ([y] + rest) == [x, y] + rest
  {
  }

  /** A backslash and the character after it pass through. */
  lemma EscapePairIsKept(s: string)
    requires |s| >= 2 && s[0] == '\\'
    ensures Repair(Scan(true, false), s) == [s[0], s[1]] + Repair(Scan(true, false), s[2..])
  {
    hide *;
    var one, rest := s[1..], s[2..];
    BackslashSteps(s[1]);
    RepairCons(Scan(true, false), s);
    RepairCons(Scan(true, true), one);
    assert one[0] == s[1] && one[1..] == rest;
    TwoInFront(s[0], s[1], Repair(Scan(true, false), rest));
  }

  lemma ReadPair(s: string)
    requires |s| >= 2 && s[0] == '\\'
    ensures s[1] == 'u' && FourHex(s[2..]) ==> Read(true, s) == [Content(FourHexValue(s[2..]))] + Read(true, s[6..])
    ensures !(s[1] == 'u' && FourHex(s[2..])) ==> Read(true, s) == [ShortEscape(s[1])] + Read(true, s[2..])
  {
  }

  lemma EscapeMeaningIsKept(s: string)
    requires |s| >= 2 && s[0] == '\\'
    requires s[1] == 'u' && FourHex(s[2..]) ==> Read(true, Repair(Scan(true, false), s[6..])) == Read(true, s[6..])
    requires !(s[1] == 'u' && FourHex(s[2..])) ==> Read(true, Repair(Scan(true, false), s[2..])) == Read(true, s[2..])
    ensures Read(true, Repair(Scan(true, false), s)) == Read(true, s)
  {
    hide Repair, Read, FourHex, ShortEscape;
    var st := Scan(true, false);
    var r := Repair(st, s);
    var rest := Repair(st, s[2..]);
    EscapePairIsKept(s);
    HexRunIsKept(s[2..]);
    assert r[2..] == rest && r[0] == s[0] && r[1] == s[1];
    ReadPair(s);
    ReadPair(r);
    if s[1] == 'u' && FourHex(s[2..]) {
      FourHexIsLong(s[2..]);
      assert s[2..][4..] == s[6..];
      SameDigits(s[2..], rest, Repair(st, s[6..]));
      assert r[6..] == rest[4..];
    }
  }

  lemma FourHexIsLong(s: string)
    requires FourHex(s)
    ensures |s| >= 4
  {
  }

  lemma SameDigits(s: string, rest: string, tail: string)
    requires FourHex(s) && FourHex(rest) && rest == s[..4] + tail
    ensures FourHexValue(rest) == FourHexValue(s) && rest[4..] == tail
  {
    assert rest[0] == s[0] && rest[1] == s[1] && rest[2] == s[2] && rest[3] == s[3];
  }

  /** The repaired text reads as the original did. */
  lemma {:induction false} MeaningIsKept(inString: bool, s: string)
    ensures Read(inString, Repair(Scan(inString, false), s)) == Read(inString, s)
    decreases |s|
  {
    hide FourHex;
    var st := Scan(inString, false);
    if s != "" {
      var c := s[0];
      if inString && c == '\\' && |s| > 1 {
        if s[1] == 'u' && FourHex(s[2..]) {
          FourHexIsLong(s[2..]);
          MeaningIsKept(true, s[6..]);
        } else {
          MeaningIsKept(true, s[2..]);
        }
        EscapeMeaningIsKept(s);
      } else if inString && c == '\\' {
        assert s[1..] == "";
        assert Repair(st, s) == [c] + "" == s;
      } else {
        MeaningIsKept(Next(st, c).inString, s[1..]);
        PlainMeaningIsKept(inString, s);
      }
    }
  }

  /** One character that starts no escape. */
  lemma PlainMeaningIsKept(inString: bool, s: string)
    requires s != "" && !(inString && s[0] == '\\')
    requires var after := Next(Scan(inString, false), s[0]); Read(after.inString, Repair(after, s[1..])) == Read(after.inString, s[1..])
    ensures Read(inString, Repair(Scan(inString, false), s)) == Read(inString, s)
  {
    hide Repair;
    var st := Scan(inString, false);
    var c := s[0];
    var after := Next(st, c);
    var r := Repair(st, s);
    RepairCons(st, s);
    if Emit(st, c) == [c] {
      assert r[0] == c && r[1..] == Repair(after, s[1..]);
    } else {
      EscapeReads(c, Repair(after, s[1..]));
    }
  }
}
