/** Integrity digests of an installed check (src/framework/check-installer.ts). The hash is any function
    with results of a fixed width; what the digests bind is stated for a hash that tells the texts at
    hand apart. */
module Checksum {
  import opened Plans
  import opened Lists

  const HASH_WIDTH := 64

  /** File contents by name, as found in the installation directory. */
  type Directory = map<string, string>

  /** Hexadecimal digests: all of one width, and none with a newline in it. */
  ghost predicate DigestLike(hash: string -> string) {
    forall x :: |hash(x)| == HASH_WIDTH && NewlineFree(hash(x))
  }

  predicate NewlineFree(text: string) {
    '\n' !in text
  }

  ghost predicate Separates(hash: string -> string, x: string, y: string) {
    hash(x) == hash(y) ==> x == y
  }

  // ---- the order of Array.prototype.sort ----

  /** A character as its UTF-16 code units, the first one most significant. */
  function CodeUnits(c: char): nat {
    var n := c as int;
    if n < 0x1_0000 then n * 0x1_0000
    else (0xD800 + (n - 0x1_0000) / 0x400) * 0x1_0000 + 0xDC00 + (n - 0x1_0000) % 0x400
  }

  lemma CodeUnitsInjective(c: char, d: char)
    requires CodeUnits(c) == CodeUnits(d)
    ensures c == d
  {
    var m, n := c as int, d as int;
    if m >= 0x1_0000 && n >= 0x1_0000 {
      assert (m - 0x1_0000) / 0x400 == (n - 0x1_0000) / 0x400;
    }
    assert m == n;
  }

  /** A character is one unit, or a high and a low surrogate that give it back. */
  lemma UnitsAreUtf16(c: char)
    ensures var n, high, low := c as int, CodeUnits(c) / 0x1_0000, CodeUnits(c) % 0x1_0000;
      if n < 0x1_0000 then high == n && low == 0
      else 0xD800 <= high <= 0xDBFF && 0xDC00 <= low <= 0xDFFF && n == 0x1_0000 + (high - 0xD800) * 0x400 + (low - 0xDC00)
  {
    var n := c as int;
    if n >= 0x1_0000 {
      var high, low := 0xD800 + (n - 0x1_0000) / 0x400, 0xDC00 + (n - 0x1_0000) % 0x400;
      assert CodeUnits(c) == high * 0x1_0000 + low && low < 0x1_0000;
      assert CodeUnits(c) / 0x1_0000 == high && CodeUnits(c) % 0x1_0000 == low;
    }
  }

  /** Characters outside the basic plane, which take two surrogate units, come between U+D7FF and U+E000; apart
      from that the order is that of the code points. */
  lemma UnitsOrder(c: char, d: char)
    ensures CodeUnits(c) < CodeUnits(d) <==>
      var m, n := c as int, d as int;
      if (m < 0x1_0000) == (n < 0x1_0000) then m < n
      else if m < 0x1_0000 then m < 0xE000 else n >= 0xE000
  {
    var m, n := c as int, d as int;
    if m >= 0x1_0000 && n >= 0x1_0000 {
      var a, b := m - 0x1_0000, n - 0x1_0000;
      assert a == (a / 0x400) * 0x400 + a % 0x400 && b == (b / 0x400) * 0x400 + b % 0x400;
    }
  }

  /** Strings compare by their UTF-16 code units, a prefix first. */
  predicate AtMost(s: string, t: string) {
    || s == ""
    || (t != "" && CodeUnits(s[0]) < CodeUnits(t[0]))
    || (t != "" && CodeUnits(s[0]) == CodeUnits(t[0]) && AtMost(s[1..], t[1..]))
  }

  lemma {:induction false} AtMostIsTotal(s: string, t: string)
    ensures AtMost(s, t) || AtMost(t, s)
  {
    if s != "" && t != "" {
      AtMostIsTotal(s[1..], t[1..]);
    }
  }

  lemma {:induction false} AtMostIsAntisymmetric(s: string, t: string)
    requires AtMost(s, t) && AtMost(t, s)
    ensures s == t
  {
    if s != "" && t != "" {
      CodeUnitsInjective(s[0], t[0]);
      AtMostIsAntisymmetric(s[1..], t[1..]);
      assert s == [s[0]] + s[1..] && t == [t[0]] + t[1..];
    }
  }

  lemma {:induction false} AtMostIsTransitive(s: string, t: string, u: string)
    requires AtMost(s, t) && AtMost(t, u)
    ensures AtMost(s, u)
  {
    if s != "" && CodeUnits(s[0]) == CodeUnits(t[0]) && CodeUnits(t[0]) == CodeUnits(u[0]) {
      AtMostIsTransitive(s[1..], t[1..], u[1..]);
    }
  }

  ghost predicate Ascending(names: seq<string>) {
    Ordered(AtMost, names)
  }

  function Sort(names: seq<string>): seq<string> {
    SortBy(AtMost, names)
  }

  lemma AtMostDecides()
    ensures Decides(AtMost, AtMost)
  {
    hide AtMost;
    forall s, t
      ensures !AtMost(s, t) ==> AtMost(t, s)
    {
      AtMostIsTotal(s, t);
    }
    forall s, t, u | AtMost(s, t) && AtMost(t, u)
      ensures AtMost(s, u)
    {
      AtMostIsTransitive(s, t, u);
    }
  }

  lemma SortSorts(names: seq<string>)
    ensures Ascending(Sort(names)) && Permuted(Sort(names), names)
  {
    AtMostDecides();
    SortByOrders(AtMost, AtMost, names);
  }

  lemma HeadIsLeast(s: seq<string>, name: string)
    requires Ascending(s) && name in s
    ensures AtMost(s[0], name)
  {
    var i :| 0 <= i < |s| && s[i] == name;
    if i == 0 {
      AtMostIsTotal(name, name);
    }
  }

  lemma TailsPermuted(s: seq<string>, t: seq<string>)
    requires s != [] && t != [] && Permuted(s, t) && s[0] == t[0]
    ensures Permuted(s[1..], t[1..])
  {
    assert s == [s[0]] + s[1..] && t == [t[0]] + t[1..];
    assert multiset(s[1..]) == multiset(s) - multiset{s[0]};
    assert multiset(t[1..]) == multiset(t) - multiset{t[0]};
  }

  lemma TailAscends(s: seq<string>)
    requires s != [] && Ascending(s)
    ensures Ascending(s[1..])
  {
    hide AtMost;
  }

  /** There is only one ascending arrangement of a list of names. */
  lemma {:induction false} AscendingIsUnique(s: seq<string>, t: seq<string>)
    requires Ascending(s) && Ascending(t) && Permuted(s, t)
    ensures s == t
  {
    hide AtMost, Ascending, Permuted;
    PermutedSameLength(s, t);
    if s != [] {
      PermutedMembers(s, t, s[0]);
      PermutedMembers(s, t, t[0]);
      HeadIsLeast(s, t[0]);
      HeadIsLeast(t, s[0]);
      AtMostIsAntisymmetric(s[0], t[0]);
      TailsPermuted(s, t);
      TailAscends(s);
      TailAscends(t);
      AscendingIsUnique(s[1..], t[1..]);
      assert s == [s[0]] + s[1..] && t == [t[0]] + t[1..];
    }
  }

  lemma SortForgetsOrder(s: seq<string>, t: seq<string>)
    requires Permuted(s, t)
    ensures Sort(s) == Sort(t)
  {
    SortSorts(s);
    SortSorts(t);
    AscendingIsUnique(Sort(s), Sort(t));
  }

  // ---- the manifest and the two digests ----

  predicate Present(dir: Directory, names: seq<string>) {
    forall i :: 0 <= i < |names| ==> names[i] in dir
  }

  function Line(hash: string -> string, dir: Directory, name: string): string
    requires name in dir
  {
    hash(dir[name]) + "  " + name + "\n"
  }

  /** One line per file, in the given order. */
  function Manifest(hash: string -> string, dir: Directory, names: seq<string>): string
    requires Present(dir, names)
  {
    if names == [] then "" else Line(hash, dir, names[0]) + Manifest(hash, dir, names[1..])
  }

  function Contents(dir: Directory, names: seq<string>): string
    requires Present(dir, names)
  {
    if names == [] then "" else dir[names[0]] + Contents(dir, names[1..])
  }

  /** `computeChecksum`: `None` stands for the exception a missing file raises. */
  function ComputeChecksum(hash: string -> string, dir: Directory, files: seq<string>): Option<string> {
    var names := Sort(files);
    if Present(dir, names) then Some(hash(Manifest(hash, dir, names))) else None
  }

  function LegacyChecksum(hash: string -> string, dir: Directory, files: seq<string>): Option<string> {
    var names := Sort(files);
    if Present(dir, names) then Some(hash(Contents(dir, names))) else None
  }

  lemma {:induction false} ContentsAppend(dir: Directory, names: seq<string>, name: string)
    requires Present(dir, names) && name in dir
    ensures Contents(dir, names + [name]) == Contents(dir, names) + dir[name]
  {
    if names == [] {
      assert [name][1..] == [];
    } else {
      assert (names + [name])[1..] == names[1..] + [name];
      ContentsAppend(dir, names[1..], name);
    }
  }

  /** `computeLegacyChecksum`: the hash object is fed the files one by one, in sorted order. */
  method ComputeLegacyChecksum(hash: string -> string, dir: Directory, files: seq<string>) returns (digest: Option<string>)
    ensures digest == LegacyChecksum(hash, dir, files)
  {
    var names := Sort(files);
    var fed := "";
    for i := 0 to |names|
      invariant Present(dir, names[..i]) && fed == Contents(dir, names[..i])
    {
      if names[i] !in dir {
        return None;
      }
      assert names[..i + 1] == names[..i] + [names[i]];
      ContentsAppend(dir, names[..i], names[i]);
      fed := fed + dir[names[i]];
    }
    assert names[..|names|] == names;
    digest := Some(hash(fed));
  }

  // ---- what the digests bind ----

  /** Neither digest depends on the order in which the files are listed. */
  lemma DigestsForgetOrder(hash: string -> string, dir: Directory, files: seq<string>, others: seq<string>)
    requires Permuted(files, others)
    ensures ComputeChecksum(hash, dir, files) == ComputeChecksum(hash, dir, others)
    ensures LegacyChecksum(hash, dir, files) == LegacyChecksum(hash, dir, others)
  {
    SortForgetsOrder(files, others);
  }

  /** Both digests exist exactly when no listed file is missing. */
  lemma DigestNeedsEveryFile(hash: string -> string, dir: Directory, files: seq<string>)
    ensures ComputeChecksum(hash, dir, files).Some? <==> Present(dir, files)
    ensures LegacyChecksum(hash, dir, files).Some? <==> Present(dir, files)
  {
    SortSorts(files);
    var names := Sort(files);
    if Present(dir, files) {
      forall i | 0 <= i < |names|
        ensures names[i] in dir
      {
        PermutedMembers(names, files, names[i]);
      }
    }
    if Present(dir, names) {
      forall i | 0 <= i < |files|
        ensures files[i] in dir
      {
        PermutedMembers(names, files, files[i]);
      }
    }
  }

  /** At `i` the name breaks off, and what follows is the start of a manifest line: a content's digest and
      two spaces. */
  ghost predicate BreaksAt(hash: string -> string, name: string, i: nat) {
    i < |name| && name[i] == '\n' && IsLineStart(hash, name[i + 1..])
  }

  ghost predicate IsLineStart(hash: string -> string, text: string) {
    exists content :: hash(content) + "  " <= text
  }

  /** No part of the name can pass for a manifest line. */
  ghost predicate Unambiguous(hash: string -> string, name: string) {
    forall i: nat :: !BreaksAt(hash, name, i)
  }

  /** The text is a manifest, or what is left of one after a line. */
  ghost predicate StartsLine(hash: string -> string, text: string) {
    text == "" || IsLineStart(hash, text)
  }

  lemma NoNewlineAtStart(hash: string -> string, text: string)
    requires DigestLike(hash) && IsLineStart(hash, text)
    ensures |text| >= HASH_WIDTH + 2 && forall i :: 0 <= i < HASH_WIDTH + 2 ==> text[i] != '\n'
  {
    var content :| hash(content) + "  " <= text;
    var head := hash(content) + "  ";
    forall i | 0 <= i < HASH_WIDTH + 2
      ensures text[i] != '\n'
    {
      assert text[i] == head[i];
    }
  }

  /** A shorter name before the same text breaks the longer one where it ends itself. */
  lemma ShorterBreaks(hash: string -> string, a: string, rest: string, b: string, other: string)
    requires DigestLike(hash) && StartsLine(hash, rest) && |a| < |b|
    requires a + "\n" + rest == b + "\n" + other
    ensures BreaksAt(hash, b, |a|)
  {
    var tail := b[|a| + 1..];
    assert b[|a|] == (b + "\n" + other)[|a|] == (a + "\n" + rest)[|a|] == '\n';
    assert rest == (a + "\n" + rest)[|a| + 1..] == (b + "\n" + other)[|a| + 1..] == tail + "\n" + other;
    assert rest[|tail|] == '\n';
    NoNewlineAtStart(hash, rest);
    var content :| hash(content) + "  " <= rest;
    assert hash(content) + "  " == rest[..HASH_WIDTH + 2] == tail[..HASH_WIDTH + 2];
  }

  lemma NotShorter(hash: string -> string, a: string, rest: string, b: string, other: string)
    requires DigestLike(hash) && StartsLine(hash, rest) && Unambiguous(hash, b)
    requires a + "\n" + rest == b + "\n" + other
    ensures |a| >= |b|
  {
    if |a| < |b| {
      ShorterBreaks(hash, a, rest, b, other);
    }
  }

  /** The name at the start of a manifest line is determined by the whole text. */
  lemma NameUnique(hash: string -> string, a: string, rest: string, b: string, other: string)
    requires DigestLike(hash) && StartsLine(hash, rest) && StartsLine(hash, other) && Unambiguous(hash, a) && Unambiguous(hash, b)
    requires a + "\n" + rest == b + "\n" + other
    ensures a == b && rest == other
  {
    var whole := a + "\n" + rest;
    NotShorter(hash, a, rest, b, other);
    NotShorter(hash, b, other, a, rest);
    assert a == whole[..|a|] && b == whole[..|b|];
    assert rest == whole[|a| + 1..] && other == whole[|b| + 1..];
  }

  /** A manifest line and what follows it can be told apart. */
  lemma LineUnique(hash: string -> string, h: string, name: string, rest: string, g: string, other: string, more: string)
    requires DigestLike(hash) && |h| == HASH_WIDTH && |g| == HASH_WIDTH
    requires StartsLine(hash, rest) && StartsLine(hash, more) && Unambiguous(hash, name) && Unambiguous(hash, other)
    requires h + "  " + name + "\n" + rest == g + "  " + other + "\n" + more
    ensures h == g && name == other && rest == more
  {
    var whole := h + "  " + name + "\n" + rest;
    assert h == whole[..HASH_WIDTH] && g == whole[..HASH_WIDTH];
    assert name + "\n" + rest == whole[HASH_WIDTH + 2..] && other + "\n" + more == whole[HASH_WIDTH + 2..];
    NameUnique(hash, name, rest, other, more);
  }

  lemma ManifestStartsLine(hash: string -> string, dir: Directory, names: seq<string>)
    requires DigestLike(hash) && Present(dir, names)
    ensures StartsLine(hash, Manifest(hash, dir, names))
  {
    if names != [] {
      var h := hash(dir[names[0]]);
      var m := Manifest(hash, dir, names);
      assert m == h + "  " + (names[0] + "\n" + Manifest(hash, dir, names[1..]));
      assert m[..|h| + 2] == h + "  ";
    }
  }

  ghost predicate SameHashes(hash: string -> string, dir: Directory, other: Directory, names: seq<string>)
    requires Present(dir, names) && Present(other, names)
  {
    forall i :: 0 <= i < |names| ==> hash(dir[names[i]]) == hash(other[names[i]])
  }

  /** The manifest can be read back: equal manifests list the same names with the same hashes. */
  lemma {:induction false} ManifestReadsBack(
      hash: string -> string, dir: Directory, names: seq<string>, other: Directory, others: seq<string>)
    requires DigestLike(hash)
    requires Present(dir, names) && Present(other, others)
    requires forall i :: 0 <= i < |names| ==> Unambiguous(hash, names[i])
    requires forall i :: 0 <= i < |others| ==> Unambiguous(hash, others[i])
    requires Manifest(hash, dir, names) == Manifest(hash, other, others)
    ensures names == others && SameHashes(hash, dir, other, names)
  {
    if names != [] && others != [] {
      var h, g := hash(dir[names[0]]), hash(other[others[0]]);
      ManifestStartsLine(hash, dir, names[1..]);
      ManifestStartsLine(hash, other, others[1..]);
      LineUnique(hash, h, names[0], Manifest(hash, dir, names[1..]), g, others[0], Manifest(hash, other, others[1..]));
      ManifestReadsBack(hash, dir, names[1..], other, others[1..]);
      assert names == [names[0]] + names[1..] && others == [others[0]] + others[1..];
      forall i | 0 <= i < |names|
        ensures hash(dir[names[i]]) == hash(other[names[i]])
      {
        assert i == 0 || names[i] == names[1..][i - 1];
      }
    }
  }

  ghost predicate SameFiles(dir: Directory, files: seq<string>, other: Directory, others: seq<string>) {
    && Permuted(files, others)
    && forall name :: name in files ==> name in dir && name in other && dir[name] == other[name]
  }

  /** The hash tells apart the two manifests, and the two contents of each file. */
  ghost predicate Distinguishes(
      hash: string -> string, dir: Directory, files: seq<string>, other: Directory, others: seq<string>) {
    && (Present(dir, Sort(files)) && Present(other, Sort(others)) ==>
      Separates(hash, Manifest(hash, dir, Sort(files)), Manifest(hash, other, Sort(others))))
    && forall name :: name in dir && name in other ==> Separates(hash, dir[name], other[name])
  }

  /** Equal digests mean equal files, names and contents alike. */
  lemma ChecksumBindsFiles(
      hash: string -> string, dir: Directory, files: seq<string>, other: Directory, others: seq<string>)
    requires DigestLike(hash) && Distinguishes(hash, dir, files, other, others)
    requires forall name :: name in files || name in others ==> Unambiguous(hash, name)
    requires ComputeChecksum(hash, dir, files).Some?
    requires ComputeChecksum(hash, dir, files) == ComputeChecksum(hash, other, others)
    ensures SameFiles(dir, files, other, others)
  {
    hide Sort, Ascending, Manifest, Unambiguous;
    var names, rest := Sort(files), Sort(others);
    SortSorts(files);
    SortSorts(others);
    forall i | 0 <= i < |names|
      ensures Unambiguous(hash, names[i])
    {
      PermutedMembers(names, files, names[i]);
    }
    forall i | 0 <= i < |rest|
      ensures Unambiguous(hash, rest[i])
    {
      PermutedMembers(rest, others, rest[i]);
    }
    ManifestReadsBack(hash, dir, names, other, rest);
    forall name | name in files
      ensures name in dir && name in other && dir[name] == other[name]
    {
      PermutedMembers(names, files, name);
      var i :| 0 <= i < |names| && names[i] == name;
      assert Separates(hash, dir[name], other[name]);
    }
  }

  /** In particular for names without a newline. */
  lemma NewlineFreeNamesBind(
      hash: string -> string, dir: Directory, files: seq<string>, other: Directory, others: seq<string>)
    requires DigestLike(hash) && Distinguishes(hash, dir, files, other, others)
    requires forall name :: name in files || name in others ==> NewlineFree(name)
    requires ComputeChecksum(hash, dir, files).Some?
    ensures ComputeChecksum(hash, dir, files) == ComputeChecksum(hash, other, others) <==> SameFiles(dir, files, other, others)
  {
    if SameFiles(dir, files, other, others) {
      SameFilesSameChecksum(hash, dir, files, other, others);
    }
    if ComputeChecksum(hash, dir, files) == ComputeChecksum(hash, other, others) {
      ChecksumBindsFiles(hash, dir, files, other, others);
    }
  }

  /** The converse needs nothing of the names or the hash. */
  lemma SameFilesSameChecksum(
      hash: string -> string, dir: Directory, files: seq<string>, other: Directory, others: seq<string>)
    requires SameFiles(dir, files, other, others)
    ensures ComputeChecksum(hash, dir, files).Some?
    ensures ComputeChecksum(hash, dir, files) == ComputeChecksum(hash, other, others)
  {
    var names := Sort(files);
    SortForgetsOrder(files, others);
    SortSorts(files);
    forall i | 0 <= i < |names|
      ensures names[i] in dir && names[i] in other && dir[names[i]] == other[names[i]]
    {
      PermutedMembers(names, files, names[i]);
    }
    ManifestAgrees(hash, dir, other, names);
  }

  lemma {:induction false} ManifestAgrees(hash: string -> string, dir: Directory, other: Directory, names: seq<string>)
    requires forall i :: 0 <= i < |names| ==> names[i] in dir && names[i] in other && dir[names[i]] == other[names[i]]
    ensures Manifest(hash, dir, names) == Manifest(hash, other, names)
  {
    if names != [] {
      ManifestAgrees(hash, dir, other, names[1..]);
    }
  }

  lemma TwoSortedNames(p: string, q: string)
    requires AtMost(p, q)
    ensures Sort([p, q]) == [p, q]
  {
    hide AtMost;
    assert [p, q][..1] == [p] && [p][..0] == [];
    assert Sort([p]) == [p];
    if AtMost(q, p) {
      AtMostIsAntisymmetric(p, q);
    } else {
      assert InsertBy(AtMost, [p], q) == [p] + InsertBy(AtMost, [], q);
    }
  }

  /** Any name that breaks, with a part before the break that comes before the part after it, can pose as
      two files: for every content the manifest of the one file is that of the two. */
  lemma BreakingNamesCollide(hash: string -> string, long: string, i: nat, x: string) returns (y: string)
    requires DigestLike(hash) && BreaksAt(hash, long, i)
    requires var p, q := long[..i], long[i + 3 + HASH_WIDTH..]; p != q && AtMost(p, q)
    ensures var p, q := long[..i], long[i + 3 + HASH_WIDTH..];
      && ComputeChecksum(hash, map[long := x], [long]) == ComputeChecksum(hash, map[p := x, q := y], [p, q])
      && !SameFiles(map[long := x], [long], map[p := x, q := y], [p, q])
  {
    y :| hash(y) + "  " <= long[i + 1..];
    var p, q := long[..i], long[i + 3 + HASH_WIDTH..];
    assert long == p + "\n" + long[i + 1..];
    assert long[i + 1..] == (hash(y) + "  ") + q;
    assert long == p + "\n" + hash(y) + "  " + q;
    NewlineNamesCollide(hash, p, q, x, y);
  }

  lemma NewlineNamesCollide(hash: string -> string, p: string, q: string, x: string, y: string)
    requires p != q && AtMost(p, q)
    ensures var long := p + "\n" + hash(y) + "  " + q;
      && ComputeChecksum(hash, map[long := x], [long]) == ComputeChecksum(hash, map[p := x, q := y], [p, q])
      && !SameFiles(map[long := x], [long], map[p := x, q := y], [p, q])
  {
    hide Sort;
    var long := p + "\n" + hash(y) + "  " + q;
    var one, two := map[long := x], map[p := x, q := y];
    TwoSortedNames(p, q);
    SortSorts([long]);
    PermutedSameLength(Sort([long]), [long]);
    PermutedMembers(Sort([long]), [long], Sort([long])[0]);
    assert Sort([long]) == [long];
    PosesAsTwo(hash, p, q, x, y);
    if Permuted([long], [p, q]) {
      PermutedSameLength([long], [p, q]);
    }
  }

  lemma PosesAsTwo(hash: string -> string, p: string, q: string, x: string, y: string)
    requires p != q
    ensures var long := p + "\n" + hash(y) + "  " + q;
      Manifest(hash, map[long := x], [long]) == Manifest(hash, map[p := x, q := y], [p, q])
  {
    var long := p + "\n" + hash(y) + "  " + q;
    var one, two := map[long := x], map[p := x, q := y];
    assert [long][1..] == [] && [p, q][1..] == [q] && [q][1..] == [];
    assert Manifest(hash, one, [long]) == hash(x) + "  " + long + "\n" + "";
    assert Manifest(hash, two, [q]) == hash(y) + "  " + q + "\n" + "";
    assert Manifest(hash, two, [p, q]) == hash(x) + "  " + p + "\n" + (hash(y) + "  " + q + "\n");
  }

  /** The legacy digest lets bytes move between files, whatever the hash. */
  lemma LegacyIgnoresBoundaries(hash: string -> string)
    ensures LegacyChecksum(hash, map["a" := "xy", "b" := "z"], ["a", "b"])
         == LegacyChecksum(hash, map["a" := "x", "b" := "yz"], ["a", "b"])
    ensures !SameFiles(map["a" := "xy", "b" := "z"], ["a", "b"], map["a" := "x", "b" := "yz"], ["a", "b"])
  {
    var dir, other := map["a" := "xy", "b" := "z"], map["a" := "x", "b" := "yz"];
    assert AtMost("a", "b");
    TwoSortedNames("a", "b");
    assert ["a", "b"][1..] == ["b"] && ["b"][1..] == [];
    assert Contents(dir, ["b"]) == "z" && Contents(other, ["b"]) == "yz";
    assert Contents(dir, ["a", "b"]) == "xyz" == Contents(other, ["a", "b"]);
    assert "a" in ["a", "b"] && dir["a"] != other["a"];
  }

  // ---- verification of an installation ----

  /** The digests of a registry entry; entries written before the manifest digest carry only the first. */
  datatype Expected = Expected(sha256: string, sha256v2: Option<string>)

  /** `verifyChecksum`: whether it returns rather than throws. */
  predicate Verifies(hash: string -> string, dir: Directory, files: seq<string>, expected: Expected) {
    if expected.sha256v2.Some? then ComputeChecksum(hash, dir, files) == expected.sha256v2
    else LegacyChecksum(hash, dir, files) == Some(expected.sha256)
  }

  /** Against an entry with a manifest digest, verification accepts the published files and nothing
      else, whatever the legacy digest says. */
  lemma VerificationIsExact(
      hash: string -> string, dir: Directory, files: seq<string>, published: Directory, list: seq<string>, expected: Expected)
    requires DigestLike(hash) && Distinguishes(hash, dir, files, published, list)
    requires forall name :: name in files || name in list ==> Unambiguous(hash, name)
    requires expected.sha256v2.Some? && ComputeChecksum(hash, published, list) == expected.sha256v2
    ensures Verifies(hash, dir, files, expected) <==> SameFiles(dir, files, published, list)
  {
    if SameFiles(dir, files, published, list) {
      SameFilesSameChecksum(hash, dir, files, published, list);
    }
    if Verifies(hash, dir, files, expected) {
      ChecksumBindsFiles(hash, dir, files, published, list);
    }
  }

  /** Against an older entry it accepts exactly the files whose contents, joined in the order of the names,
      are those of the published ones joined in theirs. */
  lemma LegacyVerificationIff(
      hash: string -> string, dir: Directory, files: seq<string>, published: Directory, list: seq<string>, expected: Expected)
    requires expected.sha256v2.None? && Present(published, list) && LegacyChecksum(hash, published, list) == Some(expected.sha256)
    requires Present(dir, Sort(files)) && Present(published, Sort(list)) ==>
      Separates(hash, Contents(dir, Sort(files)), Contents(published, Sort(list)))
    ensures Verifies(hash, dir, files, expected) <==>
      && Present(dir, files) && Present(dir, Sort(files)) && Present(published, Sort(list))
      && Contents(dir, Sort(files)) == Contents(published, Sort(list))
  {
    DigestNeedsEveryFile(hash, dir, files);
    DigestNeedsEveryFile(hash, published, list);
  }
}
