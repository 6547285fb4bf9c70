/** Names for the files of an archive: no two the same, upper and lower case counting as the same. */
module ArchiveNames {
  import opened SetSums

  // ---------------------------------------------------------------------------------------------
  // Texts
  // ---------------------------------------------------------------------------------------------

  /** The decimal digits of a text, in order. */
  function Digits(s: string): string {
    if s == [] then [] else Digits(s[..|s| - 1]) + if '0' <= s[|s| - 1] <= '9' then [s[|s| - 1]] else []
  }

  /**
   * Lower case is any function on whole texts, as a letter's may depend on its neighbours; all that matters of it is
   * that texts of different digits do not become the same.
   */
  ghost predicate KeepsDigits(lower: string -> string) {
    forall s, t :: lower(s) == lower(t) ==> Digits(s) == Digits(t)
  }

  lemma {:induction false} DigitsJoin(s: string, t: string)
    ensures Digits(s + t) == Digits(s) + Digits(t)
    decreases |t|
  {
    if t == [] {
      assert s + t == s;
    } else {
      DigitsJoin(s, t[..|t| - 1]);
      assert (s + t)[..|s + t| - 1] == s + t[..|t| - 1];
    }
  }

  function Digit(n: nat): char
    requires n < 10
  {
    "0123456789"[n]
  }

  function Decimal(n: nat): string {
    if n < 10 then [Digit(n)] else Decimal(n / 10) + [Digit(n % 10)]
  }

  function Value(s: string): nat {
    if s == [] then 0
    else 10 * Value(s[..|s| - 1]) + if '0' <= s[|s| - 1] <= '9' then s[|s| - 1] as int - '0' as int else 0
  }

  lemma {:induction false} DecimalReads(n: nat)
    ensures Value(Decimal(n)) == n
    decreases n
  {
    var s := Decimal(n);
    if n < 10 {
      assert s[..0] == [];
    } else {
      DecimalReads(n / 10);
      assert s[..|s| - 1] == Decimal(n / 10);
    }
  }

  lemma {:induction false} DigitIsDigit(n: nat)
    requires n < 10
    ensures '0' <= Digit(n) <= '9' && Digits([Digit(n)]) == [Digit(n)]
  {
    var digit := [Digit(n)];
    assert digit[..0] == [] && digit[|digit| - 1] == Digit(n);
  }

  lemma {:induction false} DecimalIsDigits(n: nat)
    ensures Digits(Decimal(n)) == Decimal(n)
    decreases n
  {
    DigitIsDigit(n % 10);
    if n >= 10 {
      DecimalIsDigits(n / 10);
      DigitsJoin(Decimal(n / 10), [Digit(n % 10)]);
    }
  }

  /** Where the last occurrence is, or -1. */
  function LastIndex(s: string, c: char): (r: int)
    ensures -1 <= r < |s| && (r >= 0 ==> s[r] == c) && forall i :: r < i < |s| ==> s[i] != c
  {
    if s == [] then -1 else if s[|s| - 1] == c then |s| - 1 else LastIndex(s[..|s| - 1], c)
  }

  /** What follows the last separator of either kind. */
  function BaseName(s: string): (r: string)
    ensures '/' !in r && '\\' !in r
    ensures |r| <= |s| && r == s[|s| - |r|..] && (|r| < |s| ==> s[|s| - |r| - 1] in {'/', '\\'})
  {
    var slash, backslash := LastIndex(s, '/'), LastIndex(s, '\\');
    var cut := if slash > backslash then slash else backslash;
    s[cut + 1..]
  }

  function WithoutBreaks(s: string): (r: string)
    ensures '\r' !in r && '\n' !in r && forall c :: c in r ==> c in s
  {
    if s == [] then [] else WithoutBreaks(s[..|s| - 1]) + if s[|s| - 1] in {'\r', '\n'} then [] else [s[|s| - 1]]
  }

  const FALLBACK := "model.stl"

  function SafeName(fileName: string): string {
    var name := WithoutBreaks(BaseName(fileName));
    if name == [] then FALLBACK else name
  }

  /** A safe name is one path segment on one line. */
  lemma {:induction false} SafeNameIsSafe(fileName: string)
    ensures SafeName(fileName) != []
    ensures forall c :: c in SafeName(fileName) ==> c != '/' && c != '\\' && c != '\r' && c != '\n'
  {
    var base := BaseName(fileName);
    var name := WithoutBreaks(base);
    if name == [] {
      FallbackIsSafe();
    } else {
      forall c | c in name ensures c != '/' && c != '\\' && c != '\r' && c != '\n' {
        assert c in base;
      }
    }
  }

  lemma {:induction false} FallbackIsSafe()
    ensures FALLBACK != [] && forall c :: c in FALLBACK ==> c != '/' && c != '\\' && c != '\r' && c != '\n'
  {
    assert FALLBACK == ['m', 'o', 'd', 'e', 'l', '.', 's', 't', 'l'];
    forall i | 0 <= i < |FALLBACK|
      ensures FALLBACK[i] != '/' && FALLBACK[i] != '\\' && FALLBACK[i] != '\r' && FALLBACK[i] != '\n'
    {
      match i
      case 0 => case 1 => case 2 => case 3 => case 4 => case 5 => case 6 => case 7 => case 8 =>
    }
  }

  lemma {:induction false} BreaksJoin(s: string, t: string)
    ensures WithoutBreaks(s + t) == WithoutBreaks(s) + WithoutBreaks(t)
    decreases |t|
  {
    if t == [] {
      assert s + t == s;
    } else {
      var front, last := t[..|t| - 1], t[|t| - 1];
      BreaksJoin(s, front);
      assert (s + t)[..|s + t| - 1] == s + front && (s + t)[|s + t| - 1] == last;
      var kept := if last in {'\r', '\n'} then [] else [last];
      assert WithoutBreaks(s) + WithoutBreaks(front) + kept == WithoutBreaks(s) + (WithoutBreaks(front) + kept);
    }
  }

  predicate Separator(c: char) {
    c == '/' || c == '\\'
  }

  predicate Break(c: char) {
    c == '\r' || c == '\n'
  }

  /** Of a text without line breaks nothing is taken out. */
  lemma {:induction false} OthersStay(s: string)
    requires forall i :: 0 <= i < |s| ==> !Break(s[i])
    ensures WithoutBreaks(s) == s
    decreases |s|
  {
    if s != [] {
      OthersStay(s[..|s| - 1]);
      assert s == s[..|s| - 1] + [s[|s| - 1]];
    }
  }

  /** Of a text of line breaks everything is. */
  lemma {:induction false} BreaksGo(s: string)
    requires forall i :: 0 <= i < |s| ==> Break(s[i])
    ensures WithoutBreaks(s) == []
    decreases |s|
  {
    if s != [] {
      BreaksGo(s[..|s| - 1]);
    }
  }

  lemma {:induction false} BaseIsLast(folder: string, name: string)
    requires forall i :: 0 <= i < |name| ==> !Separator(name[i])
    requires folder == [] || Separator(folder[|folder| - 1])
    ensures BaseName(folder + name) == name
  {
    var whole := folder + name;
    forall i | |folder| <= i < |whole| ensures !Separator(whole[i]) {
      assert whole[i] == name[i - |folder|];
    }
    assert folder != [] ==> whole[|folder| - 1] == folder[|folder| - 1];
    assert whole[|folder|..] == name;
  }

  ghost predicate Plain(s: string) {
    forall i :: 0 <= i < |s| ==> !Separator(s[i]) && !Break(s[i])
  }

  ghost predicate AllBreaks(s: string) {
    forall i :: 0 <= i < |s| ==> Break(s[i])
  }

  lemma {:induction false} BreaksBetween(left: string, breaks: string, right: string)
    requires Plain(left) && AllBreaks(breaks) && Plain(right)
    ensures WithoutBreaks(left + breaks + right) == left + right
  {
    BreaksJoin(left + breaks, right);
    BreaksJoin(left, breaks);
    OthersStay(left);
    OthersStay(right);
    BreaksGo(breaks);
    assert left + [] == left;
  }

  lemma {:induction false} NoSeparators(left: string, breaks: string, right: string)
    requires Plain(left) && AllBreaks(breaks) && Plain(right)
    ensures forall i :: 0 <= i < |left + breaks + right| ==> !Separator((left + breaks + right)[i])
  {
  }

  /**
   * The safe name is what follows the last separator, with its characters in order and only the line breaks gone; the
   * stand-in takes the place of an empty one.
   */
  lemma {:induction false} SafeNameKeeps(folder: string, left: string, breaks: string, right: string)
    requires folder == [] || Separator(folder[|folder| - 1])
    requires Plain(left) && AllBreaks(breaks) && Plain(right)
    ensures SafeName(folder + (left + breaks + right)) == if left + right == [] then "model.stl" else left + right
  {
    var name := left + breaks + right;
    NoSeparators(left, breaks, right);
    BaseIsLast(folder, name);
    BreaksBetween(left, breaks, right);
    assert WithoutBreaks(BaseName(folder + name)) == left + right;
  }

  /** A leading dot begins no extension. */
  function Stem(name: string): string {
    var dot := LastIndex(name, '.');
    if dot > 0 then name[..dot] else name
  }

  function Extension(name: string): string {
    var dot := LastIndex(name, '.');
    if dot > 0 then name[dot..] else []
  }

  /**
   * Stem and extension join to the name; the extension is empty or the part from the last dot on, and a dot that leads
   * the name begins none.
   */
  lemma {:induction false} StemAndExtension(name: string)
    ensures Stem(name) + Extension(name) == name
    ensures Extension(name) != [] ==> Extension(name)[0] == '.' && '.' !in Extension(name)[1..] && Stem(name) != []
    ensures Extension(name) == [] ==> name == [] || '.' !in name[1..]
  {
    var dot := LastIndex(name, '.');
    if dot > 0 {
      assert Extension(name)[1..] == name[dot + 1..];
    }
  }

  function Numbered(name: string, n: nat): string {
    Stem(name) + " (" + Decimal(n) + ")" + Extension(name)
  }

  /** The number goes in brackets between stem and extension. */
  lemma {:induction false} NumberedExample()
    ensures Numbered("part.v2.stl", 12) == "part.v2 (12).stl"
    ensures Numbered(".stl", 2) == ".stl (2)" && Numbered("part", 2) == "part (2)"
  {
    StemsOf("part.v2", ".stl");
    StemsOf(".stl", "");
    StemsOf("part", "");
    assert "part.v2" + ".stl" == "part.v2.stl" && ".stl" + "" == ".stl" && "part" + "" == "part";
    assert Decimal(12) == "12" && Decimal(2) == "2";
  }

  /** There is one way to part a name into a stem and an extension like that. */
  lemma {:induction false} StemsOf(stem: string, extension: string)
    requires extension == [] ==> stem == [] || '.' !in stem[1..]
    requires extension != [] ==> extension[0] == '.' && '.' !in extension[1..] && stem != []
    ensures Stem(stem + extension) == stem && Extension(stem + extension) == extension
  {
    var name := stem + extension;
    var dot := LastIndex(name, '.');
    if extension != [] {
      forall i | |stem| < i < |name| ensures name[i] != '.' {
        assert name[i] == extension[1..][i - |stem| - 1];
      }
      assert name[|stem|] == '.';
    } else {
      forall i | 0 < i < |name| ensures name[i] != '.' {
        assert name[i] == stem[1..][i - 1];
      }
    }
  }

  lemma {:induction false} SameMiddle(a: string, x: string, y: string, b: string)
    requires a + x + b == a + y + b
    ensures x == y
  {
    assert |x| == |y|;
    assert x == (a + x + b)[|a|..|a| + |x|];
    assert y == (a + y + b)[|a|..|a| + |y|];
  }

  lemma {:induction false} DigitsNumbered(name: string, n: nat)
    ensures Digits(Numbered(name, n)) == Digits(Stem(name) + " (") + Decimal(n) + Digits(")" + Extension(name))
  {
    DecimalIsDigits(n);
    var head, tail := Stem(name) + " (", ")" + Extension(name);
    assert Numbered(name, n) == (head + Decimal(n)) + tail;
    DigitsJoin(head + Decimal(n), tail);
    DigitsJoin(head, Decimal(n));
  }

  /** Different numbers give names that differ, whatever the case. */
  lemma {:induction false} NumbersDiffer(lower: string -> string, name: string, m: nat, n: nat)
    requires KeepsDigits(lower) && lower(Numbered(name, m)) == lower(Numbered(name, n))
    ensures m == n
  {
    DigitsNumbered(name, m);
    DigitsNumbered(name, n);
    SameMiddle(Digits(Stem(name) + " ("), Decimal(m), Decimal(n), Digits(")" + Extension(name)));
    DecimalReads(m);
    DecimalReads(n);
  }

  // ---------------------------------------------------------------------------------------------
  // Unique names
  // ---------------------------------------------------------------------------------------------

  /** The lower-cased numbered names tried before the n-th. */
  function Tried(lower: string -> string, name: string, n: nat): set<string> {
    if n <= 2 then {} else Tried(lower, name, n - 1) + {lower(Numbered(name, n - 1))}
  }

  lemma {:induction false} TriedAt(lower: string -> string, name: string, n: nat, s: string) returns (k: nat)
    requires s in Tried(lower, name, n)
    ensures 2 <= k < n && s == lower(Numbered(name, k))
    decreases n
  {
    var last := lower(Numbered(name, n - 1));
    assert Tried(lower, name, n) == Tried(lower, name, n - 1) + {last};
    if s == last {
      k := n - 1;
    } else {
      k := TriedAt(lower, name, n - 1, s);
    }
  }

  lemma {:induction false} TriedCount(lower: string -> string, name: string, n: nat)
    requires KeepsDigits(lower) && n >= 2
    ensures |Tried(lower, name, n)| == n - 2
    decreases n
  {
    if n > 2 {
      TriedCount(lower, name, n - 1);
      var last := lower(Numbered(name, n - 1));
      if last in Tried(lower, name, n - 1) {
        var k := TriedAt(lower, name, n - 1, last);
        NumbersDiffer(lower, name, n - 1, k);
      }
    }
  }

  /** Once n - 2 numbers were tried in vain there are at least as many used names. */
  lemma {:induction false} TriesBounded(lower: string -> string, used: set<string>, name: string, n: nat)
    requires KeepsDigits(lower) && n >= 2 && forall k :: 2 <= k < n ==> lower(Numbered(name, k)) in used
    ensures n - 2 <= |used|
  {
    TriedCount(lower, name, n);
    forall s | s in Tried(lower, name, n) ensures s in used {
      var k := TriedAt(lower, name, n, s);
    }
    NoMoreThan(Tried(lower, name, n), used);
  }

  /** The file's own name if it is free, else its name with the smallest free number from 2 on. */
  ghost predicate FirstFree(lower: string -> string, used: set<string>, name: string, r: string) {
    if lower(name) !in used then r == name
    else exists n: nat :: 2 <= n && r == Numbered(name, n) && SmallestFree(lower, used, name, n)
  }

  ghost predicate SmallestFree(lower: string -> string, used: set<string>, name: string, n: nat) {
    lower(Numbered(name, n)) !in used && forall k :: 2 <= k < n ==> lower(Numbered(name, k)) in used
  }

  /** Numbers the name until it is free: no more tries than there are used names. */
  method FreeName(lower: string -> string, used: set<string>, name: string) returns (candidate: string)
    requires KeepsDigits(lower)
    ensures lower(candidate) !in used && FirstFree(lower, used, name, candidate)
  {
    candidate := name;
    if lower(name) !in used {
      return;
    }
    var suffix := 2;
    while lower(candidate) in used
      invariant 2 <= suffix && forall k :: 2 <= k < suffix - 1 ==> lower(Numbered(name, k)) in used
      invariant candidate == if suffix == 2 then name else Numbered(name, suffix - 1)
      decreases |used| + 3 - suffix
    {
      if suffix > 2 {
        assert lower(Numbered(name, suffix - 1)) in used;
      }
      TriesBounded(lower, used, name, suffix);
      candidate := Numbered(name, suffix);
      suffix := suffix + 1;
    }
    assert SmallestFree(lower, used, name, suffix - 1);
  }

  ghost function LowerNames(lower: string -> string, names: seq<string>): set<string> {
    set i | 0 <= i < |names| :: lower(names[i])
  }

  lemma {:induction false} LowerNamesNext(lower: string -> string, names: seq<string>, name: string)
    ensures LowerNames(lower, names + [name]) == LowerNames(lower, names) + {lower(name)}
  {
    var all := names + [name];
    assert all[|names|] == name;
    forall s | s in LowerNames(lower, names) ensures s in LowerNames(lower, all) {
      var i :| 0 <= i < |names| && lower(names[i]) == s;
      assert all[i] == names[i];
    }
  }

  ghost predicate NamedAt(lower: string -> string, names: seq<string>, fileNames: seq<string>, i: nat)
    requires i < |names| && i < |fileNames|
  {
    FirstFree(lower, LowerNames(lower, names[..i]), SafeName(fileNames[i]), names[i])
  }

  lemma {:induction false} NamedKept(lower: string -> string, names: seq<string>, name: string,
      fileNames: seq<string>, i: nat)
    requires i < |names| && i < |fileNames| && NamedAt(lower, names, fileNames, i)
    ensures NamedAt(lower, names + [name], fileNames, i)
  {
    assert (names + [name])[..i] == names[..i];
  }

  ghost predicate Different(lower: string -> string, names: seq<string>) {
    forall i, j :: 0 <= i < j < |names| ==> lower(names[i]) != lower(names[j])
  }

  /** One name per file, in order; no two are the same, whatever the case; each is the first free one for its file. */
  method UniqueArchiveNames(lower: string -> string, fileNames: seq<string>) returns (names: seq<string>)
    requires KeepsDigits(lower)
    ensures |names| == |fileNames| && Different(lower, names)
    ensures forall i :: 0 <= i < |names| ==> NamedAt(lower, names, fileNames, i)
  {
    names := [];
    var used: set<string> := {};
    for n := 0 to |fileNames|
      invariant |names| == n && used == LowerNames(lower, names) && Different(lower, names)
      invariant forall i :: 0 <= i < n ==> NamedAt(lower, names, fileNames, i)
    {
      var name := FreeName(lower, used, SafeName(fileNames[n]));
      LowerNamesNext(lower, names, name);
      forall i | 0 <= i < n ensures NamedAt(lower, names + [name], fileNames, i) {
        NamedKept(lower, names, name, fileNames, i);
      }
      names := names + [name];
      used := used + {lower(name)};
    }
  }

  /** A file whose safe name no earlier file took keeps that name. */
  lemma {:induction false} FreeNameKept(lower: string -> string, names: seq<string>, fileNames: seq<string>, i: nat)
    requires i < |names| && i < |fileNames| && NamedAt(lower, names, fileNames, i)
    requires forall j :: 0 <= j < i ==> lower(names[j]) != lower(SafeName(fileNames[i]))
    ensures names[i] == SafeName(fileNames[i])
  {
    var front := names[..i];
    forall j | 0 <= j < |front| ensures lower(front[j]) != lower(SafeName(fileNames[i])) {
      assert front[j] == names[j];
    }
  }
}
