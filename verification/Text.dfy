/** Splitting, joining and comparing text the way Python's `str` methods do. */
module Text {

  // ---- Characters ----------------------------------------------------------

  predicate IsDigit(c: char) {
    '0' <= c <= '9'
  }

  function DigitValue(c: char): nat {
    if IsDigit(c) then (c as int - '0' as int) as nat else 0
  }

  predicate IsAlnum(c: char) {
    'A' <= c <= 'Z' || 'a' <= c <= 'z' || IsDigit(c)
  }

  /** `btrim(s) <> ''` */
  predicate NotBlank(s: string) {
    exists i :: 0 <= i < |s| && s[i] != ' '
  }

  // ---- Cutting and joining -------------------------------------------------

  /** Index of the first `sep`, or the length. */
  function IndexOf(s: string, sep: char): (k: nat)
    ensures k <= |s| && (forall i | 0 <= i < k :: s[i] != sep) && (k < |s| ==> s[k] == sep)
  {
    if s == "" || s[0] == sep then 0 else 1 + IndexOf(s[1..], sep)
  }

  /** `s.partition(sep)`: what precedes the first `sep`, whether there is one, what follows it. */
  function Cut(s: string, sep: char): (string, bool, string) {
    var k := IndexOf(s, sep);
    if k == |s| then (s, false, "") else (s[..k], true, s[k + 1..])
  }

  function Split(s: string, sep: char): (parts: seq<string>)
    ensures parts != [] && (forall p | p in parts :: sep !in p)
  {
    var k := IndexOf(s, sep);
    if k == |s| then [s] else [s[..k]] + Split(s[k + 1..], sep)
  }

  function Join(parts: seq<string>, sep: char): string
    requires parts != []
  {
    if |parts| == 1 then parts[0] else parts[0] + [sep] + Join(parts[1..], sep)
  }

  lemma CutAt(a: string, sep: char, b: string)
    requires sep !in a
    ensures IndexOf(a + [sep] + b, sep) == |a|
    ensures Cut(a + [sep] + b, sep) == (a, true, b)
  {
    var s := a + [sep] + b;
    assert s[|a|] == sep;
    assert forall i | 0 <= i < |a| :: s[i] == a[i] && a[i] in a;
    assert s[..|a|] == a && s[|a| + 1..] == b;
  }

  lemma CutParts(s: string, sep: char)
    requires Cut(s, sep).1
    ensures s == Cut(s, sep).0 + [sep] + Cut(s, sep).2 && sep !in Cut(s, sep).0
  {
  }

  lemma SplitHead(a: string, sep: char, rest: string)
    requires sep !in a
    ensures Split(a + [sep] + rest, sep) == [a] + Split(rest, sep)
  {
    CutAt(a, sep, rest);
    var s := a + [sep] + rest;
    assert s[..|a|] == a && s[|a| + 1..] == rest;
  }

  lemma SplitWhole(a: string, sep: char)
    requires sep !in a
    ensures Split(a, sep) == [a]
  {
    assert IndexOf(a, sep) == |a|;
  }

  lemma {:induction false} SplitJoin(parts: seq<string>, sep: char)
    requires parts != [] && forall p | p in parts :: sep !in p
    ensures Split(Join(parts, sep), sep) == parts
  {
    hide Split;
    if |parts| == 1 {
      assert parts == [parts[0]];
      SplitWhole(parts[0], sep);
    } else {
      SplitHead(parts[0], sep, Join(parts[1..], sep));
      SplitJoin(parts[1..], sep);
      assert parts == [parts[0]] + parts[1..];
    }
  }

  lemma JoinHead(a: string, tail: seq<string>, sep: char)
    requires tail != []
    ensures Join([a] + tail, sep) == a + [sep] + Join(tail, sep)
  {
    assert ([a] + tail)[1..] == tail;
  }

  lemma SplitAt(s: string, sep: char)
    ensures var k := IndexOf(s, sep);
      Split(s, sep) == if k == |s| then [s] else [s[..k]] + Split(s[k + 1..], sep)
  {
    hide IndexOf;
  }

  lemma {:induction false} JoinSplit(s: string, sep: char)
    ensures Join(Split(s, sep), sep) == s
    decreases |s|
  {
    hide Split;
    SplitAt(s, sep);
    var k := IndexOf(s, sep);
    if k < |s| {
      hide Join;
      JoinSplit(s[k + 1..], sep);
      JoinHead(s[..k], Split(s[k + 1..], sep), sep);
      assert s == s[..k] + [sep] + s[k + 1..];
    }
  }

  /** Index just past the last `sep`, or 0. */
  function AfterLast(s: string, sep: char): (k: nat)
    ensures k <= |s| && (forall i | k <= i < |s| :: s[i] != sep) && (0 < k ==> s[k - 1] == sep)
  {
    if s == "" then 0
    else if s[|s| - 1] == sep then |s|
    else AfterLast(s[..|s| - 1], sep)
  }

  /** `s.rpartition(sep)` without the separator: what precedes the last `sep`, and what follows it. */
  function CutLast(s: string, sep: char): (string, string) {
    var k := AfterLast(s, sep);
    if k == 0 then ("", s) else (s[..k - 1], s[k..])
  }

  lemma CutLastAt(a: string, sep: char, b: string)
    requires sep !in b
    ensures CutLast(a + [sep] + b, sep) == (a, b)
  {
    var s := a + [sep] + b;
    assert s[|a|] == sep;
    assert forall i | |a| < i < |s| :: s[i] == b[i - |a| - 1] && b[i - |a| - 1] in b;
    assert AfterLast(s, sep) == |a| + 1;
    assert s[..|a|] == a && s[|a| + 1..] == b;
  }

  lemma CutLastParts(s: string, sep: char)
    requires sep in s
    ensures s == CutLast(s, sep).0 + [sep] + CutLast(s, sep).1
  {
  }

  predicate EndsWith(s: string, suffix: string) {
    |suffix| <= |s| && s[|s| - |suffix|..] == suffix
  }

  // ---- Order of text (by code point, as Python sorts) ----------------------

  predicate Less(a: string, b: string) {
    b != "" && (a == "" || a[0] < b[0] || (a[0] == b[0] && Less(a[1..], b[1..])))
  }

  lemma {:induction false} LessTotal(a: string, b: string)
    ensures Less(a, b) || Less(b, a) || a == b
    ensures !(Less(a, b) && Less(b, a)) && !Less(a, a)
  {
    if a != "" && b != "" {
      LessTotal(a[1..], b[1..]);
      assert a == [a[0]] + a[1..] && b == [b[0]] + b[1..];
    }
    if a != "" {
      LessTotal(a[1..], a[1..]);
    }
  }

  lemma {:induction false} LessTransitive(a: string, b: string, c: string)
    requires Less(a, b) && Less(b, c)
    ensures Less(a, c)
  {
    if a != "" && a[0] == b[0] == c[0] {
      LessTransitive(a[1..], b[1..], c[1..]);
    }
  }
}
