/**
 * JSON objects whose values are strings, integers, booleans or null: the only
 * shape the backup ledger and the restore receipts use (RFC 8259, section 4).
 *
 * `Dumps` writes what `json.dumps(..., separators=(",", ":"))` writes, with every
 * character outside printable ASCII escaped. `Loads` reads any whitespace layout.
 * The three facts the ledger rests on are proved here: reading inverts writing,
 * no strict prefix of a written object reads, and a written object is printable.
 */
module FlatJson {
  import opened Wrappers
  import opened Text

  datatype Scalar = Str(text: string) | Int(value: int) | Bool(flag: bool) | Null
  datatype Member = Member(key: string, value: Scalar)
  type Object = seq<Member>

  // ---- Hexadecimal escapes -------------------------------------------------

  function HexDigit(n: nat): char
    requires n < 16
  {
    "0123456789abcdef"[n]
  }

  function HexValue(c: char): Option<nat>
    ensures HexValue(c).Some? ==> HexValue(c).value < 16
  {
    if '0' <= c <= '9' then Some((c as int - '0' as int) as nat)
    else if 'a' <= c <= 'f' then Some((c as int - 'a' as int + 10) as nat)
    else if 'A' <= c <= 'F' then Some((c as int - 'A' as int + 10) as nat)
    else None
  }

  function Hex4(n: nat): string
    requires n < 0x1_0000
  {
    [HexDigit(n / 16 / 16 / 16), HexDigit(n / 16 / 16 % 16), HexDigit(n / 16 % 16), HexDigit(n % 16)]
  }

  function Unhex4(s: string): Option<nat>
    requires |s| == 4
    ensures Unhex4(s).Some? ==> Unhex4(s).value < 0x1_0000
  {
    var a :- HexValue(s[0]);
    var b :- HexValue(s[1]);
    var c :- HexValue(s[2]);
    var d :- HexValue(s[3]);
    Some(((a * 16 + b) * 16 + c) * 16 + d)
  }

  lemma HexDigitRoundTrip(n: nat)
    requires n < 16
    ensures HexValue(HexDigit(n)) == Some(n)
  {
  }

  lemma Hex4RoundTrip(n: nat)
    requires n < 0x1_0000
    ensures |Hex4(n)| == 4 && Unhex4(Hex4(n)) == Some(n)
  {
    HexDigitRoundTrip(n / 16 / 16 / 16);
    HexDigitRoundTrip(n / 16 / 16 % 16);
    HexDigitRoundTrip(n / 16 % 16);
    HexDigitRoundTrip(n % 16);
  }

  // ---- Strings -------------------------------------------------------------

  /** The letter of a two-character escape, where `json.dumps` uses one. */
  function ShortEscape(c: char): Option<char> {
    if c == '\"' || c == '\\' then Some(c)
    else if c == '\n' then Some('n')
    else if c == '\r' then Some('r')
    else if c == '\t' then Some('t')
    else if c == '\U{0008}' then Some('b')
    else if c == '\U{000C}' then Some('f')
    else None
  }

  function ShortUnescape(letter: char): Option<char> {
    if letter == '\"' || letter == '\\' || letter == '/' then Some(letter)
    else if letter == 'n' then Some('\n')
    else if letter == 'r' then Some('\r')
    else if letter == 't' then Some('\t')
    else if letter == 'b' then Some('\U{0008}')
    else if letter == 'f' then Some('\U{000C}')
    else None
  }

  predicate IsSurrogate(v: nat) {
    0xD800 <= v < 0xE000
  }

  function UnicodeEscape(v: nat): string
    requires v < 0x1_0000
  {
    "\\u" + Hex4(v)
  }

  /** One character of a string as `json.dumps` writes it (`ensure_ascii`). */
  function Escape(c: char): string {
    if ShortEscape(c).Some? then ['\\', ShortEscape(c).value]
    else if ' ' <= c <= '~' then [c]
    else if c as int < 0x1_0000 then UnicodeEscape(c as int)
    else
      var v := c as int - 0x1_0000;
      UnicodeEscape(0xD800 + v / 0x400) + UnicodeEscape(0xDC00 + v % 0x400)
  }

  function EscapeAll(t: string): string {
    if t == "" then "" else Escape(t[0]) + EscapeAll(t[1..])
  }

  function UnicodeUnescape(s: string): Option<(nat, string)>
    ensures UnicodeUnescape(s).Some? ==> UnicodeUnescape(s).value.0 < 0x1_0000 && |UnicodeUnescape(s).value.1| < |s|
  {
    if |s| < 6 || s[0] != '\\' || s[1] != 'u' then None
    else
      var v :- Unhex4(s[2..6]);
      Some((v, s[6..]))
  }

  /** The character an escape sequence at the head of `s` stands for, and what follows it. */
  function Unescape(s: string): Option<(char, string)>
    ensures Unescape(s).Some? ==> |Unescape(s).value.1| < |s|
  {
    if |s| < 2 then None
    else if ShortUnescape(s[1]).Some? then Some((ShortUnescape(s[1]).value, s[2..]))
    else
      var (v, rest) :- UnicodeUnescape(s);
      if !IsSurrogate(v) then Some((v as char, rest))
      else
        var (w, rest') :- UnicodeUnescape(rest);
        if v < 0xDC00 <= w < 0xE000
        then Some(((0x1_0000 + (v - 0xD800) * 0x400 + (w - 0xDC00)) as char, rest'))
        else None
  }

  /** Everything up to the closing quote (the opening one already consumed). */
  function StringBody(s: string): Option<(string, string)>
    ensures StringBody(s).Some? ==> |StringBody(s).value.1| < |s|
  {
    if s == "" || s[0] < ' ' then None
    else if s[0] == '\"' then Some(("", s[1..]))
    else if s[0] == '\\' then
      var (c, rest) :- Unescape(s);
      var (tail, rest') :- StringBody(rest);
      Some(([c] + tail, rest'))
    else
      var (tail, rest) :- StringBody(s[1..]);
      Some(([s[0]] + tail, rest))
  }

  lemma UnicodeRoundTrip(v: nat, x: string)
    requires v < 0x1_0000
    ensures UnicodeUnescape(UnicodeEscape(v) + x) == Some((v, x))
    ensures |UnicodeEscape(v)| == 6 && (UnicodeEscape(v) + x)[1] == 'u'
  {
    Hex4RoundTrip(v);
    var s := UnicodeEscape(v) + x;
    assert s[2..6] == Hex4(v) && s[6..] == x;
  }

  lemma PairRoundTrip(c: char, x: string)
    requires 0x1_0000 <= c as int
    ensures ShortEscape(c).None? && Unescape(Escape(c) + x) == Some((c, x))
  {
    hide Hex4, Unhex4, UnicodeEscape, UnicodeUnescape;
    var v := c as int - 0x1_0000;
    var high, low := 0xD800 + v / 0x400, 0xDC00 + v % 0x400;
    assert 0xD800 <= high < 0xDC00 <= low < 0xE000;
    UnicodeRoundTrip(high, UnicodeEscape(low) + x);
    UnicodeRoundTrip(low, x);
    assert Escape(c) + x == UnicodeEscape(high) + (UnicodeEscape(low) + x);
  }

  lemma UnescapeEscape(c: char, x: string)
    requires ShortEscape(c).Some? || !(' ' <= c <= '~')
    ensures Unescape(Escape(c) + x) == Some((c, x))
  {
    if ShortEscape(c).Some? {
      assert (Escape(c) + x)[2..] == x;
    } else if c as int < 0x1_0000 {
      UnicodeRoundTrip(c as int, x);
    } else {
      PairRoundTrip(c, x);
    }
  }

  lemma EscapeShape(c: char)
    ensures if ShortEscape(c).Some? || !(' ' <= c <= '~') then Escape(c) != "" && Escape(c)[0] == '\\'
            else Escape(c) == [c] && c != '\"' && c != '\\'
  {
    hide Hex4;
  }

  lemma {:induction false} StringRoundTrip(t: string, x: string)
    ensures StringBody(EscapeAll(t) + "\"" + x) == Some((t, x))
  {
    hide Escape, ShortEscape, Unescape;
    var s := EscapeAll(t) + "\"" + x;
    if t != "" {
      EscapeShape(t[0]);
    }
    if t == "" {
      assert s[1..] == x;
    } else {
      var y := EscapeAll(t[1..]) + "\"" + x;
      StringRoundTrip(t[1..], x);
      assert s == Escape(t[0]) + y;
      assert [t[0]] + t[1..] == t;
      if ShortEscape(t[0]).Some? || !(' ' <= t[0] <= '~') {
        UnescapeEscape(t[0], y);
      } else {
        assert s[1..] == y;
      }
    }
  }

  lemma UnicodeLocal(p: string, x: string)
    requires UnicodeUnescape(p).Some?
    ensures UnicodeUnescape(p + x) == Some((UnicodeUnescape(p).value.0, UnicodeUnescape(p).value.1 + x))
  {
    assert (p + x)[2..6] == p[2..6] && (p + x)[6..] == p[6..] + x;
  }

  lemma UnescapeLocal(p: string, x: string)
    requires Unescape(p).Some?
    ensures Unescape(p + x) == Some((Unescape(p).value.0, Unescape(p).value.1 + x))
  {
    if ShortUnescape(p[1]).Some? {
      assert (p + x)[2..] == p[2..] + x;
    } else {
      UnicodeLocal(p, x);
      var (v, rest) := UnicodeUnescape(p).value;
      if IsSurrogate(v) {
        UnicodeLocal(rest, x);
      }
    }
  }

  lemma {:induction false} StringLocal(p: string, x: string)
    requires StringBody(p).Some?
    ensures StringBody(p + x) == Some((StringBody(p).value.0, StringBody(p).value.1 + x))
  {
    var s := p + x;
    if p[0] == '\"' {
      assert s[1..] == p[1..] + x;
    } else if p[0] == '\\' {
      UnescapeLocal(p, x);
      StringLocal(Unescape(p).value.1, x);
    } else {
      assert s[1..] == p[1..] + x;
      StringLocal(p[1..], x);
    }
  }

  // ---- Integers ------------------------------------------------------------

  function DigitText(n: nat): char
    requires n < 10
  {
    (n + '0' as int) as char
  }

  function NatText(n: nat): string {
    if n < 10 then [DigitText(n)] else NatText(n / 10) + [DigitText(n % 10)]
  }

  function IntText(n: int): string {
    if n < 0 then "-" + NatText(-n) else NatText(n)
  }

  function NatValue(ds: string): nat
  {
    if ds == "" then 0 else NatValue(ds[..|ds| - 1]) * 10 + DigitValue(ds[|ds| - 1])
  }

  /** Length of the longest run of digits at the head of `s`. */
  function DigitSpan(s: string): (n: nat)
    ensures n <= |s| && (forall c | c in s[..n] :: IsDigit(c))
    ensures n < |s| ==> !IsDigit(s[n])
  {
    if s == "" || !IsDigit(s[0]) then 0
    else
      var n := 1 + DigitSpan(s[1..]);
      assert s[..n] == [s[0]] + s[1..][..n - 1];
      n
  }

  lemma DigitSpanExact(s: string, n: nat)
    requires n <= |s| && (forall c | c in s[..n] :: IsDigit(c))
    requires n < |s| ==> !IsDigit(s[n])
    ensures DigitSpan(s) == n
  {
  }

  lemma {:induction false} NatTextValue(n: nat)
    ensures NatText(n) != "" && (forall c | c in NatText(n) :: IsDigit(c))
    ensures NatValue(NatText(n)) == n
    ensures NatText(n)[0] == '0' ==> n == 0 && |NatText(n)| == 1
  {
    if n < 10 {
      assert NatText(n)[..0] == "";
    } else {
      NatTextValue(n / 10);
      var t := NatText(n);
      assert t[..|t| - 1] == NatText(n / 10);
    }
  }

  predicate ContinuesNumber(c: char) {
    IsDigit(c) || c == '.' || c == 'e' || c == 'E'
  }

  /** Digits without a leading zero, not continued as a fraction or an exponent. */
  function ParseNat(s: string): Option<(nat, string)>
    ensures ParseNat(s).Some? ==> |ParseNat(s).value.1| < |s|
  {
    var n := DigitSpan(s);
    if n == 0 || (s[0] == '0' && n != 1) then None
    else if n < |s| && ContinuesNumber(s[n]) then None
    else Some((NatValue(s[..n]), s[n..]))
  }

  function ParseInt(s: string): Option<(int, string)>
    ensures ParseInt(s).Some? ==> |ParseInt(s).value.1| < |s|
  {
    if s != "" && s[0] == '-' then
      var (n, rest) :- ParseNat(s[1..]);
      var value: int := n;
      Some((-value, rest))
    else
      var (n, rest) :- ParseNat(s);
      var value: int := n;
      Some((value, rest))
  }

  lemma IntTextHead(n: int)
    ensures IntText(n) != "" && (IntText(n)[0] == '-' || IsDigit(IntText(n)[0]))
    ensures forall c | c in IntText(n) :: c == '-' || IsDigit(c)
  {
    if n < 0 {
      NatTextValue(-n);
    } else {
      NatTextValue(n);
      assert NatText(n)[0] in NatText(n);
    }
  }

  lemma IntHead(s: string)
    requires ParseInt(s).Some?
    ensures s != "" && (s[0] == '-' || IsDigit(s[0]))
  {
  }

  /** What may follow an integer without becoming part of it. */
  predicate EndsNumber(x: string) {
    x == "" || !ContinuesNumber(x[0])
  }

  lemma NatRoundTrip(n: nat, x: string)
    requires EndsNumber(x)
    ensures ParseNat(NatText(n) + x) == Some((n, x))
  {
    NatTextValue(n);
    var t := NatText(n);
    assert (t + x)[..|t|] == t && (t + x)[|t|..] == x;
    DigitSpanExact(t + x, |t|);
  }

  lemma IntRoundTrip(n: int, x: string)
    requires EndsNumber(x)
    ensures ParseInt(IntText(n) + x) == Some((n, x))
  {
    hide NatText, ParseNat, EndsNumber;
    if n < 0 {
      NatRoundTrip(-n, x);
      assert (IntText(n) + x)[1..] == NatText(-n) + x;
    } else {
      NatRoundTrip(n, x);
      NatTextValue(n);
      assert NatText(n)[0] in NatText(n) && (NatText(n) + x)[0] == NatText(n)[0];
    }
  }

  lemma NatLocal(p: string, x: string)
    requires ParseNat(p).Some? && ParseNat(p).value.1 != ""
    ensures ParseNat(p + x) == Some((ParseNat(p).value.0, ParseNat(p).value.1 + x))
  {
    var n := DigitSpan(p);
    assert (p + x)[..n] == p[..n] && (p + x)[n..] == p[n..] + x;
    DigitSpanExact(p + x, n);
  }

  lemma IntLocal(p: string, x: string)
    requires ParseInt(p).Some? && ParseInt(p).value.1 != ""
    ensures ParseInt(p + x) == Some((ParseInt(p).value.0, ParseInt(p).value.1 + x))
  {
    if p[0] == '-' {
      assert (p + x)[1..] == p[1..] + x;
      NatLocal(p[1..], x);
    } else {
      NatLocal(p, x);
    }
  }

  // ---- Values and objects --------------------------------------------------

  function ScalarText(v: Scalar): string {
    match v
    case Str(t) => "\"" + EscapeAll(t) + "\""
    case Int(n) => IntText(n)
    case Bool(b) => if b then "true" else "false"
    case Null => "null"
  }

  function ParseScalar(s: string): Option<(Scalar, string)>
    ensures ParseScalar(s).Some? ==> |ParseScalar(s).value.1| < |s|
  {
    if s == "" then None
    else if s[0] == '\"' then
      var (t, rest) :- StringBody(s[1..]);
      Some((Str(t), rest))
    else if "true" <= s then Some((Bool(true), s[4..]))
    else if "false" <= s then Some((Bool(false), s[5..]))
    else if "null" <= s then Some((Null, s[4..]))
    else
      var (n, rest) :- ParseInt(s);
      Some((Int(n), rest))
  }

  predicate IsSpace(c: char) {
    c == ' ' || c == '\t' || c == '\n' || c == '\r'
  }

  function SkipSpace(s: string): (r: string)
    ensures |r| <= |s|
    ensures r != "" ==> !IsSpace(r[0])
  {
    if s != "" && IsSpace(s[0]) then SkipSpace(s[1..]) else s
  }

  /** `,`, `:` or `}` after optional whitespace, and what follows it. */
  function Token(s: string): Option<(char, string)>
    ensures Token(s).Some? ==> |Token(s).value.1| < |s|
  {
    var r := SkipSpace(s);
    if r == "" then None else Some((r[0], r[1..]))
  }

  function ParseKey(s: string): Option<(string, string)>
    ensures ParseKey(s).Some? ==> |ParseKey(s).value.1| < |s|
  {
    var (quote, afterQuote) :- Token(s);
    if quote != '\"' then None
    else
      var (key, afterKey) :- StringBody(afterQuote);
      var (colon, rest) :- Token(afterKey);
      if colon == ':' then Some((key, rest)) else None
  }

  function ParseMember(s: string): Option<(Member, string)>
    ensures ParseMember(s).Some? ==> |ParseMember(s).value.1| < |s|
  {
    var (key, afterKey) :- ParseKey(s);
    var (value, rest) :- ParseScalar(SkipSpace(afterKey));
    Some((Member(key, value), rest))
  }

  /** The members from a key up to and including the closing brace. */
  function ParseMembers(s: string): Option<(Object, string)>
    decreases |s|
  {
    var (member, afterMember) :- ParseMember(s);
    var (next, afterNext) :- Token(afterMember);
    if next == '}' then Some(([member], afterNext))
    else if next == ',' then
      var (others, rest) :- ParseMembers(afterNext);
      Some(([member] + others, rest))
    else None
  }

  function ParseObject(s: string): Option<(Object, string)> {
    var (brace, inside) :- Token(s);
    if brace != '{' then None
    else if Token(inside).Some? && Token(inside).value.0 == '}' then Some(([], Token(inside).value.1))
    else ParseMembers(inside)
  }

  /** `json.loads` of a text that must hold one object and nothing else. */
  function Loads(s: string): Option<Object> {
    var (o, rest) :- ParseObject(s);
    if SkipSpace(rest) == "" then Some(o) else None
  }

  function MemberText(m: Member): string {
    "\"" + EscapeAll(m.key) + "\"" + ":" + ScalarText(m.value)
  }

  function MembersText(ms: Object): string
    requires ms != []
  {
    if |ms| == 1 then MemberText(ms[0]) + "}" else MemberText(ms[0]) + "," + MembersText(ms[1..])
  }

  function Dumps(ms: Object): string {
    "{" + (if ms == [] then "}" else MembersText(ms))
  }

  /** A repeated key reads as its last occurrence. */
  function Lookup(o: Object, key: string): Option<Scalar> {
    if o == [] then None
    else
      var later := Lookup(o[1..], key);
      if later.Some? then later
      else if o[0].key == key then Some(o[0].value)
      else None
  }

  lemma {:induction false} LookupAt(o: Object, i: nat)
    requires i < |o| && forall j | i < j < |o| :: o[j].key != o[i].key
    ensures Lookup(o, o[i].key) == Some(o[i].value)
  {
    if i == 0 {
      LookupAbsent(o[1..], o[0].key);
    } else {
      LookupAt(o[1..], i - 1);
    }
  }

  lemma {:induction false} LookupAbsent(o: Object, key: string)
    requires forall j | 0 <= j < |o| :: o[j].key != key
    ensures Lookup(o, key) == None
  {
    if o != [] {
      LookupAbsent(o[1..], key);
    }
  }

  // ---- Reading inverts writing ---------------------------------------------

  lemma TokenHere(c: char, x: string)
    requires !IsSpace(c)
    ensures Token([c] + x) == Some((c, x))
  {
    assert ([c] + x)[1..] == x;
  }

  lemma WordRoundTrip(word: string, x: string)
    requires word == "true" || word == "false" || word == "null"
    ensures ParseScalar(word + x) ==
            Some((if word == "true" then Bool(true) else if word == "false" then Bool(false) else Null, x))
  {
    assert (word + x)[|word|..] == x && (word + x)[0] == word[0];
  }

  lemma NumberRoundTrip(n: int, x: string)
    requires EndsNumber(x)
    ensures ParseScalar(IntText(n) + x) == Some((Int(n), x))
    ensures SkipSpace(IntText(n) + x) == IntText(n) + x
  {
    IntRoundTrip(n, x);
    IntTextHead(n);
    assert (IntText(n) + x)[0] == IntText(n)[0];
  }

  lemma QuotedRoundTrip(t: string, x: string)
    ensures ParseScalar(ScalarText(Str(t)) + x) == Some((Str(t), x))
  {
    StringRoundTrip(t, x);
    assert ScalarText(Str(t)) + x == "\"" + (EscapeAll(t) + "\"" + x);
  }

  lemma ScalarRoundTrip(v: Scalar, x: string)
    requires EndsNumber(x)
    ensures ParseScalar(ScalarText(v) + x) == Some((v, x))
    ensures SkipSpace(ScalarText(v) + x) == ScalarText(v) + x
  {
    match v
    case Str(t) => QuotedRoundTrip(t, x);
    case Int(n) => NumberRoundTrip(n, x);
    case Bool(b) => WordRoundTrip(ScalarText(v), x);
    case Null => WordRoundTrip("null", x);
  }

  lemma MemberRoundTrip(m: Member, x: string)
    requires EndsNumber(x)
    ensures ParseMember(MemberText(m) + x) == Some((m, x))
  {
    hide StringBody, EscapeAll, ScalarText, ParseScalar, Token, SkipSpace, EndsNumber;
    var afterKey := ":" + (ScalarText(m.value) + x);
    var afterQuote := EscapeAll(m.key) + "\"" + afterKey;
    assert MemberText(m) + x == "\"" + afterQuote;
    TokenHere('\"', afterQuote);
    StringRoundTrip(m.key, afterKey);
    TokenHere(':', ScalarText(m.value) + x);
    assert ParseKey(MemberText(m) + x) == Some((m.key, ScalarText(m.value) + x));
    ScalarRoundTrip(m.value, x);
  }

  lemma {:induction false} MembersRoundTrip(ms: Object, x: string)
    requires ms != []
    ensures ParseMembers(MembersText(ms) + x) == Some((ms, x))
    decreases |ms|
  {
    hide MemberText, ParseMember, Token;
    if |ms| == 1 {
      assert MembersText(ms) + x == MemberText(ms[0]) + ("}" + x);
      MemberRoundTrip(ms[0], "}" + x);
      TokenHere('}', x);
      assert ms == [ms[0]];
    } else {
      var tail := MembersText(ms[1..]) + x;
      assert MembersText(ms) + x == MemberText(ms[0]) + ("," + tail);
      MemberRoundTrip(ms[0], "," + tail);
      TokenHere(',', tail);
      MembersRoundTrip(ms[1..], x);
      assert ms == [ms[0]] + ms[1..];
    }
  }

  lemma ObjectRoundTrip(ms: Object, x: string)
    ensures ParseObject(Dumps(ms) + x) == Some((ms, x))
  {
    if ms == [] {
      assert Dumps(ms) + x == "{" + ("}" + x);
      TokenHere('{', "}" + x);
      TokenHere('}', x);
    } else {
      var inside := MembersText(ms) + x;
      assert Dumps(ms) + x == "{" + inside;
      TokenHere('{', inside);
      MembersRoundTrip(ms, x);
      assert inside[0] == MemberText(ms[0])[0] == '\"';
    }
  }

  /** `Loads` is a left inverse of `Dumps` on every object. */
  lemma {:induction false} LoadsDumps(ms: Object)
    ensures Loads(Dumps(ms)) == Some(ms)
  {
    ObjectRoundTrip(ms, "");
    assert Dumps(ms) + "" == Dumps(ms);
  }

  // ---- No strict prefix reads ----------------------------------------------

  lemma {:induction false} SkipSpaceLocal(p: string, x: string)
    requires SkipSpace(p) != ""
    ensures SkipSpace(p + x) == SkipSpace(p) + x
  {
    if IsSpace(p[0]) {
      assert (p + x)[1..] == p[1..] + x;
      SkipSpaceLocal(p[1..], x);
    }
  }

  lemma TokenLocal(p: string, x: string)
    requires Token(p).Some?
    ensures Token(p + x) == Some((Token(p).value.0, Token(p).value.1 + x))
  {
    SkipSpaceLocal(p, x);
    assert (SkipSpace(p) + x)[1..] == SkipSpace(p)[1..] + x;
  }

  lemma WordLocal(word: string, p: string, x: string)
    requires word <= p
    ensures word <= p + x && (p + x)[|word|..] == p[|word|..] + x
  {
  }

  lemma ScalarLocal(p: string, x: string)
    requires ParseScalar(p).Some? && ParseScalar(p).value.1 != ""
    ensures ParseScalar(p + x) == Some((ParseScalar(p).value.0, ParseScalar(p).value.1 + x))
  {
    if p[0] == '\"' {
      assert (p + x)[1..] == p[1..] + x;
      StringLocal(p[1..], x);
    } else if "true" <= p {
      WordLocal("true", p, x);
    } else if "false" <= p {
      WordLocal("false", p, x);
    } else if "null" <= p {
      WordLocal("null", p, x);
    } else {
      IntLocal(p, x);
      IntHead(p);
    }
  }

  lemma KeyLocal(p: string, x: string)
    requires ParseKey(p).Some?
    ensures ParseKey(p + x) == Some((ParseKey(p).value.0, ParseKey(p).value.1 + x))
  {
    TokenLocal(p, x);
    var afterQuote := Token(p).value.1;
    StringLocal(afterQuote, x);
    TokenLocal(StringBody(afterQuote).value.1, x);
  }

  lemma MemberLocal(p: string, x: string)
    requires ParseMember(p).Some? && ParseMember(p).value.1 != ""
    ensures ParseMember(p + x) == Some((ParseMember(p).value.0, ParseMember(p).value.1 + x))
  {
    KeyLocal(p, x);
    var afterKey := ParseKey(p).value.1;
    SkipSpaceLocal(afterKey, x);
    ScalarLocal(SkipSpace(afterKey), x);
  }

  lemma {:induction false} MembersLocal(p: string, x: string)
    requires ParseMembers(p).Some?
    ensures ParseMembers(p + x) == Some((ParseMembers(p).value.0, ParseMembers(p).value.1 + x))
    decreases |p|
  {
    MemberLocal(p, x);
    var afterMember := ParseMember(p).value.1;
    TokenLocal(afterMember, x);
    if Token(afterMember).value.0 == ',' {
      MembersLocal(Token(afterMember).value.1, x);
    }
  }

  lemma ObjectLocal(p: string, x: string)
    requires ParseObject(p).Some?
    ensures ParseObject(p + x) == Some((ParseObject(p).value.0, ParseObject(p).value.1 + x))
  {
    TokenLocal(p, x);
    var inside := Token(p).value.1;
    assert Token(inside).Some?;
    TokenLocal(inside, x);
    if Token(inside).value.0 != '}' {
      MembersLocal(inside, x);
    }
  }

  /** A write cut short anywhere before the closing brace leaves nothing that reads. */
  lemma {:induction false} NoStrictPrefixLoads(ms: Object, k: nat)
    requires k < |Dumps(ms)|
    ensures Loads(Dumps(ms)[..k]) == None
  {
    hide ParseObject, Dumps;
    var s := Dumps(ms);
    var p := s[..k];
    if ParseObject(p).Some? {
      assert p + s[k..] == s && s + "" == s;
      ObjectLocal(p, s[k..]);
      ObjectRoundTrip(ms, "");
    }
  }

  // ---- Written text is printable -------------------------------------------

  predicate Printable(s: string) {
    forall c | c in s :: ' ' <= c <= '~'
  }

  lemma HexPrintable(n: nat)
    requires n < 16
    ensures ' ' <= HexDigit(n) <= '~'
  {
  }

  lemma UnicodePrintable(v: nat)
    requires v < 0x1_0000
    ensures Printable(UnicodeEscape(v))
  {
    hide HexDigit;
    HexPrintable(v / 16 / 16 / 16);
    HexPrintable(v / 16 / 16 % 16);
    HexPrintable(v / 16 % 16);
    HexPrintable(v % 16);
  }

  lemma EscapePrintable(c: char)
    ensures Printable(Escape(c))
  {
    hide UnicodeEscape;
    if ShortEscape(c).None? && !(' ' <= c <= '~') {
      if c as int < 0x1_0000 {
        UnicodePrintable(c as int);
      } else {
        UnicodePrintable(0xD800 + (c as int - 0x1_0000) / 0x400);
        UnicodePrintable(0xDC00 + (c as int - 0x1_0000) % 0x400);
      }
    }
  }

  lemma {:induction false} EscapeAllPrintable(t: string)
    ensures Printable(EscapeAll(t))
  {
    if t != "" {
      EscapeAllPrintable(t[1..]);
      EscapePrintable(t[0]);
    }
  }

  lemma ScalarPrintable(v: Scalar)
    ensures Printable(ScalarText(v))
  {
    match v
    case Str(t) => EscapeAllPrintable(t);
    case Int(n) => IntTextHead(n);
    case Bool(_) =>
    case Null =>
  }

  lemma {:induction false} MembersPrintable(ms: Object)
    requires ms != []
    ensures Printable(MembersText(ms))
    decreases |ms|
  {
    EscapeAllPrintable(ms[0].key);
    ScalarPrintable(ms[0].value);
    assert Printable(MemberText(ms[0]));
    if |ms| != 1 {
      MembersPrintable(ms[1..]);
    }
  }

  /** A written object never holds a line break, or any control character. */
  lemma {:induction false} DumpsPrintable(ms: Object)
    ensures Printable(Dumps(ms))
  {
    if ms != [] {
      MembersPrintable(ms);
    }
  }
}
