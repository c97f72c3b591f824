/**
 * The names of backed-up objects: `<label>/v1/exchange=<x>/instrument=<y>/date=<d>/session=<u>.tar`.
 * Names read from a bucket listing are untrusted; printing and parsing are mutual inverses
 * exactly on the canonical ones.
 */
module ObjectName {
  import opened Wrappers
  import opened Text

  const APPROVED_LABELS: set<string> := {"r0", "u2"}
  const LAYOUT_VERSION := "v1"
  const SUFFIX := ".tar"
  const LAYOUT_KEYS: seq<string> := ["exchange", "instrument", "date", "session"]

  datatype NameError = LabelNotApproved | NotAPartitionTar | NotACanonicalPath

  // ---- Tokens, dates and session ids ---------------------------------------

  /** `[A-Za-z0-9][A-Za-z0-9._-]{0,127}`. */
  predicate IsToken(s: string) {
    && 1 <= |s| <= 128
    && IsAlnum(s[0])
    && forall i | 1 <= i < |s| :: IsAlnum(s[i]) || s[i] == '.' || s[i] == '_' || s[i] == '-'
  }

  predicate IsLeapYear(y: nat) {
    y % 4 == 0 && (y % 100 != 0 || y % 400 == 0)
  }

  function DaysInMonth(y: nat, m: nat): nat {
    if m == 2 then (if IsLeapYear(y) then 29 else 28)
    else if m == 4 || m == 6 || m == 9 || m == 11 then 30
    else 31
  }

  /** Equal to its own `date.fromisoformat(...).isoformat()`: a real day written YYYY-MM-DD. */
  predicate IsIsoDate(s: string) {
    && |s| == 10 && s[4] == '-' && s[7] == '-'
    && (forall i | 0 <= i < 10 && i != 4 && i != 7 :: IsDigit(s[i]))
    && var y := DigitValue(s[0]) * 1000 + DigitValue(s[1]) * 100 + DigitValue(s[2]) * 10 + DigitValue(s[3]);
       var m := DigitValue(s[5]) * 10 + DigitValue(s[6]);
       var d := DigitValue(s[8]) * 10 + DigitValue(s[9]);
       1 <= y && 1 <= m <= 12 && 1 <= d <= DaysInMonth(y, m)
  }

  /** Equal to its own `str(UUID(...))`: lower-case hexadecimal grouped 8-4-4-4-12. */
  predicate IsSessionId(s: string) {
    && |s| == 36
    && forall i | 0 <= i < 36 ::
         if i == 8 || i == 13 || i == 18 || i == 23 then s[i] == '-' else IsDigit(s[i]) || 'a' <= s[i] <= 'f'
  }

  lemma DatesAndIdsAreTokens(s: string)
    requires IsIsoDate(s) || IsSessionId(s)
    ensures IsToken(s)
  {
  }

  // ---- Layouts -------------------------------------------------------------

  datatype Layout = Layout(exchange: string, instrument: string, date: string, session: string)

  predicate IsCanonical(l: Layout) {
    IsToken(l.exchange) && IsToken(l.instrument) && IsIsoDate(l.date) && IsSessionId(l.session)
  }

  function KeyValue(key: string, value: string): string {
    key + "=" + value
  }

  function Parts(l: Layout): seq<string> {
    [ LAYOUT_VERSION, KeyValue("exchange", l.exchange), KeyValue("instrument", l.instrument),
      KeyValue("date", l.date), KeyValue("session", l.session) ]
  }

  /** `partition_directory(...)` relative to its root. */
  function Relative(l: Layout): string {
    Join(Parts(l), '/')
  }

  function ObjectName(rootLabel: string, relative: string): string {
    rootLabel + "/" + relative + SUFFIX
  }

  // ---- Parsing -------------------------------------------------------------

  /** The value of a `key=value` path component. */
  function Field(part: string, key: string): Option<string> {
    var (prefix, found, value) := Cut(part, '=');
    if prefix == key && found && IsToken(value) then Some(value) else None
  }

  function ParseLayout(relative: string): Option<Layout> {
    ParseParts(Split(relative, '/'))
  }

  function ParseParts(parts: seq<string>): Option<Layout> {
    if |parts| != 1 + |LAYOUT_KEYS| || parts[0] != LAYOUT_VERSION then None
    else
      var exchange :- Field(parts[1], "exchange");
      var instrument :- Field(parts[2], "instrument");
      var date :- Field(parts[3], "date");
      var session :- Field(parts[4], "session");
      if IsIsoDate(date) && IsSessionId(session) then Some(Layout(exchange, instrument, date, session)) else None
  }

  function Parse(name: string): Result<(string, string), NameError> {
    var (rootLabel, _, rest) := Cut(name, '/');
    if rootLabel !in APPROVED_LABELS then Err(LabelNotApproved)
    else if !EndsWith(rest, SUFFIX) then Err(NotAPartitionTar)
    else
      var relative := rest[..|rest| - |SUFFIX|];
      if ParseLayout(relative).None? then Err(NotACanonicalPath) else Ok((rootLabel, relative))
  }

  lemma EndsWithShorter(s: string, suffix: string)
    requires EndsWith(s, suffix)
    ensures |suffix| <= |s|
  {
  }

  // ---- Mutual inverses -----------------------------------------------------

  lemma TokenHasNoSlash(s: string)
    requires IsToken(s)
    ensures '/' !in s && '=' !in s
  {
  }

  lemma FieldOf(key: string, value: string)
    requires IsToken(value) && '=' !in key
    ensures Field(KeyValue(key, value), key) == Some(value)
  {
    CutAt(key, '=', value);
  }

  lemma PartsHaveNoSlash(l: Layout)
    requires IsCanonical(l)
    ensures forall p | p in Parts(l) :: '/' !in p
  {
    DatesAndIdsAreTokens(l.date);
    DatesAndIdsAreTokens(l.session);
    TokenHasNoSlash(l.exchange);
    TokenHasNoSlash(l.instrument);
    TokenHasNoSlash(l.date);
    TokenHasNoSlash(l.session);
  }

  lemma LayoutPrints(l: Layout)
    requires IsCanonical(l)
    ensures ParseLayout(Relative(l)) == Some(l)
  {
    hide IsIsoDate, IsSessionId, IsToken, Field;
    PartsHaveNoSlash(l);
    SplitJoin(Parts(l), '/');
    DatesAndIdsAreTokens(l.date);
    DatesAndIdsAreTokens(l.session);
    FieldOf("exchange", l.exchange);
    FieldOf("instrument", l.instrument);
    FieldOf("date", l.date);
    FieldOf("session", l.session);
  }

  /** Every canonical name parses to the very label and path it was printed from. */
  lemma {:induction false} ParsePrinted(rootLabel: string, l: Layout)
    requires rootLabel in APPROVED_LABELS && IsCanonical(l)
    ensures Parse(ObjectName(rootLabel, Relative(l))) == Ok((rootLabel, Relative(l)))
  {
    hide ParseLayout, Relative, IsCanonical;
    var rest := Relative(l) + SUFFIX;
    CutAt(rootLabel, '/', rest);
    assert ObjectName(rootLabel, Relative(l)) == rootLabel + "/" + rest;
    assert rest[|rest| - 4..] == SUFFIX && rest[..|rest| - 4] == Relative(l);
    LayoutPrints(l);
  }

  lemma FieldPrints(part: string, key: string)
    requires Field(part, key).Some?
    ensures part == KeyValue(key, Field(part, key).value) && IsToken(Field(part, key).value)
  {
    CutParts(part, '=');
  }

  lemma LayoutParses(relative: string)
    requires ParseLayout(relative).Some?
    ensures IsCanonical(ParseLayout(relative).value) && Relative(ParseLayout(relative).value) == relative
  {
    hide IsIsoDate, IsSessionId, IsToken, Field;
    var parts := Split(relative, '/');
    var l := ParseLayout(relative).value;
    FieldPrints(parts[1], "exchange");
    FieldPrints(parts[2], "instrument");
    FieldPrints(parts[3], "date");
    FieldPrints(parts[4], "session");
    JoinSplit(relative, '/');
    assert parts == Parts(l);
  }

  /** Whatever parses prints back to the name it came from, and its path is a canonical layout. */
  lemma {:induction false} PrintParsed(name: string)
    requires Parse(name).Ok?
    ensures var (rootLabel, relative) := Parse(name).value;
      && rootLabel in APPROVED_LABELS
      && ObjectName(rootLabel, relative) == name
      && (exists l :: IsCanonical(l) && relative == Relative(l))
  {
    hide ParseLayout;
    var (rootLabel, relative) := Parse(name).value;
    CutParts(name, '/');
    LayoutParses(relative);
    var rest := Cut(name, '/').2;
    assert rest == relative + SUFFIX;
    assert name == rootLabel + "/" + rest;
  }

  /** The accepted names are exactly the printed canonical ones. */
  lemma {:induction false} AcceptedExactly(name: string)
    ensures Parse(name).Ok? <==>
            exists rootLabel, l :: rootLabel in APPROVED_LABELS && IsCanonical(l) && name == ObjectName(rootLabel, Relative(l))
  {
    if Parse(name).Ok? {
      PrintParsed(name);
    }
    if rootLabel, l :| rootLabel in APPROVED_LABELS && IsCanonical(l) && name == ObjectName(rootLabel, Relative(l)) {
      ParsePrinted(rootLabel, l);
    }
  }

  /** A name, written out. */
  lemma {:induction false} NameText(rootLabel: string, l: Layout)
    ensures Relative(l) == "v1/exchange=" + l.exchange + "/instrument=" + l.instrument + "/date=" + l.date + "/session=" + l.session
    ensures ObjectName(rootLabel, Relative(l)) == rootLabel + "/" + Relative(l) + ".tar"
  {
    JoinFive("v1", KeyValue("exchange", l.exchange), KeyValue("instrument", l.instrument), KeyValue("date", l.date),
             KeyValue("session", l.session));
    hide Join;
    var x := "v1/exchange=" + l.exchange;
    var y := x + "/instrument=" + l.instrument;
    var z := y + "/date=" + l.date;
    Glue("v1", "exchange", "/exchange=", l.exchange);
    assert "v1" + "/exchange=" == "v1/exchange=";
    Glue(x, "instrument", "/instrument=", l.instrument);
    Glue(y, "date", "/date=", l.date);
    Glue(z, "session", "/session=", l.session);
  }

  lemma Glue(path: string, key: string, lead: string, value: string)
    requires lead == "/" + key + "="
    ensures path + "/" + KeyValue(key, value) == path + lead + value
  {
    assert path + "/" + (key + "=" + value) == path + ("/" + key + "=") + value;
  }

  lemma JoinFive(a: string, b: string, c: string, d: string, e: string)
    ensures Join([a, b, c, d, e], '/') == a + "/" + b + "/" + c + "/" + d + "/" + e
  {
    JoinMore(a, [b, c, d, e]);
    JoinMore(b, [c, d, e]);
    JoinMore(c, [d, e]);
    JoinMore(d, [e]);
    assert Join([e], '/') == e;
    hide Join;
  }

  lemma JoinMore(a: string, rest: seq<string>)
    requires rest != []
    ensures Join([a] + rest, '/') == a + "/" + Join(rest, '/')
  {
    assert ([a] + rest)[1..] == rest;
  }

  /** What precedes the first slash, or all of the name. */
  predicate LabelOf(rootLabel: string, name: string) {
    '/' !in rootLabel && (name == rootLabel || rootLabel + "/" <= name)
  }

  /** A label, a slash, anything, and the suffix. */
  ghost predicate NamesATar(rootLabel: string, name: string) {
    exists x :: name == rootLabel + "/" + x + ".tar"
  }

  lemma LabelIs(rootLabel: string, name: string)
    ensures LabelOf(rootLabel, name) <==> rootLabel == Cut(name, '/').0
  {
    if Cut(name, '/').1 {
      CutParts(name, '/');
    }
    if LabelOf(rootLabel, name) && name != rootLabel {
      assert name == rootLabel + ['/'] + name[|rootLabel| + 1..];
      CutAt(rootLabel, '/', name[|rootLabel| + 1..]);
    }
  }

  lemma TarIs(rootLabel: string, name: string)
    requires rootLabel == Cut(name, '/').0
    ensures NamesATar(rootLabel, name) <==> EndsWith(Cut(name, '/').2, SUFFIX)
  {
    if Cut(name, '/').1 {
      CutParts(name, '/');
    }
    var rest := Cut(name, '/').2;
    assert '/' !in rootLabel;
    if EndsWith(rest, SUFFIX) {
      var x := rest[..|rest| - |SUFFIX|];
      assert name == rootLabel + "/" + x + ".tar";
    }
    if x :| name == rootLabel + "/" + x + ".tar" {
      CutAt(rootLabel, '/', x + ".tar");
      assert name == rootLabel + ['/'] + (x + ".tar");
      assert (x + ".tar")[|x|..] == ".tar";
    }
  }

  /** Which names are refused, and as what: the label is looked at first, then the suffix, then the path. */
  lemma {:induction false} RefusedAs(name: string)
    ensures Parse(name) == Err(LabelNotApproved) <==> !LabelOf("r0", name) && !LabelOf("u2", name)
    ensures Parse(name) == Err(NotAPartitionTar) <==>
            || (LabelOf("r0", name) && !NamesATar("r0", name))
            || (LabelOf("u2", name) && !NamesATar("u2", name))
    ensures Parse(name) == Err(NotACanonicalPath) <==>
            && ((LabelOf("r0", name) && NamesATar("r0", name)) || (LabelOf("u2", name) && NamesATar("u2", name)))
            && !Parse(name).Ok?
  {
    hide ParseLayout, LabelOf, NamesATar, EndsWith, Cut;
    LabelIs("r0", name);
    LabelIs("u2", name);
    TarIs(Cut(name, '/').0, name);
    assert "r0"[0] != "u2"[0];
  }

  // ---- Where a restore writes ----------------------------------------------

  /** Components applied one by one to an absolute path, `.` and `..` included. */
  function Resolve(base: seq<string>, components: seq<string>): seq<string>
    decreases |components|
  {
    if components == [] then base
    else
      var c := components[0];
      var next := if c == "" || c == "." then base
                  else if c == ".." then (if base == [] then [] else base[..|base| - 1])
                  else base + [c];
      Resolve(next, components[1..])
  }

  predicate IsPlain(c: string) {
    c != "" && c != "." && c != ".."
  }

  lemma {:induction false} ResolvePlain(base: seq<string>, components: seq<string>)
    requires forall c | c in components :: IsPlain(c)
    ensures Resolve(base, components) == base + components
    decreases |components|
  {
    if components == [] {
      assert base + [] == base;
    } else {
      assert IsPlain(components[0]);
      ResolvePlain(base + [components[0]], components[1..]);
      assert base + components == base + [components[0]] + components[1..];
    }
  }

  lemma PartsArePlain(rootLabel: string, l: Layout)
    requires rootLabel in APPROVED_LABELS
    ensures forall c | c in [rootLabel] + Parts(l) :: IsPlain(c)
  {
    forall c | c in [rootLabel] + Parts(l) ensures IsPlain(c) {
      assert 2 <= |c| && c[0] != '.';
    }
  }

  /** An accepted name restores to a path strictly below the destination, one component per part. */
  lemma {:induction false} RestoreStaysInside(name: string, root: seq<string>)
    requires Parse(name).Ok?
    ensures var (rootLabel, relative) := Parse(name).value;
      var components := [rootLabel] + Split(relative, '/');
      && (forall c | c in components :: IsPlain(c))
      && |components| == 6
      && Resolve(root, components) == root + components
  {
    var (rootLabel, relative) := Parse(name).value;
    PrintParsed(name);
    var l :| IsCanonical(l) && relative == Relative(l);
    hide IsCanonical, IsPlain, Resolve, Parse;
    PartsHaveNoSlash(l);
    SplitJoin(Parts(l), '/');
    PartsArePlain(rootLabel, l);
    ResolvePlain(root, [rootLabel] + Parts(l));
  }

  // ---- The loop ------------------------------------------------------------

  /** The four fields, collected in one pass over the path components. */
  method ReadFields(parts: seq<string>) returns (l: Option<Layout>)
    ensures l == ParseParts(parts)
  {
    hide IsToken, IsIsoDate, IsSessionId, Cut;
    if |parts| != 1 + |LAYOUT_KEYS| || parts[0] != LAYOUT_VERSION {
      return None;
    }
    var values: seq<string> := [];
    for i := 0 to |LAYOUT_KEYS|
      invariant |values| == i
      invariant forall j | 0 <= j < i :: Field(parts[j + 1], LAYOUT_KEYS[j]) == Some(values[j])
    {
      var (prefix, separator, value) := Cut(parts[i + 1], '=');
      if prefix != LAYOUT_KEYS[i] || !separator || !IsToken(value) {
        assert Field(parts[i + 1], LAYOUT_KEYS[i]).None?;
        return None;
      }
      values := values + [value];
    }
    if !IsIsoDate(values[2]) || !IsSessionId(values[3]) {
      return None;
    }
    return Some(Layout(values[0], values[1], values[2], values[3]));
  }

  /** `parse_object_name`. */
  method ParseObjectName(name: string) returns (r: Result<(string, string), NameError>)
    ensures r == Parse(name)
  {
    hide EndsWith, ParseParts;
    var (rootLabel, _, rest) := Cut(name, '/');
    if rootLabel !in APPROVED_LABELS {
      return Err(LabelNotApproved);
    }
    if !EndsWith(rest, SUFFIX) {
      return Err(NotAPartitionTar);
    }
    assert |SUFFIX| <= |rest| by { EndsWithShorter(rest, SUFFIX); }
    var relative := rest[..|rest| - |SUFFIX|];
    var layout := ReadFields(Split(relative, '/'));
    if layout.None? {
      return Err(NotACanonicalPath);
    }
    return Ok((rootLabel, relative));
  }
}
