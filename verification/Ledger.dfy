/**
 * The append-only backup ledger: its lines, the fold that reads them, and the
 * appender that closes off a torn line before writing the next one.
 *
 * The file is modelled as its decoded text. Everything the appender writes is
 * printable ASCII (`FlatJson.DumpsPrintable`), so cutting the written bytes
 * anywhere is cutting the text at the same place.
 */
module Ledger {
  import opened Wrappers
  import opened FlatJson

  const UPLOADED := "UPLOADED"
  const REMOTE_EXISTS_UNVERIFIED := "REMOTE_EXISTS_UNVERIFIED"
  const RESTORE_VERIFIED := "RESTORE_VERIFIED"

  datatype State = Uploaded | RemoteExistsUnverified | RestoreVerified

  /** What the reader keeps for one object. */
  datatype Entry = Entry(manifestHash: string, tarSha: string, size: int, firstAt: int, state: State)

  /** One line as it is written. */
  datatype Record = Record(name: string, manifestHash: string, tarSha: string, size: int, at: int, outcome: string)

  datatype Reading = Reading(entries: map<string, Entry>, inconsistent: set<string>)

  const NOTHING := Reading(map[], {})

  // ---- One line ------------------------------------------------------------

  /** The members in key order, as `sort_keys=True` writes them. */
  function ToObject(r: Record): Object {
    [ Member("at", Int(r.at)), Member("bytes", Int(r.size)),
      Member("manifest_content_hash", Str(r.manifestHash)), Member("object", Str(r.name)),
      Member("outcome", Str(r.outcome)), Member("tar_sha256", Str(r.tarSha)) ]
  }

  function Encode(r: Record): string {
    Dumps(ToObject(r))
  }

  /** `str(value)`. */
  function PyStr(v: Scalar): string {
    match v
    case Str(t) => t
    case Int(n) => IntText(n)
    case Bool(b) => if b then "True" else "False"
    case Null => "None"
  }

  /** `int(value)`; a string reads only when it is a plain decimal. */
  function PyInt(v: Scalar): Option<int> {
    match v
    case Str(t) =>
      var (n, rest) :- ParseInt(t);
      if rest == "" then Some(n) else None
    case Int(n) => Some(n)
    case Bool(b) => Some(if b then 1 else 0)
    case Null => None
  }

  function Decode(line: string): Option<Record> {
    var o :- Loads(line);
    var name :- Lookup(o, "object");
    var manifestHash :- Lookup(o, "manifest_content_hash");
    var tarSha :- Lookup(o, "tar_sha256");
    var bytes :- Lookup(o, "bytes");
    var size :- PyInt(bytes);
    var clock :- Lookup(o, "at");
    var at :- PyInt(clock);
    var outcome := Lookup(o, "outcome");
    Some(Record(PyStr(name), PyStr(manifestHash), PyStr(tarSha), size, at,
                if outcome.Some? then PyStr(outcome.value) else "None"))
  }

  lemma LookupWritten(r: Record)
    ensures Lookup(ToObject(r), "at") == Some(Int(r.at))
    ensures Lookup(ToObject(r), "bytes") == Some(Int(r.size))
    ensures Lookup(ToObject(r), "manifest_content_hash") == Some(Str(r.manifestHash))
    ensures Lookup(ToObject(r), "object") == Some(Str(r.name))
    ensures Lookup(ToObject(r), "outcome") == Some(Str(r.outcome))
    ensures Lookup(ToObject(r), "tar_sha256") == Some(Str(r.tarSha))
  {
    hide Lookup;
    var o := ToObject(r);
    LookupAt(o, 0);
    LookupAt(o, 1);
    LookupAt(o, 2);
    LookupAt(o, 3);
    LookupAt(o, 4);
    LookupAt(o, 5);
  }

  /** A written line reads back as exactly the record that was written. */
  lemma {:induction false} DecodeEncode(r: Record)
    ensures Decode(Encode(r)) == Some(r)
  {
    LoadsDumps(ToObject(r));
    LookupWritten(r);
  }

  /**
   * What any flat object reads as: its six fields by name, the last of each; a record exactly
   * when five of them are there and the two numbers read. Without an outcome it has none.
   */
  lemma {:induction false} DecodeObject(o: Object)
    ensures Decode(Dumps(o)) == None <==>
      || Lookup(o, "object") == None || Lookup(o, "manifest_content_hash") == None || Lookup(o, "tar_sha256") == None
      || Lookup(o, "bytes") == None || Lookup(o, "at") == None
      || PyInt(Lookup(o, "bytes").value) == None || PyInt(Lookup(o, "at").value) == None
    ensures forall name: string, manifestHash: string, tarSha: string, size: int, at: int, outcome: string
      | && Lookup(o, "object") == Some(Str(name)) && Lookup(o, "manifest_content_hash") == Some(Str(manifestHash))
        && Lookup(o, "tar_sha256") == Some(Str(tarSha)) && Lookup(o, "bytes") == Some(Int(size)) && Lookup(o, "at") == Some(Int(at))
        && (Lookup(o, "outcome") == Some(Str(outcome)) || (Lookup(o, "outcome") == None && outcome == "None")) ::
      Decode(Dumps(o)) == Some(Record(name, manifestHash, tarSha, size, at, outcome))
  {
    LoadsDumps(o);
    hide Loads, Dumps, Lookup;
  }

  // ---- Lines of a text -----------------------------------------------------

  /** The characters `str.splitlines` ends a line at. */
  predicate IsBreak(c: char) {
    '\n' <= c <= '\r' || '\U{001C}' <= c <= '\U{001E}' || c == '\U{0085}' || c == '\U{2028}' || c == '\U{2029}'
  }

  /** Index of the first line break, or the length. */
  function FirstBreak(s: string): (k: nat)
    ensures k <= |s| && (forall i | 0 <= i < k :: !IsBreak(s[i])) && (k < |s| ==> IsBreak(s[k]))
  {
    if s == "" || IsBreak(s[0]) then 0 else 1 + FirstBreak(s[1..])
  }

  /** A carriage return followed by a line feed is one break. */
  function BreakWidth(s: string, k: nat): (w: nat)
    requires k < |s|
    ensures 1 <= w && k + w <= |s|
  {
    if s[k] == '\r' && k + 1 < |s| && s[k + 1] == '\n' then 2 else 1
  }

  function Lines(s: string): seq<string>
    decreases |s|
  {
    var k := FirstBreak(s);
    if k == |s| then (if s == "" then [] else [s])
    else [s[..k]] + Lines(s[k + BreakWidth(s, k)..])
  }

  lemma FirstBreakAt(s: string, k: nat)
    requires k < |s| && (forall i | 0 <= i < k :: !IsBreak(s[i])) && IsBreak(s[k])
    ensures FirstBreak(s) == k
  {
    hide FirstBreak, IsBreak;
    var f := FirstBreak(s);
    assert f < |s| ==> IsBreak(s[f]);
  }

  lemma LinesSplit(s: string, k: nat, w: nat)
    requires k < |s| && (forall i | 0 <= i < k :: !IsBreak(s[i])) && IsBreak(s[k])
    requires w == BreakWidth(s, k)
    ensures Lines(s) == [s[..k]] + Lines(s[k + w..])
  {
    hide FirstBreak, IsBreak, BreakWidth;
    FirstBreakAt(s, k);
  }

  lemma LinesUnbroken(s: string)
    requires s != "" && forall i | 0 <= i < |s| :: !IsBreak(s[i])
    ensures Lines(s) == [s]
  {
    assert FirstBreak(s) == |s|;
  }

  lemma Slices(a: string, b: string, i: nat)
    requires i <= |a|
    ensures (a + b)[..i] == a[..i] && (a + b)[i..] == a[i..] + b
  {
  }

  lemma EmptyLines()
    ensures Lines("") == []
  {
  }

  lemma Reassociate<T>(a: seq<T>, b: seq<T>, c: seq<T>)
    ensures a + (b + c) == a + b + c
  {
  }

  lemma SameFirstBreak(a: string, b: string, k: nat)
    requires k == FirstBreak(a) < |a|
    requires a[|a| - 1] == '\n'
    ensures FirstBreak(a + b) == k && BreakWidth(a + b, k) == BreakWidth(a, k)
  {
  }

  lemma EndsInBreak(a: string)
    requires a != "" && a[|a| - 1] == '\n'
    ensures FirstBreak(a) < |a|
  {
    assert IsBreak(a[|a| - 1]);
  }

  lemma BreakIn(a: string, b: string) returns (head: string, rest: string)
    requires a != "" && a[|a| - 1] == '\n'
    ensures Lines(a + b) == [head] + Lines(rest + b) && Lines(a) == [head] + Lines(rest)
    ensures |rest| < |a| && (rest == "" || rest[|rest| - 1] == '\n')
  {
    hide IsBreak, BreakWidth, Lines;
    EndsInBreak(a);
    var k := FirstBreak(a);
    var w := BreakWidth(a, k);
    head, rest := a[..k], a[k + w..];
    SameFirstBreak(a, b, k);
    hide FirstBreak;
    LinesSplit(a, k, w);
    LinesSplit(a + b, k, w);
    Slices(a, b, k);
    Slices(a, b, k + w);
  }

  lemma {:induction false} LinesAfterNewline(a: string, b: string)
    requires a == "" || a[|a| - 1] == '\n'
    ensures Lines(a + b) == Lines(a) + Lines(b)
    decreases |a|
  {
    hide Lines;
    if a == "" {
      EmptyLines();
      assert a + b == b && [] + Lines(b) == Lines(b);
    } else {
      var head, rest := BreakIn(a, b);
      LinesAfterNewline(rest, b);
      Reassociate([head], Lines(rest), Lines(b));
    }
  }

  lemma LoneNewline()
    ensures Lines("\n") == [""]
  {
    LinesSplit("\n", 0, 1);
    assert "\n"[1..] == "" && "\n"[..0] == "";
  }

  /** Closing a text that does not end in a newline adds at most one empty line. */
  lemma {:induction false} LinesClosed(a: string)
    requires a != "" && a[|a| - 1] != '\n'
    ensures Lines(a + "\n") == Lines(a) || Lines(a + "\n") == Lines(a) + [""]
    decreases |a|
  {
    hide Lines;
    var k := FirstBreak(a);
    var s := a + "\n";
    var w := BreakWidth(s, k);
    Slices(a, "\n", k);
    LinesSplit(s, k, w);
    if k == |a| {
      LinesUnbroken(a);
      EmptyLines();
      assert s[k + 1..] == "" && a[..k] == a;
    } else {
      var v := BreakWidth(a, k);
      LinesSplit(a, k, v);
      if k + v < |a| {
        Slices(a, "\n", k + v);
        LinesClosed(a[k + v..]);
      } else {
        assert a[k + v..] == "" && (s[k + w..] == "" || s[k + w..] == "\n");
        LoneNewline();
        EmptyLines();
      }
    }
  }

  // ---- The reader's fold ---------------------------------------------------

  function StateOf(outcome: string): State {
    if outcome == UPLOADED then Uploaded
    else if outcome == RESTORE_VERIFIED then RestoreVerified
    else RemoteExistsUnverified
  }

  function EntryOf(r: Record): Entry {
    Entry(r.manifestHash, r.tarSha, r.size, r.at, StateOf(r.outcome))
  }

  predicate SameContent(e: Entry, r: Record) {
    e.manifestHash == r.manifestHash && e.tarSha == r.tarSha
  }

  /** One record folded into what was read so far. */
  function Fold(g: Reading, r: Record): Reading {
    if r.name !in g.entries then
      if StateOf(r.outcome).RestoreVerified? then g.(inconsistent := g.inconsistent + {r.name})
      else g.(entries := g.entries[r.name := EntryOf(r)])
    else if !SameContent(g.entries[r.name], r) then g.(inconsistent := g.inconsistent + {r.name})
    else if StateOf(r.outcome).RestoreVerified? then
      g.(entries := g.entries[r.name := g.entries[r.name].(state := RestoreVerified)])
    else g
  }

  function FoldAll(g: Reading, rs: seq<Record>): Reading {
    if rs == [] then g else Fold(FoldAll(g, rs[..|rs| - 1]), rs[|rs| - 1])
  }

  /** The records of the lines that parse, in order. */
  function Records(lines: seq<string>): seq<Record> {
    if lines == [] then []
    else
      var before := Records(lines[..|lines| - 1]);
      match Decode(lines[|lines| - 1])
      case Some(r) => before + [r]
      case None => before
  }

  function RecordsOf(text: string): seq<Record> {
    Records(Lines(text))
  }

  function Read(text: string): Reading {
    FoldAll(NOTHING, RecordsOf(text))
  }

  lemma {:induction false} RecordsAppend(a: seq<string>, b: seq<string>)
    ensures Records(a + b) == Records(a) + Records(b)
    decreases |b|
  {
    if b == [] {
      assert a + b == a;
    } else {
      var front := b[..|b| - 1];
      assert (a + b)[..|a + b| - 1] == a + front;
      RecordsAppend(a, front);
    }
  }

  lemma {:induction false} FoldAllAppend(g: Reading, a: seq<Record>, b: seq<Record>)
    ensures FoldAll(g, a + b) == FoldAll(FoldAll(g, a), b)
    decreases |b|
  {
    if b == [] {
      assert a + b == a;
    } else {
      var front := b[..|b| - 1];
      assert (a + b)[..|a + b| - 1] == a + front;
      FoldAllAppend(g, a, front);
    }
  }

  // ---- What the fold means -------------------------------------------------

  /** The line that fixes what was sent under `n`: the first that is not a verification. */
  ghost predicate IsOrigin(rs: seq<Record>, n: string, i: nat) {
    && i < |rs| && rs[i].name == n && rs[i].outcome != "RESTORE_VERIFIED"
    && forall j | 0 <= j < i && rs[j].name == n :: rs[j].outcome == "RESTORE_VERIFIED"
  }

  ghost function Origin(rs: seq<Record>, n: string): (o: Option<nat>)
    ensures o.Some? ==> IsOrigin(rs, n, o.value)
    ensures o.None? ==> forall i: nat :: !IsOrigin(rs, n, i)
  {
    if exists i: nat :: IsOrigin(rs, n, i) then (var i: nat :| IsOrigin(rs, n, i); Some(i)) else None
  }

  ghost predicate SameSent(a: Record, b: Record) {
    a.manifestHash == b.manifestHash && a.tarSha == b.tarSha
  }

  /** A later verification of the very content the origin line names. */
  ghost predicate VerifiedLater(rs: seq<Record>, i: nat)
    requires i < |rs|
  {
    exists j :: i < j < |rs| && rs[j].name == rs[i].name && rs[j].outcome == "RESTORE_VERIFIED" && SameSent(rs[i], rs[j])
  }

  /**
   * The closed form of reading one name, by positions in the list alone. Without an
   * origin nothing was sent, and any line naming it is a stray verification. With one,
   * it fixes hashes, size and time, and only a later agreeing verification upgrades it;
   * failing that, the entry is UPLOADED if the origin says so in these words, and unverified
   * whatever else it says. The name disagrees when a line precedes the origin or names other
   * content.
   */
  ghost predicate Means(g: Reading, rs: seq<Record>, n: string) {
    match Origin(rs, n)
    case None =>
      && n !in g.entries
      && (n in g.inconsistent <==> exists j :: 0 <= j < |rs| && rs[j].name == n)
    case Some(i) =>
      && n in g.entries
      && var e := g.entries[n];
      && e.manifestHash == rs[i].manifestHash && e.tarSha == rs[i].tarSha && e.size == rs[i].size && e.firstAt == rs[i].at
      && (e.state.RestoreVerified? <==> VerifiedLater(rs, i))
      && (e.state.Uploaded? <==> !VerifiedLater(rs, i) && rs[i].outcome == "UPLOADED")
      && (n in g.inconsistent <==>
          exists j :: 0 <= j < |rs| && rs[j].name == n && (j < i || !SameSent(rs[i], rs[j])))
  }

  lemma {:induction false} OriginAbsent(rs: seq<Record>, n: string)
    requires Origin(rs, n).None?
    ensures forall j | 0 <= j < |rs| && rs[j].name == n :: rs[j].outcome == RESTORE_VERIFIED
  {
    if j: nat :| j < |rs| && rs[j].name == n && rs[j].outcome != RESTORE_VERIFIED {
      FirstOrigin(rs, n, j);
    }
  }

  lemma FirstOrigin(rs: seq<Record>, n: string, j: nat)
    requires j < |rs| && rs[j].name == n && rs[j].outcome != RESTORE_VERIFIED
    ensures exists i: nat :: IsOrigin(rs, n, i)
    decreases j
  {
    if k: nat :| k < j && rs[k].name == n && rs[k].outcome != RESTORE_VERIFIED {
      FirstOrigin(rs, n, k);
    } else {
      assert IsOrigin(rs, n, j);
    }
  }

  lemma OriginUnique(rs: seq<Record>, n: string, i: nat)
    requires IsOrigin(rs, n, i)
    ensures Origin(rs, n) == Some(i)
  {
  }

  lemma OriginOfExtended(s: seq<Record>, rs: seq<Record>, n: string)
    requires s != [] && rs == s[..|s| - 1]
    ensures Origin(rs, n).Some? ==> Origin(s, n) == Origin(rs, n)
    ensures Origin(rs, n).None? ==>
              Origin(s, n) == if s[|rs|].name == n && s[|rs|].outcome != RESTORE_VERIFIED then Some(|rs|) else None
  {
    assert forall j {:trigger s[j]} {:trigger rs[j]} | 0 <= j < |rs| :: s[j] == rs[j];
    match Origin(rs, n) {
      case Some(i) =>
        assert IsOrigin(s, n, i);
        OriginUnique(s, n, i);
      case None =>
        OriginAbsent(rs, n);
        if s[|rs|].name == n && s[|rs|].outcome != RESTORE_VERIFIED {
          assert IsOrigin(s, n, |rs|);
          OriginUnique(s, n, |rs|);
        }
    }
  }

  lemma FoldStepMeans(s: seq<Record>, rs: seq<Record>, g: Reading, n: string)
    requires s != [] && rs == s[..|s| - 1]
    requires Means(g, rs, n)
    ensures Means(Fold(g, s[|rs|]), s, n)
  {
    match Origin(rs, n)
    case None => FoldStepNew(s, rs, g, n);
    case Some(i) => FoldStepKnown(s, rs, g, n, i);
  }

  lemma FoldStepNew(s: seq<Record>, rs: seq<Record>, g: Reading, n: string)
    requires s != [] && rs == s[..|s| - 1]
    requires Means(g, rs, n) && Origin(rs, n) == None
    ensures Means(Fold(g, s[|rs|]), s, n)
  {
    OriginOfExtended(s, rs, n);
    assert forall j {:trigger s[j]} {:trigger rs[j]} | 0 <= j < |rs| :: s[j] == rs[j];
    OriginAbsent(rs, n);
    if n in g.inconsistent {
      var j :| 0 <= j < |rs| && rs[j].name == n;
      assert s[j].name == n;
    }
  }

  lemma FoldStepKnown(s: seq<Record>, rs: seq<Record>, g: Reading, n: string, i: nat)
    requires s != [] && rs == s[..|s| - 1]
    requires Means(g, rs, n) && Origin(rs, n) == Some(i)
    ensures Means(Fold(g, s[|rs|]), s, n)
  {
    OriginOfExtended(s, rs, n);
    assert forall j {:trigger s[j]} {:trigger rs[j]} | 0 <= j < |rs| :: s[j] == rs[j];
    hide Origin;
    if VerifiedLater(rs, i) {
      var j :| i < j < |rs| && rs[j].name == n && rs[j].outcome == RESTORE_VERIFIED && SameSent(rs[i], rs[j]);
      assert s[j] == rs[j];
    }
  }

  /** Reading means what the closed form says, for every list of records and every name. */
  lemma {:induction false} FoldMeans(rs: seq<Record>, n: string)
    ensures Means(FoldAll(NOTHING, rs), rs, n)
  {
    if rs != [] {
      FoldMeans(rs[..|rs| - 1], n);
      FoldStepMeans(rs, rs[..|rs| - 1], FoldAll(NOTHING, rs[..|rs| - 1]), n);
    }
  }

  // ---- Appending, and being cut off while appending ------------------------

  /** Closes off a text that does not end in a newline. */
  function Lead(text: string): string {
    if text != "" && text[|text| - 1] != '\n' then "\n" else ""
  }

  /** Everything one append writes. */
  function AppendText(text: string, r: Record): string {
    Lead(text) + Encode(r) + "\n"
  }

  lemma LeadReadsNothing(text: string)
    ensures RecordsOf(text + Lead(text)) == RecordsOf(text)
  {
    if Lead(text) == "" {
      assert text + "" == text;
    } else {
      LinesClosed(text);
      assert Decode("").None?;
      RecordsAppend(Lines(text), [""]);
    }
  }

  lemma OneLine(line: string)
    ensures Records([line]) == match Decode(line) case Some(r) => [r] case None => []
  {
    assert [line][..0] == [];
  }

  /** No part of a written object holds a line break. */
  lemma DumpsUnbroken(o: Object, j: nat)
    requires j <= |Dumps(o)|
    ensures forall i | 0 <= i < j :: !IsBreak(Dumps(o)[..j][i])
  {
    DumpsPrintable(o);
    hide Dumps;
    forall i | 0 <= i < j ensures !IsBreak(Dumps(o)[..j][i]) {
      assert Dumps(o)[i] in Dumps(o);
    }
  }

  /** The records of the first `j` characters of an encoded line. */
  lemma PartOfALine(r: Record, j: nat)
    requires j <= |Encode(r)|
    ensures RecordsOf(Encode(r)[..j]) == if j < |Encode(r)| then [] else [r]
  {
    DumpsUnbroken(ToObject(r), j);
    if j == 0 {
      EmptyLines();
      assert Encode(r)[..0] == "";
    } else {
      LinesUnbroken(Encode(r)[..j]);
      OneLine(Encode(r)[..j]);
    }
    if j < |Encode(r)| {
      NoStrictPrefixLoads(ToObject(r), j);
    } else {
      assert Encode(r)[..j] == Encode(r);
      DecodeEncode(r);
    }
  }

  lemma LinesOfObject(o: Object)
    ensures Lines(Dumps(o) + "\n") == [Dumps(o)]
  {
    var line := Dumps(o);
    DumpsUnbroken(o, |line|);
    hide Dumps;
    assert line[..|line|] == line;
    LinesSplit(line + "\n", |line|, 1);
    assert (line + "\n")[..|line|] == line && (line + "\n")[|line| + 1..] == "";
    EmptyLines();
  }

  lemma WholeLine(r: Record)
    ensures RecordsOf(Encode(r) + "\n") == [r]
  {
    LinesOfObject(ToObject(r));
    OneLine(Encode(r));
    DecodeEncode(r);
  }

  lemma AfterLead(text: string, tail: string)
    ensures RecordsOf(text + Lead(text) + tail) == RecordsOf(text) + RecordsOf(tail)
  {
    LeadReadsNothing(text);
    var closed := text + Lead(text);
    LinesAfterNewline(closed, tail);
    RecordsAppend(Lines(closed), Lines(tail));
  }

  /** The first `k` characters of an append: the lead, then a part of the line or all of it. */
  lemma Cut(text: string, r: Record, k: nat)
    requires |Lead(text)| <= k <= |AppendText(text, r)|
    ensures text + AppendText(text, r)[..k] ==
            text + Lead(text) + if k < |AppendText(text, r)| then Encode(r)[..k - |Lead(text)|] else Encode(r) + "\n"
  {
    hide Encode;
    var whole := AppendText(text, r);
    if k < |whole| {
      assert whole[..k] == Lead(text) + Encode(r)[..k - |Lead(text)|];
    } else {
      assert whole[..k] == Lead(text) + (Encode(r) + "\n");
    }
  }

  /**
   * Crash atomicity. However many characters of an append reach the file, the reader
   * sees either the old records or the old records and exactly this one; it sees the
   * new one precisely when at most the final newline is missing.
   */
  lemma {:induction false} TornAppend(text: string, r: Record, k: nat)
    requires k <= |AppendText(text, r)|
    ensures RecordsOf(text + AppendText(text, r)[..k]) ==
            RecordsOf(text) + if k + 1 < |AppendText(text, r)| then [] else [r]
  {
    hide Encode, RecordsOf;
    if k < |Lead(text)| {
      assert text + AppendText(text, r)[..k] == text;
    } else if k < |AppendText(text, r)| {
      Cut(text, r, k);
      AfterLead(text, Encode(r)[..k - |Lead(text)|]);
      PartOfALine(r, k - |Lead(text)|);
    } else {
      Cut(text, r, k);
      AfterLead(text, Encode(r) + "\n");
      WholeLine(r);
    }
  }

  lemma FoldOne(g: Reading, rs: seq<Record>, r: Record)
    ensures FoldAll(g, rs + [r]) == Fold(FoldAll(g, rs), r)
  {
    assert (rs + [r])[..|rs|] == rs;
  }

  lemma RecordsNext(lines: seq<string>, i: nat)
    requires i < |lines|
    ensures Records(lines[..i + 1]) ==
            match Decode(lines[i]) case None => Records(lines[..i]) case Some(r) => Records(lines[..i]) + [r]
  {
    hide Decode;
    assert lines[..i + 1][..i] == lines[..i];
  }

  lemma NothingRead()
    ensures FoldAll(NOTHING, Records([])) == NOTHING
  {
  }

  lemma {:induction false} TornAppendRead(text: string, r: Record, k: nat)
    requires k <= |AppendText(text, r)|
    ensures Read(text + AppendText(text, r)[..k]) ==
            if k + 1 < |AppendText(text, r)| then Read(text) else Fold(Read(text), r)
  {
    hide AppendText, RecordsOf, Fold, FoldAll;
    TornAppend(text, r, k);
    FoldOne(NOTHING, RecordsOf(text), r);
    assert RecordsOf(text) + [] == RecordsOf(text);
  }

  /** A finished append adds exactly its record. */
  lemma AppendRead(text: string, r: Record)
    ensures RecordsOf(text + AppendText(text, r)) == RecordsOf(text) + [r]
    ensures Read(text + AppendText(text, r)) == Fold(Read(text), r)
  {
    var k := |AppendText(text, r)|;
    assert AppendText(text, r)[..k] == AppendText(text, r);
    TornAppend(text, r, k);
    TornAppendRead(text, r, k);
  }

  /** A newline too many changes nothing that reads. */
  lemma BlankLineReads(text: string)
    ensures Read(text + "\n") == Read(text)
  {
    if Lead(text) == "" {
      LinesAfterNewline(text, "\n");
      LoneNewline();
      assert Decode("").None?;
      RecordsAppend(Lines(text), [""]);
    } else {
      LeadReadsNothing(text);
    }
  }

  /** An attempt to append: the record, and how much of its text reached the file. */
  datatype Attempt = Attempt(record: Record, written: nat)

  function Write(text: string, a: Attempt): string {
    var whole := AppendText(text, a.record);
    text + whole[..if a.written < |whole| then a.written else |whole|]
  }

  /** What an attempt leaves reads as before, or as with its record. */
  lemma WriteReads(text: string, a: Attempt)
    ensures Read(Write(text, a)) == Read(text) || Read(Write(text, a)) == Fold(Read(text), a.record)
  {
    hide Read, Fold, AppendText;
    var whole := AppendText(text, a.record);
    TornAppendRead(text, a.record, if a.written < |whole| then a.written else |whole|);
  }

  predicate Survives(text: string, a: Attempt) {
    |AppendText(text, a.record)| <= a.written + 1
  }

  function WriteAll(text: string, attempts: seq<Attempt>): string
    decreases |attempts|
  {
    if attempts == [] then text else WriteAll(Write(text, attempts[0]), attempts[1..])
  }

  function Survivors(text: string, attempts: seq<Attempt>): seq<Record>
    decreases |attempts|
  {
    if attempts == [] then []
    else
      (if Survives(text, attempts[0]) then [attempts[0].record] else [])
      + Survivors(Write(text, attempts[0]), attempts[1..])
  }

  /** Any number of appends, each cut off anywhere: what reads is what survived, in order. */
  lemma {:induction false} AnyAppends(text: string, attempts: seq<Attempt>)
    ensures RecordsOf(WriteAll(text, attempts)) == RecordsOf(text) + Survivors(text, attempts)
    decreases |attempts|
  {
    if attempts != [] {
      var a := attempts[0];
      var whole := AppendText(text, a.record);
      TornAppend(text, a.record, if a.written < |whole| then a.written else |whole|);
      AnyAppends(Write(text, a), attempts[1..]);
    }
  }

  // ---- Reading only ever gains ---------------------------------------------

  /** Later lines never drop an entry, change what it says was sent, or undo a verification. */
  ghost predicate Grows(g: Reading, h: Reading) {
    && g.inconsistent <= h.inconsistent
    && forall n | n in g.entries ::
         && n in h.entries
         && (h.entries[n] == g.entries[n] || h.entries[n] == g.entries[n].(state := RestoreVerified))
  }

  lemma {:induction false} FoldGrows(g: Reading, rs: seq<Record>)
    ensures Grows(g, FoldAll(g, rs))
  {
    if rs != [] {
      FoldGrows(g, rs[..|rs| - 1]);
    }
  }

  /** Whatever is appended, an unverified entry never becomes an uploaded one, and so on. */
  lemma {:induction false} ReadGrows(text: string, attempts: seq<Attempt>)
    ensures Grows(Read(text), Read(WriteAll(text, attempts)))
  {
    AnyAppends(text, attempts);
    FoldAllAppend(NOTHING, RecordsOf(text), Survivors(text, attempts));
    FoldGrows(Read(text), Survivors(text, attempts));
  }

  // ---- The file ------------------------------------------------------------

  class LedgerFile {
    var text: string

    constructor (text: string)
      ensures this.text == text
    {
      this.text := text;
    }

    /** `read_ledger`: one pass over the lines, skipping those that do not parse. */
    method Load() returns (g: Reading)
      ensures g == Read(text)
    {
      hide Decode, FoldAll, Records, Lines, StateOf;
      NothingRead();
      var entries: map<string, Entry>, inconsistent: set<string> := map[], {};
      var lines := Lines(text);
      for i := 0 to |lines|
        invariant Reading(entries, inconsistent) == FoldAll(NOTHING, Records(lines[..i]))
      {
        RecordsNext(lines, i);
        match Decode(lines[i]) {
          case None =>
          case Some(r) =>
            FoldOne(NOTHING, Records(lines[..i]), r);
            var entry := EntryOf(r);
            if r.name !in entries {
              if entry.state.RestoreVerified? {
                inconsistent := inconsistent + {r.name};
              } else {
                entries := entries[r.name := entry];
              }
            } else if (entries[r.name].manifestHash, entries[r.name].tarSha) != (entry.manifestHash, entry.tarSha) {
              inconsistent := inconsistent + {r.name};
            } else if entry.state.RestoreVerified? {
              entries := entries[r.name := entries[r.name].(state := RestoreVerified)];
            }
        }
      }
      assert lines[..|lines|] == lines;
      g := Reading(entries, inconsistent);
    }

    /** `_append_ledger`, run to completion. */
    method Append(r: Record)
      modifies this
      ensures text == old(text) + AppendText(old(text), r)
      ensures RecordsOf(text) == RecordsOf(old(text)) + [r]
      ensures Read(text) == Fold(Read(old(text)), r)
    {
      hide Encode, Read, RecordsOf, Fold;
      AppendRead(text, r);
      var line := Encode(r) + "\n";
      if text != "" {
        if text[|text| - 1] != '\n' {
          line := "\n" + line;
        }
      }
      assert line == Lead(text) + (Encode(r) + "\n") == AppendText(text, r);
      text := text + line;
    }
  }
}
