/** Deciding from /proc/<pid>/mountinfo whether a bpffs is mounted at a path (bpffs.IsMounted). */
module MountInfo {
  import opened Types

  // ---- the library functions the scanner uses ----

  /** unicode.IsSpace. */
  predicate IsSpace(c: char) {
    || '\t' <= c <= '\r' || c == ' ' || c == '\U{85}' || c == '\U{A0}' || c == '\U{1680}'
    || '\U{2000}' <= c <= '\U{200A}' || c == '\U{2028}' || c == '\U{2029}' || c == '\U{202F}'
    || c == '\U{205F}' || c == '\U{3000}'
  }

  /** strings.Fields: the maximal runs of non-space characters. */
  function Fields(s: string): seq<string> {
    if s == "" then []
    else if IsSpace(s[0]) then Fields(s[1..])
    else [FirstToken(s)] + Fields(s[|FirstToken(s)|..])
  }

  function FirstToken(s: string): (t: string)
    ensures t <= s && (s != "" && !IsSpace(s[0]) ==> t != "")
  {
    if s == "" || IsSpace(s[0]) then "" else [s[0]] + FirstToken(s[1..])
  }

  predicate OccursAt(s: string, sep: string, i: nat) {
    i + |sep| <= |s| && s[i..i + |sep|] == sep
  }

  /** strings.Index: the first occurrence at or after i. */
  function Index(s: string, sep: string, i: nat := 0): (r: Option<nat>)
    requires i <= |s|
    ensures r.Some? ==> i <= r.value && OccursAt(s, sep, r.value) && forall j: nat :: i <= j < r.value ==> !OccursAt(s, sep, j)
    ensures r.None? ==> forall j: nat :: i <= j ==> !OccursAt(s, sep, j)
    decreases |s| - i
  {
    if OccursAt(s, sep, i) then Some(i)
    else if i == |s| then None
    else Index(s, sep, i + 1)
  }

  /** bufio.ScanLines, before a trailing carriage return is dropped. */
  function RawLines(text: string): seq<string>
    decreases |text|
  {
    if text == "" then []
    else
      var n := Index(text, "\n");
      if n.None? then [text] else [text[..n.value]] + RawLines(text[n.value + 1..])
  }

  function Chop(line: string): string {
    if line != "" && line[|line| - 1] == '\r' then line[..|line| - 1] else line
  }

  // ---- the scanner ----

  const MAX_LINE: nat := 1024 * 1024

  datatype Scan = Mounted | NotMounted | OpenError | ReadError

  /** One line says that a bpffs is mounted at the path. */
  predicate LineMatches(line: string, mountPoint: string) {
    var sep := Index(line, " - ");
    sep.Some? &&
    var fields, suffix := Fields(line[..sep.value]), Fields(line[sep.value + 3..]);
    |fields| >= 5 && |suffix| >= 1 && fields[4] == mountPoint && suffix[0] == "bpf"
  }

  predicate FitsBuffer(line: string) {
    |line| < MAX_LINE
  }

  /** Line i is the one that ends the scan with a match. */
  predicate MatchAt(lines: seq<string>, i: int, mountPoint: string) {
    0 <= i < |lines| && LineMatches(Chop(lines[i]), mountPoint) && forall j :: 0 <= j <= i ==> FitsBuffer(lines[j])
  }

  ghost predicate SomeMatch(lines: seq<string>, mountPoint: string) {
    exists i :: MatchAt(lines, i, mountPoint)
  }

  /** `file` is None when the file cannot be opened. */
  method IsMounted(file: Option<string>, mountPoint: string) returns (r: Scan)
    ensures r == OpenError <==> file.None?
    ensures r == Mounted <==>
              file.Some? && SomeMatch(RawLines(file.value), mountPoint)
    ensures r == NotMounted ==> forall l :: l in RawLines(file.value) ==> FitsBuffer(l)
    ensures r == ReadError ==> exists l :: l in RawLines(file.value) && !FitsBuffer(l)
  {
    if file.None? {
      return OpenError;
    }
    r := ScanLines(RawLines(file.value), mountPoint);
  }

  method ScanLines(lines: seq<string>, mountPoint: string) returns (r: Scan)
    ensures r != OpenError
    ensures r == Mounted <==> SomeMatch(lines, mountPoint)
    ensures r == NotMounted ==> forall l :: l in lines ==> FitsBuffer(l)
    ensures r == ReadError ==> exists l :: l in lines && !FitsBuffer(l)
  {
    hide Index, Fields;
    for i := 0 to |lines|
      invariant forall j :: 0 <= j < i ==> FitsBuffer(lines[j]) && !LineMatches(Chop(lines[j]), mountPoint)
    {
      if !FitsBuffer(lines[i]) {
        assert lines[i] in lines;
        return ReadError;
      }
      var line := Chop(lines[i]);
      var sepIdx := Index(line, " - ");
      if sepIdx.None? {
        continue;
      }
      var fields := Fields(line[..sepIdx.value]);
      if |fields| < 5 {
        continue;
      }
      var suffixFields := Fields(line[sepIdx.value + 3..]);
      if |suffixFields| < 1 {
        continue;
      }
      if fields[4] == mountPoint && suffixFields[0] == "bpf" {
        assert MatchAt(lines, i, mountPoint);
        return Mounted;
      }
    }
    return NotMounted;
  }

  // ---- the documented format ----

  /** A token of a mountinfo line: not empty and free of white space. */
  predicate Token(t: string) {
    t != "" && forall i :: 0 <= i < |t| ==> !IsSpace(t[i])
  }

  predicate Tokens(ts: seq<string>) {
    forall i :: 0 <= i < |ts| ==> Token(ts[i])
  }

  /** proc(5): the fields before the separator, with any number of optional ones, and those after it. */
  datatype Record = Record(
    mountId: string, parentId: string, device: string, root: string, mountPoint: string, options: string,
    optional: seq<string>, fsType: string, source: string, superOptions: string)

  function Before(r: Record): seq<string> {
    [r.mountId, r.parentId, r.device, r.root, r.mountPoint, r.options] + r.optional
  }

  function Behind(r: Record): seq<string> {
    [r.fsType, r.source, r.superOptions]
  }

  predicate WellFormed(r: Record) {
    Tokens(Before(r)) && Tokens(Behind(r)) && "-" !in Before(r)
  }

  function Join(ts: seq<string>): string {
    if ts == [] then "" else if |ts| == 1 then ts[0] else ts[0] + " " + Join(ts[1..])
  }

  function Render(r: Record): string {
    Join(Before(r)) + " - " + Join(Behind(r))
  }

  /** A line of the file: a record, or text without a separator. */
  datatype Line = Rec(rec: Record) | Other(text: string)

  predicate GoodLine(l: Line) {
    match l
    case Rec(r) => WellFormed(r) && |Render(r)| < MAX_LINE
    case Other(t) => |t| < MAX_LINE && '\n' !in t && forall i: nat | i < |t| :: !OccursAt(t, " - ", i)
  }

  function TextOf(l: Line): string {
    match l
    case Rec(r) => Render(r)
    case Other(t) => t
  }

  function FileText(lines: seq<Line>): string {
    if lines == [] then "" else TextOf(lines[0]) + "\n" + FileText(lines[1..])
  }

  // ---- parsing undoes rendering ----

  lemma {:induction false} FirstTokenOf(t: string, rest: string)
    requires (forall i :: 0 <= i < |t| ==> !IsSpace(t[i])) && (rest == "" || IsSpace(rest[0]))
    ensures FirstToken(t + rest) == t
  {
    if t != "" {
      assert (t + rest)[1..] == t[1..] + rest;
      FirstTokenOf(t[1..], rest);
    } else {
      assert t + rest == rest;
    }
  }

  lemma {:induction false} FieldsOfJoin(ts: seq<string>)
    requires Tokens(ts)
    ensures Fields(Join(ts)) == ts
  {
    if ts != [] {
      var t, rest := ts[0], if |ts| == 1 then "" else " " + Join(ts[1..]);
      assert Token(t) && Join(ts) == t + rest;
      FirstTokenOf(t, rest);
      assert Join(ts)[|t|..] == rest;
      FieldsOfJoin(ts[1..]);
      if |ts| > 1 {
        assert rest[1..] == Join(ts[1..]);
      }
    }
  }

  /** Text between tokens: spaces and tabs, at least one. */
  predicate Gap(g: string) {
    g != "" && forall i :: 0 <= i < |g| ==> g[i] == ' ' || g[i] == '\t'
  }

  function Spaced(ts: seq<string>, gap: string): string {
    if ts == [] then "" else ts[0] + gap + Spaced(ts[1..], gap)
  }

  lemma {:induction false} FieldsSkip(g: string, rest: string)
    requires forall i :: 0 <= i < |g| ==> g[i] == ' ' || g[i] == '\t'
    ensures Fields(g + rest) == Fields(rest)
  {
    if g != "" {
      assert (g + rest)[1..] == g[1..] + rest;
      FieldsSkip(g[1..], rest);
    } else {
      assert g + rest == rest;
    }
  }

  /** However wide the gaps of spaces and tabs around them are, the tokens come out. */
  lemma {:induction false} FieldsOfSpaced(ts: seq<string>, gap: string)
    requires Tokens(ts) && Gap(gap)
    ensures Fields(gap + Spaced(ts, gap)) == Fields(Spaced(ts, gap)) == ts
  {
    FieldsSkip(gap, Spaced(ts, gap));
    if ts != [] {
      var t, rest := ts[0], gap + Spaced(ts[1..], gap);
      assert Token(t) && Spaced(ts, gap) == t + rest;
      FirstTokenOf(t, rest);
      assert Spaced(ts, gap)[|t|..] == rest;
      FieldsOfSpaced(ts[1..], gap);
    }
  }

  lemma Hyphen(s: string, i: nat)
    ensures OccursAt(s, " - ", i) <==> i + 2 < |s| && s[i] == ' ' && s[i + 1] == '-' && s[i + 2] == ' '
  {
  }

  /** The separator does not occur within tokens none of which is a hyphen. */
  lemma {:induction false} NoEarlierSeparator(ts: seq<string>, tail: string, i: nat)
    requires Tokens(ts) && "-" !in ts && i < |Join(ts)|
    ensures !OccursAt(Join(ts) + " - " + tail, " - ", i)
  {
    var t, s := ts[0], Join(ts) + " - " + tail;
    assert Token(t);
    Hyphen(s, i);
    if i < |t| {
      assert s[i] == t[i];
    } else {
      var next, s' := ts[1], Join(ts[1..]) + " - " + tail;
      assert s == t + " " + s';
      assert Token(next);
      if i == |t| {
        JoinStarts(ts[1..]);
        assert s[i + 1] == next[0] && (|next| > 1 ==> s[i + 2] == next[1]);
        assert |next| == 1 ==> next == [next[0]] && next != "-";
      } else {
        var j := i - |t| - 1;
        NoEarlierSeparator(ts[1..], tail, j);
        Hyphen(s', j);
        assert forall k :: 0 <= k < |s'| ==> s[|t| + 1 + k] == s'[k];
      }
    }
  }

  lemma JoinStarts(ts: seq<string>)
    requires ts != []
    ensures ts[0] <= Join(ts)
  {
  }

  lemma SeparatorOf(ts: seq<string>, tail: string)
    requires Tokens(ts) && "-" !in ts
    ensures Index(Join(ts) + " - " + tail, " - ") == Some(|Join(ts)|)
  {
    var s := Join(ts) + " - " + tail;
    assert OccursAt(s, " - ", |Join(ts)|);
    forall i: nat | i < |Join(ts)| ensures !OccursAt(s, " - ", i) {
      NoEarlierSeparator(ts, tail, i);
    }
  }

  /** On any tokens before the separator and behind it, the line matches exactly by the fifth and the first of them. */
  lemma TokensMatch(ts: seq<string>, us: seq<string>, mountPoint: string)
    requires Tokens(ts) && Tokens(us) && "-" !in ts
    ensures LineMatches(Join(ts) + " - " + Join(us), mountPoint) <==>
              |ts| >= 5 && ts[4] == mountPoint && us != [] && us[0] == "bpf"
  {
    hide Fields, Join, Index;
    var s := Join(ts) + " - " + Join(us);
    SeparatorOf(ts, Join(us));
    assert s[..|Join(ts)|] == Join(ts) && s[|Join(ts)| + 3..] == Join(us);
    FieldsOfJoin(ts);
    FieldsOfJoin(us);
  }

  lemma RecordMatches(r: Record, mountPoint: string)
    requires WellFormed(r)
    ensures LineMatches(Render(r), mountPoint) <==> r.mountPoint == mountPoint && r.fsType == "bpf"
  {
    TokensMatch(Before(r), Behind(r), mountPoint);
  }

  lemma {:induction false} JoinClean(ts: seq<string>)
    requires Tokens(ts) && ts != []
    ensures '\n' !in Join(ts) && Join(ts) != "" && Join(ts)[|Join(ts)| - 1] != '\r'
  {
    assert Token(ts[0]);
    if |ts| > 1 {
      JoinClean(ts[1..]);
    }
  }

  lemma LineClean(l: Line)
    requires GoodLine(l)
    ensures '\n' !in TextOf(l) && (l.Rec? ==> Chop(TextOf(l)) == TextOf(l))
  {
    if l.Rec? {
      JoinClean(Before(l.rec));
      JoinClean(Behind(l.rec));
    }
  }

  /** The lines with a newline behind each. */
  function Unlines(ls: seq<string>): string {
    if ls == [] then "" else ls[0] + "\n" + Unlines(ls[1..])
  }

  /**
   Any text at all is split into lines without newlines that make it up again, where a last line needs no newline,
   and text that needs none to be added has none missing.
   */
  lemma {:induction false} LinesMakeText(text: string)
    ensures forall l :: l in RawLines(text) ==> '\n' !in l
    ensures Unlines(RawLines(text)) == if text == "" || text[|text| - 1] == '\n' then text else text + "\n"
    decreases |text|
  {
    if text != "" {
      var n := Index(text, "\n");
      forall i | 0 <= i < if n.None? then |text| else n.value ensures text[i] != '\n' {
        assert !OccursAt(text, "\n", i) && text[i..i + 1] == [text[i]];
      }
      if n.Some? {
        var line, rest := text[..n.value], text[n.value + 1..];
        assert text == line + "\n" + rest;
        LinesMakeText(rest);
      } else {
        assert RawLines(text)[1..] == [];
      }
    }
  }

  lemma {:induction false} LinesOfFile(lines: seq<Line>)
    requires forall l :: l in lines ==> GoodLine(l)
    ensures var raw := RawLines(FileText(lines));
            |raw| == |lines| && forall i :: 0 <= i < |lines| ==> raw[i] == TextOf(lines[i])
  {
    if lines != [] {
      var t, rest := TextOf(lines[0]), FileText(lines[1..]);
      var s := t + "\n" + rest;
      LineClean(lines[0]);
      assert OccursAt(s, "\n", |t|);
      forall i: nat | i < |t| ensures !OccursAt(s, "\n", i) {
        assert s[i..i + 1] == [t[i]];
      }
      assert s[..|t|] == t && s[|t| + 1..] == rest;
      LinesOfFile(lines[1..]);
    }
  }

  lemma OtherNeverMatches(t: string, mountPoint: string)
    requires forall i: nat | i < |t| :: !OccursAt(t, " - ", i)
    ensures !LineMatches(Chop(t), mountPoint)
  {
    forall i: nat | i < |t| ensures !OccursAt(Chop(t), " - ", i) {
      Hyphen(t, i);
      Hyphen(Chop(t), i);
    }
  }

  /** The line is a record of a bpffs at the path. */
  predicate Says(l: Line, mountPoint: string) {
    l.Rec? && l.rec.mountPoint == mountPoint && l.rec.fsType == "bpf"
  }

  lemma GoodLineSays(l: Line, mountPoint: string)
    requires GoodLine(l)
    ensures LineMatches(Chop(TextOf(l)), mountPoint) <==> Says(l, mountPoint)
  {
    LineClean(l);
    match l
    case Rec(r) => RecordMatches(r, mountPoint);
    case Other(t) => OtherNeverMatches(t, mountPoint);
  }

  /**
   The scan is exact on the documented format: a file of records, with any number of optional fields, and of
   lines without a separator ends the scan with a match exactly when some record has the mount point and the type bpf.
   */
  lemma ScanExact(lines: seq<Line>, mountPoint: string)
    requires forall l :: l in lines ==> GoodLine(l)
    ensures SomeMatch(RawLines(FileText(lines)), mountPoint) <==>
              exists l :: l in lines && Says(l, mountPoint)
    ensures forall l :: l in RawLines(FileText(lines)) ==> FitsBuffer(l)
  {
    hide RawLines, FileText, LineMatches, Says;
    var raw := RawLines(FileText(lines));
    LinesOfFile(lines);
    forall i | 0 <= i < |lines| ensures LineMatches(Chop(raw[i]), mountPoint) <==> Says(lines[i], mountPoint) {
      assert lines[i] in lines;
      GoodLineSays(lines[i], mountPoint);
    }
    forall l | l in raw ensures FitsBuffer(l) {
      var i :| 0 <= i < |raw| && raw[i] == l;
      assert lines[i] in lines;
    }
    if l :| l in lines && Says(l, mountPoint) {
      var i :| 0 <= i < |lines| && lines[i] == l;
      assert forall j :: 0 <= j < |raw| ==> raw[j] in raw;
      assert MatchAt(raw, i, mountPoint);
    }
  }
}
