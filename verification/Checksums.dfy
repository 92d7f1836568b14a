/** The checksum file of a release: printer, parser, and the check against the manifest. */
module Checksums {

  datatype Entry = Entry(sum: string, name: string)

  datatype Parsed = Entries(list: seq<Entry>) | InvalidLine(line: string)

  datatype Verdict = Matches | CountMismatch | OrderMismatch(at: nat) | SumMismatch(at: nat)

  // ---- the library functions the parser is built from ----

  /** `unicode.IsSpace`. */
  predicate IsSpace(c: char) {
    || c == ' ' || '\t' <= c <= '\r' || c == '\U{85}' || c == '\U{A0}' || c == '\U{1680}'
    || '\U{2000}' <= c <= '\U{200A}' || c == '\U{2028}' || c == '\U{2029}' || c == '\U{202F}'
    || c == '\U{205F}' || c == '\U{3000}'
  }

  function TrimLeft(s: string): string {
    if s != "" && IsSpace(s[0]) then TrimLeft(s[1..]) else s
  }

  function TrimRight(s: string): string {
    if s != "" && IsSpace(s[|s| - 1]) then TrimRight(s[..|s| - 1]) else s
  }

  function TrimSpace(s: string): string {
    TrimRight(TrimLeft(s))
  }

  /** The index of the first newline, or the length. */
  function LineEnd(s: string): (n: nat)
    ensures n <= |s| && '\n' !in s[..n] && (n < |s| ==> s[n] == '\n')
  {
    if s == "" || s[0] == '\n' then 0
    else
      var n := 1 + LineEnd(s[1..]);
      assert s[..n] == [s[0]] + s[1..][..n - 1];
      n
  }

  /** `Split(s, "\n")`. */
  function Split(s: string): seq<string> {
    var n := LineEnd(s);
    if n == |s| then [s] else [s[..n]] + Split(s[n + 1..])
  }

  /** The index of the first double space, or the length. */
  function FirstGap(s: string): (n: nat)
    ensures n <= |s| && (n < |s| ==> n + 1 < |s| && s[n] == ' ' && s[n + 1] == ' ')
  {
    if |s| < 2 then |s|
    else if s[0] == ' ' && s[1] == ' ' then 0
    else 1 + FirstGap(s[1..])
  }

  // ---- the printer and the parser ----

  function Line(e: Entry): string {
    e.sum + "  " + e.name
  }

  function Printed(list: seq<Entry>): string {
    if list == [] then "" else Printed(list[..|list| - 1]) + Line(list[|list| - 1]) + "\n"
  }

  method WriteChecksums(artifacts: seq<Entry>) returns (text: string)
    ensures text == Printed(artifacts)
  {
    text := "";
    for i := 0 to |artifacts|
      invariant text == Printed(artifacts[..i])
    {
      assert artifacts[..i + 1][..i] == artifacts[..i];
      text := text + artifacts[i].sum + "  " + artifacts[i].name + "\n";
      assert text == Printed(artifacts[..i]) + Line(artifacts[i]) + "\n";
    }
    assert artifacts[..|artifacts|] == artifacts;
  }

  datatype Piece = Blank | Bad | Good(entry: Entry)

  /** What one line denotes. */
  function LineParsed(line: string): Piece {
    if TrimSpace(line) == "" then Blank
    else if FirstGap(line) == |line| then Bad
    else Good(Entry(line[..FirstGap(line)], line[FirstGap(line) + 2..]))
  }

  /** What the lines denote: blank lines are skipped, the first line without a double space is the error. */
  function LinesParsed(lines: seq<string>): Parsed {
    if lines == [] then Entries([])
    else
      match LinesParsed(lines[..|lines| - 1])
      case InvalidLine(line) => InvalidLine(line)
      case Entries(es) =>
        match LineParsed(lines[|lines| - 1])
        case Blank => Entries(es)
        case Bad => InvalidLine(lines[|lines| - 1])
        case Good(e) => Entries(es + [e])
  }

  function ParsedText(content: string): Parsed {
    LinesParsed(Split(TrimSpace(content)))
  }

  method ParseChecksums(content: string) returns (r: Parsed)
    ensures r == ParsedText(content)
  {
    hide Split, TrimSpace, IsSpace, FirstGap;
    var lines := Split(TrimSpace(content));
    var entries: seq<Entry> := [];
    for i := 0 to |lines|
      invariant LinesParsed(lines[..i]) == Entries(entries)
    {
      var line := lines[i];
      assert lines[..i + 1][..i] == lines[..i];
      if TrimSpace(line) == "" {
        continue;
      }
      var gap := FirstGap(line);
      if gap == |line| {
        InvalidStays(lines, i + 1);
        return InvalidLine(line);
      }
      entries := entries + [Entry(line[..gap], line[gap + 2..])];
    }
    assert lines[..|lines|] == lines;
    r := Entries(entries);
  }

  lemma {:induction false} InvalidStays(lines: seq<string>, n: nat)
    requires n <= |lines| && LinesParsed(lines[..n]).InvalidLine?
    ensures LinesParsed(lines) == LinesParsed(lines[..n])
  {
    hide LineParsed;
    if n < |lines| {
      assert lines[..|lines| - 1][..n] == lines[..n];
      InvalidStays(lines[..|lines| - 1], n);
    } else {
      assert lines[..n] == lines;
    }
  }

  /** Entries are accepted exactly when they are the manifest's list; otherwise the first difference is reported. */
  method ValidateManifest(manifest: seq<Entry>, entries: seq<Entry>) returns (v: Verdict)
    ensures v.Matches? <==> entries == manifest
    ensures v.CountMismatch? <==> |entries| != |manifest|
    ensures v.OrderMismatch? ==> v.at < |entries| == |manifest| && entries[..v.at] == manifest[..v.at]
                                 && entries[v.at].name != manifest[v.at].name
    ensures v.SumMismatch? ==> v.at < |entries| == |manifest| && entries[..v.at] == manifest[..v.at]
                               && entries[v.at].name == manifest[v.at].name && entries[v.at].sum != manifest[v.at].sum
  {
    if |entries| != |manifest| {
      return CountMismatch;
    }
    for i := 0 to |entries|
      invariant entries[..i] == manifest[..i]
    {
      if manifest[i].name != entries[i].name {
        return OrderMismatch(i);
      }
      if manifest[i].sum != entries[i].sum {
        return SumMismatch(i);
      }
    }
    assert entries[..|entries|] == entries && manifest[..|manifest|] == manifest;
    v := Matches;
  }

  // ---- trimming and splitting ----

  lemma {:induction false} TrimRightEnd(s: string)
    ensures TrimRight(s) <= s
    ensures TrimRight(s) != "" ==> !IsSpace(TrimRight(s)[|TrimRight(s)| - 1])
    ensures forall i | |TrimRight(s)| <= i < |s| :: IsSpace(s[i])
  {
    if s != "" && IsSpace(s[|s| - 1]) { TrimRightEnd(s[..|s| - 1]); }
  }

  lemma {:induction false} SplitPieces(s: string)
    ensures Split(s) != []
    ensures forall i | 0 <= i < |Split(s)| :: '\n' !in Split(s)[i]
  {
    var n := LineEnd(s);
    if n < |s| {
      SplitPieces(s[n + 1..]);
    } else {
      assert s[..n] == s;
    }
  }

  /** The ends of lists. */
  lemma LastOfTail(s: string, k: nat)
    requires k < |s|
    ensures s[k..] != "" && s[k..][|s[k..]| - 1] == s[|s| - 1]
  {
  }

  lemma LastOfList(first: string, rest: seq<string>)
    requires rest != []
    ensures ([first] + rest)[|[first] + rest| - 1] == rest[|rest| - 1]
  {
  }

  /** The first piece ends at the first newline, if there is one. */
  lemma SplitFirst(s: string) returns (n: nat)
    ensures n <= |s| && (n < |s| ==> s[n] == '\n')
    ensures Split(s) == if n == |s| then [s] else [s[..n]] + Split(s[n + 1..])
  {
    n := LineEnd(s);
  }

  /** If the text does not end in a newline, its last piece ends the way the text does. */
  lemma {:induction false} SplitLast(s: string)
    requires s != "" && s[|s| - 1] != '\n'
    ensures Split(s) != []
    ensures var last := Split(s)[|Split(s)| - 1]; last != "" && last[|last| - 1] == s[|s| - 1]
  {
    hide Split;
    var n := SplitFirst(s);
    if n < |s| {
      var t := s[n + 1..];
      LastOfTail(s, n + 1);
      SplitLast(t);
      LastOfList(s[..n], Split(t));
    }
  }

  lemma {:induction false} SplitAppend(s: string, line: string)
    requires '\n' !in line
    ensures Split(s + "\n" + line) == Split(s) + [line]
  {
    var t := s + "\n" + line;
    var n := LineEnd(s);
    LineEndOf(t, n);
    if n < |s| {
      assert t[..n] == s[..n] && t[n + 1..] == s[n + 1..] + "\n" + line;
      SplitAppend(s[n + 1..], line);
      assert Split(t) == [s[..n]] + (Split(s[n + 1..]) + [line]);
    } else {
      assert t[..n] == s && t[n + 1..] == line;
      SplitWhole(line);
    }
  }

  lemma SplitWhole(line: string)
    requires '\n' !in line
    ensures Split(line) == [line]
  {
    assert LineEnd(line) == |line|;
  }

  lemma {:induction false} LineEndOf(t: string, n: nat)
    requires n < |t| && t[n] == '\n' && '\n' !in t[..n]
    ensures LineEnd(t) == n
  {
    if n > 0 {
      assert t[..n] == [t[0]] + t[1..][..n - 1];
      LineEndOf(t[1..], n - 1);
    }
  }

  // ---- the round trip ----

  predicate IsHex(s: string) {
    s != "" && forall i | 0 <= i < |s| :: '0' <= s[i] <= '9' || 'a' <= s[i] <= 'f'
  }

  predicate HexSums(list: seq<Entry>) {
    forall i | 0 <= i < |list| :: IsHex(list[i].sum)
  }

  /** No name holds a newline, and the last name is not empty and does not end in white space. */
  predicate Printable(list: seq<Entry>) {
    && (forall i | 0 <= i < |list| :: '\n' !in list[i].name)
    && (list != [] ==>
          var name := list[|list| - 1].name; name != "" && !IsSpace(name[|name| - 1]))
  }

  /** The printed text without its final newline. */
  function Body(list: seq<Entry>): string
    requires list != []
  {
    if |list| == 1 then Line(list[0]) else Body(list[..|list| - 1]) + "\n" + Line(list[|list| - 1])
  }

  lemma {:induction false} PrintedBody(list: seq<Entry>)
    requires list != []
    ensures Printed(list) == Body(list) + "\n"
  {
    var init := list[..|list| - 1];
    if init == [] {
      assert Printed(init) == "";
    } else {
      PrintedBody(init);
    }
  }

  /** The body starts with a hex digit and ends with the last line. */
  lemma {:induction false} BodyEnds(list: seq<Entry>)
    requires list != [] && HexSums(list)
    ensures Body(list) != "" && !IsSpace(Body(list)[0])
    ensures var line := Line(list[|list| - 1]);
            |line| <= |Body(list)| && Body(list)[|Body(list)| - |line|..] == line
  {
    if |list| > 1 {
      BodyEnds(list[..|list| - 1]);
    } else {
      assert IsHex(list[0].sum);
    }
  }

  lemma {:induction false} HexHasNoGap(sum: string, rest: string)
    requires forall i | 0 <= i < |sum| :: sum[i] != ' '
    ensures FirstGap(sum + "  " + rest) == |sum|
  {
    var s := sum + "  " + rest;
    if sum != "" {
      assert s[1..] == sum[1..] + "  " + rest;
      HexHasNoGap(sum[1..], rest);
    }
  }

  /** One printed line parses back to its entry. */
  lemma LineParses(e: Entry)
    requires IsHex(e.sum)
    ensures LineParsed(Line(e)) == Good(e)
  {
    var line := Line(e);
    HexHasNoGap(e.sum, e.name);
    assert TrimLeft(line) == line;
    TrimRightEnd(line);
    assert !IsSpace(line[0]);
  }

  lemma LineIsOne(e: Entry)
    requires IsHex(e.sum) && '\n' !in e.name
    ensures '\n' !in Line(e)
  {
  }

  function Lines(list: seq<Entry>): seq<string> {
    if list == [] then [] else Lines(list[..|list| - 1]) + [Line(list[|list| - 1])]
  }

  lemma {:induction false} BodySplits(list: seq<Entry>)
    requires list != [] && HexSums(list) && forall i | 0 <= i < |list| :: '\n' !in list[i].name
    ensures Split(Body(list)) == Lines(list)
  {
    var init, e := list[..|list| - 1], list[|list| - 1];
    LineIsOne(e);
    if init == [] {
      SplitWhole(Line(e));
    } else {
      BodySplits(init);
      SplitAppend(Body(init), Line(e));
    }
  }

  lemma {:induction false} LinesParse(list: seq<Entry>)
    requires HexSums(list)
    ensures LinesParsed(Lines(list)) == Entries(list)
  {
    hide IsHex, Line, LinesParsed;
    if list == [] {
      NoLines();
    } else {
      var init, e := list[..|list| - 1], list[|list| - 1];
      LinesParse(init);
      ParsedOneMore(Lines(init), init, e);
      assert init + [e] == list;
    }
  }

  lemma NoLines()
    ensures LinesParsed([]) == Entries([])
  {
  }

  lemma ParsedOneMore(lines: seq<string>, init: seq<Entry>, e: Entry)
    requires IsHex(e.sum) && LinesParsed(lines) == Entries(init)
    ensures LinesParsed(lines + [Line(e)]) == Entries(init + [e])
  {
    LineParses(e);
    hide IsHex, Line, LineParsed;
    assert (lines + [Line(e)])[..|lines|] == lines;
  }

  lemma TrimOneNewline(s: string)
    requires s != "" && !IsSpace(s[0]) && !IsSpace(s[|s| - 1])
    ensures TrimSpace(s + "\n") == s
  {
    var t := s + "\n";
    assert TrimLeft(t) == t;
    assert t[|t| - 1] == '\n' && t[..|t| - 1] == s;
    assert TrimRight(t) == TrimRight(t[..|t| - 1]);
  }

  lemma RoundTrip(list: seq<Entry>)
    requires HexSums(list) && Printable(list)
    ensures ParsedText(Printed(list)) == Entries(list)
  {
    if list == [] {
      assert LinesParsed([""]) == Entries([]) by { assert [""][..0] == []; }
    } else {
      PrintedBody(list);
      BodyEnds(list);
      var line := Line(list[|list| - 1]);
      var body := Body(list);
      assert body[|body| - 1] == body[|body| - |line|..][|line| - 1] == line[|line| - 1];
      TrimOneNewline(body);
      BodySplits(list);
      LinesParse(list);
    }
  }

  /** Names the parser returns are free of newlines. */
  lemma {:induction false} NamesFromLines(lines: seq<string>)
    requires LinesParsed(lines).Entries? && forall i | 0 <= i < |lines| :: '\n' !in lines[i]
    ensures forall i | 0 <= i < |LinesParsed(lines).list| :: '\n' !in LinesParsed(lines).list[i].name
  {
    if lines != [] {
      NamesFromLines(lines[..|lines| - 1]);
      if LineParsed(lines[|lines| - 1]).Good? { NameFromLine(lines[|lines| - 1]); }
      hide LineParsed;
    }
  }

  lemma NameFromLine(line: string)
    requires '\n' !in line && LineParsed(line).Good?
    ensures '\n' !in LineParsed(line).entry.name
  {
    hide TrimSpace, FirstGap;
  }

  /** The last entry ends the way the last line does, when that line does not end in white space. */
  lemma LastName(lines: seq<string>)
    requires lines != [] && LinesParsed(lines).Entries?
    requires var last := lines[|lines| - 1]; last != "" && !IsSpace(last[|last| - 1])
    ensures var list := LinesParsed(lines).list;
            list != [] && var name := list[|list| - 1].name; name != "" && !IsSpace(name[|name| - 1])
  {
    var last := lines[|lines| - 1];
    NotBlank(last);
  }

  lemma {:induction false} NotBlank(s: string)
    requires s != "" && !IsSpace(s[|s| - 1])
    ensures TrimSpace(s) != ""
  {
    if IsSpace(s[0]) {
      NotBlank(s[1..]);
    } else {
      assert TrimLeft(s) == s;
    }
  }

  lemma {:induction false} TrimLeftSuffix(s: string)
    requires s != "" && !IsSpace(s[0])
    ensures TrimLeft(s) == s
  {
  }

  lemma TrimmedText(text: string)
    requires text != "" && !IsSpace(text[0])
    ensures TrimSpace(text) != "" && !IsSpace(TrimSpace(text)[|TrimSpace(text)| - 1])
  {
    TrimLeftSuffix(text);
    TrimRightEnd(text);
  }

  /** Whatever the parser returns for a text that does not start in white space is printable. */
  lemma ParsedIsPrintable(text: string)
    requires text != "" && !IsSpace(text[0]) && ParsedText(text).Entries?
    ensures Printable(ParsedText(text).list)
  {
    var t := TrimSpace(text);
    TrimmedText(text);
    SplitPieces(t);
    SplitLast(t);
    NamesFromLines(Split(t));
    LastName(Split(t));
  }

  /**
   For every list with hex sums: what `writeChecksums` prints parses back to the same list if and only if no name
   holds a newline and the last name neither is empty nor ends in white space.
   */
  lemma RoundTripExactly(list: seq<Entry>)
    requires HexSums(list)
    ensures ParsedText(Printed(list)) == Entries(list) <==> Printable(list)
  {
    if Printable(list) {
      RoundTrip(list);
    } else if ParsedText(Printed(list)) == Entries(list) {
      PrintedBody(list);
      BodyEnds(list);
      ParsedIsPrintable(Printed(list));
    }
  }

  /** Publishing a manifest's checksums and verifying them against it succeeds exactly for a printable list. */
  method PublishThenVerify(artifacts: seq<Entry>) returns (ok: bool)
    requires HexSums(artifacts)
    ensures ok <==> Printable(artifacts)
  {
    RoundTripExactly(artifacts);
    var text := WriteChecksums(artifacts);
    var parsed := ParseChecksums(text);
    if parsed.InvalidLine? {
      return false;
    }
    var v := ValidateManifest(artifacts, parsed.list);
    ok := v == Matches;
  }

  // ---- the format, spelled out ----

  /** Line by line: the sum, two spaces, the name and a newline. */
  lemma {:induction false} PrintedJoin(a: seq<Entry>, b: seq<Entry>)
    ensures Printed(a + b) == Printed(a) + Printed(b)
    ensures forall e: Entry :: Printed([e]) == e.sum + "  " + e.name + "\n"
    ensures Printed([]) == ""
  {
    assert forall e: Entry :: [e][..0] == [];
    if b == [] {
      assert a + b == a;
    } else {
      var n := |b| - 1;
      PrintedJoin(a, b[..n]);
      assert (a + b)[..|a + b| - 1] == a + b[..n];
    }
  }

  function Joined(pieces: seq<string>): string {
    if pieces == [] then "" else if |pieces| == 1 then pieces[0] else pieces[0] + "\n" + Joined(pieces[1..])
  }

  /** Splitting gives pieces without newlines that make up the text again, joined by newlines. */
  lemma {:induction false} SplitJoins(s: string)
    ensures Split(s) != [] && Joined(Split(s)) == s
    ensures forall i | 0 <= i < |Split(s)| :: '\n' !in Split(s)[i]
  {
    SplitPieces(s);
    var n := SplitFirst(s);
    if n < |s| {
      SplitJoins(s[n + 1..]);
      SplitPieces(s[n + 1..]);
      assert s == s[..n] + "\n" + s[n + 1..];
      assert Split(s)[1..] == Split(s[n + 1..]);
    }
  }

  /** A blank line is one of white space only; any other is bad if it has no double space, and is cut at its first. */
  lemma LineExactly(line: string)
    ensures LineParsed(line) == Blank <==> forall i | 0 <= i < |line| :: IsSpace(line[i])
    ensures LineParsed(line) == Bad <==>
              (exists i | 0 <= i < |line| :: !IsSpace(line[i]))
              && forall i | 0 < i < |line| :: !(line[i - 1] == ' ' && line[i] == ' ')
    ensures LineParsed(line).Good? ==>
              var e := LineParsed(line).entry;
              && line == e.sum + "  " + e.name
              && forall i | 0 < i <= |e.sum| :: !(line[i - 1] == ' ' && line[i] == ' ')
  {
    TrimmedAway(line);
    GapIsFirst(line);
  }

  lemma {:induction false} TrimmedAway(s: string)
    ensures TrimSpace(s) == "" <==> forall i | 0 <= i < |s| :: IsSpace(s[i])
  {
    if s != "" {
      if IsSpace(s[0]) {
        TrimmedAway(s[1..]);
        assert forall i | 0 < i < |s| :: s[1..][i - 1] == s[i];
      } else {
        TrimRightEnd(s);
      }
    }
  }

  lemma {:induction false} GapIsFirst(s: string)
    ensures FirstGap(s) == |s| <==> forall i | 0 < i < |s| :: !(s[i - 1] == ' ' && s[i] == ' ')
    ensures forall i | 0 < i <= FirstGap(s) && i < |s| :: !(s[i - 1] == ' ' && s[i] == ' ')
  {
    if |s| >= 2 && !(s[0] == ' ' && s[1] == ' ') {
      GapIsFirst(s[1..]);
      assert forall j | 0 <= j < |s| - 1 :: s[1..][j] == s[j + 1];
    }
  }

  /** Only white space is cut off, at both ends, and all of it. */
  lemma TrimExactly(s: string)
    ensures var t := TrimSpace(s);
            && (t != "" ==> !IsSpace(t[0]) && !IsSpace(t[|t| - 1]))
            && exists i, j | 0 <= i <= j <= |s| ::
                 t == s[i..j] && (forall k | 0 <= k < i :: IsSpace(s[k])) && forall k | j <= k < |s| :: IsSpace(s[k])
  {
    var i := TrimLeftEnd(s);
    var l := TrimLeft(s);
    TrimRightEnd(l);
    var j := i + |TrimRight(l)|;
    assert TrimSpace(s) == s[i..j];
    assert forall k | j <= k < |s| :: s[k] == l[k - i];
    if TrimSpace(s) != "" {
      assert TrimSpace(s)[0] == l[0];
    }
  }

  lemma {:induction false} TrimLeftEnd(s: string) returns (i: nat)
    ensures i <= |s| && TrimLeft(s) == s[i..] && (forall k | 0 <= k < i :: IsSpace(s[k]))
    ensures TrimLeft(s) != "" ==> !IsSpace(TrimLeft(s)[0])
  {
    if s != "" && IsSpace(s[0]) {
      var k := TrimLeftEnd(s[1..]);
      i := k + 1;
    } else {
      i := 0;
    }
  }
}
