/** The line parser that reads one section's list of entries out of a lock file. */
module SectionParser {
  import opened Text

  type Entry = map<string, string>

  // ---------- one line ----------

  function Indent(line: string): (n: nat)
    ensures n <= |line|
  {
    if line != [] && line[0] == ' ' then 1 + Indent(line[1..]) else 0
  }

  method LeadingSpaces(line: string) returns (n: nat)
    ensures n == Indent(line)
  {
    n := 0;
    for i := 0 to |line|
      invariant n == i && Indent(line) == i + Indent(line[i..])
    {
      assert line[i..][1..] == line[i + 1..];
      if line[i] != ' ' { return n; }
      n := n + 1;
    }
  }

  function TrimLeftOf(s: string, c: char): string {
    if s != [] && s[0] == c then TrimLeftOf(s[1..], c) else s
  }

  function TrimRightOf(s: string, c: char): string {
    if s != [] && s[|s| - 1] == c then TrimRightOf(s[..|s| - 1], c) else s
  }

  function TrimOf(s: string, c: char): string { TrimRightOf(TrimLeftOf(s, c), c) }

  function CleanValue(v: string): string { Trim(TrimOf(TrimOf(Trim(v), '"'), '\'')) }

  /** Where c first occurs in s, or |s|. */
  function IndexOf(s: string, c: char): (i: nat)
    ensures i <= |s| && c !in s[..i] && (i < |s| ==> s[i] == c)
  {
    if s == [] || s[0] == c then 0
    else
      var i := IndexOf(s[1..], c);
      assert s[..i + 1] == [s[0]] + s[1..][..i];
      i + 1
  }

  function ParseKeyValue(raw: string): Option<(string, string)> {
    var i := IndexOf(raw, ':');
    if i == 0 || i == |raw| || Trim(raw[..i]) == "" then None
    else Some((Trim(raw[..i]), CleanValue(raw[i + 1..])))
  }

  predicate Skipped(line: string) { Trim(line) == "" || HasPrefix(Trim(line), "#") }

  predicate IsHeader(line: string, section: string) { !Skipped(line) && Trim(line) == section + ":" }

  predicate Closes(line: string, indent: nat) {
    !Skipped(line) && Indent(line) <= indent && Trim(line)[|Trim(line)| - 1] == ':'
  }

  predicate IsItem(line: string) { !Skipped(line) && HasPrefix(Trim(line), "- ") }

  /** The pair written on the line that opens an entry, after its dash. */
  function ItemPair(line: string): Option<(string, string)>
    requires IsItem(line)
  {
    ParseKeyValue(Trim(Trim(line)[2..]))
  }

  function With(e: Entry, pair: Option<(string, string)>): Entry {
    if pair.Some? then e[pair.value.0 := pair.value.1] else e
  }

  // ---------- the section's lines, and its entries as one pass makes them ----------

  function HeaderAt(lines: seq<string>, section: string): (i: nat)
    ensures i <= |lines|
  {
    if lines == [] || IsHeader(lines[0], section) then 0 else 1 + HeaderAt(lines[1..], section)
  }

  function Body(lines: seq<string>, indent: nat): seq<string> {
    if lines == [] || Closes(lines[0], indent) then [] else [lines[0]] + Body(lines[1..], indent)
  }

  function Flushed(current: Option<Entry>): seq<Entry> {
    if current.Some? then [current.value] else []
  }

  /** What is still to come from these lines, with the first item's indent and
      the entry being built. */
  function Pass(body: seq<string>, base: Option<nat>, current: Option<Entry>): seq<Entry> {
    if body == [] then Flushed(current)
    else
      var line, rest := body[0], body[1..];
      if Skipped(line) then Pass(rest, base, current)
      else if IsItem(line) then
        if base.None? || Indent(line) == base.value
        then Flushed(current) + Pass(rest, Some(Indent(line)), Some(With(map[], ItemPair(line))))
        else Pass(rest, base, current)
      else if current.None? then Pass(rest, base, current)
      else Pass(rest, base, Some(With(current.value, ParseKeyValue(Trim(line)))))
  }

  function SectionEntries(lines: seq<string>, section: string): seq<Entry> {
    var h := HeaderAt(lines, section);
    if h == |lines| then [] else Pass(Body(lines[h + 1..], Indent(lines[h])), None, None)
  }

  function Parse(lines: seq<string>, section: string): Option<seq<Entry>> {
    var entries := SectionEntries(lines, section);
    if entries == [] then None else Some(entries)
  }

  /** What the loop will still add from the lines ahead. */
  function Ahead(lines: seq<string>, section: string, inSection: bool, sectionIndent: int,
                 entryIndent: int, current: Option<Entry>): seq<Entry>
    requires inSection ==> 0 <= sectionIndent
  {
    if inSection then
      Pass(Body(lines, sectionIndent), if entryIndent < 0 then None else Some(entryIndent), current)
    else SectionEntries(lines, section)
  }

  lemma AheadOfHeader(lines: seq<string>, section: string)
    requires lines != []
    ensures SectionEntries(lines, section) ==
            if IsHeader(lines[0], section) then Pass(Body(lines[1..], Indent(lines[0])), None, None)
            else SectionEntries(lines[1..], section)
  {
    var h := HeaderAt(lines, section);
    if !IsHeader(lines[0], section) && h < |lines| { assert lines[h + 1..] == lines[1..][h..]; }
  }

  /** The state of the pass over the lines. */
  datatype Scan = Scan(inSection: bool, sectionIndent: int, entryIndent: int, current: Option<Entry>)

  predicate Sensible(s: Scan) {
    if s.inSection then 0 <= s.sectionIndent else s.entryIndent < 0 && s.current.None?
  }

  function Left(lines: seq<string>, section: string, s: Scan): seq<Entry>
    requires Sensible(s)
  {
    Ahead(lines, section, s.inSection, s.sectionIndent, s.entryIndent, s.current)
  }

  predicate Ends(line: string, s: Scan) { s.inSection && s.sectionIndent >= 0 && Closes(line, s.sectionIndent) }

  predicate Opens(line: string, s: Scan) {
    s.inSection && IsItem(line) && (s.entryIndent < 0 || Indent(line) == s.entryIndent)
  }

  function Next(line: string, section: string, s: Scan): Scan {
    if !s.inSection then
      if IsHeader(line, section) then s.(inSection := true, sectionIndent := Indent(line)) else s
    else if Opens(line, s) then s.(entryIndent := Indent(line), current := Some(With(map[], ItemPair(line))))
    else if Skipped(line) || IsItem(line) || s.current.None? then s
    else s.(current := Some(With(s.current.value, ParseKeyValue(Trim(line)))))
  }

  lemma LeftAfterLine(lines: seq<string>, section: string, s: Scan)
    requires Sensible(s) && lines != []
    ensures Ends(lines[0], s) ==> Left(lines, section, s) == Flushed(s.current)
    ensures !Ends(lines[0], s) ==>
      && Sensible(Next(lines[0], section, s))
      && Left(lines, section, s) ==
         (if Opens(lines[0], s) then Flushed(s.current) else []) +
         Left(lines[1..], section, Next(lines[0], section, s))
  {
    if !s.inSection {
      AheadOfHeader(lines, section);
    } else if !Ends(lines[0], s) {
      var body := Body(lines, s.sectionIndent);
      assert body[0] == lines[0] && body[1..] == Body(lines[1..], s.sectionIndent);
    }
  }

  /** One line of the loop: whether it ends the section, whether it completes the
      entry before it, and where the scan stands after it. */
  method ReadLine(raw: string, section: string, was: Scan) returns (ends: bool, flush: bool, s: Scan)
    requires Sensible(was)
    ensures ends == Ends(raw, was)
    ensures !ends ==> flush == Opens(raw, was) && s == Next(raw, section, was)
  {
    ends, flush, s := false, false, was;
    var trimmed := Trim(raw);
    if trimmed == "" || HasPrefix(trimmed, "#") { return; }
    var indent := LeadingSpaces(raw);
    if !s.inSection {
      if trimmed == section + ":" { s := s.(inSection := true, sectionIndent := indent); }
      return;
    }
    if indent <= s.sectionIndent && trimmed[|trimmed| - 1] == ':' {
      ends := true;
      return;
    }
    if HasPrefix(trimmed, "- ") {
      if s.entryIndent < 0 || indent == s.entryIndent {
        flush := true;
        s := s.(entryIndent := indent, current := Some(map[]));
        var pair := ParseKeyValue(Trim(trimmed[2..]));
        if pair.Some? { s := s.(current := Some(map[pair.value.0 := pair.value.1])); }
      }
      return;
    }
    if s.current.None? { return; }
    var pair := ParseKeyValue(trimmed);
    if pair.Some? { s := s.(current := Some(s.current.value[pair.value.0 := pair.value.1])); }
  }

  lemma ParseOf(lines: seq<string>, section: string, out: seq<Entry>, current: Option<Entry>)
    requires out + Flushed(current) == SectionEntries(lines, section)
    ensures
      var all := if current.Some? then out + [current.value] else out;
      Parse(lines, section) == if |all| == 0 then None else Some(all)
  {
    assert out + [] == out;
  }

  predicate Carries(out: seq<Entry>, left: seq<Entry>, all: seq<Entry>) { out + left == all }

  lemma CarriesOver(out: seq<Entry>, flushed: seq<Entry>, left: seq<Entry>, all: seq<Entry>)
    requires Carries(out, flushed + left, all)
    ensures Carries(out + flushed, left, all)
  {
  }

  method ParseSectionEntries(lines: seq<string>, section: string) returns (result: Option<seq<Entry>>)
    ensures result == Parse(lines, section)
  {
    var out: seq<Entry> := [];
    var s := Scan(false, -1, -1, None);
    assert lines[0..] == lines;
    for i := 0 to |lines|
      invariant Sensible(s)
      invariant Carries(out, Left(lines[i..], section, s), SectionEntries(lines, section))
    {
      LeftAfterLine(lines[i..], section, s);
      assert lines[i..][1..] == lines[i + 1..];
      var ends, flush, next := ReadLine(lines[i], section, s);
      if ends { break; }
      var flushed := if flush then Flushed(s.current) else [];
      CarriesOver(out, flushed, Left(lines[i + 1..], section, next), SectionEntries(lines, section));
      out := out + flushed;
      s := next;
    }
    ParseOf(lines, section, out, s.current);
    if s.current.Some? { out := out + [s.current.value]; }
    return if |out| == 0 then None else Some(out);
  }

  // ---------- only the section itself matters ----------

  predicate HasHeader(lines: seq<string>, section: string) { exists l :: l in lines && IsHeader(l, section) }

  predicate HasCloser(lines: seq<string>, indent: nat) { exists l :: l in lines && Closes(l, indent) }

  lemma {:induction false} NothingBeforeHeader(before: seq<string>, lines: seq<string>, section: string)
    requires !HasHeader(before, section)
    ensures SectionEntries(before + lines, section) == SectionEntries(lines, section)
  {
    if before == [] {
      assert before + lines == lines;
    } else {
      assert (before + lines)[1..] == before[1..] + lines;
      AheadOfHeader(before + lines, section);
      NothingBeforeHeader(before[1..], lines, section);
    }
  }

  lemma {:induction false} NothingAfterCloser(body: seq<string>, rest: seq<string>, indent: nat)
    requires !HasCloser(body, indent)
    requires rest == [] || Closes(rest[0], indent)
    ensures Body(body + rest, indent) == body
  {
    if body != [] {
      assert (body + rest)[1..] == body[1..] + rest;
      assert body[0] in body;
      NothingAfterCloser(body[1..], rest, indent);
    } else {
      assert body + rest == rest;
    }
  }

  lemma HeaderFirst(lines: seq<string>, section: string, body: seq<string>, rest: seq<string>)
    requires lines != [] && IsHeader(lines[0], section) && lines[1..] == body + rest
    requires !HasCloser(body, Indent(lines[0]))
    requires rest == [] || Closes(rest[0], Indent(lines[0]))
    ensures SectionEntries(lines, section) == Pass(body, None, None)
  {
    AheadOfHeader(lines, section);
    NothingAfterCloser(body, rest, Indent(lines[0]));
  }

  /** Any file that holds the section parses as that section's body alone:
      nothing before its first header and nothing from its first closing line
      onward changes the result. */
  lemma SectionStandsAlone(before: seq<string>, header: string, body: seq<string>, rest: seq<string>, section: string)
    requires !HasHeader(before, section)
    requires IsHeader(header, section)
    requires !HasCloser(body, Indent(header))
    requires rest == [] || Closes(rest[0], Indent(header))
    ensures SectionEntries(before + ([header] + body + rest), section) == Pass(body, None, None)
  {
    var lines := [header] + body + rest;
    assert lines[0] == header && lines[1..] == body + rest by { assert lines == [header] + (body + rest); }
    NothingBeforeHeader(before, lines, section);
    HeaderFirst(lines, section, body, rest);
  }

  // ---------- what the entries are ----------

  predicate Starts(line: string, base: nat) { IsItem(line) && Indent(line) == base }

  /** The indent of the first list item. */
  function BaseOf(body: seq<string>): Option<nat> {
    if body == [] then None else if IsItem(body[0]) then Some(Indent(body[0])) else BaseOf(body[1..])
  }

  function UpToStart(body: seq<string>, base: nat): seq<string> {
    if body == [] || Starts(body[0], base) then [] else [body[0]] + UpToStart(body[1..], base)
  }

  /** The body cut at every item of the base indent; what comes before the first
      one belongs to no block. */
  function Blocks(body: seq<string>, base: nat): seq<seq<string>> {
    if body == [] then []
    else if Starts(body[0], base) then [[body[0]] + UpToStart(body[1..], base)] + Blocks(body[1..], base)
    else Blocks(body[1..], base)
  }

  /** The pair a line adds to the entry it falls in. */
  function PairOn(line: string, base: nat): Option<(string, string)> {
    if Skipped(line) then None
    else if Starts(line, base) then ItemPair(line)
    else if IsItem(line) then None
    else ParseKeyValue(Trim(line))
  }

  function Pairs(block: seq<string>, base: nat): seq<(string, string)> {
    if block == [] then []
    else
      var pair := PairOn(block[0], base);
      (if pair.Some? then [pair.value] else []) + Pairs(block[1..], base)
  }

  function Write(e: Entry, pairs: seq<(string, string)>): Entry
    decreases |pairs|
  {
    if pairs == [] then e else Write(e[pairs[0].0 := pairs[0].1], pairs[1..])
  }

  /** An entry holds exactly the keys written to it, each with the last value. */
  lemma {:induction false} LastValueWins(e: Entry, pairs: seq<(string, string)>, key: string, i: nat)
    requires i < |pairs| && pairs[i].0 == key
    requires forall j :: i < j < |pairs| ==> pairs[j].0 != key
    ensures key in Write(e, pairs) && Write(e, pairs)[key] == pairs[i].1
    decreases |pairs|
  {
    if i > 0 {
      LastValueWins(e[pairs[0].0 := pairs[0].1], pairs[1..], key, i - 1);
    } else {
      Unwritten(e[key := pairs[0].1], pairs[1..], key);
    }
  }

  lemma {:induction false} Unwritten(e: Entry, pairs: seq<(string, string)>, key: string)
    requires forall j :: 0 <= j < |pairs| ==> pairs[j].0 != key
    ensures key in Write(e, pairs) <==> key in e
    ensures key in e ==> Write(e, pairs)[key] == e[key]
    decreases |pairs|
  {
    if pairs != [] { Unwritten(e[pairs[0].0 := pairs[0].1], pairs[1..], key); }
  }

  function Entries(blocks: seq<seq<string>>, base: nat): seq<Entry> {
    if blocks == [] then [] else [Write(map[], Pairs(blocks[0], base))] + Entries(blocks[1..], base)
  }

  lemma FirstLineFirst(e: Entry, line: string, rest: seq<string>, base: nat)
    ensures Write(e, Pairs([line] + rest, base)) == Write(With(e, PairOn(line, base)), Pairs(rest, base))
  {
    var pair := PairOn(line, base);
    assert ([line] + rest)[1..] == rest;
    if pair.Some? {
      assert ([pair.value] + Pairs(rest, base))[1..] == Pairs(rest, base);
    } else {
      assert [] + Pairs(rest, base) == Pairs(rest, base);
    }
  }

  lemma {:induction false} PassFrom(body: seq<string>, base: nat, e: Entry)
    ensures Pass(body, Some(base), Some(e)) ==
            [Write(e, Pairs(UpToStart(body, base), base))] + Entries(Blocks(body, base), base)
  {
    if body != [] {
      var line, rest := body[0], body[1..];
      FirstLineFirst(if Starts(line, base) then map[] else e, line, UpToStart(rest, base), base);
      PassFrom(rest, base, With(if Starts(line, base) then map[] else e, PairOn(line, base)));
    }
  }

  /** One entry for each item at the first item's indent, made of its own block;
      items at any other indent add nothing. */
  lemma {:induction false} OneEntryPerBlock(body: seq<string>)
    ensures Pass(body, None, None) ==
            if BaseOf(body).None? then [] else Entries(Blocks(body, BaseOf(body).value), BaseOf(body).value)
  {
    if body != [] {
      var line, rest := body[0], body[1..];
      if IsItem(line) {
        FirstLineFirst(map[], line, UpToStart(rest, Indent(line)), Indent(line));
        PassFrom(rest, Indent(line), With(map[], ItemPair(line)));
      } else {
        OneEntryPerBlock(rest);
      }
    }
  }

  // ---------- writing a section out and reading it back ----------

  predicate PlainKey(key: string) {
    key != "" && Trimmed(key) && ':' !in key && key[0] != '-' && key[0] != '#'
  }

  predicate PlainValue(value: string) {
    Trimmed(value) && (value == "" || (value[0] !in "\"'" && value[|value| - 1] !in "\"'"))
  }

  predicate Plain(pair: (string, string)) { PlainKey(pair.0) && PlainValue(pair.1) }

  function PairText(pair: (string, string)): string { pair.0 + ": \"" + pair.1 + "\"" }

  lemma {:induction false} IndexAfter(key: string, rest: string, c: char)
    requires c !in key && rest != [] && rest[0] == c
    ensures IndexOf(key + rest, c) == |key|
  {
    if key == [] {
      assert key + rest == rest;
    } else {
      assert (key + rest)[1..] == key[1..] + rest;
      assert key[0] in key;
      IndexAfter(key[1..], rest, c);
    }
  }

  /** Trimming quotes off a quoted text that neither begins nor ends with one. */
  lemma QuotesOff(value: string)
    requires value == "" || (value[0] != '"' && value[|value| - 1] != '"')
    ensures TrimOf("\"" + value + "\"", '"') == value
  {
    var quoted, closed := "\"" + value + "\"", value + "\"";
    assert quoted[1..] == closed;
    assert closed[..|value|] == value;
    if value == "" {
      assert closed == ['"'] && closed[1..] == [];
      assert TrimLeftOf(closed, '"') == TrimLeftOf([], '"');
    } else {
      assert TrimLeftOf(quoted, '"') == TrimLeftOf(closed, '"') == closed;
      assert TrimRightOf(closed, '"') == TrimRightOf(value, '"') == value;
    }
  }

  lemma SpaceOff(text: string)
    requires text != "" && Trimmed(text)
    ensures Trim(" " + text) == text
  {
    assert (" " + text)[1..] == text;
    assert TrimLeft(" " + text) == TrimLeft(text) == text;
  }

  lemma Unquoted(value: string)
    requires PlainValue(value)
    ensures CleanValue(" \"" + value + "\"") == value
  {
    var quoted := "\"" + value + "\"";
    assert " \"" + value + "\"" == " " + quoted;
    SpaceOff(quoted);
    QuotesOff(value);
    assert TrimOf(value, '\'') == value;
  }

  lemma PairReadsBack(pair: (string, string))
    requires Plain(pair)
    ensures ParseKeyValue(PairText(pair)) == Some(pair)
  {
    var rest := ": \"" + pair.1 + "\"";
    assert PairText(pair) == pair.0 + rest;
    IndexAfter(pair.0, rest, ':');
    assert (pair.0 + rest)[..|pair.0|] == pair.0;
    assert (pair.0 + rest)[|pair.0| + 1..] == " \"" + pair.1 + "\"";
    Unquoted(pair.1);
  }

  /** A line as the lock files indent it: a dash opens an entry. */
  function LineOf(pair: (string, string), opens: bool): string {
    (if opens then "  - " else "    ") + PairText(pair)
  }

  lemma {:induction false} Indented(spaces: string, text: string)
    requires forall i :: 0 <= i < |spaces| ==> spaces[i] == ' '
    requires text != "" && Trimmed(text)
    ensures Trim(spaces + text) == text && Indent(spaces + text) == |spaces|
  {
    if spaces == [] {
      assert spaces + text == text;
    } else {
      assert (spaces + text)[1..] == spaces[1..] + text;
      Indented(spaces[1..], text);
    }
  }

  predicate ReadsBack(line: string, pair: (string, string), opens: bool) {
    && !Skipped(line) && !Closes(line, 0) && Indent(line) == (if opens then 2 else 4)
    && IsItem(line) == opens
    && (if opens then ItemPair(line) == Some(pair) else ParseKeyValue(Trim(line)) == Some(pair))
  }

  lemma TextEnds(pair: (string, string))
    requires Plain(pair)
    ensures var text := PairText(pair);
      && text != "" && Trimmed(text) && text[0] == pair.0[0] && text[|text| - 1] == '"'
  {
  }

  lemma ItemReadsBack(pair: (string, string))
    requires Plain(pair)
    ensures ReadsBack(LineOf(pair, true), pair, true)
  {
    var text := PairText(pair);
    var item := "- " + text;
    TextEnds(pair);
    PairReadsBack(pair);
    assert LineOf(pair, true) == "  " + item;
    Indented("  ", item);
    DashOpens("  " + item, text);
  }

  /** A line that trims to a dash and a trimmed text is the item of that text. */
  lemma DashOpens(line: string, text: string)
    requires Trim(line) == "- " + text && text != "" && Trimmed(text)
    ensures IsItem(line) && ItemPair(line) == ParseKeyValue(text)
  {
    var item := "- " + text;
    assert item[0] == '-' && item[..2] == "- " && item[2..] == text;
  }

  lemma FieldReadsBack(pair: (string, string))
    requires Plain(pair)
    ensures ReadsBack(LineOf(pair, false), pair, false)
  {
    var text := PairText(pair);
    TextEnds(pair);
    PairReadsBack(pair);
    Indented("    ", text);
    assert text[0] != "- "[0] && text[0] != "#"[0];
  }

  lemma LineReadsBack(pair: (string, string), opens: bool)
    requires Plain(pair)
    ensures ReadsBack(LineOf(pair, opens), pair, opens)
  {
    if opens { ItemReadsBack(pair); } else { FieldReadsBack(pair); }
  }

  function LinesOf(pairs: seq<(string, string)>): seq<string> {
    if pairs == [] then [] else [LineOf(pairs[0], false)] + LinesOf(pairs[1..])
  }

  predicate PlainEntry(pairs: seq<(string, string)>) {
    pairs != [] && forall i :: 0 <= i < |pairs| ==> Plain(pairs[i])
  }

  function EntryLines(pairs: seq<(string, string)>): seq<string>
    requires PlainEntry(pairs)
  {
    [LineOf(pairs[0], true)] + LinesOf(pairs[1..])
  }

  predicate PlainEntries(entries: seq<seq<(string, string)>>) {
    forall i :: 0 <= i < |entries| ==> PlainEntry(entries[i])
  }

  function BodyLines(entries: seq<seq<(string, string)>>): seq<string>
    requires PlainEntries(entries)
  {
    if entries == [] then [] else EntryLines(entries[0]) + BodyLines(entries[1..])
  }

  function Written(entries: seq<seq<(string, string)>>): seq<Entry> {
    if entries == [] then [] else [Write(map[], entries[0])] + Written(entries[1..])
  }

  lemma {:induction false} PassOverLines(pairs: seq<(string, string)>, rest: seq<string>, e: Entry)
    requires forall i :: 0 <= i < |pairs| ==> Plain(pairs[i])
    ensures Pass(LinesOf(pairs) + rest, Some(2), Some(e)) == Pass(rest, Some(2), Some(Write(e, pairs)))
    decreases |pairs|
  {
    var lines := LinesOf(pairs) + rest;
    if pairs == [] {
      assert lines == rest;
    } else {
      LineReadsBack(pairs[0], false);
      assert lines[0] == LineOf(pairs[0], false) && lines[1..] == LinesOf(pairs[1..]) + rest;
      PassOverLines(pairs[1..], rest, With(e, Some(pairs[0])));
    }
  }

  lemma PassOverEntry(pairs: seq<(string, string)>, rest: seq<string>, base: Option<nat>, current: Option<Entry>)
    requires PlainEntry(pairs) && (base == None || base == Some(2))
    ensures Pass(EntryLines(pairs) + rest, base, current) ==
            Flushed(current) + Pass(rest, Some(2), Some(Write(map[], pairs)))
  {
    var first, others := LineOf(pairs[0], true), LinesOf(pairs[1..]);
    LineReadsBack(pairs[0], true);
    assert EntryLines(pairs) + rest == [first] + (others + rest);
    PassOpens(first, pairs[0], others + rest, base, current);
    PassOverLines(pairs[1..], rest, With(map[], Some(pairs[0])));
  }

  lemma PassOpens(
    line: string, pair: (string, string), rest: seq<string>, base: Option<nat>, current: Option<Entry>)
    requires ReadsBack(line, pair, true) && (base == None || base == Some(2))
    ensures Pass([line] + rest, base, current) == Flushed(current) + Pass(rest, Some(2), Some(With(map[], Some(pair))))
  {
    assert ([line] + rest)[1..] == rest;
  }

  lemma {:induction false} PassOverEntries(
    entries: seq<seq<(string, string)>>, base: Option<nat>, current: Option<Entry>)
    requires PlainEntries(entries) && (base == None || base == Some(2))
    ensures Pass(BodyLines(entries), base, current) == Flushed(current) + Written(entries)
  {
    if entries != [] {
      PassOverEntry(entries[0], BodyLines(entries[1..]), base, current);
      PassOverEntries(entries[1..], Some(2), Some(Write(map[], entries[0])));
    }
  }

  lemma {:induction false} LinesNeverClose(pairs: seq<(string, string)>)
    requires forall i :: 0 <= i < |pairs| ==> Plain(pairs[i])
    ensures !HasCloser(LinesOf(pairs), 0)
  {
    if pairs != [] {
      LineReadsBack(pairs[0], false);
      LinesNeverClose(pairs[1..]);
    }
  }

  lemma {:induction false} BodyNeverCloses(entries: seq<seq<(string, string)>>)
    requires PlainEntries(entries)
    ensures !HasCloser(BodyLines(entries), 0)
  {
    if entries != [] {
      LineReadsBack(entries[0][0], true);
      LinesNeverClose(entries[0][1..]);
      BodyNeverCloses(entries[1..]);
    }
  }

  /** A section written out is read back, inside any file whose earlier lines do
      not open a section of that name and whose next line closes it. */
  lemma WrittenSectionReadsBack(
    before: seq<string>, section: string, entries: seq<seq<(string, string)>>, rest: seq<string>)
    requires PlainKey(section) && entries != [] && PlainEntries(entries)
    requires !HasHeader(before, section)
    requires rest == [] || Closes(rest[0], 0)
    ensures Parse(before + ([section + ":"] + BodyLines(entries) + rest), section) == Some(Written(entries))
  {
    var header := section + ":";
    Indented("", header);
    assert "" + header == header;
    BodyNeverCloses(entries);
    SectionStandsAlone(before, header, BodyLines(entries), rest, section);
    PassOverEntries(entries, None, None);
    assert Flushed(None) + Written(entries) == Written(entries);
  }
}
