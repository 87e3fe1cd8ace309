/** Catalog files written from a query parse back to that query. */
module CatalogRoundTrip {
  import opened Sequences
  import opened Catalog

  // ----- Writing a catalog file -----

  /** How a parameter is spelled: with its type, or relying on the default. */
  datatype Spelling = Typed(name: string, typ: string) | Defaulted(name: string)

  /** A query laid out in lines: `description` holds the lines of a possibly
      multi-line description, `body` those of the SQL text. */
  datatype Document = Document(
    id: string,
    purpose: string,
    description: seq<string>,
    requiredColumns: seq<string>,
    parameters: seq<Spelling>,
    expectedOutput: seq<string>,
    body: seq<string>)

  function HeaderLine(key: string, val: string): string {
    "-- " + key + ": " + val
  }

  function ContinuationLine(text: string): string {
    "--   " + text
  }

  function Continuations(texts: seq<string>): (ls: seq<string>)
    ensures |ls| == |texts| && forall i :: 0 <= i < |ls| ==> ls[i] == ContinuationLine(texts[i])
  {
    seq(|texts|, i requires 0 <= i < |texts| => ContinuationLine(texts[i]))
  }

  function Spell(p: Spelling): string {
    match p case Typed(name, typ) => name + ":" + typ case Defaulted(name) => name
  }

  function SpellAll(ps: seq<Spelling>): (ss: seq<string>)
    ensures |ss| == |ps| && forall i :: 0 <= i < |ss| ==> ss[i] == Spell(ps[i])
  {
    seq(|ps|, i requires 0 <= i < |ps| => Spell(ps[i]))
  }

  function CSV(items: seq<string>): string {
    Join(items, ", ")
  }

  function DocumentLines(d: Document): seq<string>
    requires d.description != []
  {
    [HeaderLine("id", d.id), HeaderLine("purpose", d.purpose), HeaderLine("description", d.description[0])]
    + Continuations(d.description[1..])
    + [HeaderLine("required_columns", CSV(d.requiredColumns)), HeaderLine("parameters", CSV(SpellAll(d.parameters))),
       HeaderLine("expected_output", CSV(d.expectedOutput)), ""]
    + d.body
  }

  function Unlines(lines: seq<string>): string {
    if lines == [] then "" else lines[0] + "\n" + Unlines(lines[1..])
  }

  function Render(d: Document): string
    requires d.description != []
  {
    Unlines(DocumentLines(d))
  }

  function Meaning(p: Spelling): Parameter {
    match p case Typed(name, typ) => Parameter(name, typ) case Defaulted(name) => Parameter(name, "VARCHAR")
  }

  function Meanings(ps: seq<Spelling>): (ms: seq<Parameter>)
    ensures |ms| == |ps| && forall i :: 0 <= i < |ms| ==> ms[i] == Meaning(ps[i])
  {
    seq(|ps|, i requires 0 <= i < |ps| => Meaning(ps[i]))
  }

  function QueryOf(d: Document): Query {
    Query(d.id, d.purpose, Join(d.description, " "), d.requiredColumns, Meanings(d.parameters), d.expectedOutput, Join(d.body, "\n"))
  }

  // ----- Well-formedness -----

  predicate Trimmed(s: string) {
    s != "" ==> !IsSpace(s[0]) && !IsSpace(s[|s| - 1])
  }

  predicate Clean(s: string) {
    Trimmed(s) && '\n' !in s
  }

  predicate Item(s: string) {
    Clean(s) && s != "" && ',' !in s
  }

  /** A trimmed part of a comma-separated item, possibly empty. */
  predicate Part(s: string) {
    Clean(s) && ',' !in s
  }

  predicate GoodSpelling(p: Spelling) {
    Part(p.name) && ':' !in p.name && match p case Typed(_, typ) => Part(typ) case Defaulted(name) => name != ""
  }

  predicate EndsInCR(line: string) {
    line != "" && line[|line| - 1] == '\r'
  }

  /** A line the scanner delivers as it is. */
  predicate Scannable(line: string) {
    '\n' !in line && |line| < MAX_TOKEN && !EndsInCR(line)
  }

  predicate BodyStart(line: string) {
    Trim(line) != "" && !("--" <= Trim(line))
  }

  /** What the parser needs to tell the parts of a document apart. */
  ghost predicate Readable(d: Document) {
    && Clean(d.id) && Clean(d.purpose)
    && d.description != [] && (forall t :: t in d.description ==> Clean(t))
    && (forall t :: t in d.description[1..] ==> SplitHeaderLine(t).None?)
    && (forall c :: c in d.requiredColumns ==> Item(c))
    && (forall p :: p in d.parameters ==> GoodSpelling(p))
    && (forall c :: c in d.expectedOutput ==> Item(c))
    && (d.body != [] ==> BodyStart(d.body[0]))
    && (forall l :: l in d.body ==> '\n' !in l)
  }

  /** What the scanner needs to deliver it unchanged. */
  ghost predicate Deliverable(d: Document)
    requires d.description != []
  {
    (forall l :: l in d.body ==> !EndsInCR(l)) && forall l :: l in DocumentLines(d) ==> |l| < MAX_TOKEN
  }

  ghost predicate WellFormed(d: Document) {
    Readable(d) && Deliverable(d) && Trimmed(Join(d.description, " ")) && Trimmed(Join(d.body, "\n"))
  }

  // ----- Trimming -----

  lemma TrimTrimmed(s: string)
    requires Trimmed(s)
    ensures Trim(s) == s && TrimRight(s) == s && TrimLeft(s) == s
  {}

  lemma TrimLeftSpace(s: string)
    ensures TrimLeft(" " + s) == TrimLeft(s)
  {}

  lemma TrimSpaced(s: string)
    requires Trimmed(s)
    ensures Trim(" " + s) == s && Trim("   " + s) == s
    ensures TrimRight(" " + s) == (if s == "" then "" else " " + s)
    ensures TrimRight("   " + s) == (if s == "" then "" else "   " + s)
  {
    TrimTrimmed(s);
    TrimLeftSpace(s);
    TrimLeftSpace(" " + s);
    TrimLeftSpace("  " + s);
    assert "  " + s == " " + (" " + s) && "   " + s == " " + ("  " + s);
    if s == "" {
      assert " "[..0] == "" && "  "[..1] == " " && "   "[..2] == "  ";
      assert " " + s == " " && "   " + s == "   ";
    }
  }

  lemma {:induction false} TrimRightAppend(a: string, t: string)
    requires a != "" && !IsSpace(a[|a| - 1])
    ensures TrimRight(a + t) == a + TrimRight(t)
  {
    if t == "" {
      assert a + t == a;
    } else if IsSpace(t[|t| - 1]) {
      assert (a + t)[..|a + t| - 1] == a + t[..|t| - 1];
      TrimRightAppend(a, t[..|t| - 1]);
    }
  }

  /** Trimming a comment line leaves its two dashes and trims what follows. */
  lemma TrimComment(t: string)
    ensures Trim("--" + t) == "--" + TrimRight(t)
  {
    TrimRightAppend("--", t);
  }

  // ----- Header lines -----

  lemma FirstOccurrence(a: string, t: string, c: char)
    requires c !in a
    ensures IndexOf(a + [c] + t, c) == |a|
  {
    var s := a + [c] + t;
    var i := IndexOf(s, c);
    assert s[|a|] == c;
    assert c in s;
    assert forall k :: 0 <= k < i ==> s[k] == s[..i][k];
    assert forall k :: 0 <= k < |a| ==> s[k] == a[k];
  }

  ghost predicate IsKey(key: string) {
    key != "" && forall i :: 0 <= i < |key| ==> KeyChar(key[i])
  }

  /** `w` is what follows the colon: nothing, or a space and the value. */
  lemma HeaderSplits(key: string, w: string)
    requires IsKey(key)
    ensures SplitHeaderLine(key + ":" + w) == Some((key, Trim(w)))
  {
    var s := key + ":" + w;
    FirstOccurrence(key, w, ':');
    assert s[..|key|] == key && s[|key| + 1..] == w;
    TrimTrimmed(key);
  }

  function Tail(val: string): string {
    if val == "" then "" else " " + val
  }

  lemma HeaderTrimmed(key: string, val: string)
    requires IsKey(key) && Trimmed(val)
    ensures Trim(HeaderLine(key, val)) == "--" + (" " + (key + ":" + Tail(val)))
  {
    hide Trim, TrimRight, TrimLeft, IsSpace;
    var a := " " + key + ":";
    assert HeaderLine(key, val) == "--" + (a + (" " + val));
    TrimComment(a + (" " + val));
    ColonIsNoSpace();
    TrimRightAppend(a, " " + val);
    TrimSpaced(val);
    assert a + Tail(val) == " " + (key + ":" + Tail(val));
  }

  lemma ColonIsNoSpace()
    ensures !IsSpace(':')
  {}

  lemma HeaderBody(key: string, val: string)
    requires IsKey(key) && Trimmed(val)
    ensures "--" <= Trim(HeaderLine(key, val)) && Trim(Trim(HeaderLine(key, val))[2..]) == key + ":" + Tail(val)
    ensures Trim(Tail(val)) == val
  {
    hide Trim, HeaderLine;
    HeaderTrimmed(key, val);
    var body := key + ":" + Tail(val);
    assert ("--" + (" " + body))[2..] == " " + body;
    assert body[|body| - 1] == if val == "" then ':' else val[|val| - 1];
    assert Trimmed(body);
    TrimSpaced(body);
    TrimTrimmed(val);
    TrimSpaced(val);
  }

  lemma ReadHeader(p: Progress, key: string, val: string)
    requires p.inHeader && IsKey(key) && Trimmed(val)
    ensures ReadLine(p, HeaderLine(key, val)) == Assign(p, key, val)
  {
    hide Assign, HeaderLine;
    HeaderBody(key, val);
    HeaderSplits(key, Tail(val));
  }

  lemma ContinuationBody(text: string)
    requires Trimmed(text)
    ensures "--" <= Trim(ContinuationLine(text)) && Trim(Trim(ContinuationLine(text))[2..]) == text
  {
    assert ContinuationLine(text) == "--" + ("   " + text);
    TrimComment("   " + text);
    TrimSpaced(text);
    assert ("--" + TrimRight("   " + text))[2..] == TrimRight("   " + text);
  }

  predicate KnownKey(key: string) {
    key in {"id", "purpose", "description", "required_columns", "parameters", "expected_output"}
  }

  /** A prose line is appended to the description exactly if it does not read as
      a header; a line such as "note: ..." is taken for an unknown key and lost. */
  lemma ContinuationKeptExactlyWhen(p: Progress, text: string)
    requires p.inHeader && p.description != [] && Trimmed(text)
    ensures ReadLine(p, ContinuationLine(text)) == p.(description := p.description + [text]) <==> SplitHeaderLine(text).None?
    ensures SplitHeaderLine(text).Some? && !KnownKey(SplitHeaderLine(text).value.0) ==>
      ReadLine(p, ContinuationLine(text)) == p
  {
    hide ContinuationLine, SplitCSVSpec, ParseParametersSpec;
    ContinuationBody(text);
    if SplitHeaderLine(text).Some? {
      var header := SplitHeaderLine(text).value;
      ShorterValue(text);
      var p' := Assign(p, header.0, header.1);
      assert p'.description == p.description || p'.description == p.description + [header.1];
      assert (p.description + [header.1])[|p.description|] == header.1;
      assert (p.description + [text])[|p.description|] == text;
    } else {
      assert IsSpace(' ') && (text == "" || text[0] != ' ');
    }
  }

  /** Prose above the description is ignored. */
  lemma EarlyProseIgnored(p: Progress, text: string)
    requires p.inHeader && p.description == [] && Trimmed(text) && SplitHeaderLine(text).None?
    ensures ReadLine(p, ContinuationLine(text)) == p
  {
    hide ContinuationLine;
    ContinuationBody(text);
  }

  lemma ShorterValue(text: string)
    requires SplitHeaderLine(text).Some?
    ensures |SplitHeaderLine(text).value.1| < |text|
  {
    TrimShortens(text[IndexOf(text, ':') + 1..]);
  }

  lemma TrimShortens(s: string)
    ensures |Trim(s)| <= |s|
  {
    TrimLeftShortens(s);
    TrimRightShortens(TrimLeft(s));
  }

  lemma TrimLeftShortens(s: string)
    ensures |TrimLeft(s)| <= |s|
  {}

  lemma TrimRightShortens(s: string)
    ensures |TrimRight(s)| <= |s|
  {}

  predicate Blank(s: string) {
    forall i :: 0 <= i < |s| ==> !Solid(s[i])
  }

  lemma {:induction false} TrimRightSplits(s: string) returns (gap: string)
    ensures s == TrimRight(s) + gap && Blank(gap)
  {
    gap := "";
    if s != [] && IsSpace(s[|s| - 1]) {
      gap := TrimRightSplits(s[..|s| - 1]);
      gap := gap + [s[|s| - 1]];
    }
  }

  lemma {:induction false} TrimRightBlank(s: string)
    requires Blank(s)
    ensures TrimRight(s) == ""
  {
    if s != "" { TrimRightBlank(s[..|s| - 1]); }
  }

  lemma TrimWord(word: string, gap: string)
    requires IsKey(word) && Blank(gap)
    ensures Trim(word + gap) == word
  {
    assert KeyChar(word[0]) && KeyChar(word[|word| - 1]);
    TrimRightAppend(word, gap);
    TrimRightBlank(gap);
  }

  /** What trimming leaves: the text between blanks, which neither begins nor ends
      with one of the code points of white space. */
  lemma TrimExactly(s: string) returns (lead: string, trail: string)
    ensures s == lead + Trim(s) + trail && Blank(lead) && Blank(trail)
    ensures Trim(s) != "" ==> Solid(Trim(s)[0]) && Solid(Trim(s)[|Trim(s)| - 1])
  {
    hide IsSpace;
    lead := TrimLeftSplits(s);
    trail := TrimRightSplits(TrimLeft(s));
    TrimWithin(s);
    if Trim(s) != "" { SolidExactly(Trim(s)[0]); SolidExactly(Trim(s)[|Trim(s)| - 1]); }
  }

  /** Not one of the 25 code points with the property White_Space of Unicode. */
  predicate Solid(c: char) {
    c as int !in {9, 10, 11, 12, 13, 32, 0x85, 0xA0, 0x1680, 0x2000, 0x2001, 0x2002, 0x2003, 0x2004, 0x2005, 0x2006, 0x2007,
                  0x2008, 0x2009, 0x200A, 0x2028, 0x2029, 0x202F, 0x205F, 0x3000}
  }

  lemma SolidExactly(c: char)
    ensures Solid(c) <==> !IsSpace(c)
  {}

  lemma {:induction false} TrimLeftSplits(s: string) returns (lead: string)
    ensures s == lead + TrimLeft(s) && Blank(lead)
  {
    lead := "";
    if s != [] && IsSpace(s[0]) {
      lead := TrimLeftSplits(s[1..]);
      lead := [s[0]] + lead;
    }
  }

  /** A single word of the letters a to z and underscores. */
  predicate Word(s: string) {
    s != "" && forall i :: 0 <= i < |s| ==> 'a' <= s[i] <= 'z' || s[i] == '_'
  }

  /** A description line reads as a header exactly if it begins with such a word,
      followed by a colon. */
  lemma HeaderExactlyWhen(text: string)
    requires Trimmed(text)
    ensures SplitHeaderLine(text).Some? <==>
      exists word, gap, rest :: Word(word) && Blank(gap) && text == word + gap + [':'] + rest
  {
    if SplitHeaderLine(text).Some? {
      var i := IndexOf(text, ':');
      var word := Trim(text[..i]);
      assert TrimLeft(text[..i]) == text[..i];
      var gap := TrimRightSplits(text[..i]);
      assert Word(word) && text == word + gap + [':'] + text[i + 1..];
    }
    if word, gap, rest :| Word(word) && Blank(gap) && text == word + gap + [':'] + rest {
      WordBeforeColon(word, gap, rest);
    }
  }

  lemma WordBeforeColon(word: string, gap: string, rest: string)
    requires IsKey(word) && Blank(gap)
    ensures SplitHeaderLine(word + gap + [':'] + rest) == Some((word, Trim(rest)))
  {
    hide Trim;
    var text := word + gap + [':'] + rest;
    ColonIsNoSpace();
    FirstOccurrence(word + gap, rest, ':');
    TrimWord(word, gap);
    assert text[..|word + gap|] == word + gap && text[|word + gap| + 1..] == rest;
  }

  /** So a line such as "note: ..." is a header, whose key is unknown and whose text
      is lost. */
  lemma OneWordLeadInIsAKey(word: string, text: string)
    requires IsKey(word) && Trimmed(text) && text != ""
    ensures SplitHeaderLine(word + ": " + text) == Some((word, text))
  {
    hide SplitHeaderLine, Trim;
    assert word + ": " + text == word + ":" + (" " + text);
    HeaderSplits(word, " " + text);
    TrimSpaced(text);
  }

  // ----- Comma-separated values -----

  lemma SplitAtFirst(a: string, t: string, c: char)
    requires c !in a
    ensures Split(a + [c] + t, c) == [a] + Split(t, c)
  {
    FirstOccurrence(a, t, c);
    assert (a + [c] + t)[..|a|] == a && (a + [c] + t)[|a| + 1..] == t;
  }

  lemma KeptItem(lead: string, item: string)
    requires (lead == "" || lead == " ") && Item(item)
    ensures ',' !in lead + item
    ensures Flatten(KeepTrimmed(), [lead + item]) == [item]
  {
    TrimTrimmed(item);
    TrimSpaced(item);
    assert "" + item == item;
    hide Trim;
    assert [lead + item] == [] + [lead + item];
    FlattenOne(KeepTrimmed(), [], lead + item);
  }

  lemma {:induction false} SplitItems(lead: string, items: seq<string>)
    requires lead == "" || lead == " "
    requires items != [] && forall c :: c in items ==> Item(c)
    ensures Flatten(KeepTrimmed(), Split(lead + CSV(items), ',')) == items
    decreases |items|
  {
    hide Split, Flatten, KeepTrimmed, Item;
    var first := lead + items[0];
    assert items[0] in items;
    KeptItem(lead, items[0]);
    if |items| == 1 {
      assert lead + CSV(items) == first;
      SplitAlone(first);
      assert items == [items[0]];
    } else {
      var rest := items[1..];
      CSVCons(lead, items);
      SplitAtFirst(first, " " + CSV(rest), ',');
      SplitItems(" ", rest);
      FlattenConcat(KeepTrimmed(), [first], Split(" " + CSV(rest), ','));
      assert items == [items[0]] + rest;
    }
  }

  lemma CSVCons(lead: string, items: seq<string>)
    requires |items| > 1
    ensures lead + CSV(items) == lead + items[0] + [','] + (" " + CSV(items[1..]))
  {}

  lemma SplitAlone(s: string)
    requires ',' !in s
    ensures Split(s, ',') == [s]
  {}

  lemma {:induction false} CSVClean(items: seq<string>)
    requires forall c :: c in items ==> Item(c)
    ensures Clean(CSV(items))
    ensures items != [] ==> CSV(items) != ""
  {
    if |items| >= 1 { assert items[0] in items; }
    if |items| > 1 { CSVClean(items[1..]); }
  }

  lemma CSVRoundTrip(items: seq<string>)
    requires forall c :: c in items ==> Item(c)
    ensures SplitCSVSpec(CSV(items)) == items
  {
    CSVClean(items);
    TrimTrimmed(CSV(items));
    if items != [] {
      SplitItems("", items);
      assert "" + CSV(items) == CSV(items);
    }
  }

  lemma SpellingRoundTrip(p: Spelling)
    requires GoodSpelling(p)
    ensures Item(Spell(p)) && ToParameter(Spell(p)) == Meaning(p)
  {
    match p {
      case Defaulted(name) =>
      case Typed(name, typ) =>
        FirstOccurrence(name, typ, ':');
        assert Spell(p)[..|name|] == name && Spell(p)[|name| + 1..] == typ;
        TrimTrimmed(name);
        TrimTrimmed(typ);
    }
  }

  lemma ParametersRoundTrip(ps: seq<Spelling>)
    requires forall p :: p in ps ==> GoodSpelling(p)
    ensures forall s :: s in SpellAll(ps) ==> Item(s)
    ensures ParseParametersSpec(CSV(SpellAll(ps))) == Meanings(ps)
  {
    hide Spell, ToParameter, Meaning, CSV, SplitCSVSpec;
    forall i | 0 <= i < |ps| ensures Item(SpellAll(ps)[i]) && ToParameter(SpellAll(ps)[i]) == Meaning(ps[i]) {
      SpellingRoundTrip(ps[i]);
    }
    CSVRoundTrip(SpellAll(ps));
  }

  // ----- Lines -----

  lemma LinesCons(line: string, rest: string)
    requires '\n' !in line
    ensures Lines(line + ['\n'] + rest)
         == if |line| < MAX_TOKEN && Lines(rest).Some? then Some([DropCR(line)] + Lines(rest).value) else None
  {
    hide IndexOf, DropCR;
    var content := line + ['\n'] + rest;
    FirstOccurrence(line, rest, '\n');
    assert content[..|line|] == line && content[|line| + 1..] == rest;
  }

  function DropCRs(lines: seq<string>): (r: seq<string>)
    ensures |r| == |lines| && forall i :: 0 <= i < |r| ==> r[i] == DropCR(lines[i])
  {
    seq(|lines|, i requires 0 <= i < |lines| => DropCR(lines[i]))
  }

  predicate Fit(lines: seq<string>) {
    forall l :: l in lines ==> |l| < 1048576
  }

  /** What the scanner delivers of written lines, the last of which may lack its line
      break: nothing if one is too long, and otherwise the lines, each without a
      carriage return at its end. */
  lemma {:induction false} TextDelivered(lines: seq<string>, last: string)
    requires '\n' !in last && forall l :: l in lines ==> '\n' !in l
    ensures Lines(Unlines(lines) + last)
         == if Fit(lines) && |last| < 1048576 then Some(DropCRs(lines) + if last == "" then [] else [DropCR(last)]) else None
  {
    hide Lines, DropCR, Fit;
    if lines == [] {
      LastLine(last);
      assert Unlines(lines) + last == last;
      var tail := if last == "" then [] else [DropCR(last)];
      assert DropCRs(lines) + tail == tail;
      assert Fit(lines) by { FitCons(lines); }
    } else {
      assert lines[0] in lines;
      TextDelivered(lines[1..], last);
      assert Unlines(lines) + last == lines[0] + ['\n'] + (Unlines(lines[1..]) + last);
      LinesCons(lines[0], Unlines(lines[1..]) + last);
      FitCons(lines);
      assert DropCRs(lines) == [DropCR(lines[0])] + DropCRs(lines[1..]);
      var tail := if last == "" then [] else [DropCR(last)];
      assert [DropCR(lines[0])] + (DropCRs(lines[1..]) + tail) == DropCRs(lines) + tail;
    }
  }

  lemma LastLine(last: string)
    requires '\n' !in last
    ensures Lines(last) == if |last| < 1048576 then Some(if last == "" then [] else [DropCR(last)]) else None
  {
    hide DropCR;
  }

  lemma LinesDelivered(lines: seq<string>)
    requires forall l :: l in lines ==> '\n' !in l
    ensures Lines(Unlines(lines)) == if Fit(lines) then Some(DropCRs(lines)) else None
  {
    hide Lines, Unlines, Fit, DropCRs;
    TextDelivered(lines, "");
    assert Unlines(lines) + "" == Unlines(lines) && DropCRs(lines) + [] == DropCRs(lines);
  }

  lemma FitCons(lines: seq<string>)
    ensures Fit(lines) <==> lines == [] || (|lines[0]| < MAX_TOKEN && Fit(lines[1..]))
  {
    assert lines == [] || lines == [lines[0]] + lines[1..];
  }

  lemma LinesRoundTrip(lines: seq<string>)
    requires forall l :: l in lines ==> Scannable(l)
    ensures Lines(Unlines(lines)) == Some(lines)
  {
    LinesDelivered(lines);
    forall i | 0 <= i < |lines| ensures DropCRs(lines)[i] == lines[i] { assert lines[i] in lines; }
    assert DropCRs(lines) == lines;
  }

  lemma {:induction false} ReadLinesConcat(p: Progress, a: seq<string>, b: seq<string>)
    ensures ReadLines(p, a + b) == ReadLines(ReadLines(p, a), b)
  {
    hide ReadLine;
    if b == [] {
      assert a + b == a;
    } else {
      assert (a + b)[..|a + b| - 1] == a + b[..|b| - 1];
      ReadLinesConcat(p, a, b[..|b| - 1]);
    }
  }

  lemma ReadOne(p: Progress, line: string)
    ensures ReadLines(p, [line]) == ReadLine(p, line)
  {}

  lemma {:induction false} ReadContinuations(p: Progress, texts: seq<string>)
    requires p.inHeader && p.description != []
    requires forall t :: t in texts ==> Clean(t) && SplitHeaderLine(t).None?
    ensures ReadLines(p, Continuations(texts)) == p.(description := p.description + texts)
  {
    hide ReadLine;
    if texts == [] {
      assert p.description + texts == p.description;
    } else {
      var init, last := texts[..|texts| - 1], texts[|texts| - 1];
      assert last in texts;
      ReadContinuations(p, init);
      ContinuationKeptExactlyWhen(p.(description := p.description + init), last);
      assert Continuations(texts)[..|texts| - 1] == Continuations(init);
      assert p.description + init + [last] == p.description + texts;
    }
  }

  lemma {:induction false} ReadBody(p: Progress, body: seq<string>)
    requires p.inHeader && p.sql == [] && body != [] && BodyStart(body[0])
    ensures ReadLines(p, body) == p.(inHeader := false, sql := body)
  {
    hide Trim;
    if |body| == 1 {
      assert body == [body[0]];
      ReadOne(p, body[0]);
    } else {
      ReadBody(p, body[..|body| - 1]);
    }
  }

  /** The empty line between header and body leaves no trace. */
  lemma ReadBlank(p: Progress)
    requires p.inHeader
    ensures ReadLine(p, "") == p
  {}

  lemma KeysAreKeys()
    ensures IsKey("id") && IsKey("purpose") && IsKey("description")
    ensures IsKey("required_columns") && IsKey("parameters") && IsKey("expected_output")
  {}

  // ----- Whole documents -----

  /** A line of the header ends neither early nor in a carriage return. */
  predicate Plain(line: string) {
    '\n' !in line && !EndsInCR(line)
  }

  lemma HeaderPlain(key: string, val: string)
    requires IsKey(key) && Clean(val)
    ensures Plain(HeaderLine(key, val))
  {}

  lemma ContinuationPlain(text: string)
    requires Clean(text)
    ensures Plain(ContinuationLine(text))
  {}

  function FrontLines(d: Document): seq<string>
    requires d.description != []
  {
    [HeaderLine("id", d.id), HeaderLine("purpose", d.purpose), HeaderLine("description", d.description[0])]
  }

  function BackLines(d: Document): seq<string> {
    [HeaderLine("required_columns", CSV(d.requiredColumns)), HeaderLine("parameters", CSV(SpellAll(d.parameters))),
     HeaderLine("expected_output", CSV(d.expectedOutput)), ""]
  }

  function HeaderLines(d: Document): seq<string>
    requires d.description != []
  {
    FrontLines(d) + Continuations(d.description[1..]) + BackLines(d)
  }

  lemma HeadersPlain(d: Document)
    requires Readable(d)
    ensures DocumentLines(d) == HeaderLines(d) + d.body
    ensures forall l :: l in HeaderLines(d) ==> Plain(l)
  {
    hide HeaderLine, ContinuationLine, CSV, Plain, Clean, Trimmed, Item, GoodSpelling;
    KeysAreKeys();
    CSVClean(d.requiredColumns);
    CSVClean(d.expectedOutput);
    ParametersRoundTrip(d.parameters);
    CSVClean(SpellAll(d.parameters));
    var texts := d.description[1..];
    assert d.description[0] in d.description;
    forall l | l in HeaderLines(d) ensures Plain(l) {
      if l in FrontLines(d) {
        HeaderPlain("id", d.id);
        HeaderPlain("purpose", d.purpose);
        HeaderPlain("description", d.description[0]);
      } else if l in Continuations(texts) {
        var i := IndexOfMember(Continuations(texts), l);
        assert texts[i] in d.description;
        ContinuationPlain(texts[i]);
      } else {
        HeaderPlain("required_columns", CSV(d.requiredColumns));
        HeaderPlain("parameters", CSV(SpellAll(d.parameters)));
        HeaderPlain("expected_output", CSV(d.expectedOutput));
        BlankPlain();
      }
    }
  }

  lemma BlankPlain()
    ensures Plain("")
  {}

  lemma ReadFront(d: Document)
    requires Readable(d)
    ensures ReadLines(START, FrontLines(d)) == START.(id := d.id, purpose := d.purpose, description := [d.description[0]])
  {
    hide ReadLine, HeaderLine;
    KeysAreKeys();
    var a, b, c := HeaderLine("id", d.id), HeaderLine("purpose", d.purpose), HeaderLine("description", d.description[0]);
    assert d.description[0] in d.description;
    assert FrontLines(d) == [a] + [b] + [c];
    ReadHeader(START, "id", d.id);
    ReadHeader(START.(id := d.id), "purpose", d.purpose);
    ReadHeader(START.(id := d.id, purpose := d.purpose), "description", d.description[0]);
    ReadThree(START, a, b, c);
    assert [] + [d.description[0]] == [d.description[0]];
  }

  lemma ReadThree(p: Progress, a: string, b: string, c: string)
    ensures ReadLines(p, [a] + [b] + [c]) == ReadLine(ReadLine(ReadLine(p, a), b), c)
  {
    hide ReadLine;
    ReadLinesConcat(p, [a] + [b], [c]);
    ReadLinesConcat(p, [a], [b]);
    ReadOne(p, a);
    ReadOne(ReadLine(p, a), b);
    ReadOne(ReadLine(ReadLine(p, a), b), c);
  }

  lemma ReadBack(p: Progress, d: Document)
    requires Readable(d) && p.inHeader
    ensures ReadLines(p, BackLines(d))
         == p.(requiredColumns := d.requiredColumns, parameters := Meanings(d.parameters), expectedOutput := d.expectedOutput)
  {
    hide ReadLine, HeaderLine, CSV, SplitCSVSpec, ParseParametersSpec, Item, GoodSpelling;
    KeysAreKeys();
    CSVClean(d.requiredColumns);
    CSVClean(d.expectedOutput);
    CSVRoundTrip(d.requiredColumns);
    CSVRoundTrip(d.expectedOutput);
    ParametersRoundTrip(d.parameters);
    CSVClean(SpellAll(d.parameters));
    var cols, params, outs := CSV(d.requiredColumns), CSV(SpellAll(d.parameters)), CSV(d.expectedOutput);
    var a, b, c := HeaderLine("required_columns", cols), HeaderLine("parameters", params), HeaderLine("expected_output", outs);
    var p1 := p.(requiredColumns := d.requiredColumns);
    var p2 := p1.(parameters := Meanings(d.parameters));
    ReadHeader(p, "required_columns", cols);
    ReadHeader(p1, "parameters", params);
    ReadHeader(p2, "expected_output", outs);
    ReadThree(p, a, b, c);
    var p3 := p2.(expectedOutput := d.expectedOutput);
    ReadBlank(p3);
    ReadLinesConcat(p, [a] + [b] + [c], [""]);
    ReadOne(p3, "");
    assert BackLines(d) == [a] + [b] + [c] + [""];
  }

  lemma DocumentRead(d: Document)
    requires Readable(d)
    ensures var p := ReadLines(START, DocumentLines(d));
      && p.id == d.id && p.purpose == d.purpose && p.description == d.description
      && p.requiredColumns == d.requiredColumns && p.parameters == Meanings(d.parameters) && p.expectedOutput == d.expectedOutput
      && p.sql == d.body
  {
    hide ReadLine, HeaderLine, ContinuationLine, CSV, ReadLines, Trim;
    var texts := d.description[1..];
    assert DocumentLines(d) == FrontLines(d) + Continuations(texts) + BackLines(d) + d.body;
    ReadFront(d);
    var p := ReadLines(START, FrontLines(d));
    ReadContinuations(p, texts);
    assert [d.description[0]] + texts == d.description;
    var p2 := p.(description := d.description);
    ReadBack(p2, d);
    var p3 := ReadLines(p2, BackLines(d));
    ReadLinesConcat(START, FrontLines(d), Continuations(texts));
    ReadLinesConcat(START, FrontLines(d) + Continuations(texts), BackLines(d));
    ReadLinesConcat(START, FrontLines(d) + Continuations(texts) + BackLines(d), d.body);
    if d.body == [] { ReadNothing(p3); } else { ReadBody(p3, d.body); }
  }

  lemma ReadNothing(p: Progress)
    ensures ReadLines(p, []) == p
  {}

  /** Every well-formed document, with multi-line descriptions, defaulted types
      and comments inside the SQL, parses to the query it lays out. */
  lemma DocumentRoundTrip(d: Document)
    requires WellFormed(d)
    ensures Parsed(Render(d)) == Some(QueryOf(d))
  {
    hide ReadLines, DocumentLines, HeaderLines, Trim;
    HeadersPlain(d);
    LinesRoundTrip(DocumentLines(d));
    DocumentRead(d);
    TrimTrimmed(Join(d.description, " "));
    TrimTrimmed(Join(d.body, "\n"));
  }

  // ----- From queries -----

  function TypedSpellings(ps: seq<Parameter>): (ss: seq<Spelling>)
    ensures |ss| == |ps| && forall i :: 0 <= i < |ss| ==> ss[i] == Typed(ps[i].name, ps[i].typ)
  {
    seq(|ps|, i requires 0 <= i < |ps| => Typed(ps[i].name, ps[i].typ))
  }

  /** The plain layout of a query: one description line, every type spelled out. */
  function LayOut(q: Query): Document {
    Document(q.id, q.purpose, [q.description], q.requiredColumns, TypedSpellings(q.parameters), q.expectedOutput,
             if q.sql == "" then [] else Split(q.sql, '\n'))
  }

  predicate GoodParameter(p: Parameter) {
    Part(p.name) && ':' !in p.name && Part(p.typ)
  }

  /** Fields without surrounding white space or line breaks, items without commas,
      parameter names without colons, and an SQL text that does not begin with a
      comment. */
  ghost predicate Canonical(q: Query) {
    && Clean(q.id) && Clean(q.purpose) && Clean(q.description)
    && (forall c :: c in q.requiredColumns ==> Item(c))
    && (forall c :: c in q.expectedOutput ==> Item(c))
    && (forall p :: p in q.parameters ==> GoodParameter(p))
    && Trimmed(q.sql) && !("--" <= q.sql)
  }

  lemma {:induction false} JoinSplit(s: string)
    ensures Join(Split(s, '\n'), "\n") == s
    ensures forall l :: l in Split(s, '\n') ==> '\n' !in l
    ensures Split(s, '\n')[0] <= s
    decreases |s|
  {
    var i := IndexOf(s, '\n');
    if i >= 0 {
      JoinSplit(s[i + 1..]);
      assert s == s[..i] + "\n" + s[i + 1..];
      assert Split(s, '\n')[1..] == Split(s[i + 1..], '\n');
    }
  }

  lemma FirstLineNonEmpty(s: string)
    requires s != "" && s[0] != '\n'
    ensures Split(s, '\n')[0] != ""
  {}

  lemma SingleLine(s: string)
    ensures Join([s], " ") == s
  {}

  lemma StartsBody(sql: string, first: string)
    requires Trimmed(sql) && !("--" <= sql) && first <= sql && first != ""
    ensures BodyStart(first)
  {
    assert first[0] == sql[0];
    TrimLeftKeeps(first);
    TrimRightPrefix(first);
  }

  lemma TrimLeftKeeps(s: string)
    requires s != "" && !IsSpace(s[0])
    ensures TrimLeft(s) == s
  {}

  lemma {:induction false} TrimRightPrefix(s: string)
    ensures TrimRight(s) <= s
    ensures s != "" && !IsSpace(s[0]) ==> TrimRight(s) != ""
  {
    if s != "" && IsSpace(s[|s| - 1]) { TrimRightPrefix(s[..|s| - 1]); }
  }

  lemma LayOutReadable(q: Query)
    requires Canonical(q)
    ensures Readable(LayOut(q)) && QueryOf(LayOut(q)) == q
    ensures q.sql != "" ==> LayOut(q).body[0] <= q.sql && LayOut(q).body[0] != ""
  {
    hide Split, Trim, IndexOf, DocumentLines, BodyStart;
    var d := LayOut(q);
    SingleLine(q.description);
    JoinSplit(q.sql);
    assert Meanings(d.parameters) == q.parameters;
    forall p | p in d.parameters ensures GoodSpelling(p) {
      var i := IndexOfMember(d.parameters, p);
      assert q.parameters[i] in q.parameters;
    }
    assert d.description[1..] == [];
    if q.sql != "" {
      assert IsSpace('\n');
      FirstLineNonEmpty(q.sql);
      StartsBody(q.sql, d.body[0]);
    }
  }

  /** For every canonical query whose rendering the scanner delivers, parsing the
      rendering gives it back. */
  lemma QueryRoundTrip(q: Query)
    requires Canonical(q) && Deliverable(LayOut(q))
    ensures Parsed(Render(LayOut(q))) == Some(q)
  {
    hide Render, Parsed, Readable, Deliverable, Join, DocumentLines;
    LayOutReadable(q);
    SingleLine(q.description);
    JoinSplit(q.sql);
    assert LayOut(q).body == [] ==> Join(LayOut(q).body, "\n") == "" by { JoinNothing(); }
    DocumentRoundTrip(LayOut(q));
  }

  lemma JoinNothing()
    ensures Join([], "\n") == ""
  {}

  // ----- Undeliverable documents -----

  lemma {:induction false} JoinShrinks(lines: seq<string>)
    ensures |Join(DropCRs(lines), "\n")| <= |Join(lines, "\n")|
    ensures (exists l :: l in lines && EndsInCR(l)) ==> |Join(DropCRs(lines), "\n")| < |Join(lines, "\n")|
  {
    if |lines| > 1 {
      JoinShrinks(lines[1..]);
      assert DropCRs(lines)[1..] == DropCRs(lines[1..]);
      assert lines == [lines[0]] + lines[1..];
    }
  }

  lemma DropCRStartsBody(sql: string, first: string)
    requires Trimmed(sql) && !("--" <= sql) && first <= sql && first != ""
    ensures BodyStart(DropCR(first))
  {
    assert IsSpace('\r') && first[0] == sql[0];
    assert DropCR(first) <= first && DropCR(first) != "";
    StartsBody(sql, DropCR(first));
  }

  lemma DroppedDocument(d: Document, d': Document)
    requires Readable(d) && d' == d.(body := DropCRs(d.body))
    requires d.body != [] ==> BodyStart(DropCR(d.body[0]))
    ensures Readable(d') && DocumentLines(d') == DropCRs(DocumentLines(d))
  {
    hide FrontLines, BackLines, Continuations, BodyStart, SplitHeaderLine, DocumentLines;
    HeadersPlain(d);
    forall l | l in d'.body ensures '\n' !in l {
      var i := IndexOfMember(d'.body, l);
      assert d.body[i] in d.body;
    }
    HeadersPlain(d');
    var h := HeaderLines(d);
    assert HeaderLines(d') == h by { SameHeaders(d, d'); }
    forall i | 0 <= i < |h| ensures DropCRs(h)[i] == h[i] { assert h[i] in h; }
    assert DropCRs(h) == h;
    assert DropCRs(h + d.body) == DropCRs(h) + DropCRs(d.body);
  }

  lemma SameHeaders(d: Document, d': Document)
    requires d.description != [] && d' == d.(body := d'.body)
    ensures HeaderLines(d') == HeaderLines(d)
  {}

  /** A rendering that the scanner does not deliver unchanged is not parsed back:
      the scanner fails on a line that is too long, and a carriage return at the
      end of an SQL line is lost. */
  lemma UndeliverableLost(q: Query)
    requires Canonical(q) && !Deliverable(LayOut(q))
    ensures Parsed(Render(LayOut(q))) != Some(q)
  {
    hide Readable, ReadLines, DocumentLines, HeaderLines, LayOut, BodyStart, Trim, Split, Join;
    var d := LayOut(q);
    LayOutReadable(q);
    assert d.description != [] && (forall l :: l in d.body ==> '\n' !in l) by { ReadableBody(d); }
    HeadersPlain(d);
    LinesDelivered(DocumentLines(d));
    if Fit(DocumentLines(d)) {
      var d' := d.(body := DropCRs(d.body));
      BodyOfLayOut(q);
      if d.body != [] { DropCRStartsBody(q.sql, d.body[0]); }
      DroppedDocument(d, d');
      DocumentRead(d');
      JoinShrinks(d.body);
      TrimShortens(Join(d'.body, "\n"));
    }
  }

  lemma ReadableBody(d: Document)
    requires Readable(d)
    ensures d.description != [] && forall l :: l in d.body ==> '\n' !in l
  {}

  lemma BodyOfLayOut(q: Query)
    ensures (LayOut(q).body == [] <==> q.sql == "") && Join(LayOut(q).body, "\n") == q.sql
  {
    hide Split;
    JoinSplit(q.sql);
  }

  // ----- What the parser can return -----

  lemma {:induction false} TrimWithin(s: string)
    ensures Trimmed(Trim(s)) && forall c :: c in Trim(s) ==> c in s
  {
    TrimLeftWithin(s);
    TrimRightPrefix(TrimLeft(s));
    TrimRightEnds(TrimLeft(s));
  }

  lemma {:induction false} TrimLeftWithin(s: string)
    ensures TrimLeft(s) != "" ==> !IsSpace(TrimLeft(s)[0])
    ensures forall c :: c in TrimLeft(s) ==> c in s
  {
    if s != [] && IsSpace(s[0]) { TrimLeftWithin(s[1..]); }
  }

  lemma {:induction false} TrimRightEnds(s: string)
    ensures TrimRight(s) != "" ==> !IsSpace(TrimRight(s)[|TrimRight(s)| - 1])
  {
    if s != [] && IsSpace(s[|s| - 1]) { TrimRightEnds(s[..|s| - 1]); }
  }

  lemma {:induction false} SplitWithin(s: string, c: char)
    ensures forall part :: part in Split(s, c) ==> c !in part && forall x :: x in part ==> x in s
    decreases |s|
  {
    var i := IndexOf(s, c);
    if i >= 0 { SplitWithin(s[i + 1..], c); }
  }

  lemma ItemsOfCSV(s: string)
    requires '\n' !in s
    ensures forall c :: c in SplitCSVSpec(s) ==> Item(c)
  {
    hide Trim, Split, Flatten;
    var parts := Split(s, ',');
    SplitWithin(s, ',');
    forall c | c in SplitCSVSpec(s) ensures Item(c) {
      InFlatten(KeepTrimmed(), parts, c);
      var part :| part in parts && c in KeepTrimmed()(part);
      TrimWithin(part);
    }
  }

  lemma TrimmedPart(s: string)
    requires '\n' !in s && ',' !in s
    ensures Part(Trim(s))
  {
    hide Trim;
    TrimWithin(s);
  }

  lemma ParameterOfItem(n: string)
    requires Item(n)
    ensures GoodParameter(ToParameter(n))
  {
    hide Trim, IndexOf, IsSpace;
    var i := IndexOf(n, ':');
    if i >= 0 {
      var name, typ := n[..i], n[i + 1..];
      assert forall c :: c in name || c in typ ==> c in n;
      TrimmedPart(name);
      TrimmedPart(typ);
      TrimWithin(name);
    } else {
      VarcharPart();
    }
  }

  lemma VarcharPart()
    ensures Part("VARCHAR")
  {}

  /** What holds of everything read so far. */
  ghost predicate Sound(p: Progress) {
    && Clean(p.id) && Clean(p.purpose) && (forall l :: l in p.description ==> '\n' !in l)
    && (forall c :: c in p.requiredColumns ==> Item(c))
    && (forall c :: c in p.expectedOutput ==> Item(c))
    && (forall x :: x in p.parameters ==> GoodParameter(x))
    && (p.inHeader <==> p.sql == []) && (p.sql != [] ==> BodyStart(p.sql[0]))
  }

  lemma AssignSound(p: Progress, key: string, val: string)
    requires Sound(p) && Clean(val)
    ensures Sound(Assign(p, key, val))
  {
    hide SplitCSVSpec, ParseParametersSpec, BodyStart, ToParameter, Item, GoodParameter, Trimmed;
    ItemsOfCSV(val);
    forall x | x in ParseParametersSpec(val) ensures GoodParameter(x) {
      var i := IndexOfMember(ParseParametersSpec(val), x);
      ParameterOfItem(SplitCSVSpec(val)[i]);
    }
  }

  lemma TrimmedLine(s: string)
    requires '\n' !in s
    ensures Clean(Trim(s)) && '\n' !in Trim(s)
  {
    hide Trim;
    TrimWithin(s);
  }

  lemma HeaderValueClean(body: string)
    requires '\n' !in body && SplitHeaderLine(body).Some?
    ensures Clean(SplitHeaderLine(body).value.1)
  {
    hide Trim, IndexOf, Clean;
    TrimmedLine(body[IndexOf(body, ':') + 1..]);
  }

  lemma ReadLineSound(p: Progress, line: string)
    requires Sound(p) && '\n' !in line
    ensures Sound(ReadLine(p, line))
  {
    hide Trim, Assign, SplitHeaderLine, Clean, Item, GoodParameter;
    var trimmed := Trim(line);
    TrimmedLine(line);
    if p.inHeader && "--" <= trimmed {
      var body := Trim(trimmed[2..]);
      TrimmedLine(trimmed[2..]);
      if SplitHeaderLine(body).Some? {
        HeaderValueClean(body);
        AssignSound(p, SplitHeaderLine(body).value.0, SplitHeaderLine(body).value.1);
      }
    }
  }

  lemma {:induction false} ReadLinesSound(lines: seq<string>)
    requires forall l :: l in lines ==> '\n' !in l
    ensures Sound(ReadLines(START, lines))
  {
    hide ReadLine, Sound;
    if lines == [] {
      StartSound();
    } else {
      var init, last := lines[..|lines| - 1], lines[|lines| - 1];
      assert last in lines;
      ReadLinesSound(init);
      ReadLineSound(ReadLines(START, init), last);
    }
  }

  lemma StartSound()
    ensures Sound(START)
  {}

  lemma {:induction false} LinesWithin(content: string)
    requires Lines(content).Some?
    ensures forall l :: l in Lines(content).value ==> '\n' !in l
    decreases |content|
  {
    hide IndexOf, DropCR;
    if content != [] {
      var i := IndexOf(content, '\n');
      DropCRWithin(content);
      if i >= 0 {
        DropCRWithin(content[..i]);
        LinesWithin(content[i + 1..]);
      }
    }
  }

  /** At most one carriage return is dropped, from the end. */
  lemma DropCRExactly(line: string)
    ensures DropCR(line + "\r") == line
    ensures line == "" || line[|line| - 1] != '\r' ==> DropCR(line) == line
  {}

  lemma DropCRWithin(line: string)
    ensures '\n' !in line ==> '\n' !in DropCR(line)
  {}

  lemma {:induction false} JoinWithin(lines: seq<string>, sep: string, c: char)
    requires c !in sep && forall l :: l in lines ==> c !in l
    ensures c !in Join(lines, sep)
  {
    if |lines| >= 1 { assert lines[0] in lines; }
    if |lines| > 1 { JoinWithin(lines[1..], sep, c); }
  }

  lemma TrimLeftAppend(s: string, t: string)
    requires TrimLeft(s) != ""
    ensures TrimLeft(s + t) == TrimLeft(s) + t
  {
    if s != [] && IsSpace(s[0]) {
      TrimLeftAppend(s[1..], t);
      assert (s + t)[1..] == s[1..] + t;
    }
  }

  /** An SQL text whose first line is neither blank nor a comment does not begin
      with a comment. */
  lemma NoLeadingComment(lines: seq<string>)
    requires lines != [] && BodyStart(lines[0])
    ensures !("--" <= Trim(Join(lines, "\n")))
  {
    hide TrimLeft, TrimRight;
    var first := lines[0];
    var rest := if |lines| == 1 then "" else "\n" + Join(lines[1..], "\n");
    var u := TrimLeft(first);
    assert u != "" by { EmptyTrim(); }
    TrimLeftAppend(first, rest);
    assert Join(lines, "\n") == first + rest;
    TrimRightPrefix(u + rest);
    assert |u| >= 2 ==> (u + rest)[0] == u[0] && (u + rest)[1] == u[1];
    assert |u| == 1 ==> rest == "" || (u + rest)[1] == '\n';
    if "--" <= u {
      assert u == "--" + u[2..];
      TrimRightAppend("--", u[2..]);
    }
  }

  lemma EmptyTrim()
    ensures TrimRight("") == ""
  {}

  /** Whatever the parser returns is canonical. */
  lemma ParsedCanonical(content: string)
    requires Parsed(content).Some?
    ensures Canonical(Parsed(content).value)
  {
    hide Lines, Trim, BodyStart, ReadLines;
    var lines := Lines(content).value;
    var p := ReadLines(START, lines);
    LinesWithin(content);
    ReadLinesSound(lines);
    JoinWithin(p.description, " ", '\n');
    TrimWithin(Join(p.description, " "));
    TrimWithin(Join(p.sql, "\n"));
    if p.sql == [] { NoSQL(); } else { NoLeadingComment(p.sql); }
  }

  lemma NoSQL()
    ensures Trim(Join([], "\n")) == ""
  {}

  /** Writing out and reading back what was parsed from any catalog file gives the
      same query, unless the scanner cannot deliver the file written: exactly then
      a line is too long, or an SQL line ends in a carriage return. */
  lemma ReparsedExactlyWhen(content: string, q: Query)
    requires Parsed(content) == Some(q)
    ensures Parsed(Render(LayOut(q))) == Some(q) <==> Deliverable(LayOut(q))
  {
    hide Parsed, Render, Canonical, Deliverable;
    ParsedCanonical(content);
    if Deliverable(LayOut(q)) { QueryRoundTrip(q); } else { UndeliverableLost(q); }
  }
}
