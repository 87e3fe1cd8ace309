/** The query catalog's header parser (analysis/queries/catalog.go). */
module Catalog {
  import opened Sequences

  // ----- Strings as the Go library treats them -----

  /** unicode.IsSpace */
  predicate IsSpace(c: char) {
    var n := c as int;
    9 <= n <= 13 || n == 32 || n == 0x85 || n == 0xA0 || n == 0x1680 || 0x2000 <= n <= 0x200A
    || n == 0x2028 || n == 0x2029 || n == 0x202F || n == 0x205F || n == 0x3000
  }

  function TrimLeft(s: string): string {
    if s != [] && IsSpace(s[0]) then TrimLeft(s[1..]) else s
  }

  function TrimRight(s: string): string {
    if s != [] && IsSpace(s[|s| - 1]) then TrimRight(s[..|s| - 1]) else s
  }

  /** strings.TrimSpace */
  function Trim(s: string): string {
    TrimRight(TrimLeft(s))
  }

  function TrimPrefix(s: string, prefix: string): string {
    if prefix <= s then s[|prefix|..] else s
  }

  /** strings.Index for one character, -1 if it does not occur. */
  function IndexOf(s: string, c: char): (i: int)
    ensures -1 <= i < |s|
    ensures i == -1 <==> c !in s
    ensures i >= 0 ==> s[i] == c && c !in s[..i]
  {
    if s == [] then -1
    else if s[0] == c then 0
    else
      var i := IndexOf(s[1..], c);
      assert s == [s[0]] + s[1..];
      assert i >= 0 ==> s[..i + 1] == [s[0]] + s[1..][..i];
      if i < 0 then -1 else i + 1
  }

  /** strings.Split at one character: always at least one part. */
  function Split(s: string, c: char): (parts: seq<string>)
    ensures parts != []
    decreases |s|
  {
    var i := IndexOf(s, c);
    if i < 0 then [s] else [s[..i]] + Split(s[i + 1..], c)
  }

  function Join(parts: seq<string>, sep: string): string {
    if parts == [] then "" else if |parts| == 1 then parts[0] else parts[0] + sep + Join(parts[1..], sep)
  }

  // ----- Lines (bufio.Scanner with a 1 MiB buffer) -----

  const MAX_TOKEN := 1048576

  function DropCR(line: string): string {
    if line != [] && line[|line| - 1] == '\r' then line[..|line| - 1] else line
  }

  /** None when a line does not fit the scanner's buffer. */
  function Lines(content: string): Option<seq<string>>
    decreases |content|
  {
    if content == [] then Some([])
    else
      var i := IndexOf(content, '\n');
      if (if i < 0 then |content| else i) >= MAX_TOKEN then None
      else if i < 0 then Some([DropCR(content)])
      else
        match Lines(content[i + 1..])
        case None => None
        case Some(rest) => Some([DropCR(content[..i])] + rest)
  }

  // ----- Queries -----

  datatype Parameter = Parameter(name: string, typ: string)

  datatype Query = Query(
    id: string,
    purpose: string,
    description: string,
    requiredColumns: seq<string>,
    parameters: seq<Parameter>,
    expectedOutput: seq<string>,
    sql: string)

  predicate KeyChar(c: char) {
    'a' <= c <= 'z' || c == '_'
  }

  /** A key, if the text before the first colon is a single lower-case token. */
  function SplitHeaderLine(s: string): Option<(string, string)> {
    var idx := IndexOf(s, ':');
    if idx < 0 then None
    else
      var key := Trim(s[..idx]);
      if !(forall i :: 0 <= i < |key| ==> KeyChar(key[i])) || key == "" then None
      else Some((key, Trim(s[idx + 1..])))
  }

  function KeepTrimmed(): string -> seq<string> {
    (p: string) => if Trim(p) != "" then [Trim(p)] else []
  }

  function SplitCSVSpec(s: string): seq<string> {
    if Trim(s) == "" then [] else Flatten(KeepTrimmed(), Split(s, ','))
  }

  method SplitCSV(s: string) returns (out: seq<string>)
    ensures out == SplitCSVSpec(s)
  {
    if Trim(s) == "" { return []; }
    var parts := Split(s, ',');
    out := [];
    for i := 0 to |parts|
      invariant out == Flatten(KeepTrimmed(), parts[..i])
    {
      assert parts[..i + 1] == parts[..i] + [parts[i]];
      FlattenOne(KeepTrimmed(), parts[..i], parts[i]);
      var p := Trim(parts[i]);
      if p != "" { out := out + [p]; }
    }
    assert parts[..|parts|] == parts;
  }

  function ToParameter(n: string): Parameter {
    var idx := IndexOf(n, ':');
    if idx >= 0 then Parameter(Trim(n[..idx]), Trim(n[idx + 1..])) else Parameter(n, "VARCHAR")
  }

  function ParseParametersSpec(s: string): (ps: seq<Parameter>)
    ensures |ps| == |SplitCSVSpec(s)|
    ensures forall i :: 0 <= i < |ps| ==> ps[i] == ToParameter(SplitCSVSpec(s)[i])
  {
    seq(|SplitCSVSpec(s)|, i requires 0 <= i < |SplitCSVSpec(s)| => ToParameter(SplitCSVSpec(s)[i]))
  }

  method ParseParameters(s: string) returns (params: seq<Parameter>)
    ensures params == ParseParametersSpec(s)
  {
    var names := SplitCSV(s);
    params := [];
    for i := 0 to |names|
      invariant |params| == i && forall k :: 0 <= k < i ==> params[k] == ToParameter(names[k])
    {
      var name, typ := names[i], "VARCHAR";
      var idx := IndexOf(names[i], ':');
      if idx >= 0 {
        name := Trim(names[i][..idx]);
        typ := Trim(names[i][idx + 1..]);
      }
      params := params + [Parameter(name, typ)];
    }
  }

  // ----- The parser -----

  /** What has been read so far; `description` and `sql` still as lines. */
  datatype Progress = Progress(
    id: string,
    purpose: string,
    requiredColumns: seq<string>,
    parameters: seq<Parameter>,
    expectedOutput: seq<string>,
    description: seq<string>,
    sql: seq<string>,
    inHeader: bool)

  const START := Progress("", "", [], [], [], [], [], true)

  function Assign(p: Progress, key: string, val: string): Progress {
    if key == "id" then p.(id := val)
    else if key == "purpose" then p.(purpose := val)
    else if key == "description" then p.(description := p.description + [val])
    else if key == "required_columns" then p.(requiredColumns := SplitCSVSpec(val))
    else if key == "parameters" then p.(parameters := ParseParametersSpec(val))
    else if key == "expected_output" then p.(expectedOutput := SplitCSVSpec(val))
    else p
  }

  function ReadLine(p: Progress, line: string): Progress {
    var trimmed := Trim(line);
    if p.inHeader && "--" <= trimmed then
      var body := Trim(trimmed[2..]);
      match SplitHeaderLine(body)
      case Some(header) => Assign(p, header.0, header.1)
      case None => if p.description != [] then p.(description := p.description + [TrimPrefix(body, "  ")]) else p
    else if trimmed == "" && p.inHeader then p
    else p.(inHeader := false, sql := p.sql + [line])
  }

  function ReadLines(p: Progress, lines: seq<string>): Progress {
    if lines == [] then p else ReadLine(ReadLines(p, lines[..|lines| - 1]), lines[|lines| - 1])
  }

  function ToQuery(p: Progress): Query {
    Query(p.id, p.purpose, Trim(Join(p.description, " ")), p.requiredColumns, p.parameters, p.expectedOutput, Trim(Join(p.sql, "\n")))
  }

  function Parsed(content: string): Option<Query> {
    match Lines(content)
    case None => None
    case Some(lines) => Some(ToQuery(ReadLines(START, lines)))
  }

  method Parse(content: string) returns (r: Result<Query>)
    ensures match Parsed(content) case None => r.Err? case Some(q) => r == Ok(q)
  {
    hide SplitCSVSpec, ParseParametersSpec, Trim, SplitHeaderLine, Join;
    var scanned := Lines(content);
    if scanned.None? { return Err("bufio.Scanner: token too long"); }
    var lines := scanned.value;
    var q := Query("", "", "", [], [], [], "");
    var sqlLines: seq<string> := [];
    var descLines: seq<string> := [];
    var inHeader := true;
    for n := 0 to |lines|
      invariant ReadLines(START, lines[..n])
             == Progress(q.id, q.purpose, q.requiredColumns, q.parameters, q.expectedOutput, descLines, sqlLines, inHeader)
    {
      var line := lines[n];
      assert lines[..n + 1][..n] == lines[..n];
      var trimmed := Trim(line);
      if inHeader && "--" <= trimmed {
        var body := Trim(TrimPrefix(trimmed, "--"));
        var header := SplitHeaderLine(body);
        if header.Some? {
          var key, val := header.value.0, header.value.1;
          if key == "id" { q := q.(id := val); }
          else if key == "purpose" { q := q.(purpose := val); }
          else if key == "description" { descLines := descLines + [val]; }
          else if key == "required_columns" { var cols := SplitCSV(val); q := q.(requiredColumns := cols); }
          else if key == "parameters" { var params := ParseParameters(val); q := q.(parameters := params); }
          else if key == "expected_output" { var cols := SplitCSV(val); q := q.(expectedOutput := cols); }
          continue;
        }
        if |descLines| > 0 { descLines := descLines + [TrimPrefix(body, "  ")]; }
        continue;
      }
      if trimmed == "" && inHeader { continue; }
      inHeader := false;
      sqlLines := sqlLines + [line];
    }
    assert lines[..|lines|] == lines;
    r := Ok(q.(description := Trim(Join(descLines, " ")), sql := Trim(Join(sqlLines, "\n"))));
  }
}
