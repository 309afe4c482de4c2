/** The configuration file's subset of YAML: scalars, keys, and the parser by indentation. */
module Yaml {
  import opened Wrappers
  import opened Text

  datatype Value =
    | Null
    | Bool(b: bool)
    | Number(text: string)
    | Str(text: string)
    | Items(items: seq<Value>)
    | Fields(fields: map<string, Value>)

  // A line that is not blank, without its comment: how far it is indented, and the rest, trimmed.
  datatype Line = Line(indent: nat, text: string)

  // What the number and string conversions of the language make of a token.
  datatype Conversions = Conversions(isNumber: string -> bool, unescape: string -> Option<string>)

  predicate EndsWith(s: string, c: char) {
    s != "" && s[|s| - 1] == c
  }

  // ----------------------------------------------------------------- scanning

  // Inside quotes, the quote that closes them.
  type Quote = Option<char>

  function NextQuote(q: Quote, c: char): Quote {
    if q.Some? then if c == q.value then None else q
    else if c == '"' || c == '\'' then Some(c)
    else None
  }

  /** Where the key ends: the first colon outside quotes before a space or the end. */
  function Colon(s: string, i: nat, q: Quote): (r: Option<nat>)
    requires i <= |s|
    ensures r.Some? ==> i <= r.value < |s|
    decreases |s| - i
  {
    if i == |s| then None
    else if q.None? && s[i] == ':' && (i + 1 == |s| || s[i + 1] == ' ') then Some(i)
    else Colon(s, i + 1, NextQuote(q, s[i]))
  }

  /** A single quote is doubled inside single quotes. */
  function Undoubled(s: string): string
    decreases |s|
  {
    if s == "" then ""
    else if |s| > 1 && s[0] == '\'' && s[1] == '\'' then ['\''] + Undoubled(s[2..])
    else [s[0]] + Undoubled(s[1..])
  }

  function Unquote(cv: Conversions, s: string): Option<string> {
    if |s| < 2 then None
    else if s[0] == '"' then if s[|s| - 1] == '"' then cv.unescape(s) else None
    else if s[0] == '\'' then if s[|s| - 1] == '\'' then Some(Undoubled(s[1..|s| - 1])) else None
    else None
  }

  /** "key: value" or "key:", cut at the colon; None when there is no key. */
  function KeyAndRest(cv: Conversions, s: string): Option<(string, string)> {
    var at := Colon(s, 0, None);
    if at.None? then None
    else
      var key := TrimSpace(s[..at.value]);
      var name := if Unquote(cv, key).Some? then Unquote(cv, key).value else key;
      if name == "" then None else Some((name, TrimSpace(s[at.value + 1..])))
  }

  method SplitKey(cv: Conversions, s: string) returns (r: Option<(string, string)>)
    ensures r == KeyAndRest(cv, s)
  {
    var inQuote: Quote := None;
    for i := 0 to |s|
      invariant Colon(s, 0, None) == Colon(s, i, inQuote)
    {
      var c := s[i];
      if inQuote.Some? {
        if c == inQuote.value {
          inQuote := None;
        }
        continue;
      }
      if c == '"' || c == '\'' {
        inQuote := Some(c);
        continue;
      }
      if c == ':' && (i + 1 == |s| || s[i + 1] == ' ') {
        var key := TrimSpace(s[..i]);
        var k := Unquote(cv, key);
        if k.Some? {
          key := k.value;
        }
        return if key != "" then Some((key, TrimSpace(s[i + 1..]))) else None;
      }
    }
    return None;
  }

  /** The parts of a flow sequence, cut at commas outside quotes. */
  function FlowParts(s: string, start: nat, i: nat, q: Quote): (parts: seq<string>)
    requires start <= i <= |s|
    ensures forall p <- parts :: |p| <= |s|
    decreases |s| - i
  {
    if i == |s| then [s[start..]]
    else if q.None? && s[i] == ',' then [s[start..i]] + FlowParts(s, i + 1, i + 1, None)
    else FlowParts(s, start, i + 1, NextQuote(q, s[i]))
  }

  method SplitFlow(s: string) returns (out: seq<string>)
    ensures out == FlowParts(s, 0, 0, None)
  {
    out := [];
    var start, inQuote: Quote := 0, None;
    for i := 0 to |s|
      invariant 0 <= start <= i
      invariant out + FlowParts(s, start, i, inQuote) == FlowParts(s, 0, 0, None)
    {
      var c := s[i];
      if inQuote.Some? {
        if c == inQuote.value {
          inQuote := None;
        }
        continue;
      }
      if c == '"' || c == '\'' {
        inQuote := Some(c);
      } else if c == ',' {
        out := out + [s[start..i]];
        start := i + 1;
      }
    }
    out := out + [s[start..]];
  }

  lemma {:induction false} TrimLeftShortens(s: string)
    ensures |TrimLeft(s)| <= |s|
  {
    if s != "" && s[0] in SPACES {
      TrimLeftShortens(s[1..]);
    }
  }

  lemma {:induction false} TrimRightShortens(s: string)
    ensures |TrimRight(s)| <= |s|
  {
    if s != "" && s[|s| - 1] in SPACES {
      TrimRightShortens(s[..|s| - 1]);
    }
  }

  lemma TrimShortens(s: string)
    ensures |TrimSpace(s)| <= |s|
  {
    TrimLeftShortens(s);
    TrimRightShortens(TrimLeft(s));
  }

  /** A value token: quoted strings stay strings; plain tokens become what they
      look like; a flow sequence becomes a list of scalars. None is an error. */
  function Scalar(cv: Conversions, s: string): Option<Value>
    decreases |s|, 0
  {
    if StartsWith(s, "[") then
      if !EndsWith(s, ']') || |s| < 2 then None
      else
        var inner := TrimSpace(s[1..|s| - 1]);
        TrimShortens(s[1..|s| - 1]);
        if inner == "" then Some(Items([]))
        else
          var vs := ScalarsOf(cv, FlowParts(inner, 0, 0, None), |s| - 1);
          if vs.None? then None else Some(Items(vs.value))
    else if StartsWith(s, "{") then None
    else if StartsWith(s, "\"") || StartsWith(s, "'") then
      if Unquote(cv, s).None? then None else Some(Str(Unquote(cv, s).value))
    else if s in {"null", "~"} then Some(Null)
    else if s in {"true", "yes", "on"} then Some(Bool(true))
    else if s in {"false", "no", "off"} then Some(Bool(false))
    else if cv.isNumber(s) then Some(Number(s))
    else Some(Str(s))
  }

  function ScalarsOf(cv: Conversions, parts: seq<string>, bound: nat): Option<seq<Value>>
    requires forall p <- parts :: |p| <= bound
    decreases bound, |parts| + 1
  {
    if parts == [] then Some([])
    else
      TrimShortens(parts[0]);
      var v := Scalar(cv, TrimSpace(parts[0]));
      var vs := ScalarsOf(cv, parts[1..], bound);
      if v.None? || vs.None? then None else Some([v.value] + vs.value)
  }

  // ------------------------------------------------------------------ parsing

  predicate IsItem(text: string) {
    StartsWith(text, "- ") || text == "-"
  }

  function ItemOf(text: string): string {
    TrimSpace(if StartsWith(text, "-") then text[1..] else text)
  }

  // A value and the lines left after it; None is an error.
  type Parsed<!T> = Option<(T, seq<Line>)>

  /** The mapping or sequence whose items sit at this indent. */
  function Block(cv: Conversions, ls: seq<Line>, indent: nat): (r: Parsed<Value>)
    requires ls != []
    ensures r.Some? ==> |r.value.1| <= |ls|
    decreases |ls|, 1
  {
    if IsItem(ls[0].text) then
      var r := Sequence(cv, ls, indent, []);
      if r.None? then None else Some((Items(r.value.0), r.value.1))
    else
      var r := Mapping(cv, ls, indent, map[]);
      if r.None? then None else Some((Fields(r.value.0), r.value.1))
  }

  /** What a key with nothing after its colon introduces. */
  function Nested(cv: Conversions, ls: seq<Line>, indent: nat): (r: Parsed<Value>)
    ensures r.Some? ==> |r.value.1| <= |ls|
    decreases |ls|, 2
  {
    if ls != [] && ls[0].indent > indent then Block(cv, ls, ls[0].indent)
    else if ls != [] && ls[0].indent == indent && StartsWith(ls[0].text, "- ") then
      var r := Sequence(cv, ls, indent, []);
      if r.None? then None else Some((Items(r.value.0), r.value.1))
    else Some((Null, ls))
  }

  function Mapping(cv: Conversions, ls: seq<Line>, indent: nat, out: map<string, Value>): (r: Parsed<map<string, Value>>)
    ensures r.Some? ==> |r.value.1| <= |ls|
    decreases |ls|, 0
  {
    if ls == [] || ls[0].indent < indent then Some((out, ls))
    else if ls[0].indent > indent || StartsWith(ls[0].text, "- ") then None
    else
      var kv := KeyAndRest(cv, ls[0].text);
      if kv.None? then None
      else if kv.value.1 != "" then
        var v := Scalar(cv, kv.value.1);
        if v.None? then None else Mapping(cv, ls[1..], indent, out[kv.value.0 := v.value])
      else
        var r := Nested(cv, ls[1..], indent);
        if r.None? then None else Mapping(cv, r.value.1, indent, out[kv.value.0 := r.value.0])
  }

  /** The item of a line, with the lines below that belong to it. */
  function ItemValue(cv: Conversions, item: string, ls: seq<Line>, indent: nat): (r: Parsed<Value>)
    ensures r.Some? ==> |r.value.1| <= |ls|
    decreases |ls|, 2
  {
    if item == "" then
      if ls != [] && ls[0].indent > indent then Block(cv, ls, ls[0].indent) else Some((Null, ls))
    else if KeyAndRest(cv, item).Some? then
      var (key, rest) := KeyAndRest(cv, item).value;
      var v := if rest != "" then Scalar(cv, rest) else Some(Null);
      if v.None? then None
      else
        var m := if rest != "" then map[key := v.value] else map[];
        if ls != [] && ls[0].indent > indent then
          var more := Mapping(cv, ls, ls[0].indent, map[]);
          if more.None? then None else Some((Fields(m + more.value.0), more.value.1))
        else Some((Fields(m), ls))
    else
      var v := Scalar(cv, item);
      if v.None? then None else Some((v.value, ls))
  }

  function Sequence(cv: Conversions, ls: seq<Line>, indent: nat, out: seq<Value>): (r: Parsed<seq<Value>>)
    ensures r.Some? ==> |r.value.1| <= |ls|
    decreases |ls|, 0
  {
    if ls == [] || ls[0].indent < indent then Some((out, ls))
    else if ls[0].indent > indent || !IsItem(ls[0].text) then None
    else
      var r := ItemValue(cv, ItemOf(ls[0].text), ls[1..], indent);
      if r.None? then None else Sequence(cv, r.value.1, indent, out + [r.value.0])
  }

  lemma Drop(lines: seq<Line>, pos: nat)
    requires pos < |lines|
    ensures lines[pos..] != [] && lines[pos..][0] == lines[pos] && lines[pos..][1..] == lines[pos + 1..]
  {
  }

  class Parser {
    const cv: Conversions
    const lines: seq<Line>
    var pos: nat

    constructor (cv: Conversions, lines: seq<Line>)
      ensures this.cv == cv && this.lines == lines && pos == 0
    {
      this.cv, this.lines, pos := cv, lines, 0;
    }

    /** Parse the mapping or sequence whose items sit at the given indent. */
    method ParseBlock(indent: nat) returns (v: Option<Value>)
      requires pos < |lines|
      modifies this
      ensures old(pos) <= pos <= |lines|
      ensures Block(cv, lines[old(pos)..], indent) == if v.Some? then Some((v.value, lines[pos..])) else None
      decreases |lines| - pos, 1
    {
      hide Mapping;
      hide Sequence;
      Drop(lines, pos);
      if IsItem(lines[pos].text) {
        var items := ParseSequence(indent);
        return if items.Some? then Some(Items(items.value)) else None;
      }
      var fields := ParseMapping(indent);
      return if fields.Some? then Some(Fields(fields.value)) else None;
    }

    method ParseMapping(indent: nat) returns (r: Option<map<string, Value>>)
      requires pos <= |lines|
      modifies this
      ensures old(pos) <= pos <= |lines|
      ensures Mapping(cv, lines[old(pos)..], indent, map[]) == if r.Some? then Some((r.value, lines[pos..])) else None
      decreases |lines| - pos, 0
    {
      hide Nested;
      hide KeyAndRest;
      hide Scalar;
      var out: map<string, Value> := map[];
      while pos < |lines|
        invariant old(pos) <= pos <= |lines|
        invariant Mapping(cv, lines[old(pos)..], indent, map[]) == Mapping(cv, lines[pos..], indent, out)
        decreases |lines| - pos
      {
        Drop(lines, pos);
        var l := lines[pos];
        if l.indent < indent {
          return Some(out);
        }
        if l.indent > indent || StartsWith(l.text, "- ") {
          return None;
        }
        var kv := SplitKey(cv, l.text);
        if kv.None? {
          return None;
        }
        pos := pos + 1;
        var v;
        if kv.value.1 != "" {
          v := Scalar(cv, kv.value.1);
        } else {
          v := ParseNested(indent);
        }
        if v.None? {
          return None;
        }
        out := out[kv.value.0 := v.value];
      }
      return Some(out);
    }

    /** What a key with nothing after its colon introduces. */
    method ParseNested(indent: nat) returns (v: Option<Value>)
      requires pos <= |lines|
      modifies this
      ensures old(pos) <= pos <= |lines|
      ensures Nested(cv, lines[old(pos)..], indent) == if v.Some? then Some((v.value, lines[pos..])) else None
      decreases |lines| - pos, 2
    {
      hide Block;
      hide Sequence;
      if pos < |lines| {
        Drop(lines, pos);
        if lines[pos].indent > indent {
          v := ParseBlock(lines[pos].indent);
          return;
        }
        if lines[pos].indent == indent && StartsWith(lines[pos].text, "- ") {
          var items := ParseSequence(indent);
          return if items.Some? then Some(Items(items.value)) else None;
        }
      }
      return Some(Null);
    }

    method ParseSequence(indent: nat) returns (r: Option<seq<Value>>)
      requires pos <= |lines|
      modifies this
      ensures old(pos) <= pos <= |lines|
      ensures Sequence(cv, lines[old(pos)..], indent, []) == if r.Some? then Some((r.value, lines[pos..])) else None
      decreases |lines| - pos, 0
    {
      hide ItemValue;
      hide ItemOf;
      var out: seq<Value> := [];
      while pos < |lines|
        invariant old(pos) <= pos <= |lines|
        invariant Sequence(cv, lines[old(pos)..], indent, []) == Sequence(cv, lines[pos..], indent, out)
        decreases |lines| - pos
      {
        Drop(lines, pos);
        var l := lines[pos];
        if l.indent < indent {
          return Some(out);
        }
        if l.indent > indent || !IsItem(l.text) {
          return None;
        }
        pos := pos + 1;
        var v := ParseItem(ItemOf(l.text), indent);
        if v.None? {
          return None;
        }
        out := out + [v.value];
      }
      return Some(out);
    }

    method ParseItem(item: string, indent: nat) returns (v: Option<Value>)
      requires pos <= |lines|
      modifies this
      ensures old(pos) <= pos <= |lines|
      ensures ItemValue(cv, item, lines[old(pos)..], indent) == if v.Some? then Some((v.value, lines[pos..])) else None
      decreases |lines| - pos, 2
    {
      hide Block;
      hide Mapping;
      hide KeyAndRest;
      hide Scalar;
      if item == "" {
        if pos < |lines| {
          Drop(lines, pos);
          if lines[pos].indent > indent {
            v := ParseBlock(lines[pos].indent);
            return;
          }
        }
        return Some(Null);
      }
      var kv := SplitKey(cv, item);
      if kv.None? {
        v := Scalar(cv, item);
        return;
      }
      var m: map<string, Value> := map[];
      if kv.value.1 != "" {
        v := Scalar(cv, kv.value.1);
        if v.None? {
          return;
        }
        m := m[kv.value.0 := v.value];
      }
      if pos < |lines| {
        Drop(lines, pos);
        if lines[pos].indent > indent {
          var more := ParseMapping(lines[pos].indent);
          return if more.Some? then Some(Fields(m + more.value)) else None;
        }
      }
      return Some(Fields(m));
    }
  }

  // ------------------------------------------------------------------- lines

  /** Where a comment begins: the first '#' outside quotes that starts the line or follows a blank. */
  function CommentAt(s: string, i: nat, q: Quote): (n: nat)
    requires i <= |s|
    ensures i <= n <= |s|
    decreases |s| - i
  {
    if i == |s| then i
    else if q.None? && s[i] == '#' && (i == 0 || s[i - 1] == ' ' || s[i - 1] == '\t') then i
    else CommentAt(s, i + 1, NextQuote(q, s[i]))
  }

  method StripComment(s: string) returns (r: string)
    ensures r == s[..CommentAt(s, 0, None)]
  {
    var inQuote: Quote := None;
    for i := 0 to |s|
      invariant CommentAt(s, 0, None) == CommentAt(s, i, inQuote)
    {
      var c := s[i];
      if inQuote.Some? {
        if c == inQuote.value {
          inQuote := None;
        }
        continue;
      }
      if c == '"' || c == '\'' {
        inQuote := Some(c);
      } else if c == '#' && (i == 0 || s[i - 1] == ' ' || s[i - 1] == '\t') {
        return s[..i];
      }
    }
    return s;
  }

  /** How many of these characters the text starts with. */
  function Leading(s: string, cutset: set<char>): (n: nat)
    ensures n <= |s|
  {
    if s != "" && s[0] in cutset then 1 + Leading(s[1..], cutset) else 0
  }

  datatype RawLine = Blank | Tabbed | Content(line: Line)

  /** A line of the document, without its comment. */
  function ReadLine(text: string): RawLine {
    if TrimSpace(text) in {"", "---"} then Blank
    else if '\t' in text && Leading(text, {' '}) != Leading(text, {' ', '\t'}) then Tabbed
    else Content(Line(Leading(text, {' '}), TrimSpace(text)))
  }

  function RawLines(s: string): seq<string>
    decreases |s|
  {
    var (before, after, found) := Cut(s, '\n');
    CutShortens(s, '\n');
    if found then [before] + RawLines(after) else [before]
  }

  lemma {:induction false} CutShortens(s: string, c: char)
    ensures Cut(s, c).2 ==> |Cut(s, c).1| < |s|
  {
    if s != "" && s[0] != c {
      CutShortens(s[1..], c);
    }
  }

  /** Without the carriage returns that end lines. */
  function Unreturned(s: string): string
    decreases |s|
  {
    if s == "" then ""
    else if |s| > 1 && s[0] == '\r' && s[1] == '\n' then "\n" + Unreturned(s[2..])
    else [s[0]] + Unreturned(s[1..])
  }

  function ReadLines(raws: seq<string>): Option<seq<Line>> {
    if raws == [] then Some([])
    else
      var before := ReadLines(raws[..|raws| - 1]);
      var text := raws[|raws| - 1];
      match ReadLine(text[..CommentAt(text, 0, None)])
      case Blank => before
      case Tabbed => None
      case Content(l) => if before.None? then None else Some(before.value + [l])
  }

  /** The document's value: all its lines, or none. */
  function Document(cv: Conversions, data: string): Option<Value> {
    var ls := ReadLines(RawLines(Unreturned(data)));
    if ls.None? then None
    else if ls.value == [] then Some(Fields(map[]))
    else
      var r := Block(cv, ls.value, ls.value[0].indent);
      if r.None? || r.value.1 != [] then None else Some(r.value.0)
  }

  lemma {:induction false} BadLineStays(raws: seq<string>, i: nat)
    requires i <= |raws| && ReadLines(raws[..i]) == None
    ensures ReadLines(raws) == None
    decreases |raws| - i
  {
    if i < |raws| {
      assert raws[..i + 1][..i] == raws[..i];
      BadLineStays(raws, i + 1);
    } else {
      assert raws[..i] == raws;
    }
  }

  method Parse(cv: Conversions, data: string) returns (v: Option<Value>)
    ensures v == Document(cv, data)
  {
    hide Block;
    hide RawLines;
    hide Unreturned;
    hide CommentAt;
    hide Leading;
    var raws := RawLines(Unreturned(data));
    var lines: seq<Line> := [];
    for i := 0 to |raws|
      invariant ReadLines(raws[..i]) == Some(lines)
    {
      assert raws[..i + 1][..i] == raws[..i];
      var text := StripComment(raws[i]);
      if TrimSpace(text) == "" || TrimSpace(text) == "---" {
        continue;
      }
      if '\t' in text && Leading(text, {' '}) != Leading(text, {' ', '\t'}) {
        BadLineStays(raws, i + 1);
        return None;
      }
      lines := lines + [Line(Leading(text, {' '}), TrimSpace(text))];
    }
    assert raws[..|raws|] == raws;
    if |lines| == 0 {
      return Some(Fields(map[]));
    }
    var p := new Parser(cv, lines);
    assert lines[0..] == lines;
    v := p.ParseBlock(lines[0].indent);
    if v.Some? && p.pos < |p.lines| {
      return None;
    }
    assert v.Some? ==> lines[p.pos..] == [];
  }
}
