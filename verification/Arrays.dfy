/** Array literals: how lists of strings are written for PostgreSQL and read
    back (PostgreSQL 16 documentation, section 8.15.6). */
module Arrays {
  import opened Text

  // ---------------------------------------------------------------- writing

  /** A quote or backslash is preceded by a backslash. */
  function Escape(v: string): string {
    if v == "" then ""
    else (if v[0] == '\\' || v[0] == '"' then ['\\', v[0]] else [v[0]]) + Escape(v[1..])
  }

  function Quoted(v: string): string {
    ['"'] + Escape(v) + ['"']
  }

  function Join(es: seq<string>): string {
    if es == [] then ""
    else if |es| == 1 then es[0]
    else Join(es[..|es| - 1]) + "," + es[|es| - 1]
  }

  function QuotedAll(vs: seq<string>): seq<string> {
    seq(|vs|, i requires 0 <= i < |vs| => Quoted(vs[i]))
  }

  function Literal(es: seq<string>): string {
    "{" + Join(es) + "}"
  }

  method Array(vals: seq<string>) returns (lit: string)
    ensures lit == Literal(QuotedAll(vals))
  {
    var b := "";
    for i := 0 to |vals|
      invariant b == Join(QuotedAll(vals[..i]))
    {
      var before, after := QuotedAll(vals[..i]), QuotedAll(vals[..i + 1]);
      assert after == before + [Quoted(vals[i])];
      if i > 0 {
        b := b + ",";
      }
      var e := Replaced(vals[i]);
      b := b + "\"" + e + "\"";
      assert |after| > 1 ==> after[..|after| - 1] == before;
      assert b == Join(after);
    }
    assert vals[..|vals|] == vals;
    lit := "{" + b + "}";
  }

  method Replaced(v: string) returns (e: string)
    ensures e == Escape(v)
  {
    e := "";
    for i := 0 to |v|
      invariant e + Escape(v[i..]) == Escape(v)
    {
      assert v[i..][1..] == v[i + 1..];
      e := e + if v[i] == '\\' || v[i] == '"' then ['\\', v[i]] else [v[i]];
    }
  }

  // ---------------------------------------------------------------- reading

  function UnquotedNull(s: string): string {
    if s == "NULL" then "" else s
  }

  /** The elements of what is left of the body, cur being read so far. */
  function Elements(body: string, cur: string, inQuote: bool): seq<string>
    decreases |body|
  {
    if body == "" then [UnquotedNull(cur)]
    else if inQuote && body[0] == '\\' && |body| > 1 then Elements(body[2..], cur + [body[1]], inQuote)
    else if body[0] == '"' then Elements(body[1..], cur, !inQuote)
    else if body[0] == ',' && !inQuote then [UnquotedNull(cur)] + Elements(body[1..], "", inQuote)
    else Elements(body[1..], cur + [body[0]], inQuote)
  }

  function Parsed(text: string): seq<string> {
    var lit := TrimSpace(text);
    if |lit| < 2 || lit[0] != '{' || lit[|lit| - 1] != '}' then []
    else if |lit| == 2 then []
    else Elements(lit[1..|lit| - 1], "", false)
  }

  method ParseArray(text: string) returns (out: seq<string>)
    ensures out == Parsed(text)
  {
    var lit := TrimSpace(text);
    if |lit| < 2 || lit[0] != '{' || lit[|lit| - 1] != '}' {
      return [];
    }
    var body := lit[1..|lit| - 1];
    if body == "" {
      return [];
    }
    out := [];
    var cur, inQuote, i := "", false, 0;
    while i < |body|
      invariant 0 <= i <= |body|
      invariant out + Elements(body[i..], cur, inQuote) == Elements(body, "", false)
    {
      var c := body[i];
      assert body[i..][1..] == body[i + 1..];
      if inQuote && c == '\\' && i + 1 < |body| {
        assert body[i..][2..] == body[i + 2..];
        i := i + 1;
        cur := cur + [body[i]];
      } else if c == '"' {
        inQuote := !inQuote;
      } else if c == ',' && !inQuote {
        out := out + [UnquotedNull(cur)];
        cur := "";
      } else {
        cur := cur + [c];
      }
      i := i + 1;
    }
    out := out + [UnquotedNull(cur)];
  }

  // -------------------------------------------------------------- round trip

  /** An element that reads as itself without quotes. */
  predicate Bare(v: string) {
    v != "" && '"' !in v && ',' !in v
  }

  /** e is v, quoted or as it is. */
  predicate Writes(e: string, v: string) {
    e == Quoted(v) || (e == v && Bare(v))
  }

  predicate WritesAll(es: seq<string>, vs: seq<string>) {
    |es| == |vs| && forall i | 0 <= i < |es| :: Writes(es[i], vs[i])
  }

  /** The list with "NULL", which reads as a null, made empty. */
  function NullsBlanked(vs: seq<string>): seq<string> {
    seq(|vs|, i requires 0 <= i < |vs| => UnquotedNull(vs[i]))
  }

  lemma {:induction false} EscapedReads(v: string, rest: string, cur: string)
    ensures Elements(Escape(v) + rest, cur, true) == Elements(rest, cur + v, true)
    decreases |v|
  {
    var s := Escape(v) + rest;
    if v == "" {
      assert s == rest && cur + v == cur;
    } else {
      EscapedReads(v[1..], rest, cur + [v[0]]);
      assert cur + [v[0]] + v[1..] == cur + v;
      if v[0] == '\\' || v[0] == '"' {
        assert s[2..] == Escape(v[1..]) + rest;
      } else {
        assert s[1..] == Escape(v[1..]) + rest;
      }
    }
  }

  lemma {:induction false} BareReads(v: string, rest: string, cur: string)
    requires '"' !in v && ',' !in v
    ensures Elements(v + rest, cur, false) == Elements(rest, cur + v, false)
    decreases |v|
  {
    if v == "" {
      assert v + rest == rest && cur + v == cur;
    } else {
      BareReads(v[1..], rest, cur + [v[0]]);
      assert (v + rest)[1..] == v[1..] + rest;
      assert cur + [v[0]] + v[1..] == cur + v;
    }
  }

  lemma ElementReads(e: string, v: string, rest: string)
    requires Writes(e, v)
    ensures Elements(e + rest, "", false) == Elements(rest, v, false)
  {
    assert "" + v == v;
    if e == Quoted(v) {
      var tail := ['"'] + rest;
      assert (e + rest)[1..] == Escape(v) + tail;
      EscapedReads(v, tail, "");
      assert tail[1..] == rest;
    } else {
      BareReads(v, rest, "");
    }
  }

  /** All but the first element follow the first comma. */
  lemma {:induction false} JoinFirst(es: seq<string>)
    requires |es| > 1
    ensures Join(es) == es[0] + "," + Join(es[1..])
  {
    var front := es[..|es| - 1];
    if |es| == 2 {
      assert front == [es[0]] && es[1..] == [es[1]];
    } else {
      JoinFirst(front);
      assert front[1..] == es[1..][..|es| - 2];
    }
  }

  lemma FirstReads(e: string, v: string, tail: string)
    requires Writes(e, v)
    ensures Elements(e, "", false) == [UnquotedNull(v)]
    ensures Elements(e + "," + tail, "", false) == [UnquotedNull(v)] + Elements(tail, "", false)
  {
    ElementReads(e, v, "");
    assert e + "" == e;
    ElementReads(e, v, "," + tail);
    assert e + "," + tail == e + ("," + tail);
    assert ("," + tail)[1..] == tail;
  }

  lemma TailWrites(es: seq<string>, vs: seq<string>)
    requires es != [] && WritesAll(es, vs)
    ensures Writes(es[0], vs[0]) && WritesAll(es[1..], vs[1..])
    ensures NullsBlanked(vs) == [UnquotedNull(vs[0])] + NullsBlanked(vs[1..])
  {
    forall i | 0 <= i < |es| - 1 ensures Writes(es[1..][i], vs[1..][i]) {
      assert Writes(es[i + 1], vs[i + 1]);
    }
  }

  lemma {:induction false} JoinedReads(es: seq<string>, vs: seq<string>)
    requires es != [] && WritesAll(es, vs)
    ensures Elements(Join(es), "", false) == NullsBlanked(vs)
  {
    hide Elements;
    hide Writes;
    hide NullsBlanked;
    TailWrites(es, vs);
    if |es| == 1 {
      FirstReads(es[0], vs[0], "");
      NothingBlanked();
      assert vs[1..] == [];
    } else {
      JoinFirst(es);
      FirstReads(es[0], vs[0], Join(es[1..]));
      JoinedReads(es[1..], vs[1..]);
    }
  }

  lemma NothingBlanked()
    ensures NullsBlanked([]) == []
  {
  }

  lemma WrittenIsNotEmpty(es: seq<string>, vs: seq<string>)
    requires es != [] && WritesAll(es, vs)
    ensures Join(es) != ""
  {
    assert Writes(es[0], vs[0]);
    if |es| > 1 {
      JoinFirst(es);
    }
  }

  /** However the elements are quoted, the list is read back, but that "NULL" is lost. */
  lemma LiteralReads(es: seq<string>, vs: seq<string>)
    requires WritesAll(es, vs)
    ensures Parsed(Literal(es)) == NullsBlanked(vs)
  {
    var lit := Literal(es);
    assert lit[0] == '{' && lit[|lit| - 1] == '}';
    assert TrimSpace(lit) == lit;
    assert lit[1..|lit| - 1] == Join(es);
    if es != [] {
      WrittenIsNotEmpty(es, vs);
      JoinedReads(es, vs);
    }
  }

  /** ParseArray undoes Array exactly on the lists without the element "NULL". */
  lemma ArrayRoundTrip(vs: seq<string>)
    ensures Parsed(Literal(QuotedAll(vs))) == NullsBlanked(vs)
    ensures Parsed(Literal(QuotedAll(vs))) == vs <==> "NULL" !in vs
  {
    LiteralReads(QuotedAll(vs), vs);
    NullsKept(vs);
  }

  lemma NullsKept(vs: seq<string>)
    ensures NullsBlanked(vs) == vs <==> "NULL" !in vs
  {
    if "NULL" in vs {
      var i :| 0 <= i < |vs| && vs[i] == "NULL";
      assert NullsBlanked(vs)[i] != vs[i];
    }
  }

  // -------------------------------------------------------------- the server

  function Lower(c: char): char {
    if 'A' <= c <= 'Z' then 'a' + (c - 'A') else c
  }

  predicate MatchesNull(v: string) {
    |v| == 4 && Lower(v[0]) == 'n' && Lower(v[1]) == 'u' && Lower(v[2]) == 'l' && Lower(v[3]) == 'l'
  }

  const SPECIAL := {'{', '}', ',', '"', '\\', ' ', '\t', '\n', '\r', '\U{0B}', '\U{0C}'}

  /** When the server's array output puts quotes around an element. */
  predicate ServerQuotes(v: string) {
    v == "" || MatchesNull(v) || exists c <- v :: c in SPECIAL
  }

  function ServerElements(vs: seq<string>): seq<string> {
    seq(|vs|, i requires 0 <= i < |vs| => if ServerQuotes(vs[i]) then Quoted(vs[i]) else vs[i])
  }

  /** The server's text of a stored list is read back, but that "NULL" is lost. */
  lemma ServerTextReads(vs: seq<string>)
    ensures Parsed(Literal(ServerElements(vs))) == NullsBlanked(vs)
    ensures Parsed(Literal(ServerElements(vs))) == vs <==> "NULL" !in vs
  {
    forall i | 0 <= i < |vs| ensures Writes(ServerElements(vs)[i], vs[i]) {
      if !ServerQuotes(vs[i]) {
        assert '"' in SPECIAL && ',' in SPECIAL;
      }
    }
    LiteralReads(ServerElements(vs), vs);
    NullsKept(vs);
  }

  /** How the server reads a quoted element: up to the first quote that no
      backslash precedes, dropping the backslashes. */
  function ServerRead(s: string): (r: (string, string))
    decreases |s|
  {
    if s == "" || s[0] == '"' then ("", s)
    else if s[0] == '\\' && |s| > 1 then
      var (v, rest) := ServerRead(s[2..]);
      ([s[1]] + v, rest)
    else
      var (v, rest) := ServerRead(s[1..]);
      ([s[0]] + v, rest)
  }

  /** What Array sends is, to the server, the list it was given: each element ends at its own quote. */
  lemma {:induction false} ServerReadsQuoted(v: string, rest: string)
    ensures ServerRead(Quoted(v)[1..] + rest) == (v, ['"'] + rest)
  {
    var s := Quoted(v)[1..] + rest;
    assert s == Escape(v) + (['"'] + rest);
    if v == "" {
      assert s == ['"'] + rest;
    } else {
      var tail := Quoted(v[1..])[1..] + rest;
      assert tail == Escape(v[1..]) + (['"'] + rest);
      ServerReadsQuoted(v[1..], rest);
      assert v == [v[0]] + v[1..];
      if v[0] == '\\' || v[0] == '"' {
        assert s[2..] == tail;
      } else {
        assert s[1..] == tail;
      }
    }
  }
}
