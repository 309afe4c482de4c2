/** Cutting an SQL script into statements. Quoting and comments are those of the
    PostgreSQL 16 documentation, sections 4.1.2 and 4.1.5. */
module Statements {
  import opened Wrappers
  import opened Text

  // ---------------------------------------------------------------- scanning

  /** Where sub first occurs. */
  function Index(s: string, sub: string): (r: Option<nat>)
    ensures r.Some? ==> r.value + |sub| <= |s|
  {
    if StartsWith(s, sub) then Some(0)
    else if s == "" then None
    else
      var r := Index(s[1..], sub);
      if r.Some? then Some(r.value + 1) else None
  }

  lemma {:induction false} IndexOccurs(s: string, sub: string)
    requires Index(s, sub).Some?
    ensures StartsWith(s[Index(s, sub).value..], sub)
  {
    if StartsWith(s, sub) {
      assert s[0..] == s;
    } else {
      IndexOccurs(s[1..], sub);
      var n := Index(s[1..], sub).value;
      assert s[1..][n..] == s[n + 1..];
    }
  }

  /** The length of what comes before the end of the line. */
  function LineLength(s: string): (n: nat)
    ensures n <= |s|
  {
    if s == "" || s[0] == '\n' then 0 else 1 + LineLength(s[1..])
  }

  /** Just past the quote that closes the string s is inside of; a doubled quote does not. */
  function PastQuote(s: string, q: char): (n: nat)
    ensures n <= |s|
    decreases |s|
  {
    if s == "" then 0
    else if s[0] != q then 1 + PastQuote(s[1..], q)
    else if |s| > 1 && s[1] == q then 2 + PastQuote(s[2..], q)
    else 1
  }

  predicate PlainTagChar(c: char) {
    'a' <= c <= 'z' || 'A' <= c <= 'Z' || '0' <= c <= '9' || c == '_'
  }

  predicate TagChar(c: char) {
    c == '_' || 'a' <= c <= 'z' || 'A' <= c <= 'Z' || '0' <= c <= '9'
  }

  /** "$$" or "$tag$" when s starts with one. */
  function OpeningTag(s: string): (tag: string)
    ensures StartsWith(s, tag)
    ensures tag != "" ==> |tag| >= 2
  {
    if |s| < 2 || s[0] != '$' || Index(s[1..], "$").None? then ""
    else
      var end := Index(s[1..], "$").value;
      if forall c <- s[1..1 + end] :: TagChar(c) then s[..end + 2] else ""
  }

  /** How much of s a dollar-quoted string takes: up to its tag again, or all of it. */
  function DollarLength(s: string, tag: string): (n: nat)
    requires StartsWith(s, tag)
    ensures |tag| <= n <= |s|
  {
    var end := Index(s[|tag|..], tag);
    if end.None? then |s| else |tag| + end.value + |tag|
  }

  function Flush(cur: string): seq<string> {
    if TrimSpace(cur) == "" then [] else [TrimSpace(cur)]
  }

  // What comes next in a script: text to leave out, text to keep, or a semicolon.
  datatype Piece = Skip(n: nat) | Copy(n: nat) | Cut

  function NextPiece(s: string): (p: Piece)
    requires s != ""
    ensures !p.Cut? ==> 1 <= p.n <= |s|
  {
    if StartsWith(s, "--") then Skip(LineLength(s))
    else if StartsWith(s, "/*") then
      var end := Index(s[2..], "*/");
      Skip(if end.None? then |s| else end.value + 4)
    else if s[0] == '\'' || s[0] == '"' then Copy(1 + PastQuote(s[1..], s[0]))
    else if s[0] == '$' && OpeningTag(s) != "" then Copy(DollarLength(s, OpeningTag(s)))
    else if s[0] == ';' then Cut
    else Copy(1)
  }

  /** The statements of what is left of a script, cur being read so far. */
  function Split(s: string, cur: string): seq<string>
    decreases |s|
  {
    if s == "" then Flush(cur)
    else
      match NextPiece(s)
      case Skip(n) => Split(s[n..], cur)
      case Copy(n) => Split(s[n..], cur + s[..n])
      case Cut => Flush(cur) + Split(s[1..], "")
  }

  lemma Slices(script: string, i: nat, n: nat)
    requires i + n <= |script|
    ensures script[i..][n..] == script[i + n..] && script[i..][..n] == script[i..i + n]
  {
  }

  lemma SplitUnfolds(s: string, cur: string)
    requires s != ""
    ensures var p := NextPiece(s);
      Split(s, cur) == if p.Cut? then Flush(cur) + Split(s[1..], "") else Split(s[p.n..], if p.Copy? then cur + s[..p.n] else cur)
  {
    hide NextPiece;
    hide Flush;
  }

  /** Splitting from i goes on after the next piece. */
  lemma SplitPiece(script: string, i: nat, cur: string)
    requires i < |script|
    ensures var p := NextPiece(script[i..]);
      && (!p.Cut? ==> i + p.n <= |script|)
      && Split(script[i..], cur)
         == if p.Cut? then Flush(cur) + Split(script[i + 1..], "")
            else Split(script[i + p.n..], if p.Copy? then cur + script[i..i + p.n] else cur)
  {
    hide NextPiece;
    hide Split;
    hide Flush;
    var p := NextPiece(script[i..]);
    SplitUnfolds(script[i..], cur);
    Slices(script, i, if p.Cut? then 1 else p.n);
  }

  method SplitStatements(script: string) returns (out: seq<string>)
    ensures out == Split(script, "")
  {
    hide NextPiece;
    hide Flush;
    hide Split;
    out := [];
    var cur, i := "", 0;
    assert script[0..] == script;
    while i < |script|
      invariant 0 <= i <= |script|
      invariant out + Split(script[i..], cur) == Split(script, "")
      decreases |script| - i
    {
      var piece := ScanPiece(script, i);
      SplitPiece(script, i, cur);
      if piece.Cut? {
        out := out + Flush(cur);
        cur := "";
        i := i + 1;
      } else {
        if piece.Copy? {
          cur := cur + script[i..i + piece.n];
        }
        i := i + piece.n;
      }
    }
    assert script[i..] == "";
    NothingToSplit(cur);
    out := out + Flush(cur);
  }

  lemma NothingToSplit(cur: string)
    ensures Split("", cur) == Flush(cur)
  {
  }

  /** What comes at i: the cases of the main loop. */
  method ScanPiece(script: string, i: nat) returns (piece: Piece)
    requires i < |script|
    ensures piece == NextPiece(script[i..]) && (!piece.Cut? ==> i + piece.n <= |script|)
  {
    var s := script[i..];
    var c := script[i];
    if StartsWith(s, "--") {
      var end := SkipLine(script, i);
      return Skip(end - i);
    } else if StartsWith(s, "/*") {
      var end := Index(s[2..], "*/");
      return Skip(if end.None? then |script| - i else end.value + 4);
    } else if c == '\'' || c == '"' {
      var end := ClosingQuote(script, i, c);
      return Copy(end - i);
    } else if c == '$' {
      var tag := DollarTag(s);
      return Copy(if tag != "" then DollarLength(s, tag) else 1);
    }
    return if c == ';' then Cut else Copy(1);
  }

  /** "$$" or "$tag$" when s starts with a dollar-quote opener. */
  method DollarTag(s: string) returns (tag: string)
    ensures tag == OpeningTag(s)
  {
    if |s| < 2 || s[0] != '$' {
      return "";
    }
    var end := Index(s[1..], "$");
    if end.None? {
      return "";
    }
    tag := s[1..1 + end.value];
    for i := 0 to |tag|
      invariant forall j | 0 <= j < i :: TagChar(tag[j])
    {
      if !TagChar(tag[i]) {
        assert tag[i] in s[1..1 + end.value];
        return "";
      }
    }
    IndexOccurs(s[1..], "$");
    assert s[1..][end.value..][..1] == "$";
    assert s[..end.value + 2] == "$" + tag + "$";
    return "$" + tag + "$";
  }

  method SkipLine(script: string, start: nat) returns (i: nat)
    requires start < |script| && script[start] != '\n'
    ensures start < i <= |script| && i == start + LineLength(script[start..])
  {
    i := start;
    while i < |script| && script[i] != '\n'
      invariant start <= i <= |script| && start + LineLength(script[start..]) == i + LineLength(script[i..])
    {
      assert script[i..][1..] == script[i + 1..];
      i := i + 1;
    }
  }

  /** Just past the quote that closes the one at start. */
  method ClosingQuote(s: string, start: nat, q: char) returns (end: nat)
    requires start < |s|
    ensures start < end <= |s| && end == start + 1 + PastQuote(s[start..][1..], q)
  {
    var i := start + 1;
    assert s[start..][1..] == s[start + 1..];
    while i < |s|
      invariant start < i <= |s| && start + 1 + PastQuote(s[start + 1..], q) == i + PastQuote(s[i..], q)
    {
      if s[i] == q {
        if i + 1 < |s| && s[i + 1] == q {
          assert s[i..][2..] == s[i + 2..];
          i := i + 2;
          continue;
        }
        return i + 1;
      }
      assert s[i..][1..] == s[i + 1..];
      i := i + 1;
    }
    return |s|;
  }

  // ------------------------------------------------------------------ tokens

  // A script, as it was written: single characters, semicolons between
  // statements, quoted strings and identifiers, dollar-quoted bodies, comments.
  datatype Token =
    | Char(c: char)
    | Semicolon
    | Quoted(quote: char, body: string)
    | Dollars(tag: string, body: string)
    | LineComment(text: string)
    | BlockComment(text: string)

  function Dollar(tag: string): string {
    "$" + tag + "$"
  }

  function Print(t: Token): string {
    match t
    case Char(c) => [c]
    case Semicolon => ";"
    case Quoted(q, body) => [q] + Doubled(body, q) + [q]
    case Dollars(tag, body) => Dollar(tag) + body + Dollar(tag)
    case LineComment(text) => "--" + text
    case BlockComment(text) => "/*" + text + "*/"
  }

  function PrintAll(ts: seq<Token>): string {
    if ts == [] then "" else Print(ts[0]) + PrintAll(ts[1..])
  }

  /** The token, followed by rest, reads as itself: a character begins nothing
      longer, a string ends at its closing quote, a body at the first closing
      tag, a comment at the end of the line or at its closer. */
  predicate Stands(t: Token, rest: string) {
    match t
    case Char(c) =>
      && c !in {';', '\'', '"'}
      && !StartsWith([c] + rest, "--") && !StartsWith([c] + rest, "/*")
      && (c == '$' ==> OpeningTag([c] + rest) == "")
    case Semicolon => true
    case Quoted(q, body) => q in {'\'', '"'} && !StartsWith(rest, [q])
    case Dollars(tag, body) => (forall c <- tag :: TagChar(c)) && Index(body + Dollar(tag), Dollar(tag)) == Some(|body|)
    case LineComment(text) => '\n' !in text && (rest == "" || rest[0] == '\n')
    case BlockComment(text) => Index(text + "*/", "*/") == Some(|text|)
  }

  predicate AllStand(ts: seq<Token>) {
    ts != [] ==> Stands(ts[0], PrintAll(ts[1..])) && AllStand(ts[1..])
  }

  /** What the tokens say: between semicolons, all but the comments, trimmed, if anything is left. */
  function StatementsOf(ts: seq<Token>, cur: string): seq<string> {
    if ts == [] then Flush(cur)
    else
      match ts[0]
      case Semicolon => Flush(cur) + StatementsOf(ts[1..], "")
      case LineComment(_) => StatementsOf(ts[1..], cur)
      case BlockComment(_) => StatementsOf(ts[1..], cur)
      case t => StatementsOf(ts[1..], cur + Print(t))
  }

  lemma {:induction false} FirstAt(s: string, sub: string, n: nat)
    requires n <= |s| && StartsWith(s[n..], sub) && forall j | 0 <= j < n :: !StartsWith(s[j..], sub)
    ensures Index(s, sub) == Some(n)
  {
    hide StartsWith;
    assert s[0..] == s;
    if n > 0 {
      assert !StartsWith(s[0..], sub);
      assert s[1..][n - 1..] == s[n..];
      forall j | 0 <= j < n - 1 ensures !StartsWith(s[1..][j..], sub) {
        assert s[1..][j..] == s[j + 1..];
      }
      FirstAt(s[1..], sub, n - 1);
    }
  }

  /** What follows an occurrence does not change where the first one is. */
  lemma {:induction false} FirstStays(s: string, sub: string, n: nat, rest: string)
    requires Index(s, sub) == Some(n) && |s| == n + |sub|
    ensures Index(s + rest, sub) == Some(n)
  {
    assert (s + rest)[..|sub|] == s[..|sub|];
    if n > 0 {
      FirstStays(s[1..], sub, n - 1, rest);
      assert (s + rest)[1..] == s[1..] + rest;
    }
  }

  lemma {:induction false} PastDoubled(body: string, q: char, rest: string)
    requires !StartsWith(rest, [q])
    ensures PastQuote(Doubled(body, q) + ([q] + rest), q) == |Doubled(body, q)| + 1
    decreases |body|
  {
    var s := Doubled(body, q) + ([q] + rest);
    if body == "" {
      assert s == [q] + rest;
      assert |s| > 1 ==> rest[..1] == [s[1]];
    } else {
      PastDoubled(body[1..], q, rest);
      var tail := Doubled(body[1..], q) + ([q] + rest);
      if body[0] == q {
        assert s[2..] == tail;
      } else {
        assert s[1..] == tail;
      }
    }
  }

  lemma QuotedScans(q: char, body: string, rest: string)
    requires Stands(Quoted(q, body), rest)
    ensures NextPiece(Print(Quoted(q, body)) + rest) == Copy(|Print(Quoted(q, body))|)
  {
    var s := Print(Quoted(q, body)) + rest;
    PastDoubled(body, q, rest);
    assert s[1..] == Doubled(body, q) + ([q] + rest);
    assert s[0] == q;
  }

  lemma TagOpens(tag: string, rest: string)
    requires forall c <- tag :: TagChar(c)
    ensures OpeningTag(Dollar(tag) + rest) == Dollar(tag)
  {
    var s := Dollar(tag) + rest;
    assert s[1..] == tag + "$" + rest;
    assert s[1..][|tag|..] == "$" + rest;
    forall j | 0 <= j < |tag| ensures !StartsWith(s[1..][j..], "$") {
      assert tag[j] in tag && s[1..][j..][0] == tag[j];
    }
    FirstAt(s[1..], "$", |tag|);
    assert s[1..1 + |tag|] == tag;
    assert s[..|tag| + 2] == Dollar(tag);
  }

  /** A tag is a run of letters, digits and '_' between two dollar signs, the
      first of them where the text begins; and every such run is one. */
  lemma OpeningTagMeans(s: string)
    ensures var tag := OpeningTag(s); tag != "" ==>
      && 2 <= |tag| <= |s| && s[..|tag|] == tag && tag[0] == '$' && tag[|tag| - 1] == '$'
      && forall i | 0 < i < |tag| - 1 :: PlainTagChar(tag[i])
    ensures forall n | 0 < n < |s| && s[0] == '$' && s[n] == '$' && (forall i | 0 < i < n :: PlainTagChar(s[i])) :: OpeningTag(s) == s[..n + 1]
  {
    hide OpeningTag;
    OpenerIsATag(s);
    forall n | 0 < n < |s| && s[0] == '$' && s[n] == '$' && (forall i | 0 < i < n :: PlainTagChar(s[i])) ensures OpeningTag(s) == s[..n + 1] {
      TagIsAnOpener(s, n);
    }
  }

  lemma OpenerIsATag(s: string)
    ensures var tag := OpeningTag(s); tag != "" ==>
      && 2 <= |tag| <= |s| && s[..|tag|] == tag && tag[0] == '$' && tag[|tag| - 1] == '$'
      && forall i | 0 < i < |tag| - 1 :: PlainTagChar(tag[i])
  {
    hide Index;
    var tag := OpeningTag(s);
    if tag != "" {
      var end := Index(s[1..], "$").value;
      IndexOccurs(s[1..], "$");
      assert s[1..][end..][..1] == "$";
      forall i | 0 < i < |tag| - 1 ensures PlainTagChar(tag[i]) {
        assert tag[i] == s[1..1 + end][i - 1] && tag[i] in s[1..1 + end];
        assert TagChar(tag[i]);
      }
    }
  }

  lemma TagIsAnOpener(s: string, n: nat)
    requires 0 < n < |s| && s[0] == '$' && s[n] == '$' && forall i | 0 < i < n :: PlainTagChar(s[i])
    ensures OpeningTag(s) == s[..n + 1]
  {
    hide OpeningTag;
    forall c <- s[1..n] ensures TagChar(c) {
      var i :| 0 <= i < n - 1 && s[1..n][i] == c;
      assert c == s[i + 1];
    }
    TagOpens(s[1..n], s[n + 1..]);
    assert s == Dollar(s[1..n]) + s[n + 1..];
    assert s[..n + 1] == Dollar(s[1..n]);
  }

  lemma DollarsLength(tag: string, body: string, rest: string)
    requires Stands(Dollars(tag, body), rest)
    ensures DollarLength(Dollar(tag) + (body + Dollar(tag) + rest), Dollar(tag)) == |Print(Dollars(tag, body))|
  {
    var open, after := Dollar(tag), body + Dollar(tag) + rest;
    assert StartsWith(open + after, open) && (open + after)[|open|..] == after;
    FirstStays(body + open, open, |body|, rest);
  }

  lemma DollarsScan(tag: string, body: string, rest: string)
    requires Stands(Dollars(tag, body), rest)
    ensures NextPiece(Print(Dollars(tag, body)) + rest) == Copy(|Print(Dollars(tag, body))|)
  {
    hide DollarLength;
    hide OpeningTag;
    hide Index;
    var s, after := Print(Dollars(tag, body)) + rest, body + Dollar(tag) + rest;
    assert s == Dollar(tag) + after;
    TagOpens(tag, after);
    DollarsLength(tag, body, rest);
    assert s[0] == '$';
  }

  lemma {:induction false} LineEnds(text: string, rest: string)
    requires '\n' !in text && (rest == "" || rest[0] == '\n')
    ensures LineLength(text + rest) == |text|
  {
    if text == "" {
      assert text + rest == rest;
    } else {
      LineEnds(text[1..], rest);
      assert (text + rest)[1..] == text[1..] + rest;
    }
  }

  lemma LineCommentScans(text: string, rest: string)
    requires Stands(LineComment(text), rest)
    ensures NextPiece(Print(LineComment(text)) + rest) == Skip(|Print(LineComment(text))|)
  {
    hide Index;
    LineEnds("--" + text, rest);
    assert ("--" + text + rest)[..2] == "--";
  }

  lemma BlockCommentScans(text: string, rest: string)
    requires Stands(BlockComment(text), rest)
    ensures NextPiece(Print(BlockComment(text)) + rest) == Skip(|Print(BlockComment(text))|)
  {
    hide Index;
    hide LineLength;
    var s := Print(BlockComment(text)) + rest;
    assert s[..2] == "/*";
    assert s[2..] == (text + "*/") + rest;
    FirstStays(text + "*/", "*/", |text|, rest);
  }

  lemma CharScans(t: Token, rest: string)
    requires Stands(t, rest) && (t.Char? || t.Semicolon?)
    ensures NextPiece(Print(t) + rest) == if t.Char? then Copy(1) else Cut
  {
    assert (Print(t) + rest)[0] == if t.Char? then t.c else ';';
  }

  /** On any script written in these tokens, SplitStatements returns exactly the
      trimmed, comment-free, non-empty pieces between its semicolons. */
  lemma {:induction false} SplitIsByTokens(ts: seq<Token>, cur: string)
    requires AllStand(ts)
    ensures Split(PrintAll(ts), cur) == StatementsOf(ts, cur)
  {
    if ts != [] {
      var t, rest := ts[0], PrintAll(ts[1..]);
      var s := Print(t) + rest;
      assert s[|Print(t)|..] == rest && s[..|Print(t)|] == Print(t);
      match t {
        case Char(_) => CharScans(t, rest);
        case Semicolon => CharScans(t, rest);
        case Quoted(q, body) => QuotedScans(q, body, rest);
        case Dollars(tag, body) => DollarsScan(tag, body, rest);
        case LineComment(text) => LineCommentScans(text, rest);
        case BlockComment(text) => BlockCommentScans(text, rest);
      }
      SplitIsByTokens(ts[1..], if t.Semicolon? then "" else if t.LineComment? || t.BlockComment? then cur else cur + Print(t));
    }
  }

  // ---------------------------------------------------------- nested comments

  /** How much of s the server takes when this many comments are open at its
      start: "/*" opens another, "*/" closes one, and the last closer ends it. */
  function ServerComment(s: string, depth: nat): (n: Option<nat>)
    requires depth > 0
    ensures n.Some? ==> 2 <= n.value <= |s|
  {
    if |s| < 2 then None
    else
      var step := if StartsWith(s, "/*") || StartsWith(s, "*/") then 2 else 1;
      if StartsWith(s, "*/") && depth == 1 then Some(2)
      else
        var n := ServerComment(s[step..], if StartsWith(s, "/*") then depth + 1 else if StartsWith(s, "*/") then depth - 1 else depth);
        if n.Some? then Some(step + n.value) else None
  }

  lemma IndexUnfolds(s: string, sub: string)
    requires !StartsWith(s, sub) && s != ""
    ensures Index(s, sub) == if Index(s[1..], sub).Some? then Some(Index(s[1..], sub).value + 1) else None
  {
  }

  /** With another comment open, the first closer is not the last. */
  lemma {:induction false} FirstCloserIsEarlier(s: string, depth: nat)
    requires depth > 1 && ServerComment(s, depth).Some?
    ensures Index(s, "*/").Some? && Index(s, "*/").value < ServerComment(s, depth).value - 2
    decreases |s|
  {
    if StartsWith(s, "*/") {
    } else if StartsWith(s, "/*") {
      FirstCloserIsEarlier(s[2..], depth + 1);
      IndexUnfolds(s, "*/");
      assert s[1..][1..] == s[2..];
      if !StartsWith(s[1..], "*/") {
        IndexUnfolds(s[1..], "*/");
      }
    } else {
      FirstCloserIsEarlier(s[1..], depth);
      IndexUnfolds(s, "*/");
    }
  }

  /** With one comment open, the first closer is the last unless another opens before it. */
  lemma {:induction false} FirstCloserIsTheServers(s: string)
    requires ServerComment(s, 1).Some?
    ensures Index(s, "*/").Some?
    ensures Index(s, "*/") == Some(ServerComment(s, 1).value - 2) <==> Index(s[..ServerComment(s, 1).value], "/*").None?
    decreases |s|
  {
    var n := ServerComment(s, 1).value;
    assert s[..n][..2] == s[..2];
    if StartsWith(s, "*/") {
      IndexUnfolds(s[..2], "/*");
    } else if StartsWith(s, "/*") {
      FirstCloserIsEarlier(s[2..], 2);
      IndexUnfolds(s, "*/");
      assert s[1..][1..] == s[2..];
      if !StartsWith(s[1..], "*/") {
        IndexUnfolds(s[1..], "*/");
      }
    } else {
      FirstCloserIsTheServers(s[1..]);
      IndexUnfolds(s, "*/");
      IndexUnfolds(s[..n], "/*");
      assert s[..n][1..] == s[1..][..n - 1];
    }
  }

  /** Block comments end at their first closer, the server's when all nested
      ones are closed: a comment the server ends is left out as a whole if and
      only if no other opens inside it. */
  lemma CommentEndsAsTheServers(s: string)
    requires StartsWith(s, "/*") && ServerComment(s[2..], 1).Some?
    ensures var n := 2 + ServerComment(s[2..], 1).value;
      NextPiece(s) == Skip(n) <==> Index(s[2..n], "/*").None?
  {
    hide Index;
    hide ServerComment;
    FirstCloserIsTheServers(s[2..]);
    var n := ServerComment(s[2..], 1).value;
    assert s[2..][..n] == s[2..2 + n];
    assert s[..2][0] == s[0] == '/';
  }

  lemma FirstCloser()
    ensures Index("/**/", "*/") == Some(2)
  {
    hide Index;
    var s := "/**/";
    assert s[0..][0] == '/' && s[1..][1] == '*' && s[2..] == "*/";
    FirstAt(s, "*/", 2);
  }

  /** What is then left of the outer comment is taken for a statement. */
  lemma CommentsDoNotNest()
    ensures Split("/*/**/x", "") == ["x"]
  {
    hide NextPiece;
    hide Index;
    FirstCloser();
    assert "/*" + "*/" == "/**/";
    BlockCommentScans("/*", "x");
    assert Print(BlockComment("/*")) + "x" == "/*/**/x";
    assert "/*/**/x"[6..] == "x";
    XStands();
    CharScans(Char('x'), "");
    assert Print(Char('x')) + "" == "x" && "x"[1..] == "" && "x"[..1] == "x";
    FlushesX();
  }

  lemma XStands()
    ensures Stands(Char('x'), "")
  {
  }

  lemma FlushesX()
    ensures Flush("" + "x") == ["x"]
  {
    assert "" + "x" == "x";
  }
}
