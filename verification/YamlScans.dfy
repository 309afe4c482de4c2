/** The scans of a line for a comment and for the end of a key, on any text
    whose quotes are closed. */
module YamlScans {
  import opened Wrappers
  import opened Yaml

  // A character outside quotes, or a quoted string.
  datatype Bit = Bare(c: char) | InQuotes(quote: char, body: string)

  predicate Closed(b: Bit) {
    match b
    case Bare(c) => c != '"' && c != '\''
    case InQuotes(quote, body) => (quote == '"' || quote == '\'') && quote !in body
  }

  function Shown(b: Bit): string {
    match b
    case Bare(c) => [c]
    case InQuotes(quote, body) => [quote] + body + [quote]
  }

  function ShownAll(bs: seq<Bit>): string {
    if bs == [] then "" else Shown(bs[0]) + ShownAll(bs[1..])
  }

  /** Where the characters of a text in three parts are. */
  lemma Within(before: string, mid: string, after: string)
    ensures var s := before + mid + after;
      && |s| == |before| + |mid| + |after|
      && (forall k | 0 <= k < |before| :: s[k] == before[k])
      && (forall k | |before| <= k < |before| + |mid| :: s[k] == mid[k - |before|])
      && (after != "" ==> s[|before| + |mid|] == after[0])
  {
  }

  lemma QuotedBit(b: Bit)
    requires b.InQuotes? && Closed(b)
    ensures |Shown(b)| == |b.body| + 2 && Shown(b)[0] == b.quote && Shown(b)[|b.body| + 1] == b.quote
    ensures forall k | 1 <= k <= |b.body| :: Shown(b)[k] != b.quote
  {
    forall k | 1 <= k <= |b.body| ensures Shown(b)[k] != b.quote {
      assert Shown(b)[k] == b.body[k - 1];
    }
  }

  // ---------------------------------------------------------------- comments

  /** A comment may start after this text. */
  predicate AtBlank(before: string) {
    before == "" || before[|before| - 1] == ' ' || before[|before| - 1] == '\t'
  }

  /** Inside quotes nothing starts a comment. */
  lemma {:induction false} CommentPassesQuotes(s: string, i: nat, j: nat, quote: char)
    requires i <= j < |s| && s[j] == quote && forall k | i <= k < j :: s[k] != quote
    ensures CommentAt(s, i, Some(quote)) == CommentAt(s, j + 1, None)
    decreases j - i
  {
    if i < j {
      CommentPassesQuotes(s, i + 1, j, quote);
    }
  }

  lemma CommentPasses(before: string, b: Bit, after: string)
    requires Closed(b) && (b == Bare('#') ==> !AtBlank(before))
    ensures var s := before + Shown(b) + after;
      CommentAt(s, |before|, None) == CommentAt(s, |before + Shown(b)|, None)
  {
    var s := before + Shown(b) + after;
    Within(before, Shown(b), after);
    if b.InQuotes? {
      QuotedBit(b);
      CommentPassesQuotes(s, |before| + 1, |before| + 1 + |b.body|, b.quote);
    }
  }

  lemma CommentStartsHere(before: string, rest: string)
    requires rest != "" ==> rest[0] == '#' && AtBlank(before)
    ensures CommentAt(before + rest, |before|, None) == |before|
  {
    var s := before + rest;
    assert rest != "" ==> s[|before|] == '#' && (before != "" ==> s[|before| - 1] == before[|before| - 1]);
  }

  lemma ShownNext(before: string, bs: seq<Bit>, k: nat)
    requires k < |bs|
    ensures before + ShownAll(bs[..k + 1]) == before + Shown(bs[0]) + ShownAll(bs[1..][..k])
  {
    assert bs[..k + 1][1..] == bs[1..][..k];
  }

  /** The first # outside quotes that begins the line or follows a blank starts
      the comment; without one there is none. */
  lemma {:induction false} CommentIsCut(before: string, bs: seq<Bit>, rest: string)
    requires forall b <- bs :: Closed(b)
    requires forall k | 0 <= k < |bs| && bs[k] == Bare('#') :: !AtBlank(before + ShownAll(bs[..k]))
    requires rest != "" ==> rest[0] == '#' && AtBlank(before + ShownAll(bs))
    ensures CommentAt(before + ShownAll(bs) + rest, |before|, None) == |before + ShownAll(bs)|
    decreases |bs|
  {
    hide CommentAt;
    hide AtBlank;
    hide Closed;
    if bs == [] {
      assert before + ShownAll(bs) == before;
      CommentStartsHere(before, rest);
    } else {
      var shown := Shown(bs[0]);
      assert bs[..0] == [] && before + ShownAll(bs[..0]) == before;
      forall k | 0 <= k < |bs| - 1 && bs[1..][k] == Bare('#') ensures !AtBlank(before + shown + ShownAll(bs[1..][..k])) {
        ShownNext(before, bs, k);
        assert bs[k + 1] == Bare('#');
      }
      assert before + ShownAll(bs) == before + shown + ShownAll(bs[1..]);
      CommentIsCut(before + shown, bs[1..], rest);
      assert before + ShownAll(bs) + rest == before + shown + (ShownAll(bs[1..]) + rest);
      CommentPasses(before, bs[0], ShownAll(bs[1..]) + rest);
    }
  }

  // -------------------------------------------------------------------- keys

  /** A colon before this text ends a key. */
  predicate AtGap(after: string) {
    after == "" || after[0] == ' '
  }

  lemma {:induction false} ColonPassesQuotes(s: string, i: nat, j: nat, quote: char)
    requires i <= j < |s| && s[j] == quote && forall k | i <= k < j :: s[k] != quote
    ensures Colon(s, i, Some(quote)) == Colon(s, j + 1, None)
    decreases j - i
  {
    if i < j {
      ColonPassesQuotes(s, i + 1, j, quote);
    }
  }

  lemma ColonPasses(before: string, b: Bit, after: string)
    requires Closed(b) && (b == Bare(':') ==> !AtGap(after))
    ensures var s := before + Shown(b) + after;
      Colon(s, |before|, None) == Colon(s, |before + Shown(b)|, None)
  {
    var s := before + Shown(b) + after;
    Within(before, Shown(b), after);
    if b.InQuotes? {
      QuotedBit(b);
      ColonPassesQuotes(s, |before| + 1, |before| + 1 + |b.body|, b.quote);
    }
  }

  lemma KeyEndsHere(before: string, rest: string)
    requires rest != "" ==> rest[0] == ':' && AtGap(rest[1..])
    ensures Colon(before + rest, |before|, None) == if rest == "" then None else Some(|before|)
  {
    var s := before + rest;
    assert rest != "" ==> s[|before|] == ':' && (|rest| > 1 ==> s[|before| + 1] == rest[1..][0]);
  }

  /** The first colon outside quotes that ends the line or comes before a space
      ends the key; without one there is no key. */
  lemma {:induction false} KeyEndsAtColon(before: string, bs: seq<Bit>, rest: string)
    requires forall b <- bs :: Closed(b)
    requires forall k | 0 <= k < |bs| && bs[k] == Bare(':') :: !AtGap(ShownAll(bs[k + 1..]) + rest)
    requires rest != "" ==> rest[0] == ':' && AtGap(rest[1..])
    ensures Colon(before + ShownAll(bs) + rest, |before|, None) == if rest == "" then None else Some(|before + ShownAll(bs)|)
    decreases |bs|
  {
    hide Colon;
    hide AtGap;
    hide Closed;
    if bs == [] {
      assert before + ShownAll(bs) == before;
      KeyEndsHere(before, rest);
    } else {
      var shown := Shown(bs[0]);
      forall k | 0 <= k < |bs| - 1 && bs[1..][k] == Bare(':') ensures !AtGap(ShownAll(bs[1..][k + 1..]) + rest) {
        assert bs[1..][k + 1..] == bs[k + 1 + 1..];
      }
      assert before + ShownAll(bs) == before + shown + ShownAll(bs[1..]);
      KeyEndsAtColon(before + shown, bs[1..], rest);
      assert before + ShownAll(bs) + rest == before + shown + (ShownAll(bs[1..]) + rest);
      ColonPasses(before, bs[0], ShownAll(bs[1..]) + rest);
    }
  }
}
