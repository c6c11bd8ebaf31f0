/**
 * The `extract_hashtags` table function of the post aggregation job: split a post's text
 * on whitespace the way Python's `str.split()` does, and emit every token that starts
 * with `#`, paired with the post's creation time.
 */
module Hashtags {
  import opened Wrappers

  /** The characters `str.split()` with no separator splits on: the ASCII whitespace and
      separator controls, NEL, no-break space and the Unicode space separators, line and
      paragraph separators. */
  predicate IsSpace(c: char) {
    ('\t' <= c <= '\r') || ('\U{1C}' <= c <= '\U{1F}') || c == ' ' ||
    c == '\U{85}' || c == '\U{A0}' || c == '\U{1680}' || ('\U{2000}' <= c <= '\U{200A}') ||
    c == '\U{2028}' || c == '\U{2029}' || c == '\U{202F}' || c == '\U{205F}' || c == '\U{3000}'
  }

  /** A token `str.split()` can produce: non-empty and free of whitespace. */
  predicate IsToken(t: string) {
    |t| > 0 && forall i :: 0 <= i < |t| ==> !IsSpace(t[i])
  }

  /** `s` without its leading whitespace. */
  function SkipSpace(s: string): (r: string)
    ensures |r| <= |s|
    ensures r == [] || !IsSpace(r[0])
  {
    if s != [] && IsSpace(s[0]) then SkipSpace(s[1..]) else s
  }

  /** What is skipped is a prefix of whitespace. */
  lemma {:induction false} SkippedAreSpaces(s: string)
    ensures SkipSpace(s) == s[|s| - |SkipSpace(s)|..]
    ensures forall i :: 0 <= i < |s| - |SkipSpace(s)| ==> IsSpace(s[i])
  {
    if s != [] && IsSpace(s[0]) {
      SkippedAreSpaces(s[1..]);
      assert forall i :: 1 <= i < |s| ==> s[i] == s[1..][i - 1];
      assert s[1..][|s| - 1 - |SkipSpace(s)|..] == s[|s| - |SkipSpace(s)|..];
    }
  }

  /** The length of the run of non-whitespace characters `s` starts with. */
  function TokenLength(s: string): (n: nat)
    ensures n <= |s|
    ensures n == |s| || IsSpace(s[n])
    ensures s != [] && !IsSpace(s[0]) ==> n > 0
  {
    if s == [] || IsSpace(s[0]) then 0 else 1 + TokenLength(s[1..])
  }

  /** The run `TokenLength` measures holds no whitespace. */
  lemma {:induction false} TokenRunHasNoSpace(s: string)
    ensures forall i :: 0 <= i < TokenLength(s) ==> !IsSpace(s[i])
  {
    if s != [] && !IsSpace(s[0]) {
      TokenRunHasNoSpace(s[1..]);
      assert forall i :: 1 <= i < |s| ==> s[i] == s[1..][i - 1];
    }
  }

  /** `text.split()`: the maximal runs of non-whitespace characters, in order. Leading,
      trailing and repeated whitespace produce no empty tokens. */
  function Split(s: string): (tokens: seq<string>)
    ensures |tokens| <= |s|
    ensures forall i :: 0 <= i < |tokens| ==> tokens[i] != []
    decreases |s|
  {
    var t := SkipSpace(s);
    if t == [] then []
    else
      var n := TokenLength(t);
      [t[..n]] + Split(t[n..])
  }

  /** `str.split()` never yields an empty token or one holding whitespace. */
  lemma {:induction false} SplitTokens(s: string)
    ensures forall i :: 0 <= i < |Split(s)| ==> IsToken(Split(s)[i])
    decreases |s|
  {
    var t := SkipSpace(s);
    if t != [] {
      var n := TokenLength(t);
      TokenRunHasNoSpace(t);
      SplitTokens(t[n..]);
      assert Split(s) == [t[..n]] + Split(t[n..]);
    }
  }

  /** `token.startswith('#')` */
  predicate IsHashtag(token: string) {
    |token| > 0 && token[0] == '#'
  }

  /** The rows the generator yields for a token list, in order. */
  function Rows<T>(tokens: seq<string>, createdAt: T): (rows: seq<(string, T)>)
    ensures |rows| <= |tokens|
    ensures forall j :: 0 <= j < |rows| ==>
      rows[j].0 in tokens && IsHashtag(rows[j].0) && rows[j].1 == createdAt
  {
    if tokens == [] then []
    else
      (if IsHashtag(tokens[0]) then [(tokens[0], createdAt)] else []) + Rows(tokens[1..], createdAt)
  }

  /** `extract_hashtags(text, created_at)`: no rows for a missing text; otherwise one row
      per whitespace-separated token that starts with `#`, each carrying `created_at` as
      it came in. */
  function ExtractHashtags<T>(text: Option<string>, createdAt: T): (rows: seq<(string, T)>)
    ensures text.None? ==> rows == []
    ensures forall j :: 0 <= j < |rows| ==>
      IsHashtag(rows[j].0) && IsToken(rows[j].0) && rows[j].1 == createdAt
    ensures text.Some? ==> forall j :: 0 <= j < |rows| ==> rows[j].0 in Split(text.value)
  {
    if text.None? then []
    else
      var tokens := Split(text.value);
      SplitTokens(text.value);
      Rows(tokens, createdAt)
  }

  /** The rows are the hashtag tokens and nothing else, in text order, duplicates kept:
      they are the tokens at exactly the positions holding a hashtag, in increasing order. */
  lemma HashtagPositions<T>(tokens: seq<string>, createdAt: T) returns (idx: seq<nat>)
    ensures |idx| == |Rows(tokens, createdAt)|
    ensures forall j :: 0 <= j < |idx| ==>
      idx[j] < |tokens| && Rows(tokens, createdAt)[j] == (tokens[idx[j]], createdAt)
    ensures forall j, l :: 0 <= j < l < |idx| ==> idx[j] < idx[l]
    ensures forall i :: 0 <= i < |tokens| ==> (IsHashtag(tokens[i]) <==> i in idx)
  {
    idx := Positions(tokens, 0);
    PositionsMatchRows(tokens, 0, createdAt);
    PositionsIncrease(tokens, 0);
    PositionsCover(tokens, 0);
  }

  /** The positions, counted from `offset`, of the hashtags in `tokens`. */
  function Positions(tokens: seq<string>, offset: nat): seq<nat> {
    if tokens == [] then []
    else (if IsHashtag(tokens[0]) then [offset] else []) + Positions(tokens[1..], offset + 1)
  }

  lemma {:induction false} PositionsMatchRows<T>(tokens: seq<string>, offset: nat, createdAt: T)
    ensures |Positions(tokens, offset)| == |Rows(tokens, createdAt)|
    ensures forall j :: 0 <= j < |Positions(tokens, offset)| ==>
      offset <= Positions(tokens, offset)[j] < offset + |tokens| &&
      Rows(tokens, createdAt)[j] == (tokens[Positions(tokens, offset)[j] - offset], createdAt)
  {
    if tokens != [] {
      PositionsMatchRows(tokens[1..], offset + 1, createdAt);
      var p := Positions(tokens, offset);
      var rest := Positions(tokens[1..], offset + 1);
      var head := if IsHashtag(tokens[0]) then [offset] else [];
      assert p == head + rest;
      forall j | 0 <= j < |p|
        ensures offset <= p[j] < offset + |tokens| && Rows(tokens, createdAt)[j] == (tokens[p[j] - offset], createdAt)
      {
        if j >= |head| {
          assert p[j] == rest[j - |head|];
          assert tokens[1..][p[j] - offset - 1] == tokens[p[j] - offset];
        }
      }
    }
  }

  lemma {:induction false} PositionsIncrease(tokens: seq<string>, offset: nat)
    ensures forall j :: 0 <= j < |Positions(tokens, offset)| ==> offset <= Positions(tokens, offset)[j]
    ensures forall j, l :: 0 <= j < l < |Positions(tokens, offset)| ==>
      Positions(tokens, offset)[j] < Positions(tokens, offset)[l]
  {
    if tokens != [] {
      PositionsIncrease(tokens[1..], offset + 1);
      var p := Positions(tokens, offset);
      var rest := Positions(tokens[1..], offset + 1);
      var head := if IsHashtag(tokens[0]) then [offset] else [];
      assert p == head + rest;
      forall j | 0 <= j < |p|
        ensures offset <= p[j]
      {
        if j >= |head| {
          assert p[j] == rest[j - |head|];
        }
      }
      forall j, l | 0 <= j < l < |p|
        ensures p[j] < p[l]
      {
        assert p[l] == rest[l - |head|];
        if j >= |head| {
          assert p[j] == rest[j - |head|];
        }
      }
    }
  }

  lemma {:induction false} PositionsCover(tokens: seq<string>, offset: nat)
    ensures forall i :: offset <= i < offset + |tokens| ==>
      (IsHashtag(tokens[i - offset]) <==> i in Positions(tokens, offset))
    ensures forall i :: i in Positions(tokens, offset) ==> offset <= i < offset + |tokens|
  {
    if tokens != [] {
      PositionsCover(tokens[1..], offset + 1);
      var p := Positions(tokens, offset);
      var rest := Positions(tokens[1..], offset + 1);
      var head := if IsHashtag(tokens[0]) then [offset] else [];
      assert p == head + rest;
      forall i | offset < i < offset + |tokens|
        ensures IsHashtag(tokens[i - offset]) <==> i in p
      {
        assert tokens[1..][i - (offset + 1)] == tokens[i - offset];
      }
    }
  }

  /** A text without `#` yields no rows. */
  lemma NoHashNoRows<T>(text: string, createdAt: T)
    requires '#' !in text
    ensures ExtractHashtags(Some(text), createdAt) == []
  {
    var tokens := Split(text);
    SplitKeepsText(text);
    SplitTokens(text);
    forall i | 0 <= i < |tokens|
      ensures !IsHashtag(tokens[i])
    {
      ConcatHas(tokens, i, 0);
      NonSpaceFrom(text, tokens[i][0]);
    }
    NoHashtagNoRows(tokens, createdAt);
  }

  lemma {:induction false} NoHashtagNoRows<T>(tokens: seq<string>, createdAt: T)
    requires forall i :: 0 <= i < |tokens| ==> !IsHashtag(tokens[i])
    ensures Rows(tokens, createdAt) == []
  {
    if tokens != [] {
      NoHashtagNoRows(tokens[1..], createdAt);
    }
  }

  lemma {:induction false} ConcatHas(tokens: seq<string>, j: nat, i: nat)
    requires j < |tokens| && i < |tokens[j]|
    ensures tokens[j][i] in Concat(tokens)
  {
    if j > 0 {
      ConcatHas(tokens[1..], j - 1, i);
    }
  }

  lemma {:induction false} NonSpaceFrom(s: string, c: char)
    requires c in NonSpace(s)
    ensures c in s
  {
    if s != [] && c != s[0] {
      NonSpaceFrom(s[1..], c);
    }
  }

  /** The text with its whitespace removed. */
  function NonSpace(s: string): (r: string)
    ensures |r| <= |s|
  {
    if s == [] then []
    else (if IsSpace(s[0]) then [] else [s[0]]) + NonSpace(s[1..])
  }

  function Concat(tokens: seq<string>): string {
    if tokens == [] then [] else tokens[0] + Concat(tokens[1..])
  }

  lemma {:induction false} NonSpaceAppend(a: string, b: string)
    ensures NonSpace(a + b) == NonSpace(a) + NonSpace(b)
    decreases |a|
  {
    if a != [] {
      var head := if IsSpace(a[0]) then [] else [a[0]];
      assert (a + b)[0] == a[0] && (a + b)[1..] == a[1..] + b;
      NonSpaceAppend(a[1..], b);
      calc {
        NonSpace(a + b);
        head + NonSpace(a[1..] + b);
        head + (NonSpace(a[1..]) + NonSpace(b));
        (head + NonSpace(a[1..])) + NonSpace(b);
        NonSpace(a) + NonSpace(b);
      }
    } else {
      assert a + b == b;
    }
  }

  lemma {:induction false} NonSpaceOfSpaces(a: string)
    requires forall i :: 0 <= i < |a| ==> IsSpace(a[i])
    ensures NonSpace(a) == []
    decreases |a|
  {
    if a != [] {
      NonSpaceOfSpaces(a[1..]);
    }
  }

  lemma {:induction false} NonSpaceOfToken(a: string)
    requires forall i :: 0 <= i < |a| ==> !IsSpace(a[i])
    ensures NonSpace(a) == a
    decreases |a|
  {
    if a != [] {
      NonSpaceOfToken(a[1..]);
    }
  }

  /** Splitting loses no character but the whitespace, and invents none: the tokens laid
      end to end are the text with its whitespace removed. */
  lemma {:induction false} SplitKeepsText(s: string)
    ensures Concat(Split(s)) == NonSpace(s)
    decreases |s|
  {
    var t := SkipSpace(s);
    NonSpaceSkip(s);
    if t != [] {
      var n := TokenLength(t);
      NonSpaceToken(t);
      SplitKeepsText(t[n..]);
      assert Split(s) == [t[..n]] + Split(t[n..]);
      assert Concat(Split(s)) == t[..n] + Concat(Split(t[n..]));
    }
  }

  lemma NonSpaceSkip(s: string)
    ensures NonSpace(s) == NonSpace(SkipSpace(s))
  {
    var t := SkipSpace(s);
    var skipped := s[..|s| - |t|];
    calc {
      NonSpace(s);
      { SkippedAreSpaces(s);
        assert s == skipped + t; }
      NonSpace(skipped + t);
      { NonSpaceAppend(skipped, t); }
      NonSpace(skipped) + NonSpace(t);
      { SkippedAreSpaces(s);
        NonSpaceOfSpaces(skipped); }
      NonSpace(t);
    }
  }

  lemma NonSpaceToken(t: string)
    ensures NonSpace(t) == t[..TokenLength(t)] + NonSpace(t[TokenLength(t)..])
  {
    var n := TokenLength(t);
    TokenRunHasNoSpace(t);
    assert t == t[..n] + t[n..];
    NonSpaceAppend(t[..n], t[n..]);
    NonSpaceOfToken(t[..n]);
  }

  /** The tokens joined by single spaces. */
  function Join(tokens: seq<string>): string {
    if tokens == [] then []
    else if |tokens| == 1 then tokens[0]
    else tokens[0] + " " + Join(tokens[1..])
  }

  lemma {:induction false} TokenLengthOfToken(a: string, b: string)
    requires forall i :: 0 <= i < |a| ==> !IsSpace(a[i])
    requires b == [] || IsSpace(b[0])
    ensures TokenLength(a + b) == |a|
    decreases |a|
  {
    if a != [] {
      assert (a + b)[1..] == a[1..] + b;
      TokenLengthOfToken(a[1..], b);
    }
  }

  /** Splitting undoes joining with single spaces: a list of tokens survives the round
      trip through one text unchanged. */
  lemma {:induction false} SplitJoin(tokens: seq<string>)
    requires forall i :: 0 <= i < |tokens| ==> IsToken(tokens[i])
    ensures Split(Join(tokens)) == tokens
    decreases |tokens|
  {
    if tokens == [] {
      assert SkipSpace([]) == [];
    } else if |tokens| == 1 {
      calc {
        Split(Join(tokens));
        { assert Join(tokens) == tokens[0] + []; }
        Split(tokens[0] + []);
        { SplitToken(tokens[0], []); }
        [tokens[0]] + Split([]);
        { assert SkipSpace([]) == []; }
        tokens;
      }
    } else if |tokens| > 1 {
      var rest := Join(tokens[1..]);
      calc {
        Split(Join(tokens));
        { assert Join(tokens) == tokens[0] + (" " + rest); }
        Split(tokens[0] + (" " + rest));
        { assert IsSpace((" " + rest)[0]) by { assert (" " + rest)[0] == ' '; }
          SplitToken(tokens[0], " " + rest); }
        [tokens[0]] + Split(" " + rest);
        { assert " " + rest == [' '] + rest;
          SplitSkipsSpace(' ', rest); }
        [tokens[0]] + Split(rest);
        { assert forall i :: 0 <= i < |tokens[1..]| ==> tokens[1..][i] == tokens[i + 1];
          SplitJoin(tokens[1..]); }
        [tokens[0]] + tokens[1..];
      }
    }
  }

  /** A token followed by whitespace or by nothing is the first thing `Split` yields. */
  lemma SplitToken(head: string, tail: string)
    requires IsToken(head)
    requires tail == [] || IsSpace(tail[0])
    ensures Split(head + tail) == [head] + Split(tail)
  {
    var s := head + tail;
    assert SkipSpace(s) == s;
    TokenLengthOfToken(head, tail);
    assert s[..|head|] == head && s[|head|..] == tail;
  }

  /** Whitespace before a text changes nothing in its split. */
  lemma SplitSkipsSpace(c: char, x: string)
    requires IsSpace(c)
    ensures Split([c] + x) == Split(x)
  {
    assert ([c] + x)[1..] == x;
    assert SkipSpace([c] + x) == SkipSpace(x);
  }

  lemma {:induction false} SplitSkipsSpaces(w: string, x: string)
    requires forall i :: 0 <= i < |w| ==> IsSpace(w[i])
    ensures Split(w + x) == Split(x)
    decreases |w|
  {
    if w != [] {
      assert w + x == [w[0]] + (w[1..] + x);
      SplitSkipsSpace(w[0], w[1..] + x);
      SplitSkipsSpaces(w[1..], x);
    } else {
      assert w + x == x;
    }
  }

  /** Tokens are maximal runs: a text without whitespace is one token, never cut at a
      `#` or anywhere else, and a run of whitespace after a token cuts exactly there. */
  lemma SplitSingleRun(t: string)
    requires IsToken(t)
    ensures Split(t) == [t]
  {
    SplitToken(t, []);
    assert t + [] == t;
    assert SkipSpace([]) == [];
  }

  lemma SplitSeparated(a: string, w: string, b: string)
    requires IsToken(a)
    requires w != [] && forall i :: 0 <= i < |w| ==> IsSpace(w[i])
    ensures Split(a + w + b) == [a] + Split(b)
  {
    assert a + w + b == a + (w + b);
    SplitToken(a, w + b);
    SplitSkipsSpaces(w, b);
  }
}
