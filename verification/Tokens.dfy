/** Taking strings apart in place, the way `strtok` does, and what the tools read off agent tags
    and children lists with it. */
module Tokens {
  import opened Options
  import opened Separators
  import opened Sequences

  const NUL: char := '\0'

  // ----- tokens of a string -----------------------------------------------------------------

  function Run(s: string, delims: string): (n: nat)
    ensures n <= |s|
  {
    if s == "" || s[0] in delims then 0 else 1 + Run(s[1..], delims)
  }

  /** The maximal runs of characters that are not delimiters. */
  function TokensOf(s: string, delims: string): seq<string>
    decreases |s|
  {
    if s == "" then []
    else if s[0] in delims then TokensOf(s[1..], delims)
    else
      var n := Run(s, delims);
      [s[..n]] + TokensOf(s[n..], delims)
  }

  predicate Only(s: string, delims: string) {
    forall k :: 0 <= k < |s| ==> s[k] in delims
  }

  predicate Without(s: string, delims: string) {
    forall k :: 0 <= k < |s| ==> s[k] !in delims
  }

  lemma {:induction false} RunIs(s: string, n: nat, delims: string)
    requires n <= |s| && Without(s[..n], delims) && (n == |s| || s[n] in delims)
    ensures Run(s, delims) == n
  {
    if n > 0 {
      assert s[0] == s[..n][0];
      assert s[1..][..n - 1] == s[..n][1..];
      RunIs(s[1..], n - 1, delims);
    }
  }

  /** Leading delimiters do not matter. */
  lemma {:induction false} SkipDelimiters(s: string, k: nat, delims: string)
    requires k <= |s| && Only(s[..k], delims)
    ensures TokensOf(s, delims) == TokensOf(s[k..], delims)
  {
    if k > 0 {
      assert s[0] == s[..k][0];
      assert s[1..][..k - 1] == s[..k][1..];
      SkipDelimiters(s[1..], k - 1, delims);
      assert s[1..][k - 1..] == s[k..];
    } else {
      assert s[0..] == s;
    }
  }

  /** The first token of a string, and what is left behind its delimiter. */
  lemma FirstToken(s: string, k: nat, n: nat, delims: string)
    requires k < n <= |s| && Only(s[..k], delims) && Without(s[k..n], delims) && (n == |s| || s[n] in delims)
    ensures TokensOf(s, delims) == [s[k..n]] + TokensOf(s[if n == |s| then n else n + 1..], delims)
  {
    hide Run;
    SkipDelimiters(s, k, delims);
    var t := s[k..];
    assert t[..n - k] == s[k..n];
    assert t[0] == s[k..n][0];
    RunIs(t, n - k, delims);
    assert t[n - k..] == s[n..];
    if n < |s| {
      assert s[n..][..1] == [s[n]];
      SkipDelimiters(s[n..], 1, delims);
      assert s[n..][1..] == s[n + 1..];
    }
  }

  // ----- comma-separated lists --------------------------------------------------------------

  /** Every piece with a comma behind it. */
  function Commas(pieces: seq<string>): string {
    if pieces == [] then "" else Commas(Init(pieces)) + Last(pieces) + ","
  }

  /** A comma between every two pieces. */
  function Listed(pieces: seq<string>): string {
    if pieces == [] then "" else Commas(Init(pieces)) + Last(pieces)
  }

  predicate Plain(piece: string, delims: string) {
    piece != "" && Without(piece, delims)
  }

  predicate AllPlain(pieces: seq<string>, delims: string) {
    forall k :: 0 <= k < |pieces| ==> Plain(pieces[k], delims)
  }

  lemma {:induction false} CommasFront(pieces: seq<string>)
    requires pieces != []
    ensures Commas(pieces) == pieces[0] + "," + Commas(pieces[1..])
  {
    if |pieces| > 1 {
      CommasFront(Init(pieces));
      assert Init(pieces)[1..] == Init(pieces[1..]);
      assert Last(pieces) == Last(pieces[1..]);
    } else {
      assert Init(pieces) == [];
    }
  }

  lemma PlainToken(piece: string, rest: string, delims: string)
    requires Plain(piece, delims)
    ensures TokensOf(piece, delims) == [piece]
    ensures ',' in delims ==> TokensOf(piece + "," + rest, delims) == [piece] + TokensOf(rest, delims)
  {
    assert piece[0..|piece|] == piece && piece[|piece|..] == "";
    FirstToken(piece, 0, |piece|, delims);
    if ',' in delims {
      var s := piece + "," + rest;
      assert s[0..|piece|] == piece && s[|piece| + 1..] == rest;
      FirstToken(s, 0, |piece|, delims);
    }
  }

  /** Taking a comma-separated list apart gives its pieces back, with or without a final comma. */
  lemma {:induction false} TokensOfList(pieces: seq<string>, delims: string)
    requires AllPlain(pieces, delims) && ',' in delims
    ensures TokensOf(Commas(pieces), delims) == pieces
    ensures TokensOf(Listed(pieces), delims) == pieces
    decreases |pieces|
  {
    hide TokensOf, Plain;
    if |pieces| == 0 {
      assert TokensOf("", delims) == [] by { NoTokens(delims); }
    } else {
      var rest := pieces[1..];
      TokensOfList(rest, delims);
      CommasFront(pieces);
      PlainToken(pieces[0], Commas(rest), delims);
      if |pieces| > 1 {
        CommasFront(Init(pieces));
        assert Init(pieces)[1..] == Init(rest) && Last(pieces) == Last(rest);
        assert Listed(pieces) == pieces[0] + "," + Listed(rest);
        PlainToken(pieces[0], Listed(rest), delims);
      } else {
        assert pieces == [pieces[0]];
        ListedOne(pieces[0]);
      }
      assert pieces == [pieces[0]] + rest;
    }
  }

  /** A list grows by a comma, unless it is empty, and a piece. */
  lemma ListedSnoc(pieces: seq<string>, piece: string)
    ensures Listed(pieces + [piece]) == Listed(pieces) + (if |pieces| > 0 then "," else "") + piece
  {
    assert Init(pieces + [piece]) == pieces;
  }

  lemma ListedOne(piece: string)
    ensures Listed([piece]) == piece
  {
    assert Init([piece]) == [];
  }

  lemma NoTokens(delims: string)
    ensures TokensOf("", delims) == []
  {
  }

  // ----- strtok -----------------------------------------------------------------------------

  /** Whether a NUL-terminated text runs from `from` to before `end`. */
  ghost predicate TextAt(buf: array<char>, from: nat, end: nat)
    reads buf
  {
    && from <= end < buf.Length && buf[end] == NUL
    && forall k :: from <= k < end ==> buf[k] != NUL
  }

  /** Delimiters up to `token`, and a token from there to `stop`. */
  ghost predicate Between(chars: seq<char>, from: nat, token: nat, stop: nat, delims: string) {
    && from <= token <= stop <= |chars|
    && (forall k :: from <= k < token ==> chars[k] in delims)
    && (forall k :: token <= k < stop ==> chars[k] !in delims)
  }

  /** The delimiter at `stop`, if the text does not end there, is now a NUL. */
  ghost predicate Cut(before: seq<char>, after: seq<char>, stop: nat, end: nat, pos: nat, delims: string) {
    && stop <= end <= |before|
    && if stop == end then pos == end && after == before
       else pos == stop + 1 && before[stop] in delims && after == before[stop := NUL]
  }

  method PastDelimiters(buf: array<char>, from: nat, ghost end: nat, delims: string) returns (i: nat)
    requires TextAt(buf, from, end)
    ensures from <= i <= end && (i < end ==> buf[i] !in delims)
    ensures forall k :: from <= k < i ==> buf[k] in delims
  {
    i := from;
    while buf[i] != NUL && buf[i] in delims
      invariant from <= i <= end
      invariant forall k :: from <= k < i ==> buf[k] in delims
      decreases end - i
    {
      i := i + 1;
    }
  }

  method PastToken(buf: array<char>, from: nat, ghost end: nat, delims: string) returns (i: nat)
    requires TextAt(buf, from, end)
    ensures from <= i <= end && (i < end ==> buf[i] in delims)
    ensures forall k :: from <= k < i ==> buf[k] !in delims
  {
    i := from;
    while buf[i] != NUL && buf[i] !in delims
      invariant from <= i <= end
      invariant forall k :: from <= k < i ==> buf[k] !in delims
      decreases end - i
    {
      i := i + 1;
    }
  }

  lemma NextToken(buf: array<char>, from: nat, end: nat, token: nat, stop: nat, delims: string)
    requires TextAt(buf, from, end) && from <= token < stop <= end
    requires forall k :: from <= k < token ==> buf[k] in delims
    requires forall k :: token <= k < stop ==> buf[k] !in delims
    requires stop < end ==> buf[stop] in delims
    ensures TokensOf(buf[from..end], delims) ==
            [buf[token..stop]] + TokensOf(buf[if stop == end then end else stop + 1..end], delims)
  {
    var s, k, n := buf[from..end], token - from, stop - from;
    assert forall j :: 0 <= j < |s| ==> s[j] == buf[from + j];
    assert s[k..n] == buf[token..stop];
    assert Only(s[..k], delims);
    assert s[if n == |s| then n else n + 1..] == buf[if stop == end then end else stop + 1..end];
    FirstToken(s, k, n, delims);
  }

  class Tokenizer {
    const buf: array<char>
    ghost const end: nat
    var pos: nat

    /** The text not looked at yet runs up to a final NUL. */
    ghost predicate Valid()
      reads this`pos, buf
    {
      TextAt(buf, pos, end)
    }

    ghost function Rest(): string
      requires Valid()
      reads this`pos, buf
    {
      buf[pos..end]
    }

    constructor (buf: array<char>, ghost end: nat)
      requires TextAt(buf, 0, end)
      ensures Valid() && pos == 0 && this.buf == buf && this.end == end
    {
      this.buf, this.end, this.pos := buf, end, 0;
    }

    /** Finds the next token, and puts a NUL in place of the delimiter behind it. */
    method Next(delims: string) returns (token: int, ghost stop: nat)
      requires Valid() && NUL !in delims
      modifies buf, this`pos
      ensures Valid() && pos >= old(pos) && stop <= end
      ensures token < 0 ==> pos == end && buf[..] == old(buf[..]) && TokensOf(old(Rest()), delims) == []
      ensures token < 0 ==> Between(buf[..], old(pos), end, end, delims)
      ensures token >= 0 ==>
                && old(pos) <= token < stop && TextAt(buf, token, stop)
                && TokensOf(old(Rest()), delims) == [buf[token..stop]] + TokensOf(Rest(), delims)
                && Between(old(buf[..]), old(pos), token, stop, delims)
      ensures token >= 0 ==> Cut(old(buf[..]), buf[..], stop, end, pos, delims)
    {
      token := PastDelimiters(buf, pos, end, delims);
      stop := end;
      ghost var s := Rest();
      if buf[token] == NUL {
        assert Only(s[..|s|], delims);
        SkipDelimiters(s, |s|, delims);
        pos := token;
        token := -1;
        return;
      }
      var i := PastToken(buf, token, end, delims);
      stop := i;
      NextToken(buf, pos, end, token, stop, delims);
      if buf[i] == NUL {
        pos := i;
      } else {
        ghost var behind := buf[i + 1..end];
        buf[i] := NUL;
        assert buf[i + 1..end] == behind;
        pos := i + 1;
      }
    }
  }

  /** The string that starts at a position of a buffer. */
  method StringAt(buf: array<char>, start: nat, ghost stop: nat) returns (s: string)
    requires TextAt(buf, start, stop)
    ensures s == buf[start..stop]
  {
    s := "";
    var i := start;
    while buf[i] != NUL
      invariant start <= i <= stop && s == buf[start..i]
      decreases stop - i
    {
      s := s + [buf[i]];
      i := i + 1;
    }
  }

  method CopyTo(s: string, buf: array<char>)
    requires |s| < buf.Length
    modifies buf
    ensures buf[..|s|] == s && buf[|s|] == NUL
  {
    for i := 0 to |s|
      invariant buf[..i] == s[..i]
    {
      buf[i] := s[i];
    }
    buf[|s|] := NUL;
  }

  /** Takes a list apart into its tokens. */
  method ReadList(text: string, delims: string, buf: array<char>) returns (tokens: seq<string>)
    requires |text| < buf.Length && NUL !in text && NUL !in delims
    modifies buf
    ensures tokens == TokensOf(text, delims)
  {
    hide TokensOf, Cut, Between;
    CopyTo(text, buf);
    var strtok := new Tokenizer(buf, |text|);
    tokens := [];
    assert strtok.Rest() == text;
    var tmp, stop := strtok.Next(delims);
    while tmp >= 0
      invariant strtok.Valid() && strtok.buf == buf
      invariant tmp < 0 ==> tokens == TokensOf(text, delims)
      invariant tmp >= 0 ==> tmp < stop <= strtok.pos && TextAt(buf, tmp, stop)
      invariant tmp >= 0 ==> tokens + ([buf[tmp..stop]] + TokensOf(strtok.Rest(), delims)) == TokensOf(text, delims)
      decreases if tmp < 0 then 0 else 1, strtok.end - strtok.pos
    {
      var token := StringAt(buf, tmp, stop);
      ghost var rest := TokensOf(strtok.Rest(), delims);
      Regroup(tokens, [token], rest);
      tokens := tokens + [token];
      tmp, stop := strtok.Next(delims);
    }
  }

  // ----- the parent of a tag ----------------------------------------------------------------

  const COLON := ":"

  /** The tag without the colons it ends in, and without the last token. */
  function Trimmed(tag: string): string {
    if tag != "" && Last(tag) == ':' then Trimmed(Init(tag)) else tag
  }

  function Stem(tag: string): string {
    if tag != "" && Last(tag) != ':' then Stem(Init(tag)) else tag
  }

  /** The tag that the graph drawn of the agents takes for the parent of `tag`. */
  function ParentOf(tag: string): Option<string> {
    var stem := Stem(Trimmed(tag));
    if stem == "" then None
    else if |stem| >= 2 && stem[|stem| - 2] != ':' then Some(Init(stem))
    else Some(Trimmed(tag))
  }

  /** What is found once the last token is known to run from `last` to `stop`. */
  lemma {:induction false} TrimmedIs(tag: string, stop: nat)
    requires stop <= |tag| && (forall k :: stop <= k < |tag| ==> tag[k] == ':') && (stop > 0 ==> tag[stop - 1] != ':')
    ensures Trimmed(tag) == tag[..stop]
    decreases |tag|
  {
    if stop < |tag| {
      TrimmedIs(Init(tag), stop);
      assert Init(tag)[..stop] == tag[..stop];
    } else {
      assert tag[..stop] == tag;
    }
  }

  lemma {:induction false} StemIs(tag: string, last: nat)
    requires last <= |tag| && (forall k :: last <= k < |tag| ==> tag[k] != ':') && (last > 0 ==> tag[last - 1] == ':')
    ensures Stem(tag) == tag[..last]
    decreases |tag|
  {
    if last < |tag| {
      StemIs(Init(tag), last);
      assert Init(tag)[..last] == tag[..last];
    } else {
      assert tag[..last] == tag;
    }
  }

  /** A tag that extends another by one component is taken for its child exactly when that one
      does not end in a colon itself. */
  lemma ParentOfChild(tag: string, component: string)
    requires component != "" && ':' !in component
    ensures ParentOf(tag + ":" + component) == Some(tag) <==> tag != "" && Last(tag) != ':'
  {
    var child := tag + ":" + component;
    TrimmedIs(child, |child|);
    assert child[..|child|] == child;
    StemIs(child, |tag| + 1);
    assert child[..|tag| + 1] == tag + ":";
    assert Init(tag + ":") == tag;
    if tag != "" {
      assert (tag + ":")[|tag| - 1] == Last(tag);
    }
  }

  /** The tokens found so far end at `stop`, the last of them starts at `last`, and every colon
      directly behind a token is a NUL now. */
  ghost predicate Tokenized(tag: string, chars: seq<char>, last: nat, stop: nat, pos: nat) {
    && last < stop <= pos <= |tag| < |chars| && (pos > stop || pos == |tag|)
    && (last > 0 ==> tag[last - 1] == ':')
    && (forall k :: last <= k < stop ==> tag[k] != ':')
    && (forall k :: stop <= k < pos ==> tag[k] == ':')
    && (forall k :: 0 <= k < |tag| ==> chars[k] == if k < pos && EndsToken(tag, k) then NUL else tag[k])
    && chars[|tag|] == NUL
  }

  ghost predicate EndsToken(tag: string, k: nat) {
    0 < k < |tag| && tag[k] == ':' && tag[k - 1] != ':'
  }

  ghost predicate Holds(tag: string, chars: seq<char>, from: nat) {
    |tag| < |chars| && chars[|tag|] == NUL && forall k :: from <= k < |tag| ==> chars[k] == tag[k]
  }

  lemma FirstTokenized(tag: string, before: seq<char>, chars: seq<char>, token: nat, stop: nat, pos: nat)
    requires NUL !in tag && Holds(tag, before, 0)
    requires Between(before, 0, token, stop, COLON) && token < stop && Cut(before, chars, stop, |tag|, pos, COLON)
    ensures Tokenized(tag, chars, token, stop, pos)
  {
    assert token > 0 ==> before[token - 1] in COLON;
  }

  lemma NextTokenized(tag: string, before: seq<char>, chars: seq<char>, last: nat, stop0: nat, pos0: nat,
                      token: nat, stop: nat, pos: nat)
    requires NUL !in tag && Tokenized(tag, before, last, stop0, pos0)
    requires Between(before, pos0, token, stop, COLON) && token < stop && Cut(before, chars, stop, |tag|, pos, COLON)
    ensures Tokenized(tag, chars, token, stop, pos)
  {
    assert pos0 < |tag|;
    assert tag[pos0 - 1] == ':';
    assert token > pos0 ==> before[token - 1] in COLON;
  }

  lemma LastTokenized(tag: string, chars: seq<char>, last: nat, stop: nat, pos0: nat)
    requires Tokenized(tag, chars, last, stop, pos0) && Between(chars, pos0, |tag|, |tag|, COLON)
    ensures Tokenized(tag, chars, last, stop, |tag|)
  {
  }

  /** With everything before the last token restored, the buffer holds the parent. */
  lemma Restored(tag: string, cut: seq<char>, chars: seq<char>, last: nat, stop: nat) returns (end: nat)
    requires NUL !in tag && Tokenized(tag, cut, last, stop, |tag|) && last > 0 && |chars| == |cut|
    requires (forall k :: 0 <= k < last - 1 ==> chars[k] == tag[k])
    requires (forall k :: last - 1 <= k < |cut| ==> chars[k] == cut[k])
    ensures end < |chars| && chars[end] == NUL && NUL !in chars[..end]
    ensures ParentOf(tag) == Some(chars[..end])
  {
    TrimmedIs(tag, stop);
    StemIs(tag[..stop], last);
    assert tag[..stop][..last] == tag[..last];
    end := if EndsToken(tag, last - 1) then last - 1 else stop;
    assert end == stop && stop < |tag| ==> EndsToken(tag, stop);
    assert chars[..end] == tag[..end];
    assert Init(tag[..last]) == tag[..last - 1];
  }

  lemma SomeToken(tag: string, before: seq<char>)
    requires Holds(tag, before, 0) && exists k :: 0 <= k < |tag| && tag[k] != ':'
    ensures !Between(before, 0, |tag|, |tag|, COLON)
  {
    var k :| 0 <= k < |tag| && tag[k] != ':';
    assert before[k] == tag[k];
  }

  lemma NoParent(tag: string, chars: seq<char>, stop: nat)
    requires Tokenized(tag, chars, 0, stop, |tag|)
    ensures ParentOf(tag) == None
  {
    TrimmedIs(tag, stop);
    StemIs(tag[..stop], 0);
  }

  lemma TokenizedMeans(tag: string, chars: seq<char>, last: nat, stop: nat)
    requires Tokenized(tag, chars, last, stop, |tag|) && NUL !in tag
    ensures last < |tag| < |chars|
    ensures forall k :: 0 <= k < last ==> chars[k] == tag[k] || (chars[k] == NUL && tag[k] == ':')
  {
  }

  lemma TextUpTo(buf: array<char>, end: nat)
    requires end < buf.Length && buf[end] == NUL && NUL !in buf[..end]
    ensures TextAt(buf, 0, end)
  {
    assert forall k :: 0 <= k < end ==> buf[k] == buf[..end][k];
  }

  /** Runs through the tokens of a tag that is in the buffer. */
  method LastToken(tag: string, buf: array<char>) returns (last: nat, ghost stop: nat)
    requires NUL !in tag && Holds(tag, buf[..], 0) && exists k :: 0 <= k < |tag| && tag[k] != ':'
    modifies buf
    ensures Tokenized(tag, buf[..], last, stop, |tag|)
  {
    hide TokensOf, Cut, Between, Tokenized;
    var strtok := new Tokenizer(buf, |tag|);
    ghost var before := buf[..];
    var tmp;
    tmp, stop := strtok.Next(COLON);
    SomeToken(tag, before);
    FirstTokenized(tag, before, buf[..], tmp, stop, strtok.pos);
    last := tmp;
    while tmp >= 0
      invariant strtok.Valid() && strtok.buf == buf && strtok.end == |tag|
      invariant Tokenized(tag, buf[..], if tmp < 0 then last else tmp, stop, if tmp < 0 then |tag| else strtok.pos)
      decreases if tmp < 0 then 0 else 1, |tag| - strtok.pos
    {
      last := tmp;
      ghost var was, pos0, stop0 := buf[..], strtok.pos, stop;
      tmp, stop := strtok.Next(COLON);
      if tmp >= 0 {
        NextTokenized(tag, was, buf[..], last, stop0, pos0, tmp, stop, strtok.pos);
      } else {
        stop := stop0;
        LastTokenized(tag, buf[..], last, stop, pos0);
      }
    }
  }

  /** The parent of an agent, read off its tag in a buffer: `strtok` finds the last component and
      leaves NULs behind, and then the colons before that component are put back. */
  method ParentTag(tag: string, buf: array<char>) returns (parent: Option<string>)
    requires |tag| < buf.Length && NUL !in tag && exists k :: 0 <= k < |tag| && tag[k] != ':'
    modifies buf
    ensures parent == ParentOf(tag)
  {
    hide Tokenized, ParentOf, Trimmed, Stem;
    CopyTo(tag, buf);
    assert Holds(tag, buf[..], 0) by {
      assert buf[..][..|tag|] == tag;
    }
    var last; ghost var stop;
    last, stop := LastToken(tag, buf);
    if last == 0 {
      NoParent(tag, buf[..], stop);
      return None;
    }
    ghost var cut := buf[..];
    TokenizedMeans(tag, cut, last, stop);
    var t := 0;
    while t != last - 1
      invariant 0 <= t <= last - 1
      invariant forall k :: 0 <= k < t ==> buf[k] == tag[k]
      invariant forall k :: t <= k < buf.Length ==> buf[k] == cut[k]
    {
      if buf[t] == NUL {
        buf[t] := ':';
      }
      t := t + 1;
    }
    ghost var end := Restored(tag, cut, buf[..], last, stop);
    TextUpTo(buf, end);
    var text := StringAt(buf, 0, end);
    parent := Some(text);
  }
}
