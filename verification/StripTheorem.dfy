/** Stripping comments keeps every literal where it was, and stripping again changes nothing. */
module StripTheorem {
  import opened Wrappers
  import opened SourceLexer

  // ---------------------------------------------------------------- what stripping changes

  predicate InSpan(k: nat, span: Span) { span.0 <= k < span.1 }

  predicate Within(spans: seq<Span>, k: nat) { exists n :: 0 <= n < |spans| && InSpan(k, spans[n]) }

  predicate SpanFits(spans: seq<Span>, i: nat, limit: nat, n: nat)
    requires n < |spans|
  {
    i <= spans[n].0 < spans[n].1 <= limit
  }

  predicate SpansApart(spans: seq<Span>, m: nat, n: nat)
    requires m < n < |spans|
  {
    spans[m].1 <= spans[n].0
  }

  /** Spans lie in order, without overlap, in the text from i on. */
  ghost predicate Ordered(spans: seq<Span>, i: nat, limit: nat) {
    && (forall n {:trigger SpanFits(spans, i, limit, n)} :: 0 <= n < |spans| ==> SpanFits(spans, i, limit, n))
    && (forall m, n {:trigger SpansApart(spans, m, n)} :: 0 <= m < n < |spans| ==> SpansApart(spans, m, n))
  }

  lemma LaterSpans(i: nat, e: nat, spans: seq<Span>, limit: nat)
    requires i <= e && Ordered(spans, e, limit)
    ensures Ordered(spans, i, limit)
  {
    forall n | 0 <= n < |spans| ensures SpanFits(spans, i, limit, n) { assert SpanFits(spans, e, limit, n); }
  }

  lemma OneMoreSpan(i: nat, e: nat, rest: seq<Span>, limit: nat)
    requires i < e <= limit && Ordered(rest, e, limit)
    ensures Ordered([(i, e)] + rest, i, limit)
  {
    var all := [(i, e)] + rest;
    forall n | 0 <= n < |all| ensures SpanFits(all, i, limit, n) {
      assert n > 0 ==> SpanFits(rest, e, limit, n - 1);
    }
    forall m, n | 0 <= m < n < |all| ensures SpansApart(all, m, n) {
      assert SpanFits(rest, e, limit, n - 1);
      assert m > 0 ==> SpansApart(rest, m - 1, n - 1);
    }
  }

  lemma {:induction false} CommentsOrdered(s: string, i: nat)
    requires i <= |s|
    ensures Ordered(Comments(s, i), i, |s|)
    decreases |s| - i
  {
    if i < |s| {
      var e := TokenEnd(s, i);
      CommentsOrdered(s, e);
      if CommentEnd(s, i).Some? {
        OneMoreSpan(i, e, Comments(s, e), |s|);
      } else {
        LaterSpans(i, e, Comments(s, e), |s|);
        assert [] + Comments(s, e) == Comments(s, e);
      }
    }
  }

  lemma {:induction false} SpansOrdered(s: string, i: nat)
    requires i <= |s|
    ensures Ordered(Spans(s, i), i, |s|)
    decreases |s| - i
  {
    if i < |s| {
      var e := if LiteralEnd(s, i).Some? then LiteralEnd(s, i).value else i + 1;
      SpansOrdered(s, e);
      if LiteralEnd(s, i).Some? {
        OneMoreSpan(i, e, Spans(s, e), |s|);
      } else {
        LaterSpans(i, e, Spans(s, e), |s|);
      }
    }
  }

  lemma WithinFirst(first: seq<Span>, rest: seq<Span>, k: nat)
    ensures Within(first + rest, k) <==> Within(first, k) || Within(rest, k)
  {
    var all := first + rest;
    if Within(first, k) {
      var n :| 0 <= n < |first| && InSpan(k, first[n]);
      assert all[n] == first[n];
    }
    if Within(rest, k) {
      var n :| 0 <= n < |rest| && InSpan(k, rest[n]);
      assert all[|first| + n] == rest[n];
    }
  }

  lemma NotBefore(spans: seq<Span>, i: nat, limit: nat, k: nat)
    requires Ordered(spans, i, limit) && k < i
    ensures !Within(spans, k)
  {
    forall n | 0 <= n < |spans| ensures !InSpan(k, spans[n]) { assert SpanFits(spans, i, limit, n); }
  }

  /** What becomes of the token at i. */
  function Piece(s: string, i: nat): (piece: string)
    requires i < |s|
    ensures |piece| == TokenEnd(s, i) - i
    ensures Strip(s, i) == piece + Strip(s, TokenEnd(s, i))
  {
    if CommentEnd(s, i).Some? then Blanked(s[i..TokenEnd(s, i)]) else s[i..TokenEnd(s, i)]
  }

  /** The text from i on, rewritten as o with these spans blanked, shows this at k. */
  predicate Ruled(s: string, i: nat, o: string, spans: seq<Span>, k: nat) {
    && i <= k < |s| && |o| == |s| - i
    && o[k - i] == if Within(spans, k) && s[k] != '\n' then ' ' else s[k]
  }

  /** Stripping keeps the length, every newline and every character outside comments, and leaves
      spaces for the rest. */
  lemma {:induction false} StripIs(s: string, i: nat, k: nat)
    requires i <= k < |s|
    ensures Ruled(s, i, Strip(s, i), Comments(s, i), k)
    decreases |s| - i
  {
    var e := TokenEnd(s, i);
    if k < e {
      StripFirst(s, i, k, e);
    } else {
      StripIs(s, e, k);
      StripLater(s, i, k, e);
    }
  }

  /** Stripping takes the text token by token. */
  lemma TokenSplit(s: string, i: nat, e: nat)
    returns (piece: string, rest: string, first: seq<Span>, later: seq<Span>)
    requires i < |s| && e == TokenEnd(s, i)
    ensures |piece| == e - i && rest == Strip(s, e) && Strip(s, i) == piece + rest
    ensures later == Comments(s, e) && Comments(s, i) == first + later && (first == [] || first == [(i, e)])
    ensures piece == if first == [] then s[i..e] else Blanked(s[i..e])
  {
    piece, rest := Piece(s, i), Strip(s, e);
    first, later := if CommentEnd(s, i).Some? then [(i, e)] else [], Comments(s, e);
  }

  lemma WithinOne(i: nat, e: nat, k: nat)
    ensures Within([(i, e)], k) <==> i <= k < e
  {
    assert InSpan(k, [(i, e)][0]) <==> i <= k < e;
  }

  /** A character of the first piece. */
  lemma RuledIn(s: string, i: nat, e: nat, k: nat, piece: string, rest: string, first: seq<Span>, later: seq<Span>)
    requires i <= k < e <= |s| && |piece| == e - i && |rest| == |s| - e && Ordered(later, e, |s|)
    requires first == [] || first == [(i, e)]
    requires piece == if first == [] then s[i..e] else Blanked(s[i..e])
    ensures Ruled(s, i, piece + rest, first + later, k)
  {
    WithinFirst(first, later, k);
    NotBefore(later, e, |s|, k);
    WithinOne(i, e, k);
  }

  /** A character behind it. */
  lemma RuledBehind(s: string, i: nat, e: nat, k: nat, piece: string, rest: string, first: seq<Span>, later: seq<Span>)
    requires i < e <= k < |s| && |piece| == e - i && Ruled(s, e, rest, later, k)
    requires first == [] || first == [(i, e)]
    ensures Ruled(s, i, piece + rest, first + later, k)
  {
    WithinFirst(first, later, k);
    WithinOne(i, e, k);
  }

  lemma StripFirst(s: string, i: nat, k: nat, e: nat)
    requires i <= k < e <= |s| && e == TokenEnd(s, i)
    ensures Ruled(s, i, Strip(s, i), Comments(s, i), k)
  {
    var piece, rest, first, later := TokenSplit(s, i, e);
    CommentsOrdered(s, e);
    RuledIn(s, i, e, k, piece, rest, first, later);
  }

  lemma StripLater(s: string, i: nat, k: nat, e: nat)
    requires i < e <= k < |s| && e == TokenEnd(s, i) && Ruled(s, e, Strip(s, e), Comments(s, e), k)
    ensures Ruled(s, i, Strip(s, i), Comments(s, i), k)
  {
    var piece, rest, first, later := TokenSplit(s, i, e);
    RuledBehind(s, i, e, k, piece, rest, first, later);
  }

  // ---------------------------------------------------------------- reading the stripped text

  /** From position i on, o is what stripping makes of s. */
  predicate Fits(s: string, o: string, i: nat) {
    |o| == |s| && i <= |s| && o[i..] == Strip(s, i)
  }

  /** A character that is not a space was there before. */
  predicate Erases(s: string, o: string, i: nat) {
    |o| == |s| && forall k :: i <= k < |s| ==> o[k] == s[k] || o[k] == ' '
  }

  lemma FitsErases(s: string, o: string, i: nat)
    requires Fits(s, o, i)
    ensures Erases(s, o, i)
  {
    forall k | i <= k < |s| ensures o[k] == s[k] || o[k] == ' ' {
      StripIs(s, i, k);
      assert o[k] == o[i..][k - i];
    }
  }

  lemma Advance(s: string, o: string, i: nat)
    requires Fits(s, o, i) && i < |s|
    ensures Fits(s, o, TokenEnd(s, i))
    ensures o[i..TokenEnd(s, i)]
            == if CommentEnd(s, i).Some? then Blanked(s[i..TokenEnd(s, i)]) else s[i..TokenEnd(s, i)]
  {
    var e := TokenEnd(s, i);
    var piece := if CommentEnd(s, i).Some? then Blanked(s[i..e]) else s[i..e];
    assert o[i..] == piece + Strip(s, e);
    assert o[i..e] == o[i..][..e - i];
    assert o[e..] == o[i..][e - i..];
  }

  lemma FindIs(s: string, token: string, i: nat, limit: nat, p: nat)
    requires limit <= |s| && i <= p && p + |token| <= limit && StartsWith(s, token, p)
    requires forall k: nat :: i <= k < p ==> !StartsWith(s, token, k)
    ensures Find(s, token, i, limit) == Some(p)
  {
  }

  /** The same characters from i up to e. */
  predicate Same(s: string, o: string, i: nat, e: nat) {
    |s| == |o| && i <= e <= |s| && forall k :: i <= k < e ==> s[k] == o[k]
  }

  lemma SameSlice(s: string, o: string, i: nat, e: nat, j: nat, k: nat)
    requires Same(s, o, i, e) && i <= j <= k <= e
    ensures s[j..k] == o[j..k]
  {
  }

  lemma SliceSame(s: string, o: string, i: nat, e: nat)
    requires |s| == |o| && i <= e <= |s| && s[i..e] == o[i..e]
    ensures Same(s, o, i, e)
  {
  }

  lemma SameStart(s: string, o: string, i: nat, e: nat, token: string, k: nat)
    requires Same(s, o, i, e) && i <= k && k + |token| <= e
    ensures StartsWith(s, token, k) <==> StartsWith(o, token, k)
  {
  }

  lemma SamePrefix(s: string, o: string, i: nat, e: nat)
    requires Same(s, o, i, e)
    requires PrefixLength(s, i) > 0 && i + PrefixLength(s, i) <= e
    ensures PrefixLength(o, i) == PrefixLength(s, i)
  {
    var n := PrefixLength(s, i);
    SameStart(s, o, i, e, s[i..i + n], i);
    assert s[i..i + n][0] == s[i] == o[i] && s[i..i + n][1] == s[i + 1] == o[i + 1];
    assert StartsWith(o, "u8R\"", i) ==> o[i..i + 4][0] == o[i] && o[i..i + 4][1] == o[i + 1];
    assert i + 3 <= |o| ==> o[i..i + 3][0] == o[i] && o[i..i + 3][1] == o[i + 1];
  }

  lemma FindSame(s: string, o: string, i: nat, e: nat, token: string, j: nat, ls: nat, p: nat)
    requires Same(s, o, i, e) && i <= j && ls <= |s| && p + |token| <= e
    requires Find(s, token, j, ls) == Some(p)
    ensures Find(o, token, j, ls) == Some(p)
  {
    forall k: nat | j <= k <= p ensures StartsWith(s, token, k) <==> StartsWith(o, token, k) {
      SameStart(s, o, i, e, token, k);
    }
    FindIs(o, token, j, ls, p);
  }

  /** A raw string starts at i: a prefix of n characters, a delimiter, and the parenthesis at p. */
  ghost predicate Opens(s: string, i: nat, n: nat, p: nat, delimiter: string) {
    && RawOpening(s, i) == Some(p)
    && PrefixLength(s, i) == n
    && i + n <= p < |s|
    && s[i + n..p] == delimiter
  }

  lemma SameOpening(s: string, o: string, i: nat, e: nat, n: nat, p: nat, delimiter: string)
    requires Same(s, o, i, e) && p < e && Opens(s, i, n, p, delimiter)
    ensures Opens(o, i, n, p, delimiter)
  {
    SamePrefix(s, o, i, e);
    FindSame(s, o, i, e, "(", i + n, AtMost(i + n + 17, |s|), p);
    SameSlice(s, o, i, e, i + n, p);
  }

  lemma RawEndIs(s: string, i: nat, n: nat, p: nat, delimiter: string, closer: string)
    requires Opens(s, i, n, p, delimiter) && closer == Closer(delimiter)
    ensures RawEnd(s, i) == Some(ClosedAt(s, p + 1, closer))
  {
  }

  /** The same search for the end, found or not. */
  lemma ClosingIsLocal(s: string, o: string, i: nat, j: nat, closer: string)
    requires i <= j <= |s| && Same(s, o, i, ClosedAt(s, j, closer))
    ensures ClosedAt(o, j, closer) == ClosedAt(s, j, closer)
  {
    var closing, e := Find(s, closer, j, |s|), ClosedAt(s, j, closer);
    if closing.Some? {
      FindSame(s, o, i, e, closer, j, |s|, closing.value);
    } else {
      var other := Find(o, closer, j, |o|);
      if other.Some? { SameStart(s, o, i, e, closer, other.value); }
    }
  }

  lemma {:induction false} QuoteIsLocal(s: string, o: string, i: nat, quote: char)
    requires i <= |s| && Same(s, o, i, QuoteEnd(s, i, quote))
    ensures QuoteEnd(o, i, quote) == QuoteEnd(s, i, quote)
    decreases |s| - i
  {
    if i < |s| {
      if s[i] == '\\' && i + 1 < |s| {
        QuoteIsLocal(s, o, i + 2, quote);
      } else if s[i] != quote {
        QuoteIsLocal(s, o, i + 1, quote);
      }
    }
  }

  lemma RawIsLocal(s: string, o: string, i: nat, n: nat, p: nat, delimiter: string, closer: string, e: nat)
    requires Opens(o, i, n, p, delimiter) && closer == Closer(delimiter)
    requires p < |s| && e == ClosedAt(s, p + 1, closer) && Same(s, o, i, e) && i <= p
    ensures RawEnd(o, i) == Some(e)
  {
    ClosingIsLocal(s, o, i, p + 1, closer);
    RawEndIs(o, i, n, p, delimiter, closer);
  }

  lemma LiteralIsLocal(s: string, o: string, i: nat)
    requires i < |s| && LiteralEnd(s, i).Some? && Same(s, o, i, LiteralEnd(s, i).value)
    requires RawEnd(s, i).None? ==> RawEnd(o, i).None?
    ensures LiteralEnd(o, i) == LiteralEnd(s, i)
  {
    if RawEnd(s, i).Some? {
      var n, p, e := PrefixLength(s, i), RawOpening(s, i).value, LiteralEnd(s, i).value;
      var delimiter := s[i + n..p];
      RawEndIs(s, i, n, p, delimiter, Closer(delimiter));
      SameOpening(s, o, i, e, n, p, delimiter);
      RawIsLocal(s, o, i, n, p, delimiter, Closer(delimiter), e);
    } else {
      QuoteIsLocal(s, o, i + 1, s[i]);
    }
  }

  lemma TokenIsSolid(o: string, token: string, i: nat, k: nat)
    requires StartsWith(o, token, i) && i <= k < i + |token| && forall j | 0 <= j < |token| :: token[j] != ' '
    ensures o[k] != ' '
  {
    assert o[i..i + |token|][k - i] == o[k];
  }

  lemma PrefixIsSolid(o: string, i: nat, k: nat)
    requires i <= k < i + PrefixLength(o, i)
    ensures k < |o| && o[k] != ' '
  {
    if StartsWith(o, "u8R\"", i) {
      TokenIsSolid(o, "u8R\"", i, k);
    } else if StartsWith(o, "uR\"", i) {
      TokenIsSolid(o, "uR\"", i, k);
    } else if StartsWith(o, "UR\"", i) {
      TokenIsSolid(o, "UR\"", i, k);
    } else if StartsWith(o, "LR\"", i) {
      TokenIsSolid(o, "LR\"", i, k);
    } else {
      TokenIsSolid(o, "R\"", i, k);
    }
  }

  lemma DelimiterIsSolid(o: string, i: nat, n: nat, p: nat, k: nat)
    requires RawOpening(o, i) == Some(p) && n == PrefixLength(o, i) && i + n <= k < p
    ensures k < |o| && o[k] != ' '
  {
    assert o[i + n..p][k - i - n] == o[k];
  }

  /** The opening of a raw string holds no space. */
  lemma OpeningIsSolid(o: string, i: nat, k: nat)
    requires RawOpening(o, i).Some? && i <= k <= RawOpening(o, i).value
    ensures o[k] != ' '
  {
    var n, p := PrefixLength(o, i), RawOpening(o, i).value;
    if k < i + n {
      PrefixIsSolid(o, i, k);
    } else if k < p {
      DelimiterIsSolid(o, i, n, p, k);
    } else {
      TokenIsSolid(o, "(", p, p);
    }
  }

  /** Blanking comments cannot make a raw string: its opening would have a space in it. */
  lemma NoNewRaw(s: string, o: string, i: nat)
    requires Erases(s, o, i) && RawEnd(o, i).Some?
    ensures RawEnd(s, i).Some?
  {
    var p := RawOpening(o, i).value;
    var n := PrefixLength(o, i);
    forall k | i <= k < p + 1 ensures o[k] == s[k] { OpeningIsSolid(o, i, k); }
    SameOpening(o, s, i, p + 1, n, p, o[i + n..p]);
  }

  // ---------------------------------------------------------------- token by token

  /** Nothing but plain characters. */
  predicate Plain(o: string, i: nat, e: nat) {
    i <= e <= |o| && forall k :: i <= k < e ==> LiteralEnd(o, k).None? && CommentEnd(o, k).None?
  }

  lemma NotHere(o: string, token: string, k: nat)
    requires k < |o| && 0 < |token| && o[k] != token[0]
    ensures !StartsWith(o, token, k)
  {
    if k + |token| <= |o| { assert o[k..k + |token|][0] == o[k]; }
  }

  lemma BlankIsNoToken(o: string, k: nat)
    requires k < |o| && (o[k] == ' ' || o[k] == '\n')
    ensures LiteralEnd(o, k).None? && CommentEnd(o, k).None?
  {
    NotHere(o, "u8R\"", k);
    NotHere(o, "uR\"", k);
    NotHere(o, "UR\"", k);
    NotHere(o, "LR\"", k);
    NotHere(o, "R\"", k);
    NotHere(o, "//", k);
    NotHere(o, "/*", k);
  }

  lemma BlankIsPlain(o: string, i: nat, e: nat)
    requires i <= e <= |o| && forall k :: i <= k < e ==> o[k] == ' ' || o[k] == '\n'
    ensures Plain(o, i, e)
  {
    forall k | i <= k < e ensures LiteralEnd(o, k).None? && CommentEnd(o, k).None? { BlankIsNoToken(o, k); }
  }

  lemma NoNewComment(s: string, o: string, i: nat)
    requires Erases(s, o, i) && i < |s| && CommentEnd(s, i).None? && LiteralEnd(s, i).None?
    ensures CommentEnd(o, i).None?
  {
  }

  lemma CommentGoes(s: string, o: string, i: nat)
    requires Fits(s, o, i) && i < |s| && CommentEnd(s, i).Some?
    ensures Plain(o, i, TokenEnd(s, i))
  {
    Advance(s, o, i);
    var e := TokenEnd(s, i);
    forall k | i <= k < e ensures o[k] == ' ' || o[k] == '\n' { assert o[k] == o[i..e][k - i]; }
    BlankIsPlain(o, i, e);
  }

  lemma LiteralStays(s: string, o: string, i: nat)
    requires Fits(s, o, i) && i < |s| && LiteralEnd(s, i).Some?
    ensures LiteralEnd(o, i) == LiteralEnd(s, i)
  {
    Advance(s, o, i);
    FitsErases(s, o, i);
    if RawEnd(o, i).Some? { NoNewRaw(s, o, i); }
    SliceSame(s, o, i, TokenEnd(s, i));
    LiteralIsLocal(s, o, i);
  }

  lemma PlainStays(s: string, o: string, i: nat)
    requires Fits(s, o, i) && i < |s| && LiteralEnd(s, i).None? && CommentEnd(s, i).None?
    ensures Plain(o, i, i + 1)
  {
    Advance(s, o, i);
    FitsErases(s, o, i);
    if RawEnd(o, i).Some? { NoNewRaw(s, o, i); }
    SliceSame(s, o, i, i + 1);
    NoNewComment(s, o, i);
  }

  /** A literal stays a literal, a comment becomes plain text, and nothing else starts a token. */
  lemma TokenStays(s: string, o: string, i: nat)
    requires Fits(s, o, i) && i < |s|
    ensures LiteralEnd(s, i).Some? ==> LiteralEnd(o, i) == LiteralEnd(s, i)
    ensures LiteralEnd(s, i).None? ==> Plain(o, i, TokenEnd(s, i))
  {
    if LiteralEnd(s, i).Some? {
      LiteralStays(s, o, i);
    } else if CommentEnd(s, i).Some? {
      CommentGoes(s, o, i);
    } else {
      PlainStays(s, o, i);
    }
  }

  lemma {:induction false} PlainSpans(o: string, i: nat, e: nat)
    requires Plain(o, i, e)
    ensures Spans(o, i) == Spans(o, e)
    decreases e - i
  {
    if i < e { PlainSpans(o, i + 1, e); }
  }

  lemma PlainStep(o: string, i: nat)
    requires i < |o| && LiteralEnd(o, i).None? && CommentEnd(o, i).None?
    ensures Strip(o, i) == [o[i]] + Strip(o, i + 1)
  {
    assert TokenEnd(o, i) == i + 1 && o[i..i + 1] == [o[i]];
  }

  lemma Prepend(o: string, i: nat, e: nat, rest: string)
    requires i < e <= |o|
    ensures [o[i]] + (o[i + 1..e] + rest) == o[i..e] + rest
  {
  }

  lemma {:induction false} PlainStrip(o: string, i: nat, e: nat)
    requires Plain(o, i, e)
    ensures Strip(o, i) == o[i..e] + Strip(o, e)
    decreases e - i
  {
    if i < e {
      PlainStrip(o, i + 1, e);
      PlainStep(o, i);
      Prepend(o, i, e, Strip(o, e));
    }
  }

  lemma {:induction false} SpansOfStripped(s: string, o: string, i: nat)
    requires Fits(s, o, i)
    ensures Spans(o, i) == Literals(s, i)
    decreases |s| - i
  {
    if i < |s| {
      var e := TokenEnd(s, i);
      TokenStays(s, o, i);
      Advance(s, o, i);
      SpansOfStripped(s, o, e);
      if LiteralEnd(s, i).None? { PlainSpans(o, i, e); }
    }
  }

  lemma {:induction false} StripOfStripped(s: string, o: string, i: nat)
    requires Fits(s, o, i)
    ensures Strip(o, i) == o[i..]
    decreases |s| - i
  {
    if i < |s| {
      var e := TokenEnd(s, i);
      TokenStays(s, o, i);
      Advance(s, o, i);
      StripOfStripped(s, o, e);
      if LiteralEnd(s, i).None? { PlainStrip(o, i, e); }
      assert o[i..e] + o[e..] == o[i..];
    }
  }

  // ---------------------------------------------------------------- main results

  function Stripped(s: string): string { Strip(s, 0) }

  /** The literals skipped in a text are exactly the spans found in its stripped form. */
  lemma LiteralsSurvive(s: string)
    ensures Spans(Stripped(s), 0) == Literals(s, 0)
    ensures Ordered(Literals(s, 0), 0, |s|)
  {
    SpansOfStripped(s, Stripped(s), 0);
    SpansOrdered(Stripped(s), 0);
  }

  lemma StripIsIdempotent(s: string)
    ensures Stripped(Stripped(s)) == Stripped(s)
  {
    StripOfStripped(s, Stripped(s), 0);
  }
}
