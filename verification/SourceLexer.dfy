/** Literals and comments of C++ text, as the identifier policy checker reads them. */
module SourceLexer {
  import opened Wrappers

  /** The characters Python's str.isspace accepts. */
  predicate IsSpace(c: char) {
    '\t' <= c <= '\r' || '\U{1c}' <= c <= ' ' || c == '\U{85}' || c == '\U{a0}' || c == '\U{1680}'
    || '\U{2000}' <= c <= '\U{200a}' || c == '\U{2028}' || c == '\U{2029}' || c == '\U{202f}' || c == '\U{205f}'
    || c == '\U{3000}'
  }

  predicate StartsWith(s: string, token: string, i: nat) {
    i + |token| <= |s| && s[i..i + |token|] == token
  }

  /** The first position from i on at which the token lies wholly before `limit`. */
  function Find(s: string, token: string, i: nat, limit: nat): (r: Option<nat>)
    requires limit <= |s|
    ensures r.Some? ==> i <= r.value && r.value + |token| <= limit && StartsWith(s, token, r.value)
    ensures r.Some? ==> forall k: nat :: i <= k < r.value ==> !StartsWith(s, token, k)
    ensures r.None? ==> forall k: nat :: i <= k && k + |token| <= limit ==> !StartsWith(s, token, k)
    decreases limit - i
  {
    if i + |token| > limit then None
    else if StartsWith(s, token, i) then Some(i)
    else if i + 1 > limit then None
    else Find(s, token, i + 1, limit)
  }

  // ---------------------------------------------------------------- literals

  /** The length of a raw-string prefix at this position, or 0. */
  function PrefixLength(s: string, i: nat): (n: nat)
    ensures n > 0 ==> i + n <= |s|
  {
    if StartsWith(s, "u8R\"", i) then 4
    else if StartsWith(s, "uR\"", i) || StartsWith(s, "UR\"", i) || StartsWith(s, "LR\"", i) then 3
    else if StartsWith(s, "R\"", i) then 2
    else 0
  }

  function AtMost(a: nat, b: nat): nat { if a <= b then a else b }

  predicate DelimiterOk(d: string) {
    forall k :: 0 <= k < |d| ==> !IsSpace(d[k]) && d[k] != '(' && d[k] != ')' && d[k] != '\\'
  }

  /** Where the raw string's opening parenthesis is, if a raw string starts at i. */
  function RawOpening(s: string, i: nat): (r: Option<nat>)
    ensures r.Some? ==> i + 2 <= r.value < |s|
  {
    var n := PrefixLength(s, i);
    if n == 0 then None
    else
      var opening := Find(s, "(", i + n, AtMost(i + n + 17, |s|));
      if opening.None? || !DelimiterOk(s[i + n..opening.value]) then None else opening
  }

  /** What closes a raw string with this delimiter. */
  function Closer(delimiter: string): string { ")" + delimiter + "\"" }

  function RawEnd(s: string, i: nat): (r: Option<nat>)
    ensures r.Some? ==> i < r.value <= |s|
  {
    var opening := RawOpening(s, i);
    if opening.None? then None
    else Some(ClosedAt(s, opening.value + 1, Closer(s[i + PrefixLength(s, i)..opening.value])))
  }

  /** The end of a raw string with this closing token; one that is never closed takes the rest. */
  function ClosedAt(s: string, i: nat, closer: string): (e: nat)
    requires i <= |s|
    ensures i <= e <= |s|
  {
    var closing := Find(s, closer, i, |s|);
    if closing.None? then |s| else closing.value + |closer|
  }

  /** The end of a quoted literal whose next unread character is at i. */
  function QuoteEnd(s: string, i: nat, quote: char): (e: nat)
    requires i <= |s|
    ensures i <= e <= |s|
    decreases |s| - i
  {
    if i == |s| then i
    else if s[i] == '\\' && i + 1 < |s| then QuoteEnd(s, i + 2, quote)
    else if s[i] == quote then i + 1
    else QuoteEnd(s, i + 1, quote)
  }

  /** The end of the literal that starts at i, if one does. */
  function LiteralEnd(s: string, i: nat): (r: Option<nat>)
    requires i < |s|
    ensures r.Some? ==> i < r.value <= |s|
  {
    if RawEnd(s, i).Some? then RawEnd(s, i)
    else if s[i] == '"' || s[i] == '\'' then Some(QuoteEnd(s, i + 1, s[i]))
    else None
  }

  // ---------------------------------------------------------------- comments

  function LineEnd(s: string, i: nat): (e: nat)
    requires i <= |s|
    ensures i <= e <= |s|
    decreases |s| - i
  {
    if i == |s| || s[i] == '\n' then i else LineEnd(s, i + 1)
  }

  function BlockEnd(s: string, i: nat): (e: nat)
    requires i <= |s|
    ensures i <= e <= |s|
    decreases |s| - i
  {
    if i == |s| then i else if StartsWith(s, "*/", i) then i + 2 else BlockEnd(s, i + 1)
  }

  /** The end of the comment that starts at i, if one does and no literal starts there. */
  function CommentEnd(s: string, i: nat): (r: Option<nat>)
    requires i < |s|
    ensures r.Some? ==> i + 2 <= r.value <= |s|
  {
    if LiteralEnd(s, i).Some? then None
    else if StartsWith(s, "//", i) then Some(LineEnd(s, i + 2))
    else if StartsWith(s, "/*", i) then Some(BlockEnd(s, i + 2))
    else None
  }

  // ---------------------------------------------------------------- the text as a whole

  type Span = (nat, nat)

  /** Where the token at i ends: a literal, a comment or one character. */
  function TokenEnd(s: string, i: nat): (e: nat)
    requires i < |s|
    ensures i < e <= |s|
  {
    if LiteralEnd(s, i).Some? then LiteralEnd(s, i).value
    else if CommentEnd(s, i).Some? then CommentEnd(s, i).value
    else i + 1
  }

  /** The literals of the text from i on. */
  function Literals(s: string, i: nat): seq<Span>
    requires i <= |s|
    decreases |s| - i
  {
    if i == |s| then []
    else (if LiteralEnd(s, i).Some? then [(i, TokenEnd(s, i))] else []) + Literals(s, TokenEnd(s, i))
  }

  /** The comments of the text from i on. */
  function Comments(s: string, i: nat): seq<Span>
    requires i <= |s|
    decreases |s| - i
  {
    if i == |s| then []
    else (if CommentEnd(s, i).Some? then [(i, TokenEnd(s, i))] else []) + Comments(s, TokenEnd(s, i))
  }

  function Blanked(t: string): (r: string)
    ensures |r| == |t|
    ensures forall k :: 0 <= k < |r| ==> r[k] == if t[k] == '\n' then '\n' else ' '
  {
    seq(|t|, k requires 0 <= k < |t| => if t[k] == '\n' then '\n' else ' ')
  }

  /** The text from i on with its comments blanked. */
  function Strip(s: string, i: nat): (r: string)
    requires i <= |s|
    ensures |r| == |s| - i
    decreases |s| - i
  {
    if i == |s| then []
    else
      var e := TokenEnd(s, i);
      (if CommentEnd(s, i).Some? then Blanked(s[i..e]) else s[i..e]) + Strip(s, e)
  }

  /** The literal spans of the text from i on, when comments are not looked for. */
  function Spans(s: string, i: nat): seq<Span>
    requires i <= |s|
    decreases |s| - i
  {
    if i == |s| then []
    else if LiteralEnd(s, i).Some? then [(i, LiteralEnd(s, i).value)] + Spans(s, LiteralEnd(s, i).value)
    else Spans(s, i + 1)
  }
}
