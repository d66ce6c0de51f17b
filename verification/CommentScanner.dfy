/** The scanners as they run: one index, one state, one list of characters. */
module CommentScanner {
  import opened Wrappers
  import opened SourceLexer
  import opened StripTheorem

  datatype State = Normal | InLine | InBlock | Quoted(quote: char)

  predicate BlankOn(s: string, full: string, i: nat, e: nat) {
    |s| == |full| && i <= e <= |s| && forall k :: i <= k < e ==> full[k] == if s[k] == '\n' then '\n' else ' '
  }

  /** The rest of the stripped text is what this state still has to write. */
  predicate Owed(s: string, full: string, i: nat, state: State) {
    && |s| == |full| && i <= |s|
    && match state {
         case Normal => Fits(s, full, i)
         case InLine => BlankOn(s, full, i, LineEnd(s, i)) && Fits(s, full, LineEnd(s, i))
         case InBlock => BlankOn(s, full, i, BlockEnd(s, i)) && Fits(s, full, BlockEnd(s, i))
         case Quoted(quote) => Same(s, full, i, QuoteEnd(s, i, quote)) && Fits(s, full, QuoteEnd(s, i, quote))
       }
  }

  /** A token that is not a comment is copied. */
  lemma CopiedToken(s: string, full: string, i: nat)
    requires Fits(s, full, i) && i < |s| && CommentEnd(s, i).None?
    ensures Same(s, full, i, TokenEnd(s, i)) && Fits(s, full, TokenEnd(s, i))
  {
    Advance(s, full, i);
    SliceSame(s, full, i, TokenEnd(s, i));
  }

  /** A comment is blanked. */
  lemma BlankedToken(s: string, full: string, i: nat)
    requires Fits(s, full, i) && i < |s| && CommentEnd(s, i).Some?
    ensures BlankOn(s, full, i, TokenEnd(s, i)) && Fits(s, full, TokenEnd(s, i))
  {
    Advance(s, full, i);
    var e := TokenEnd(s, i);
    forall k | i <= k < e ensures full[k] == if s[k] == '\n' then '\n' else ' ' {
      assert full[i..e][k - i] == full[k] && s[i..e][k - i] == s[k];
    }
  }

  lemma CommentStart(s: string, full: string, i: nat)
    requires Fits(s, full, i) && i < |s| && RawEnd(s, i).None? && (StartsWith(s, "//", i) || StartsWith(s, "/*", i))
    ensures i + 2 <= |s| && full[i] == full[i + 1] == ' '
    ensures Owed(s, full, i + 2, if StartsWith(s, "//", i) then InLine else InBlock)
  {
    assert s[i..i + 2][0] == s[i] && s[i..i + 2][1] == s[i + 1];
    BlankedToken(s, full, i);
  }

  lemma CharacterRead(s: string, full: string, i: nat)
    requires Fits(s, full, i) && i < |s| && RawEnd(s, i).None? && !StartsWith(s, "//", i) && !StartsWith(s, "/*", i)
    ensures Same(s, full, i, i + 1)
    ensures Owed(s, full, i + 1, if s[i] == '"' || s[i] == '\'' then Quoted(s[i]) else Normal)
  {
    CopiedToken(s, full, i);
  }

  lemma LineOver(s: string, full: string, i: nat)
    requires Fits(s, full, i) && i < |s| && s[i] == '\n'
    ensures full[i] == '\n' && Fits(s, full, i + 1)
  {
    BlankIsPlain(s, i, i + 1);
    CopiedToken(s, full, i);
  }

  // ---------------------------------------------------------------- the loops

  /** The list is written up to i and untouched from there on. */
  predicate WrittenTo(s: string, full: string, output: array<char>, i: nat)
    reads output
  {
    && output.Length == |s| == |full| && i <= |s|
    && (forall k :: 0 <= k < i ==> output[k] == full[k])
    && (forall k :: i <= k < |s| ==> output[k] == s[k])
  }

  /** A raw string is copied. */
  lemma RawCopied(s: string, full: string, i: nat, e: nat)
    requires i < |s| && Fits(s, full, i) && RawEnd(s, i) == Some(e)
    ensures i < e && Same(s, full, i, e) && Owed(s, full, e, Normal)
  {
    CopiedToken(s, full, i);
  }

  /** What still agrees from i up to e is as good as written. */
  lemma WrittenOn(s: string, full: string, output: array<char>, i: nat, e: nat)
    requires WrittenTo(s, full, output, i) && Same(s, full, i, e)
    ensures WrittenTo(s, full, output, e)
  {
  }

  method BlankTwo(s: string, output: array<char>, i: nat, ghost full: string)
    requires i + 2 <= |s| && WrittenTo(s, full, output, i) && full[i] == full[i + 1] == ' '
    modifies output
    ensures WrittenTo(s, full, output, i + 2)
  {
    output[i], output[i + 1] := ' ', ' ';
  }

  /** One turn of the loop from the normal state. */
  method NormalTurn(s: string, output: array<char>, i: nat, ghost full: string) returns (j: nat, next: State)
    requires i < |s| && Fits(s, full, i) && WrittenTo(s, full, output, i)
    modifies output
    ensures i < j && WrittenTo(s, full, output, j) && Owed(s, full, j, next)
  {
    next := Normal;
    var raw := RawEnd(s, i);
    if raw.Some? {
      j := raw.value;
      RawCopied(s, full, i, j);
      WrittenOn(s, full, output, i, j);
    } else if StartsWith(s, "//", i) || StartsWith(s, "/*", i) {
      CommentStart(s, full, i);
      BlankTwo(s, output, i, full);
      j, next := i + 2, if StartsWith(s, "//", i) then InLine else InBlock;
    } else {
      CharacterRead(s, full, i);
      WrittenOn(s, full, output, i, i + 1);
      if s[i] == '"' || s[i] == '\'' { next := Quoted(s[i]); }
      j := i + 1;
    }
  }

  /** One turn inside a line comment. */
  method LineTurn(s: string, output: array<char>, i: nat, ghost full: string) returns (j: nat, next: State)
    requires i < |s| && Owed(s, full, i, InLine) && WrittenTo(s, full, output, i)
    modifies output
    ensures i < j && WrittenTo(s, full, output, j) && Owed(s, full, j, next)
  {
    next := InLine;
    if s[i] == '\n' {
      LineOver(s, full, i);
      next := Normal;
    } else {
      output[i] := ' ';
    }
    j := i + 1;
  }

  /** One turn inside a block comment. */
  method BlockTurn(s: string, output: array<char>, i: nat, ghost full: string) returns (j: nat, next: State)
    requires i < |s| && Owed(s, full, i, InBlock) && WrittenTo(s, full, output, i)
    modifies output
    ensures i < j && WrittenTo(s, full, output, j) && Owed(s, full, j, next)
  {
    if StartsWith(s, "*/", i) {
      assert s[i..i + 2][0] == s[i] && s[i..i + 2][1] == s[i + 1];
      BlankTwo(s, output, i, full);
      j, next := i + 2, Normal;
    } else {
      if s[i] != '\n' { output[i] := ' '; }
      j, next := i + 1, InBlock;
    }
  }

  /** Where the reader stands after one turn inside a literal. */
  function QuotedNext(s: string, i: nat, quote: char): (nat, State)
    requires i < |s|
  {
    if s[i] == '\\' && i + 1 < |s| then (i + 2, Quoted(quote))
    else if s[i] == quote then (i + 1, Normal) else (i + 1, Quoted(quote))
  }

  lemma QuotedRead(s: string, full: string, i: nat, quote: char)
    requires i < |s| && Owed(s, full, i, Quoted(quote))
    ensures var (j, next) := QuotedNext(s, i, quote); Same(s, full, i, j) && Owed(s, full, j, next)
  {
  }

  /** One turn inside a quoted literal. */
  method QuotedTurn(s: string, output: array<char>, i: nat, quote: char, ghost full: string)
    returns (j: nat, next: State)
    requires i < |s| && Owed(s, full, i, Quoted(quote)) && WrittenTo(s, full, output, i)
    ensures i < j && WrittenTo(s, full, output, j) && Owed(s, full, j, next)
  {
    QuotedRead(s, full, i, quote);
    next := Quoted(quote);
    if s[i] == '\\' && i + 1 < |s| {
      j := i + 2;
    } else if s[i] == quote {
      j, next := i + 1, Normal;
    } else {
      j := i + 1;
    }
    WrittenOn(s, full, output, i, j);
  }

  /** The comment stripper. */
  method StripComments(s: string) returns (r: string)
    ensures r == Stripped(s)
  {
    ghost var full := Stripped(s);
    var output := new char[|s|](k requires 0 <= k < |s| => s[k]);
    var index, state := 0, Normal;
    while index < |s|
      invariant WrittenTo(s, full, output, index) && Owed(s, full, index, state)
      decreases |s| - index
    {
      match state
      case Normal => index, state := NormalTurn(s, output, index, full);
      case InLine => index, state := LineTurn(s, output, index, full);
      case InBlock => index, state := BlockTurn(s, output, index, full);
      case Quoted(quote) => index, state := QuotedTurn(s, output, index, quote, full);
    }
    r := output[..];
  }

  /** The end of a quoted literal. */
  method QuotedEnd(s: string, start: nat) returns (e: nat)
    requires start < |s|
    ensures e == QuoteEnd(s, start + 1, s[start])
  {
    var quote := s[start];
    var index := start + 1;
    while index < |s|
      invariant start < index <= |s|
      invariant QuoteEnd(s, index, quote) == QuoteEnd(s, start + 1, quote)
    {
      if s[index] == '\\' && index + 1 < |s| {
        index := index + 2;
      } else if s[index] == quote {
        return index + 1;
      } else {
        index := index + 1;
      }
    }
    return |s|;
  }

  lemma SpansStep(s: string, i: nat, spans: seq<Span>, all: seq<Span>)
    requires i < |s| && spans + Spans(s, i) == all
    ensures LiteralEnd(s, i).Some? ==> spans + [(i, LiteralEnd(s, i).value)] + Spans(s, LiteralEnd(s, i).value) == all
    ensures LiteralEnd(s, i).None? ==> spans + Spans(s, i + 1) == all
  {
    if LiteralEnd(s, i).Some? {
      var e := LiteralEnd(s, i).value;
      Regroup(spans, (i, e), Spans(s, e));
    }
  }

  lemma Regroup(spans: seq<Span>, span: Span, rest: seq<Span>)
    ensures spans + [span] + rest == spans + ([span] + rest)
  {
  }

  /** The literal that starts at this position, if one does. */
  method LiteralAt(s: string, i: nat) returns (e: Option<nat>)
    requires i < |s|
    ensures e == LiteralEnd(s, i)
  {
    var raw := RawEnd(s, i);
    if raw.Some? { return raw; }
    if s[i] != '"' && s[i] != '\'' { return None; }
    var q := QuotedEnd(s, i);
    return Some(q);
  }

  /** The literal spans of a text: in order, apart and inside it. */
  method StringSpans(s: string) returns (spans: seq<Span>)
    ensures spans == Spans(s, 0) && Ordered(spans, 0, |s|)
  {
    spans := [];
    var index := 0;
    ghost var all := Spans(s, 0);
    while index < |s|
      invariant 0 <= index <= |s|
      invariant spans + Spans(s, index) == all
      decreases |s| - index
    {
      SpansStep(s, index, spans, all);
      var e := LiteralAt(s, index);
      if e.Some? {
        spans := spans + [(index, e.value)];
        index := e.value;
      } else {
        index := index + 1;
      }
    }
    SpansOrdered(s, 0);
  }
}
