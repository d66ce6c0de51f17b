/** Four distinct 11-bit words in eight bytes, and the next four from what the DMA moved. */
module DmaWords {
  import opened Wrappers
  import opened Division

  const WordCount := 4
  const WordLimit := 2048
  const RawLength := 8

  // ---------------------------------------------------------------- digits

  /** The n lowest digits of a number, the lowest first. */
  function Digits(v: nat, radix: nat, n: nat): (ds: seq<nat>)
    requires radix > 0
    ensures |ds| == n
    decreases n
  {
    if n == 0 then [] else [Remainder(v, radix)] + Digits(Quotient(v, radix), radix, n - 1)
  }

  function Number(ds: seq<nat>, radix: nat): nat {
    if ds == [] then 0 else ds[0] + radix * Number(ds[1..], radix)
  }

  function Power(radix: nat, n: nat): nat { if n == 0 then 1 else radix * Power(radix, n - 1) }

  predicate AllBelow(ds: seq<nat>, radix: nat) { forall k :: 0 <= k < |ds| ==> ds[k] < radix }

  lemma {:induction false} DigitsBelow(v: nat, radix: nat, n: nat)
    requires radix > 0
    ensures AllBelow(Digits(v, radix, n), radix)
    decreases n
  {
    if n > 0 { DigitsBelow(Quotient(v, radix), radix, n - 1); }
  }

  lemma {:induction false} NumberOfDigits(v: nat, radix: nat, n: nat)
    requires radix > 0 && v < Power(radix, n)
    ensures Number(Digits(v, radix, n), radix) == v
    decreases n
  {
    if n > 0 {
      QuotientBelow(v, radix, Power(radix, n - 1));
      NumberOfDigits(Quotient(v, radix), radix, n - 1);
      assert Digits(v, radix, n)[1..] == Digits(Quotient(v, radix), radix, n - 1);
      SplitIs(v, radix);
    }
  }

  lemma DigitsStep(d: nat, rest: nat, radix: nat, n: nat)
    requires d < radix
    ensures Digits(d + radix * rest, radix, n + 1) == [d] + Digits(rest, radix, n)
  {
    Unsplit(rest, d, radix);
  }

  lemma BelowNext(d: nat, rest: nat, radix: nat, p: nat)
    requires d < radix && rest < p
    ensures d + radix * rest < radix * p
  {
    Scaled(rest + 1, p, radix);
    assert radix * (rest + 1) == radix * rest + radix;
  }

  lemma {:induction false} DigitsOfNumber(ds: seq<nat>, radix: nat)
    requires radix > 0 && AllBelow(ds, radix)
    ensures Digits(Number(ds, radix), radix, |ds|) == ds && Number(ds, radix) < Power(radix, |ds|)
  {
    if ds != [] {
      var rest := Number(ds[1..], radix);
      DigitsOfNumber(ds[1..], radix);
      DigitsStep(ds[0], rest, radix, |ds| - 1);
      BelowNext(ds[0], rest, radix, Power(radix, |ds| - 1));
    }
  }

  // ---------------------------------------------------------------- the codec

  predicate Distinct(words: seq<nat>) { forall j, k :: 0 <= j < k < |words| ==> words[j] != words[k] }

  /** Four different 11-bit words. */
  predicate LegalWords(words: seq<nat>) { |words| == WordCount && AllBelow(words, WordLimit) && Distinct(words) }

  predicate IsRaw(raw: seq<nat>) { |raw| == RawLength && AllBelow(raw, 256) }

  function WordsFromRaw(raw: seq<nat>): Result<seq<nat>> {
    if !IsRaw(raw) then Err
    else
      var value := Number(raw, 256);
      if value >= Power(WordLimit, WordCount) then Err
      else
        var words := Digits(value, WordLimit, WordCount);
        if Distinct(words) then Ok(words) else Err
  }

  function RawFromWords(words: seq<nat>): Result<seq<nat>> {
    if LegalWords(words) then Ok(Digits(Number(words, WordLimit), 256, RawLength)) else Err
  }

  lemma Limits()
    ensures Power(WordLimit, WordCount) == 0x1000_0000_0000 && Power(256, RawLength) == 0x1_0000_0000_0000_0000
  {
  }

  /** Legal words, and no others, are encoded; decoding gives them back. */
  lemma EncodeThenDecode(words: seq<nat>)
    ensures RawFromWords(words).Ok? <==> LegalWords(words)
    ensures LegalWords(words) ==>
              IsRaw(RawFromWords(words).value) && WordsFromRaw(RawFromWords(words).value) == Ok(words)
  {
    if LegalWords(words) {
      var value := Number(words, WordLimit);
      Limits();
      DigitsOfNumber(words, WordLimit);
      DigitsBelow(value, 256, RawLength);
      NumberOfDigits(value, 256, RawLength);
    }
  }

  /** Every input that decodes gives legal words, which encode to it again. */
  lemma DecodeThenEncode(raw: seq<nat>)
    requires WordsFromRaw(raw).Ok?
    ensures LegalWords(WordsFromRaw(raw).value) && RawFromWords(WordsFromRaw(raw).value) == Ok(raw)
  {
    var value := Number(raw, 256);
    DigitsBelow(value, WordLimit, WordCount);
    NumberOfDigits(value, WordLimit, WordCount);
    DigitsOfNumber(raw, 256);
  }

  // ---------------------------------------------------------------- the next words

  /** The k-th value after a start, going round. */
  function After(start: int, k: nat): (r: nat)
    ensures r < WordLimit
  {
    (start + k) % WordLimit
  }

  /** The word is the first free value from its start on. */
  predicate FirstFree(word: nat, start: int, used: set<nat>) {
    word !in used && exists k: nat :: k <= |used| && word == After(start, k) && AllTaken(start, k, used)
  }

  predicate AllTaken(start: int, k: nat, used: set<nat>) { forall j: nat :: j < k ==> After(start, j) in used }

  function Used(words: seq<nat>): set<nat> { set w | w in words }

  function Target(observed: int, step: int, index: nat): int { observed + step * (index + 1) }

  predicate InRange(observed: seq<int>) { forall k :: 0 <= k < |observed| ==> 0 <= observed[k] < WordLimit }

  method NextFree(start: int, used: set<nat>) returns (word: nat)
    requires |used| < WordLimit
    ensures word < WordLimit && FirstFree(word, start, used)
  {
    word := start % WordLimit;
    ghost var k := 0;
    while word in used
      invariant word == After(start, k) && AllTaken(start, k, used) && k <= |used|
      decreases |used| - k
    {
      TakenBound(start, k + 1, used);
      AfterNext(start, k);
      word := (word + 1) % WordLimit;
      k := k + 1;
    }
  }

  lemma AfterNext(start: int, k: nat)
    ensures After(start, k + 1) == (After(start, k) + 1) % WordLimit
  {
  }

  /** A stretch of taken values is no longer than there are taken values. */
  lemma {:induction false} TakenBound(start: int, k: nat, used: set<nat>)
    requires AllTaken(start, k, used) && k <= WordLimit
    ensures k <= |used|
  {
    if k > 0 {
      var last := After(start, k - 1);
      forall j: nat | j < k - 1 ensures After(start, j) in used - {last} { Round(start, j, k - 1); }
      TakenBound(start, k - 1, used - {last});
    }
  }

  /** Values less than a round apart differ. */
  lemma Round(start: int, j: nat, k: nat)
    requires j < k < WordLimit
    ensures After(start, j) != After(start, k)
  {
  }

  /** Each word is the first free value from its target on. */
  predicate Chosen(words: seq<nat>, observed: seq<int>, step: int) {
    && |words| <= |observed| && AllBelow(words, WordLimit)
    && forall k :: 0 <= k < |words| ==> ChosenAt(words, observed, step, k)
  }

  predicate ChosenAt(words: seq<nat>, observed: seq<int>, step: int, k: nat)
    requires k < |words| <= |observed|
  {
    FirstFree(words[k], Target(observed[k], step, k), Used(words[..k]))
  }

  lemma ChosenAreDistinct(words: seq<nat>, observed: seq<int>, step: int)
    requires Chosen(words, observed, step)
    ensures Distinct(words)
  {
    forall j, k | 0 <= j < k < |words| ensures words[j] != words[k] {
      assert ChosenAt(words, observed, step, k);
      assert words[..k][j] == words[j];
    }
  }

  lemma ChooseOneMore(words: seq<nat>, word: nat, observed: seq<int>, step: int)
    requires Chosen(words, observed, step) && |words| < |observed| && word < WordLimit
    requires FirstFree(word, Target(observed[|words|], step, |words|), Used(words))
    ensures Chosen(words + [word], observed, step) && Used(words + [word]) == Used(words) + {word}
  {
    var more := words + [word];
    forall k | 0 <= k < |more| ensures ChosenAt(more, observed, step, k) {
      assert k < |words| ==> more[..k] == words[..k] && ChosenAt(words, observed, step, k);
      assert k == |words| ==> more[..k] == words;
    }
  }

  /** The derivation always ends; from four words in range it gives four legal words, each the first
      free value from its target on. */
  method DeriveWords(observed: seq<int>, step: int) returns (r: Result<seq<nat>>)
    ensures r.Ok? <==> |observed| == WordCount && InRange(observed)
    ensures r.Ok? ==> LegalWords(r.value) && Chosen(r.value, observed, step)
  {
    if |observed| != WordCount { return Err; }
    var words: seq<nat> := [];
    var used: set<nat> := {};
    while |words| < |observed|
      invariant |words| <= |observed| && used == Used(words) && |used| <= |words|
      invariant InRange(observed[..|words|]) && Chosen(words, observed, step)
      decreases |observed| - |words|
    {
      var word := observed[|words|];
      if !(0 <= word < WordLimit) { return Err; }
      var derived := NextFree(Target(word, step, |words|), used);
      ChooseOneMore(words, derived, observed, step);
      used := used + {derived};
      words := words + [derived];
    }
    assert observed[..|words|] == observed;
    ChosenAreDistinct(words, observed, step);
    return Ok(words);
  }

  // ---------------------------------------------------------------- the feedback run

  datatype Observation = Observation(number: nat, words: seq<int>)

  datatype Event = NeedRecord(number: nat) | DmaRead(data: int) | DmaWrite(data: int) | CaseReport(number: nat) | Other

  /** Feeds one record per case, each derived from the words of the case before. */
  class Feedback {
    const seed: seq<nat>
    var observations: seq<Observation>
    var current: Option<Observation>

    /** Every report carries four words; the seed is a legal encoding. */
    ghost predicate Valid()
      reads this
    {
      && WordsFromRaw(seed).Ok?
      && forall k :: 0 <= k < |observations| ==> |observations[k].words| == WordCount
    }

    constructor (seed: seq<nat>)
      requires WordsFromRaw(seed).Ok?
      ensures Valid() && this.seed == seed && observations == [] && current == None
    {
      this.seed, this.observations, this.current := seed, [], None;
    }

    /** One host line: starts a case, collects a written word, or closes the case with its words. */
    method Note(event: Event) returns (r: Result<bool>)
      requires Valid()
      modifies this
      ensures Valid()
      ensures r == Ok(true) <==> event.CaseReport? && old(current).Some? && event.number == old(current).value.number
                                 && |old(current).value.words| == WordCount
      ensures r == Ok(true) ==> observations == old(observations) + [old(current).value] && current == None
      ensures r != Ok(true) ==> observations == old(observations)
      ensures r.Err? ==> current == old(current)
      ensures r == Ok(false) ==>
                current == if event.NeedRecord? then Some(Observation(event.number, []))
                           else if event.DmaWrite? && old(current).Some?
                                then Some(old(current).value.(words := old(current).value.words + [event.data]))
                           else old(current)
    {
      if event.NeedRecord? {
        current := Some(Observation(event.number, []));
        return Ok(false);
      }
      if current.None? { return Ok(false); }
      if event.DmaWrite? {
        current := Some(current.value.(words := current.value.words + [event.data]));
      } else if event.CaseReport? {
        if event.number != current.value.number || |current.value.words| != WordCount { return Err; }
        observations := observations + [current.value];
        current := None;
        return Ok(true);
      }
      return Ok(false);
    }

    /** Every record submitted is a legal encoding: the seed, or the words derived from the last
        report; the one refusal for a report in time is a DMA word out of range. */
    method Raw(index: nat) returns (r: Result<seq<nat>>)
      requires Valid()
      ensures r.Ok? ==> WordsFromRaw(r.value).Ok?
      ensures index == 0 ==> r == Ok(seed)
      ensures index > 0 ==> (r.Ok? <==> |observations| == index && InRange(observations[index - 1].words))
      ensures index > 0 && r.Ok? ==> Chosen(WordsFromRaw(r.value).value, observations[index - 1].words, 0x101)
    {
      if index == 0 { return Ok(seed); }
      if |observations| != index { return Err; }
      var observed := observations[index - 1].words;
      var words := DeriveWords(observed, 0x101);
      if words.Err? { return Err; }
      EncodeThenDecode(words.value);
      r := RawFromWords(words.value);
    }
  }

  /** A run is set up exactly for a legal seed and a positive number of cases. */
  method OpenFeedback(seed: seq<nat>, cases: int) returns (run: Option<Feedback>)
    ensures run.Some? <==> WordsFromRaw(seed).Ok? && cases >= 1
    ensures run.Some? ==>
              fresh(run.value) && run.value.Valid() && run.value.seed == seed && run.value.observations == []
  {
    var words := WordsFromRaw(seed);
    if words.Err? || cases < 1 { return None; }
    var feedback := new Feedback(seed);
    return Some(feedback);
  }
}
