/** Reading the journal: PRE/POST samples become rows, projections become views bound to
    rows, services and device acceptances become maps by transaction. */
module Collection {
  import opened Wrappers
  import opened TraceJournal
  import opened JournalReading
  import opened Sequences

  /** The samples filed under one command sequence number, by event id. */
  datatype Pair = Pair(pre: Option<nat>, post: Option<nat>)

  // ---------------------------------------------------------------- rows

  function First(p: Pair): nat {
    match p
    case Pair(Some(a), Some(b)) => if a < b then a else b
    case Pair(Some(a), None) => a
    case Pair(None, Some(b)) => b
    case Pair(None, None) => 0
  }

  ghost predicate PairOk(events: seq<Event>, n: nat, command: nat, p: Pair) {
    && (p.pre.Some? || p.post.Some?)
    && (p.pre.Some? ==> p.pre.value <= n && IsSample(events, p.pre.value, true, command))
    && (p.post.Some? ==> p.post.value <= n && IsSample(events, p.post.value, false, command))
  }

  ghost predicate PairsOk(events: seq<Event>, n: nat, order: seq<nat>, frames: map<nat, Pair>) {
    && (forall j | 0 <= j < |order| :: order[j] in frames && PairOk(events, n, order[j], frames[order[j]]))
    && (forall c | c in frames :: c in order)
  }

  /** Frames are listed in the order in which their first sample appears. */
  ghost predicate InOrder(order: seq<nat>, frames: map<nat, Pair>) {
    forall j, k | 0 <= j < k < |order| ::
      order[j] in frames && order[k] in frames && First(frames[order[j]]) < First(frames[order[k]])
  }

  /** Every sample among the first `n` events has been filed. */
  ghost predicate AllFiled(events: seq<Event>, n: nat, frames: map<nat, Pair>)
    requires n <= |events|
  {
    forall e | 0 <= e < n && events[e].Sample? ::
      && events[e].scope.command in frames
      && var p := frames[events[e].scope.command];
      if events[e].isPre then p.pre == Some(e + 1) else p.post == Some(e + 1)
  }

  /** No two samples of one phase belong to the same command. */
  ghost predicate SamplesApart(events: seq<Event>) {
    && (forall e | 0 <= e < |events| && events[e].Sample? :: events[e].scope.command > 0 && events[e].scope.tick > 0)
    && (forall d, e | 0 <= d < e < |events| && events[d].Sample? && events[e].Sample? ::
          events[d].isPre == events[e].isPre ==> events[d].scope.command != events[e].scope.command)
  }

  /** The first `n` events have been filed, and are apart. */
  ghost predicate FiledTo(events: seq<Event>, n: nat, order: seq<nat>, frames: map<nat, Pair>)
    requires n <= |events|
  {
    && PairsOk(events, n, order, frames) && InOrder(order, frames) && AllFiled(events, n, frames)
    && SamplesApart(events[..n])
  }

  lemma NothingFiledYet(events: seq<Event>)
    ensures FiledTo(events, 0, [], map[])
  {
  }

  lemma AllFiledIsApart(events: seq<Event>, order: seq<nat>, frames: map<nat, Pair>)
    requires FiledTo(events, |events|, order, frames)
    ensures SamplesApart(events)
  {
    assert events[..|events|] == events;
  }

  /** File every sample under its command; a second PRE or POST for one command is refused. */
  method FileSamples(events: seq<Event>) returns (ok: bool, order: seq<nat>, frames: map<nat, Pair>)
    ensures ok <==> SamplesApart(events)
    ensures ok ==> PairsOk(events, |events|, order, frames) && InOrder(order, frames)
    ensures ok ==> AllFiled(events, |events|, frames)
  {
    ok, order, frames := false, [], map[];
    NothingFiledYet(events);
    for n := 0 to |events|
      invariant FiledTo(events, n, order, frames)
    {
      if events[n].Sample? {
        var c := events[n].scope.command;
        if c == 0 || events[n].scope.tick == 0 { return; }
        var p := if c in frames then frames[c] else Pair(None, None);
        if (if events[n].isPre then p.pre.Some? else p.post.Some?) {
          FiledTwice(events, n, order, frames);
          return;
        }
        ghost var before, listed := frames, order;
        if c !in frames { order := order + [c]; }
        frames := frames[c := if events[n].isPre then p.(pre := Some(n + 1)) else p.(post := Some(n + 1))];
        FiledNext(events, n, listed, before, order, frames);
      } else {
        NothingNext(events, n, order, frames);
      }
    }
    ok := true;
    AllFiledIsApart(events, order, frames);
  }

  lemma FiledNext(events: seq<Event>, n: nat, order: seq<nat>, frames: map<nat, Pair>,
                  order': seq<nat>, frames': map<nat, Pair>)
    requires n < |events| && FiledTo(events, n, order, frames) && Files(events, n, order, frames, order', frames')
    requires events[n].scope.command > 0 && events[n].scope.tick > 0
    ensures FiledTo(events, n + 1, order', frames')
  {
    ApartOneMore(events, n, order, frames);
    PairsOneMore(events, n, order, frames, order', frames');
    OrderOneMore(events, n, order, frames, order', frames');
    FiledOneMore(events, n, order, frames, order', frames');
  }

  lemma NothingNext(events: seq<Event>, n: nat, order: seq<nat>, frames: map<nat, Pair>)
    requires n < |events| && FiledTo(events, n, order, frames) && !events[n].Sample?
    ensures FiledTo(events, n + 1, order, frames)
  {
    PairsLater(events, n, order, frames);
    ApartLater(events, n);
  }

  lemma ApartLater(events: seq<Event>, n: nat)
    requires n < |events| && SamplesApart(events[..n]) && !events[n].Sample?
    ensures SamplesApart(events[..n + 1])
  {
    assert events[..n + 1] == events[..n] + [events[n]];
  }

  /** The place of event `n` is taken. */
  predicate Taken(events: seq<Event>, n: nat, frames: map<nat, Pair>)
    requires n < |events| && events[n].Sample?
  {
    var c := events[n].scope.command;
    c in frames && if events[n].isPre then frames[c].pre.Some? else frames[c].post.Some?
  }

  lemma FiledTwice(events: seq<Event>, n: nat, order: seq<nat>, frames: map<nat, Pair>)
    requires PairsOk(events, n, order, frames) && n < |events| && events[n].Sample? && Taken(events, n, frames)
    ensures !SamplesApart(events)
  {
    var c := events[n].scope.command;
    var j :| 0 <= j < |order| && order[j] == c;
    assert PairOk(events, n, c, frames[c]);
    var d := (if events[n].isPre then frames[c].pre.value else frames[c].post.value) - 1;
    assert events[d].Sample? && events[d].isPre == events[n].isPre && events[d].scope.command == c;
  }

  lemma ApartOneMore(events: seq<Event>, n: nat, order: seq<nat>, frames: map<nat, Pair>)
    requires n < |events| && events[n].Sample? && !Taken(events, n, frames)
    requires events[n].scope.command > 0 && events[n].scope.tick > 0
    requires AllFiled(events, n, frames) && SamplesApart(events[..n])
    ensures SamplesApart(events[..n + 1])
  {
    var more := events[..n + 1];
    forall d, e | 0 <= d < e < |more| && more[d].Sample? && more[e].Sample? && more[d].isPre == more[e].isPre
      ensures more[d].scope.command != more[e].scope.command
    {
      assert e < n ==> events[..n][d] == more[d] && events[..n][e] == more[e];
    }
    forall e | 0 <= e < |more| && more[e].Sample? ensures more[e].scope.command > 0 && more[e].scope.tick > 0 {
      assert e < n ==> events[..n][e] == more[e];
    }
  }

  lemma PairsLater(events: seq<Event>, n: nat, order: seq<nat>, frames: map<nat, Pair>)
    requires PairsOk(events, n, order, frames)
    ensures PairsOk(events, n + 1, order, frames)
  {
  }

  /** `frames'` files event `n` on top of `frames`. */
  ghost predicate Files(events: seq<Event>, n: nat, order: seq<nat>, frames: map<nat, Pair>,
                        order': seq<nat>, frames': map<nat, Pair>)
  {
    && n < |events| && events[n].Sample?
    && var c := events[n].scope.command;
    && var p := if c in frames then frames[c] else Pair(None, None);
    && (if events[n].isPre then p.pre.None? else p.post.None?)
    && order' == (if c in frames then order else order + [c])
    && frames' == frames[c := if events[n].isPre then p.(pre := Some(n + 1)) else p.(post := Some(n + 1))]
  }

  lemma PairsOneMore(events: seq<Event>, n: nat, order: seq<nat>, frames: map<nat, Pair>,
                     order': seq<nat>, frames': map<nat, Pair>)
    requires Files(events, n, order, frames, order', frames') && PairsOk(events, n, order, frames)
    ensures PairsOk(events, n + 1, order', frames')
  {
  }

  lemma FiledOneMore(events: seq<Event>, n: nat, order: seq<nat>, frames: map<nat, Pair>,
                     order': seq<nat>, frames': map<nat, Pair>)
    requires Files(events, n, order, frames, order', frames') && AllFiled(events, n, frames)
    ensures AllFiled(events, n + 1, frames')
  {
  }

  lemma OrderOneMore(events: seq<Event>, n: nat, order: seq<nat>, frames: map<nat, Pair>,
                     order': seq<nat>, frames': map<nat, Pair>)
    requires Files(events, n, order, frames, order', frames')
    requires PairsOk(events, n, order, frames) && InOrder(order, frames)
    ensures InOrder(order', frames')
  {
  }

  // ---------------------------------------------------------------- frames become rows

  method ListCommands(events: seq<Event>) returns (commands: seq<nat>, failures: seq<nat>)
    ensures commands == CommandIds(events) && failures == FailureIds(events)
  {
    commands, failures := [], [];
    for n := 0 to |events|
      invariant commands == CommandIds(events[..n]) && failures == FailureIds(events[..n])
    {
      assert events[..n + 1][..n] == events[..n];
      if events[n].Command? { commands := commands + [n + 1]; }
      if events[n].Failure? { failures := failures + [n + 1]; }
    }
    assert events[..|events|] == events;
  }

  /** The frame of `command` makes row `i`. */
  predicate MakesRow(events: seq<Event>, i: nat, command: nat, frame: Pair, terminal: bool, row: Row) {
    command == i + 1 && frame == Pair(Some(row.preId), Some(row.postId)) && RowAt(events, i, row, terminal)
  }

  /** The row of a frame whose samples are both there, whether or not they belong together. */
  function RowOf(events: seq<Event>, frame: Pair): Row
    requires frame.pre.Some? && 0 < frame.pre.value <= |events| && events[frame.pre.value - 1].Sample?
    requires frame.post.Some? && 0 < frame.post.value <= |events| && events[frame.post.value - 1].Sample?
  {
    var pre, post := events[frame.pre.value - 1], events[frame.post.value - 1];
    Row(frame.pre.value, frame.post.value, pre.producer, pre.scope, pre.native, post.native, pre.backend)
  }

  /** A frame that makes a row makes this one. */
  lemma MadeRow(events: seq<Event>, i: nat, command: nat, frame: Pair, terminal: bool, row: Row)
    requires MakesRow(events, i, command, frame, terminal, row)
    ensures RowSamples(events, i, row) && row == RowOf(events, frame)
    ensures ProducerOk(events, i, row.producer, terminal)
  {
  }

  /** The row the `i`-th frame makes, if it makes one; only the last frame may answer to a failure. */
  method PairUp(events: seq<Event>, commands: seq<nat>, i: nat, command: nat, frame: Pair, mayFail: bool)
    returns (row: Option<Row>, terminal: bool)
    requires PairOk(events, |events|, command, frame) && commands == CommandIds(events)
    ensures row.Some? ==> MakesRow(events, i, command, frame, terminal, row.value)
    ensures terminal ==> mayFail
    ensures row.None? ==> Unmakeable(events, i, command, frame, mayFail)
  {
    terminal := false;
    row := None;
    if command == i + 1 && frame.pre.Some? && frame.post.Some? {
      var made := RowOf(events, frame);
      var producer := made.producer;
      terminal := mayFail && 0 < producer <= |events| && events[producer - 1].Failure?;
      var samples := CheckSamples(events, i, made);
      var known := CheckProducer(events, commands, i, producer, terminal);
      if samples && known { row := Some(made); }
    }
    if row.None? {
      forall x, t | (t ==> mayFail) && MakesRow(events, i, command, frame, t, x) ensures false {
        MadeRow(events, i, command, frame, t, x);
        ProducerKind(events, i, x.producer, t);
      }
    }
  }

  lemma ProducerKind(events: seq<Event>, i: nat, producer: nat, terminal: bool)
    requires ProducerOk(events, i, producer, terminal)
    ensures 0 < producer <= |events| && (events[producer - 1].Failure? <==> terminal)
  {
  }

  /** No row fits the frame. */
  ghost predicate Unmakeable(events: seq<Event>, i: nat, command: nat, frame: Pair, mayFail: bool) {
    forall x, t | t ==> mayFail :: !MakesRow(events, i, command, frame, t, x)
  }

  method CheckSamples(events: seq<Event>, i: nat, row: Row) returns (ok: bool)
    requires IsSample(events, row.preId, true, i + 1) && IsSample(events, row.postId, false, i + 1)
    requires events[row.preId - 1].producer == row.producer && events[row.preId - 1].scope == row.scope
    requires events[row.preId - 1].native == row.pre && events[row.preId - 1].backend == row.backend
    requires events[row.postId - 1].native == row.post
    ensures ok == RowSamples(events, i, row)
  {
    var post := events[row.postId - 1];
    ok := row.scope.tick == i + 1 && row.producer < row.preId < row.postId
      && post.producer == row.producer && post.scope == row.scope;
  }

  method CheckProducer(events: seq<Event>, commands: seq<nat>, i: nat, producer: nat, terminal: bool) returns (ok: bool)
    requires commands == CommandIds(events)
    ensures ok == ProducerOk(events, i, producer, terminal)
  {
    ok := 0 < producer <= |events|
      && (if terminal then events[producer - 1].Failure?
          else i < |commands| && producer == commands[i] && events[producer - 1].tick == i + 1);
  }

  /** Only the last of all frames may answer to the failure. */
  predicate MayFail(allowTerminal: bool, order: seq<nat>, i: nat) { allowTerminal && i == |order| - 1 }

  ghost predicate PairedAt(events: seq<Event>, order: seq<nat>, frames: map<nat, Pair>, rows: seq<Row>,
                           failure: Option<nat>, i: nat)
    requires i < |order| && i < |rows|
  {
    && order[i] in frames
    && MakesRow(events, i, order[i], frames[order[i]], failure.Some? && i == |order| - 1, rows[i])
  }

  /** The first `n` frames have become rows. */
  ghost predicate Paired(events: seq<Event>, order: seq<nat>, frames: map<nat, Pair>, rows: seq<Row>,
                         failure: Option<nat>, n: nat)
  {
    && n <= |order| && |rows| == n && (failure.Some? ==> n == |order| > 0 && rows[n - 1].producer == failure.value)
    && forall i {:trigger PairedAt(events, order, frames, rows, failure, i)} | 0 <= i < n ::
         PairedAt(events, order, frames, rows, failure, i)
  }

  lemma PairedOneMore(events: seq<Event>, order: seq<nat>, frames: map<nat, Pair>, rows: seq<Row>, row: Row,
                      terminal: bool)
    requires Paired(events, order, frames, rows, None, |rows|) && |rows| < |order| && order[|rows|] in frames
    requires MakesRow(events, |rows|, order[|rows|], frames[order[|rows|]], terminal, row)
    requires terminal ==> |rows| == |order| - 1
    ensures Paired(events, order, frames, rows + [row], if terminal then Some(row.producer) else None, |rows| + 1)
  {
    var failure := if terminal then Some(row.producer) else None;
    forall i | 0 <= i < |rows| + 1 ensures PairedAt(events, order, frames, rows + [row], failure, i) {
      assert i < |rows| ==> PairedAt(events, order, frames, rows, None, i);
    }
  }

  /** Some frame makes no row. */
  ghost predicate Stuck(events: seq<Event>, order: seq<nat>, frames: map<nat, Pair>, allowTerminal: bool, i: nat) {
    && i < |order| && order[i] in frames
    && Unmakeable(events, i, order[i], frames[order[i]], MayFail(allowTerminal, order, i))
  }

  method MakeRows(events: seq<Event>, commands: seq<nat>, order: seq<nat>, frames: map<nat, Pair>, allowTerminal: bool)
    returns (ok: bool, rows: seq<Row>, failure: Option<nat>)
    requires PairsOk(events, |events|, order, frames) && commands == CommandIds(events)
    ensures ok ==> Paired(events, order, frames, rows, failure, |order|)
    ensures !ok ==> exists i :: Stuck(events, order, frames, allowTerminal, i)
  {
    ok, rows, failure := false, [], None;
    for i := 0 to |order|
      invariant !ok && |rows| == i && Paired(events, order, frames, rows, failure, i)
      invariant failure.Some? ==> i == |order|
    {
      var row, terminal := PairUp(events, commands, i, order[i], frames[order[i]], MayFail(allowTerminal, order, i));
      if row.None? {
        assert Stuck(events, order, frames, allowTerminal, i);
        return;
      }
      PairedOneMore(events, order, frames, rows, row.value, terminal);
      rows := rows + [row.value];
      failure := if terminal then Some(row.value.producer) else None;
    }
    ok := true;
  }

  /** The failures listed are the one that produced the terminal frame, or there are none. */
  predicate FailureOk(failures: seq<nat>, failure: Option<nat>, allowTerminal: bool) {
    && failure.Some? == allowTerminal
    && (if failure.Some? then failures == [failure.value] else failures == [])
  }

  /** Pair the samples up, one row per tick, each answering to its own step command.  The rows are
      those the journal says, and there are none exactly when it says none. */
  method PairSamples(events: seq<Event>, allowTerminal: bool)
    returns (ok: bool, rows: seq<Row>, failure: Option<nat>)
    ensures ok ==> RowsRead(events, allowTerminal, rows, failure)
    ensures !ok ==> NoRows(events, allowTerminal)
  {
    rows, failure := [], None;
    var order, frames;
    ok, order, frames := FileSamples(events);
    if !ok || order == [] {
      ok := false;
      NothingFiled(events, allowTerminal, order, frames);
      return;
    }
    var commands, failures := ListCommands(events);
    ok, rows, failure := MakeRows(events, commands, order, frames, allowTerminal);
    if !ok {
      StuckHasNoRows(events, allowTerminal, order, frames);
      return;
    }
    ok := FailureOk(failures, failure, allowTerminal) && |commands| == |rows| - (if failure.Some? then 1 else 0);
    if ok {
      PairedIsRead(events, allowTerminal, order, frames, rows, failure);
    } else {
      MiscountHasNoRows(events, allowTerminal, order, frames, rows, failure);
    }
  }

  ghost predicate NoRows(events: seq<Event>, allowTerminal: bool) {
    forall rows, failure :: !RowsRead(events, allowTerminal, rows, failure)
  }

  // ---------------------------------------------------------------- the rows are the journal's

  lemma SampleBelongs(events: seq<Event>, allowTerminal: bool, rows: seq<Row>, failure: Option<nat>, e: nat)
    requires RowsRead(events, allowTerminal, rows, failure) && e < |events| && events[e].Sample?
    ensures Belongs(events, rows, e)
  {
  }

  lemma RowSampled(events: seq<Event>, allowTerminal: bool, rows: seq<Row>, failure: Option<nat>, i: nat)
    requires RowsRead(events, allowTerminal, rows, failure) && i < |rows|
    ensures RowSamples(events, i, rows[i])
  {
    RowOfRead(events, allowTerminal, rows, failure, i);
  }

  lemma ScopeOfSample(events: seq<Event>, rows: seq<Row>, e: nat, i: nat)
    requires e < |events| && events[e].Sample? && Belongs(events, rows, e) && i == events[e].scope.command - 1
    requires RowSamples(events, i, rows[i])
    ensures events[e].scope == Scope(i + 1, i + 1)
  {
  }

  lemma SampleIsNumbered(events: seq<Event>, allowTerminal: bool, rows: seq<Row>, failure: Option<nat>, e: nat)
    requires RowsRead(events, allowTerminal, rows, failure) && e < |events| && events[e].Sample?
    ensures Belongs(events, rows, e) && events[e].scope.command > 0 && events[e].scope.tick > 0
  {
    SampleBelongs(events, allowTerminal, rows, failure, e);
    var i := events[e].scope.command - 1;
    RowSampled(events, allowTerminal, rows, failure, i);
    ScopeOfSample(events, rows, e, i);
  }

  lemma OneSampleEach(events: seq<Event>, rows: seq<Row>, d: nat, e: nat)
    requires d < e < |events| && events[d].Sample? && events[e].Sample? && events[d].isPre == events[e].isPre
    requires Belongs(events, rows, d) && Belongs(events, rows, e)
    ensures events[d].scope.command != events[e].scope.command
  {
  }

  /** What is read has no sample twice. */
  lemma ReadIsApart(events: seq<Event>, allowTerminal: bool, rows: seq<Row>, failure: Option<nat>)
    requires RowsRead(events, allowTerminal, rows, failure)
    ensures SamplesApart(events)
  {
    forall e | 0 <= e < |events| && events[e].Sample?
      ensures events[e].scope.command > 0 && events[e].scope.tick > 0
    {
      SampleIsNumbered(events, allowTerminal, rows, failure, e);
    }
    forall d, e | 0 <= d < e < |events| && events[d].Sample? && events[e].Sample? && events[d].isPre == events[e].isPre
      ensures events[d].scope.command != events[e].scope.command
    {
      OneSampleEach(events, rows, d, e);
    }
  }

  /** The frame of each row that is read. */
  lemma FrameOfRow(events: seq<Event>, allowTerminal: bool, order: seq<nat>, frames: map<nat, Pair>,
                   rows: seq<Row>, failure: Option<nat>, i: nat)
    requires AllFiled(events, |events|, frames) && RowsRead(events, allowTerminal, rows, failure) && i < |rows|
    ensures i + 1 in frames && frames[i + 1] == Pair(Some(rows[i].preId), Some(rows[i].postId))
    ensures First(frames[i + 1]) == rows[i].preId
  {
    RowOfRead(events, allowTerminal, rows, failure, i);
    assert events[rows[i].preId - 1].Sample? && events[rows[i].postId - 1].Sample?;
  }

  lemma CommandOfFrame(events: seq<Event>, allowTerminal: bool, order: seq<nat>, frames: map<nat, Pair>,
                       rows: seq<Row>, failure: Option<nat>, j: nat)
    requires PairsOk(events, |events|, order, frames) && RowsRead(events, allowTerminal, rows, failure) && j < |order|
    ensures 0 < order[j] <= |rows|
  {
    assert PairOk(events, |events|, order[j], frames[order[j]]);
    var p := frames[order[j]];
    assert Belongs(events, rows, (if p.pre.Some? then p.pre.value else p.post.value) - 1);
  }

  /** The frames are the rows that are read, in the same order. */
  lemma FramesAreRows(events: seq<Event>, allowTerminal: bool, order: seq<nat>, frames: map<nat, Pair>,
                      rows: seq<Row>, failure: Option<nat>)
    requires PairsOk(events, |events|, order, frames) && InOrder(order, frames) && AllFiled(events, |events|, frames)
    requires RowsRead(events, allowTerminal, rows, failure)
    ensures |order| == |rows| && forall j | 0 <= j < |order| :: order[j] == j + 1
  {
    var ids := seq(|rows|, i requires 0 <= i < |rows| => rows[i].preId);
    forall i | 0 <= i < |rows| ensures Heads(frames, ids, i) {
      FrameOfRow(events, allowTerminal, order, frames, rows, failure, i);
    }
    forall j | 0 <= j < |order| ensures Listed(order, frames, ids, j) {
      CommandOfFrame(events, allowTerminal, order, frames, rows, failure, j);
    }
    SameOrder(order, frames, ids);
  }

  /** The frame of command `i + 1` starts at the `i`-th id. */
  predicate Heads(frames: map<nat, Pair>, ids: seq<nat>, i: nat)
    requires i < |ids|
  {
    i + 1 in frames && First(frames[i + 1]) == ids[i]
  }

  /** Each listed frame is one of those that head the ids. */
  predicate Listed(order: seq<nat>, frames: map<nat, Pair>, ids: seq<nat>, j: nat)
    requires j < |order|
  {
    0 < order[j] <= |ids| && order[j] in frames
  }

  ghost predicate AllListed(order: seq<nat>, frames: map<nat, Pair>, ids: seq<nat>) {
    forall j {:trigger Listed(order, frames, ids, j)} | 0 <= j < |order| :: Listed(order, frames, ids, j)
  }

  ghost predicate AllHead(frames: map<nat, Pair>, ids: seq<nat>) {
    forall i {:trigger Heads(frames, ids, i)} | 0 <= i < |ids| :: Heads(frames, ids, i)
  }

  /** Where the listed frames start. */
  ghost predicate FirstsAre(order: seq<nat>, frames: map<nat, Pair>, firsts: seq<nat>) {
    |firsts| == |order| && forall j | 0 <= j < |order| :: order[j] in frames && firsts[j] == First(frames[order[j]])
  }

  lemma FirstIs(order: seq<nat>, frames: map<nat, Pair>, ids: seq<nat>, firsts: seq<nat>, j: nat)
    requires AllListed(order, frames, ids) && AllHead(frames, ids) && FirstsAre(order, frames, firsts)
    requires j < |order|
    ensures 0 < order[j] <= |ids| && firsts[j] == ids[order[j] - 1]
  {
    assert Listed(order, frames, ids, j);
    var i := order[j] - 1;
    assert Heads(frames, ids, i);
  }

  lemma IdIsFirst(order: seq<nat>, frames: map<nat, Pair>, ids: seq<nat>, firsts: seq<nat>, i: nat)
    requires AllHead(frames, ids) && FirstsAre(order, frames, firsts) && i < |ids| && i + 1 in order
    ensures ids[i] in firsts
  {
    assert Heads(frames, ids, i);
    var j :| 0 <= j < |order| && order[j] == i + 1;
    assert firsts[j] == ids[i];
  }

  lemma FirstsIncrease(order: seq<nat>, frames: map<nat, Pair>, firsts: seq<nat>)
    requires InOrder(order, frames) && FirstsAre(order, frames, firsts)
    ensures Increasing(firsts)
  {
  }

  lemma SameOrder(order: seq<nat>, frames: map<nat, Pair>, ids: seq<nat>)
    requires InOrder(order, frames) && Increasing(ids) && AllHead(frames, ids) && AllListed(order, frames, ids)
    requires forall c | c in frames :: c in order
    ensures |order| == |ids| && forall j | 0 <= j < |order| :: order[j] == j + 1
  {
    forall j | 0 <= j < |order| ensures order[j] in frames { assert Listed(order, frames, ids, j); }
    var firsts := seq(|order|, j requires 0 <= j < |order| => First(frames[order[j]]));
    FirstsIncrease(order, frames, firsts);
    forall j | 0 <= j < |firsts| ensures firsts[j] in ids { FirstIs(order, frames, ids, firsts, j); }
    forall i | 0 <= i < |ids| ensures ids[i] in firsts {
      assert Heads(frames, ids, i);
      IdIsFirst(order, frames, ids, firsts, i);
    }
    SameIncreasing(firsts, ids);
    forall j | 0 <= j < |order| ensures order[j] == j + 1 {
      FirstIs(order, frames, ids, firsts, j);
      SamePlace(ids, order[j] - 1, j);
    }
  }

  lemma SamePlace(ids: seq<nat>, i: nat, j: nat)
    requires Increasing(ids) && i < |ids| && j < |ids| && ids[i] == ids[j]
    ensures i == j
  {
  }

  lemma NothingFiled(events: seq<Event>, allowTerminal: bool, order: seq<nat>, frames: map<nat, Pair>)
    requires SamplesApart(events) ==>
               order == [] && PairsOk(events, |events|, order, frames) && AllFiled(events, |events|, frames)
    ensures NoRows(events, allowTerminal)
  {
    forall rows, failure | RowsRead(events, allowTerminal, rows, failure) ensures false {
      ReadIsApart(events, allowTerminal, rows, failure);
      FrameOfRow(events, allowTerminal, order, frames, rows, failure, 0);
    }
  }

  lemma FrameInOrder(events: seq<Event>, allowTerminal: bool, order: seq<nat>, frames: map<nat, Pair>,
                     rows: seq<Row>, failure: Option<nat>, i: nat)
    requires PairsOk(events, |events|, order, frames) && InOrder(order, frames) && AllFiled(events, |events|, frames)
    requires RowsRead(events, allowTerminal, rows, failure) && i < |order|
    ensures |order| == |rows| && order[i] == i + 1 && order[i] in frames
  {
    FramesAreRows(events, allowTerminal, order, frames, rows, failure);
  }

  lemma RowMakes(events: seq<Event>, i: nat, frame: Pair, terminal: bool, row: Row)
    requires RowSamples(events, i, row) && ProducerOk(events, i, row.producer, terminal)
    requires frame == Pair(Some(row.preId), Some(row.postId))
    ensures MakesRow(events, i, i + 1, frame, terminal, row)
  {
  }

  lemma ReadMakesRow(events: seq<Event>, allowTerminal: bool, order: seq<nat>, frames: map<nat, Pair>,
                     rows: seq<Row>, failure: Option<nat>, i: nat)
    requires PairsOk(events, |events|, order, frames) && InOrder(order, frames) && AllFiled(events, |events|, frames)
    requires RowsRead(events, allowTerminal, rows, failure) && i < |order|
    ensures |order| == |rows| && order[i] == i + 1 && order[i] in frames
    ensures MakesRow(events, i, order[i], frames[order[i]], MayFail(allowTerminal, order, i), rows[i])
  {
    FrameInOrder(events, allowTerminal, order, frames, rows, failure, i);
    FrameOfRow(events, allowTerminal, order, frames, rows, failure, i);
    RowOfRead(events, allowTerminal, rows, failure, i);
    RowMakes(events, i, frames[order[i]], MayFail(allowTerminal, order, i), rows[i]);
  }

  lemma StuckHasNoRows(events: seq<Event>, allowTerminal: bool, order: seq<nat>, frames: map<nat, Pair>)
    requires PairsOk(events, |events|, order, frames) && InOrder(order, frames) && AllFiled(events, |events|, frames)
    requires exists i :: Stuck(events, order, frames, allowTerminal, i)
    ensures NoRows(events, allowTerminal)
  {
    var i :| Stuck(events, order, frames, allowTerminal, i);
    forall rows, failure | RowsRead(events, allowTerminal, rows, failure) ensures false {
      ReadMakesRow(events, allowTerminal, order, frames, rows, failure, i);
    }
  }

  /** Rows made from the frames are the rows that are read. */
  lemma MadeIsRead(events: seq<Event>, allowTerminal: bool, order: seq<nat>, frames: map<nat, Pair>, made: seq<Row>,
                   end: Option<nat>, rows: seq<Row>, failure: Option<nat>, i: nat)
    requires PairsOk(events, |events|, order, frames) && InOrder(order, frames) && AllFiled(events, |events|, frames)
    requires Paired(events, order, frames, made, end, |order|) && RowsRead(events, allowTerminal, rows, failure)
    requires i < |made|
    ensures |made| == |rows| && made[i] == rows[i]
    ensures i == |order| - 1 ==> end.Some? == allowTerminal
  {
    ReadMakesRow(events, allowTerminal, order, frames, rows, failure, i);
    assert PairedAt(events, order, frames, made, end, i);
    MadeRow(events, i, order[i], frames[order[i]], end.Some? && i == |order| - 1, made[i]);
    MadeRow(events, i, order[i], frames[order[i]], MayFail(allowTerminal, order, i), rows[i]);
    ProducerKind(events, i, made[i].producer, end.Some? && i == |order| - 1);
    ProducerKind(events, i, made[i].producer, MayFail(allowTerminal, order, i));
  }

  lemma MiscountHasNoRows(events: seq<Event>, allowTerminal: bool, order: seq<nat>, frames: map<nat, Pair>,
                          made: seq<Row>, end: Option<nat>)
    requires PairsOk(events, |events|, order, frames) && InOrder(order, frames) && AllFiled(events, |events|, frames)
    requires Paired(events, order, frames, made, end, |order|) && order != []
    requires !(FailureOk(FailureIds(events), end, allowTerminal)
               && |CommandIds(events)| == |made| - (if end.Some? then 1 else 0))
    ensures NoRows(events, allowTerminal)
  {
    forall rows, failure | RowsRead(events, allowTerminal, rows, failure) ensures false {
      MadeIsRead(events, allowTerminal, order, frames, made, end, rows, failure, |made| - 1);
    }
  }

  lemma PairedSample(events: seq<Event>, order: seq<nat>, frames: map<nat, Pair>, rows: seq<Row>,
                     failure: Option<nat>, e: nat)
    requires PairsOk(events, |events|, order, frames) && AllFiled(events, |events|, frames)
    requires Paired(events, order, frames, rows, failure, |order|) && e < |events| && events[e].Sample?
    ensures Belongs(events, rows, e)
  {
    var j :| 0 <= j < |order| && order[j] == events[e].scope.command;
    assert PairedAt(events, order, frames, rows, failure, j);
  }

  lemma PairedRow(events: seq<Event>, order: seq<nat>, frames: map<nat, Pair>, rows: seq<Row>,
                  failure: Option<nat>, i: nat)
    requires Paired(events, order, frames, rows, failure, |order|) && i < |order|
    ensures RowAt(events, i, rows[i], failure.Some? && i == |order| - 1)
    ensures order[i] == i + 1 && order[i] in frames && First(frames[order[i]]) == rows[i].preId
  {
    assert PairedAt(events, order, frames, rows, failure, i);
  }

  lemma PairedIsRead(events: seq<Event>, allowTerminal: bool, order: seq<nat>, frames: map<nat, Pair>,
                     rows: seq<Row>, failure: Option<nat>)
    requires PairsOk(events, |events|, order, frames) && InOrder(order, frames) && AllFiled(events, |events|, frames)
    requires Paired(events, order, frames, rows, failure, |order|) && order != []
    requires FailureOk(FailureIds(events), failure, allowTerminal)
    requires |CommandIds(events)| == |rows| - (if failure.Some? then 1 else 0)
    ensures RowsRead(events, allowTerminal, rows, failure)
  {
    forall i | 0 <= i < |rows| ensures RowPlaced(events, allowTerminal, rows, i) {
      PairedRow(events, order, frames, rows, failure, i);
    }
    forall i, j | 0 <= i < j < |rows| ensures rows[i].preId < rows[j].preId {
      PairedRow(events, order, frames, rows, failure, i);
      PairedRow(events, order, frames, rows, failure, j);
    }
    forall e | 0 <= e < |events| && events[e].Sample? ensures Belongs(events, rows, e) {
      PairedSample(events, order, frames, rows, failure, e);
    }
  }

  // ---------------------------------------------------------------- views

  /** Row index of each PRE sample's event id. */
  method IndexRows(rows: seq<Row>) returns (at: map<nat, nat>)
    requires forall i, j | 0 <= i < j < |rows| :: rows[i].preId < rows[j].preId
    ensures forall id | id in at :: at[id] < |rows| && rows[at[id]].preId == id
    ensures forall i | 0 <= i < |rows| :: rows[i].preId in at && at[rows[i].preId] == i
  {
    at := map[];
    for n := 0 to |rows|
      invariant forall id | id in at :: at[id] < n && rows[at[id]].preId == id
      invariant forall i | 0 <= i < n :: rows[i].preId in at && at[rows[i].preId] == i
    {
      at := at[rows[n].preId := n];
    }
  }

  datatype Bound = Bound(views: map<(nat, Kind), Projection>, accepted: map<Key, nat>,
                         responses: map<Key, nat>, completions: map<Key, nat>)
  {
    function Index(kind: Kind): map<Key, nat> {
      match kind
      case Accepted => accepted
      case Consumed => responses
      case Completed => completions
    }

    function Add(row: nat, view: Projection): Bound {
      var kind := view.Kind();
      var b := this.(views := views[(row, kind) := view]);
      match kind
      case Accepted => b.(accepted := accepted[view.key := row])
      case Consumed => b.(responses := responses[view.key := row])
      case Completed => b.(completions := completions[view.key := row])
    }

    ghost predicate Indexed() { forall kind :: IndexOk(views, kind, Index(kind)) }
  }

  lemma IndexGrows(views: map<(nat, Kind), Projection>, kind: Kind, index: map<Key, nat>, row: nat, view: Projection)
    requires IndexOk(views, kind, index) && (row, kind) !in views && view.key !in index
    ensures IndexOk(views[(row, kind) := view], kind, index[view.key := row])
  {
  }

  lemma IndexStays(views: map<(nat, Kind), Projection>, kind: Kind, index: map<Key, nat>,
                   row: nat, other: Kind, view: Projection)
    requires IndexOk(views, kind, index) && kind != other
    ensures IndexOk(views[(row, other) := view], kind, index)
  {
  }

  lemma AddIndexes(b: Bound, row: nat, view: Projection)
    requires b.Indexed() && (row, view.Kind()) !in b.views && view.key !in b.Index(view.Kind())
    ensures b.Add(row, view).Indexed()
  {
    var after := b.Add(row, view);
    forall kind ensures IndexOk(after.views, kind, after.Index(kind)) {
      if kind == view.Kind() {
        IndexGrows(b.views, kind, b.Index(kind), row, view);
      } else {
        IndexStays(b.views, kind, b.Index(kind), row, view.Kind(), view);
      }
    }
  }

  /** Bind every projection to the row of its PRE sample.  Every projection is bound and nothing
      else, unless one fits no row or repeats another one's handshake or transaction. */
  method BindViews(events: seq<Event>, rows: seq<Row>, session: string) returns (ok: bool, b: Bound)
    requires forall i, j | 0 <= i < j < |rows| :: rows[i].preId < rows[j].preId
    ensures ok <==> ViewsBind(events, rows, session)
    ensures ok ==> b.Indexed() && ViewsRead(events, |events|, rows, b.views)
  {
    ok, b := false, Bound(map[], map[], map[], map[]);
    var at := IndexRows(rows);
    for n := 0 to |events|
      invariant !ok && b.Indexed() && ViewsRead(events, n, rows, b.views)
      invariant forall e | 0 <= e < n && events[e].View? :: BindsOne(events, rows, session, e)
    {
      if events[n].View? {
        var producer, view := events[n].producer, events[n].view;
        if producer >= n + 1 || producer !in at { return; }
        var row := at[producer];
        if !ViewFits(rows[row], view, session) { return; }
        if (row, view.Kind()) in b.views || view.key in b.Index(view.Kind()) {
          BoundTwice(events, rows, session, b, n, row);
          return;
        }
        BindsOneMore(events, rows, session, b, n, row);
        AddIndexes(b, row, view);
        AddReads(events, rows, session, b, n, row);
        b := b.Add(row, view);
      } else {
        ReadsLater(events, rows, b.views, n);
      }
    }
    ok := true;
    AllBind(events, rows, session);
  }

  /** Event `e` fits a row and shares nothing with an earlier one. */
  ghost predicate BindsOne(events: seq<Event>, rows: seq<Row>, session: string, e: nat)
    requires e < |events| && events[e].View?
  {
    && (exists i | 0 <= i < |rows| :: ViewOfRow(events, rows, session, e, i))
    && (forall d | 0 <= d < e && events[d].View? :: ViewsApart(events[d], events[e]))
  }

  lemma AllBind(events: seq<Event>, rows: seq<Row>, session: string)
    requires forall e | 0 <= e < |events| && events[e].View? :: BindsOne(events, rows, session, e)
    ensures ViewsBind(events, rows, session)
  {
    forall d, e | 0 <= d < e < |events| && events[d].View? && events[e].View?
      ensures ViewsApart(events[d], events[e])
    {
      assert BindsOne(events, rows, session, e);
    }
  }

  /** An occupied place or a known transaction means that an earlier projection shares it. */
  lemma BoundTwice(events: seq<Event>, rows: seq<Row>, session: string, b: Bound, n: nat, row: nat)
    requires n < |events| && events[n].View? && row < |rows| && rows[row].preId == events[n].producer
    requires b.Indexed() && ViewsRead(events, n, rows, b.views)
    requires (row, events[n].view.Kind()) in b.views || events[n].view.key in b.Index(events[n].view.Kind())
    ensures !ViewsBind(events, rows, session)
  {
    var kind, key := events[n].view.Kind(), events[n].view.key;
    var i := if (row, kind) in b.views then row else b.Index(kind)[key];
    assert IndexOk(b.views, kind, b.Index(kind));
    assert IsView(events, n, rows[i].preId, kind, b.views[(i, kind)]);
    var d :| 0 <= d < n && events[d].View? && events[d].producer == rows[i].preId
             && events[d].view == b.views[(i, kind)];
    assert !ViewsApart(events[d], events[n]);
  }

  lemma BindsOneMore(events: seq<Event>, rows: seq<Row>, session: string, b: Bound, n: nat, row: nat)
    requires n < |events| && events[n].View? && row < |rows| && ViewOfRow(events, rows, session, n, row)
    requires b.Indexed() && ViewsRead(events, n, rows, b.views)
    requires (row, events[n].view.Kind()) !in b.views && events[n].view.key !in b.Index(events[n].view.Kind())
    requires forall i, j | 0 <= i < j < |rows| :: rows[i].preId < rows[j].preId
    ensures BindsOne(events, rows, session, n)
  {
    forall d | 0 <= d < n && events[d].View? ensures ViewsApart(events[d], events[n]) {
      assert HasView(rows, b.views, events[d]);
      assert IndexOk(b.views, events[d].view.Kind(), b.Index(events[d].view.Kind()));
    }
  }

  lemma ReadsLater(events: seq<Event>, rows: seq<Row>, views: map<(nat, Kind), Projection>, n: nat)
    requires n < |events| && !events[n].View? && ViewsRead(events, n, rows, views)
    ensures ViewsRead(events, n + 1, rows, views)
  {
    forall i, kind | (i, kind) in views
      ensures i < |rows| && IsView(events, n + 1, rows[i].preId, kind, views[(i, kind)])
    {
      assert IsView(events, n, rows[i].preId, kind, views[(i, kind)]);
    }
  }

  lemma AddReads(events: seq<Event>, rows: seq<Row>, session: string, b: Bound, n: nat, row: nat)
    requires n < |events| && events[n].View? && row < |rows| && rows[row].preId == events[n].producer
    requires ViewsRead(events, n, rows, b.views) && (row, events[n].view.Kind()) !in b.views
    ensures ViewsRead(events, n + 1, rows, b.Add(row, events[n].view).views)
  {
    var view, after := events[n].view, b.Add(row, events[n].view).views;
    assert after == b.views[(row, view.Kind()) := view];
    forall i, kind | (i, kind) in after
      ensures i < |rows| && IsView(events, n + 1, rows[i].preId, kind, after[(i, kind)])
    {
      if (i, kind) != (row, view.Kind()) { assert IsView(events, n, rows[i].preId, kind, b.views[(i, kind)]); }
    }
    forall e | 0 <= e < n + 1 && events[e].View? ensures HasView(rows, after, events[e]) {
      if e < n { HasViewStill(rows, b.views, row, view, events[e]); }
    }
  }

  lemma HasViewStill(rows: seq<Row>, views: map<(nat, Kind), Projection>, row: nat, view: Projection, e: Event)
    requires e.View? && HasView(rows, views, e) && (row, view.Kind()) !in views
    ensures HasView(rows, views[(row, view.Kind()) := view], e)
  {
  }

  // ---------------------------------------------------------------- services

  /** What the first `n` events may hold. */
  ghost predicate ServicesOkTo(events: seq<Event>, n: nat, session: string, allowTerminal: bool) {
    && (forall e | 0 <= e < n && e < |events| && events[e].Served? ::
          ServiceOk(events[e].service, session, allowTerminal))
    && (forall e | 0 <= e < n && e < |events| && events[e].DeviceAccepted? ::
          AcceptanceOk(events[e].acceptance, session))
    && (forall d, e | 0 <= d < e < n && e < |events| && events[d].Served? && events[e].Served? ::
          events[d].service.key != events[e].service.key)
    && (forall d, e | 0 <= d < e < n && e < |events| && events[d].DeviceAccepted? && events[e].DeviceAccepted? ::
          events[d].acceptance.key != events[e].acceptance.key)
  }

  /** Everything filed so far, and nothing wrong so far. */
  ghost predicate Indexed(events: seq<Event>, n: nat, session: string, allowTerminal: bool, services: map<Key, Service>,
                          acceptances: map<Key, Acceptance>, poisons: set<Key>)
  {
    && n <= |events| && poisons == PoisonKeys(events, n) && ServicesOkTo(events, n, session, allowTerminal)
    && ServicesRead(events, n, services) && AcceptancesRead(events, n, acceptances)
  }

  /** Event `n` may stand where it is. */
  ghost predicate FreshEvent(events: seq<Event>, n: nat, session: string, allowTerminal: bool)
    requires n < |events|
  {
    && (events[n].Served? ==> FreshService(events, n, session, allowTerminal))
    && (events[n].DeviceAccepted? ==> FreshAcceptance(events, n, session))
  }

  /** Services and device acceptances by transaction: those of the journal and no others.  One
      poisoned write is allowed, and demanded, when the run may end in a refusal. */
  method IndexServices(events: seq<Event>, session: string, allowTerminal: bool)
    returns (ok: bool, services: map<Key, Service>, acceptances: map<Key, Acceptance>)
    ensures ok <==> ServicesOk(events, session, allowTerminal)
    ensures ok ==> ServicesRead(events, |events|, services) && AcceptancesRead(events, |events|, acceptances)
  {
    ok, services, acceptances := false, map[], map[];
    var poisons: set<Key> := {};
    for n := 0 to |events|
      invariant !ok && Indexed(events, n, session, allowTerminal, services, acceptances, poisons)
    {
      var fits;
      fits, services, acceptances, poisons :=
        IndexOne(events, n, session, allowTerminal, services, acceptances, poisons);
      if !fits {
        StaleIsWrong(events, n, session, allowTerminal);
        return;
      }
    }
    ok := |poisons| == (if allowTerminal then 1 else 0);
    OkToTheEnd(events, session, allowTerminal);
  }

  lemma StaleIsWrong(events: seq<Event>, n: nat, session: string, allowTerminal: bool)
    requires n < |events| && !FreshEvent(events, n, session, allowTerminal)
    ensures !ServicesOk(events, session, allowTerminal)
  {
  }

  lemma OkToTheEnd(events: seq<Event>, session: string, allowTerminal: bool)
    requires ServicesOkTo(events, |events|, session, allowTerminal)
    ensures ServicesOk(events, session, allowTerminal)
            <==> |PoisonKeys(events, |events|)| == (if allowTerminal then 1 else 0)
  {
  }

  method IndexOne(events: seq<Event>, n: nat, session: string, allowTerminal: bool, services: map<Key, Service>,
                  acceptances: map<Key, Acceptance>, poisons: set<Key>)
    returns (ok: bool, services': map<Key, Service>, acceptances': map<Key, Acceptance>, poisons': set<Key>)
    requires n < |events| && Indexed(events, n, session, allowTerminal, services, acceptances, poisons)
    ensures ok <==> FreshEvent(events, n, session, allowTerminal)
    ensures ok ==> Indexed(events, n + 1, session, allowTerminal, services', acceptances', poisons')
  {
    ok, services', acceptances', poisons' := true, services, acceptances, poisons;
    PoisonsOneMore(events, n);
    if events[n].Served? {
      ok, services', poisons' := FileService(events, n, session, allowTerminal, services, poisons);
      AcceptancesLater(events, n, acceptances);
    } else if events[n].DeviceAccepted? {
      ok, acceptances' := FileAcceptance(events, n, session, acceptances);
      ServicesLater(events, n, services);
    } else {
      ServicesLater(events, n, services);
      AcceptancesLater(events, n, acceptances);
    }
    if ok { OkOneMore(events, n, session, allowTerminal); }
  }

  /** Files the service of event `n`, if it may stand here and none before it has its transaction. */
  method FileService(events: seq<Event>, n: nat, session: string, allowTerminal: bool, services: map<Key, Service>,
                     poisons: set<Key>)
    returns (ok: bool, more: map<Key, Service>, poisoned: set<Key>)
    requires n < |events| && events[n].Served? && ServicesRead(events, n, services) && poisons == PoisonKeys(events, n)
    ensures ok <==> FreshService(events, n, session, allowTerminal)
    ensures ok ==> ServicesRead(events, n + 1, more) && poisoned == PoisonKeys(events, n + 1)
  {
    ok, more, poisoned := false, services, poisons;
    var s := events[n].service;
    if !ServiceOk(s, session, allowTerminal) { return; }
    if s.key in poisons || s.key in services {
      ServedTwice(events, n, services);
      return;
    }
    ServesFirst(events, n, services);
    PoisonsOneMore(events, n);
    if InMemory(s) {
      ServicesOneMore(events, n, services, s);
      more := services[s.key := s.(id := n + 1)];
    } else {
      ServicesLater(events, n, services);
      poisoned := poisons + {s.key};
    }
    ok := true;
  }

  method FileAcceptance(events: seq<Event>, n: nat, session: string, acceptances: map<Key, Acceptance>)
    returns (ok: bool, more: map<Key, Acceptance>)
    requires n < |events| && events[n].DeviceAccepted? && AcceptancesRead(events, n, acceptances)
    ensures ok <==> FreshAcceptance(events, n, session)
    ensures ok ==> AcceptancesRead(events, n + 1, more)
  {
    ok, more := false, acceptances;
    var m := events[n].acceptance;
    if !AcceptanceOk(m, session) { return; }
    if m.key in acceptances {
      AcceptedTwice(events, n, acceptances);
      return;
    }
    AcceptancesOneMore(events, n, acceptances);
    ok, more := true, acceptances[m.key := m.(id := n + 1)];
  }

  ghost predicate FreshService(events: seq<Event>, n: nat, session: string, allowTerminal: bool)
    requires n < |events| && events[n].Served?
  {
    && ServiceOk(events[n].service, session, allowTerminal)
    && forall d | 0 <= d < n && events[d].Served? :: events[d].service.key != events[n].service.key
  }

  ghost predicate FreshAcceptance(events: seq<Event>, n: nat, session: string)
    requires n < |events| && events[n].DeviceAccepted?
  {
    && AcceptanceOk(events[n].acceptance, session)
    && forall d | 0 <= d < n && events[d].DeviceAccepted? :: events[d].acceptance.key != events[n].acceptance.key
  }

  lemma OkOneMore(events: seq<Event>, n: nat, session: string, allowTerminal: bool)
    requires n < |events| && ServicesOkTo(events, n, session, allowTerminal)
    requires events[n].Served? ==> FreshService(events, n, session, allowTerminal)
    requires events[n].DeviceAccepted? ==> FreshAcceptance(events, n, session)
    ensures ServicesOkTo(events, n + 1, session, allowTerminal)
  {
  }

  lemma PoisonsOneMore(events: seq<Event>, n: nat)
    requires n < |events|
    ensures PoisonKeys(events, n + 1)
            == PoisonKeys(events, n)
               + if events[n].Served? && !InMemory(events[n].service) then {events[n].service.key} else {}
  {
  }

  lemma ServedTwice(events: seq<Event>, n: nat, services: map<Key, Service>)
    requires n < |events| && events[n].Served? && ServicesRead(events, n, services)
    requires events[n].service.key in services || events[n].service.key in PoisonKeys(events, n)
    ensures exists d | 0 <= d < n :: events[d].Served? && events[d].service.key == events[n].service.key
  {
    var key := events[n].service.key;
    if key in services {
      var d :| 0 <= d < n && IsService(events, d, services[key]);
      assert events[d].Served? && events[d].service.key == key;
    }
  }

  lemma AcceptedTwice(events: seq<Event>, n: nat, acceptances: map<Key, Acceptance>)
    requires n < |events| && events[n].DeviceAccepted? && AcceptancesRead(events, n, acceptances)
    requires events[n].acceptance.key in acceptances
    ensures exists d | 0 <= d < n :: events[d].DeviceAccepted? && events[d].acceptance.key == events[n].acceptance.key
  {
    var key := events[n].acceptance.key;
    var d :| 0 <= d < n && IsAcceptance(events, d, acceptances[key]);
    assert events[d].DeviceAccepted? && events[d].acceptance.key == key;
  }

  lemma ServicesLater(events: seq<Event>, n: nat, services: map<Key, Service>)
    requires n < |events| && ServicesRead(events, n, services)
    requires events[n].Served? ==> !InMemory(events[n].service)
    ensures ServicesRead(events, n + 1, services)
  {
  }

  /** Event `n` serves a transaction that none before it did. */
  lemma ServesFirst(events: seq<Event>, n: nat, services: map<Key, Service>)
    requires n < |events| && events[n].Served? && ServicesRead(events, n, services)
    requires events[n].service.key !in services && events[n].service.key !in PoisonKeys(events, n)
    ensures forall d | 0 <= d < n && events[d].Served? :: events[d].service.key != events[n].service.key
  {
  }

  lemma ServicesOneMore(events: seq<Event>, n: nat, services: map<Key, Service>, s: Service)
    requires n < |events| && events[n].Served? && ServicesRead(events, n, services) && s == events[n].service
    requires s.key !in services && InMemory(s)
    ensures ServicesRead(events, n + 1, services[s.key := s.(id := n + 1)])
  {
    assert IsService(events, n, s.(id := n + 1));
  }

  lemma AcceptancesLater(events: seq<Event>, n: nat, acceptances: map<Key, Acceptance>)
    requires n < |events| && !events[n].DeviceAccepted? && AcceptancesRead(events, n, acceptances)
    ensures AcceptancesRead(events, n + 1, acceptances)
  {
  }

  lemma AcceptancesOneMore(events: seq<Event>, n: nat, acceptances: map<Key, Acceptance>)
    requires n < |events| && events[n].DeviceAccepted? && AcceptancesRead(events, n, acceptances)
    requires events[n].acceptance.key !in acceptances
    ensures forall d | 0 <= d < n && events[d].DeviceAccepted? :: events[d].acceptance.key != events[n].acceptance.key
    ensures var m := events[n].acceptance; AcceptancesRead(events, n + 1, acceptances[m.key := m.(id := n + 1)])
  {
    assert IsAcceptance(events, n, events[n].acceptance.(id := n + 1));
  }
}
