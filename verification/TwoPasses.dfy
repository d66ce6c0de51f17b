/** The two passes agree: on a journal the first pass accepts, the second rebuilds the same
    transfers from the same rows, and what it still checks is exactly `Extra`. */
module TwoPasses {
  import opened TraceJournal
  import opened Replay
  import opened SerialRun
  import opened SerialTheorem
  import opened SecondPass
  import opened Sequences

  lemma TypedFromOk(r: Records)
    requires RecordsOk(r)
    ensures RecordsTyped(r)
  {
  }

  // ---------------------------------------------------------------- where the views sit

  function KeyOf(r: Records, ts: seq<Transfer>, k: nat): Key
    requires k < |ts| && (ts[k].accept, Accepted) in r.views
  {
    r.views[(ts[k].accept, Accepted)].key
  }

  /** A serial run places every view; `n` transfers have the keys numbered 1 to `n`. */
  lemma ViewAt(r: Records, ts: seq<Transfer>, k: nat)
    requires IsSerialRun(r, ts) && k < |ts|
    ensures InRows(r, ts[k])
    ensures (ts[k].accept, Accepted) in r.views && (ts[k].response, Consumed) in r.views
    ensures KeyOf(r, ts, k) in r.services && KeyOf(r, ts, k).sequence == k + 1
  {
  }

  lemma AcceptRow(ts: seq<Transfer>, refused: bool, a: nat) returns (k: nat)
    requires (a, Accepted) in ViewsOf(ts, refused)
    ensures k < |ts| && ts[k].accept == a
  {
    k :| 0 <= k < |ts| && (ts[k].accept, Accepted) == (a, Accepted);
  }

  lemma ResponseRow(ts: seq<Transfer>, refused: bool, p: nat) returns (k: nat)
    requires (p, Consumed) in ViewsOf(ts, refused)
    ensures k < |ts| && ts[k].response == p
  {
    k :| 0 <= k < |ts| && (ts[k].response, Consumed) == (p, Consumed);
  }

  lemma CompletionRow(ts: seq<Transfer>, refused: bool, c: nat) returns (k: nat)
    requires (c, Completed) in ViewsOf(ts, refused)
    ensures k < |ts| - (if refused then 1 else 0) && ts[k].End() == c
  {
    k :| 0 <= k < |ts| - (if refused then 1 else 0) && (ts[k].End(), Completed) == (c, Completed);
  }

  /** The requests in event order are the transfers in order. */
  lemma RequestsAre(r: Records, ts: seq<Transfer>)
    requires r.views.Keys == ViewsOf(ts, r.failure.Some?) && Serial(ts)
    requires forall k | 0 <= k < |ts| :: InRows(r, ts[k])
    ensures Requests(r, |r.rows|) == seq(|ts|, k requires 0 <= k < |ts| => ts[k].accept)
  {
    var rows := Requests(r, |r.rows|);
    var taken := seq(|ts|, k requires 0 <= k < |ts| => ts[k].accept);
    forall a | a in rows ensures a in taken {
      var k := AcceptRow(ts, r.failure.Some?, a);
      assert taken[k] == a;
    }
    forall a | a in taken ensures a in rows {
      var k :| 0 <= k < |ts| && ts[k].accept == a;
      assert (ts[k].accept, Accepted) in ViewsOf(ts, r.failure.Some?);
      assert InRows(r, ts[k]);
    }
    forall i, j | 0 <= i < j < |taken| ensures taken[i] < taken[j] {
      assert ts[i].End() < ts[j].accept && ts[i].accept < ts[i].response;
    }
    SameIncreasing(rows, taken);
  }

  // ---------------------------------------------------------------- what the second pass adds

  /** Requirements on transfer `k` that the first pass does not make. */
  ghost predicate Extra(r: Records, ts: seq<Transfer>, k: nat)
    requires k < |ts| && InRows(r, ts[k]) && (ts[k].accept, Accepted) in r.views && KeyOf(r, ts, k) in r.services
  {
    var t, key := ts[k], KeyOf(r, ts, k);
    && key.component == "cpu"
    && ServiceChecks(r, r.rows[t.accept], key, r.services[key])
    && (t.response, Consumed) in r.views && r.views[(t.response, Consumed)].key == key
    && (!Refused(r, ts, k) ==> (t.End(), Completed) in r.views && r.views[(t.End(), Completed)].key == key)
    && r.rows[t.End()].preId > r.rows[t.response].postId
  }

  /** The join the second pass should make for transfer `k`. */
  predicate JoinIs(r: Records, ts: seq<Transfer>, k: nat, j: Join)
    requires k < |ts|
  {
    && j.accept == ts[k].accept && j.response == ts[k].response && j.end == ts[k].End()
    && j.completed == !Refused(r, ts, k)
    && (ts[k].accept, Accepted) in r.views && j.key == KeyOf(r, ts, k)
    && j.key in r.services && j.service == r.services[j.key] && j.faults == FaultsFor(r.faults, j.key)
  }

  lemma RefusedIsLast(r: Records, ts: seq<Transfer>, k: nat)
    requires IsSerialRun(r, ts) && k < |ts| && r.failure.Some? && ts[k].End() == |r.rows| - 1
    ensures Refused(r, ts, k)
  {
  }

  /** The marks a serial run leaves for the second pass: the step command that hears answer
      `k` says `k + 1`, and completion `k` names the scope that took request `k`. */
  ghost predicate MarkedAt(r: Records, ts: seq<Transfer>, k: nat)
    requires k < |ts|
  {
    && InRows(r, ts[k])
    && r.rows[ts[k].response].producer in r.commands
    && r.commands[r.rows[ts[k].response].producer].rspSequence == k + 1
    && (!Refused(r, ts, k) ==>
          && (ts[k].End(), Completed) in r.views && r.views[(ts[k].End(), Completed)].CompletedView?
          && r.views[(ts[k].End(), Completed)].acceptedScope == r.rows[ts[k].accept].scope)
  }

  ghost predicate Marked(r: Records, ts: seq<Transfer>) { forall k | 0 <= k < |ts| :: MarkedAt(r, ts, k) }

  lemma SerialIsMarked(r: Records, ts: seq<Transfer>)
    requires IsSerialRun(r, ts)
    ensures Marked(r, ts)
  {
  }

  /** The answer found under transfer `k`'s key is the answer the replay heard: the sequence
      number in the step command leaves no other row. */
  lemma ResponseIsOwn(r: Records, ts: seq<Transfer>, k: nat, p: nat)
    requires Marked(r, ts) && r.views.Keys == ViewsOf(ts, r.failure.Some?)
    requires k < |ts| && (p, Consumed) in r.views && p < |r.rows|
    requires r.rows[p].producer in r.commands && r.commands[r.rows[p].producer].rspSequence == k + 1
    ensures p == ts[k].response
  {
    var j := ResponseRow(ts, r.failure.Some?, p);
    assert MarkedAt(r, ts, j);
  }

  /** The completion found under transfer `k`'s key is its own: it names the accepting scope. */
  lemma CompletionIsOwn(r: Records, ts: seq<Transfer>, k: nat, c: nat)
    requires RowsOk(r.rows, r.failure) && Marked(r, ts) && r.views.Keys == ViewsOf(ts, r.failure.Some?)
    requires Serial(ts) && k < |ts| && (c, Completed) in r.views
    requires InRows(r, ts[k]) && r.views[(c, Completed)].CompletedView?
    requires r.views[(c, Completed)].acceptedScope == r.rows[ts[k].accept].scope
    ensures c == ts[k].End() && !Refused(r, ts, k)
  {
    var j := CompletionRow(ts, r.failure.Some?, c);
    assert MarkedAt(r, ts, j);
    assert ts[j].accept == ts[k].accept;
    SameStart(ts, j, k);
  }

  lemma SameStart(ts: seq<Transfer>, j: nat, k: nat)
    requires Serial(ts) && j < |ts| && k < |ts| && ts[j].accept == ts[k].accept
    ensures j == k
  {
  }

  /** What a successful join has established, part by part. */
  lemma JoinParts(r: Records, a: nat, n: nat)
    requires RecordsTyped(r) && (a, Accepted) in r.views && a < |r.rows| && JoinFor(r, a, n).Some?
    ensures var key := r.views[(a, Accepted)].key;
            && KeyChecks(key, n) && key in r.services && ServiceChecks(r, r.rows[a], key, r.services[key])
            && key in r.responses
            && var p := r.responses[key];
            && (p, Consumed) in r.views && p < |r.rows|
            && r.rows[p].producer in r.commands && r.commands[r.rows[p].producer].rspSequence == n
            && (key in r.completions ==>
                  && var c := r.completions[key];
                  && (c, Completed) in r.views && r.views[(c, Completed)].CompletedView? && c < |r.rows|
                  && r.views[(c, Completed)].acceptedScope == r.rows[a].scope
                  && r.rows[c].preId > r.rows[p].postId)
            && (key !in r.completions ==>
                  && r.failure.Some? && TerminalChecks(r.rows[p], r.rows[|r.rows| - 1]))
            && var j := JoinFor(r, a, n).value;
            && j.key == key && j.service == r.services[key] && j.accept == a && j.response == p
            && j.faults == FaultsFor(r.faults, key) && j.completed == (key in r.completions)
            && j.end == (if key in r.completions then r.completions[key] else |r.rows| - 1)
  {
  }

  lemma ExtraFromJoin(r: Records, ts: seq<Transfer>, k: nat)
    requires RecordsTyped(r) && IndexOk(r.views, Consumed, r.responses) && IndexOk(r.views, Completed, r.completions)
    requires k < |ts| && InRows(r, ts[k]) && (ts[k].accept, Accepted) in r.views
    requires JoinFor(r, ts[k].accept, k + 1).Some?
    requires var key := KeyOf(r, ts, k);
             && (key in r.responses ==> r.responses[key] == ts[k].response)
             && (key in r.completions ==> r.completions[key] == ts[k].End() && !Refused(r, ts, k))
             && (key !in r.completions ==> ts[k].End() == |r.rows| - 1 && Refused(r, ts, k))
    ensures KeyOf(r, ts, k) in r.services && Extra(r, ts, k)
    ensures JoinIs(r, ts, k, JoinFor(r, ts[k].accept, k + 1).value)
  {
  }

  lemma JoinNeedsExtra(r: Records, ts: seq<Transfer>, k: nat)
    requires RecordsOk(r) && RecordsTyped(r) && IsSerialRun(r, ts) && k < |ts|
    requires (ts[k].accept, Accepted) in r.views && JoinFor(r, ts[k].accept, k + 1).Some?
    ensures InRows(r, ts[k]) && KeyOf(r, ts, k) in r.services && Extra(r, ts, k)
    ensures JoinIs(r, ts, k, JoinFor(r, ts[k].accept, k + 1).value)
  {
    ViewAt(r, ts, k);
    var key := KeyOf(r, ts, k);
    JoinParts(r, ts[k].accept, k + 1);
    SerialIsMarked(r, ts);
    ResponseIsOwn(r, ts, k, r.responses[key]);
    if key in r.completions {
      CompletionIsOwn(r, ts, k, r.completions[key]);
    } else {
      LastTick(r, ts[k]);
      RefusedIsLast(r, ts, k);
    }
    ExtraFromJoin(r, ts, k);
  }

  lemma LastTick(r: Records, t: Transfer)
    requires RowsOk(r.rows, r.failure) && InRows(r, t)
    requires TerminalChecks(r.rows[t.response], r.rows[|r.rows| - 1])
    ensures t.End() == |r.rows| - 1
  {
  }

  // ---------------------------------------------------------------- the equivalence

  ghost predicate ExtraAt(r: Records, ts: seq<Transfer>, k: nat)
    requires k < |ts|
  {
    && InRows(r, ts[k]) && (ts[k].accept, Accepted) in r.views && KeyOf(r, ts, k) in r.services
    && Extra(r, ts, k)
  }

  ghost predicate AllExtra(r: Records, ts: seq<Transfer>) {
    forall k {:trigger ExtraAt(r, ts, k)} | 0 <= k < |ts| :: ExtraAt(r, ts, k)
  }

  /** Transfer `k`'s three views carry one key, and it is numbered `k + 1`. */
  ghost predicate KeyedAt(r: Records, ts: seq<Transfer>, k: nat)
    requires k < |ts|
  {
    && (ts[k].accept, Accepted) in r.views && KeyOf(r, ts, k).sequence == k + 1
    && (ts[k].response, Consumed) in r.views && r.views[(ts[k].response, Consumed)].key == KeyOf(r, ts, k)
    && (!Refused(r, ts, k) ==>
          (ts[k].End(), Completed) in r.views && r.views[(ts[k].End(), Completed)].key == KeyOf(r, ts, k))
  }

  ghost predicate Keyed(r: Records, ts: seq<Transfer>) { forall k | 0 <= k < |ts| :: KeyedAt(r, ts, k) }

  lemma ExtraIsKeyed(r: Records, ts: seq<Transfer>)
    requires IsSerialRun(r, ts) && AllExtra(r, ts)
    ensures Keyed(r, ts)
  {
    forall k | 0 <= k < |ts| ensures KeyedAt(r, ts, k) {
      assert ExtraAt(r, ts, k);
      ViewAt(r, ts, k);
    }
  }

  lemma CompletionOwner(r: Records, ts: seq<Transfer>, key: Key) returns (j: nat)
    requires IndexOk(r.views, Completed, r.completions) && r.views.Keys == ViewsOf(ts, r.failure.Some?)
    requires Keyed(r, ts) && key in r.completions
    ensures j < |ts| && !Refused(r, ts, j) && r.completions[key] == ts[j].End() && key.sequence == j + 1
  {
    j := CompletionRow(ts, r.failure.Some?, r.completions[key]);
    assert KeyedAt(r, ts, j);
  }

  /** The lookups by key land on transfer `k`'s own rows. */
  lemma LookupsLand(r: Records, ts: seq<Transfer>, k: nat)
    requires IndexOk(r.views, Consumed, r.responses) && IndexOk(r.views, Completed, r.completions)
    requires r.views.Keys == ViewsOf(ts, r.failure.Some?) && Keyed(r, ts) && k < |ts|
    ensures KeyedAt(r, ts, k)
    ensures var key := KeyOf(r, ts, k);
            && key in r.responses && r.responses[key] == ts[k].response
            && (if Refused(r, ts, k) then key !in r.completions
                else key in r.completions && r.completions[key] == ts[k].End())
  {
    assert KeyedAt(r, ts, k);
    var key := KeyOf(r, ts, k);
    if key in r.completions { var j := CompletionOwner(r, ts, key); }
  }

  /** Transfer `k` passes every requirement the first pass already made of it. */
  lemma ChecksHold(r: Records, ts: seq<Transfer>, k: nat)
    requires RecordsOk(r) && IsSerialRun(r, ts) && k < |ts| && InRows(r, ts[k])
    requires (ts[k].accept, Accepted) in r.views && KeyOf(r, ts, k) in r.services
    requires Extra(r, ts, k)
    ensures var t, key := ts[k], KeyOf(r, ts, k);
            var s := r.services[key];
            && KeyChecks(key, k + 1) && RequestChecks(r.rows[t.accept])
            && Delivered(r.faults, s).Some? && ServiceResponse(s).Some?
            && r.views[(t.response, Consumed)].ConsumedView?
            && ResponseChecks(r, r.rows[t.accept], r.rows[t.response], key, s,
                              Delivered(r.faults, s).value, r.views[(t.response, Consumed)])
  {
    assert Joined(r, ts[k], k + 1, Refused(r, ts, k));
    HeldThroughout(r, ts, k, ts[k].response);
    assert RawHandshake(r.rows[ts[k].accept], Accepted);
    assert RawHandshake(r.rows[ts[k].response], Consumed);
  }

  lemma EndChecks(r: Records, t: Transfer, n: nat, refused: bool, s: Service)
    requires RowsOk(r.rows, r.failure) && InRows(r, t) && Joined(r, t, n, refused)
    requires s == r.services[r.views[(t.accept, Accepted)].key]
    requires Stable(r.rows[t.End()].pre, r.rows[t.accept].pre)
    requires r.rows[t.End()].preId > r.rows[t.response].postId
    requires !refused ==> CompletedNow(r.rows[t.End()])
    ensures if refused then TerminalChecks(r.rows[t.response], r.rows[|r.rows| - 1])
            else
              && r.views[(t.End(), Completed)].CompletedView?
              && CompletionChecks(r.rows[t.accept], r.rows[t.response], r.rows[t.End()],
                                  Delivered(r.faults, s).value, r.views[(t.End(), Completed)])
  {
  }

  /** A join is built as soon as its parts are there. */
  lemma JoinBuilt(r: Records, t: Transfer, n: nat, refused: bool, key: Key)
    requires RecordsTyped(r) && InRows(r, t) && (t.accept, Accepted) in r.views
    requires key == r.views[(t.accept, Accepted)].key && KeyChecks(key, n) && RequestChecks(r.rows[t.accept])
    requires key in r.services && ServiceChecks(r, r.rows[t.accept], key, r.services[key])
    requires key in r.responses && r.responses[key] == t.response && Delivered(r.faults, r.services[key]).Some?
    requires ResponseChecks(r, r.rows[t.accept], r.rows[t.response], key, r.services[key],
                            Delivered(r.faults, r.services[key]).value, r.views[(t.response, Consumed)])
    requires !refused ==>
               && key in r.completions && r.completions[key] == t.End()
               && CompletionChecks(r.rows[t.accept], r.rows[t.response], r.rows[t.End()],
                                   Delivered(r.faults, r.services[key]).value, r.views[(t.End(), Completed)])
    requires refused ==>
               r.failure.Some? && key !in r.completions && TerminalChecks(r.rows[t.response], r.rows[|r.rows| - 1])
    ensures JoinFor(r, t.accept, n).Some?
  {
  }

  lemma ExtraGivesJoin(r: Records, ts: seq<Transfer>, k: nat)
    requires RecordsOk(r) && RecordsTyped(r) && IsSerialRun(r, ts) && AllExtra(r, ts) && k < |ts|
    ensures (ts[k].accept, Accepted) in r.views && JoinFor(r, ts[k].accept, k + 1).Some?
  {
    ExtraIsKeyed(r, ts);
    LookupsLand(r, ts, k);
    var t, key, refused := ts[k], KeyOf(r, ts, k), Refused(r, ts, k);
    assert ExtraAt(r, ts, k);
    ChecksHold(r, ts, k);
    HeldThroughout(r, ts, k, t.End());
    if !refused { assert RawHandshake(r.rows[t.End()], Completed); }
    assert Joined(r, t, k + 1, refused);
    EndChecks(r, t, k + 1, refused, r.services[key]);
    JoinBuilt(r, t, k + 1, refused, key);
  }

  // ---------------------------------------------------------------- nothing left over

  function Keys(r: Records, ts: seq<Transfer>, n: nat): seq<Key>
    requires n <= |ts| && forall k | 0 <= k < |ts| :: (ts[k].accept, Accepted) in r.views
  {
    seq(n, k requires 0 <= k < n => KeyOf(r, ts, k))
  }

  function Members(keys: seq<Key>): set<Key> { set key | key in keys }

  lemma {:induction false} DistinctCount(keys: seq<Key>)
    requires forall i, j | 0 <= i < j < |keys| :: keys[i] != keys[j]
    ensures |Members(keys)| == |keys|
  {
    if keys != [] {
      var init, last := keys[..|keys| - 1], keys[|keys| - 1];
      DistinctCount(init);
      assert Members(keys) == Members(init) + {last};
      assert last !in init;
    }
  }

  /** Transfers that completed rather than being refused. */
  function DoneCount(r: Records, ts: seq<Transfer>): int { |ts| - (if r.failure.Some? then 1 else 0) }

  lemma KeyedViews(r: Records, ts: seq<Transfer>)
    requires Keyed(r, ts)
    ensures forall k | 0 <= k < |ts| :: (ts[k].accept, Accepted) in r.views
  {
    forall k | 0 <= k < |ts| ensures (ts[k].accept, Accepted) in r.views { assert KeyedAt(r, ts, k); }
  }

  lemma KeyCount(r: Records, ts: seq<Transfer>, n: nat)
    requires Keyed(r, ts) && n <= |ts| && forall k | 0 <= k < |ts| :: (ts[k].accept, Accepted) in r.views
    ensures |Members(Keys(r, ts, n))| == n
  {
    var keys := Keys(r, ts, n);
    forall i, j | 0 <= i < j < |keys| ensures keys[i] != keys[j] {
      assert KeyedAt(r, ts, i) && KeyedAt(r, ts, j);
    }
    DistinctCount(keys);
  }

  lemma AcceptedKeys(r: Records, ts: seq<Transfer>)
    requires IndexOk(r.views, Accepted, r.accepted) && r.views.Keys == ViewsOf(ts, r.failure.Some?)
    requires forall k | 0 <= k < |ts| :: (ts[k].accept, Accepted) in r.views
    ensures r.accepted.Keys == Members(Keys(r, ts, |ts|))
  {
    var keys := Keys(r, ts, |ts|);
    forall key ensures key in r.accepted <==> key in keys {
      if key in r.accepted { var k := AcceptRow(ts, r.failure.Some?, r.accepted[key]); assert keys[k] == key; }
    }
  }

  lemma ResponseKeys(r: Records, ts: seq<Transfer>)
    requires IndexOk(r.views, Consumed, r.responses) && r.views.Keys == ViewsOf(ts, r.failure.Some?)
    requires Keyed(r, ts) && forall k | 0 <= k < |ts| :: (ts[k].accept, Accepted) in r.views
    ensures r.responses.Keys == Members(Keys(r, ts, |ts|))
  {
    var keys := Keys(r, ts, |ts|);
    forall key ensures key in r.responses <==> key in keys {
      if key in r.responses {
        var k := ResponseRow(ts, r.failure.Some?, r.responses[key]);
        assert KeyedAt(r, ts, k) && keys[k] == key;
      }
      if key in keys { var k :| 0 <= k < |ts| && keys[k] == key; assert KeyedAt(r, ts, k); }
    }
  }

  lemma CompletionKeys(r: Records, ts: seq<Transfer>)
    requires IndexOk(r.views, Completed, r.completions) && r.views.Keys == ViewsOf(ts, r.failure.Some?)
    requires Keyed(r, ts) && forall k | 0 <= k < |ts| :: (ts[k].accept, Accepted) in r.views
    requires DoneCount(r, ts) >= 0
    ensures r.completions.Keys == Members(Keys(r, ts, DoneCount(r, ts)))
  {
    var keys := Keys(r, ts, DoneCount(r, ts));
    forall key ensures key in r.completions <==> key in keys {
      if key in r.completions {
        var k := CompletionRow(ts, r.failure.Some?, r.completions[key]);
        assert KeyedAt(r, ts, k) && keys[k] == key;
      }
      if key in keys { var k :| 0 <= k < |keys| && keys[k] == key; assert KeyedAt(r, ts, k); }
    }
  }

  /** One request view, one answer view and (the refusal apart) one completion view per transfer. */
  lemma OnePerTransfer(r: Records, ts: seq<Transfer>)
    requires RecordsOk(r) && r.views.Keys == ViewsOf(ts, r.failure.Some?) && Keyed(r, ts)
    requires r.failure.Some? ==> |ts| > 0
    ensures forall k | 0 <= k < |ts| :: (ts[k].accept, Accepted) in r.views
    ensures r.accepted.Keys == Members(Keys(r, ts, |ts|)) == r.responses.Keys
    ensures r.completions.Keys == Members(Keys(r, ts, DoneCount(r, ts)))
    ensures |r.accepted| == |r.responses| == |ts| && |r.completions| == DoneCount(r, ts)
  {
    KeyedViews(r, ts);
    AcceptedKeys(r, ts);
    ResponseKeys(r, ts);
    CompletionKeys(r, ts);
    KeyCount(r, ts, |ts|);
    KeyCount(r, ts, DoneCount(r, ts));
  }

  /** Whole-journal requirements that only the second pass makes. */
  ghost predicate NoStrays(r: Records, ts: seq<Transfer>)
    requires forall k | 0 <= k < |ts| :: (ts[k].accept, Accepted) in r.views
  {
    && r.services.Keys == Members(Keys(r, ts, |ts|))
    && r.acceptances.Keys == (set key | key in r.services && r.services[key].MmioDelivery?)
    && (forall n | 0 <= n < |r.faults| :: r.faults[n].key in Members(Keys(r, ts, |ts|)))
  }

  ghost predicate JoinsAre(r: Records, ts: seq<Transfer>, joins: seq<Join>) {
    |joins| == |ts| && forall k | 0 <= k < |ts| :: JoinIs(r, ts, k, joins[k])
  }

  lemma JoinKeysAre(r: Records, ts: seq<Transfer>, joins: seq<Join>)
    requires forall k | 0 <= k < |ts| :: (ts[k].accept, Accepted) in r.views
    requires JoinsAre(r, ts, joins) && DoneCount(r, ts) >= 0
    ensures JoinKeys(joins) == Members(Keys(r, ts, |ts|))
    ensures DoneKeys(joins) == Members(Keys(r, ts, DoneCount(r, ts)))
  {
    var keys, done := Keys(r, ts, |ts|), Keys(r, ts, DoneCount(r, ts));
    forall k | 0 <= k < |ts| ensures joins[k].key == keys[k] && (joins[k].completed <==> k < |done|) {
      assert JoinIs(r, ts, k, joins[k]);
    }
    forall key ensures key in keys <==> key in JoinKeys(joins) {
      if key in keys { var k :| 0 <= k < |keys| && keys[k] == key; assert joins[k].key == key; }
    }
    forall key ensures key in done <==> key in DoneKeys(joins) {
      if key in done { var k :| 0 <= k < |done| && done[k] == key; assert joins[k].key == key; }
      if key in DoneKeys(joins) {
        var k :| 0 <= k < |joins| && joins[k].completed && joins[k].key == key;
        assert done[k] == key;
      }
    }
  }

  lemma FaultUsedIff(r: Records, ts: seq<Transfer>, joins: seq<Join>, n: nat)
    requires forall k | 0 <= k < |ts| :: (ts[k].accept, Accepted) in r.views
    requires JoinsAre(r, ts, joins) && n < |r.faults|
    ensures FaultUsed(joins, n) <==> r.faults[n].key in JoinKeys(joins)
  {
  }

  lemma FaultsUsedIff(r: Records, ts: seq<Transfer>, joins: seq<Join>)
    requires forall k | 0 <= k < |ts| :: (ts[k].accept, Accepted) in r.views
    requires JoinsAre(r, ts, joins)
    ensures forall n | 0 <= n < |r.faults| :: FaultUsed(joins, n) <==> r.faults[n].key in JoinKeys(joins)
  {
    forall n | 0 <= n < |r.faults| ensures FaultUsed(joins, n) <==> r.faults[n].key in JoinKeys(joins) {
      FaultUsedIff(r, ts, joins, n);
    }
  }

  lemma NothingLeftIff(r: Records, ts: seq<Transfer>, joins: seq<Join>)
    requires RecordsOk(r) && r.views.Keys == ViewsOf(ts, r.failure.Some?) && Keyed(r, ts)
    requires r.failure.Some? ==> |ts| > 0
    requires forall k | 0 <= k < |ts| :: (ts[k].accept, Accepted) in r.views
    requires JoinsAre(r, ts, joins)
    ensures NothingLeft(r, joins) <==> NoStrays(r, ts)
  {
    OnePerTransfer(r, ts);
    JoinKeysAre(r, ts, joins);
    FaultsUsedIff(r, ts, joins);
    LeftIff(r, ts, joins, Members(Keys(r, ts, |ts|)));
  }

  lemma LeftIff(r: Records, ts: seq<Transfer>, joins: seq<Join>, keys: set<Key>)
    requires forall k | 0 <= k < |ts| :: (ts[k].accept, Accepted) in r.views
    requires keys == Members(Keys(r, ts, |ts|)) == JoinKeys(joins) == r.responses.Keys
    requires DoneKeys(joins) == r.completions.Keys
    requires |r.accepted| == |r.responses| == |r.completions| + (if r.failure.Some? then 1 else 0)
    requires forall n | 0 <= n < |r.faults| :: FaultUsed(joins, n) <==> r.faults[n].key in JoinKeys(joins)
    ensures NothingLeft(r, joins) <==> NoStrays(r, ts)
  {
  }

  // ---------------------------------------------------------------- main results

  /** A rebuilt join is that of its transfer, which meets the further requirements. */
  lemma JoinedAt(r: Records, ts: seq<Transfer>, rows: seq<nat>, joins: seq<Join>, k: nat)
    requires RecordsOk(r) && RecordsTyped(r) && IsSerialRun(r, ts) && JoinsFit(r, rows, joins)
    requires k < |ts| == |joins| == |rows| && rows[k] == ts[k].accept
    ensures ExtraAt(r, ts, k) && JoinIs(r, ts, k, joins[k])
  {
    JoinAtIs(r, rows, joins, k);
    JoinNeedsExtra(r, ts, k);
  }

  lemma JoinedIsExtra(r: Records, ts: seq<Transfer>, joins: seq<Join>)
    requires RecordsOk(r) && RecordsTyped(r) && IsSerialRun(r, ts) && AllJoined(r, joins)
    ensures AllExtra(r, ts) && JoinsAre(r, ts, joins)
  {
    var rows := Requests(r, |r.rows|);
    RequestsAre(r, ts);
    forall k | 0 <= k < |ts| ensures ExtraAt(r, ts, k) && JoinIs(r, ts, k, joins[k]) {
      JoinedAt(r, ts, rows, joins, k);
    }
  }

  /** The request on row `rows[k]` can be rebuilt. */
  predicate Rebuilds(r: Records, rows: seq<nat>, k: nat)
    requires RecordsTyped(r) && k < |rows|
  {
    (rows[k], Accepted) in r.views && JoinFor(r, rows[k], k + 1).Some?
  }

  ghost predicate AllRebuild(r: Records, rows: seq<nat>)
    requires RecordsTyped(r)
  {
    forall k {:trigger Rebuilds(r, rows, k)} | 0 <= k < |rows| :: Rebuilds(r, rows, k)
  }

  lemma ExtraRebuilds(r: Records, ts: seq<Transfer>, rows: seq<nat>)
    requires RecordsOk(r) && RecordsTyped(r) && IsSerialRun(r, ts) && AllExtra(r, ts)
    requires |ts| == |rows| && forall k | 0 <= k < |rows| :: rows[k] == ts[k].accept
    ensures AllRebuild(r, rows)
  {
    forall k | 0 <= k < |rows| ensures Rebuilds(r, rows, k) { ExtraGivesJoin(r, ts, k); }
  }

  /** The joins of the first `n` requests. */
  lemma {:induction false} JoinsOf(r: Records, rows: seq<nat>, n: nat) returns (joins: seq<Join>)
    requires RecordsTyped(r) && AllRebuild(r, rows) && n <= |rows|
    ensures |joins| == n && JoinsFit(r, rows, joins)
  {
    joins := [];
    if n > 0 {
      var before := JoinsOf(r, rows, n - 1);
      assert Rebuilds(r, rows, n - 1);
      var next := JoinFor(r, rows[n - 1], n).value;
      OneMoreJoin(r, rows, before, next);
      joins := before + [next];
    }
  }

  lemma ExtraIsJoined(r: Records, ts: seq<Transfer>) returns (joins: seq<Join>)
    requires RecordsOk(r) && RecordsTyped(r) && IsSerialRun(r, ts) && AllExtra(r, ts)
    ensures AllJoined(r, joins)
  {
    var rows := Requests(r, |r.rows|);
    RequestsAre(r, ts);
    ExtraRebuilds(r, ts, rows);
    joins := JoinsOf(r, rows, |rows|);
  }

  /** On a serial run every transfer can be rebuilt exactly when `AllExtra` holds, and then
      from the rows the replay went through. */
  lemma JoinsIffExtra(r: Records, ts: seq<Transfer>)
    requires RecordsOk(r) && RecordsTyped(r) && IsSerialRun(r, ts)
    ensures AllExtra(r, ts) <==> exists joins :: AllJoined(r, joins)
    ensures forall joins :: AllJoined(r, joins) ==> JoinsAre(r, ts, joins)
  {
    forall joins | AllJoined(r, joins) ensures AllExtra(r, ts) && JoinsAre(r, ts, joins) {
      JoinedIsExtra(r, ts, joins);
    }
    if AllExtra(r, ts) { var joins := ExtraIsJoined(r, ts); }
  }

  /** On a serial run the second pass accepts exactly when the extra requirements hold and nothing
      is left over, and what it rebuilds are the transfers of the first. */
  lemma SecondPassIff(r: Records, ts: seq<Transfer>)
    requires RecordsOk(r) && RecordsTyped(r) && IsSerialRun(r, ts)
    requires forall k | 0 <= k < |ts| :: (ts[k].accept, Accepted) in r.views
    ensures SecondAccepts(r) <==> AllExtra(r, ts) && NoStrays(r, ts)
    ensures forall joins :: AllJoined(r, joins) ==> JoinsAre(r, ts, joins)
  {
    JoinsIffExtra(r, ts);
    forall joins | AllJoined(r, joins) ensures NothingLeft(r, joins) <==> NoStrays(r, ts) {
      ExtraIsKeyed(r, ts);
      NothingLeftIff(r, ts, joins);
    }
  }

  /** The sweep between the passes can never fail after an accepted first pass. */
  lemma SweepIsRedundant(r: Records, ts: seq<Transfer>)
    requires RowsOk(r.rows, r.failure) && IsSerialRun(r, ts)
    ensures Swept(r)
  {
    forall i | 0 <= i < |r.rows|
      ensures AcceptedNow(r.rows[i]) ==> (i, Accepted) in r.views
      ensures ConsumedNow(r.rows[i]) ==> (i, Consumed) in r.views
      ensures CompletedNow(r.rows[i]) && !TerminalRow(r, i) ==> (i, Completed) in r.views
    {
      SweptRow(r, ts, i);
    }
  }

  lemma SweptRow(r: Records, ts: seq<Transfer>, i: nat)
    requires i < |r.rows| && HandshakesAt(r.rows[i], ts, i) && r.views.Keys == ViewsOf(ts, r.failure.Some?)
    requires r.failure.Some? ==> |ts| > 0 && ts[|ts| - 1].End() == |r.rows| - 1
    requires RowsOk(r.rows, r.failure)
    ensures AcceptedNow(r.rows[i]) ==> (i, Accepted) in r.views
    ensures ConsumedNow(r.rows[i]) ==> (i, Consumed) in r.views
    ensures CompletedNow(r.rows[i]) && !TerminalRow(r, i) ==> (i, Completed) in r.views
  {
  }
}
