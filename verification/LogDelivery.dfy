/**
Delivery of a machine's log to the fleet controller: a cursor over an append-only file, batches cut
into slices, retries, and event identifiers by which the receiver can drop what it already holds.
Lines are counted from where the reporter started; offsets are numbers of complete lines.
*/
module LogDelivery {
  import opened Wrappers
  import opened Ulid

  /** A complete line: a log entry, or nothing that parses. */
  type Line = Option<string>

  const MAX_BATCH: nat := 500
  const SECOND: nat := 1_000_000_000
  const BACKOFF_BASE: nat := SECOND
  const BACKOFF_CAP: nat := 60 * SECOND

  datatype PostError = NoError | Network | Status(code: nat)

  datatype Outcome = Done | Retry | Drop | GiveUp

  /** One entry the receiver took in: under which identifier, and which line it is. */
  datatype Delivery = Delivery(id: nat, line: nat)

  /** What becomes of one slice: even when an error comes back the receiver may have taken it in. */
  datatype Reply = Reply(arrived: bool, error: PostError) {
    predicate Taken() {
      arrived || error == NoError
    }
  }

  /** The receiver and the network between, for one round: what becomes of its k-th slice. */
  type Net = nat -> Reply

  function Classify(e: PostError): (o: Outcome)
    ensures o == Done <==> e == NoError
    ensures o == Drop <==> e.Status? && (e.code == 400 || e.code == 413)
    ensures o == GiveUp <==> e.Status? && (e.code == 401 || e.code == 403)
  {
    match e
    case NoError => Done
    case Network => Retry
    case Status(code) =>
      if code == 400 || code == 413 then Drop else if code == 401 || code == 403 then GiveUp else Retry
  }

  // ------------------------------------------------------------ backoff

  lemma {:induction false} Pow2Grows(m: nat, n: nat)
    requires m <= n
    ensures Pow2(m) <= Pow2(n)
  {
    if m < n { Pow2Grows(m, n - 1); }
  }

  /** One second doubled for every failure after the first, and never more than a minute. */
  function Backoff(fails: nat): nat {
    if fails == 0 then 0
    else if BACKOFF_BASE * Pow2(fails - 1) > BACKOFF_CAP then BACKOFF_CAP else BACKOFF_BASE * Pow2(fails - 1)
  }

  method NextBackoff(fails: nat) returns (d: nat)
    ensures d == Backoff(fails)
  {
    if fails == 0 { return 0; }
    d := BACKOFF_BASE;
    for i := 1 to fails
      invariant d == BACKOFF_BASE * Pow2(i - 1)
    {
      if d >= BACKOFF_CAP {
        Pow2Grows(i - 1, fails - 1);
        return BACKOFF_CAP;
      }
      d := d * 2;
    }
    if d > BACKOFF_CAP { d := BACKOFF_CAP; }
  }

  // ------------------------------------------------------------ batches

  /** The entry lines from `a` up to `b`, in order. */
  function Batch(lines: seq<Line>, a: nat, b: nat): (r: seq<nat>)
    requires a <= b <= |lines|
    ensures forall i :: i in r <==> a <= i < b && lines[i].Some?
    ensures forall j, k :: 0 <= j < k < |r| ==> r[j] < r[k]
    decreases b - a
  {
    if a == b then []
    else
      var rest := Batch(lines, a + 1, b);
      assert forall k :: 0 <= k < |rest| ==> rest[k] in rest;
      if lines[a].Some? then [a] + rest else rest
  }

  /** Lines written later do not change a batch. */
  lemma {:induction false} BatchStays(lines: seq<Line>, more: seq<Line>, a: nat, b: nat)
    requires a <= b <= |lines|
    ensures Batch(lines + more, a, b) == Batch(lines, a, b)
    decreases b - a
  {
    if a < b { BatchStays(lines, more, a + 1, b); }
  }

  lemma {:induction false} BatchSnoc(lines: seq<Line>, a: nat, b: nat)
    requires a <= b < |lines|
    ensures Batch(lines, a, b + 1) == Batch(lines, a, b) + if lines[b].Some? then [b] else []
    decreases b - a
  {
    if a < b { BatchSnoc(lines, a + 1, b); }
  }

  function Pair(ids: seq<nat>, entries: seq<nat>): seq<Delivery>
    requires |ids| == |entries|
  {
    seq(|ids|, k requires 0 <= k < |ids| => Delivery(ids[k], entries[k]))
  }

  predicate Distinct(ids: seq<nat>) {
    forall j, k :: 0 <= j < k < |ids| ==> ids[j] != ids[k]
  }

  // ------------------------------------------------------------ sending one batch

  datatype Sending = Sending(taken: set<Delivery>, answers: seq<PostError>, error: PostError)

  function Slice(batch: seq<Delivery>): (n: nat)
    ensures n <= |batch| && n <= MAX_BATCH && (batch != [] ==> n > 0)
  {
    if |batch| > MAX_BATCH then MAX_BATCH else |batch|
  }

  /** Slices of at most 500, one after another; the first error ends the batch. */
  function Send(batch: seq<Delivery>, net: Net, k: nat): Sending
    decreases |batch|
  {
    if batch == [] then Sending({}, [], NoError)
    else
      var n := Slice(batch);
      var now := if net(k).Taken() then set d | d in batch[..n] else {};
      if net(k).error != NoError then Sending(now, [net(k).error], net(k).error)
      else
        var rest := Send(batch[n..], net, k + 1);
        Sending(now + rest.taken, [NoError] + rest.answers, rest.error)
  }

  /** Sending `rest` from here on comes to `goal` as a whole. */
  ghost predicate Reaches(goal: Sending, posted0: set<Delivery>, answers0: seq<PostError>,
                          posted: set<Delivery>, answers: seq<PostError>, rest: Sending) {
    && posted0 + goal.taken == posted + rest.taken
    && answers0 + goal.answers == answers + rest.answers
    && goal.error == rest.error
  }

  lemma ReachesNext(goal: Sending, posted0: set<Delivery>, answers0: seq<PostError>, posted: set<Delivery>,
                    answers: seq<PostError>, rest: Sending, now: set<Delivery>, e: PostError, more: Sending)
    requires Reaches(goal, posted0, answers0, posted, answers, rest)
    requires rest == if e != NoError then Sending(now, [e], e) else Sending(now + more.taken, [NoError] + more.answers, more.error)
    ensures e == NoError ==> Reaches(goal, posted0, answers0, posted + now, answers + [e], more)
    ensures e != NoError ==>
      posted0 + goal.taken == posted + now && answers0 + goal.answers == answers + [e] && goal.error == e
  {
    if e == NoError {
      assert posted + (now + more.taken) == posted + now + more.taken;
      assert answers + ([e] + more.answers) == answers + [e] + more.answers;
    }
  }

  lemma ReachesEnd(goal: Sending, posted0: set<Delivery>, answers0: seq<PostError>, posted: set<Delivery>, answers: seq<PostError>)
    requires Reaches(goal, posted0, answers0, posted, answers, Sending({}, [], NoError))
    ensures posted0 + goal.taken == posted && answers0 + goal.answers == answers && goal.error == NoError
  {
    assert posted + {} == posted && answers + [] == answers;
  }

  lemma SendNext(batch: seq<Delivery>, start: nat, end: nat, net: Net, k: nat)
    requires start < |batch| && end == if start + MAX_BATCH > |batch| then |batch| else start + MAX_BATCH
    ensures var rest, more := Send(batch[start..], net, k), Send(batch[end..], net, k + 1);
      var now := if net(k).Taken() then set d | d in batch[start..end] else {};
      rest == if net(k).error != NoError then Sending(now, [net(k).error], net(k).error)
              else Sending(now + more.taken, [NoError] + more.answers, more.error)
  {
    assert batch[start..][..end - start] == batch[start..end];
    assert batch[start..][end - start..] == batch[end..];
  }

  /** How many slices carry `n` entries. */
  function Slices(n: nat): nat {
    (n + MAX_BATCH - 1) / MAX_BATCH
  }

  /** Nothing but the batch is taken in, all of it when no error came back; one answer for each slice
      sent, all good but the last, which is the batch's. */
  lemma {:induction false} SendExact(batch: seq<Delivery>, net: Net, k: nat)
    ensures var s := Send(batch, net, k);
      && s.taken <= (set d | d in batch)
      && (s.error == NoError ==> s.taken == (set d | d in batch) && |s.answers| == (|batch| + 499) / 500)
      && (forall j :: 0 <= j < |s.answers| - 1 ==> s.answers[j] == NoError)
      && (if batch == [] then s.answers == [] else s.answers != [] && s.answers[|s.answers| - 1] == s.error)
      && |s.answers| <= (|batch| + 499) / 500
    decreases |batch|
  {
    if batch != [] {
      var n := Slice(batch);
      assert batch == batch[..n] + batch[n..];
      SlicesNext(|batch|, n);
      SendExact(batch[n..], net, k + 1);
    }
  }

  lemma SlicesNext(size: nat, n: nat)
    requires size > 0 && n == if size > MAX_BATCH then MAX_BATCH else size
    ensures Slices(size) == 1 + Slices(size - n)
  {
  }

  // ------------------------------------------------------------ one round

  /** A batch that failed: where it starts and ends, and the identifier of each of its entries. */
  datatype Pending = Pending(start: nat, end: nat, ids: seq<nat>)

  /** The reporter, with what the receiver has taken in, how each slice ended, and the lines of
      increments dropped as undeliverable. */
  datatype State = State(offset: nat, fails: nat, gaveUp: bool, drops: nat, backoff: nat, pend: Option<Pending>,
                         nextId: nat, posted: set<Delivery>, answers: seq<PostError>, discarded: set<nat>)

  const START: State := State(0, 0, false, 0, 0, None, 0, {}, [], {})

  function Fresh(first: nat, n: nat): seq<nat> {
    seq(n, k requires 0 <= k < n => first + k)
  }

  /** The guard under which a retry uses the identifiers of the try before it. */
  predicate SameBatch(st: State, end: nat, n: nat) {
    st.pend.Some? && |st.pend.value.ids| == n && st.pend.value.start == st.offset && st.pend.value.end == end
  }

  /** Identifiers are made once per batch and used again when the very same batch is sent again. */
  function Identify(st: State, end: nat, n: nat): (t: State)
    ensures t.pend.Some? && |t.pend.value.ids| == n
  {
    if SameBatch(st, end, n) then st
    else st.(pend := Some(Pending(st.offset, end, Fresh(st.nextId, n))), nextId := st.nextId + n)
  }

  /** RunOnce: read the increment, send it, and move the cursor only past what was taken in or is
      undeliverable.  After a refused token nothing is read or sent any more. */
  function Round(st: State, lines: seq<Line>, readable: bool, net: Net): (State, Option<PostError>)
    requires st.offset <= |lines|
  {
    var entries := Batch(lines, st.offset, |lines|);
    if st.gaveUp || !readable || entries == [] then (st, None)
    else
      var t := Identify(st, |lines|, |entries|);
      var sent := Send(Pair(t.pend.value.ids, entries), net, 0);
      (Settle(Answered(t, sent), |lines|, entries, sent.error), Some(sent.error))
  }

  function Answered(t: State, sent: Sending): State {
    t.(posted := t.posted + sent.taken, answers := t.answers + sent.answers)
  }

  function Settle(u: State, next: nat, entries: seq<nat>, e: PostError): State {
    match Classify(e)
    case Done => u.(offset := next, pend := None, backoff := 0)
    case Retry => u.(fails := u.fails + 1, backoff := Backoff(u.fails + 1))
    case Drop => u.(drops := u.drops + 1, offset := next, pend := None, discarded := u.discarded + set i | i in entries)
    case GiveUp => u.(gaveUp := true)
  }

  /** WHAT AN ANSWER DOES, by its status code: after a good one, and after 400 or 413, the cursor is past the
      increment; after 401 or 403 the reporter has given up; after anything else the cursor stays, the
      failure is counted, and the wait is a second doubled for each earlier failure, a minute at most. */
  ghost predicate Moved(st: State, t: State, lines: seq<Line>, e: PostError) {
    && st.offset <= |lines| && st.posted <= t.posted
    && if e == NoError then
         && t.offset == |lines| && t.pend.None? && t.backoff == 0
         && t.fails == st.fails && t.drops == st.drops && t.gaveUp == st.gaveUp && t.discarded == st.discarded
       else if e == Status(400) || e == Status(413) then
         && t.offset == |lines| && t.pend.None? && t.backoff == st.backoff
         && t.fails == st.fails && t.drops == st.drops + 1 && t.gaveUp == st.gaveUp
         && t.discarded == st.discarded + (set i | st.offset <= i < |lines| && lines[i].Some?)
       else if e == Status(401) || e == Status(403) then
         && t.gaveUp && t.offset == st.offset && t.backoff == st.backoff
         && t.fails == st.fails && t.drops == st.drops && t.discarded == st.discarded
       else
         && t.offset == st.offset && t.fails == st.fails + 1 && t.pend.Some? && t.pend.value.end == |lines|
         && t.drops == st.drops && t.gaveUp == st.gaveUp && t.discarded == st.discarded
         && t.backoff == if st.fails >= 6 then 60 * SECOND else SECOND * Pow2(st.fails)
  }

  lemma RoundMoves(st: State, lines: seq<Line>, readable: bool, net: Net)
    requires st.offset <= |lines|
    ensures var (t, sent) := Round(st, lines, readable, net);
      && (sent.None? ==> t == st)
      && (sent.None? <==> st.gaveUp || !readable || forall i :: st.offset <= i < |lines| ==> lines[i].None?)
      && (sent.Some? ==> Moved(st, t, lines, sent.value) && t.answers != [] && t.answers[|t.answers| - 1] == sent.value)
  {
    var entries := Batch(lines, st.offset, |lines|);
    BatchEmptyIff(lines, st.offset);
    if !st.gaveUp && readable && entries != [] { SentMoves(st, lines, entries, net); }
  }

  lemma SentMoves(st: State, lines: seq<Line>, entries: seq<nat>, net: Net)
    requires st.offset <= |lines| && entries == Batch(lines, st.offset, |lines|) && entries != [] && !st.gaveUp
    ensures
      var t := Identify(st, |lines|, |entries|);
      var sent := Send(Pair(t.pend.value.ids, entries), net, 0);
      var u := Settle(Answered(t, sent), |lines|, entries, sent.error);
      Moved(st, u, lines, sent.error) && u.answers != [] && u.answers[|u.answers| - 1] == sent.error
  {
    var t := Identify(st, |lines|, |entries|);
    var batch := Pair(t.pend.value.ids, entries);
    SendExact(batch, net, 0);
    var sent := Send(batch, net, 0);
    LastAnswer(t.answers, sent.answers);
    SettleMoves(st, Answered(t, sent), lines, entries, sent.error);
  }

  lemma BatchEmptyIff(lines: seq<Line>, a: nat)
    requires a <= |lines|
    ensures Batch(lines, a, |lines|) == [] <==> forall i :: a <= i < |lines| ==> lines[i].None?
  {
    var entries := Batch(lines, a, |lines|);
    if entries == [] {
      assert forall i :: a <= i < |lines| && lines[i].Some? ==> i in entries;
    } else {
      assert entries[0] in entries;
    }
  }

  lemma LastAnswer(before: seq<PostError>, more: seq<PostError>)
    requires more != []
    ensures (before + more)[|before + more| - 1] == more[|more| - 1]
  {
  }

  lemma SettleMoves(st: State, u: State, lines: seq<Line>, entries: seq<nat>, e: PostError)
    requires st.offset <= |lines| && entries == Batch(lines, st.offset, |lines|) && st.posted <= u.posted && !st.gaveUp
    requires u.pend.Some? && u.pend.value.end == |lines|
    requires u.offset == st.offset && u.fails == st.fails && u.drops == st.drops && u.backoff == st.backoff
    requires u.gaveUp == st.gaveUp && u.discarded == st.discarded
    ensures Moved(st, Settle(u, |lines|, entries, e), lines, e)
  {
    BackoffTable(st.fails + 1);
    assert (set i | i in entries) == (set i | st.offset <= i < |lines| && lines[i].Some?);
  }

  /** One, two, four, up to thirty-two seconds, and then a minute each time. */
  lemma BackoffTable(fails: nat)
    ensures fails > 0 ==> Backoff(fails) == if fails >= 7 then 60 * SECOND else SECOND * Pow2(fails - 1)
    ensures Backoff(1) == SECOND && Backoff(2) == 2 * SECOND && Backoff(6) == 32 * SECOND && Backoff(7) == 60 * SECOND
  {
    assert Pow2(0) == 1 && Pow2(1) == 2 && Pow2(2) == 4 && Pow2(3) == 8 && Pow2(4) == 16 && Pow2(5) == 32 && Pow2(6) == 64;
    if fails >= 7 {
      Pow2Grows(6, fails - 1);
    }
  }

  // ------------------------------------------------------------ the reporter itself

  class Reporter {
    var offset: nat
    var fails: nat
    var gaveUp: bool
    var drops: nat
    var backoff: nat
    var pendStart: nat
    var pendEnd: nat
    var pendIds: Option<seq<nat>>
    var nextId: nat                      // identifiers not yet given out
    ghost var posted: set<Delivery>
    ghost var answers: seq<PostError>
    ghost var discarded: set<nat>

    ghost function View(): State
      reads this
    {
      State(offset, fails, gaveUp, drops, backoff,
            if pendIds.None? then None else Some(Pending(pendStart, pendEnd, pendIds.value)),
            nextId, posted, answers, discarded)
    }

    constructor ()
      ensures View() == START
    {
      offset, fails, gaveUp, drops, backoff, pendStart, pendEnd, pendIds := 0, 0, false, 0, 0, 0, 0, None;
      nextId, posted, answers, discarded := 0, {}, [], {};
    }

    /** The entries of the complete lines after the cursor. */
    method Scan(lines: seq<Line>) returns (entries: seq<nat>, next: nat)
      requires offset <= |lines|
      ensures next == |lines| && entries == Batch(lines, offset, next)
    {
      next := |lines|;
      entries := [];
      for k := offset to next
        invariant entries == Batch(lines, offset, k)
      {
        BatchSnoc(lines, offset, k);
        if lines[k].Some? { entries := entries + [k]; }
      }
    }

    method AssignEventIds(start: nat, end: nat, n: nat) returns (ids: seq<nat>)
      requires start == offset
      modifies this`pendStart, this`pendEnd, this`pendIds, this`nextId
      ensures View() == Identify(old(View()), end, n)
      ensures ids == View().pend.value.ids
    {
      if pendIds.Some? && |pendIds.value| == n && pendStart == start && pendEnd == end {
        return pendIds.value;
      }
      ids := [];
      ghost var first := nextId;
      for k := 0 to n
        invariant |ids| == k && nextId == first + k && forall j :: 0 <= j < k ==> ids[j] == first + j
        invariant unchanged(`pendIds) && unchanged(`pendStart) && unchanged(`pendEnd)
      {
        ids := ids + [nextId];
        nextId := nextId + 1;
      }
      assert ids == Fresh(first, n);
      pendStart, pendEnd, pendIds := start, end, Some(ids);
    }

    /** One slice on its way. */
    method Post(slice: seq<Delivery>, reply: Reply) returns (e: PostError)
      requires 0 < |slice| <= MAX_BATCH
      modifies this`posted, this`answers
      ensures e == reply.error && answers == old(answers) + [e]
      ensures posted == old(posted) + if reply.Taken() then set d | d in slice else {}
    {
      e := reply.error;
      posted := posted + if reply.Taken() then set d | d in slice else {};
      answers := answers + [e];
    }

    method PostBatch(batch: seq<Delivery>, net: Net) returns (e: PostError)
      modifies this`posted, this`answers
      ensures var sent := Send(batch, net, 0);
        posted == old(posted) + sent.taken && answers == old(answers) + sent.answers && e == sent.error
    {
      var start, k := 0, 0;
      ghost var goal := Send(batch, net, 0);
      assert batch[0..] == batch;
      while start < |batch|
        invariant start <= |batch|
        invariant Reaches(goal, old(posted), old(answers), posted, answers, Send(batch[start..], net, k))
      {
        var end := if start + MAX_BATCH > |batch| then |batch| else start + MAX_BATCH;
        SendNext(batch, start, end, net, k);
        ReachesNext(goal, old(posted), old(answers), posted, answers, Send(batch[start..], net, k),
                    if net(k).Taken() then set d | d in batch[start..end] else {}, net(k).error, Send(batch[end..], net, k + 1));
        e := Post(batch[start..end], net(k));
        if e != NoError { return; }
        start, k := end, k + 1;
      }
      e := NoError;
      ReachesEnd(goal, old(posted), old(answers), posted, answers);
    }

    method RunOnce(lines: seq<Line>, readable: bool, net: Net) returns (sent: Option<PostError>)
      requires offset <= |lines|
      modifies this
      ensures (View(), sent) == Round(old(View()), lines, readable, net)
      ensures sent.None? ==> View() == old(View())
      ensures sent.None? <==> old(gaveUp) || !readable || forall i :: old(offset) <= i < |lines| ==> lines[i].None?
      ensures sent.Some? ==> answers != [] && answers[|answers| - 1] == sent.value
      ensures sent.Some? ==> Moved(old(View()), View(), lines, sent.value)
    {
      ghost var st := View();
      RoundMoves(st, lines, readable, net);
      if gaveUp || !readable { return None; }
      var entries, next := Scan(lines);
      if entries == [] { return None; }
      var ids := AssignEventIds(offset, next, |entries|);
      var e := PostBatch(Pair(ids, entries), net);
      sent := Some(e);
      Conclude(next, entries, e);
    }

    /** What the answer means for the cursor, the remembered batch and the counters. */
    method Conclude(next: nat, entries: seq<nat>, e: PostError)
      modifies this
      ensures View() == Settle(old(View()), next, entries, e)
    {
      match Classify(e) {
        case Done =>
          offset, pendIds, pendStart, pendEnd := next, None, 0, 0;
          backoff := 0;
        case Retry =>
          fails := fails + 1;
          backoff := NextBackoff(fails);
        case Drop =>
          drops := drops + 1;
          pendIds, pendStart, pendEnd := None, 0, 0;
          offset := next;
          discarded := discarded + set i | i in entries;
        case GiveUp =>
          gaveUp := true;
      }
    }
  }

  // ------------------------------------------------------------ nothing is skipped

  ghost predicate Held(posted: set<Delivery>, line: nat) {
    exists d :: d in posted && d.line == line
  }

  /** Every entry before the cursor was taken in or belonged to a discarded increment. */
  ghost predicate Delivered(st: State, lines: seq<Line>) {
    && st.offset <= |lines|
    && forall i :: 0 <= i < st.offset && lines[i].Some? ==> Held(st.posted, i) || i in st.discarded
  }

  /** Identifiers given out are used up, and a remembered batch starts at the cursor and has one
      identifier per entry. */
  ghost predicate PendingOk(st: State, lines: seq<Line>) {
    && st.offset <= |lines|
    && (forall d :: d in st.posted ==> d.id < st.nextId)
    && (st.pend.Some? ==> PendOk(st.pend.value, st.offset, st.nextId, lines))
  }

  ghost predicate PendOk(p: Pending, offset: nat, nextId: nat, lines: seq<Line>) {
    && p.start == offset <= p.end <= |lines|
    && |p.ids| == |Batch(lines, offset, p.end)|
    && Distinct(p.ids) && forall k :: 0 <= k < |p.ids| ==> p.ids[k] < nextId
  }

  ghost predicate Inv(st: State, lines: seq<Line>) {
    Delivered(st, lines) && PendingOk(st, lines)
  }

  lemma IdentifyKeeps(st: State, lines: seq<Line>)
    requires Inv(st, lines)
    ensures var n := |Batch(lines, st.offset, |lines|)|; Inv(Identify(st, |lines|, n), lines)
  {
  }

  lemma AllHeld(posted: set<Delivery>, ids: seq<nat>, entries: seq<nat>)
    requires |ids| == |entries| && (set d | d in Pair(ids, entries)) <= posted
    ensures forall i :: i in entries ==> Held(posted, i)
  {
    forall i | i in entries ensures Held(posted, i) {
      var k :| 0 <= k < |entries| && entries[k] == i;
      assert Pair(ids, entries)[k] in Pair(ids, entries);
    }
  }

  lemma PairIds(ids: seq<nat>, entries: seq<nat>, bound: nat)
    requires |ids| == |entries| && forall k :: 0 <= k < |ids| ==> ids[k] < bound
    ensures forall d :: d in Pair(ids, entries) ==> d.id < bound
  {
  }

  /** The cursor moves past a batch whose entries are all held or discarded. */
  lemma DeliveredNext(st: State, t: State, lines: seq<Line>)
    requires Delivered(st, lines) && st.posted <= t.posted && st.discarded <= t.discarded && t.offset == |lines|
    requires forall i :: i in Batch(lines, st.offset, |lines|) ==> Held(t.posted, i) || i in t.discarded
    ensures Delivered(t, lines)
  {
    forall i | 0 <= i < |lines| && lines[i].Some? ensures Held(t.posted, i) || i in t.discarded {
      if i >= st.offset {
        assert i in Batch(lines, st.offset, |lines|);
      } else if Held(st.posted, i) {
        HeldGrows(st.posted, t.posted, i);
      }
    }
  }

  lemma HeldGrows(a: set<Delivery>, b: set<Delivery>, i: nat)
    requires a <= b && Held(a, i)
    ensures Held(b, i)
  {
    var d :| d in a && d.line == i;
    assert d in b;
  }

  lemma DeliveredStill(st: State, t: State, lines: seq<Line>)
    requires Delivered(st, lines) && st.posted <= t.posted && st.discarded <= t.discarded && t.offset == st.offset
    ensures Delivered(t, lines)
  {
    forall i | 0 <= i < t.offset && lines[i].Some? ensures Held(t.posted, i) || i in t.discarded {
      if Held(st.posted, i) { HeldGrows(st.posted, t.posted, i); }
    }
  }

  lemma SettleKeeps(t: State, lines: seq<Line>, entries: seq<nat>, sent: Sending)
    requires Inv(t, lines) && entries == Batch(lines, t.offset, |lines|)
    requires t.pend.Some? && t.pend.value.end == |lines| && |t.pend.value.ids| == |entries|
    requires sent.taken <= (set d | d in Pair(t.pend.value.ids, entries))
    requires sent.error == NoError ==> sent.taken == (set d | d in Pair(t.pend.value.ids, entries))
    ensures Inv(Settle(Answered(t, sent), |lines|, entries, sent.error), lines)
  {
    var u := Settle(Answered(t, sent), |lines|, entries, sent.error);
    PairIds(t.pend.value.ids, entries, t.nextId);
    match Classify(sent.error) {
      case Done =>
        AllHeld(u.posted, t.pend.value.ids, entries);
        DeliveredNext(t, u, lines);
      case Drop => DeliveredNext(t, u, lines);
      case _ => DeliveredStill(t, u, lines);
    }
  }

  /** One round keeps the accounts, never moves the cursor back, and sends nothing after giving up. */
  lemma RoundKeeps(st: State, lines: seq<Line>, readable: bool, net: Net)
    requires Inv(st, lines)
    ensures var t := Round(st, lines, readable, net).0;
      && Inv(t, lines) && st.posted <= t.posted && st.offset <= t.offset
      && (st.gaveUp ==> t == st)
  {
    var entries := Batch(lines, st.offset, |lines|);
    if !st.gaveUp && readable && entries != [] {
      var t := Identify(st, |lines|, |entries|);
      IdentifyKeeps(st, lines);
      var batch := Pair(t.pend.value.ids, entries);
      SendExact(batch, net, 0);
      SettleKeeps(t, lines, entries, Send(batch, net, 0));
    }
  }

  lemma WriteKeeps(st: State, lines: seq<Line>, more: seq<Line>)
    requires Inv(st, lines)
    ensures Inv(st, lines + more)
  {
    if st.pend.Some? { BatchStays(lines, more, st.offset, st.pend.value.end); }
    assert forall i :: 0 <= i < |lines| ==> (lines + more)[i] == lines[i];
  }

  // ------------------------------------------------------------ nothing is held twice

  /** Each line is held under one identifier and each identifier stands for one line: a receiver that
      drops repeated identifiers holds every line once. */
  ghost predicate HeldOnce(posted: set<Delivery>) {
    forall d, e :: d in posted && e in posted ==> (d.id == e.id <==> d.line == e.line)
  }

  /** What was posted lies before the cursor or is part of the remembered batch, under its ids. */
  ghost predicate TaggedAs(posted: set<Delivery>, offset: nat, batch: seq<Delivery>) {
    && HeldOnce(posted)
    && (forall d :: d in posted ==> d.line < offset || d in batch)
    && (forall d, p :: d in posted && d.line < offset && p in batch ==> d.id != p.id)
  }

  /** The remembered batch with its identifiers. */
  function Remembered(st: State, lines: seq<Line>): seq<Delivery>
    requires PendingOk(st, lines)
  {
    if st.pend.None? then [] else Pair(st.pend.value.ids, Batch(lines, st.offset, st.pend.value.end))
  }

  ghost predicate Tagged(st: State, lines: seq<Line>) {
    PendingOk(st, lines) && TaggedAs(st.posted, st.offset, Remembered(st, lines))
  }

  /** No complete line has come since the batch that is to be sent again. */
  predicate NothingNew(st: State, lines: seq<Line>) {
    st.pend.Some? ==> st.pend.value.end == |lines|
  }

  /** One identifier and one line per entry, all lines in the increment. */
  ghost predicate Shaped(batch: seq<Delivery>, offset: nat, next: nat) {
    && (forall j, k :: 0 <= j < k < |batch| ==> batch[j].id != batch[k].id && batch[j].line != batch[k].line)
    && (forall d :: d in batch ==> offset <= d.line < next)
  }

  lemma PendingShape(offset: nat, next: nat, ids: seq<nat>, entries: seq<nat>)
    requires |ids| == |entries| && Distinct(ids) && forall i :: i in entries ==> offset <= i < next
    requires forall j, k :: 0 <= j < k < |entries| ==> entries[j] < entries[k]
    ensures Shaped(Pair(ids, entries), offset, next)
  {
    forall d | d in Pair(ids, entries) ensures offset <= d.line < next {
      var k :| 0 <= k < |entries| && Pair(ids, entries)[k] == d;
      assert entries[k] in entries;
    }
  }

  lemma PostKeeps(before: set<Delivery>, after: set<Delivery>, offset: nat, next: nat, batch: seq<Delivery>)
    requires TaggedAs(before, offset, batch) && before <= after <= before + (set d | d in batch)
    requires Shaped(batch, offset, next)
    ensures TaggedAs(after, offset, batch)
  {
    forall d, e | d in after && e in after ensures d.id == e.id <==> d.line == e.line {
      if d in batch && e in batch {
        var j :| 0 <= j < |batch| && batch[j] == d;
        var k :| 0 <= k < |batch| && batch[k] == e;
      }
    }
  }

  lemma FreshTag(posted: set<Delivery>, offset: nat, batch: seq<Delivery>, first: nat)
    requires TaggedAs(posted, offset, []) && (forall d :: d in posted ==> d.id < first)
    requires forall p :: p in batch ==> first <= p.id
    ensures TaggedAs(posted, offset, batch)
  {
  }

  lemma PassedTag(posted: set<Delivery>, offset: nat, next: nat, batch: seq<Delivery>)
    requires TaggedAs(posted, offset, batch) && offset <= next && Shaped(batch, offset, next)
    ensures TaggedAs(posted, next, [])
  {
  }

  /** Under fresh identifiers the batch is apart from all that was posted, if none of it was before. */
  lemma IdentifyTags(st: State, lines: seq<Line>)
    requires Inv(st, lines) && Tagged(st, lines)
    requires NothingNew(st, lines) || forall d :: d in Remembered(st, lines) ==> d !in st.posted
    ensures var t := Identify(st, |lines|, |Batch(lines, st.offset, |lines|)|); Inv(t, lines) && Tagged(t, lines)
  {
    IdentifyKeeps(st, lines);
    var entries := Batch(lines, st.offset, |lines|);
    var t := Identify(st, |lines|, |entries|);
    if !SameBatch(st, |lines|, |entries|) {
      assert TaggedAs(st.posted, st.offset, []);
      FreshTag(st.posted, st.offset, Remembered(t, lines), st.nextId);
    }
  }

  lemma SettleTags(t: State, lines: seq<Line>, entries: seq<nat>, sent: Sending)
    requires Inv(t, lines) && Tagged(t, lines) && entries == Batch(lines, t.offset, |lines|)
    requires t.pend.Some? && t.pend.value.end == |lines| && |t.pend.value.ids| == |entries|
    requires sent.taken <= (set d | d in Pair(t.pend.value.ids, entries))
    requires sent.error == NoError ==> sent.taken == (set d | d in Pair(t.pend.value.ids, entries))
    ensures Tagged(Settle(Answered(t, sent), |lines|, entries, sent.error), lines)
  {
    var u := Settle(Answered(t, sent), |lines|, entries, sent.error);
    var batch := Remembered(t, lines);
    SettleKeeps(t, lines, entries, sent);
    PendingShape(t.offset, |lines|, t.pend.value.ids, entries);
    PostKeeps(t.posted, u.posted, t.offset, |lines|, batch);
    if u.pend.None? { PassedTag(u.posted, t.offset, |lines|, batch); }
  }

  /** A round keeps every line under one identifier when its batch is the one remembered, or none of the
      remembered batch was taken in. */
  lemma RoundTags(st: State, lines: seq<Line>, readable: bool, net: Net)
    requires Inv(st, lines) && Tagged(st, lines)
    requires NothingNew(st, lines) || forall d :: d in Remembered(st, lines) ==> d !in st.posted
    ensures Tagged(Round(st, lines, readable, net).0, lines)
  {
    var entries := Batch(lines, st.offset, |lines|);
    if !st.gaveUp && readable && entries != [] {
      var t := Identify(st, |lines|, |entries|);
      IdentifyTags(st, lines);
      var batch := Pair(t.pend.value.ids, entries);
      SendExact(batch, net, 0);
      SettleTags(t, lines, entries, Send(batch, net, 0));
    }
  }

  const ALL_TAKEN: Net := k => Reply(true, NoError)

  lemma {:induction false} AllTaken(batch: seq<Delivery>, k: nat)
    ensures Send(batch, ALL_TAKEN, k).error == NoError
    decreases |batch|
  {
    if batch != [] { AllTaken(batch[Slice(batch)..], k + 1); }
  }

  /** WHEN A RETRY IS SAFE: whatever becomes of its slices, a retry leaves every line held under one
      identifier if and only if no complete line came since the failed try (and so the guard lets it
      use the same identifiers), or none of that try's entries had been taken in. */
  lemma RetryKeepsIff(st: State, lines: seq<Line>)
    requires Inv(st, lines) && Tagged(st, lines) && st.pend.Some? && !st.gaveUp
    ensures (forall net: Net :: HeldOnce(Round(st, lines, true, net).0.posted)) <==>
      NothingNew(st, lines) || forall d :: d in Remembered(st, lines) ==> d !in st.posted
  {
    if NothingNew(st, lines) || forall d :: d in Remembered(st, lines) ==> d !in st.posted {
      forall net: Net ensures HeldOnce(Round(st, lines, true, net).0.posted) {
        RoundTags(st, lines, true, net);
      }
    } else {
      var d :| d in Remembered(st, lines) && d in st.posted;
      GrownRetry(st, lines, d);
    }
  }

  /** A line that was taken in and is sent again under a new identifier is held twice. */
  lemma GrownRetry(st: State, lines: seq<Line>, d: Delivery)
    requires Inv(st, lines) && st.pend.Some? && !st.gaveUp && !NothingNew(st, lines)
    requires d in Remembered(st, lines) && d in st.posted
    ensures !HeldOnce(Round(st, lines, true, ALL_TAKEN).0.posted)
  {
    var entries := Batch(lines, st.offset, |lines|);
    var p := st.pend.value;
    var i :| 0 <= i < |p.ids| && Remembered(st, lines)[i] == d;
    assert d.line in Batch(lines, st.offset, p.end);
    assert d.line in entries;
    var t := Identify(st, |lines|, |entries|);
    var batch := Pair(t.pend.value.ids, entries);
    AllTaken(batch, 0);
    SendExact(batch, ALL_TAKEN, 0);
    var k :| 0 <= k < |entries| && entries[k] == d.line;
    assert batch[k] in batch;
    assert batch[k].id >= st.nextId && batch[k].line == d.line;
    assert batch[k] in Round(st, lines, true, ALL_TAKEN).0.posted;
  }

  // ------------------------------------------------------------ whole runs

  datatype Event = Write(more: seq<Line>) | Tick(readable: bool, net: Net)

  /** The file and the reporter, one event at a time. */
  ghost predicate Next(lines: seq<Line>, st: State, e: Event, lines': seq<Line>, st': State) {
    st.offset <= |lines| &&
    match e
    case Write(more) => lines' == lines + more && st' == st
    case Tick(readable, net) => lines' == lines && st' == Round(st, lines, readable, net).0
  }

  ghost predicate Run(files: seq<seq<Line>>, sts: seq<State>, events: seq<Event>) {
    && |files| == |sts| == |events| + 1 && sts[0] == START
    && forall k :: 0 <= k < |events| ==> Next(files[k], sts[k], events[k], files[k + 1], sts[k + 1])
  }

  /** NOTHING IS SKIPPED: whatever is written when, and whatever becomes of the slices, at every moment
      every entry before the cursor was taken in or belonged to an increment dropped on 400 or 413. */
  lemma {:induction false} RunDelivers(files: seq<seq<Line>>, sts: seq<State>, events: seq<Event>, k: nat)
    requires Run(files, sts, events) && k < |sts|
    ensures Inv(sts[k], files[k])
  {
    if k > 0 {
      RunDelivers(files, sts, events, k - 1);
      assert Next(files[k - 1], sts[k - 1], events[k - 1], files[k - 1 + 1], sts[k - 1 + 1]);
      match events[k - 1] {
        case Write(more) => WriteKeeps(sts[k - 1], files[k - 1], more);
        case Tick(readable, net) => RoundKeeps(sts[k - 1], files[k - 1], readable, net);
      }
    }
  }

  /** After 401 or 403 nothing is sent and nothing moves any more. */
  lemma {:induction false} GivenUpStays(files: seq<seq<Line>>, sts: seq<State>, events: seq<Event>, j: nat, k: nat)
    requires Run(files, sts, events) && j <= k < |sts| && sts[j].gaveUp
    ensures sts[k] == sts[j]
    decreases k
  {
    if j < k {
      GivenUpStays(files, sts, events, j, k - 1);
      assert Next(files[k - 1], sts[k - 1], events[k - 1], files[k - 1 + 1], sts[k - 1 + 1]);
    }
  }

  /** Some answer refused the token. */
  ghost predicate TokenRefused(answers: seq<PostError>) {
    exists i :: 0 <= i < |answers| && (answers[i] == Status(401) || answers[i] == Status(403))
  }

  lemma RoundGivesUp(st: State, lines: seq<Line>, readable: bool, net: Net)
    requires st.offset <= |lines| && (st.gaveUp <==> TokenRefused(st.answers))
    ensures var t := Round(st, lines, readable, net).0; t.gaveUp <==> TokenRefused(t.answers)
  {
    RoundMoves(st, lines, readable, net);
    var entries := Batch(lines, st.offset, |lines|);
    if !st.gaveUp && readable && entries != [] {
      var t := Identify(st, |lines|, |entries|);
      var batch := Pair(t.pend.value.ids, entries);
      SendExact(batch, net, 0);
      var sent := Send(batch, net, 0);
      LastRefuses(st.answers, sent.answers, sent.error);
    }
  }

  lemma LastRefuses(before: seq<PostError>, more: seq<PostError>, e: PostError)
    requires !TokenRefused(before) && more != [] && more[|more| - 1] == e
    requires forall j :: 0 <= j < |more| - 1 ==> more[j] == NoError
    ensures TokenRefused(before + more) <==> e == Status(401) || e == Status(403)
  {
    var all := before + more;
    assert all[|all| - 1] == e;
    forall i | 0 <= i < |all| - 1 ensures all[i] != Status(401) && all[i] != Status(403) {
      if i < |before| { assert all[i] == before[i]; } else { assert all[i] == more[i - |before|]; }
    }
  }

  /** GIVING UP, seen from the wire: the reporter has given up if and only if some answer was 401 or 403. */
  lemma {:induction false} GaveUpIff(files: seq<seq<Line>>, sts: seq<State>, events: seq<Event>, k: nat)
    requires Run(files, sts, events) && k < |sts|
    ensures sts[k].gaveUp <==> TokenRefused(sts[k].answers)
  {
    if k > 0 {
      GaveUpIff(files, sts, events, k - 1);
      assert Next(files[k - 1], sts[k - 1], events[k - 1], files[k - 1 + 1], sts[k - 1 + 1]);
      match events[k - 1] {
        case Write(more) =>
        case Tick(readable, net) => RoundGivesUp(sts[k - 1], files[k - 1], readable, net);
      }
    }
  }

  /** After an answer of 401 or 403 nothing is ever sent again: no further answer comes, nothing is taken in,
      and the cursor stays. */
  lemma RefusedForGood(files: seq<seq<Line>>, sts: seq<State>, events: seq<Event>, j: nat, k: nat)
    requires Run(files, sts, events) && j <= k < |sts| && TokenRefused(sts[j].answers)
    ensures sts[k].answers == sts[j].answers && sts[k].posted == sts[j].posted && sts[k].offset == sts[j].offset
  {
    GaveUpIff(files, sts, events, j);
    GivenUpStays(files, sts, events, j, k);
  }

  lemma RoundSendsOnward(st: State, lines: seq<Line>, readable: bool, net: Net)
    requires Inv(st, lines)
    ensures var t := Round(st, lines, readable, net).0;
      st.offset <= t.offset && forall d :: d in t.posted && d !in st.posted ==> d.line >= st.offset
  {
    RoundKeeps(st, lines, readable, net);
    var entries := Batch(lines, st.offset, |lines|);
    if !st.gaveUp && readable && entries != [] {
      var t := Identify(st, |lines|, |entries|);
      var batch := Pair(t.pend.value.ids, entries);
      SendExact(batch, net, 0);
      forall d | d in batch ensures d.line >= st.offset {
        var i :| 0 <= i < |batch| && batch[i] == d;
        assert entries[i] in entries;
      }
    }
  }

  /** NEVER AGAIN: what is before the cursor at some moment is not sent after it. */
  lemma {:induction false} NeverSentAgain(files: seq<seq<Line>>, sts: seq<State>, events: seq<Event>, j: nat, k: nat)
    requires Run(files, sts, events) && j <= k < |sts|
    ensures sts[j].offset <= sts[k].offset
    ensures forall d :: d in sts[k].posted && d !in sts[j].posted ==> d.line >= sts[j].offset
    decreases k
  {
    if j < k {
      NeverSentAgain(files, sts, events, j, k - 1);
      RunDelivers(files, sts, events, k - 1);
      assert Next(files[k - 1], sts[k - 1], events[k - 1], files[k - 1 + 1], sts[k - 1 + 1]);
      match events[k - 1] {
        case Write(more) =>
        case Tick(readable, net) => RoundSendsOnward(sts[k - 1], files[k - 1], readable, net);
      }
    }
  }

  /** POISON IS DROPPED ONCE: after a round whose last answer is 400 or 413 no line complete by then is sent again. */
  lemma DroppedForGood(files: seq<seq<Line>>, sts: seq<State>, events: seq<Event>, j: nat, k: nat)
    requires Run(files, sts, events) && j < k < |sts| && events[j].Tick?
    requires sts[j + 1].answers != [] && sts[j + 1].answers != sts[j].answers
    requires sts[j + 1].answers[|sts[j + 1].answers| - 1] in {Status(400), Status(413)}
    ensures sts[j + 1].offset == |files[j]| && sts[j + 1].drops == sts[j].drops + 1
    ensures forall d :: d in sts[k].posted && d !in sts[j + 1].posted ==> d.line >= |files[j]|
  {
    assert Next(files[j], sts[j], events[j], files[j + 1], sts[j + 1]);
    RoundMoves(sts[j], files[j], events[j].readable, events[j].net);
    NeverSentAgain(files, sts, events, j + 1, k);
  }

  lemma WriteTags(st: State, lines: seq<Line>, more: seq<Line>)
    requires Inv(st, lines) && Tagged(st, lines)
    ensures Tagged(st, lines + more)
  {
    WriteKeeps(st, lines, more);
    if st.pend.Some? { BatchStays(lines, more, st.offset, st.pend.value.end); }
  }

  /** NOTHING IS HELD TWICE: when every round finds no complete line come since a failed try, or none of
      that try taken in, each line is held under one identifier, at every moment of the run. */
  lemma {:induction false} RunHeldOnce(files: seq<seq<Line>>, sts: seq<State>, events: seq<Event>, k: nat)
    requires Run(files, sts, events) && k < |sts|
    requires forall j :: 0 <= j < k && events[j].Tick? ==> SafeTry(sts[j], files[j])
    ensures Inv(sts[k], files[k]) && Tagged(sts[k], files[k])
  {
    if k > 0 {
      RunHeldOnce(files, sts, events, k - 1);
      assert Next(files[k - 1], sts[k - 1], events[k - 1], files[k - 1 + 1], sts[k - 1 + 1]);
      RunDelivers(files, sts, events, k);
      match events[k - 1] {
        case Write(more) => WriteTags(sts[k - 1], files[k - 1], more);
        case Tick(readable, net) =>
          assert SafeTry(sts[k - 1], files[k - 1]);
          RoundTags(sts[k - 1], files[k - 1], readable, net);
      }
    }
  }

  ghost predicate SafeTry(st: State, lines: seq<Line>) {
    PendingOk(st, lines) && (NothingNew(st, lines) || forall d :: d in Remembered(st, lines) ==> d !in st.posted)
  }

  // ------------------------------------------------------------ where it fails

  const FIRST: seq<Line> := [Some("a")]
  const BOTH: seq<Line> := [Some("a"), Some("b")]
  const LOST: Net := k => Reply(true, Network)     // taken in, but the answer is lost

  ghost const FAILED: State := START.(fails := 1, backoff := SECOND, pend := Some(Pending(0, 1, [0])), nextId := 1,
                                      posted := {Delivery(0, 0)}, answers := [Network])
  ghost const TWICE: State := FAILED.(offset := 2, backoff := 0, pend := None, nextId := 3,
                                      posted := {Delivery(0, 0), Delivery(1, 0), Delivery(2, 1)}, answers := [Network, NoError])

  lemma FirstTry()
    ensures Round(START, FIRST, true, LOST).0 == FAILED
  {
    assert Batch(FIRST, 0, 1) == [0] by { assert Batch(FIRST, 1, 1) == []; }
    assert Fresh(0, 1) == [0];
    var batch := Pair([0], [0]);
    assert batch == [Delivery(0, 0)] && batch[..1] == batch;
    assert Send(batch, LOST, 0) == Sending({Delivery(0, 0)}, [Network], Network);
    assert Pow2(0) == 1;
  }

  lemma SecondTry()
    ensures Round(FAILED, BOTH, true, ALL_TAKEN).0 == TWICE
  {
    assert Batch(BOTH, 2, 2) == [] && Batch(BOTH, 1, 2) == [1] && Batch(BOTH, 0, 2) == [0] + [1];
    assert Fresh(1, 2) == [1, 2];
    var batch := Pair([1, 2], [0] + [1]);
    assert batch == [Delivery(1, 0), Delivery(2, 1)] && batch[..2] == batch && batch[2..] == [];
    assert Send([], ALL_TAKEN, 1) == Sending({}, [], NoError);
    assert Send(batch, ALL_TAKEN, 0) == Sending((set d | d in batch) + {}, [NoError] + [], NoError);
  }

  /** A slice is taken in but its answer is lost, one complete line arrives, and the retry makes new
      identifiers: the first line is held twice. */
  lemma HeldTwice()
    ensures Run([[], FIRST, FIRST, BOTH, BOTH], [START, START, FAILED, FAILED, TWICE],
                [Write(FIRST), Tick(true, LOST), Write([Some("b")]), Tick(true, ALL_TAKEN)])
    ensures !HeldOnce(TWICE.posted)
  {
    FirstTry();
    SecondTry();
    assert [] + FIRST == FIRST && FIRST + [Some("b")] == BOTH;
    assert Delivery(0, 0) in TWICE.posted && Delivery(1, 0) in TWICE.posted;
  }
}
