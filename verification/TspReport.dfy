/** Reassembly of a CXL TSP target configuration report: the device hands it out in portions, one
    a round, and says how much remains.  Offset and remainder are 16 bits wide. */
module TspReport {
  import opened Words
  import opened Veil

  type Portion = s: seq<u8> | |s| < TWO_16

  /** A reply: the transfer may fail, and the message size may not match the portion. */
  datatype Reply = Reply(ok: bool, sized: bool, portion: Portion, remainder: u16)

  datatype Request = Request(offset: u16, length: u16)

  datatype Outcome = Running | Done | Failed

  /** `size` is the caller's buffer size, and on return the size of the report. */
  datatype State = State(outcome: Outcome, offset: u16, remainder: u16, total: nat, report: seq<u8>, size: nat)

  function Start(report: seq<u8>, size: nat): State { State(Running, 0, 0, 0, report, size) }

  predicate Good(s: State) { s.size <= |s.report| && s.total <= s.size }

  /** What the next request asks for; `portionLength` is the most the host takes at once. */
  function NextRequest(s: State, portionLength: u16): Request {
    Request(s.offset, if s.offset != 0 && s.remainder < portionLength then s.remainder else portionLength)
  }

  /** One round. */
  function Round(s: State, r: Reply): (s': State)
    requires s.outcome.Running? && Good(s)
    ensures s'.outcome.Running? ==> Good(s') && s'.size == s.size
  {
    var total := if s.offset == 0 then |r.portion| + r.remainder else s.total;
    if !r.ok || !r.sized then s.(outcome := Failed)
    else if s.offset == 0 && total > s.size then s.(outcome := Failed, total := total, size := total)
    else if s.offset != 0 && s.total != s.offset + |r.portion| + r.remainder then s.(outcome := Failed)
    else
      var next := State(Running, (s.offset + |r.portion|) % TWO_16, r.remainder, total,
                        Overwrite(s.report, s.offset, r.portion), s.size);
      if r.remainder == 0 then next.(outcome := Done, size := total) else next
  }

  /** The state after the replies so far. */
  function Run(s: State, replies: seq<Reply>): (s': State)
    requires Good(s)
    ensures s'.outcome.Running? ==> Good(s')
  {
    if replies == [] then s
    else
      var before := Run(s, replies[..|replies| - 1]);
      if before.outcome.Running? then Round(before, replies[|replies| - 1]) else before
  }

  /** All that the device has sent. */
  function Concat(replies: seq<Reply>): seq<u8> {
    if replies == [] then [] else Concat(replies[..|replies| - 1]) + replies[|replies| - 1].portion
  }

  /** What is true after every round that does not fail: the buffer holds the portions so far, the
      offset is their length, and offset and remainder make up the total. */
  predicate Assembled(s: State, report: seq<u8>, replies: seq<Reply>) {
    var sent := Concat(replies);
    && |sent| <= |report| && s.report == sent + report[|sent|..]
    && s.offset == |sent|
    && (replies != [] ==> s.offset + s.remainder == s.total <= |report|)
  }

  lemma ConcatNext(report: seq<u8>, sent: seq<u8>, portion: seq<u8>)
    requires |sent| + |portion| <= |report|
    ensures Overwrite(sent + report[|sent|..], |sent|, portion) == sent + portion + report[|sent| + |portion|..]
  {
  }

  /** What a round that does not fail does. */
  lemma RoundFacts(s: State, r: Reply)
    requires s.outcome.Running? && Good(s) && Round(s, r).outcome != Failed
    ensures var s' := Round(s, r);
      && s.offset + |r.portion| <= |s.report| && s.offset + |r.portion| + r.remainder == s'.total <= s.size
      && s'.report == Overwrite(s.report, s.offset, r.portion)
      && s'.offset == (s.offset + |r.portion|) % TWO_16 && s'.remainder == r.remainder
  {
  }

  lemma ConcatSnoc(before: seq<Reply>, r: Reply)
    ensures Concat(before + [r]) == Concat(before) + r.portion
  {
    assert (before + [r])[..|before|] == before;
  }

  /** With a buffer of at most 65535 bytes the offset does not wrap. */
  lemma RoundAssembles(s: State, report: seq<u8>, before: seq<Reply>, r: Reply)
    requires s.outcome.Running? && Good(s) && s.size <= |report| && s.size < TWO_16
    requires Assembled(s, report, before)
    ensures Round(s, r).outcome != Failed ==> Assembled(Round(s, r), report, before + [r])
  {
    if Round(s, r).outcome != Failed {
      RoundFacts(s, r);
      ConcatSnoc(before, r);
      ConcatNext(report, Concat(before), r.portion);
    }
  }

  /** A run that has not failed has assembled the portions so far. */
  lemma {:induction false} RunAssembles(report: seq<u8>, size: nat, replies: seq<Reply>)
    requires size <= |report| && size < TWO_16
    ensures var s := Run(Start(report, size), replies);
      && (s.outcome != Failed ==> s.outcome.Done? || Assembled(s, report, replies))
      && (s.outcome.Running? ==> s.size == size && (replies != [] ==> s.remainder != 0))
  {
    if replies != [] {
      var n := |replies| - 1;
      RunAssembles(report, size, replies[..n]);
      var before := Run(Start(report, size), replies[..n]);
      if before.outcome.Running? {
        RoundAssembles(before, report, replies[..n], replies[n]);
        assert replies[..n] + [replies[n]] == replies;
      }
    }
  }

  lemma LastRound(report: seq<u8>, size: nat, before: seq<Reply>, r: Reply)
    requires size <= |report| && size < TWO_16
    requires Run(Start(report, size), before).outcome.Running?
    requires Round(Run(Start(report, size), before), r).outcome.Done?
    ensures var s, sent := Round(Run(Start(report, size), before), r), Concat(before + [r]);
      s.size == |sent| <= size && s.report == sent + report[|sent|..] && r.remainder == 0
  {
    RunAssembles(report, size, before);
    RoundAssembles(Run(Start(report, size), before), report, before, r);
  }

  /** A run that ends normally leaves the concatenation of the portions in the buffer, nothing behind
      it, and its length as the size of the report, whatever the device sends. */
  lemma {:induction false} Reassembled(report: seq<u8>, size: nat, replies: seq<Reply>) returns (used: nat)
    requires size <= |report| && size < TWO_16 && Run(Start(report, size), replies).outcome.Done?
    ensures used <= |replies|
    ensures var s, sent := Run(Start(report, size), replies), Concat(replies[..used]);
      s.size == |sent| <= size && s.report == sent + report[|sent|..]
    ensures used > 0 && replies[used - 1].remainder == 0 &&
      Run(Start(report, size), replies[..used - 1]).outcome.Running?
  {
    var n := |replies| - 1;
    var before := Run(Start(report, size), replies[..n]);
    if before.outcome.Running? {
      used := |replies|;
      LastRound(report, size, replies[..n], replies[n]);
      assert replies[..n] + [replies[n]] == replies == replies[..used];
    } else {
      used := Reassembled(report, size, replies[..n]);
      assert replies[..n][..used] == replies[..used] && replies[..n][..used - 1] == replies[..used - 1];
    }
  }

  // ------------------------------------------------------------ termination

  /** How many portions are not empty. */
  function Filled(replies: seq<Reply>): nat {
    if replies == [] then 0
    else Filled(replies[..|replies| - 1]) + if replies[|replies| - 1].portion == [] then 0 else 1
  }

  lemma {:induction false} FilledBound(replies: seq<Reply>)
    ensures Filled(replies) <= |Concat(replies)|
  {
    if replies != [] {
      FilledBound(replies[..|replies| - 1]);
    }
  }

  /** While the loop runs the remainder is what is still missing, so the device cannot have sent more
      portions that are not empty than the buffer has bytes: if all are, the loop ends. */
  lemma RoundsBounded(report: seq<u8>, size: nat, replies: seq<Reply>)
    requires size <= |report| && size < TWO_16 && replies != []
    requires Run(Start(report, size), replies).outcome.Running?
    ensures var s := Run(Start(report, size), replies);
      s.remainder == s.total - |Concat(replies)| && Filled(replies) < s.total <= size
  {
    RunAssembles(report, size, replies);
    FilledBound(replies);
  }

  /** Empty portions are recorded as a failed check, but they do not end the loop: a device that keeps
      sending them keeps it running, asking for the same bytes again. */
  lemma {:induction false} EmptyPortionsNeverEnd(report: seq<u8>, size: nat, remainder: u16, n: nat)
    requires size <= |report| && 0 < remainder <= size
    ensures Run(Start(report, size), seq(n, _ => Reply(true, true, [], remainder))) ==
      if n == 0 then Start(report, size) else State(Running, 0, remainder, remainder, report, size)
  {
    if n > 0 {
      EmptyPortionsNeverEnd(report, size, remainder, n - 1);
      var replies := seq(n, _ => Reply(true, true, [], remainder));
      assert replies[..n - 1] == seq(n - 1, _ => Reply(true, true, [], remainder));
      assert Overwrite(report, 0, []) == report;
    }
  }

  /** The first `n` replies of a device that never stops answering. */
  function Taken(f: nat -> Reply, n: nat): (r: seq<Reply>)
    ensures |r| == n
  {
    seq(n, k requires k >= 0 => f(k))
  }

  lemma TakenNext(f: nat -> Reply, n: nat)
    ensures Taken(f, n + 1)[..n] == Taken(f, n) && Taken(f, n + 1)[n] == f(n)
  {
  }

  function After(report: seq<u8>, size: nat, f: nat -> Reply, n: nat): State
    requires size <= |report|
  {
    Run(Start(report, size), Taken(f, n))
  }

  ghost predicate Forever(report: seq<u8>, size: nat, f: nat -> Reply)
    requires size <= |report|
  {
    forall n: nat :: After(report, size, f, n).outcome.Running?
  }

  /** A reply that gets the loop nowhere: an empty portion that leaves everything still missing.
      As long as nothing has come, what is missing may be said to be anything the buffer can hold. */
  predicate Idle(s: State, r: Reply) {
    && r.ok && r.sized && r.portion == []
    && if s.offset == 0 then 0 < r.remainder <= s.size else r.remainder == s.total - s.offset
  }

  /** One more round of a run that goes on. */
  lemma NextAfter(report: seq<u8>, size: nat, f: nat -> Reply, n: nat)
    requires size <= |report| && size < TWO_16 && After(report, size, f, n).outcome.Running?
    ensures After(report, size, f, n + 1) == Round(After(report, size, f, n), f(n))
    ensures var s, s' := After(report, size, f, n), After(report, size, f, n + 1);
      && s.size == size && s.offset <= size && (s.offset != 0 ==> s.offset < s.total)
      && (s'.outcome.Running? ==> s'.offset == s.offset + |f(n).portion| && (s.offset != 0 ==> s'.total == s.total))
      && (s'.outcome.Running? && f(n).portion == [] ==> Idle(s, f(n)))
      && (Idle(s, f(n)) ==> s'.outcome.Running? && s'.offset == s.offset)
  {
    TakenNext(f, n);
    RunAssembles(report, size, Taken(f, n));
    RunAssembles(report, size, Taken(f, n + 1));
    var s, s' := After(report, size, f, n), After(report, size, f, n + 1);
    if s'.outcome.Running? {
      RoundFacts(s, f(n));
    }
  }

  /** Offset and, behind the first byte, total of an endless run: the offset never falls. */
  lemma {:induction false} ForeverGrows(report: seq<u8>, size: nat, f: nat -> Reply, n: nat, m: nat)
    requires size <= |report| && size < TWO_16 && Forever(report, size, f) && n <= m
    ensures After(report, size, f, n).offset <= After(report, size, f, m).offset <= size
    ensures After(report, size, f, n).offset != 0 ==> After(report, size, f, m).total == After(report, size, f, n).total
    decreases m - n
  {
    NextAfter(report, size, f, m);
    if n < m {
      NextAfter(report, size, f, n);
      assert After(report, size, f, n + 1).outcome.Running?;
      ForeverGrows(report, size, f, n + 1, m);
    }
  }

  /** So it comes to a halt. */
  lemma {:induction false} ForeverHalts(report: seq<u8>, size: nat, f: nat -> Reply, n: nat) returns (h: nat)
    requires size <= |report| && size < TWO_16 && Forever(report, size, f)
    ensures forall m | h <= m :: After(report, size, f, m).offset == After(report, size, f, h).offset
    decreases size - After(report, size, f, n).offset
  {
    ForeverGrows(report, size, f, n, n);
    if m :| n <= m && After(report, size, f, m).offset != After(report, size, f, n).offset {
      ForeverGrows(report, size, f, n, m);
      h := ForeverHalts(report, size, f, m);
    } else {
      h := n;
    }
  }

  lemma {:induction false} IdleOn(report: seq<u8>, size: nat, f: nat -> Reply, h: nat, m: nat)
    requires size <= |report| && size < TWO_16 && h <= m && After(report, size, f, h).outcome.Running?
    requires forall n | h <= n :: Idle(After(report, size, f, h), f(n))
    ensures var s, s' := After(report, size, f, h), After(report, size, f, m);
      s'.outcome.Running? && SamePlace(s, s')
  {
    if h < m {
      IdleOn(report, size, f, h, m - 1);
      NextAfter(report, size, f, h);
      IdleAgain(report, size, f, After(report, size, f, h), m - 1);
    }
  }

  /** The same place in the report, and the same total behind the first byte. */
  predicate SamePlace(s: State, s': State) { s'.offset == s.offset && (s.offset != 0 ==> s'.total == s.total) }

  /** What is idle stays so, and keeps the place. */
  lemma IdleAgain(report: seq<u8>, size: nat, f: nat -> Reply, s: State, m: nat)
    requires size <= |report| && size < TWO_16 && After(report, size, f, m).outcome.Running?
    requires SamePlace(s, After(report, size, f, m)) && s.size == size && Idle(s, f(m))
    ensures After(report, size, f, m + 1).outcome.Running? && SamePlace(s, After(report, size, f, m + 1))
  {
    NextAfter(report, size, f, m);
  }

  lemma {:induction false} RanBefore(report: seq<u8>, size: nat, f: nat -> Reply, n: nat, m: nat)
    requires size <= |report| && n <= m && After(report, size, f, m).outcome.Running?
    ensures After(report, size, f, n).outcome.Running?
  {
    if n < m {
      TakenNext(f, m - 1);
      RanBefore(report, size, f, n, m - 1);
    }
  }

  /** When the loop ends: it runs forever if and only if from some round on, still running, it gets
      nothing but empty portions that leave the same remainder. */
  lemma ForeverExactly(report: seq<u8>, size: nat, f: nat -> Reply)
    requires size <= |report| && size < TWO_16
    ensures Forever(report, size, f) <==>
      exists h: nat :: After(report, size, f, h).outcome.Running? && forall n | h <= n ::
        Idle(After(report, size, f, h), f(n))
  {
    if Forever(report, size, f) {
      var h := ForeverHalts(report, size, f, 0);
      forall n | h <= n ensures Idle(After(report, size, f, h), f(n)) {
        ForeverGrows(report, size, f, h, n);
        NextAfter(report, size, f, n);
        NextAfter(report, size, f, h);
        assert After(report, size, f, n + 1).outcome.Running?;
      }
      assert After(report, size, f, h).outcome.Running?;
    }
    if h: nat :| After(report, size, f, h).outcome.Running? && forall n | h <= n ::
      Idle(After(report, size, f, h), f(n)) {
      forall m: nat ensures After(report, size, f, m).outcome.Running? {
        if h <= m {
          IdleOn(report, size, f, h, m);
        } else {
          RanBefore(report, size, f, m, h);
        }
      }
    }
  }

  /** Every request after the first byte asks for bytes of the report, and for at least one. */
  lemma RequestsInside(report: seq<u8>, size: nat, replies: seq<Reply>, portionLength: u16)
    requires size <= |report| && size < TWO_16 && 0 < portionLength
    requires Run(Start(report, size), replies).outcome.Running?
    ensures var s := Run(Start(report, size), replies); var q := NextRequest(s, portionLength);
      && q.offset == |Concat(replies)| && 0 < q.length <= portionLength
      && (q.offset != 0 ==> q.offset + q.length <= s.total <= size)
      // as many as are missing, but no more than the host takes at once
      && (q.offset == 0 ==> q.length == portionLength)
      && (q.offset != 0 ==>
            q.length == if s.total - q.offset < portionLength then s.total - q.offset else portionLength)
  {
    RunAssembles(report, size, replies);
  }

  // ------------------------------------------------------------ when a run ends, and how

  /** Reply `k` is one the loop accepts: well formed, and with as much as was missing before.  As long as nothing
      has come, it may be anything that the buffer can hold. */
  predicate Accepted(replies: seq<Reply>, k: nat, size: nat)
    requires k < |replies|
  {
    && replies[k].ok && replies[k].sized
    && if k == 0 || Concat(replies[..k]) == [] then |replies[k].portion| + replies[k].remainder <= size
       else |replies[k].portion| + replies[k].remainder == replies[k - 1].remainder
  }

  /** The first `n` replies are accepted, and leave something missing. */
  predicate GoesOn(replies: seq<Reply>, n: nat, size: nat)
    requires n <= |replies|
  {
    forall k: nat | k < n :: Accepted(replies, k, size) && replies[k].remainder != 0
  }

  lemma AcceptedPrefix(replies: seq<Reply>, n: nat, size: nat)
    requires n <= |replies|
    ensures forall k: nat | k < n :: Accepted(replies[..n], k, size) <==> Accepted(replies, k, size)
    ensures forall m: nat | m <= n :: GoesOn(replies[..n], m, size) <==> GoesOn(replies, m, size)
  {
    forall k: nat | k < n ensures Accepted(replies[..n], k, size) <==> Accepted(replies, k, size) {
      assert replies[..n][..k] == replies[..k];
    }
  }

  /** When a round goes on, ends or fails. */
  lemma RoundOutcome(s: State, r: Reply)
    requires s.outcome.Running? && Good(s)
    ensures var missing := |r.portion| + r.remainder;
      var accepted := r.ok && r.sized && if s.offset == 0 then missing <= s.size else s.offset + missing == s.total;
      Round(s, r).outcome == if !accepted then Failed else if r.remainder == 0 then Done else Running
  {
  }

  /** What is known before the reply behind `before`. */
  lemma AcceptedHere(s: State, report: seq<u8>, size: nat, before: seq<Reply>, r: Reply)
    requires Assembled(s, report, before) && s.size == size
    requires before != [] ==> s.remainder == before[|before| - 1].remainder
    ensures Accepted(before + [r], |before|, size) <==>
      var missing := |r.portion| + r.remainder;
      r.ok && r.sized && if s.offset == 0 then missing <= s.size else s.offset + missing == s.total
  {
    var replies := before + [r];
    assert replies[..|before|] == before;
    if before != [] {
      assert replies[|before| - 1] == before[|before| - 1];
    }
  }

  lemma LastRemainder(report: seq<u8>, size: nat, replies: seq<Reply>)
    requires size <= |report| && replies != [] && Run(Start(report, size), replies).outcome.Running?
    ensures Run(Start(report, size), replies).remainder == replies[|replies| - 1].remainder
  {
  }

  /** The last round of a run that went on until then. */
  lemma LastOutcome(report: seq<u8>, size: nat, before: seq<Reply>, r: Reply)
    requires size <= |report| && size < TWO_16 && Run(Start(report, size), before).outcome.Running?
    ensures Run(Start(report, size), before + [r]).outcome ==
      if !Accepted(before + [r], |before|, size) then Failed else if r.remainder == 0 then Done else Running
  {
    var s := Run(Start(report, size), before);
    RunAssembles(report, size, before);
    if before != [] {
      LastRemainder(report, size, before);
    }
    AcceptedHere(s, report, size, before, r);
    RoundOutcome(s, r);
    assert (before + [r])[..|before|] == before;
  }

  /** Reply `k` is the first that is not accepted or leaves nothing missing. */
  predicate StopsAt(replies: seq<Reply>, k: nat, size: nat)
    requires k < |replies|
  {
    GoesOn(replies, k, size) && !(Accepted(replies, k, size) && replies[k].remainder != 0)
  }

  /** How the run of `replies` stands. */
  ghost predicate Stands(replies: seq<Reply>, size: nat, outcome: Outcome) {
    match outcome
    case Running => GoesOn(replies, |replies|, size)
    case Done => exists k: nat | k < |replies| :: StopsAt(replies, k, size) && Accepted(replies, k, size)
    case Failed => exists k: nat | k < |replies| :: StopsAt(replies, k, size) && !Accepted(replies, k, size)
  }

  lemma StandsOn(replies: seq<Reply>, n: nat, size: nat, outcome: Outcome)
    requires n <= |replies| && !outcome.Running? && Stands(replies[..n], size, outcome)
    ensures Stands(replies, size, outcome)
  {
    AcceptedPrefix(replies, n, size);
    var k: nat :| k < n && StopsAt(replies[..n], k, size) &&
      (Accepted(replies[..n], k, size) <==> outcome.Done?);
    assert StopsAt(replies, k, size);
  }

  /** It cannot stand in two ways. */
  lemma StandsOneWay(replies: seq<Reply>, size: nat, a: Outcome, b: Outcome)
    requires Stands(replies, size, a) && Stands(replies, size, b)
    ensures a == b
  {
  }

  lemma NowStands(before: seq<Reply>, r: Reply, size: nat, outcome: Outcome)
    requires GoesOn(before, |before|, size)
    requires outcome ==
      if !Accepted(before + [r], |before|, size) then Failed else if r.remainder == 0 then Done else Running
    ensures Stands(before + [r], size, outcome)
  {
    var replies := before + [r];
    assert replies[..|before|] == before;
    AcceptedPrefix(replies, |before|, size);
    assert GoesOn(replies, |before|, size);
    if !outcome.Running? {
      assert StopsAt(replies, |before|, size);
    }
  }

  /** The run of `replies` stands as it does.  Veiled, so that the induction opens neither runs nor lists. */
  ghost predicate RunStandsAt(report: seq<u8>, size: nat, replies: seq<Reply>)
    requires size <= |report|
  {
    forall d: nat {:trigger Look(d)} | Look(d) :: Stands(replies, size, Run(Start(report, size), replies).outcome)
  }

  lemma NoRunStands(report: seq<u8>, size: nat)
    requires size <= |report|
    ensures RunStandsAt(report, size, [])
  {
  }

  lemma NextRunStands(report: seq<u8>, size: nat, before: seq<Reply>, r: Reply)
    requires size <= |report| && size < TWO_16 && RunStandsAt(report, size, before)
    ensures RunStandsAt(report, size, before + [r])
  {
    assert Look(0);
    var outcome := Run(Start(report, size), before).outcome;
    if outcome.Running? {
      LastOutcome(report, size, before, r);
      NowStands(before, r, size, Run(Start(report, size), before + [r]).outcome);
    } else {
      EndedBefore(report, size, before, r);
      assert (before + [r])[..|before|] == before;
      StandsOn(before + [r], |before|, size, outcome);
    }
  }

  lemma EndedBefore(report: seq<u8>, size: nat, before: seq<Reply>, r: Reply)
    requires size <= |report| && !Run(Start(report, size), before).outcome.Running?
    ensures Run(Start(report, size), before + [r]) == Run(Start(report, size), before)
  {
    assert (before + [r])[..|before|] == before;
  }

  lemma {:induction false} RunStands(report: seq<u8>, size: nat, replies: seq<Reply>)
    requires size <= |report| && size < TWO_16
    ensures RunStandsAt(report, size, replies)
  {
    if replies == [] {
      NoRunStands(report, size);
    } else {
      var n := |replies| - 1;
      RunStands(report, size, replies[..n]);
      NextRunStands(report, size, replies[..n], replies[n]);
      assert replies[..n] + [replies[n]] == replies;
    }
  }

  /** How a run stands, whatever the device sends: it goes on exactly as long as the replies are accepted and
      leave something missing, ends normally exactly with the first accepted one that leaves nothing
      missing, and fails exactly with the first that is not accepted. */
  lemma RunExactly(report: seq<u8>, size: nat, replies: seq<Reply>, outcome: Outcome)
    requires size <= |report| && size < TWO_16
    ensures Run(Start(report, size), replies).outcome == outcome <==> Stands(replies, size, outcome)
  {
    RunStands(report, size, replies);
    assert Look(0);
    if Stands(replies, size, outcome) {
      StandsOneWay(replies, size, outcome, Run(Start(report, size), replies).outcome);
    }
  }

  // ------------------------------------------------------------ a device that keeps to the rules

  /** The bytes that come before the `k`-th portion ... */
  function Front(replies: seq<Reply>, k: nat): seq<u8>
    requires k <= |replies|
  {
    if k == 0 then [] else Front(replies, k - 1) + replies[k - 1].portion
  }

  /** ... and their number, the place where it belongs. */
  function Place(replies: seq<Reply>, k: nat): nat
    requires k <= |replies|
  {
    |Front(replies, k)|
  }

  lemma {:induction false} FrontIsConcat(replies: seq<Reply>, k: nat)
    requires k <= |replies|
    ensures Front(replies, k) == Concat(replies[..k])
    ensures k == |replies| ==> Front(replies, k) == Concat(replies)
  {
    assert replies[..|replies|] == replies;
    if k > 0 {
      FrontIsConcat(replies, k - 1);
      assert replies[..k][..k - 1] == replies[..k - 1];
    }
  }

  /** Every reply is well formed, brings something and says what is still missing then. */
  predicate Faithful(replies: seq<Reply>) {
    replies != [] && forall k | 0 <= k < |replies| :: FaithfulAt(replies, k)
  }

  predicate FaithfulAt(replies: seq<Reply>, k: nat)
    requires k < |replies|
  {
    && replies[k].ok && replies[k].sized && replies[k].portion != []
    && Place(replies, k + 1) + replies[k].remainder == Place(replies, |replies|)
  }

  /** The run ended normally with the whole report in the buffer. */
  predicate Right(s: State, report: seq<u8>, whole: seq<u8>) {
    s.outcome.Done? && s.size == |whole| <= |report| && s.report == whole + report[|whole|..]
  }

  lemma {:induction false} PlacesGrow(replies: seq<Reply>, k: nat, m: nat)
    requires Faithful(replies) && k <= m <= |replies|
    ensures Place(replies, k) + (m - k) <= Place(replies, m) <= Place(replies, |replies|)
    decreases m - k
  {
    if k < m {
      PlacesGrow(replies, k, m - 1);
      assert FaithfulAt(replies, m - 1);
    } else if m > 0 {
      assert FaithfulAt(replies, m - 1);
    }
  }

  /** Where the loop stands before the `k`-th reply, as long as no portion before began behind 65535. */
  predicate Midway(s: State, report: seq<u8>, size: nat, replies: seq<Reply>, k: nat)
    requires k <= |replies|
  {
    var sent := Front(replies, k);
    && |sent| <= |report| && s.report == sent + report[|sent|..]
    && s.offset == |sent| % TWO_16
    && (k > 0 ==> s.total == Place(replies, |replies|) && s.remainder == s.total - |sent|)
    && (if k == |replies| then s.outcome.Done? && s.size == s.total else s.outcome.Running? && s.size == size)
  }

  lemma MidwayNext(s: State, report: seq<u8>, size: nat, replies: seq<Reply>, k: nat)
    requires Faithful(replies) && k < |replies| && Place(replies, |replies|) <= size <= |report|
    requires Midway(s, report, size, replies, k) && Good(s) && Place(replies, k) < TWO_16
    ensures Midway(Round(s, replies[k]), report, size, replies, k + 1)
  {
    assert FaithfulAt(replies, k);
    PlacesGrow(replies, k + 1, |replies|);
    if k > 0 { PlacesGrow(replies, 0, k); }
    FaithfulRound(s, replies[k], Front(replies, k), report, Place(replies, |replies|), k == 0);
  }

  /** One round on a reply that says what is missing. */
  lemma FaithfulRound(s: State, r: Reply, sent: seq<u8>, report: seq<u8>, total: nat, first: bool)
    requires Good(s) && s.outcome.Running? && r.ok && r.sized && |sent| == s.offset &&
      |sent| + |r.portion| + r.remainder == total
    requires total <= s.size && total <= |report| && s.report == sent + report[|sent|..]
    requires if first then sent == [] else sent != [] && s.total == total
    ensures var s' := Round(s, r);
      && s'.report == (sent + r.portion) + report[|sent + r.portion|..]
      && s'.offset == |sent + r.portion| % TWO_16 && s'.total == total && s'.remainder == r.remainder
      && if r.remainder == 0 then s'.outcome.Done? && s'.size == total else s'.outcome.Running? && s'.size == s.size
  {
    ConcatNext(report, sent, r.portion);
  }

  lemma {:induction false} FaithfulRun(report: seq<u8>, size: nat, replies: seq<Reply>, k: nat)
    requires Faithful(replies) && k <= |replies| && Place(replies, |replies|) <= size <= |report|
    requires k > 0 ==> Place(replies, k - 1) < TWO_16
    ensures Midway(Run(Start(report, size), replies[..k]), report, size, replies, k)
  {
    if k > 0 {
      var before := Run(Start(report, size), replies[..k - 1]);
      if k > 1 { PlacesGrow(replies, k - 2, k - 1); }
      FaithfulRun(report, size, replies, k - 1);
      assert replies[..k][..k - 1] == replies[..k - 1];
      assert Run(Start(report, size), replies[..k]) == Round(before, replies[k - 1]);
      MidwayNext(before, report, size, replies, k - 1);
    }
  }

  /** The first portion that begins behind 65535. */
  lemma {:induction false} FirstBeyond(replies: seq<Reply>, n: nat) returns (k: nat)
    requires n <= |replies| && TWO_16 <= Place(replies, n)
    ensures 0 < k <= n && Place(replies, k - 1) < TWO_16 <= Place(replies, k)
  {
    if TWO_16 <= Place(replies, n - 1) {
      k := FirstBeyond(replies, n - 1);
    } else {
      k := n;
    }
  }

  lemma {:induction false} RunConcat(s: State, a: seq<Reply>, b: seq<Reply>)
    requires Good(s) && Run(s, a).outcome.Running?
    ensures Run(s, a + b) == Run(Run(s, a), b)
  {
    if b == [] {
      assert a + b == a;
    } else {
      RunConcat(s, a, b[..|b| - 1]);
      assert (a + b)[..|a + b| - 1] == a + b[..|b| - 1];
    }
  }

  /** With the offset at 0 a round takes its reply for the first one, whatever went before. */
  lemma {:induction false} StartsAgain(s: State, b: seq<Reply>)
    requires Good(s) && s.outcome.Running? && s.offset == 0
    requires b != [] && b[0].ok && b[0].sized && |b[0].portion| + b[0].remainder <= s.size
    ensures Run(s, b) == Run(Start(s.report, s.size), b)
  {
    var n := |b| - 1;
    if n > 0 {
      StartsAgain(s, b[..n]);
    }
  }

  /** The rest of a faithful exchange is faithful about the rest of the report. */
  lemma {:induction false} FrontOfRest(replies: seq<Reply>, k: nat, m: nat)
    requires k + m <= |replies|
    ensures Front(replies, k + m) == Front(replies, k) + Front(replies[k..], m)
  {
    if m > 0 {
      FrontOfRest(replies, k, m - 1);
    }
  }

  lemma RestFaithful(replies: seq<Reply>, k: nat)
    requires Faithful(replies) && k < |replies|
    ensures Faithful(replies[k..])
  {
    forall m: nat | m < |replies| - k ensures FaithfulAt(replies[k..], m) {
      RestFaithfulAt(replies, k, m);
    }
  }

  lemma RestFaithfulAt(replies: seq<Reply>, k: nat, m: nat)
    requires k + m < |replies| && FaithfulAt(replies, k + m)
    ensures FaithfulAt(replies[k..], m)
  {
    FrontOfRest(replies, k, |replies| - k);
    FrontOfRest(replies, k, m + 1);
    assert Place(replies, k + (m + 1)) == Place(replies, k) + Place(replies[k..], m + 1);
    assert Place(replies, k + (|replies| - k)) == Place(replies, k) + Place(replies[k..], |replies| - k);
  }

  /** The offset has wrapped to a place other than 0: the totals do not match. */
  lemma WrappedIsRefused(report: seq<u8>, size: nat, replies: seq<Reply>, k: nat)
    requires Faithful(replies) && 0 < k < |replies| && Place(replies, |replies|) <= size <= |report|
    requires Place(replies, k - 1) < TWO_16 < Place(replies, k)
    ensures Run(Start(report, size), replies).outcome.Failed?
  {
    FaithfulRun(report, size, replies, k);
    RefusedRound(Run(Start(report, size), replies[..k]), report, size, replies, k);
    FailsAt(Start(report, size), replies, k);
  }

  lemma FailsAt(start: State, replies: seq<Reply>, k: nat)
    requires Good(start) && k < |replies|
    requires Run(start, replies[..k]).outcome.Running? && Round(Run(start, replies[..k]), replies[k]).outcome.Failed?
    ensures Run(start, replies).outcome.Failed?
  {
    assert replies[..k + 1][..k] == replies[..k];
    StaysEnded(start, replies, k + 1);
  }

  lemma RefusedRound(s: State, report: seq<u8>, size: nat, replies: seq<Reply>, k: nat)
    requires Faithful(replies) && 0 < k < |replies| && Midway(s, report, size, replies, k) && Good(s)
    requires TWO_16 < Place(replies, k) < 2 * TWO_16
    ensures Round(s, replies[k]).outcome.Failed?
  {
    assert FaithfulAt(replies, k);
  }

  /** The offset has wrapped to 0: the rest of the report is taken for a report of its own. */
  lemma WrappedIsTruncated(report: seq<u8>, size: nat, replies: seq<Reply>, k: nat)
    requires Faithful(replies) && 0 < k < |replies| && Place(replies, |replies|) <= size <= |report|
    requires Place(replies, k - 1) < TWO_16 == Place(replies, k)
    ensures Front(replies, |replies|) == Front(replies, k) + Front(replies[k..], |replies| - k)
    ensures Right(Run(Start(report, size), replies), Front(replies, k) + report[TWO_16..],
      Front(replies[k..], |replies| - k))
  {
    FrontOfRest(replies, k, |replies| - k);
    RestFaithful(replies, k);
    FaithfulRun(report, size, replies, k);
    PlacesGrow(replies, k, |replies|);
    assert FaithfulAt(replies, k - 1);
    assert replies[..k] + replies[k..] == replies;
    RunConcat(Start(report, size), replies[..k], replies[k..]);
    RestRuns(Run(Start(report, size), replies[..k]), replies[k..]);
  }

  lemma RestRuns(s: State, rest: seq<Reply>)
    requires Good(s) && s.outcome.Running? && s.offset == 0
    requires Faithful(rest) && Place(rest, |rest|) <= s.size && Place(rest, |rest|) < TWO_16
    ensures Right(Run(s, rest), s.report, Front(rest, |rest|))
  {
    var n := |rest|;
    assert rest[..n] == rest;
    PlacesGrow(rest, n - 1, n);
    assert FaithfulAt(rest, 0) && Front(rest, 1) == rest[0].portion;
    StartsAgain(s, rest);
    FaithfulRun(s.report, s.size, rest, n);
  }

  /** What becomes of a report that fits the buffer, from a device that keeps to the rules.  It ends up whole
      in the buffer if and only if its last portion begins below 65536.  Otherwise the exchange fails,
      unless some portion begins at 65536 exactly: then it ends normally with the first 65536 bytes
      missing. */
  lemma FaithfulExactly(report: seq<u8>, size: nat, replies: seq<Reply>)
    requires Faithful(replies) && |Concat(replies)| <= size <= |report|
    ensures var s, whole := Run(Start(report, size), replies), Concat(replies);
      && (Right(s, report, whole) <==> Place(replies, |replies| - 1) < TWO_16)
      && (s.outcome.Failed? <==> TWO_16 <= Place(replies, |replies| - 1) && !Crosses(replies))
      && (s.outcome.Done? && s.size == |whole| - TWO_16 <==> Crosses(replies))
  {
    var n := |replies|;
    FrontIsConcat(replies, n);
    assert replies[..n] == replies;
    if Place(replies, n - 1) < TWO_16 {
      FaithfulRun(report, size, replies, n);
      forall k | 0 <= k < n ensures Place(replies, k) < TWO_16 { PlacesGrow(replies, k, n - 1); }
    } else {
      var k := FirstBeyond(replies, n - 1);
      if Place(replies, k) == TWO_16 {
        WrappedIsTruncated(report, size, replies, k);
      } else {
        WrappedIsRefused(report, size, replies, k);
        forall m | 0 <= m < n ensures Place(replies, m) != TWO_16 {
          if m < k { PlacesGrow(replies, m, k - 1); } else { PlacesGrow(replies, k, m); }
        }
      }
    }
  }

  /** Some portion begins at 65536. */
  predicate Crosses(replies: seq<Reply>) { exists k :: 0 <= k < |replies| && Place(replies, k) == TWO_16 }

  // ------------------------------------------------------------ a size that is not that of the buffer

  /** Every copy of a run ends within the first `room` bytes. */
  predicate Inside(memory: seq<u8>, size: nat, replies: seq<Reply>, room: nat)
    requires size <= |memory|
  {
    forall k | 0 <= k < |replies| :: CopyInside(Run(Start(memory, size), replies[..k]), replies[k], room)
  }

  /** The copy of one round, if it comes to that. */
  predicate CopyInside(s: State, r: Reply, room: nat)
    requires s.outcome.Running? ==> Good(s)
  {
    s.outcome.Running? && Round(s, r).outcome != Failed ==> s.offset + |r.portion| <= room
  }

  predicate Short(replies: seq<Reply>, portionLength: u16) {
    forall k | 0 <= k < |replies| :: |replies[k].portion| <= portionLength
  }

  function Zeros(n: nat): (s: seq<u8>)
    ensures |s| == n
  {
    seq<u8>(n, _ => 0)
  }

  lemma {:induction false} RunKeepsSize(memory: seq<u8>, size: nat, replies: seq<Reply>)
    requires size <= |memory|
    ensures Run(Start(memory, size), replies).outcome.Running? ==> Run(Start(memory, size), replies).size == size
  {
    if replies != [] {
      RunKeepsSize(memory, size, replies[..|replies| - 1]);
    }
  }

  lemma RunSnoc(memory: seq<u8>, size: nat, replies: seq<Reply>, r: Reply)
    requires size <= |memory| && Run(Start(memory, size), replies).outcome.Running?
    ensures Run(Start(memory, size), replies + [r]) == Round(Run(Start(memory, size), replies), r)
  {
    assert (replies + [r])[..|replies|] == replies;
  }

  /** Bytes that a first portion must have so that the rest can still be announced in 16 bits. */
  function FirstBytes(total: nat): nat { if total < TWO_16 then 1 else total - TWO_16 + 1 }

  lemma LedFirst(memory: seq<u8>, size: nat, total: nat) returns (r: Reply)
    requires total <= size <= |memory| && FirstBytes(total) < total < 2 * TWO_16 - 1
    ensures |r.portion| == FirstBytes(total)
    ensures var s := Run(Start(memory, size), [r]);
      s.outcome.Running? && s.offset == FirstBytes(total) && s.total == total
  {
    r := Reply(true, true, Zeros(FirstBytes(total)), total - FirstBytes(total));
    RunSnoc(memory, size, [], r);
    assert [] + [r] == [r];
  }

  /** A byte more. */
  lemma LedNext(memory: seq<u8>, size: nat, before: seq<Reply>) returns (r: Reply)
    requires size <= |memory| && Run(Start(memory, size), before).outcome.Running?
    requires var s := Run(Start(memory, size), before);
      0 < s.offset < TWO_16 - 1 && s.offset + 1 < s.total < s.offset + TWO_16
    ensures |r.portion| == 1
    ensures var s, s' := Run(Start(memory, size), before), Run(Start(memory, size), before + [r]);
      s'.outcome.Running? && s'.offset == s.offset + 1 && s'.total == s.total
  {
    var s := Run(Start(memory, size), before);
    r := Reply(true, true, [0], s.total - s.offset - 1);
    RunSnoc(memory, size, before, r);
  }

  /** A device can lead the loop to any place that leaves room for a last portion of full length. */
  lemma {:induction false} LedTo(memory: seq<u8>, size: nat, total: nat, portionLength: u16, at: nat)
    returns (replies: seq<Reply>)
    requires total <= size <= |memory| && 0 < portionLength < total < portionLength + TWO_16
    requires FirstBytes(total) <= at <= total - portionLength
    ensures Short(replies, portionLength)
    ensures var s := Run(Start(memory, size), replies); s.outcome.Running? && s.offset == at && s.total == total
    decreases at
  {
    if at == FirstBytes(total) {
      var first := LedFirst(memory, size, total);
      replies := [first];
    } else {
      var before := LedTo(memory, size, total, portionLength, at - 1);
      var next := LedNext(memory, size, before);
      replies := before + [next];
    }
  }

  /** ... and then to a copy that ends at `total`. */
  lemma CopyReaches(memory: seq<u8>, size: nat, total: nat, portionLength: u16) returns (replies: seq<Reply>)
    requires total <= size <= |memory| && 0 < portionLength && 0 < total < portionLength + TWO_16
    ensures Short(replies, portionLength) && !Inside(memory, size, replies, total - 1)
  {
    var before, last: Reply := [], Reply(true, true, Zeros(0), 0);
    if total <= portionLength {
      last := Reply(true, true, Zeros(total), 0);
    } else {
      before := LedTo(memory, size, total, portionLength, total - portionLength);
      last := Reply(true, true, Zeros(portionLength), 0);
    }
    replies := before + [last];
    assert replies[..|before|] == before;
    assert !CopyInside(Run(Start(memory, size), replies[..|before|]), replies[|before|], total - 1);
  }

  /** The size is the caller's word: the loop keeps its copies within the `room` that the buffer really has, whatever
      the device sends in portions of at most `portionLength`, if and only if the size is at most that, or the
      buffer has room for the farthest place an offset of 16 bits and a portion can reach.  `memory` is the
      buffer and what lies behind it. */
  lemma InsideExactly(memory: seq<u8>, size: nat, room: nat, portionLength: u16)
    requires size <= |memory| && 0 < portionLength
    ensures (forall replies | Short(replies, portionLength) :: Inside(memory, size, replies, room)) <==>
      size <= room || portionLength + TWO_16 - 1 <= room
  {
    if size <= room || portionLength + TWO_16 - 1 <= room {
      forall replies, k: nat | Short(replies, portionLength) && k < |replies|
        ensures CopyInside(Run(Start(memory, size), replies[..k]), replies[k], room)
      {
        RunKeepsSize(memory, size, replies[..k]);
      }
    } else {
      var replies := CopyReaches(memory, size, room + 1, portionLength);
    }
  }

  // ------------------------------------------------------------ a device that sends all that is asked

  function Least(a: nat, b: nat): nat { if a < b then a else b }

  /** The portion that begins at `at`. */
  function PortionAt(data: seq<u8>, portionLength: u16, at: nat): (r: seq<u8>)
    requires at <= |data|
    ensures |r| <= portionLength
  {
    data[at..Least(at + portionLength, |data|)]
  }

  /** The answers of a device that sends as much as the requests ask for. */
  function InPortions(data: seq<u8>, portionLength: u16): (r: seq<Reply>)
    requires 0 < portionLength && 0 < |data| < portionLength + TWO_16
    ensures |r| == (|data| - 1) / portionLength + 1
  {
    seq((|data| - 1) / portionLength + 1, k requires 0 <= k <= (|data| - 1) / portionLength =>
      AnswerAt(data, portionLength, k))
  }

  function AnswerAt(data: seq<u8>, portionLength: u16, k: nat): Reply
    requires 0 < portionLength && 0 < |data| < portionLength + TWO_16 && k <= (|data| - 1) / portionLength
  {
    Multiples(portionLength, k, |data| - 1);
    var portion := PortionAt(data, portionLength, portionLength * k);
    Reply(true, true, portion, |data| - portionLength * k - |portion|)
  }

  lemma Multiples(d: nat, k: nat, n: nat)
    requires 0 < d && k <= n / d
    ensures d * k <= d * (n / d) <= n
  {
  }

  lemma SliceJoin(data: seq<u8>, a: nat, b: nat)
    requires a <= b <= |data|
    ensures data[..a] + data[a..b] == data[..b]
  {
  }

  lemma FrontNext(replies: seq<Reply>, k: nat, data: seq<u8>, a: nat, b: nat)
    requires k < |replies| && a <= b <= |data|
    requires Front(replies, k) == data[..a] && replies[k].portion == data[a..b]
    ensures Front(replies, k + 1) == data[..b]
  {
    SliceJoin(data, a, b);
  }

  lemma {:induction false} PortionFront(data: seq<u8>, portionLength: u16, k: nat)
    requires 0 < portionLength && 0 < |data| < portionLength + TWO_16 && k <= (|data| - 1) / portionLength + 1
    ensures Front(InPortions(data, portionLength), k) == data[..Least(portionLength * k, |data|)]
  {
    if k > 0 {
      var at := portionLength * (k - 1);
      Multiples(portionLength, k - 1, |data| - 1);
      NextMultiple(portionLength, k - 1);
      PortionFront(data, portionLength, k - 1);
      FrontNext(InPortions(data, portionLength), k - 1, data, at, Least(at + portionLength, |data|));
    }
  }

  lemma AllSent(data: seq<u8>, portionLength: u16)
    requires 0 < portionLength && 0 < |data| < portionLength + TWO_16
    ensures var replies := InPortions(data, portionLength); Front(replies, |replies|) == data
  {
    LastMultiple(portionLength, |data|);
    PortionFront(data, portionLength, (|data| - 1) / portionLength + 1);
  }

  lemma AnswerParts(data: seq<u8>, portionLength: u16, k: nat)
    requires 0 < portionLength && 0 < |data| < portionLength + TWO_16 && k <= (|data| - 1) / portionLength
    ensures var r, end := InPortions(data, portionLength)[k], Least(portionLength * (k + 1), |data|);
      r.ok && r.sized && r.portion != [] && end + r.remainder == |data|
  {
    Multiples(portionLength, k, |data| - 1);
    NextMultiple(portionLength, k);
    assert InPortions(data, portionLength)[k] == AnswerAt(data, portionLength, k);
  }

  lemma InPortionsFaithfulAt(data: seq<u8>, portionLength: u16, k: nat)
    requires 0 < portionLength && 0 < |data| < portionLength + TWO_16 && k <= (|data| - 1) / portionLength
    ensures FaithfulAt(InPortions(data, portionLength), k)
  {
    AllSent(data, portionLength);
    PortionFront(data, portionLength, k + 1);
    AnswerParts(data, portionLength, k);
  }

  lemma InPortionsFaithful(data: seq<u8>, portionLength: u16)
    requires 0 < portionLength && 0 < |data| < portionLength + TWO_16
    ensures Faithful(InPortions(data, portionLength)) && Concat(InPortions(data, portionLength)) == data
  {
    var replies := InPortions(data, portionLength);
    AllSent(data, portionLength);
    FrontIsConcat(replies, |replies|);
    forall k: nat | k < |replies| ensures FaithfulAt(replies, k) {
      InPortionsFaithfulAt(data, portionLength, k);
    }
  }

  lemma NextMultiple(d: nat, k: nat)
    ensures d * (k + 1) == d * k + d
  {
  }

  lemma LastMultiple(d: nat, n: nat)
    requires 0 < d && 0 < n
    ensures d * ((n - 1) / d) < n <= d * ((n - 1) / d + 1)
  {
    NextMultiple(d, (n - 1) / d);
  }

  lemma Divides(d: nat, n: nat, k: nat)
    requires 0 < d
    ensures d * k == n ==> n % d == 0
    ensures n % d == 0 ==> d * (n / d) == n
  {
    var q, r := n / d, n % d;
    assert n == d * q + r;
    if d * k == n {
      assert d * (k - q) == r;
      if k > q { Smaller(d, k, q); } else if k < q { Smaller(d, q, k); }
    }
  }

  lemma Smaller(d: nat, a: nat, b: nat)
    ensures d * b < d * a ==> b < a
    ensures b < a ==> d * b + d <= d * a
  {
    if b < a {
      assert d * a == d * b + d * (a - b);
      assert d * (a - b) == d + d * (a - b - 1);
    } else {
      assert d * b == d * a + d * (b - a);
    }
  }

  /** A report of up to 65535 bytes behind the first portion, from such a device: it arrives whole if and only if
      the last portion begins below 65536; it loses its first 65536 bytes without notice if and only if
      the portion length divides 65536 and the report is longer than that; else it is refused. */
  lemma FullPortionsExactly(report: seq<u8>, size: nat, data: seq<u8>, portionLength: u16)
    requires 0 < portionLength && 0 < |data| < portionLength + TWO_16 && |data| <= size <= |report|
    ensures var s := Run(Start(report, size), InPortions(data, portionLength));
      var last := portionLength * ((|data| - 1) / portionLength);
      && (Right(s, report, data) <==> last < TWO_16)
      && (s.outcome.Done? && s.size == |data| - TWO_16 <==> TWO_16 < |data| && TWO_16 % portionLength == 0)
      && (s.outcome.Failed? <==> TWO_16 <= last && TWO_16 % portionLength != 0)
  {
    var replies, n := InPortions(data, portionLength), (|data| - 1) / portionLength;
    InPortionsFaithful(data, portionLength);
    FaithfulExactly(report, size, replies);
    LastMultiple(portionLength, |data|);
    PortionPlace(data, portionLength, n);
    CrossesExactly(data, portionLength);
  }

  lemma PortionPlace(data: seq<u8>, portionLength: u16, k: nat)
    requires 0 < portionLength && 0 < |data| < portionLength + TWO_16 && k <= (|data| - 1) / portionLength
    ensures Place(InPortions(data, portionLength), k) == portionLength * k < |data|
  {
    Multiples(portionLength, k, |data| - 1);
    PortionFront(data, portionLength, k);
  }

  lemma MultipleWithin(d: nat, n: nat, length: nat)
    requires 0 < d && n < length && n % d == 0
    ensures d * (n / d) == n && n / d <= (length - 1) / d
  {
    Divides(d, n, 0);
    LastMultiple(d, length);
    Smaller(d, (length - 1) / d + 1, n / d);
  }

  lemma CrossesExactly(data: seq<u8>, portionLength: u16)
    requires 0 < portionLength && 0 < |data| < portionLength + TWO_16
    ensures Crosses(InPortions(data, portionLength)) <==> TWO_16 < |data| && TWO_16 % portionLength == 0
  {
    var replies, d := InPortions(data, portionLength), portionLength;
    if Crosses(replies) {
      var k: nat :| k < |replies| && Place(replies, k) == TWO_16;
      PortionPlace(data, d, k);
      Divides(d, TWO_16, k);
    }
    if TWO_16 < |data| && TWO_16 % d == 0 {
      MultipleWithin(d, TWO_16, |data|);
      PortionPlace(data, d, TWO_16 / d);
    }
  }

  /** A report that is refused, and one that is cut without notice. */
  lemma LargeReports(report: seq<u8>, size: nat, data: seq<u8>)
    requires |data| == 70000 && |data| <= size <= |report|
    ensures Run(Start(report, size), InPortions(data, 6000)).outcome.Failed?
    ensures Run(Start(report, size), InPortions(data[..66000], 4096)).outcome.Done?
    ensures Run(Start(report, size), InPortions(data[..66000], 4096)).size == 464
  {
    FullPortionsExactly(report, size, data, 6000);
    FullPortionsExactly(report, size, data[..66000], 4096);
  }

  // ------------------------------------------------------------ the loop

  /** The body of the loop behind the exchange of messages. */
  method ProcessReply(s: State, r: Reply, report: array<u8>) returns (s': State)
    requires s.outcome.Running? && Good(s) && s.report == report[..]
    modifies report
    ensures s' == Round(s, r) && report[..] == s'.report
  {
    var total := s.total;
    if !r.ok || !r.sized {
      return s.(outcome := Failed);
    }
    if s.offset == 0 {
      total := |r.portion| + r.remainder;
      if total > s.size {
        return s.(outcome := Failed, total := total, size := total);
      }
    } else if total != s.offset + |r.portion| + r.remainder {
      return s.(outcome := Failed);
    }
    CopyMem(report, s.offset, r.portion);
    var offset := (s.offset + |r.portion|) % TWO_16;
    if r.remainder == 0 {
      return State(Done, offset, 0, total, report[..], total);
    }
    return State(Running, offset, r.remainder, total, report[..], s.size);
  }

  /** A request is what the replies before it ask for, and was made while the run went on.  Veiled, so that
      a list of requests does not open all the runs. */
  ghost predicate RequestMade(start: State, before: seq<Reply>, q: Request, portionLength: u16)
    requires Good(start)
  {
    forall d: nat {:trigger Look(d)} | Look(d) ::
      Run(start, before).outcome.Running? && q == NextRequest(Run(start, before), portionLength)
  }

  ghost predicate RequestsMade(start: State, replies: seq<Reply>, requests: seq<Request>, portionLength: u16)
    requires Good(start)
  {
    && |requests| <= |replies|
    && forall k | 0 <= k < |requests| :: RequestMade(start, replies[..k], requests[k], portionLength)
  }

  lemma OneMoreRequest(start: State, replies: seq<Reply>, requests: seq<Request>, s: State, portionLength: u16)
    requires Good(start) && |requests| < |replies| && RequestsMade(start, replies, requests, portionLength)
    requires s == Run(start, replies[..|requests|]) && s.outcome.Running?
    ensures RequestsMade(start, replies, requests + [NextRequest(s, portionLength)], portionLength)
  {
    ThisRequest(start, replies[..|requests|], s, portionLength);
  }

  lemma ThisRequest(start: State, before: seq<Reply>, s: State, portionLength: u16)
    requires Good(start) && s == Run(start, before) && s.outcome.Running?
    ensures RequestMade(start, before, NextRequest(s, portionLength), portionLength)
  {
  }

  /** The loop, for as many rounds as there are replies; `requests` are the messages sent. */
  method GetConfigurationReport(replies: seq<Reply>, report: array<u8>, size: nat, portionLength: u16)
    returns (s: State, requests: seq<Request>)
    requires size <= report.Length
    modifies report
    ensures s == Run(Start(old(report[..]), size), replies) && report[..] == s.report
    // as many requests as it takes: each in a run that goes on, and the run goes on no longer than that
    ensures |requests| <= |replies| && (s.outcome.Running? ==> |requests| == |replies|)
    ensures s == Run(Start(old(report[..]), size), replies[..|requests|])
    ensures RequestsMade(Start(old(report[..]), size), replies, requests, portionLength)
  {
    ghost var start := Start(report[..], size);
    s, requests := Start(report[..], size), [];
    var round := 0;
    while round < |replies| && s.outcome.Running?
      invariant |requests| == round <= |replies| && report[..] == s.report
      invariant s == Run(start, replies[..round])
      invariant RequestsMade(start, replies, requests, portionLength)
    {
      OneMoreRequest(start, replies, requests, s, portionLength);
      requests := requests + [NextRequest(s, portionLength)];
      assert replies[..round + 1][..round] == replies[..round];
      s := ProcessReply(s, replies[round], report);
      round := round + 1;
    }
    StaysEnded(start, replies, round);
    assert replies[..|replies|] == replies;
  }

  /** Nothing happens after the end. */
  lemma {:induction false} StaysEnded(start: State, replies: seq<Reply>, n: nat)
    requires Good(start) && n <= |replies|
    ensures !Run(start, replies[..n]).outcome.Running? ==> Run(start, replies) == Run(start, replies[..n])
    decreases |replies|
  {
    if n < |replies| {
      var m := |replies| - 1;
      StaysEnded(start, replies[..m], n);
      assert replies[..m][..n] == replies[..n];
    } else {
      assert replies[..n] == replies;
    }
  }

  method CopyMem(report: array<u8>, at: nat, portion: seq<u8>)
    requires at + |portion| <= report.Length
    modifies report
    ensures report[..] == Overwrite(old(report[..]), at, portion)
  {
    for k := 0 to |portion|
      invariant report[..at] == old(report[..at]) && report[at..at + k] == portion[..k]
      invariant report[at + k..] == old(report[at + k..])
    {
      report[at + k] := portion[k];
      assert report[at..at + k + 1] == report[at..at + k] + [portion[k]];
      assert report[at + k + 1..] == old(report[at + k..])[1..];
    }
  }
}
