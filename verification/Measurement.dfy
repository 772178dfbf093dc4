/** Collecting SPDM measurements one by one, when the device does not give them all at once. */
module Measurement {
  import opened Words
  import opened Veil

  const LAST_INDEX: nat := 0xFE

  /** The answer for an index: an error, or a measurement record. */
  datatype Reply = Failed | Record(bytes: seq<u8>)
  type Replies = nat -> Reply

  datatype Status = Success | InvalidStatePeer | BufferTooSmall

  /** A request for one measurement. */
  datatype Request = Request(index: nat, signature: bool)

  /** The indices below `i` that were answered with a record, in order. */
  function Answered(replies: Replies, i: nat): (r: seq<nat>)
    ensures |r| <= i && forall k | 0 <= k < |r| :: 0 < r[k] < i && replies(r[k]).Record?
  {
    if i <= 1 then []
    else if replies(i - 1).Record? then Answered(replies, i - 1) + [i - 1]
    else Answered(replies, i - 1)
  }

  lemma {:induction false} AnsweredPrefix(replies: Replies, i: nat, j: nat)
    requires i <= j
    ensures Answered(replies, i) <= Answered(replies, j)
  {
    if i < j {
      AnsweredPrefix(replies, i, j - 1);
    }
  }

  /** They are in increasing order, and none is left out. */
  lemma {:induction false} AnsweredAll(replies: Replies, i: nat, k: nat)
    requires 0 < k < i && replies(k).Record?
    ensures k in Answered(replies, i)
    ensures forall a, b | 0 <= a < b < |Answered(replies, i)| :: Answered(replies, i)[a] < Answered(replies, i)[b]
  {
    Increasing(replies, i);
    if k == i - 1 {
      assert Answered(replies, i)[|Answered(replies, i)| - 1] == k;
    } else {
      AnsweredAll(replies, i - 1, k);
    }
  }

  lemma {:induction false} Increasing(replies: Replies, i: nat)
    ensures forall a, b | 0 <= a < b < |Answered(replies, i)| :: Answered(replies, i)[a] < Answered(replies, i)[b]
  {
    if i > 1 {
      Increasing(replies, i - 1);
    }
  }

  /** The records for the given indices, one behind the other. */
  function Concat(replies: Replies, picked: seq<nat>): seq<u8>
    requires forall k | 0 <= k < |picked| :: replies(picked[k]).Record?
  {
    if picked == [] then []
    else Concat(replies, picked[..|picked| - 1]) + replies(picked[|picked| - 1]).bytes
  }

  lemma {:induction false} ConcatGrows(replies: Replies, picked: seq<nat>, n: nat)
    requires n <= |picked| && forall k | 0 <= k < |picked| :: replies(picked[k]).Record?
    ensures |Concat(replies, picked[..n])| <= |Concat(replies, picked)|
  {
    if n < |picked| {
      ConcatGrows(replies, picked[..|picked| - 1], n);
      assert picked[..|picked| - 1][..n] == picked[..n];
    } else {
      assert picked[..n] == picked;
    }
  }

  /** The first `n` indices up to `last` that answer, or all if there are fewer. */
  function Wanted(replies: Replies, n: nat, last: nat): (r: seq<nat>)
    ensures forall k | 0 <= k < |r| :: replies(r[k]).Record?
  {
    var all := Answered(replies, last + 1);
    if n <= |all| then all[..n] else all
  }

  lemma WantedBegins(replies: Replies, n: nat, i: nat, last: nat)
    requires i <= last + 1 && |Answered(replies, i)| <= n
    ensures Answered(replies, i) <= Wanted(replies, n, last)
    ensures |Answered(replies, i)| == n || i == last + 1 ==> Wanted(replies, n, last) == Answered(replies, i)
  {
    AnsweredPrefix(replies, i, last + 1);
  }

  /** Some answers do not fit: then all that are wanted do not. */
  lemma WantedTooLong(replies: Replies, n: nat, i: nat, last: nat)
    requires i <= last + 1 && |Answered(replies, i)| <= n
    ensures |Concat(replies, Answered(replies, i))| <= |Concat(replies, Wanted(replies, n, last))|
  {
    WantedBegins(replies, n, i, last);
    ConcatGrows(replies, Wanted(replies, n, last), |Answered(replies, i)|);
    assert Wanted(replies, n, last)[..|Answered(replies, i)|] == Answered(replies, i);
  }

  lemma {:induction false} AnsweredBefore(replies: Replies, i: nat, k: nat)
    requires k < |Answered(replies, i)|
    ensures |Answered(replies, Answered(replies, i)[k])| == k
  {
    if k < |Answered(replies, i - 1)| {
      AnsweredBefore(replies, i - 1, k);
    }
  }

  /** Whether the request for an index asks for a signature. */
  predicate Signed(replies: Replies, total: nat, index: nat) { |Answered(replies, index)| + 1 == total }

  /** Of the requests that were answered and counted, exactly the last one asks for a signature. */
  lemma SignatureLast(replies: Replies, total: nat, k: nat, last: nat)
    requires k < |Wanted(replies, total, last)|
    ensures Signed(replies, total, Wanted(replies, total, last)[k]) <==> k + 1 == total
  {
    AnsweredBefore(replies, last + 1, k);
  }

  /** The requests go through the indices from 1 on. */
  predicate Requested(replies: Replies, total: nat, requests: seq<Request>) {
    forall k | 0 <= k < |requests| :: requests[k] == Request(k + 1, Signed(replies, total, k + 1))
  }

  lemma RequestedNext(replies: Replies, total: nat, requests: seq<Request>, signature: bool)
    requires Requested(replies, total, requests) && signature == Signed(replies, total, |requests| + 1)
    ensures Requested(replies, total, requests + [Request(|requests| + 1, signature)])
  {
  }

  /** How far the requests go: the last is made while fewer than `total` have answered, and unless the buffer is
      full they go on until `total` have answered or the index `last` was asked for. */
  predicate AskedUpTo(replies: Replies, total: nat, asked: nat, last: nat, status: Status) {
    && asked <= last
    && (asked > 0 ==> |Answered(replies, asked)| < total)
    && (status == Success ==> |Answered(replies, asked + 1)| == total)
    && (status == InvalidStatePeer ==> asked == last && |Answered(replies, asked + 1)| < total)
  }

  /** Between two rounds: the indices below `index` are done. */
  predicate Collected(replies: Replies, index: nat, total: nat, capacity: nat, received: nat, record: seq<u8>,
                      original: seq<u8>, offset: nat)
  {
    var done := Answered(replies, index);
    && received == |done| <= total && (received > 0 ==> offset < capacity)
    && offset == |Concat(replies, done)| && Filled(record, Concat(replies, done), original)
  }

  predicate Finished(replies: Replies, total: nat, capacity: nat, last: nat, status: Status, length: nat,
                     record: seq<u8>, original: seq<u8>) {
    var wanted := Wanted(replies, total, last);
    var bytes := Concat(replies, wanted);
    && (status == Success <==> |wanted| == total && (total > 0 ==> |bytes| < capacity))
    && (status == BufferTooSmall <==> wanted != [] && |bytes| >= capacity)
    && (status == Success ==> length == |bytes| && Filled(record, bytes, original))
  }

  lemma NotAnswered(replies: Replies, index: nat)
    requires index > 0 && replies(index).Failed?
    ensures Answered(replies, index + 1) == Answered(replies, index)
  {
  }

  lemma Overflows(replies: Replies, index: nat, total: nat, capacity: nat, received: nat, record: seq<u8>,
                  original: seq<u8>, offset: nat, last: nat)
    requires Collected(replies, index, total, capacity, received, record, original, offset)
    requires 0 < index <= last && received != total && replies(index).Record? &&
      |replies(index).bytes| >= capacity - offset
    ensures Finished(replies, total, capacity, last, BufferTooSmall, offset, record, original)
  {
    AnsweredNext(replies, index);
    WantedTooLong(replies, total, index + 1, last);
    WantedBegins(replies, total, index + 1, last);
  }

  lemma Ends(replies: Replies, index: nat, total: nat, capacity: nat, received: nat, record: seq<u8>,
             original: seq<u8>, offset: nat, last: nat)
    requires Collected(replies, index, total, capacity, received, record, original, offset)
    requires index <= last + 1 && (index == last + 1 || received == total)
    ensures var status := if received != total then InvalidStatePeer else Success;
      Finished(replies, total, capacity, last, status, offset, record, original)
  {
    WantedBegins(replies, total, index, last);
  }

  method TakeRecord(replies: Replies, index: nat, total: nat, capacity: nat, received: nat, record: array<u8>,
                    ghost original: seq<u8>, offset: nat, bytes: seq<u8>)
    requires Collected(replies, index, total, capacity, received, record[..], original, offset)
    requires index > 0 && received != total && replies(index) == Record(bytes)
    requires |bytes| < capacity - offset && capacity <= record.Length
    modifies record
    ensures Collected(replies, index + 1, total, capacity, received + 1, record[..], original, offset + |bytes|)
  {
    AnsweredNext(replies, index);
    Store(record, offset, bytes, Concat(replies, Answered(replies, index)), original);
  }

  /** Asks for one measurement and stores it, if it comes and there is room. */
  method AskOne(replies: Replies, index: nat, total: nat, capacity: nat, received: nat, record: array<u8>,
                ghost original: seq<u8>, offset: nat, ghost last: nat)
    returns (full: bool, received': nat, offset': nat)
    requires Collected(replies, index, total, capacity, received, record[..], original, offset)
    requires 0 < index <= last && received != total && capacity <= record.Length
    modifies record
    ensures full ==> Finished(replies, total, capacity, last, BufferTooSmall, offset', record[..], original)
    ensures !full ==> Collected(replies, index + 1, total, capacity, received', record[..], original, offset')
    ensures received <= received' <= received + 1
  {
    full, received', offset' := false, received, offset;
    var reply := replies(index);
    if reply.Failed? {
      NotAnswered(replies, index);
    } else if |reply.bytes| >= capacity - offset {
      Overflows(replies, index, total, capacity, received, record[..], original, offset, last);
      full := true;
    } else {
      TakeRecord(replies, index, total, capacity, received, record, original, offset, reply.bytes);
      received', offset' := received + 1, offset + |reply.bytes|;
    }
  }

  /** All of it between two rounds.  Veiled, because the loop only hands it on. */
  ghost predicate Midway(replies: Replies, index: nat, total: nat, capacity: nat, received: nat, record: seq<u8>,
                         original: seq<u8>, offset: nat, requests: seq<Request>, signature: bool)
  {
    forall d: nat {:trigger Look(d)} | Look(d) ::
      && 1 <= index && |requests| == index - 1 && (signature ==> received + 1 >= total)
      && Collected(replies, index, total, capacity, received, record, original, offset)
      && Requested(replies, total, requests) && (index > 1 ==> |Answered(replies, index - 1)| < total)
  }

  /** What the loop comes to. */
  predicate Over(replies: Replies, total: nat, capacity: nat, last: nat, status: Status, length: nat,
                 record: seq<u8>, original: seq<u8>, requests: seq<Request>) {
    && Finished(replies, total, capacity, last, status, length, record, original)
    && Requested(replies, total, requests) && AskedUpTo(replies, total, |requests|, last, status)
  }

  lemma LoopEnds(replies: Replies, index: nat, total: nat, capacity: nat, received: nat, record: seq<u8>,
                 original: seq<u8>, offset: nat, last: nat, requests: seq<Request>, signature: bool)
    requires Midway(replies, index, total, capacity, received, record, original, offset, requests, signature)
    requires index <= last + 1 && (index == last + 1 || received == total)
    ensures var status := if received != total then InvalidStatePeer else Success;
      Over(replies, total, capacity, last, status, offset, record, original, requests)
  {
    assert Look(0);
    Ends(replies, index, total, capacity, received, record, original, offset, last);
  }

  /** One round: the request, which asks for a signature if only one measurement is missing, and its answer. */
  method Round(replies: Replies, index: nat, total: nat, capacity: nat, received: nat, record: array<u8>,
               ghost original: seq<u8>, offset: nat, ghost last: nat, requests: seq<Request>, signature: bool)
    returns (full: bool, received': nat, offset': nat, requests': seq<Request>, signature': bool)
    requires Midway(replies, index, total, capacity, received, record[..], original, offset, requests, signature)
    requires 0 < index <= last && received != total && capacity <= record.Length
    modifies record
    ensures full ==>
      Over(replies, total, capacity, last, BufferTooSmall, offset', record[..], original, requests')
    ensures !full ==>
      Midway(replies, index + 1, total, capacity, received', record[..], original, offset', requests', signature')
  {
    assert Look(0);
    signature' := signature || received + 1 == total;
    RequestedNext(replies, total, requests, signature');
    requests' := requests + [Request(index, signature')];
    full, received', offset' := AskOne(replies, index, total, capacity, received, record, original, offset, last);
  }

  lemma LoopBegins(replies: Replies, total: nat, capacity: nat, record: seq<u8>)
    ensures Midway(replies, 1, total, capacity, 0, record, record, 0, [], false)
  {
  }

  /** The loop over the indices up to `last`; `total` is the number of measurements the device has.  It
      succeeds if and only if so many indices answer and all their records together leave room in the
      buffer; then the buffer holds them one behind the other. */
  method CollectUpTo(replies: Replies, total: u8, record: array<u8>, capacity: nat, last: nat)
    returns (status: Status, length: nat, requests: seq<Request>)
    requires capacity <= record.Length
    modifies record
    ensures Finished(replies, total, capacity, last, status, length, record[..], old(record[..]))
    ensures Requested(replies, total, requests) && AskedUpTo(replies, total, |requests|, last, status)
  {
    ghost var original := record[..];
    var received: nat, offset: nat, signature, index: nat := 0, 0, false, 1;
    requests := [];
    LoopBegins(replies, total, capacity, record[..]);
    while index <= last && received != total
      invariant 1 <= index <= last + 1
      invariant Midway(replies, index, total, capacity, received, record[..], original, offset, requests, signature)
    {
      var full: bool;
      full, received, offset, requests, signature :=
        Round(replies, index, total, capacity, received, record, original, offset, last, requests, signature);
      if full {
        return BufferTooSmall, offset, requests;
      }
      index := index + 1;
    }
    LoopEnds(replies, index, total, capacity, received, record[..], original, offset, last, requests, signature);
    length := offset;
    status := if received != total then InvalidStatePeer else Success;
  }

  /** spdm_send_receive_get_measurement, from its second part on: indices up to 0xFE. */
  method CollectOneByOne(replies: Replies, total: u8, record: array<u8>, capacity: nat)
    returns (status: Status, length: nat, requests: seq<Request>)
    requires capacity <= record.Length
    modifies record
    ensures Finished(replies, total, capacity, LAST_INDEX, status, length, record[..], old(record[..]))
    ensures Requested(replies, total, requests) && AskedUpTo(replies, total, |requests|, 254, status)
  {
    status, length, requests := CollectUpTo(replies, total, record, capacity, LAST_INDEX);
  }

  lemma AnsweredNext(replies: Replies, i: nat)
    requires i > 0 && replies(i).Record?
    ensures |Answered(replies, i + 1)| == |Answered(replies, i)| + 1
    ensures Concat(replies, Answered(replies, i + 1)) == Concat(replies, Answered(replies, i)) + replies(i).bytes
  {
    assert Answered(replies, i + 1)[..|Answered(replies, i)|] == Answered(replies, i);
  }

  /** The record buffer begins with `bytes` and is otherwise as it was. */
  predicate Filled(record: seq<u8>, bytes: seq<u8>, original: seq<u8>) {
    |bytes| <= |original| && record == bytes + original[|bytes|..]
  }

  method Store(record: array<u8>, at: nat, bytes: seq<u8>, ghost before: seq<u8>, ghost original: seq<u8>)
    requires at + |bytes| <= record.Length && at == |before| && Filled(record[..], before, original)
    modifies record
    ensures Filled(record[..], before + bytes, original)
  {
    for k := 0 to |bytes|
      invariant record[..at + k] == before + bytes[..k]
      invariant record[at + k..] == original[at + k..]
    {
      record[at + k] := bytes[k];
      assert record[..at + k + 1] == record[..at + k] + [bytes[k]];
      assert record[at + k + 1..] == original[at + k..][1..];
    }
  }
}
