/** The pending lists of one VCHIQ service: data messages on their way to the client, the second list from which a
    VCHI service dequeues, and the bulk transfers whose completion the peer has yet to report.

    Every method is one step: the driver holds the list's mutex across each of them.
  */
module VchiqPending {
  import opened Bytes
  import opened VchiqBulk
  import opened VchiqRequests
  import opened VchiqStream

  const MSG_BULK_TX := 0
  const MSG_BULK_RX := 1
  const MSG_BULK_MAX := 2

  /** An entry of the client's completion array. */
  datatype Completion = MessageAvailable(msg: Msg) | BulkDone(msg: Msg, userData: nat)

  datatype Transfer = Sent | Failed | FailedAfterCancel

  datatype Status = Success | Unsuccessful | InsufficientResources

  predicate IsDone(m: Msg, d: nat) {
    MsgType(m.id) == if d == MSG_BULK_TX then MSG_BULK_TX_DONE else MSG_BULK_RX_DONE
  }

  predicate IsData(m: Msg) {
    MsgType(m.id) == MSG_DATA
  }

  /** The bytes a message needs in the client's buffer. */
  function BytesOf(m: Msg): nat {
    |m.payload| + HEADER_SIZE
  }

  // ---------- what a client is owed, as functions of the arrival sequence ----------

  function Datas(msgs: seq<Msg>): seq<Msg> {
    if msgs == [] then []
    else Datas(msgs[..|msgs| - 1]) + if IsData(msgs[|msgs| - 1]) then [msgs[|msgs| - 1]] else []
  }

  function Dones(msgs: seq<Msg>, d: nat): nat {
    if msgs == [] then 0
    else Dones(msgs[..|msgs| - 1], d) + if IsDone(msgs[|msgs| - 1], d) then 1 else 0
  }

  /** What is returned for `m` when it is taken after `before`: the k-th DONE of a direction speaks for the k-th
      pending bulk of that direction, and only a bulk that asked for a callback is reported. */
  function ReturnedFor(m: Msg, before: seq<Msg>, bulks: seq<seq<Bulk>>): seq<Completion>
    requires |bulks| == MSG_BULK_MAX
  {
    if IsDone(m, MSG_BULK_TX) then ReportFor(m, bulks[MSG_BULK_TX], Dones(before, MSG_BULK_TX))
    else if IsDone(m, MSG_BULK_RX) then ReportFor(m, bulks[MSG_BULK_RX], Dones(before, MSG_BULK_RX))
    else [MessageAvailable(m)]
  }

  function ReportFor(m: Msg, bulks: seq<Bulk>, k: nat): seq<Completion> {
    if k < |bulks| && WantsCallback(bulks[k]) then [BulkDone(m, bulks[k].userData)] else []
  }

  predicate WantsCallback(b: Bulk) {
    b.mode != Blocking && b.mode != NoCallback
  }

  /** The user data of the bulk completions of one direction among those returned to the client. */
  function ReportsOf(returned: seq<Completion>, d: nat): seq<nat> {
    if returned == [] then []
    else ReportsOf(returned[..|returned| - 1], d) + ReportOf(returned[|returned| - 1], d)
  }

  function ReportOf(c: Completion, d: nat): seq<nat> {
    if c.BulkDone? && IsDone(c.msg, d) then [c.userData] else []
  }

  /** The user data of the bulks that asked for a callback. */
  function Callbacks(bulks: seq<Bulk>): seq<nat> {
    if bulks == [] then []
    else Callbacks(bulks[..|bulks| - 1]) + if WantsCallback(bulks[|bulks| - 1]) then [bulks[|bulks| - 1].userData] else []
  }

  function Returned(msgs: seq<Msg>, bulks: seq<seq<Bulk>>): seq<Completion>
    requires |bulks| == MSG_BULK_MAX
  {
    if msgs == [] then []
    else Returned(msgs[..|msgs| - 1], bulks) + ReturnedFor(msgs[|msgs| - 1], msgs[..|msgs| - 1], bulks)
  }

  /** The data messages kept for a VCHI service; `refused` are the positions whose list entry could not be allocated. */
  function Tracked(msgs: seq<Msg>, refused: set<nat>): seq<Msg> {
    if msgs == [] then []
    else Tracked(msgs[..|msgs| - 1], refused)
         + if IsData(msgs[|msgs| - 1]) && |msgs| - 1 !in refused then [msgs[|msgs| - 1]] else []
  }

  /** What a service puts into its VCHI list for messages taken, and how many data messages are missing there. */
  function Kept(isVchi: bool, msgs: seq<Msg>, refused: set<nat>): seq<Msg> {
    if isVchi then Tracked(msgs, refused) else []
  }

  function Missing(isVchi: bool, msgs: seq<Msg>, refused: set<nat>): nat {
    TrackedLength(msgs, refused);
    if isVchi then |Datas(msgs)| - |Tracked(msgs, refused)| else 0
  }

  function MessagesOf(returned: seq<Completion>): seq<Msg> {
    if returned == [] then []
    else MessagesOf(returned[..|returned| - 1]) + DataOf(returned[|returned| - 1])
  }

  function DataOf(c: Completion): seq<Msg> {
    if c.MessageAvailable? && IsData(c.msg) then [c.msg] else []
  }

  lemma {:induction false} DatasConcat(a: seq<Msg>, b: seq<Msg>)
    ensures Datas(a + b) == Datas(a) + Datas(b)
  {
    if b == [] {
      assert a + b == a;
    } else {
      DatasConcat(a, b[..|b| - 1]);
      assert (a + b)[..|a + b| - 1] == a + b[..|b| - 1];
    }
  }

  lemma {:induction false} DonesConcat(a: seq<Msg>, b: seq<Msg>, d: nat)
    ensures Dones(a + b, d) == Dones(a, d) + Dones(b, d)
  {
    if b == [] {
      assert a + b == a;
    } else {
      DonesConcat(a, b[..|b| - 1], d);
      assert (a + b)[..|a + b| - 1] == a + b[..|b| - 1];
    }
  }

  lemma NoReturns(d: nat)
    ensures MessagesOf([]) == [] && ReportsOf([], d) == []
  {
  }

  lemma MessagesNext(a: seq<Completion>, c: Completion)
    ensures MessagesOf(a + [c]) == MessagesOf(a) + DataOf(c)
  {
    assert (a + [c])[..|a|] == a;
    hide DataOf;
  }

  lemma {:induction false} MessagesConcat(a: seq<Completion>, b: seq<Completion>)
    ensures MessagesOf(a + b) == MessagesOf(a) + MessagesOf(b)
  {
    hide MessagesOf, DataOf;
    if b == [] {
      assert a + b == a;
      NoReturns(0);
    } else {
      var n := |b| - 1;
      MessagesConcat(a, b[..n]);
      MessagesNext(a + b[..n], b[n]);
      MessagesNext(b[..n], b[n]);
      assert a + b == a + b[..n] + [b[n]] && b == b[..n] + [b[n]];
    }
  }

  lemma ReportsNext(a: seq<Completion>, c: Completion, d: nat)
    ensures ReportsOf(a + [c], d) == ReportsOf(a, d) + ReportOf(c, d)
  {
    assert (a + [c])[..|a|] == a;
    hide ReportOf;
  }

  lemma {:induction false} ReportsConcat(a: seq<Completion>, b: seq<Completion>, d: nat)
    ensures ReportsOf(a + b, d) == ReportsOf(a, d) + ReportsOf(b, d)
  {
    hide ReportsOf, ReportOf;
    if b == [] {
      assert a + b == a;
      NoReturns(d);
    } else {
      var n := |b| - 1;
      ReportsConcat(a, b[..n], d);
      ReportsNext(a + b[..n], b[n], d);
      ReportsNext(b[..n], b[n], d);
      assert a + b == a + b[..n] + [b[n]] && b == b[..n] + [b[n]];
    }
  }

  lemma {:induction false} CallbacksConcat(a: seq<Bulk>, b: seq<Bulk>)
    ensures Callbacks(a + b) == Callbacks(a) + Callbacks(b)
  {
    hide WantsCallback;
    if b == [] {
      assert a + b == a;
    } else {
      CallbacksConcat(a, b[..|b| - 1]);
      assert (a + b)[..|a + b| - 1] == a + b[..|b| - 1];
    }
  }

  /** The bulk completions returned for the DONEs of one direction are those of the bulks they speak for, in order, as
      far as these asked for a callback. */
  lemma {:induction false} ReturnedReports(msgs: seq<Msg>, bulks: seq<seq<Bulk>>, d: nat)
    requires |bulks| == MSG_BULK_MAX && d < MSG_BULK_MAX && Dones(msgs, d) <= |bulks[d]|
    ensures ReportsOf(Returned(msgs, bulks), d) == Callbacks(bulks[d][..Dones(msgs, d)])
  {
    hide ReturnedFor, Returned, Dones, ReportsOf, Callbacks, IsDone;
    OneMore(msgs, bulks, d);
    if msgs != [] {
      var n := |msgs| - 1;
      var k := Dones(msgs[..n], d);
      ReturnedReports(msgs[..n], bulks, d);
      ReportsConcat(Returned(msgs[..n], bulks), ReturnedFor(msgs[n], msgs[..n], bulks), d);
      ReturnedReport(msgs[n], msgs[..n], bulks, d);
      if IsDone(msgs[n], d) {
        CallbacksNext(bulks[d], k);
      }
    }
  }

  lemma CallbacksNext(bulks: seq<Bulk>, k: nat)
    requires k < |bulks|
    ensures Callbacks(bulks[..k + 1]) == Callbacks(bulks[..k]) + Callbacks([bulks[k]])
  {
    assert bulks[..k + 1] == bulks[..k] + [bulks[k]];
    CallbacksConcat(bulks[..k], [bulks[k]]);
  }

  lemma OneCallback(bulks: seq<Bulk>, k: nat)
    requires k < |bulks|
    ensures Callbacks(bulks[..0]) == []
    ensures Callbacks(bulks[..k + 1])
         == Callbacks(bulks[..k]) + match bulks[k].mode case Blocking => [] case NoCallback => [] case _ => [bulks[k].userData]
  {
    assert bulks[..k + 1][..k] == bulks[..k];
  }

  lemma OneMore(msgs: seq<Msg>, bulks: seq<seq<Bulk>>, d: nat)
    requires |bulks| == MSG_BULK_MAX && d < MSG_BULK_MAX
    ensures if msgs == [] then Dones(msgs, d) == 0 && ReportsOf(Returned(msgs, bulks), d) == Callbacks(bulks[d][..0])
            else var n := |msgs| - 1;
                 && Dones(msgs, d) == Dones(msgs[..n], d) + (if IsDone(msgs[n], d) then 1 else 0)
                 && Returned(msgs, bulks) == Returned(msgs[..n], bulks) + ReturnedFor(msgs[n], msgs[..n], bulks)
  {
  }

  lemma ReturnedReport(m: Msg, before: seq<Msg>, bulks: seq<seq<Bulk>>, d: nat)
    requires |bulks| == MSG_BULK_MAX && d < MSG_BULK_MAX
    requires IsDone(m, d) ==> Dones(before, d) < |bulks[d]|
    ensures ReportsOf(ReturnedFor(m, before, bulks), d)
         == if IsDone(m, d) then Callbacks([bulks[d][Dones(before, d)]]) else []
  {
    var one := ReturnedFor(m, before, bulks);
    hide Dones;
    if one != [] {
      assert one[..0] == [] && ReportsOf(one[..0], d) == [];
    }
    if IsDone(m, d) {
      var b := [bulks[d][Dones(before, d)]];
      assert b[..0] == [] && Callbacks(b[..0]) == [];
    }
  }

  /** The data messages among the completions are exactly those taken, in order and each once. */
  lemma {:induction false} ReturnedMessages(msgs: seq<Msg>, bulks: seq<seq<Bulk>>)
    requires |bulks| == MSG_BULK_MAX
    ensures MessagesOf(Returned(msgs, bulks)) == Datas(msgs)
  {
    if msgs != [] {
      var n := |msgs| - 1;
      ReturnedMessages(msgs[..n], bulks);
      ReturnedMessage(msgs[n], msgs[..n], bulks);
      MessagesConcat(Returned(msgs[..n], bulks), ReturnedFor(msgs[n], msgs[..n], bulks));
      hide ReturnedFor, MessagesOf, IsData;
    }
  }

  lemma ReturnedMessage(m: Msg, before: seq<Msg>, bulks: seq<seq<Bulk>>)
    requires |bulks| == MSG_BULK_MAX
    ensures MessagesOf(ReturnedFor(m, before, bulks)) == if IsData(m) then [m] else []
  {
    var one := ReturnedFor(m, before, bulks);
    hide Dones;
    if one != [] {
      assert one[..0] == [] && MessagesOf(one[..0]) == [];
    }
  }

  /** Nothing is lost on the way to the VCHI list exactly when no allocation for a data message is refused. */
  lemma {:induction false} TrackedAll(msgs: seq<Msg>, refused: set<nat>)
    ensures |Tracked(msgs, refused)| <= |Datas(msgs)|
    ensures |Tracked(msgs, refused)| == |Datas(msgs)| ==> Tracked(msgs, refused) == Datas(msgs)
    ensures Tracked(msgs, refused) == Datas(msgs) <==> forall i | 0 <= i < |msgs| && IsData(msgs[i]) :: i !in refused
  {
    TrackedLength(msgs, refused);
    if i :| 0 <= i < |msgs| && IsData(msgs[i]) && i in refused {
      TrackedShort(msgs, refused, i);
    } else if msgs != [] {
      TrackedAll(msgs[..|msgs| - 1], refused);
    }
  }

  lemma {:induction false} TrackedShort(msgs: seq<Msg>, refused: set<nat>, i: nat)
    requires i < |msgs| && IsData(msgs[i]) && i in refused
    ensures |Tracked(msgs, refused)| < |Datas(msgs)|
  {
    var n := |msgs| - 1;
    if i < n {
      TrackedShort(msgs[..n], refused, i);
    } else {
      TrackedLength(msgs[..n], refused);
    }
  }

  lemma {:induction false} TrackedLength(msgs: seq<Msg>, refused: set<nat>)
    ensures |Tracked(msgs, refused)| <= |Datas(msgs)|
  {
    if msgs != [] {
      TrackedLength(msgs[..|msgs| - 1], refused);
    }
  }

  // ---------- the client's completion array, message by message ----------

  /** `left` is what is left of the pending bulks after the DONEs among `before`. */
  ghost predicate Left(bulks: seq<seq<Bulk>>, before: seq<Msg>, left: seq<seq<Bulk>>) {
    && |bulks| == |left| == MSG_BULK_MAX
    && forall d: nat | d < MSG_BULK_MAX :: Dones(before, d) <= |bulks[d]| && left[d] == bulks[d][Dones(before, d)..]
  }

  /** The pending bulks once `m` has been taken. */
  function AfterDone(m: Msg, bulks: seq<seq<Bulk>>): (left: seq<seq<Bulk>>)
    requires |bulks| == MSG_BULK_MAX
    ensures |left| == MSG_BULK_MAX
  {
    seq(MSG_BULK_MAX, d requires 0 <= d < MSG_BULK_MAX =>
      if IsDone(m, d) && bulks[d] != [] then bulks[d][1..] else bulks[d])
  }

  lemma TakeNext(msgs: seq<Msg>, n: nat, bulks: seq<seq<Bulk>>, left: seq<seq<Bulk>>, refused: set<nat>)
    requires n < |msgs| && Left(bulks, msgs[..n], left)
    requires forall d: nat | d < MSG_BULK_MAX :: Dones(msgs, d) <= |bulks[d]|
    ensures Left(bulks, msgs[..n + 1], AfterDone(msgs[n], left))
    ensures Returned(msgs[..n + 1], bulks) == Returned(msgs[..n], bulks) + ReturnedFor(msgs[n], [], left)
    ensures Tracked(msgs[..n + 1], refused)
         == Tracked(msgs[..n], refused) + if IsData(msgs[n]) && n !in refused then [msgs[n]] else []
  {
    assert msgs[..n + 1][..n] == msgs[..n] && msgs[..n + 1] + msgs[n + 1..] == msgs;
    forall d: nat | d < MSG_BULK_MAX ensures Dones(msgs[..n + 1], d) <= |bulks[d]| {
      DonesConcat(msgs[..n + 1], msgs[n + 1..], d);
    }
  }

  /** Where the copying loop stops: `n` messages that fit the buffers are taken, of which at most the last brings the
      completions up to the number asked for; then the list is empty, the next message does not fit, or, after at
      least one message, that number is reached. */
  ghost predicate TakesUpTo(a: Await, msgs: seq<Msg>, bulks: seq<seq<Bulk>>, n: nat)
    requires |bulks| == MSG_BULK_MAX
  {
    && n <= |msgs|
    && (forall i | 0 <= i < n :: BytesOf(msgs[i]) <= a.msgBufSize)
    && (forall i | 0 < i < n :: |Returned(msgs[..i], bulks)| < a.msgBufCount)
    && (n == |msgs| || BytesOf(msgs[n]) > a.msgBufSize || (n > 0 && |Returned(msgs[..n], bulks)| >= a.msgBufCount))
  }

  /** An undersized buffer takes nothing. */
  lemma UndersizedTakesNothing(a: Await, msgs: seq<Msg>, bulks: seq<seq<Bulk>>, n: nat)
    requires |bulks| == MSG_BULK_MAX && TakesUpTo(a, msgs, bulks, n)
    ensures msgs != [] ==> (n == 0 <==> BytesOf(msgs[0]) > a.msgBufSize)
  {
  }

  /** Dequeue requests `requests` are served with the first `k` messages, one each, as long as they fit; then one of
      the two is used up, or the next buffer is too small and its request is refused. */
  ghost predicate Served(msgs: seq<Msg>, requests: seq<Dequeue>, k: nat, tooSmall: bool) {
    && k <= |msgs| && k <= |requests|
    && (forall i | 0 <= i < k :: BytesOf(msgs[i]) <= requests[i].bufSize)
    && (if tooSmall then k < |msgs| && k < |requests| && BytesOf(msgs[k]) > requests[k].bufSize
        else k == |msgs| || k == |requests|)
  }

  /** Serving these requests with these messages comes to a buffer that is too small. */
  ghost predicate StopsShort(msgs: seq<Msg>, requests: seq<Dequeue>) {
    exists i :: 0 <= i < |msgs| && i < |requests| && BytesOf(msgs[i]) > requests[i].bufSize
  }

  lemma ServedStops(msgs: seq<Msg>, requests: seq<Dequeue>, k: nat, tooSmall: bool)
    requires Served(msgs, requests, k, tooSmall)
    ensures tooSmall <==> StopsShort(msgs, requests)
  {
  }

  /** The number of messages the copying loop takes, counted from `i` on. */
  ghost function TakeCount(a: Await, msgs: seq<Msg>, bulks: seq<seq<Bulk>>, i: nat): (n: nat)
    requires |bulks| == MSG_BULK_MAX && i <= |msgs|
    ensures i <= n <= |msgs|
    decreases |msgs| - i
  {
    if i == |msgs| || BytesOf(msgs[i]) > a.msgBufSize || (i > 0 && |Returned(msgs[..i], bulks)| >= a.msgBufCount) then i
    else TakeCount(a, msgs, bulks, i + 1)
  }

  /** The loop stops at exactly one place. */
  lemma {:induction false} TakesExactly(a: Await, msgs: seq<Msg>, bulks: seq<seq<Bulk>>, i: nat, n: nat)
    requires |bulks| == MSG_BULK_MAX && i <= n && TakesUpTo(a, msgs, bulks, n)
    ensures n == TakeCount(a, msgs, bulks, i)
    decreases n - i
  {
    hide Returned;
    if i < n {
      TakesExactly(a, msgs, bulks, i + 1, n);
    }
  }

  // ---------- a round of serving ----------

  /** The lists and request queues of a service. */
  datatype Lists = Lists(data: seq<Msg>, vchi: seq<Msg>, bulks: seq<seq<Bulk>>, awaits: seq<Await>, dequeues: seq<Dequeue>)

  /** The messages a dequeue request may be given once `n` data messages have been taken. */
  function Dequeueable(isVchi: bool, lists: Lists, refused: set<nat>, n: nat): seq<Msg>
    requires n <= |lists.data|
  {
    lists.vchi + Kept(isVchi, lists.data[..n], refused)
  }

  /** The oldest await request has taken `n` messages and been given `completions` for them; if that is nothing it stays
      at the head of its queue, and otherwise `k` dequeue requests have been served, and one refused if `tooSmall`. */
  ghost predicate Progress(isVchi: bool, before: Lists, after: Lists, refused: set<nat>,
                           n: nat, completions: seq<Completion>, k: nat, tooSmall: bool)
  {
    && |before.bulks| == MSG_BULK_MAX
    && n <= |before.data| && after.data == before.data[n..]
    && completions == Returned(before.data[..n], before.bulks)
    && Left(before.bulks, before.data[..n], after.bulks)
    && (if before.awaits == [] then n == 0 && completions == []
        else TakesUpTo(before.awaits[0], before.data, before.bulks, n))
    && after.awaits == (if completions == [] then before.awaits else before.awaits[1..])
    && var msgs := Dequeueable(isVchi, before, refused, n);
       var used := k + if tooSmall then 1 else 0;
       && k <= |msgs| && after.vchi == msgs[k..]
       && used <= |before.dequeues| && after.dequeues == before.dequeues[used..]
       && if completions == [] then used == 0 else Served(msgs, before.dequeues, k, tooSmall)
  }

  /** No await request waits in front of a message that fits its buffer. */
  predicate Attended(awaits: seq<Await>, data: seq<Msg>) {
    awaits == [] || data == [] || BytesOf(data[0]) > awaits[0].msgBufSize
  }

  /** The message joins the data list. */
  function Joined(lists: Lists, m: Msg): Lists {
    lists.(data := lists.data + [m])
  }

  /** The await request joins its queue. */
  function Asked(lists: Lists, a: Await): Lists {
    lists.(awaits := lists.awaits + [a])
  }

  /** One round is enough when a message arrives: behind it no await request waits in front of a message that fits, if
      none did before. */
  lemma ArrivalAttended(isVchi: bool, lists: Lists, m: Msg, after: Lists, refused: set<nat>,
                        n: nat, completions: seq<Completion>, k: nat, tooSmall: bool)
    requires Progress(isVchi, Joined(lists, m), after, refused, n, completions, k, tooSmall) && Attended(lists.awaits, lists.data)
    ensures Attended(after.awaits, after.data)
  {
    hide Returned, Left, Kept, Served;
    var before := Joined(lists, m);
    if before.awaits != [] {
      UndersizedTakesNothing(before.awaits[0], before.data, before.bulks, n);
      NothingTaken(before.data, before.bulks, refused);
    }
  }

  /** The request asks for no message, is the only one, takes the first message, which is the DONE of a bulk without a
      callback, and leaves a second one that fits. */
  ghost predicate LeavesOne(lists: Lists, a: Await)
    requires |lists.bulks| == MSG_BULK_MAX
  {
    && lists.awaits == [] && a.msgBufCount == 0 && |lists.data| >= 2
    && BytesOf(lists.data[0]) <= a.msgBufSize && BytesOf(lists.data[1]) <= a.msgBufSize
    && Returned(lists.data[..1], lists.bulks) == []
  }

  /** And when an await request comes in, in all cases but one, which takes a request for no message. */
  lemma RequestAttended(isVchi: bool, lists: Lists, a: Await, after: Lists, refused: set<nat>,
                        n: nat, completions: seq<Completion>, k: nat, tooSmall: bool)
    requires Progress(isVchi, Asked(lists, a), after, refused, n, completions, k, tooSmall) && Attended(lists.awaits, lists.data)
    ensures |lists.bulks| == MSG_BULK_MAX && (Attended(after.awaits, after.data) <==> !LeavesOne(lists, a))
  {
    hide Returned, Left, Kept, Served;
    var before := Asked(lists, a);
    UndersizedTakesNothing(before.awaits[0], before.data, before.bulks, n);
    NothingTaken(before.data, before.bulks, refused);
    if lists.awaits == [] && lists.data != [] && BytesOf(lists.data[0]) <= a.msgBufSize && a.msgBufCount == 0 {
      assert |Returned(before.data[..1], before.bulks)| >= 0;
    }
  }

  /** `n` data messages and `k` of those that may be dequeued have been taken out of the lists. */
  ghost predicate Moved(isVchi: bool, data: seq<Msg>, vchi: seq<Msg>, refused: set<nat>, n: nat, k: nat,
                        dataNow: seq<Msg>, vchiNow: seq<Msg>)
  {
    && n <= |data| && dataNow == data[n..]
    && k <= |vchi + Kept(isVchi, data[..n], refused)| && vchiNow == (vchi + Kept(isVchi, data[..n], refused))[k..]
  }

  /** What is copied for a message out of the slot that holds it: an id and a size of four bytes each, and the payload. */
  lemma CopyOf(slot: seq<byte>, r: Record)
    requires r.Message? && Stored(slot, r)
    ensures var m := Msg(r.id, r.payload);
            && r.off + BytesOf(m) <= |slot|
            && var copy := slot[r.off..r.off + BytesOf(m)];
               && |copy| == 4 + 4 + |m.payload| && DecodeU32(copy[..4]) == m.id && DecodeU32(copy[4..8]) == |m.payload|
               && copy[8..] == m.payload
  {
    var copy := slot[r.off..r.off + HEADER_SIZE + |r.payload|];
    assert copy[..4] == slot[r.off..r.off + 4] && copy[4..8] == slot[r.off + 4..r.off + 8];
  }

  /** No buffer is overrun: what is copied, header and payload, is at most as long as the buffer of the request, and a
      message that is longer than its buffer is not taken. */
  lemma CopiesFit(isVchi: bool, before: Lists, after: Lists, refused: set<nat>,
                  n: nat, completions: seq<Completion>, k: nat, tooSmall: bool)
    requires Progress(isVchi, before, after, refused, n, completions, k, tooSmall)
    ensures n <= |before.data| && (before.awaits == [] ==> n == 0)
    ensures forall i | 0 <= i < n :: 4 + 4 + |before.data[i].payload| <= before.awaits[0].msgBufSize
    ensures before.awaits != [] && before.data != [] && n == 0 ==>
              4 + 4 + |before.data[0].payload| > before.awaits[0].msgBufSize
    ensures var msgs := Dequeueable(isVchi, before, refused, n);
            && k <= |msgs| && k <= |before.dequeues|
            && forall i | 0 <= i < k :: 4 + 4 + |msgs[i].payload| <= before.dequeues[i].bufSize
  {
    hide Returned, Left, Kept;
    if before.awaits != [] {
      UndersizedTakesNothing(before.awaits[0], before.data, before.bulks, n);
      assert forall i | 0 <= i < n :: BytesOf(before.data[i]) <= before.awaits[0].msgBufSize;
    }
    assert forall i | 0 <= i < k :: BytesOf(Dequeueable(isVchi, before, refused, n)[i]) <= before.dequeues[i].bufSize;
  }

  lemma ProgressMoves(isVchi: bool, before: Lists, after: Lists, refused: set<nat>,
                      n: nat, completions: seq<Completion>, k: nat, tooSmall: bool)
    requires Progress(isVchi, before, after, refused, n, completions, k, tooSmall)
    ensures Moved(isVchi, before.data, before.vchi, refused, n, k, after.data, after.vchi)
  {
    hide Returned, Left, TakesUpTo, Kept, Served;
  }

  lemma NothingMoves(isVchi: bool, data: seq<Msg>, vchi: seq<Msg>, refused: set<nat>)
    ensures Moved(isVchi, data, vchi, refused, 0, 0, data, vchi)
  {
    assert Kept(isVchi, data[..0], refused) == [];
  }

  /** The message joins the data list: its entry can be allocated, and if it is a DONE, a request of its direction
      waits. */
  predicate Joining(m: Msg, allocOk: bool, queues: seq<seq<Request>>)
    requires |queues| == MSG_BULK_MAX
  {
    && allocOk && (IsDone(m, MSG_BULK_TX) ==> queues[MSG_BULK_TX] != [])
    && (IsDone(m, MSG_BULK_RX) ==> queues[MSG_BULK_RX] != [])
  }

  /** The requests completed in such a round. */
  ghost function CompletedIn(before: Lists, completions: seq<Completion>, used: nat): multiset<nat>
    requires (completions != [] ==> before.awaits != []) && used <= |before.dequeues|
  {
    (if completions == [] then multiset{} else multiset{before.awaits[0].id}) + Ids(before.dequeues[..used])
  }

  /** The oldest await request is given something, and serving the dequeue requests then comes to a buffer that is too
      small. */
  ghost predicate RoundStopsShort(isVchi: bool, lists: Lists, refused: set<nat>)
    requires |lists.bulks| == MSG_BULK_MAX
  {
    && lists.awaits != []
    && var n := TakeCount(lists.awaits[0], lists.data, lists.bulks, 0);
       && Returned(lists.data[..n], lists.bulks) != []
       && StopsShort(Dequeueable(isVchi, lists, refused, n), lists.dequeues)
  }

  lemma ProgressStops(isVchi: bool, before: Lists, after: Lists, refused: set<nat>,
                      n: nat, completions: seq<Completion>, k: nat, tooSmall: bool)
    requires Progress(isVchi, before, after, refused, n, completions, k, tooSmall)
    ensures |before.bulks| == MSG_BULK_MAX && (tooSmall <==> RoundStopsShort(isVchi, before, refused))
  {
    hide Returned, Kept, Left, StopsShort, TakesUpTo, Served;
    if before.awaits != [] {
      TakesExactly(before.awaits[0], before.data, before.bulks, 0, n);
      if completions != [] {
        ServedStops(Dequeueable(isVchi, before, refused, n), before.dequeues, k, tooSmall);
      }
    }
  }

  /** The lanes once the bulks of the DONEs among `msgs` have been reported; nothing else has changed in them. */
  ghost predicate Reported(before: seq<Lane>, after: seq<Lane>, bulks: seq<seq<Bulk>>, msgs: seq<Msg>) {
    && |before| == |after| == |bulks| == MSG_BULK_MAX
    && forall d: nat | d < MSG_BULK_MAX ::
         Dones(msgs, d) <= |bulks[d]|
         && after[d] == before[d].(reported := before[d].reported + bulks[d][..Dones(msgs, d)])
  }

  // ---------- the service ----------

  ghost predicate LanesRight(lanes: seq<Lane>, bulks: seq<seq<Bulk>>, queues: seq<seq<Request>>, data: seq<Msg>)
    requires |bulks| == |queues| == |lanes| == MSG_BULK_MAX
  {
    forall d: nat | d < MSG_BULK_MAX :: LaneInv(lanes[d], bulks[d], queues[d], Dones(data, d))
  }

  ghost predicate Joins<T>(front: seq<T>, back: seq<T>, all: seq<T>) {
    front + back == all
  }

  /** Elements move from the back to the front. */
  lemma JoinsOn<T>(front: seq<T>, moved: seq<T>, back: seq<T>, rest: seq<T>, all: seq<T>)
    requires Joins(front, back, all) && Joins(moved, rest, back)
    ensures Joins(front + moved, rest, all)
  {
  }

  lemma JoinsSlice<T>(all: seq<T>, n: nat)
    requires n <= |all|
    ensures Joins(all[..n], all[n..], all) && all[..n] + all[n..] == all
  {
  }

  lemma JoinsMore<T>(front: seq<T>, back: seq<T>, all: seq<T>, more: seq<T>)
    requires Joins(front, back, all)
    ensures Joins(front, back + more, all + more)
  {
  }

  /** The client has been given the data messages taken, and the VCHI list has been given them too, less those for which
      that failed. */
  ghost predicate MessagesRight(isVchi: bool, taken: seq<Msg>, returned: seq<Completion>, tracked: seq<Msg>, untracked: nat) {
    && MessagesOf(returned) == Datas(taken)
    && (if isVchi
        then |tracked| + untracked == |Datas(taken)| && (untracked == 0 ==> tracked == Datas(taken))
        else tracked == [])
  }

  /** The bulk completions the client has been given are those of the bulks reported. */
  ghost predicate ReportsRight(returned: seq<Completion>, lanes: seq<Lane>) {
    |lanes| == MSG_BULK_MAX && forall d: nat | d < MSG_BULK_MAX :: ReportsOf(returned, d) == Callbacks(lanes[d].reported)
  }

  lemma AcceptKeepsLanes(lanes: seq<Lane>, bulks: seq<seq<Bulk>>, queues: seq<seq<Request>>, data: seq<Msg>,
                         returned: seq<Completion>, d: nat, r: Request)
    requires |bulks| == |queues| == |lanes| == MSG_BULK_MAX && d < MSG_BULK_MAX
    requires LanesRight(lanes, bulks, queues, data) && ReportsRight(returned, lanes)
    ensures var l := lanes[d].(accepted := lanes[d].accepted + [r], alive := lanes[d].alive + [|lanes[d].accepted|]);
            && LanesRight(lanes[d := l], bulks[d := bulks[d] + [r.bulk]], queues[d := queues[d] + [r]], data)
            && ReportsRight(returned, lanes[d := l])
  {
    hide LaneInv, Dones, ReportsOf, Callbacks;
    AcceptKeepsLane(lanes[d], bulks[d], queues[d], Dones(data, d), r);
  }

  lemma CancelKeepsLanes(lanes: seq<Lane>, bulks: seq<seq<Bulk>>, queues: seq<seq<Request>>, data: seq<Msg>,
                         returned: seq<Completion>, d: nat, i: nat)
    requires |bulks| == |queues| == |lanes| == MSG_BULK_MAX && d < MSG_BULK_MAX && i < |queues[d]|
    requires LanesRight(lanes, bulks, queues, data) && ReportsRight(returned, lanes)
    ensures |lanes[d].completed| + i < |lanes[d].alive|
    ensures LanesRight(lanes[d := CancelAt(lanes[d], i)], bulks, queues[d := Without(queues[d], i)], data)
    ensures ReportsRight(returned, lanes[d := CancelAt(lanes[d], i)])
  {
    CancelKeepsLane(lanes[d], bulks[d], queues[d], Dones(data, d), i);
    hide LaneInv, Dones, ReportsOf, Callbacks;
  }

  /** A message that is no DONE joins the data list. */
  lemma ArriveKeepsLanes(lanes: seq<Lane>, bulks: seq<seq<Bulk>>, queues: seq<seq<Request>>, data: seq<Msg>, m: Msg)
    requires |bulks| == |queues| == |lanes| == MSG_BULK_MAX && forall d: nat | d < MSG_BULK_MAX :: !IsDone(m, d)
    requires LanesRight(lanes, bulks, queues, data)
    ensures LanesRight(lanes, bulks, queues, data + [m])
  {
    AppendDones(data, m);
    hide LaneInv, Dones;
  }

  lemma AppendDones(data: seq<Msg>, m: Msg)
    ensures forall d: nat :: Dones(data + [m], d) == Dones(data, d) + if IsDone(m, d) then 1 else 0
  {
    assert (data + [m])[..|data|] == data;
  }

  /** A DONE completes the request at the head of its queue, and joins the data list unless it is dropped. */
  lemma DoneKeepsLanes(lanes: seq<Lane>, bulks: seq<seq<Bulk>>, queues: seq<seq<Request>>, data: seq<Msg>,
                       returned: seq<Completion>, d: nat, m: Msg, dropped: bool)
    requires |bulks| == |queues| == |lanes| == MSG_BULK_MAX && d < MSG_BULK_MAX && IsDone(m, d) && queues[d] != []
    requires LanesRight(lanes, bulks, queues, data) && ReportsRight(returned, lanes)
    ensures |lanes[d].completed| < |lanes[d].alive|
    ensures var after := lanes[d := Completed(lanes[d], queues[d][0], dropped)];
            && LanesRight(after, bulks, queues[d := queues[d][1..]], if dropped then data else data + [m])
            && ReportsRight(returned, after)
  {
    hide LaneInv, Dones, IsDone, Completed, ReportsOf, Callbacks;
    AppendDones(data, m);
    OneDirection(m);
    CompleteKeepsLane(lanes[d], bulks[d], queues[d], Dones(data, d), dropped);
  }

  /** The lanes once the bulks of the DONEs among `msgs` have been reported. */
  function LanesReported(lanes: seq<Lane>, bulks: seq<seq<Bulk>>, msgs: seq<Msg>): (after: seq<Lane>)
    requires |bulks| == |lanes| == MSG_BULK_MAX && forall d: nat | d < MSG_BULK_MAX :: Dones(msgs, d) <= |bulks[d]|
    ensures |after| == MSG_BULK_MAX
  {
    seq(MSG_BULK_MAX, d requires 0 <= d < MSG_BULK_MAX =>
      lanes[d].(reported := lanes[d].reported + bulks[d][..Dones(msgs, d)]))
  }

  lemma ReportKeepsLanes(lanes: seq<Lane>, bulks: seq<seq<Bulk>>, queues: seq<seq<Request>>, msgs: seq<Msg>, rest: seq<Msg>,
                         left: seq<seq<Bulk>>, returned: seq<Completion>)
    requires |bulks| == |queues| == |lanes| == MSG_BULK_MAX && Left(bulks, msgs, left)
    requires LanesRight(lanes, bulks, queues, msgs + rest) && ReportsRight(returned, lanes)
    ensures LanesRight(LanesReported(lanes, bulks, msgs), left, queues, rest)
    ensures ReportsRight(returned + Returned(msgs, bulks), LanesReported(lanes, bulks, msgs))
    ensures Reported(lanes, LanesReported(lanes, bulks, msgs), bulks, msgs)
  {
    hide LaneInv, Dones, Returned, ReportsOf, Callbacks;
    var after := LanesReported(lanes, bulks, msgs);
    forall d: nat | d < MSG_BULK_MAX
      ensures LaneInv(after[d], left[d], queues[d], Dones(rest, d))
      ensures ReportsOf(returned + Returned(msgs, bulks), d) == Callbacks(after[d].reported)
    {
      DonesConcat(msgs, rest, d);
      ReportKeepsLane(lanes[d], bulks[d], queues[d], Dones(msgs + rest, d), Dones(msgs, d));
      ReturnedReports(msgs, bulks, d);
      ReportsConcat(returned, Returned(msgs, bulks), d);
      CallbacksConcat(lanes[d].reported, bulks[d][..Dones(msgs, d)]);
    }
  }

  /** What the client is given for the messages it takes, and what of it reaches the VCHI list. */
  lemma TakeKeepsMessages(isVchi: bool, taken: seq<Msg>, returned: seq<Completion>, tracked: seq<Msg>, untracked: nat,
                          msgs: seq<Msg>, bulks: seq<seq<Bulk>>, refused: set<nat>)
    requires |bulks| == MSG_BULK_MAX && MessagesRight(isVchi, taken, returned, tracked, untracked)
    ensures MessagesRight(isVchi, taken + msgs, returned + Returned(msgs, bulks),
                          tracked + Kept(isVchi, msgs, refused), untracked + Missing(isVchi, msgs, refused))
  {
    hide Returned, MessagesOf, Datas, Tracked;
    ReturnedMessages(msgs, bulks);
    MessagesConcat(returned, Returned(msgs, bulks));
    DatasConcat(taken, msgs);
    TrackedAll(msgs, refused);
  }

  class FileContext {
    const isVchi: bool

    var pendingDataMsgList: seq<Msg>
    var pendingVchiMsgList: seq<Msg>
    var pendingBulkMsgList: seq<seq<Bulk>>
    var bulkQueue: seq<seq<Request>>    // FileQueue[FILE_QUEUE_TX_DATA] and FileQueue[FILE_QUEUE_RX_DATA]
    var awaitQueue: seq<Await>          // FileQueue[FILE_QUEUE_PENDING_MSG]
    var dequeueQueue: seq<Dequeue>      // FileQueue[FILE_QUEUE_PENDING_VCHI_MSG]
    var issued: nat                     // the await and dequeue requests so far, by which they are numbered

    // history
    ghost var arrived: seq<Msg>         // messages put into the data list
    ghost var taken: seq<Msg>           // messages taken out of it for the client
    ghost var returned: seq<Completion>
    ghost var tracked: seq<Msg>         // messages put into the VCHI list
    ghost var untracked: nat            // data messages for which that failed
    ghost var dequeued: seq<Msg>
    ghost var lanes: seq<Lane>
    ghost var calls: multiset<nat>      // the completions of each await or dequeue request
    ghost var failed: set<nat>          // those whose own IOCTL has failed after they had been put into a queue

    ghost predicate ValidLists()
      reads this
    {
      && |pendingBulkMsgList| == |bulkQueue| == |lanes| == MSG_BULK_MAX
      && LanesRight(lanes, pendingBulkMsgList, bulkQueue, pendingDataMsgList)
      && Joins(taken, pendingDataMsgList, arrived) && Joins(dequeued, pendingVchiMsgList, tracked)
      && MessagesRight(isVchi, taken, returned, tracked, untracked)
      && ReportsRight(returned, lanes)
    }

    ghost predicate Valid()
      reads this
    {
      ValidLists() && Accounted(calls, Waiting(awaitQueue, dequeueQueue), issued, failed)
    }

    ghost predicate AwaitsAttended()
      reads this`awaitQueue, this`pendingDataMsgList
    {
      Attended(awaitQueue, pendingDataMsgList)
    }

    ghost function Snapshot(): Lists
      reads this
    {
      Lists(pendingDataMsgList, pendingVchiMsgList, pendingBulkMsgList, awaitQueue, dequeueQueue)
    }

    constructor (vchi: bool)
      ensures Valid() && isVchi == vchi && arrived == [] && returned == []
      ensures pendingDataMsgList == [] && pendingVchiMsgList == [] && pendingBulkMsgList == [[], []]
      ensures bulkQueue == [[], []] && awaitQueue == [] && dequeueQueue == []
      ensures issued == 0 && calls == multiset{} && failed == {}
      ensures lanes == [NEW_LANE, NEW_LANE]
    {
      isVchi := vchi;
      pendingDataMsgList, pendingVchiMsgList, pendingBulkMsgList := [], [], [[], []];
      bulkQueue, awaitQueue, dequeueQueue, issued := [[], []], [], [], 0;
      calls, failed := multiset{}, {};
      arrived, taken, returned, tracked, untracked, dequeued := [], [], [], [], 0, [];
      lanes := [NEW_LANE, NEW_LANE];
    }

    // ---------- what the invariant says ----------

    /** Per-port delivery order: the data messages returned to the client, then those still pending, are the data
        messages that arrived; and so are, for a VCHI service, those dequeued, then those in either list. */
    lemma DeliveryOrder()
      requires Valid()
      ensures MessagesOf(returned) + Datas(pendingDataMsgList) == Datas(arrived)
      ensures isVchi ==> |dequeued| + |pendingVchiMsgList| + untracked + |Datas(pendingDataMsgList)| == |Datas(arrived)|
      ensures isVchi && untracked == 0 ==> dequeued + pendingVchiMsgList + Datas(pendingDataMsgList) == Datas(arrived)
    {
      DatasConcat(taken, pendingDataMsgList);
    }

    /** Bulk completion pairing for whole runs of the service.  The client's bulk completions of a direction carry, in
        order, the user data of the bulks reported, less those in blocking mode or without a callback. */
    lemma BulkPairing(d: nat, k: nat)
      requires Valid() && d < MSG_BULK_MAX && k < |lanes[d].reported|
      ensures ReportsOf(returned, d) == Callbacks(lanes[d].reported)
      ensures var bulks := lanes[d].reported;
              && Callbacks(bulks[..0]) == []
              && Callbacks(bulks[..k + 1]) == Callbacks(bulks[..k]) + match bulks[k].mode
                                                                      case Blocking => []
                                                                      case NoCallback => []
                                                                      case _ => [bulks[k].userData]
      ensures var l := lanes[d];
              && k < |l.completed| && k < |l.accepted| && l.reported[k] == l.accepted[k].bulk
              && k < |l.alive| && l.alive[k] < |l.accepted| && l.completed[k] == l.accepted[l.alive[k]]
              && (l.alive[k] == k <==> forall c | c in l.gone :: c > k)
    {
      PairedExactly(lanes[d], pendingBulkMsgList[d], bulkQueue[d], Dones(pendingDataMsgList, d), k);
      OneCallback(lanes[d].reported, k);
    }

    // ---------- bulk submissions ----------

    /** VchiqProcessBulkTransfer: the pending bulk goes to the tail before the request is forwarded, and comes off the
        tail again when forwarding or the transfer fails. */
    method ProcessBulkTransfer(d: nat, r: Request, addOk: bool, forwardOk: bool, transfer: Transfer) returns (ok: bool)
      requires Valid() && d < MSG_BULK_MAX
      modifies this`pendingBulkMsgList, this`bulkQueue, this`lanes
      ensures Valid()
      ensures ok == (addOk && forwardOk && transfer != Failed)
      ensures addOk && forwardOk && transfer == Sent
              ==> && pendingBulkMsgList == old(pendingBulkMsgList)[d := old(pendingBulkMsgList)[d] + [r.bulk]]
                  && bulkQueue == old(bulkQueue)[d := old(bulkQueue)[d] + [r]]
                  && lanes[d].accepted == old(lanes)[d].accepted + [r]
      ensures !(addOk && forwardOk && transfer == Sent)
              ==> pendingBulkMsgList == old(pendingBulkMsgList) && bulkQueue == old(bulkQueue) && lanes == old(lanes)
    {
      hide LanesRight, MessagesRight, ReportsRight, Joins, Accounted, Waiting, Ids;
      if !addOk {
        return false;
      }
      pendingBulkMsgList := pendingBulkMsgList[d := pendingBulkMsgList[d] + [r.bulk]];
      if !forwardOk {
        RemoveLastBulk(d);
        assert pendingBulkMsgList == old(pendingBulkMsgList);
        return false;
      }
      bulkQueue := bulkQueue[d := bulkQueue[d] + [r]];
      if transfer != Sent {
        RemoveLastBulk(d);
        // the request is taken back from the queue, or the framework has taken it out to cancel it
        bulkQueue := bulkQueue[d := bulkQueue[d][..|bulkQueue[d]| - 1]];
        assert pendingBulkMsgList == old(pendingBulkMsgList) && bulkQueue == old(bulkQueue);
        return transfer == FailedAfterCancel;
      }
      AcceptKeepsLanes(lanes, old(pendingBulkMsgList), old(bulkQueue), pendingDataMsgList, returned, d, r);
      lanes := lanes[d := lanes[d].(accepted := lanes[d].accepted + [r], alive := lanes[d].alive + [|lanes[d].accepted|])];
      return true;
    }

    /** VchiqRemovePendingBulkMsg without completion data: the last entry goes. */
    method RemoveLastBulk(d: nat)
      requires d < |pendingBulkMsgList|
      modifies this`pendingBulkMsgList
      ensures |pendingBulkMsgList| == |old(pendingBulkMsgList)|
      ensures forall i | 0 <= i < |pendingBulkMsgList| ::
                pendingBulkMsgList[i] == if i == d && old(pendingBulkMsgList)[d] != []
                                         then old(pendingBulkMsgList)[d][..|old(pendingBulkMsgList)[d]| - 1]
                                         else old(pendingBulkMsgList)[i]
    {
      var list := pendingBulkMsgList[d];
      if list != [] {
        pendingBulkMsgList := pendingBulkMsgList[d := list[..|list| - 1]];
      }
    }

    /** The framework cancels a request that waits for its DONE; nothing tells the pending bulk list. */
    method CancelBulk(d: nat, i: nat)
      requires Valid() && d < MSG_BULK_MAX && i < |bulkQueue[d]|
      modifies this`bulkQueue, this`lanes
      ensures Valid()
      ensures bulkQueue == old(bulkQueue)[d := Without(old(bulkQueue)[d], i)]
      ensures |old(lanes)[d].completed| + i < |old(lanes)[d].alive|
      ensures lanes == old(lanes)[d := CancelAt(old(lanes)[d], i)]
    {
      hide LanesRight, MessagesRight, ReportsRight, Joins, Accounted, Waiting, Ids, CancelAt, Without;
      CancelKeepsLanes(lanes, pendingBulkMsgList, bulkQueue, pendingDataMsgList, returned, d, i);
      bulkQueue := bulkQueue[d := Without(bulkQueue[d], i)];
      lanes := lanes[d := CancelAt(lanes[d], i)];
    }

    // ---------- arrivals ----------

    /** VchiqAddPendingMsg: the message goes to the tail of the data list, unless its entry cannot be allocated. */
    method AddPendingMsg(m: Msg, allocOk: bool)
      requires Valid() && forall d: nat | d < MSG_BULK_MAX :: !IsDone(m, d)
      modifies this`pendingDataMsgList, this`arrived
      ensures Valid()
      ensures pendingDataMsgList == old(pendingDataMsgList) + if allocOk then [m] else []
      ensures arrived == old(arrived) + if allocOk then [m] else []
    {
      hide LanesRight, MessagesRight, ReportsRight, Joins, Accounted, Waiting, Ids;
      if allocOk {
        ArriveKeepsLanes(lanes, pendingBulkMsgList, bulkQueue, pendingDataMsgList, m);
        JoinsMore(taken, pendingDataMsgList, arrived, [m]);
        pendingDataMsgList := pendingDataMsgList + [m];
        arrived := arrived + [m];
      }
    }

    /** The receive loop's BULK_TX_DONE and BULK_RX_DONE: the request at the head of the queue is completed, then the
        message joins the data list; without a request the message is dropped. */
    method BulkDoneArrives(d: nat, m: Msg, allocOk: bool) returns (completed: seq<Request>)
      requires Valid() && d < MSG_BULK_MAX && IsDone(m, d)
      modifies this`bulkQueue, this`pendingDataMsgList, this`arrived, this`lanes
      ensures Valid()
      ensures completed == if old(bulkQueue)[d] == [] then [] else [old(bulkQueue)[d][0]]
      ensures bulkQueue == old(bulkQueue)[d := old(bulkQueue)[d][|completed|..]]
      ensures pendingDataMsgList == old(pendingDataMsgList) + if completed != [] && allocOk then [m] else []
      ensures arrived == old(arrived) + if completed != [] && allocOk then [m] else []
      ensures completed != [] && !allocOk ==> |old(lanes)[d].completed| < |old(lanes)[d].alive|
      ensures lanes == if completed == [] then old(lanes)
                       else old(lanes)[d := Completed(old(lanes)[d], completed[0], !allocOk)]
    {
      hide LanesRight, MessagesRight, ReportsRight, Joins, Accounted, Waiting, Ids, IsDone, Completed;
      completed := [];
      if bulkQueue[d] != [] {
        DoneKeepsLanes(lanes, pendingBulkMsgList, bulkQueue, pendingDataMsgList, returned, d, m, !allocOk);
        JoinsMore(taken, pendingDataMsgList, arrived, [m]);
        completed := [bulkQueue[d][0]];
        lanes := lanes[d := Completed(lanes[d], bulkQueue[d][0], !allocOk)];
        bulkQueue := bulkQueue[d := bulkQueue[d][1..]];
        if allocOk {
          pendingDataMsgList := pendingDataMsgList + [m];
          arrived := arrived + [m];
        }
      }
    }

    // ---------- the client takes messages ----------

    /** VchiqRemovePendingBulkMsg with completion data: the head entry, if there is one. */
    method RemoveFirstBulk(d: nat) returns (found: bool, bulk: Bulk)
      requires d < |pendingBulkMsgList|
      modifies this`pendingBulkMsgList
      ensures found == (old(pendingBulkMsgList)[d] != [])
      ensures found ==> bulk == old(pendingBulkMsgList)[d][0]
      ensures pendingBulkMsgList == if found then old(pendingBulkMsgList)[d := old(pendingBulkMsgList)[d][1..]]
                                    else old(pendingBulkMsgList)
    {
      found, bulk := pendingBulkMsgList[d] != [], Bulk(0, WaitingMode);
      if found {
        bulk := pendingBulkMsgList[d][0];
        pendingBulkMsgList := pendingBulkMsgList[d := pendingBulkMsgList[d][1..]];
      }
    }

    /** What the switch over the message type writes into the completion array for one message. */
    method Collect(m: Msg) returns (completions: seq<Completion>)
      requires |pendingBulkMsgList| == MSG_BULK_MAX
      modifies this`pendingBulkMsgList
      ensures completions == ReturnedFor(m, [], old(pendingBulkMsgList))
      ensures pendingBulkMsgList == AfterDone(m, old(pendingBulkMsgList))
    {
      completions := [MessageAvailable(m)];
      if MsgType(m.id) == MSG_BULK_TX_DONE {
        var found, bulk := RemoveFirstBulk(MSG_BULK_TX);
        completions := if !found || bulk.mode == Blocking || bulk.mode == NoCallback then [] else [BulkDone(m, bulk.userData)];
      } else if MsgType(m.id) == MSG_BULK_RX_DONE {
        var found, bulk := RemoveFirstBulk(MSG_BULK_RX);
        completions := if !found || bulk.mode == Blocking || bulk.mode == NoCallback then [] else [BulkDone(m, bulk.userData)];
      }
    }

    /** The copying loop of VchiqRemovePendingMsg.  It takes at least one message even when asked for none, and puts
        back the first message that does not fit its buffer. */
    method TakeMessages(a: Await, refused: set<nat>) returns (completions: seq<Completion>, n: nat)
      requires |pendingBulkMsgList| == MSG_BULK_MAX
      requires forall d: nat | d < MSG_BULK_MAX :: Dones(pendingDataMsgList, d) <= |pendingBulkMsgList[d]|
      modifies this`pendingDataMsgList, this`pendingVchiMsgList, this`pendingBulkMsgList
      ensures n <= |old(pendingDataMsgList)| && pendingDataMsgList == old(pendingDataMsgList)[n..]
      ensures completions == Returned(old(pendingDataMsgList)[..n], old(pendingBulkMsgList))
      ensures Left(old(pendingBulkMsgList), old(pendingDataMsgList)[..n], pendingBulkMsgList)
      ensures pendingVchiMsgList == old(pendingVchiMsgList) + Kept(isVchi, old(pendingDataMsgList)[..n], refused)
      ensures TakesUpTo(a, old(pendingDataMsgList), old(pendingBulkMsgList), n)
    {
      hide Dones, Tracked, Returned, ReturnedFor, AfterDone, Left;
      ghost var msgs, bulks := pendingDataMsgList, pendingBulkMsgList;
      NothingTaken(msgs, bulks, refused);
      completions, n := [], 0;
      var more := true;
      while more
        invariant n <= |msgs| && pendingDataMsgList == msgs[n..] && (n == 0 ==> more)
        invariant completions == Returned(msgs[..n], bulks) && Left(bulks, msgs[..n], pendingBulkMsgList)
        invariant |pendingBulkMsgList| == MSG_BULK_MAX
        invariant pendingVchiMsgList == old(pendingVchiMsgList) + if isVchi then Tracked(msgs[..n], refused) else []
        invariant forall i | 0 <= i < n :: BytesOf(msgs[i]) <= a.msgBufSize
        invariant forall i | 0 < i < n :: |Returned(msgs[..i], bulks)| < a.msgBufCount
        invariant n > 0 ==> more == (|completions| < a.msgBufCount)
        decreases |msgs| - n, more
      {
        if pendingDataMsgList == [] {
          break;
        }
        var m := pendingDataMsgList[0];
        pendingDataMsgList := pendingDataMsgList[1..];
        if BytesOf(m) > a.msgBufSize {
          pendingDataMsgList := [m] + pendingDataMsgList;
          break;
        }
        TakeNext(msgs, n, bulks, pendingBulkMsgList, refused);
        var batch := Collect(m);
        completions := completions + batch;
        if isVchi && IsData(m) && n !in refused {
          pendingVchiMsgList := pendingVchiMsgList + [m];
        }
        n := n + 1;
        more := |completions| < a.msgBufCount;
      }
    }

    /** The history of messages taken: they move from the pending lists to `taken`, `returned` and `tracked`. */
    ghost method RecordTaken(msgs: seq<Msg>, completions: seq<Completion>, bulks: seq<seq<Bulk>>, refused: set<nat>)
      requires |bulks| == MSG_BULK_MAX && completions == Returned(msgs, bulks)
      requires MessagesRight(isVchi, taken, returned, tracked, untracked)
      modifies this`taken, this`returned, this`tracked, this`untracked
      ensures MessagesRight(isVchi, taken, returned, tracked, untracked)
      ensures taken == old(taken) + msgs && returned == old(returned) + completions
      ensures tracked == old(tracked) + Kept(isVchi, msgs, refused)
      ensures untracked == old(untracked) + Missing(isVchi, msgs, refused)
    {
      hide Kept, Missing, Returned, MessagesRight;
      TakeKeepsMessages(isVchi, taken, returned, tracked, untracked, msgs, bulks, refused);
      taken, returned := taken + msgs, returned + completions;
      tracked, untracked := tracked + Kept(isVchi, msgs, refused), untracked + Missing(isVchi, msgs, refused);
    }

    /** The bulks of the DONEs among them have been reported. */
    ghost method RecordReported(msgs: seq<Msg>, completions: seq<Completion>, bulks: seq<seq<Bulk>>, was: seq<Completion>)
      requires |bulks| == |bulkQueue| == |lanes| == MSG_BULK_MAX && Left(bulks, msgs, pendingBulkMsgList)
      requires LanesRight(lanes, bulks, bulkQueue, msgs + pendingDataMsgList) && ReportsRight(was, lanes)
      requires completions == Returned(msgs, bulks) && returned == was + completions
      modifies this`lanes
      ensures |pendingBulkMsgList| == |lanes| == MSG_BULK_MAX
      ensures LanesRight(lanes, pendingBulkMsgList, bulkQueue, pendingDataMsgList) && ReportsRight(returned, lanes)
      ensures Reported(old(lanes), lanes, bulks, msgs)
    {
      LeftSizes(bulks, msgs, pendingBulkMsgList);
      hide Returned, Left, LanesRight, ReportsRight, LanesReported, Reported, Dones;
      ReportKeepsLanes(lanes, bulks, bulkQueue, msgs, pendingDataMsgList, pendingBulkMsgList, was);
      lanes := LanesReported(lanes, bulks, msgs);
    }

    /** VchiqRemovePendingMsg for a request, up to its completion. */
    method RemovePendingMsg(a: Await, refused: set<nat>) returns (completions: seq<Completion>, n: nat)
      requires ValidLists()
      modifies this`pendingDataMsgList, this`pendingVchiMsgList, this`pendingBulkMsgList,
               this`taken, this`returned, this`tracked, this`untracked, this`lanes
      ensures ValidLists()
      ensures n <= |old(pendingDataMsgList)| && pendingDataMsgList == old(pendingDataMsgList)[n..]
      ensures taken == old(taken) + old(pendingDataMsgList)[..n] && returned == old(returned) + completions
      ensures |old(pendingBulkMsgList)| == MSG_BULK_MAX
      ensures completions == Returned(old(pendingDataMsgList)[..n], old(pendingBulkMsgList))
      ensures TakesUpTo(a, old(pendingDataMsgList), old(pendingBulkMsgList), n)
      ensures pendingVchiMsgList == Dequeueable(isVchi, old(Snapshot()), refused, n)
      ensures Left(old(pendingBulkMsgList), old(pendingDataMsgList)[..n], pendingBulkMsgList)
      ensures Reported(old(lanes), lanes, old(pendingBulkMsgList), old(pendingDataMsgList)[..n])
      ensures completions != [] ==> n > 0
    {
      hide Dones, Kept, Returned, Left, TakesUpTo, Reported, LanesRight, MessagesRight, ReportsRight, Joins;
      ghost var msgs, bulks := pendingDataMsgList, pendingBulkMsgList;
      NothingTaken(msgs, bulks, refused);
      DonesFindBulks();
      completions, n := TakeMessages(a, refused);
      assert Joins(msgs[..n], msgs[n..], msgs) && msgs[..n] + msgs[n..] == msgs by {
        JoinsSlice(msgs, n);
      }
      JoinsOn(taken, msgs[..n], msgs, msgs[n..], arrived);
      JoinsMore(dequeued, old(pendingVchiMsgList), tracked, Kept(isVchi, msgs[..n], refused));
      RecordTaken(msgs[..n], completions, bulks, refused);
      RecordReported(msgs[..n], completions, bulks, old(returned));
    }

    /** VchiqProcessPendingMsg and VchiqRemovePendingMsg: the oldest waiting request takes messages; it goes back to the
        head of its queue when nothing was returned, and otherwise waiting dequeue requests are served too.  `tooSmall`
        is the failure this returns. */
    method ProcessPendingMsg(refused: set<nat>)
        returns (completions: seq<Completion>, n: nat, k: nat, tooSmall: bool)
      requires Valid()
      modifies this`pendingDataMsgList, this`pendingVchiMsgList, this`pendingBulkMsgList, this`awaitQueue, this`dequeueQueue,
               this`taken, this`returned, this`tracked, this`untracked, this`lanes, this`dequeued, this`calls
      ensures Valid()
      ensures Progress(isVchi, old(Snapshot()), Snapshot(), refused, n, completions, k, tooSmall)
      ensures calls == old(calls) + CompletedIn(old(Snapshot()), completions, k + if tooSmall then 1 else 0)
      ensures n <= |old(pendingDataMsgList)|
      ensures taken == old(taken) + old(pendingDataMsgList)[..n] && returned == old(returned) + completions
      ensures dequeued == old(dequeued) + Dequeueable(isVchi, old(Snapshot()), refused, n)[..k]
      ensures Reported(old(lanes), lanes, old(pendingBulkMsgList), old(pendingDataMsgList)[..n])
    {
      hide Dones, Kept, Returned, LanesRight, MessagesRight, ReportsRight, Joins, Left, Reported, Accounted, Waiting,
           TakesUpTo, RoundStopsShort, Served, Progress, CompletedIn, Dequeueable, DequeueIds;
      ghost var before := Snapshot();
      completions, n, k, tooSmall := [], 0, 0, false;
      if pendingDataMsgList == [] || awaitQueue == [] {
        NothingDone(isVchi, before, lanes, refused);
        return;
      }
      completions, n := RemovePendingMsg(awaitQueue[0], refused);
      k, tooSmall := FinishAwait(completions);
      ProgressMade(isVchi, before, Snapshot(), refused, n, completions, k, tooSmall);
    }

    /** The end of VchiqRemovePendingMsg: with something to return the request is completed and waiting dequeue requests
        are served, and otherwise it goes back to the head of its queue. */
    method FinishAwait(completions: seq<Completion>) returns (k: nat, tooSmall: bool)
      requires Valid() && awaitQueue != []
      modifies this`awaitQueue, this`pendingVchiMsgList, this`dequeueQueue, this`dequeued, this`calls
      ensures Valid()
      ensures awaitQueue == if completions == [] then old(awaitQueue) else old(awaitQueue)[1..]
      ensures k <= |old(pendingVchiMsgList)| && pendingVchiMsgList == old(pendingVchiMsgList)[k..]
      ensures dequeued == old(dequeued) + old(pendingVchiMsgList)[..k]
      ensures var used := k + if tooSmall then 1 else 0;
              && used <= |old(dequeueQueue)| && dequeueQueue == old(dequeueQueue)[used..]
              && (if completions == [] then used == 0 && calls == old(calls)
                  else Served(old(pendingVchiMsgList), old(dequeueQueue), k, tooSmall)
                       && calls == old(calls) + (multiset{old(awaitQueue)[0].id} + Ids(old(dequeueQueue)[..used])))
    {
      hide LanesRight, MessagesRight, ReportsRight, Joins, Accounted, Waiting, Ids;
      k, tooSmall := 0, false;
      if completions != [] {
        CompleteAwait();
        k, tooSmall := ProcessPendingVchiMsg();
      }
    }

    /** The oldest await request is completed. */
    method CompleteAwait()
      requires Valid() && awaitQueue != []
      modifies this`awaitQueue, this`calls
      ensures Valid() && awaitQueue == old(awaitQueue)[1..] && calls == old(calls) + multiset{old(awaitQueue)[0].id}
    {
      hide LanesRight, MessagesRight, ReportsRight, Joins, Accounted, Waiting, Ids;
      FirstAwait(awaitQueue, dequeueQueue);
      CompleteKeeps(calls, Waiting(awaitQueue[1..], dequeueQueue), issued, failed, awaitQueue[0].id);
      calls := calls + multiset{awaitQueue[0].id};
      awaitQueue := awaitQueue[1..];
    }

    lemma DonesFindBulks()
      requires ValidLists()
      ensures forall d: nat | d < MSG_BULK_MAX :: Dones(pendingDataMsgList, d) <= |pendingBulkMsgList[d]|
    {
      forall d: nat | d < MSG_BULK_MAX ensures Dones(pendingDataMsgList, d) <= |pendingBulkMsgList[d]| {
        DoneFindsBulk(lanes[d], pendingBulkMsgList[d], bulkQueue[d], Dones(pendingDataMsgList, d));
      }
    }

    // ---------- the VCHI service dequeues ----------

    /** VchiqRemovePendingVchiMsg for one request, which it completes in any case. */
    method RemovePendingVchiMsg(r: Dequeue) returns (status: Status, msgs: seq<Msg>)
      requires ValidLists()
      modifies this`pendingVchiMsgList, this`dequeued, this`calls
      ensures ValidLists() && calls == old(calls) + multiset{r.id}
      ensures dequeued == old(dequeued) + msgs && msgs + pendingVchiMsgList == old(pendingVchiMsgList)
      ensures status == (if old(pendingVchiMsgList) == [] then Unsuccessful
                         else if BytesOf(old(pendingVchiMsgList)[0]) > r.bufSize then InsufficientResources else Success)
      ensures |msgs| == if status == Success then 1 else 0
    {
      hide LanesRight, MessagesRight, ReportsRight, Joins;
      calls := calls + multiset{r.id};
      if pendingVchiMsgList == [] {
        return Unsuccessful, [];
      }
      var m := pendingVchiMsgList[0];
      pendingVchiMsgList := pendingVchiMsgList[1..];
      if BytesOf(m) > r.bufSize {
        pendingVchiMsgList := [m] + pendingVchiMsgList;
        assert pendingVchiMsgList == old(pendingVchiMsgList);
        return InsufficientResources, [];
      }
      JoinsSlice(old(pendingVchiMsgList), 1);
      JoinsOn(dequeued, [m], old(pendingVchiMsgList), pendingVchiMsgList, tracked);
      dequeued := dequeued + [m];
      return Success, [m];
    }

    /** The oldest dequeue request is taken out of its queue and served or refused. */
    method ServeOldest() returns (status: Status, msgs: seq<Msg>)
      requires Valid() && pendingVchiMsgList != [] && dequeueQueue != []
      modifies this`pendingVchiMsgList, this`dequeued, this`dequeueQueue, this`calls
      ensures Valid() && dequeueQueue == old(dequeueQueue)[1..]
      ensures calls == old(calls) + multiset{old(dequeueQueue)[0].id}
      ensures dequeued == old(dequeued) + msgs && msgs + pendingVchiMsgList == old(pendingVchiMsgList)
      ensures if BytesOf(old(pendingVchiMsgList)[0]) > old(dequeueQueue)[0].bufSize then status != Success && msgs == []
              else status == Success && |msgs| == 1
    {
      hide LanesRight, MessagesRight, ReportsRight, Joins, Accounted, Waiting, Ids;
      var r := dequeueQueue[0];
      FirstDequeue(awaitQueue, dequeueQueue);
      CompleteKeeps(calls, Waiting(awaitQueue, dequeueQueue[1..]), issued, failed, r.id);
      dequeueQueue := dequeueQueue[1..];
      status, msgs := RemovePendingVchiMsg(r);
    }

    /** VchiqProcessPendingVchiMsg: waiting dequeue requests are served in order until one buffer is too small; its
        request is refused, and `tooSmall` is the failure this returns. */
    method ProcessPendingVchiMsg() returns (k: nat, tooSmall: bool)
      requires Valid()
      modifies this`pendingVchiMsgList, this`dequeued, this`dequeueQueue, this`calls
      ensures Valid()
      ensures Served(old(pendingVchiMsgList), old(dequeueQueue), k, tooSmall)
      ensures dequeued == old(dequeued) + old(pendingVchiMsgList)[..k] && pendingVchiMsgList == old(pendingVchiMsgList)[k..]
      ensures var used := k + if tooSmall then 1 else 0;
              && dequeueQueue == old(dequeueQueue)[used..]
              && calls == old(calls) + Ids(old(dequeueQueue)[..used])
    {
      hide LanesRight, MessagesRight, ReportsRight, Joins, Accounted, Waiting, Ids;
      ghost var msgs, requests := pendingVchiMsgList, dequeueQueue;
      k, tooSmall := 0, false;
      NoIds(requests);
      while pendingVchiMsgList != [] && dequeueQueue != []
        invariant Valid() && k <= |msgs| && k <= |requests| && pendingVchiMsgList == msgs[k..] && dequeueQueue == requests[k..]
        invariant dequeued == old(dequeued) + msgs[..k] && calls == old(calls) + Ids(requests[..k])
        invariant forall i | 0 <= i < k :: BytesOf(msgs[i]) <= requests[i].bufSize
        decreases |dequeueQueue|
      {
        OneMoreId(old(calls), requests, k);
        ghost var list := pendingVchiMsgList;
        var status, msg := ServeOldest();
        if status != Success {
          assert pendingVchiMsgList == list;
          tooSmall := true;
          return;
        }
        TakenFirst(old(dequeued), msgs, k, msg, pendingVchiMsgList);
        k := k + 1;
      }
    }

    // ---------- what the driver runs ----------

    /** The end of VchiqProcessNewRxMsg: the message has joined the lists, and the oldest await request is served. */
    method ServeArrival(m: Msg, ghost lists: Lists, refused: set<nat>)
        returns (completions: seq<Completion>, n: nat, k: nat, tooSmall: bool)
      requires Valid() && Snapshot() == Joined(lists, m)
      modifies this`pendingDataMsgList, this`pendingVchiMsgList, this`pendingBulkMsgList, this`awaitQueue, this`dequeueQueue,
               this`taken, this`returned, this`tracked, this`untracked, this`lanes, this`dequeued, this`calls
      ensures Valid() && returned == old(returned) + completions
      ensures Progress(isVchi, Joined(lists, m), Snapshot(), refused, n, completions, k, tooSmall)
      ensures calls == old(calls) + CompletedIn(Joined(lists, m), completions, k + if tooSmall then 1 else 0)
      ensures n <= |lists.data| + 1 && taken == old(taken) + (lists.data + [m])[..n]
      ensures Attended(lists.awaits, lists.data) ==> AwaitsAttended()
    {
      hide LanesRight, MessagesRight, ReportsRight, Joins, Accounted, Waiting, Ids, Reported, Progress, CompletedIn, Attended;
      completions, n, k, tooSmall := ProcessPendingMsg(refused);
      if Attended(lists.awaits, lists.data) {
        ArrivalAttended(isVchi, lists, m, Snapshot(), refused, n, completions, k, tooSmall);
      }
    }

    /** A caller completes its own request after serving has failed. */
    ghost method Fail(own: nat)
      requires Valid() && own < issued && own !in failed
      modifies this`calls, this`failed
      ensures Valid() && calls == old(calls) + multiset{own} && failed == old(failed) + {own}
    {
      hide LanesRight, MessagesRight, ReportsRight, Joins, Accounted, Waiting, Ids;
      FailKeeps(calls, Waiting(awaitQueue, dequeueQueue), issued, failed, own);
      calls, failed := calls + multiset{own}, failed + {own};
    }

    /** A new request joins its queue. */
    method EnqueueAwait(a: Await)
      requires Valid() && a.id == issued
      modifies this`awaitQueue, this`issued
      ensures Valid() && awaitQueue == old(awaitQueue) + [a] && issued == old(issued) + 1 && a.id !in failed
    {
      hide LanesRight, MessagesRight, ReportsRight, Joins, Accounted, Waiting, Ids;
      LastAwait(awaitQueue, dequeueQueue, a);
      IssueKeeps(calls, Waiting(awaitQueue, dequeueQueue), issued, failed);
      awaitQueue, issued := awaitQueue + [a], issued + 1;
    }

    method EnqueueDequeue(r: Dequeue)
      requires Valid() && r.id == issued
      modifies this`dequeueQueue, this`issued
      ensures Valid() && dequeueQueue == old(dequeueQueue) + [r] && issued == old(issued) + 1 && r.id !in failed
    {
      hide LanesRight, MessagesRight, ReportsRight, Joins, Accounted, Waiting, Ids;
      LastDequeue(awaitQueue, dequeueQueue, r);
      IssueKeeps(calls, Waiting(awaitQueue, dequeueQueue), issued, failed);
      dequeueQueue, issued := dequeueQueue + [r], issued + 1;
    }

    /** A request is completed without having been put into a queue. */
    method CompleteAtOnce()
      requires Valid()
      modifies this`issued, this`calls
      ensures Valid() && issued == old(issued) + 1 && calls == old(calls) + multiset{old(issued)}
    {
      hide LanesRight, MessagesRight, ReportsRight, Joins, Accounted, Waiting, Ids;
      IssueKeeps(calls, Waiting(awaitQueue, dequeueQueue), issued, failed);
      calls, issued := calls + multiset{issued}, issued + 1;
    }

    /** The await-completion request: it joins its queue, and the oldest one is served.  If that fails for want of room
        in a dequeue request's buffer, the caller completes its own request, wherever that is. */
    method AwaitCompletion(msgBufSize: nat, msgBufCount: nat, refused: set<nat>)
        returns (completions: seq<Completion>, n: nat, k: nat, tooSmall: bool)
      requires Valid()
      modifies this`pendingDataMsgList, this`pendingVchiMsgList, this`pendingBulkMsgList, this`awaitQueue, this`dequeueQueue,
               this`issued, this`taken, this`returned, this`tracked, this`untracked, this`lanes, this`dequeued, this`calls,
               this`failed
      ensures Valid() && issued == old(issued) + 1 && returned == old(returned) + completions
      ensures n <= |old(pendingDataMsgList)| && taken == old(taken) + old(pendingDataMsgList)[..n]
      ensures var before := Asked(old(Snapshot()), Await(old(issued), msgBufSize, msgBufCount));
              && Progress(isVchi, before, Snapshot(), refused, n, completions, k, tooSmall)
              && failed == old(failed) + (if RoundStopsShort(isVchi, before, refused) then {old(issued)} else {})
              && (tooSmall <==> RoundStopsShort(isVchi, before, refused))
              && calls == old(calls) + CompletedIn(before, completions, k + if tooSmall then 1 else 0)
                          + if tooSmall then multiset{old(issued)} else multiset{}
      ensures |old(Snapshot()).bulks| == MSG_BULK_MAX
      ensures old(AwaitsAttended()) ==>
                (AwaitsAttended() <==> !LeavesOne(old(Snapshot()), Await(old(issued), msgBufSize, msgBufCount)))
    {
      hide LanesRight, MessagesRight, ReportsRight, Joins, Accounted, Waiting, Ids, Reported, Progress, RoundStopsShort,
           CompletedIn, Attended, LeavesOne;
      var own := issued;
      EnqueueAwait(Await(own, msgBufSize, msgBufCount));
      ghost var before := Snapshot();
      completions, n, k, tooSmall := ProcessPendingMsg(refused);
      ProgressStops(isVchi, before, Snapshot(), refused, n, completions, k, tooSmall);
      if old(AwaitsAttended()) {
        RequestAttended(isVchi, old(Snapshot()), Await(own, msgBufSize, msgBufCount), Snapshot(), refused,
                        n, completions, k, tooSmall);
      }
      if tooSmall {
        Fail(own);
      }
    }

    /** The dequeue-message request: answered at once when it does not wait and there is nothing; otherwise it joins its
        queue, which is then served.  If that stops at a buffer that is too small, the caller completes its own request,
        wherever that is. */
    method DequeueMessage(bufSize: nat, blocking: bool) returns (noEntries: bool, k: nat, tooSmall: bool)
      requires Valid()
      modifies this`pendingVchiMsgList, this`dequeued, this`dequeueQueue, this`issued, this`calls, this`failed
      ensures Valid() && issued == old(issued) + 1 && noEntries == (!blocking && old(pendingVchiMsgList) == [])
      ensures var requests := old(dequeueQueue) + [Dequeue(old(issued), bufSize)];
              && failed == old(failed) + (if StopsShort(old(pendingVchiMsgList), requests) then {old(issued)} else {})
              && (tooSmall <==> StopsShort(old(pendingVchiMsgList), requests))
              && (if noEntries then dequeueQueue == old(dequeueQueue) && k == 0
                  else Served(old(pendingVchiMsgList), requests, k, tooSmall)
                       && dequeueQueue == requests[k + if tooSmall then 1 else 0..])
              && calls == old(calls) + (if noEntries then multiset{} else Ids(requests[..k + if tooSmall then 1 else 0]))
                          + (if noEntries || tooSmall then multiset{old(issued)} else multiset{})
      ensures k <= |old(pendingVchiMsgList)| && dequeued == old(dequeued) + old(pendingVchiMsgList)[..k]
      ensures pendingVchiMsgList == old(pendingVchiMsgList)[k..]
    {
      hide LanesRight, MessagesRight, ReportsRight, Joins, Accounted, Waiting, Ids;
      var own := Dequeue(issued, bufSize);
      ghost var requests := dequeueQueue + [own];
      noEntries, k, tooSmall := false, 0, false;
      if !blocking && pendingVchiMsgList == [] {
        noEntries := true;
        CompleteAtOnce();
        return;
      }
      EnqueueDequeue(own);
      k, tooSmall := ProcessPendingVchiMsg();
      ServedStops(old(pendingVchiMsgList), requests, k, tooSmall);
      if tooSmall {
        Fail(own.id);
      }
    }

    /** The framework cancels an await or dequeue request that waits, and completes it. */
    method CancelAwait(i: nat)
      requires Valid() && i < |awaitQueue|
      modifies this`awaitQueue, this`calls
      ensures Valid() && awaitQueue == Without(old(awaitQueue), i) && calls == old(calls) + multiset{old(awaitQueue)[i].id}
      ensures old(AwaitsAttended()) ==>
                (AwaitsAttended() <==>
                   (i > 0 || |old(awaitQueue)| == 1 || pendingDataMsgList == []
                    || BytesOf(pendingDataMsgList[0]) > old(awaitQueue)[1].msgBufSize))
    {
      hide LanesRight, MessagesRight, ReportsRight, Joins, Accounted, Waiting, Ids;
      AwaitTakenOut(awaitQueue, dequeueQueue, i);
      CompleteKeeps(calls, Waiting(Without(awaitQueue, i), dequeueQueue), issued, failed, awaitQueue[i].id);
      calls := calls + multiset{awaitQueue[i].id};
      awaitQueue := Without(awaitQueue, i);
    }

    method CancelDequeue(i: nat)
      requires Valid() && i < |dequeueQueue|
      modifies this`dequeueQueue, this`calls
      ensures Valid() && dequeueQueue == Without(old(dequeueQueue), i)
      ensures calls == old(calls) + multiset{old(dequeueQueue)[i].id}
    {
      hide LanesRight, MessagesRight, ReportsRight, Joins, Accounted, Waiting, Ids;
      DequeueTakenOut(awaitQueue, dequeueQueue, i);
      CompleteKeeps(calls, Waiting(awaitQueue, Without(dequeueQueue, i)), issued, failed, dequeueQueue[i].id);
      calls := calls + multiset{dequeueQueue[i].id};
      dequeueQueue := Without(dequeueQueue, i);
    }

    /** The first part: a DONE completes the bulk request at the head of its queue, and the message joins the data list
        unless there was none or its entry cannot be allocated. */
    method AcceptArrival(m: Msg, allocOk: bool) returns (joins: bool)
      requires Valid()
      modifies this`pendingDataMsgList, this`bulkQueue, this`arrived, this`lanes
      ensures Valid() && |old(bulkQueue)| == |bulkQueue| == MSG_BULK_MAX
      ensures joins == Joining(m, allocOk, old(bulkQueue))
      ensures pendingDataMsgList == old(pendingDataMsgList) + if joins then [m] else []
      ensures arrived == old(arrived) + if joins then [m] else []
      ensures forall d: nat | d < MSG_BULK_MAX ::
                bulkQueue[d] == if IsDone(m, d) && old(bulkQueue)[d] != [] then old(bulkQueue)[d][1..] else old(bulkQueue)[d]
    {
      hide LanesRight, MessagesRight, ReportsRight, Joins, Accounted, Waiting, Ids, Completed, IsDone;
      OneDirection(m);
      if IsDone(m, MSG_BULK_TX) || IsDone(m, MSG_BULK_RX) {
        var d := if IsDone(m, MSG_BULK_TX) then MSG_BULK_TX else MSG_BULK_RX;
        var completed := BulkDoneArrives(d, m, allocOk);
        joins := completed != [] && allocOk;
      } else {
        AddPendingMsg(m, allocOk);
        joins := allocOk;
      }
    }

    /** What the receive loop does with a message for this service: a DONE completes a bulk request first, and joins the
        data list only if there was one. */
    method MessageArrives(m: Msg, allocOk: bool, refused: set<nat>)
        returns (completions: seq<Completion>, n: nat, k: nat, tooSmall: bool)
      requires Valid()
      modifies this`pendingDataMsgList, this`pendingVchiMsgList, this`pendingBulkMsgList, this`bulkQueue, this`awaitQueue,
               this`dequeueQueue, this`arrived, this`taken, this`returned, this`tracked, this`untracked, this`lanes,
               this`dequeued, this`calls
      ensures Valid() && returned == old(returned) + completions && |old(bulkQueue)| == MSG_BULK_MAX
      ensures arrived == old(arrived) + (if Joining(m, allocOk, old(bulkQueue)) then [m] else [])
      ensures if Joining(m, allocOk, old(bulkQueue))
              then var before := Joined(old(Snapshot()), m);
                   && Progress(isVchi, before, Snapshot(), refused, n, completions, k, tooSmall)
                   && calls == old(calls) + CompletedIn(before, completions, k + if tooSmall then 1 else 0)
                   && taken == old(taken) + before.data[..n]
              else Snapshot() == old(Snapshot()) && calls == old(calls) && taken == old(taken)
                   && completions == [] && n == k == 0 && !tooSmall
      ensures |bulkQueue| == MSG_BULK_MAX && forall d: nat | d < MSG_BULK_MAX ::
                bulkQueue[d] == if IsDone(m, d) && old(bulkQueue)[d] != [] then old(bulkQueue)[d][1..] else old(bulkQueue)[d]
      ensures old(AwaitsAttended()) ==> AwaitsAttended()
    {
      hide LanesRight, MessagesRight, ReportsRight, Joins, Accounted, Waiting, Ids, Progress, CompletedIn, IsDone, Joining,
           Attended;
      completions, n, k, tooSmall := [], 0, 0, false;
      var joins := AcceptArrival(m, allocOk);
      if joins {
        completions, n, k, tooSmall := ServeArrival(m, old(Snapshot()), refused);
      }
    }

    /** Any sequence of arrivals, requests and cancellations.  Afterwards everything that holds of valid states holds, so
        the delivery order and the pairing of bulk reports; and a request has been completed at most once if serving did
        not stop for want of room in its own IOCTL, and otherwise, when it waits no longer, exactly twice. */
    method Run(script: seq<Op>)
      requires Valid()
      modifies this
      ensures Valid() && issued == old(issued) + Requests(script) && old(failed) <= failed && old(returned) <= returned
      ensures forall id: nat | id < issued ::
                (id !in failed ==> calls[id] <= 1)
                && (id !in Waiting(awaitQueue, dequeueQueue) ==> calls[id] == if id in failed then 2 else 1)
      ensures old(AwaitsAttended()) && (forall i | 0 <= i < |script| :: Patient(script[i])) ==> AwaitsAttended()
    {
      hide LanesRight, MessagesRight, ReportsRight, Joins, Accounted, Waiting, Ids, Attended, Patient;
      for i := 0 to |script|
        invariant Valid() && issued == old(issued) + Requests(script[..i]) && old(failed) <= failed && old(returned) <= returned
        invariant old(AwaitsAttended()) && (forall j | 0 <= j < i :: Patient(script[j])) ==> AwaitsAttended()
      {
        RequestsNext(script, i);
        Step(script[i]);
      }
      assert script[..|script|] == script;
      forall id: nat | id < issued
        ensures id !in failed ==> calls[id] <= 1
        ensures id !in Waiting(awaitQueue, dequeueQueue) ==> calls[id] == if id in failed then 2 else 1
      {
        CompletedOnce(id);
      }
    }

    method Step(op: Op)
      requires Valid()
      modifies this
      ensures Valid() && old(failed) <= failed && old(returned) <= returned
      ensures old(AwaitsAttended()) && Patient(op) ==> AwaitsAttended()
      ensures issued == old(issued) + Requests([op])
      ensures |old(bulkQueue)| == MSG_BULK_MAX
      ensures match op
              case Arrival(m, allocOk, _) => arrived == old(arrived) + if Joining(m, allocOk, old(bulkQueue)) then [m] else []
              case AwaitCancelled(i) => awaitQueue == if i < |old(awaitQueue)| then Without(old(awaitQueue), i) else old(awaitQueue)
              case DequeueCancelled(i) =>
                dequeueQueue == if i < |old(dequeueQueue)| then Without(old(dequeueQueue), i) else old(dequeueQueue)
              case _ => arrived == old(arrived)
    {
      hide LanesRight, MessagesRight, ReportsRight, Joins, Accounted, Waiting, Ids, Progress, Reported, Completed, CancelAt,
           CompletedIn, RoundStopsShort, StopsShort, Served, Attended, Without;
      match op {
        case Arrival(m, allocOk, refused) =>
          var _, _, _, _ := MessageArrives(m, allocOk, refused);
        case AwaitIoctl(msgBufSize, msgBufCount, refused) =>
          var _, _, _, _ := AwaitCompletion(msgBufSize, msgBufCount, refused);
        case DequeueIoctl(bufSize, blocking) =>
          var _, _, _ := DequeueMessage(bufSize, blocking);
        case BulkIoctl(rx, r, addOk, forwardOk, transfer) =>
          var _ := ProcessBulkTransfer(if rx then MSG_BULK_RX else MSG_BULK_TX, r, addOk, forwardOk, transfer);
        case BulkCancelled(rx, i) =>
          var d := if rx then MSG_BULK_RX else MSG_BULK_TX;
          if i < |bulkQueue[d]| {
            CancelBulk(d, i);
          }
        case AwaitCancelled(i) =>
          if i < |awaitQueue| {
            CancelAwait(i);
          }
        case DequeueCancelled(i) =>
          if i < |dequeueQueue| {
            CancelDequeue(i);
          }
      }
    }

    /** How often a request has been completed, after any run: once it has left its queue exactly once if its own IOCTL
        did not fail, and otherwise exactly twice; while it waits once less. */
    lemma CompletedOnce(id: nat)
      requires Valid() && id < issued
      ensures calls[id] == (if id in Waiting(awaitQueue, dequeueQueue) then 0 else 1) + (if id in failed then 1 else 0)
      ensures id !in failed ==> calls[id] <= 1
      ensures id in failed && id !in Waiting(awaitQueue, dequeueQueue) ==> calls[id] == 2
    {
      CompletedExactly(calls, Waiting(awaitQueue, dequeueQueue), issued, failed, id);
      hide *;
    }
  }

  /** One step of a run of a service. */
  datatype Op =
    | Arrival(m: Msg, allocOk: bool, refused: set<nat>)
    | AwaitIoctl(msgBufSize: nat, msgBufCount: nat, refused: set<nat>)
    | DequeueIoctl(bufSize: nat, blocking: bool)
    | BulkIoctl(rx: bool, r: Request, addOk: bool, forwardOk: bool, transfer: Transfer)
    | BulkCancelled(rx: bool, i: nat)
    | AwaitCancelled(i: nat)
    | DequeueCancelled(i: nat)

  /** Every await request asks for at least one message, and none is cancelled. */
  predicate Patient(op: Op) {
    !op.AwaitCancelled? && (op.AwaitIoctl? ==> op.msgBufCount > 0)
  }

  /** The await and dequeue requests of a script. */
  function Requests(script: seq<Op>): nat {
    if script == [] then 0
    else
      var op := script[|script| - 1];
      Requests(script[..|script| - 1]) + if op.AwaitIoctl? || op.DequeueIoctl? then 1 else 0
  }

  lemma RequestsNext(script: seq<Op>, i: nat)
    requires i < |script|
    ensures Requests(script[..i + 1]) == Requests(script[..i]) + Requests([script[i]])
  {
    assert script[..i + 1][..i] == script[..i];
    assert [script[i]][..0] == [];
  }

  lemma AwaitTakenOut(awaits: seq<Await>, dequeues: seq<Dequeue>, i: nat)
    requires i < |awaits|
    ensures Waiting(awaits, dequeues) == Waiting(Without(awaits, i), dequeues) + multiset{awaits[i].id}
  {
    hide Ids;
    assert AwaitIds(awaits) == AwaitIds(awaits)[..i] + [awaits[i].id] + AwaitIds(awaits)[i + 1..];
    assert AwaitIds(Without(awaits, i)) == AwaitIds(awaits)[..i] + AwaitIds(awaits)[i + 1..];
  }

  lemma DequeueTakenOut(awaits: seq<Await>, dequeues: seq<Dequeue>, i: nat)
    requires i < |dequeues|
    ensures Waiting(awaits, dequeues) == Waiting(awaits, Without(dequeues, i)) + multiset{dequeues[i].id}
  {
    hide AwaitIds;
    assert DequeueIds(dequeues) == DequeueIds(dequeues)[..i] + [dequeues[i].id] + DequeueIds(dequeues)[i + 1..];
    assert DequeueIds(Without(dequeues, i)) == DequeueIds(dequeues)[..i] + DequeueIds(dequeues)[i + 1..];
  }

  // ---------- requests that are completed twice ----------

  method TwoDequeuesWait() returns (file: FileContext)
    ensures fresh(file) && file.Valid() && file.isVchi && file.issued == 2 && file.failed == {}
    ensures file.Snapshot() == Lists([], [], [[], []], [], [Dequeue(0, 8), Dequeue(1, 9)])
  {
    file := new FileContext(true);
    hide LanesRight, MessagesRight, ReportsRight, Joins, Accounted, Ids, Waiting, StopsShort, BytesOf;
    NothingStops([Dequeue(0, 8)]);
    NothingStops([Dequeue(0, 8), Dequeue(1, 9)]);
    var noEntries, k, tooSmall := file.DequeueMessage(8, true);
    assert [] + [Dequeue(0, 8)] == [Dequeue(0, 8)] && file.dequeueQueue == [Dequeue(0, 8)];
    noEntries, k, tooSmall := file.DequeueMessage(9, true);
    assert [Dequeue(0, 8)] + [Dequeue(1, 9)] == [Dequeue(0, 8), Dequeue(1, 9)];
  }

  method MessageWaits(m: Msg) returns (file: FileContext)
    requires IsData(m)
    ensures fresh(file) && file.Valid() && file.isVchi && file.issued == 2 && file.failed == {}
    ensures file.Snapshot() == Lists([m], [], [[], []], [], [Dequeue(0, 8), Dequeue(1, 9)])
  {
    file := TwoDequeuesWait();
    hide LanesRight, MessagesRight, ReportsRight, Joins, Accounted, Ids, Waiting, Progress, CompletedIn, Attended;
    ghost var before := file.Snapshot();
    OneDirection(m);
    var completions, n, k, tooSmall := file.MessageArrives(m, true, {});
    assert [] + [m] == [m];
    NobodyAwaits(before.(data := [m]), file.Snapshot(), n, completions, k, tooSmall);
  }

  method AwaitFails(m: Msg) returns (file: FileContext)
    requires IsData(m) && BytesOf(m) > 9
    ensures fresh(file) && file.Valid() && file.issued == 3 && file.failed == {2}
    ensures file.awaitQueue == [] && file.dequeueQueue == [Dequeue(1, 9)] && file.pendingVchiMsgList == [m]
  {
    file := MessageWaits(m);
    hide LanesRight, MessagesRight, ReportsRight, Joins, Accounted, Ids, Waiting, Progress, RoundStopsShort, CompletedIn,
         Attended, LeavesOne, Asked, BytesOf, IsData;
    ghost var lists := file.Snapshot();
    var completions, n, k, tooSmall := file.AwaitCompletion(BytesOf(m), 1, {});
    FirstRefused(m, lists, file.Snapshot(), n, completions, k, tooSmall);
  }

  /** Two dequeue requests wait with buffers of 8 and 9 bytes, and a message that fits neither is awaited: the await
      request is completed with the message and, because serving the dequeue requests fails, once more. */
  method AwaitCompletedTwice(m: Msg) returns (file: FileContext)
    requires IsData(m) && BytesOf(m) > 9
    ensures fresh(file) && file.Valid() && file.issued == 3 && file.failed == {2}
    ensures file.awaitQueue == [] && file.dequeueQueue == [Dequeue(1, 9)] && file.pendingVchiMsgList == [m]
    ensures file.calls[0] == 1 && file.calls[1] == 0 && file.calls[2] == 2
  {
    file := AwaitFails(m);
    OneWaits(Dequeue(1, 9));
    hide LanesRight, MessagesRight, ReportsRight, Joins, Accounted, Ids, Waiting;
    file.CompletedOnce(0);
    file.CompletedOnce(1);
    file.CompletedOnce(2);
  }

  /** Behind the waiting request with the small buffer a third one comes in, whose buffer would do: its IOCTL refuses the
      older request and completes the new one, which still waits. */
  method CompletedAndStillWaiting(m: Msg) returns (file: FileContext)
    requires IsData(m) && BytesOf(m) > 9
    ensures fresh(file) && file.Valid() && file.issued == 4 && file.failed == {2, 3}
    ensures file.awaitQueue == [] && file.dequeueQueue == [Dequeue(3, BytesOf(m))] && file.pendingVchiMsgList == [m]
    ensures file.calls[3] == 1
  {
    file := AwaitCompletedTwice(m);
    hide LanesRight, MessagesRight, ReportsRight, Joins, Accounted, Ids, Waiting;
    ghost var requests := [Dequeue(1, 9), Dequeue(3, BytesOf(m))];
    assert [Dequeue(1, 9)] + [Dequeue(3, BytesOf(m))] == requests && BytesOf([m][0]) > requests[0].bufSize;
    var noEntries, k, tooSmall := file.DequeueMessage(BytesOf(m), true);
    OneWaits(Dequeue(3, BytesOf(m)));
    file.CompletedOnce(3);
  }

  /** When the message is then dequeued, the request that waited is completed again. */
  method CompletedWhileItWaits(m: Msg) returns (file: FileContext)
    requires IsData(m) && BytesOf(m) > 9
    ensures fresh(file) && file.Valid() && file.issued == 5
    ensures file.awaitQueue == [] && file.dequeueQueue == [Dequeue(4, 8)] && file.pendingVchiMsgList == []
    ensures file.calls[1] == 1 && file.calls[3] == 2 && file.calls[4] == 0
  {
    file := CompletedAndStillWaiting(m);
    hide LanesRight, MessagesRight, ReportsRight, Joins, Accounted, Ids, Waiting, StopsShort;
    ghost var requests := [Dequeue(3, BytesOf(m)), Dequeue(4, 8)];
    assert [Dequeue(3, BytesOf(m))] + [Dequeue(4, 8)] == requests;
    FirstFits(m, requests);
    var noEntries, k, tooSmall := file.DequeueMessage(8, true);
    OneWaits(Dequeue(4, 8));
    file.CompletedOnce(1);
    file.CompletedOnce(3);
    file.CompletedOnce(4);
  }

  lemma FirstFits(m: Msg, requests: seq<Dequeue>)
    requires requests != [] && BytesOf(m) <= requests[0].bufSize
    ensures !StopsShort([m], requests)
  {
  }

  lemma NothingStops(requests: seq<Dequeue>)
    ensures !StopsShort([], requests)
  {
  }

  lemma OneWaits(r: Dequeue)
    ensures forall id: nat :: id in Waiting([], [r]) <==> id == r.id
  {
    assert DequeueIds([r]) == [r.id];
  }

  lemma NobodyAwaits(before: Lists, after: Lists, n: nat, completions: seq<Completion>, k: nat, tooSmall: bool)
    requires before.awaits == [] && Progress(true, before, after, {}, n, completions, k, tooSmall)
    ensures after == before
  {
    LeftNothing(before.bulks, before.data[..0], after.bulks);
    assert Kept(true, before.data[..0], {}) == [];
  }

  lemma LeftNothing(bulks: seq<seq<Bulk>>, none: seq<Msg>, left: seq<seq<Bulk>>)
    requires none == [] && Left(bulks, none, left)
    ensures left == bulks
  {
  }

  lemma FirstRefused(m: Msg, lists: Lists, after: Lists, n: nat, completions: seq<Completion>, k: nat, tooSmall: bool)
    requires IsData(m) && BytesOf(m) > 9
    requires lists == Lists([m], [], [[], []], [], [Dequeue(0, 8), Dequeue(1, 9)])
    requires Progress(true, Asked(lists, Await(2, BytesOf(m), 1)), after, {}, n, completions, k, tooSmall)
    ensures tooSmall && after.awaits == [] && after.dequeues == [Dequeue(1, 9)] && after.vchi == [m]
  {
    var before := Asked(lists, Await(2, BytesOf(m), 1));
    assert before.awaits == [Await(2, BytesOf(m), 1)];
    UndersizedTakesNothing(before.awaits[0], before.data, before.bulks, n);
    assert [m][..1] == [m];
    OneMessage(m, before.bulks);
    hide Returned, Kept, Left, IsData;
    assert [] + [m] == [m];
  }

  lemma OneMessage(m: Msg, bulks: seq<seq<Bulk>>)
    requires IsData(m) && |bulks| == MSG_BULK_MAX
    ensures Returned([m], bulks) == [MessageAvailable(m)] && Kept(true, [m], {}) == [m]
  {
    assert [m][..0] == [] && Tracked([m][..0], {}) == [] && Returned([m][..0], bulks) == [];
  }

  method TwoAwaitsWait(m: Msg) returns (file: FileContext)
    requires IsData(m) && BytesOf(m) > 8
    ensures fresh(file) && file.Valid() && !file.isVchi && file.returned == []
    ensures file.Snapshot() == Lists([m], [], [[], []], [Await(0, 8, 1), Await(1, BytesOf(m), 1)], [])
  {
    file := new FileContext(false);
    hide LanesRight, MessagesRight, ReportsRight, Joins, Accounted, Ids, Waiting, Progress, LeavesOne, Attended, CompletedIn,
         RoundStopsShort;
    ghost var first, second := Await(0, 8, 1), Await(1, BytesOf(m), 1);
    OneDirection(m);
    ghost var before := file.Snapshot();
    var completions, n, k, tooSmall := file.AwaitCompletion(8, 1, {});
    NothingToTake(Asked(before, first), file.Snapshot(), n, completions, k, tooSmall);
    assert [] + [first] == [first];
    before := file.Snapshot();
    completions, n, k, tooSmall := file.AwaitCompletion(BytesOf(m), 1, {});
    NothingToTake(Asked(before, second), file.Snapshot(), n, completions, k, tooSmall);
    assert [first] + [second] == [first, second];
    before := file.Snapshot();
    completions, n, k, tooSmall := file.MessageArrives(m, true, {});
    NothingToTake(Joined(before, m), file.Snapshot(), n, completions, k, tooSmall);
    assert [] + [m] == [m];
  }

  /** A cancelled await request leaves the next one unattended: the oldest of two requests has too small a buffer for the
      message that waits, and when it is cancelled nothing serves the other one, whose buffer would do. */
  method CancelledAwaitStarvesNext(m: Msg) returns (file: FileContext)
    requires IsData(m) && BytesOf(m) > 8
    ensures fresh(file) && file.Valid() && file.pendingDataMsgList == [m] && file.returned == []
    ensures file.awaitQueue == [Await(1, BytesOf(m), 1)] && !file.AwaitsAttended()
  {
    file := TwoAwaitsWait(m);
    hide LanesRight, MessagesRight, ReportsRight, Joins, Accounted, Ids, Waiting;
    file.CancelAwait(0);
  }

  /** Nothing is taken when there is no message, or the first one does not fit. */
  lemma NothingToTake(before: Lists, after: Lists, n: nat, completions: seq<Completion>, k: nat, tooSmall: bool)
    requires Progress(false, before, after, {}, n, completions, k, tooSmall)
    requires before.awaits != [] && (before.data == [] || BytesOf(before.data[0]) > before.awaits[0].msgBufSize)
    ensures after == before && completions == []
  {
    NothingTaken(before.data, before.bulks, {});
    assert n == 0;
    LeftNothing(before.bulks, before.data[..0], after.bulks);
    assert Kept(false, before.data[..0], {}) == [];
  }

  method FirstOfTwoCancelled() returns (file: FileContext)
    ensures fresh(file) && file.Valid() && file.pendingDataMsgList == [] && file.awaitQueue == [] && file.issued == 0
    ensures file.bulkQueue[MSG_BULK_TX] == [Request(2, Bulk(20, Callback))]
    ensures file.pendingBulkMsgList[MSG_BULK_TX] == [Bulk(10, Callback), Bulk(20, Callback)]
  {
    hide LanesRight, MessagesRight, ReportsRight, Joins, Accounted, Waiting, Ids, CancelAt;
    file := new FileContext(false);
    var _ := file.ProcessBulkTransfer(MSG_BULK_TX, Request(1, Bulk(10, Callback)), true, true, Sent);
    assert file.bulkQueue[MSG_BULK_TX] == [Request(1, Bulk(10, Callback))];
    var _ := file.ProcessBulkTransfer(MSG_BULK_TX, Request(2, Bulk(20, Callback)), true, true, Sent);
    assert file.bulkQueue[MSG_BULK_TX] == [Request(1, Bulk(10, Callback)), Request(2, Bulk(20, Callback))];
    file.CancelBulk(MSG_BULK_TX, 0);
  }

  /** A cancelled request spoils the pairing: two transmissions are accepted, the first is cancelled while it waits, and
      the DONE of that transfer completes the second request but tells the client the first one's user data. */
  method CancelledBulkMispairs(m: Msg) returns (completed: seq<Request>, completions: seq<Completion>)
    requires IsDone(m, MSG_BULK_TX)
    ensures completed == [Request(2, Bulk(20, Callback))] && completions == [BulkDone(m, 10)]
  {
    var file := FirstOfTwoCancelled();
    hide LanesRight, MessagesRight, ReportsRight, Joins, Accounted, Waiting, Ids, Tracked, Served, Left, Returned, TakesUpTo, RoundStopsShort;
    completed := file.BulkDoneArrives(MSG_BULK_TX, m, true);
    assert file.pendingDataMsgList == [m];
    ghost var bulks := file.pendingBulkMsgList;
    var n, k, tooSmall;
    completions, n, k, tooSmall := file.AwaitCompletion(BytesOf(m), 1, {});
    FirstReport(m, bulks, n);
  }

  lemma FirstReport(m: Msg, bulks: seq<seq<Bulk>>, n: nat)
    requires IsDone(m, MSG_BULK_TX) && |bulks| == MSG_BULK_MAX && bulks[MSG_BULK_TX] != []
    requires WantsCallback(bulks[MSG_BULK_TX][0]) && TakesUpTo(Await(0, BytesOf(m), 1), [m], bulks, n)
    ensures n == 1 && Returned([m][..n], bulks) == [BulkDone(m, bulks[MSG_BULK_TX][0].userData)]
  {
    assert [m][..0] == [] && [m][..1] == [m];
  }

  lemma OneDirection(m: Msg)
    ensures forall d: nat, e: nat | d < MSG_BULK_MAX && e < MSG_BULK_MAX && IsDone(m, d) && IsDone(m, e) :: d == e
    ensures IsData(m) ==> forall d: nat :: !IsDone(m, d)
  {
  }

  /** A round that takes nothing. */
  lemma NothingDone(isVchi: bool, lists: Lists, lanes: seq<Lane>, refused: set<nat>)
    requires |lanes| == |lists.bulks| == MSG_BULK_MAX && (lists.data == [] || lists.awaits == [])
    ensures lists.data[..0] == [] && Progress(isVchi, lists, lists, refused, 0, [], 0, false)
    ensures Reported(lanes, lanes, lists.bulks, lists.data[..0])
    ensures CompletedIn(lists, [], 0) == multiset{} && Dequeueable(isVchi, lists, refused, 0)[..0] == []
  {
    NothingTaken(lists.data, lists.bulks, refused);
    forall d: nat | d < MSG_BULK_MAX ensures lanes[d].reported + lists.bulks[d][..0] == lanes[d].reported {
    }
  }

  /** What makes up a round. */
  lemma ProgressMade(isVchi: bool, before: Lists, after: Lists, refused: set<nat>,
                     n: nat, completions: seq<Completion>, k: nat, tooSmall: bool)
    requires |before.bulks| == MSG_BULK_MAX && n <= |before.data| && after.data == before.data[n..]
    requires completions == Returned(before.data[..n], before.bulks) && Left(before.bulks, before.data[..n], after.bulks)
    requires before.awaits != [] && TakesUpTo(before.awaits[0], before.data, before.bulks, n)
    requires after.awaits == if completions == [] then before.awaits else before.awaits[1..]
    requires var msgs := Dequeueable(isVchi, before, refused, n);
             var used := k + if tooSmall then 1 else 0;
             && k <= |msgs| && after.vchi == msgs[k..] && used <= |before.dequeues| && after.dequeues == before.dequeues[used..]
             && if completions == [] then used == 0 else Served(msgs, before.dequeues, k, tooSmall)
    ensures Progress(isVchi, before, after, refused, n, completions, k, tooSmall)
    ensures var used := k + if tooSmall then 1 else 0;
            used <= |before.dequeues| && CompletedIn(before, completions, used)
              == if completions == [] then multiset{}
                 else multiset{before.awaits[0].id} + Ids(before.dequeues[..used])
  {
    hide Returned, Left, TakesUpTo, Kept;
  }

  lemma TakenFirst(start: seq<Msg>, msgs: seq<Msg>, k: nat, first: seq<Msg>, rest: seq<Msg>)
    requires k < |msgs| && |first| == 1 && first + rest == msgs[k..]
    ensures rest == msgs[k + 1..] && start + msgs[..k] + first == start + msgs[..k + 1]
  {
    assert first[0] == msgs[k..][0] && rest == msgs[k..][1..];
  }

  lemma LeftSizes(bulks: seq<seq<Bulk>>, msgs: seq<Msg>, left: seq<seq<Bulk>>)
    requires Left(bulks, msgs, left)
    ensures |bulks| == |left| == MSG_BULK_MAX && forall d: nat | d < MSG_BULK_MAX :: Dones(msgs, d) <= |bulks[d]|
  {
  }

  lemma NothingTaken(msgs: seq<Msg>, bulks: seq<seq<Bulk>>, refused: set<nat>)
    requires |bulks| == MSG_BULK_MAX
    ensures msgs[..0] == [] && Returned(msgs[..0], bulks) == [] && Tracked(msgs[..0], refused) == []
    ensures Left(bulks, msgs[..0], bulks)
  {
  }
}
