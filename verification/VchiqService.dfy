/** From the peer's writer to the client of one port: the slot transport together with the pending lists of a service.

    The lists of `VchiqPending` hold messages; here each of their entries is tied to an entry of the transport, which
    points into a slot, and whatever the client is given is copied out of that slot.  Other ports and their clients share
    the transport.
  */
module VchiqService {
  import opened Bytes
  import opened VchiqStream
  import Transport = VchiqChannel
  import opened VchiqBulk
  import opened VchiqPending
  import VchiqRequests

  const PORTS := 4096

  /** The message is data for this port; an empty one is ignored. */
  predicate For(m: Msg, port: nat) {
    IsData(m) && m.payload != [] && m.id % PORTS == port
  }

  /** What the client of a port is owed of a sequence of messages. */
  function Owed(msgs: seq<Msg>, port: nat): seq<Msg> {
    if msgs == [] then []
    else Owed(msgs[..|msgs| - 1], port) + if For(msgs[|msgs| - 1], port) then [msgs[|msgs| - 1]] else []
  }

  lemma OwedNext(msgs: seq<Msg>, m: Msg, port: nat)
    ensures Owed(msgs + [m], port) == Owed(msgs, port) + if For(m, port) then [m] else []
  {
    assert (msgs + [m])[..|msgs|] == msgs;
  }

  lemma {:induction false} OwedPrefix(a: seq<Msg>, b: seq<Msg>, port: nat)
    requires a <= b
    ensures Owed(a, port) <= Owed(b, port)
  {
    if a == b {
    } else {
      assert a <= b[..|b| - 1];
      OwedPrefix(a, b[..|b| - 1], port);
    }
  }

  lemma DatasNext(msgs: seq<Msg>, m: Msg)
    ensures Datas(msgs + [m]) == Datas(msgs) + if IsData(m) then [m] else []
  {
    assert (msgs + [m])[..|msgs|] == msgs;
  }

  /** The entries of a list are entries of the transport, each of them once, for just these messages. */
  ghost predicate Matches(keys: seq<nat>, msgs: seq<Msg>, entries: set<nat>, sent: seq<Record>) {
    && |keys| == |msgs|
    && (forall i | 0 <= i < |keys| ::
          keys[i] in entries && keys[i] < |sent| && sent[keys[i]].Message?
          && Msg(sent[keys[i]].id, sent[keys[i]].payload) == msgs[i])
    && (forall i, j | 0 <= i < j < |keys| :: keys[i] != keys[j])
  }

  /** All that the client of a port is owed has arrived in its list, but for `lost` messages. */
  ghost predicate Arrived(arrived: seq<Msg>, received: seq<Msg>, port: nat, lost: nat) {
    && |Datas(arrived)| + lost == |Owed(received, port)|
    && (lost == 0 ==> Datas(arrived) == Owed(received, port))
  }

  lemma ArrivedNext(arrived: seq<Msg>, received: seq<Msg>, port: nat, lost: nat, m: Msg, joins: bool)
    requires Arrived(arrived, received, port, lost) && (joins && IsData(m) ==> For(m, port))
    ensures Arrived(if joins then arrived + [m] else arrived, received + [m], port,
                    lost + if For(m, port) && !joins then 1 else 0)
  {
    OwedNext(received, m, port);
    DatasNext(arrived, m);
  }

  lemma MatchesOn(keys: seq<nat>, msgs: seq<Msg>, entries: set<nat>, sent: seq<Record>, more: set<nat>, longer: seq<Record>)
    requires Matches(keys, msgs, entries, sent) && sent <= longer && forall k | k in keys :: k in more
    ensures Matches(keys, msgs, more, longer)
  {
  }

  lemma MatchesNext(keys: seq<nat>, msgs: seq<Msg>, entries: set<nat>, sent: seq<Record>, key: nat, m: Msg)
    requires Matches(keys, msgs, entries, sent) && key !in keys
    requires key < |sent| && sent[key].Message? && Msg(sent[key].id, sent[key].payload) == m
    ensures Matches(keys + [key], msgs + [m], entries + {key}, sent)
  {
  }

  lemma MatchesRest(keys: seq<nat>, msgs: seq<Msg>, entries: set<nat>, sent: seq<Record>)
    requires Matches(keys, msgs, entries, sent) && msgs != []
    ensures keys != [] && keys[0] in entries && keys[0] < |sent| && sent[keys[0]].Message?
    ensures Msg(sent[keys[0]].id, sent[keys[0]].payload) == msgs[0]
    ensures Matches(keys[1..], msgs[1..], entries - {keys[0]}, sent) && keys[0] !in keys[1..]
  {
  }

  class Service {
    const channel: Transport.Channel
    const file: FileContext
    const port: nat

    // the entries of the two lists
    var dataKeys: seq<nat>
    var vchiKeys: seq<nat>

    // history
    ghost var copied: seq<Msg>  // messages copied out of slots for await requests
    ghost var lost: nat         // messages for this port whose list entry could not be allocated

    ghost predicate Linked(data: seq<Msg>, vchi: seq<Msg>)
      reads this, channel
    {
      && Matches(dataKeys, data, channel.dataMsgs.Keys, channel.sent)
      && Matches(vchiKeys, vchi, channel.vchiMsgs.Keys, channel.sent)
    }

    ghost predicate Valid()
      reads this, channel, file
    {
      && channel.Valid() && file.Valid() && copied == file.taken
      && Linked(file.pendingDataMsgList, file.pendingVchiMsgList)
      && Arrived(file.arrived, channel.received, port, lost)
    }

    constructor (channel: Transport.Channel, port: nat, vchi: bool)
      requires channel.Valid() && Owed(channel.received, port) == []
      ensures Valid() && this.channel == channel && this.port == port && fresh(file) && file.isVchi == vchi && lost == 0
      ensures file.AwaitsAttended()
    {
      this.channel, this.port := channel, port;
      file := new FileContext(vchi);
      dataKeys, vchiKeys, copied, lost := [], [], [], 0;
    }

    // ---------- the client's copies ----------

    /** The first entry of the data list is copied and goes, or moves on to the VCHI list. */
    method TakeFirst(ghost data: seq<Msg>, ghost vchi: seq<Msg>, kept: bool) returns (msg: Msg)
      requires channel.Valid() && Linked(data, vchi) && data != []
      modifies this`dataKeys, this`vchiKeys, this`copied, channel`dataMsgs, channel`vchiMsgs, channel`refCount,
               channel`slotInUse, channel`slotQueue, channel`slotQueueRecycle, channel`supply, channel`held
      ensures channel.Valid() && msg == data[0] && copied == old(copied) + [msg]
      ensures Linked(data[1..], vchi + if file.isVchi && kept && IsData(data[0]) then [data[0]] else [])
    {
      hide Transport.Channel.Valid, Matches;
      channel.EntriesBelow();
      MatchesRest(dataKeys, data, channel.dataMsgs.Keys, channel.sent);
      var key := dataKeys[0];
      KeysIn(vchiKeys, vchi, channel.vchiMsgs.Keys, channel.sent);
      ghost var before := channel.dataMsgs.Keys;
      msg := channel.RemovePendingMsg(key, file.isVchi, kept);
      assert channel.dataMsgs.Keys == before - {key};
      dataKeys := dataKeys[1..];
      copied := copied + [msg];
      if file.isVchi && kept && IsData(msg) {
        MatchesNext(vchiKeys, vchi, old(channel.vchiMsgs.Keys), channel.sent, key, msg);
        vchiKeys := vchiKeys + [key];
        assert channel.vchiMsgs.Keys == old(channel.vchiMsgs.Keys) + {key};
      } else {
        assert vchi + [] == vchi;
      }
    }

    /** The first entry of the VCHI list is copied and goes. */
    method DequeueFirst(ghost data: seq<Msg>, ghost vchi: seq<Msg>) returns (msg: Msg)
      requires channel.Valid() && Linked(data, vchi) && vchi != []
      modifies this`vchiKeys, channel`vchiMsgs, channel`refCount, channel`slotInUse, channel`slotQueue,
               channel`slotQueueRecycle, channel`supply, channel`held
      ensures channel.Valid() && msg == vchi[0] && Linked(data, vchi[1..])
    {
      hide Transport.Channel.Valid, Matches;
      MatchesRest(vchiKeys, vchi, channel.vchiMsgs.Keys, channel.sent);
      var key := vchiKeys[0];
      msg := channel.RemovePendingVchiMsg(key);
      assert channel.vchiMsgs.Keys == old(channel.vchiMsgs.Keys) - {key};
      vchiKeys := vchiKeys[1..];
    }

    /** `n` messages are taken for an await request and `k` dequeued; what the clients are given is copied out of the
        slots, and is what the lists hold. */
    method CopyOut(ghost data: seq<Msg>, ghost vchi: seq<Msg>, refused: set<nat>, n: nat, k: nat) returns (dequeued: seq<Msg>)
      requires channel.Valid() && Linked(data, vchi) && n <= |data|
      requires k <= |vchi + Kept(file.isVchi, data[..n], refused)|
      modifies this`dataKeys, this`vchiKeys, this`copied, channel`dataMsgs, channel`vchiMsgs, channel`refCount,
               channel`slotInUse, channel`slotQueue, channel`slotQueueRecycle, channel`supply, channel`held
      ensures channel.Valid() && Linked(data[n..], (vchi + Kept(file.isVchi, data[..n], refused))[k..])
      ensures copied == old(copied) + data[..n] && dequeued == (vchi + Kept(file.isVchi, data[..n], refused))[..k]
    {
      hide Transport.Channel.Valid, Service.Linked, Kept, IsData;
      ghost var all := vchi + Kept(file.isVchi, data[..n], refused);
      KeptNone(file.isVchi, data, vchi, refused);
      for i := 0 to n
        invariant channel.Valid() && Linked(data[i..], vchi + Kept(file.isVchi, data[..i], refused))
        invariant copied == old(copied) + data[..i]
      {
        KeptNext(file.isVchi, data, vchi, refused, i);
        var msg := TakeFirst(data[i..], vchi + Kept(file.isVchi, data[..i], refused), i !in refused);
      }
      dequeued := [];
      assert all[0..] == all;
      for j := 0 to k
        invariant channel.Valid() && Linked(data[n..], all[j..]) && dequeued == all[..j]
        invariant copied == old(copied) + data[..n]
      {
        assert all[j..][1..] == all[j + 1..];
        var msg := DequeueFirst(data[n..], all[j..]);
        dequeued := dequeued + [msg];
      }
    }

    lemma BulkQueues()
      requires file.Valid()
      ensures |file.bulkQueue| == MSG_BULK_MAX
    {
    }

    lemma KeepLinks(dataWas: set<nat>, vchiWas: set<nat>, sentWas: seq<Record>, data: seq<Msg>, vchi: seq<Msg>)
      requires Matches(dataKeys, data, dataWas, sentWas) && Matches(vchiKeys, vchi, vchiWas, sentWas)
      requires sentWas <= channel.sent && dataWas <= channel.dataMsgs.Keys && vchiWas <= channel.vchiMsgs.Keys
      ensures Linked(data, vchi)
    {
    }

    // ---------- the receive thread ----------

    /** A message for this port has been shown to its handler. */
    method Deliver(key: nat, m: Msg, allocOk: bool, refused: set<nat>, ghost received: seq<Msg>)
        returns (completions: seq<Completion>, n: nat, k: nat, tooSmall: bool)
      requires channel.Valid() && file.Valid() && copied == file.taken
      requires Linked(file.pendingDataMsgList, file.pendingVchiMsgList) && Arrived(file.arrived, received, port, lost)
      requires |file.bulkQueue| == MSG_BULK_MAX && channel.received == received + [m] && key !in dataKeys
      requires Delivered(m) && m.id % PORTS == port
      requires key < |channel.sent| && channel.sent[key].Message? && Msg(channel.sent[key].id, channel.sent[key].payload) == m
      requires key in channel.dataMsgs.Keys <==> Joining(m, allocOk, file.bulkQueue)
      modifies this`dataKeys, this`vchiKeys, this`copied, this`lost, channel`dataMsgs, channel`vchiMsgs, channel`refCount,
               channel`slotInUse, channel`slotQueue, channel`slotQueueRecycle, channel`supply, channel`held, file
      ensures Valid() && (lost == old(lost) || (!allocOk && lost == old(lost) + 1))
      ensures file.returned == old(file.returned) + completions && (old(file.AwaitsAttended()) ==> file.AwaitsAttended())
      ensures if Joining(m, allocOk, old(file.bulkQueue))
              then Progress(file.isVchi, Joined(old(file.Snapshot()), m), file.Snapshot(), refused, n, completions, k, tooSmall)
              else file.Snapshot() == old(file.Snapshot()) && completions == []
    {
      hide Transport.Channel.Valid, FileContext.Valid, Matches, Arrived, Delivered, Moved, Progress, Attended, CompletedIn,
           Joining, IsDone;
      ghost var data, vchi, queues := file.pendingDataMsgList, file.pendingVchiMsgList, file.bulkQueue;
      ghost var joins := Joining(m, allocOk, queues);
      DataJoins(m, allocOk, queues);
      ArrivedNext(file.arrived, received, port, lost, m, joins);
      if For(m, port) && !allocOk {
        lost := lost + 1;
      }
      if key in channel.dataMsgs {
        MatchesNext(dataKeys, data, channel.dataMsgs.Keys, channel.sent, key, m);
        dataKeys := dataKeys + [key];
        assert channel.dataMsgs.Keys + {key} == channel.dataMsgs.Keys;
      }
      completions, n, k, tooSmall := file.MessageArrives(m, allocOk, refused);
      assert data + [] == data && old(file.arrived) + [] == old(file.arrived);
      if joins {
        ProgressMoves(file.isVchi, Joined(old(file.Snapshot()), m), file.Snapshot(), refused, n, completions, k, tooSmall);
      } else {
        NothingMoves(file.isVchi, data, vchi, refused);
      }
      data := data + if joins then [m] else [];
      MovedParts(file.isVchi, data, vchi, refused, n, k, file.pendingDataMsgList, file.pendingVchiMsgList);
      var dequeued := CopyOut(data, vchi, refused, n, k);
    }

    /** The next message of the stream enters its handler.  If it is for this port and can be put into the data list, it
        joins the list and the oldest await request is served; otherwise nothing of this port changes.  `others` says for
        which messages of other ports there is no list entry. */
    method Receive(openPorts: set<nat>, allocOk: bool, others: nat -> bool, refused: set<nat>)
        returns (completions: seq<Completion>, n: nat, k: nat, tooSmall: bool)
      requires Valid() && channel.entered == channel.parsed && channel.currentRxPos < channel.txPos && port in openPorts
      modifies this, channel, file
      ensures Valid() && channel.entered == channel.parsed + 1 <= |channel.sent| && channel.queued == old(channel.queued)
      ensures lost == old(lost) || (!allocOk && lost == old(lost) + 1)
      ensures |old(file.bulkQueue)| == MSG_BULK_MAX
      ensures var r := channel.sent[channel.parsed];
              if Handled(r, port, allocOk, old(file.bulkQueue))
              then Progress(file.isVchi, Joined(old(file.Snapshot()), Msg(r.id, r.payload)), file.Snapshot(), refused,
                            n, completions, k, tooSmall)
              else file.Snapshot() == old(file.Snapshot()) && completions == []
      ensures file.returned == old(file.returned) + completions && (old(file.AwaitsAttended()) ==> file.AwaitsAttended())
    {
      hide Transport.Channel.Valid, FileContext.Valid, Matches, Arrived, Progress, Attended, Joining, Delivered;
      channel.EntriesBelow();
      BulkQueues();
      completions, n, k, tooSmall := [], 0, 0, false;
      var key, shown, waits := channel.parsed, |channel.received|, file.bulkQueue;
      ghost var received, keys := channel.received, channel.dataMsgs.Keys;
      KeysIn(dataKeys, file.pendingDataMsgList, keys, channel.sent);
      TrackedHere(channel.sent, channel.parsed, openPorts, port, allocOk, waits);
      channel.BeginMessage(openPorts, (id: nat) => if id % PORTS == port then Refused(id, allocOk, waits) else others(id));
      KeepLinks(keys, channel.vchiMsgs.Keys, channel.sent, file.pendingDataMsgList, file.pendingVchiMsgList);
      assert received + [] == received;
      if |channel.received| > shown {
        var m := channel.received[shown];
        assert channel.received == received + [m];
        if m.id % PORTS == port && Delivered(m) {
          completions, n, k, tooSmall := Deliver(key, m, allocOk, refused, received);
        } else {
          NotFor(m, port);
          ArrivedNext(file.arrived, received, port, lost, m, false);
        }
      }
    }

    // ---------- the client's requests ----------

    /** An await request, and the copies made for the oldest one and for the dequeue requests served with it. */
    method Await(msgBufSize: nat, msgBufCount: nat, refused: set<nat>)
        returns (completions: seq<Completion>, dequeued: seq<Msg>, n: nat, k: nat, tooSmall: bool)
      requires Valid()
      modifies this`dataKeys, this`vchiKeys, this`copied, channel`dataMsgs, channel`vchiMsgs, channel`refCount,
               channel`slotInUse, channel`slotQueue, channel`slotQueueRecycle, channel`supply, channel`held, file
      ensures Valid() && file.returned == old(file.returned) + completions
      ensures var before := Asked(old(file.Snapshot()), VchiqRequests.Await(old(file.issued), msgBufSize, msgBufCount));
              && Progress(file.isVchi, before, file.Snapshot(), refused, n, completions, k, tooSmall)
              && dequeued == Dequeueable(file.isVchi, before, refused, n)[..k]
              && copied == old(copied) + before.data[..n]
      ensures old(file.AwaitsAttended()) && msgBufCount > 0 ==> file.AwaitsAttended()
    {
      hide Transport.Channel.Valid, FileContext.Valid, Matches, Arrived, Moved, Progress, RoundStopsShort, CompletedIn, Attended;
      ghost var before := Asked(file.Snapshot(), VchiqRequests.Await(file.issued, msgBufSize, msgBufCount));
      completions, n, k, tooSmall := file.AwaitCompletion(msgBufSize, msgBufCount, refused);
      ProgressMoves(file.isVchi, before, file.Snapshot(), refused, n, completions, k, tooSmall);
      MovedParts(file.isVchi, before.data, before.vchi, refused, n, k, file.pendingDataMsgList, file.pendingVchiMsgList);
      dequeued := CopyOut(before.data, before.vchi, refused, n, k);
    }

    /** A dequeue request; what is dequeued is copied out of the slots. */
    method Dequeue(bufSize: nat, blocking: bool) returns (dequeued: seq<Msg>)
      requires Valid()
      modifies this`dataKeys, this`vchiKeys, this`copied, channel`dataMsgs, channel`vchiMsgs, channel`refCount,
               channel`slotInUse, channel`slotQueue, channel`slotQueueRecycle, channel`supply, channel`held, file
      ensures Valid() && file.dequeued == old(file.dequeued) + dequeued && file.returned == old(file.returned)
      ensures dequeued + file.pendingVchiMsgList == old(file.pendingVchiMsgList)
      ensures file.awaitQueue == old(file.awaitQueue) && file.pendingDataMsgList == old(file.pendingDataMsgList)
    {
      hide Transport.Channel.Valid, FileContext.Valid, Matches, Arrived, StopsShort, Served;
      ghost var data, vchi := file.pendingDataMsgList, file.pendingVchiMsgList;
      var noEntries, k, tooSmall := file.DequeueMessage(bufSize, blocking);
      KeptNone(file.isVchi, data, vchi, {});
      dequeued := CopyOut(data, vchi, {}, 0, k);
      assert copied == old(copied) + [] == old(copied);
    }

    /** Another port's client takes one of its own entries. */
    method OtherClient(client: Transport.Client)
      requires Valid()
      modifies channel`dataMsgs, channel`vchiMsgs, channel`refCount, channel`slotInUse, channel`slotQueue,
               channel`slotQueueRecycle, channel`supply, channel`held
      ensures Valid()
    {
      hide Transport.Channel.Valid, FileContext.Valid, Arrived;
      if client.key !in dataKeys && client.key !in vchiKeys {
        match client {
          case Take(key, isVchi, kept) =>
            if key in channel.dataMsgs {
              var msg := channel.RemovePendingMsg(key, isVchi, kept);
            }
          case Dequeue(key) =>
            if key in channel.vchiMsgs {
              var msg := channel.RemovePendingVchiMsg(key);
            }
        }
      }
    }

    /** Bulk requests and cancellations touch neither list. */
    method BulkOrCancel(op: VchiqPending.Op)
      requires Valid()
      modifies file
      ensures Valid() && (old(file.AwaitsAttended()) && !op.AwaitCancelled? ==> file.AwaitsAttended())
    {
      hide Transport.Channel.Valid, FileContext.Valid, Matches, Arrived, Attended;
      BulkQueues();
      match op {
        case BulkIoctl(rx, r, addOk, forwardOk, transfer) =>
          var ok := file.ProcessBulkTransfer(if rx then MSG_BULK_RX else MSG_BULK_TX, r, addOk, forwardOk, transfer);
        case BulkCancelled(rx, i) =>
          var d := if rx then MSG_BULK_RX else MSG_BULK_TX;
          if i < |file.bulkQueue[d]| {
            file.CancelBulk(d, i);
          }
        case AwaitCancelled(i) =>
          if i < |file.awaitQueue| {
            file.CancelAwait(i);
          }
        case DequeueCancelled(i) =>
          if i < |file.dequeueQueue| {
            file.CancelDequeue(i);
          }
        case _ =>
      }
    }

    // ---------- from end to end ----------

    /** What the client of the port has been given is a copy, byte for byte and in order, of what the peer has queued for
        it: the data messages returned are those copied out of slots; with those still in the list they are the ones
        received for the port, unless an allocation failed; those are a prefix of what was queued for it, and all of it
        once everything is parsed. */
    lemma EndToEnd()
      requires Valid()
      ensures MessagesOf(file.returned) == Datas(copied)
      ensures lost == 0 ==> MessagesOf(file.returned) + Datas(file.pendingDataMsgList) == Owed(channel.received, port)
      ensures |MessagesOf(file.returned) + Datas(file.pendingDataMsgList)| + lost == |Owed(channel.received, port)|
      ensures lost == 0 && file.isVchi && file.untracked == 0 ==>
                file.dequeued + file.pendingVchiMsgList + Datas(file.pendingDataMsgList) == Owed(channel.received, port)
      ensures Owed(channel.received, port) <= Owed(channel.queued, port)
      ensures channel.parsed == |channel.sent| ==> Owed(channel.received, port) == Owed(channel.queued, port)
    {
      file.DeliveryOrder();
      TakenReturned();
      channel.ReceivedIsPrefix();
      OwedPrefix(channel.received, channel.queued, port);
      hide Transport.Channel.Valid, FileContext.Valid;
    }

    lemma TakenReturned()
      requires file.Valid()
      ensures MessagesOf(file.returned) == Datas(file.taken)
    {
    }

    /** Any interleaving of the peer's writer, the receive thread and the clients of all ports. */
    method Run(script: seq<Op>)
      requires Valid() && forall i | 0 <= i < |script| :: Acceptable(script[i])
      modifies this, channel, file
      ensures Valid() && (lost == 0 ==> MessagesOf(file.returned) <= Owed(channel.queued, port))
      ensures old(channel.queued) <= channel.queued && old(lost) <= lost
      ensures old(file.AwaitsAttended()) && (forall i | 0 <= i < |script| :: NoneGivesUp(script[i])) ==> file.AwaitsAttended()
    {
      hide Transport.Channel.Valid, FileContext.Valid, Matches, Arrived, Attended, NoneGivesUp;
      for i := 0 to |script|
        invariant Valid() && old(channel.queued) <= channel.queued && old(lost) <= lost
        invariant old(file.AwaitsAttended()) && (forall j | 0 <= j < i :: NoneGivesUp(script[j])) ==> file.AwaitsAttended()
      {
        assert Acceptable(script[i]);
        Step(script[i]);
      }
      EndToEnd();
    }

    method Step(op: Op)
      requires Valid() && Acceptable(op)
      modifies this, channel, file
      ensures Valid() && old(channel.queued) <= channel.queued && old(lost) <= lost
      ensures old(file.AwaitsAttended()) && NoneGivesUp(op) ==> file.AwaitsAttended()
    {
      hide Transport.Channel.Valid, FileContext.Valid, Matches, Arrived, Attended, Progress;
      match op {
        case Queue(id, payload, stopped) =>
          QueueMessage(id, payload, stopped);
        case RecycleTx => channel.ProcessRecycleTxSlot();
        case Begin(openPorts, allocOk, others, refused) =>
          if channel.entered == channel.parsed && channel.currentRxPos < channel.txPos {
            var _, _, _, _ := Receive(openPorts + {port}, allocOk, (id: nat) => others, refused);
          }
        case End =>
          if channel.entered == channel.parsed + 1 {
            channel.EndMessage();
          }
        case Awaits(msgBufSize, msgBufCount, refused) =>
          var _, _, _, _, _ := Await(msgBufSize, msgBufCount, refused);
        case Dequeues(bufSize, blocking) =>
          var dequeued := Dequeue(bufSize, blocking);
        case Client(other) => BulkOrCancel(other);
        case Other(client) => OtherClient(client);
      }
    }

    method QueueMessage(id: nat, payload: seq<byte>, stopped: bool)
      requires Valid() && Acceptable(Queue(id, payload, stopped))
      modifies channel
      ensures Valid() && old(channel.queued) <= channel.queued
    {
      hide Transport.Channel.Valid, FileContext.Valid, Matches, Arrived;
      ghost var sent := channel.sent;
      var status := channel.QueueMessageAsync(id, payload, stopped);
      KeepLinks(channel.dataMsgs.Keys, channel.vchiMsgs.Keys, sent, file.pendingDataMsgList, file.pendingVchiMsgList);
    }
  }

  datatype Op =
    | Queue(id: nat, payload: seq<byte>, stopped: bool)
    | RecycleTx
    | Begin(openPorts: set<nat>, allocOk: bool, others: bool, refused: set<nat>)
    | End
    | Awaits(msgBufSize: nat, msgBufCount: nat, refused: set<nat>)
    | Dequeues(bufSize: nat, blocking: bool)
    | Client(other: VchiqPending.Op)
    | Other(client: Transport.Client)

  predicate Acceptable(op: Op) {
    op.Queue? ==> op.id < U32 && MsgType(op.id) != MSG_PADDING && AlignUp(HEADER_SIZE + |op.payload|) <= SLOT_SIZE
  }

  /** Every await request asks for at least one message, and none is cancelled. */
  predicate NoneGivesUp(op: Op) {
    (op.Awaits? ==> op.msgBufCount > 0) && (op.Client? ==> !op.other.AwaitCancelled?)
  }

  /** The record is a message for this port that its handler puts into the data list. */
  predicate Handled(r: Record, port: nat, allocOk: bool, queues: seq<seq<Request>>)
    requires |queues| == MSG_BULK_MAX
  {
    r.Message? && r.id % PORTS == port && Delivered(Msg(r.id, r.payload)) && Joining(Msg(r.id, r.payload), allocOk, queues)
  }

  lemma NotFor(m: Msg, port: nat)
    ensures !(m.id % PORTS == port && Delivered(m)) ==> !For(m, port)
  {
  }

  lemma DataJoins(m: Msg, allocOk: bool, queues: seq<seq<Request>>)
    requires |queues| == MSG_BULK_MAX
    ensures IsData(m) ==> (Joining(m, allocOk, queues) <==> allocOk)
    ensures Delivered(m) && IsData(m) ==> m.payload != []
  {
  }

  /** What the transport tracks of the messages for this port. */
  lemma TrackedHere(sent: seq<Record>, i: nat, openPorts: set<nat>, port: nat, allocOk: bool, queues: seq<seq<Request>>)
    requires |queues| == MSG_BULK_MAX && port in openPorts
    ensures i < |sent| && sent[i].Message? && sent[i].id % PORTS == port ==>
              var m := Msg(sent[i].id, sent[i].payload);
              Transport.Channel.Tracked(IdOf(sent[i]), SizeOf(sent[i]), openPorts, Refused(m.id, allocOk, queues))
              <==> Delivered(m) && Joining(m, allocOk, queues)
  {
  }

  lemma MovedParts(isVchi: bool, data: seq<Msg>, vchi: seq<Msg>, refused: set<nat>, n: nat, k: nat,
                   dataNow: seq<Msg>, vchiNow: seq<Msg>)
    requires Moved(isVchi, data, vchi, refused, n, k, dataNow, vchiNow)
    ensures n <= |data| && dataNow == data[n..]
    ensures k <= |vchi + Kept(isVchi, data[..n], refused)| && vchiNow == (vchi + Kept(isVchi, data[..n], refused))[k..]
  {
  }

  /** The handlers that pass a message on: data with content, and bulk completions. */
  predicate Delivered(m: Msg) {
    (IsData(m) && m.payload != []) || IsDone(m, MSG_BULK_TX) || IsDone(m, MSG_BULK_RX)
  }

  /** No entry can be had for a message with this id. */
  predicate Refused(id: nat, allocOk: bool, queues: seq<seq<Request>>)
    requires |queues| == MSG_BULK_MAX
  {
    !Joining(Msg(id, []), allocOk, queues)
  }

  lemma KeysIn(keys: seq<nat>, msgs: seq<Msg>, entries: set<nat>, sent: seq<Record>)
    requires Matches(keys, msgs, entries, sent)
    ensures forall k | k in keys :: k in entries
  {
  }

  lemma KeptNone(isVchi: bool, data: seq<Msg>, vchi: seq<Msg>, refused: set<nat>)
    ensures data[0..] == data && data[..0] == [] && vchi + Kept(isVchi, data[..0], refused) == vchi
  {
  }

  lemma KeptNext(isVchi: bool, data: seq<Msg>, vchi: seq<Msg>, refused: set<nat>, i: nat)
    requires i < |data|
    ensures data[i..] != [] && data[i..][0] == data[i] && data[i..][1..] == data[i + 1..] && data[..i] + [data[i]] == data[..i + 1]
    ensures vchi + Kept(isVchi, data[..i + 1], refused)
         == vchi + Kept(isVchi, data[..i], refused) + if isVchi && i !in refused && IsData(data[i]) then [data[i]] else []
  {
    assert data[..i + 1][..i] == data[..i];
  }
}
