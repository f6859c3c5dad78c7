/** The tables and lists of a TCP server, changed in place; `model` is the server's state on values. */
module Servers {
  import opened Bytes
  import opened Collections
  import opened Messages
  import opened Lifetime

  /** The numbers below `n`. */
  function Numbers(n: nat): seq<nat> {
    if n == 0 then [] else Numbers(n - 1) + [n - 1]
  }

  class TcpServer {
    const handlingCount: array<int>
    const closeRecv: array<bool>
    const packetSeqRecv: array<nat>
    const packetSeqSend: array<nat>
    const idleList: MessageList
    const handleList: MessageList
    const sendList: MessageList
    /** The pooled messages, by number. */
    ghost var pool: seq<Message>
    ghost var model: Server

    /** The list holds the messages with these numbers. */
    ghost predicate Holds(items: seq<Message>, ids: seq<nat>)
      reads this`pool
    {
      |items| == |ids| && forall i :: 0 <= i < |ids| ==> ids[i] < |pool| && items[i] == pool[ids[i]]
    }

    /** The message is the pooled one, with its socket and its bytes. */
    ghost predicate Is(m: Message, msg: Msg)
      reads this`pool, (set m | m in pool)`fd, (set m | m in pool)`data
    {
      msg.id < |pool| && m == pool[msg.id] && pool[msg.id].fd == msg.fd && pool[msg.id].data == msg.data
    }

    /** The list holds these messages, each marked with its socket. */
    ghost predicate Queues(items: seq<Message>, msgs: seq<Msg>)
      reads this`pool, (set m | m in pool)`fd, (set m | m in pool)`data
    {
      |items| == |msgs| && forall i :: 0 <= i < |msgs| ==> Is(items[i], msgs[i])
    }

    ghost predicate TablesOk()
      reads this`model, handlingCount, closeRecv
    {
      && handlingCount.Length == closeRecv.Length == packetSeqRecv.Length == packetSeqSend.Length
      && forall fd :: fd in model.open ==>
           && fd < handlingCount.Length && fd in model.count && fd in model.closeRecv
           && model.count[fd] == handlingCount[fd] && model.closeRecv[fd] == closeRecv[fd]
    }

    ghost predicate ListsOk()
      reads this`model, this`pool, idleList, handleList, sendList, (set m | m in pool)`fd, (set m | m in pool)`data
    {
      && idleList != handleList && idleList != sendList && handleList != sendList
      && idleList.Valid() && handleList.Valid() && sendList.Valid()
      && Holds(idleList.items, model.idle)
      && Queues(handleList.items, model.handleQ) && Queues(sendList.items, model.sendQ)
      && NoRepeats(pool)
    }

    ghost predicate Valid()
      reads this`model, this`pool, handlingCount, closeRecv, idleList, handleList, sendList, (set m | m in pool)`fd, (set m | m in pool)`data
    {
      TablesOk() && ListsOk()
    }

    /** Sets up the tables for `size` sockets, a pool of messages, the event loop, a sender and handler threads. */
    constructor (size: nat, messages: nat, handlers: nat)
      ensures Valid() && handlingCount.Length == size && |pool| == messages
      ensures model.open == {} && model.watched == {} && model.handleQ == [] && model.sendQ == []
      ensures model.idle == Numbers(messages) && model.threads == seq(handlers + 2, _ => Free)
      ensures fresh(handlingCount) && fresh(closeRecv) && fresh(packetSeqRecv) && fresh(packetSeqSend)
      ensures fresh(idleList) && fresh(handleList) && fresh(sendList) && fresh(set m | m in pool)
    {
      handlingCount := new int[size];
      closeRecv := new bool[size];
      packetSeqRecv := new nat[size];
      packetSeqSend := new nat[size];
      idleList := new MessageList();
      handleList := new MessageList();
      sendList := new MessageList();
      pool := [];
      model := Server({}, {}, map[], map[], [], [], [], seq(handlers + 2, _ => Free));
      new;
      AddMessages(messages);
    }

    /** Fills an empty pool. */
    method AddMessages(messages: nat)
      requires Valid() && pool == [] && model.idle == []
      modifies this`pool, this`model, idleList
      ensures Valid() && |pool| == messages && fresh(set m | m in pool)
      ensures model == old(model).(idle := Numbers(messages))
    {
      hide TablesOk, ListsOk;
      for n := 0 to messages
        invariant Valid() && |pool| == n && fresh(set m | m in pool)
        invariant model == old(model).(idle := Numbers(n))
      {
        AddMessage();
      }
    }

    /** Adds a message to the pool. */
    method AddMessage()
      requires Valid()
      modifies this`pool, this`model, idleList
      ensures Valid() && |pool| == |old(pool)| + 1 && model == old(model).(idle := old(model).idle + [|old(pool)|])
      ensures pool == old(pool) + [pool[|old(pool)|]] && fresh(pool[|old(pool)|])
    {
      var m := new Message();
      pool := pool + [m];
      idleList.PushBack(m);
      model := model.(idle := model.idle + [|pool| - 1]);
    }

    /** A new socket starts with empty tables. */
    method ResetSocket(fd: nat, ghost watch: bool)
      requires Valid() && fd < handlingCount.Length && MAIN < |model.threads|
      modifies this`model, handlingCount, closeRecv, packetSeqRecv, packetSeqSend
      ensures Valid() && model == Accepted(old(model), fd, watch)
      ensures packetSeqRecv[..] == old(packetSeqRecv[..])[fd := 0] && packetSeqSend[..] == old(packetSeqSend[..])[fd := 0]
    {
      closeRecv[fd] := false;
      handlingCount[fd] := 0;
      packetSeqRecv[fd] := 0;
      packetSeqSend[fd] := 0;
      model := Accepted(model, fd, watch);
    }

    /** Counts a received message and numbers it. */
    method Admit(m: Message)
      requires Valid() && Enabled(model, Step.Admit(m.data)) && model.threads[MAIN].fd == m.fd && m.fd in model.open
      modifies this`model, handlingCount, packetSeqRecv, m`seqNo
      ensures Valid() && model == Apply(old(model), Step.Admit(m.data))
      ensures m.seqNo == old(packetSeqRecv[m.fd]) && packetSeqRecv[..] == old(packetSeqRecv[..])[m.fd := m.seqNo + 1]
    {
      var fd := m.fd;
      handlingCount[fd] := handlingCount[fd] + 1;
      m.seqNo := packetSeqRecv[fd];
      packetSeqRecv[fd] := packetSeqRecv[fd] + 1;
      model := Apply(model, Step.Admit(m.data));
    }

    method Enqueue(m: Message)
      requires Valid() && Enabled(model, Step.Enqueue)
      requires var main := model.threads[MAIN]; Is(m, Msg(main.id, main.fd, main.data))
      modifies this`model, handleList
      ensures Valid() && model == Apply(old(model), Step.Enqueue)
    {
      handleList.PushBack(m);
      model := Apply(model, Step.Enqueue);
    }

    /** A handler thread takes the next message; its socket is the one the event loop received it from. */
    method TakeToHandle(ghost t: nat) returns (m: Message)
      requires Valid() && Enabled(model, Step.TakeToHandle(t))
      modifies this`model, handleList
      ensures Valid() && model == Apply(old(model), Step.TakeToHandle(t))
      ensures var thread := model.threads[t]; Is(m, Msg(thread.id, thread.fd, thread.data))
    {
      var front := handleList.PopFront();
      m := front;
      model := Apply(model, Step.TakeToHandle(t));
    }

    /** The sender takes the next message to be sent. */
    method TakeToSend() returns (m: Message)
      requires Valid() && Enabled(model, Step.TakeToSend)
      modifies this`model, sendList
      ensures Valid() && model == Apply(old(model), Step.TakeToSend)
      ensures var thread := model.threads[SENDER]; Is(m, Msg(thread.id, thread.fd, thread.data))
      ensures m == old(sendList.items)[0] && sendList.items == old(sendList.items)[1..]
    {
      var front := sendList.PopFront();
      m := front;
      model := Apply(model, Step.TakeToSend);
    }

    /** No queued message has this number. */
    ghost predicate NotQueued(id: nat, msgs: seq<Msg>) {
      forall k :: 0 <= k < |msgs| ==> msgs[k].id != id
    }

    lemma {:induction false} QueuedSomewhere(q: seq<Msg>, k: nat)
      requires k < |q|
      ensures OfQueue(q, Held, q[k].id) > 0
    {
      if k > 0 {
        QueuedSomewhere(q[1..], k - 1);
      }
    }

    /** A message in the pool is on no queue, if every message is in one place. */
    lemma IdleIsNotQueued(id: nat)
      requires id in model.idle && Places(model, id) <= 1
      ensures NotQueued(id, model.handleQ) && NotQueued(id, model.sendQ)
    {
      forall k | 0 <= k < |model.handleQ|
        ensures model.handleQ[k].id != id
      {
        QueuedSomewhere(model.handleQ, k);
      }
      forall k | 0 <= k < |model.sendQ|
        ensures model.sendQ[k].id != id
      {
        QueuedSomewhere(model.sendQ, k);
      }
    }

    /** Counts, numbers and queues a message for sending. */
    method SendMessageByQueue(m: Message, fd: nat)
      requires TablesOk() && sendList.Valid() && fd in model.open && m.fd == fd
      modifies this`model, handlingCount, packetSeqSend, sendList, m`seqNo
      ensures TablesOk() && sendList.Valid() && sendList.items == old(sendList.items) + [m]
      ensures model == old(model).(count := old(model).count[fd := old(model).count[fd] + 1])
      ensures m.seqNo == old(packetSeqSend[fd]) && packetSeqSend[..] == old(packetSeqSend[..])[fd := m.seqNo + 1]
    {
      handlingCount[fd] := handlingCount[fd] + 1;
      m.seqNo := packetSeqSend[fd];
      packetSeqSend[fd] := packetSeqSend[fd] + 1;
      sendList.PushBack(m);
      model := model.(count := model.count[fd := model.count[fd] + 1]);
    }

    /** Nothing of the message has changed. */
    twostate predicate Untouched(m: Message)
      reads m
    {
      m.fd == old(m.fd) && m.seqNo == old(m.seqNo) && m.data == old(m.data)
    }

    /** Takes a message from the pool and marks it with a socket. */
    method TakeIdle(fd: nat, data: seq<byte>) returns (m: Message?)
      requires Valid() && (model.idle != [] ==> Places(model, model.idle[0]) <= 1)
      modifies idleList, pool
      ensures (m != null) == (model.idle != []) && TablesOk() && idleList.Valid() && sendList.Valid() && handleList.Valid()
      ensures m != null ==>
        && model.idle[0] < |pool| && m == pool[model.idle[0]] && m.fd == fd && m.data == data
        && Holds(idleList.items, model.idle[1..])
        && Queues(handleList.items, model.handleQ) && Queues(sendList.items, model.sendQ)
      ensures m == null ==> ListsOk()
      ensures forall k :: 0 <= k < |pool| && pool[k] != m ==> Untouched(pool[k])
    {
      hide TablesOk;
      m := idleList.PopFront();
      if m != null {
        IdleIsNotQueued(model.idle[0]);
        m.fd, m.data := fd, data;
      }
    }

    /** What the next message of the pool holds from before. */
    ghost function FrontHeld(): seq<byte>
      reads this`model, this`pool, (set m | m in pool)`data
    {
      if model.idle != [] && model.idle[0] < |pool| then pool[model.idle[0]].data else []
    }

    lemma HeldInFront()
      requires Valid()
      ensures FrontHeld() == if idleList.items != [] then idleList.items[0].data else []
    {
    }

    /** The pooled message was put at the end of the send queue, or none was; no other message changed. */
    twostate predicate Appended(new m: Message?)
      reads this`pool, sendList, pool
    {
      && pool == old(pool)
      && sendList.items == (if m == null then old(sendList.items) else old(sendList.items) + [m])
      && (m != null ==> m in pool)
      && forall k :: 0 <= k < |pool| && pool[k] != m ==> Untouched(pool[k])
    }

    twostate lemma NothingAppended()
      requires pool == old(pool) && sendList.items == old(sendList.items) && forall k :: 0 <= k < |pool| ==> Untouched(pool[k])
      ensures Appended(null)
    {
    }

    /** Fills a pooled message for a socket and queues it for sending; fails if the pool is empty. */
    method QueueForSending(fd: nat, data: seq<byte>) returns (queued: bool, ghost m: Message?)
      requires Valid() && fd in model.open && (model.idle != [] ==> Places(model, model.idle[0]) <= 1)
      modifies this`model, handlingCount, packetSeqSend, idleList, sendList, pool
      ensures Valid() && queued == (m != null) == (old(model).idle != []) && Appended(m)
      ensures model == if queued then QueuedToSend(old(model), fd, data) else old(model)
      ensures queued ==> old(model).idle[0] < |pool| && m == pool[old(model).idle[0]] && m.fd == fd && m.data == data && m.seqNo == old(packetSeqSend[fd])
    {
      hide Places, TablesOk, ListsOk;
      DifferentLists();
      var front := TakeIdle(fd, data);
      queued, m := front != null, front;
      if front != null {
        SendFilled(front, fd);
      }
    }

    lemma DifferentLists()
      requires ListsOk()
      ensures idleList != handleList && idleList != sendList && handleList != sendList && NoRepeats(pool)
    {
    }

    /** Queues the message that was taken from the front of the pool and filled. */
    method SendFilled(m: Message, fd: nat)
      requires TablesOk() && idleList.Valid() && handleList.Valid() && sendList.Valid()
      requires idleList != handleList && idleList != sendList && handleList != sendList && NoRepeats(pool)
      requires fd in model.open && model.idle != [] && model.idle[0] < |pool| && m == pool[model.idle[0]] && m.fd == fd
      requires Holds(idleList.items, model.idle[1..])
      requires Queues(handleList.items, model.handleQ) && Queues(sendList.items, model.sendQ)
      modifies this`model, handlingCount, packetSeqSend, sendList, m`seqNo
      ensures Valid() && model == QueuedToSend(old(model), fd, m.data)
      ensures sendList.items == old(sendList.items) + [m] && m.seqNo == old(packetSeqSend[fd])
    {
      TableEntry(fd);
      SendMessageByQueue(m, fd);
      model := model.(idle := model.idle[1..], sendQ := model.sendQ + [Msg(model.idle[0], fd, m.data)]);
    }

    lemma TableEntry(fd: nat)
      requires TablesOk() && fd in model.open
      ensures fd in model.count && fd < packetSeqSend.Length
    {
    }

    /** A thread is done with a message of the socket; says whether the socket is to be closed. */
    method CloseSocketIfNeed(fd: nat, ghost t: nat) returns (close: bool)
      requires Valid() && DoneWithMessage(model, t) && model.threads[t].fd == fd && fd in model.open
      modifies this`model, handlingCount
      ensures Valid() && model == Released(old(model), t) && close == model.threads[t].Closing?
    {
      close := false;
      handlingCount[fd] := handlingCount[fd] - 1;
      if handlingCount[fd] == 0 {
        if closeRecv[fd] {
          close := true;
        }
      }
      model := Released(model, t);
    }

    /** The event loop's decision about a disconnected socket: close it now, or have its last message do so. */
    method DecideClose(fd: nat) returns (close: bool)
      requires Valid() && MAIN < |model.threads| && model.threads[MAIN].Deciding? && model.threads[MAIN].fd == fd && fd in model.open
      modifies this`model, closeRecv
      ensures Valid() && model == Decided(old(model)) && close == model.threads[MAIN].Closing?
    {
      close := false;
      if handlingCount[fd] == 0 {
        close := true;
      } else {
        closeRecv[fd] := true;
      }
      model := Decided(model);
    }
  }
}
