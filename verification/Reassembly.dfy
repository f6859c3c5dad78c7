/**
 * What the receiver of the channel can tell from the headers alone: the commands with a request's
 * number and its client's socket carry the bodies that were sent under them.
 */
module Reassembly {
  import opened Bytes
  import opened Collections
  import opened Command
  import opened Agent
  import opened Receiver
  import opened Channel

  /** What the header says: part of an answer to this request of this client. */
  predicate Answers(c: Cmd, seqNo: int32, fd: int32) {
    c.header.kind == COMMAND_PROXY && c.header.seqNo == seqNo && c.header.fd == fd
  }

  /** Those of the commands that answer the request. */
  function AnswersTo(cmds: seq<Cmd>, seqNo: int32, fd: int32): seq<Cmd> {
    if cmds == [] then [] else
    var last := |cmds| - 1;
    AnswersTo(cmds[..last], seqNo, fd) + if Answers(cmds[last], seqNo, fd) then [cmds[last]] else []
  }

  /** The call sends a part of the answer. */
  predicate IsPart(call: Call, seqNo: int32, fd: int32) {
    call.SendBody? && call.seqNo == seqNo && call.fd == fd
  }

  /** All that is sent to answer the request, in the order of the calls. */
  function AnswerOf(calls: seq<Call>, seqNo: int32, fd: int32): seq<byte> {
    if calls == [] then [] else
    var last := |calls| - 1;
    AnswerOf(calls[..last], seqNo, fd) + if IsPart(calls[last], seqNo, fd) then calls[last].body else []
  }

  function PartsOf(calls: seq<Call>, seqNo: int32, fd: int32): seq<Cmd> {
    if calls == [] then [] else
    var last := |calls| - 1;
    PartsOf(calls[..last], seqNo, fd) + if IsPart(calls[last], seqNo, fd) then Commands(calls[last]) else []
  }

  /** A call for the request starts only when those before it are finished, as one thread makes them. */
  ghost predicate InTurn(s: Sys, seqNo: int32, fd: int32) {
    |s.progress| == |s.calls| &&
    forall j, k :: 0 <= j < k < |s.calls| && IsPart(s.calls[j], seqNo, fd) && IsPart(s.calls[k], seqNo, fd) && s.progress[k] > 0
      ==> s.progress[j] == |Commands(s.calls[j])|
  }

  lemma {:induction false} PartsCarryAnswer(calls: seq<Call>, seqNo: int32, fd: int32)
    ensures Params(PartsOf(calls, seqNo, fd)) == AnswerOf(calls, seqNo, fd)
    decreases |calls|
  {
    hide Params, Fragments;
    if calls == [] {
      NoParams();
    } else {
      var last := |calls| - 1;
      PartsCarryAnswer(calls[..last], seqNo, fd);
      if IsPart(calls[last], seqNo, fd) {
        FragmentsCarryBody(seqNo, fd, calls[last].body);
        ParamsAppend(PartsOf(calls[..last], seqNo, fd), Commands(calls[last]));
      } else {
        Regroup([], [], PartsOf(calls[..last], seqNo, fd));
        Regroup([], [], AnswerOf(calls[..last], seqNo, fd));
      }
    }
  }

  lemma NoParams()
    ensures Params([]) == []
  {
  }

  /** The header of a command tells which answer its call belongs to. */
  lemma CommandTells(call: Call, i: nat, seqNo: int32, fd: int32)
    requires i < |Commands(call)|
    ensures Answers(Commands(call)[i], seqNo, fd) <==> IsPart(call, seqNo, fd)
  {
    if call.SendBody? {
      FragmentsShape(call.seqNo, call.fd, call.body);
      assert IsFragment(Commands(call)[i], call.seqNo, call.fd, i == |Commands(call)| - 1);
    }
  }

  /** What has been written of the first `n` calls for the request. */
  function WrittenOf(s: Sys, n: nat, seqNo: int32, fd: int32): seq<Cmd>
    requires n <= |s.calls| == |s.progress|
  {
    if n == 0 then [] else
    WrittenOf(s, n - 1, seqNo, fd) +
      if IsPart(s.calls[n - 1], seqNo, fd) && s.progress[n - 1] <= |Commands(s.calls[n - 1])| then Commands(s.calls[n - 1])[..s.progress[n - 1]] else []
  }

  /** A write adds its command at the end, as the later calls have written nothing. */
  lemma {:induction false} WriteAdds(s: Sys, j: nat, n: nat, seqNo: int32, fd: int32)
    requires Enabled(s, Write(j)) && n <= |s.calls| && InTurn(s, seqNo, fd)
    ensures var s', c := Apply(s, Write(j)), Commands(s.calls[j])[s.progress[j]];
      WrittenOf(s', n, seqNo, fd) == WrittenOf(s, n, seqNo, fd) + if j < n && IsPart(s.calls[j], seqNo, fd) then [c] else []
    decreases n
  {
    hide Commands;
    var s', c := Apply(s, Write(j)), Commands(s.calls[j])[s.progress[j]];
    if n > 0 {
      WriteAdds(s, j, n - 1, seqNo, fd);
      var before := WrittenOf(s, n - 1, seqNo, fd);
      if n - 1 == j {
        NextOf(Commands(s.calls[j]), s.progress[j]);
        Regroup(before, Commands(s.calls[j])[..s.progress[j]], [c]);
        Regroup([], [], before);
      } else if IsPart(s.calls[n - 1], seqNo, fd) && j < n && IsPart(s.calls[j], seqNo, fd) {
        assert s.progress[n - 1] == 0;
        NothingOf(Commands(s.calls[n - 1]));
        Regroup([], [], before);
        Regroup([], [], before + [c]);
      } else {
        Regroup([], [], before);
      }
    }
  }

  lemma NextOf<T>(s: seq<T>, n: nat)
    requires n < |s|
    ensures s[..n + 1] == s[..n] + [s[n]]
  {
  }

  lemma NothingOf<T>(s: seq<T>)
    ensures s[..0] == []
  {
  }

  lemma {:induction false} NothingWritten(s: Sys, n: nat, seqNo: int32, fd: int32)
    requires n <= |s.calls| == |s.progress| && forall k :: 0 <= k < n ==> s.progress[k] == 0
    ensures WrittenOf(s, n, seqNo, fd) == []
    decreases n
  {
    hide Commands;
    if n > 0 {
      NothingWritten(s, n - 1, seqNo, fd);
      NothingOf(Commands(s.calls[n - 1]));
    }
  }

  lemma AnswersAppend(cmds: seq<Cmd>, c: Cmd, seqNo: int32, fd: int32)
    ensures AnswersTo(cmds + [c], seqNo, fd) == AnswersTo(cmds, seqNo, fd) + if Answers(c, seqNo, fd) then [c] else []
  {
    assert (cmds + [c])[..|cmds|] == cmds;
  }

  lemma StepWrites(s: Sys, step: Step, seqNo: int32, fd: int32)
    requires Channel.Enabled(s, step) && InTurn(s, seqNo, fd)
    requires AnswersTo(s.written, seqNo, fd) == WrittenOf(s, |s.calls|, seqNo, fd)
    ensures var s' := Channel.Apply(s, step); |s'.progress| == |s'.calls| && AnswersTo(s'.written, seqNo, fd) == WrittenOf(s', |s'.calls|, seqNo, fd)
  {
    hide AnswersTo, Answers, Commands;
    match step
    case Write(j) =>
      var c := Commands(s.calls[j])[s.progress[j]];
      WriteAdds(s, j, |s.calls|, seqNo, fd);
      AnswersAppend(s.written, c, seqNo, fd);
      CommandTells(s.calls[j], s.progress[j], seqNo, fd);
    case _ =>
      SameWritten(s, Channel.Apply(s, step), |s.calls|, seqNo, fd);
  }

  lemma {:induction false} SameWritten(s: Sys, s': Sys, n: nat, seqNo: int32, fd: int32)
    requires n <= |s.calls| == |s.progress| && s'.calls == s.calls && s'.progress == s.progress
    ensures WrittenOf(s', n, seqNo, fd) == WrittenOf(s, n, seqNo, fd)
    decreases n
  {
    hide Commands;
    if n > 0 {
      SameWritten(s, s', n - 1, seqNo, fd);
    }
  }

  /** In every run, the commands whose headers carry the request's numbers are those that its calls have written, in order. */
  lemma {:induction false} HeadersTellCalls(run: seq<Sys>, capacity: nat, seqNo: int32, fd: int32)
    requires IsRun(run, capacity) && forall i :: 0 <= i < |run| ==> InTurn(run[i], seqNo, fd)
    ensures var s := Final(run); |s.progress| == |s.calls| && AnswersTo(s.written, seqNo, fd) == WrittenOf(s, |s.calls|, seqNo, fd)
    decreases |run|
  {
    hide InTurn, AnswersTo, WrittenOf, Follows;
    if |run| == 1 {
      StartsEmpty(run[0], capacity, seqNo, fd);
    } else {
      ShorterRun(run, capacity);
      var before := run[..|run| - 1];
      HeadersTellCalls(before, capacity, seqNo, fd);
      assert InTurn(run[|run| - 2], seqNo, fd);
      FollowsWrites(Final(before), Final(run), seqNo, fd);
    }
  }

  lemma FollowsWrites(s: Sys, s': Sys, seqNo: int32, fd: int32)
    requires Follows(s, s') && InTurn(s, seqNo, fd) && AnswersTo(s.written, seqNo, fd) == WrittenOf(s, |s.calls|, seqNo, fd)
    ensures |s'.progress| == |s'.calls| && AnswersTo(s'.written, seqNo, fd) == WrittenOf(s', |s'.calls|, seqNo, fd)
  {
    hide AnswersTo, WrittenOf, Enabled, Apply;
    var step :| Channel.Enabled(s, step) && s' == Channel.Apply(s, step);
    StepWrites(s, step, seqNo, fd);
  }

  lemma StartsEmpty(s: Sys, capacity: nat, seqNo: int32, fd: int32)
    requires Init(s, capacity)
    ensures AnswersTo(s.written, seqNo, fd) == WrittenOf(s, |s.calls|, seqNo, fd)
  {
    NothingWritten(s, |s.calls|, seqNo, fd);
  }

  ghost predicate Finished(s: Sys, n: nat, seqNo: int32, fd: int32) {
    forall k :: 0 <= k < n && k < |s.calls| && k < |s.progress| && IsPart(s.calls[k], seqNo, fd) ==> s.progress[k] == |Commands(s.calls[k])|
  }

  /** What has been written for the request is a beginning of all its parts, and all of them once its calls are finished. */
  lemma {:induction false} WrittenIsBeginning(s: Sys, n: nat, seqNo: int32, fd: int32)
    requires Channel.AgentOk(s) && InTurn(s, seqNo, fd) && n <= |s.calls|
    ensures WrittenOf(s, n, seqNo, fd) <= PartsOf(s.calls[..n], seqNo, fd)
    ensures Finished(s, n, seqNo, fd) ==> WrittenOf(s, n, seqNo, fd) == PartsOf(s.calls[..n], seqNo, fd)
    decreases n
  {
    hide Commands, Own;
    if n > 0 {
      WrittenIsBeginning(s, n - 1, seqNo, fd);
      assert s.calls[..n][..n - 1] == s.calls[..n - 1];
      var call, p := s.calls[n - 1], s.progress[n - 1];
      var before, parts := WrittenOf(s, n - 1, seqNo, fd), PartsOf(s.calls[..n - 1], seqNo, fd);
      if IsPart(call, seqNo, fd) {
        if p > 0 {
          assert Finished(s, n - 1, seqNo, fd);
          BeginsWith(parts, Commands(call), p);
        } else {
          NothingOf(Commands(call));
          BeginsWith(parts, Commands(call), 0);
          Regroup([], [], before);
        }
      } else {
        Regroup([], [], before);
        Regroup([], [], parts);
      }
    }
  }

  lemma BeginsWith<T>(a: seq<T>, b: seq<T>, p: nat)
    requires p <= |b|
    ensures a + b[..p] <= a + b && (p == |b| ==> b[..p] == b) && a <= a + b
  {
  }

  lemma {:induction false} AnswersPrefix(cmds: seq<Cmd>, n: nat, seqNo: int32, fd: int32)
    requires n <= |cmds|
    ensures AnswersTo(cmds[..n], seqNo, fd) <= AnswersTo(cmds, seqNo, fd)
    decreases |cmds|
  {
    if n == |cmds| {
      assert cmds[..n] == cmds;
    } else {
      var last := |cmds| - 1;
      AnswersPrefix(cmds[..last], n, seqNo, fd);
      assert cmds[..last][..n] == cmds[..n];
    }
  }

  /**
   * A receiver that looks at headers only gets the right bytes: the parameters of the delivered
   * commands with a request's number and its client's socket are a beginning of the answer, and all
   * of it when its calls are finished and everything was delivered.
   */
  lemma AnswersAreReassembled(run: seq<Sys>, capacity: nat, seqNo: int32, fd: int32)
    requires IsRun(run, capacity) && forall i :: 0 <= i < |run| ==> InTurn(run[i], seqNo, fd)
    ensures var s := Final(run);
      && Params(AnswersTo(s.client.delivered, seqNo, fd)) <= AnswerOf(s.calls, seqNo, fd)
      && (s.client.delivered == s.written && Finished(s, |s.calls|, seqNo, fd) ==>
            Params(AnswersTo(s.client.delivered, seqNo, fd)) == AnswerOf(s.calls, seqNo, fd))
  {
    hide AnswersTo, WrittenOf, PartsOf, AnswerOf, Params, Follows, InTurn, Finished, Init;
    var s := Final(run);
    RunKeepsInv(run, capacity);
    DeliveredIsPrefix(run, capacity);
    HeadersTellCalls(run, capacity, seqNo, fd);
    assert s.calls[..|s.calls|] == s.calls;
    assert InTurn(run[|run| - 1], seqNo, fd);
    WrittenIsBeginning(s, |s.calls|, seqNo, fd);
    PartsCarryAnswer(s.calls, seqNo, fd);
    var n, parts := |s.client.delivered|, PartsOf(s.calls, seqNo, fd);
    assert s.client.delivered == s.written[..n];
    AnswersPrefix(s.written, n, seqNo, fd);
    var own := AnswersTo(s.client.delivered, seqNo, fd);
    ParamsPrefix(parts, |own|);
    assert own == parts[..|own|];
  }

  /** One call for the request is always in turn. */
  lemma SingleCallInTurn(s: Sys, seqNo: int32, fd: int32)
    requires |s.progress| == |s.calls|
    requires forall j, k :: 0 <= j < k < |s.calls| ==> !(IsPart(s.calls[j], seqNo, fd) && IsPart(s.calls[k], seqNo, fd))
    ensures InTurn(s, seqNo, fd)
  {
  }
}
