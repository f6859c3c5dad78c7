/** The table handed to poll: dense, with an index from descriptors to their slot in it. */
module PollTable {
  import opened Pending
  import Growth

  /** Bits of event masks, by number. */
  const EV_READ: nat := 0
  const EV_WRITE: nat := 1
  const POLLIN: nat := 0
  const POLLOUT: nat := 2
  const POLLERR: nat := 3
  const POLLHUP: nat := 4
  const POLLNVAL: nat := 5

  datatype PollFd = PollFd(fd: nat, events: Events)

  /** The poll mask for an event mask. */
  function PollEvents(events: Events): Events {
    (if EV_READ in events then {POLLIN} else {}) + (if EV_WRITE in events then {POLLOUT} else {})
  }

  /** The poll mask asks for input just if reading is wanted, for output just if writing is, and for nothing else. */
  ghost predicate AsksFor(mask: Events, events: Events) {
    (POLLIN in mask <==> EV_READ in events) && (POLLOUT in mask <==> EV_WRITE in events) && mask <= {POLLIN, POLLOUT}
  }

  /** The events that a result of poll stands for. */
  function ReadyEvents(revents: Events): Events {
    (if revents * {POLLOUT, POLLERR, POLLHUP} != {} then {EV_WRITE} else {}) + (if revents * {POLLIN, POLLERR, POLLHUP} != {} then {EV_READ} else {})
  }

  /** The first `cnt` slots and the index point at each other. */
  ghost predicate Dense(polls: seq<PollFd>, cnt: nat, idxs: seq<int>) {
    && cnt <= |polls|
    && (forall i :: 0 <= i < cnt ==> polls[i].fd < |idxs| && idxs[polls[i].fd] == i)
    && (forall fd :: 0 <= fd < |idxs| ==> idxs[fd] == -1 || (0 <= idxs[fd] < cnt && polls[idxs[fd]].fd == fd))
  }

  /** The descriptors polled for, with their poll masks. */
  ghost function Entries(polls: seq<PollFd>, cnt: nat, idxs: seq<int>): map<nat, Events>
    requires Dense(polls, cnt, idxs)
  {
    map fd: nat | fd < |idxs| && idxs[fd] != -1 :: polls[idxs[fd]].events
  }

  lemma EntriesAfterUpdate(polls: seq<PollFd>, cnt: nat, idxs: seq<int>, idx: nat, e: PollFd)
    requires Dense(polls, cnt, idxs) && idx < cnt && e.fd == polls[idx].fd
    ensures Dense(polls[idx := e], cnt, idxs)
    ensures Entries(polls[idx := e], cnt, idxs) == Entries(polls, cnt, idxs)[e.fd := e.events]
  {
  }

  /** A descriptor without a slot gets the next one. */
  lemma EntriesAfterAdd(polls: seq<PollFd>, cnt: nat, idxs: seq<int>, e: PollFd)
    requires Dense(polls, cnt, idxs) && cnt < |polls| && e.fd < |idxs| && idxs[e.fd] == -1
    ensures Dense(polls[cnt := e], cnt + 1, idxs[e.fd := cnt])
    ensures Entries(polls[cnt := e], cnt + 1, idxs[e.fd := cnt]) == Entries(polls, cnt, idxs)[e.fd := e.events]
  {
  }

  function IndexAfterRemove(polls: seq<PollFd>, cnt: nat, idxs: seq<int>, fd: nat): seq<int>
    requires 0 < cnt <= |polls| && fd < |idxs| && polls[cnt - 1].fd < |idxs|
  {
    if idxs[fd] < cnt - 1 then idxs[fd := -1][polls[cnt - 1].fd := idxs[fd]] else idxs[fd := -1]
  }

  function SlotsAfterRemove(polls: seq<PollFd>, cnt: nat, idx: nat): seq<PollFd>
    requires idx < cnt <= |polls|
  {
    if idx < cnt - 1 then polls[idx := polls[cnt - 1]] else polls
  }

  /** Moving the last slot into a freed one, and its index with it, removes exactly one descriptor. */
  lemma EntriesAfterRemove(polls: seq<PollFd>, cnt: nat, idxs: seq<int>, fd: nat)
    requires Dense(polls, cnt, idxs) && fd < |idxs| && idxs[fd] != -1
    ensures var p, x := SlotsAfterRemove(polls, cnt, idxs[fd]), IndexAfterRemove(polls, cnt, idxs, fd);
      Dense(p, cnt - 1, x) && Entries(p, cnt - 1, x) == Entries(polls, cnt, idxs) - {fd}
  {
    var p, x := SlotsAfterRemove(polls, cnt, idxs[fd]), IndexAfterRemove(polls, cnt, idxs, fd);
    assert polls[cnt - 1].fd == fd <==> idxs[fd] == cnt - 1;
  }

  lemma EntriesAfterGrowth(polls: seq<PollFd>, cnt: nat, idxs: seq<int>, more: seq<PollFd>, mark: seq<int>)
    requires Dense(polls, cnt, idxs) && forall i :: 0 <= i < |mark| ==> mark[i] == -1
    ensures Dense(polls + more, cnt, idxs + mark)
    ensures Entries(polls + more, cnt, idxs + mark) == Entries(polls, cnt, idxs)
  {
  }

  class Table {
    var polls: array<PollFd>
    var pollcnt: nat
    /** For every descriptor its slot in `polls`, or -1. */
    var pollidxs: array<int>

    ghost predicate Valid()
      reads this, polls, pollidxs
    {
      Dense(polls[..], pollcnt, pollidxs[..])
    }

    ghost function Polled(): map<nat, Events>
      requires Valid()
      reads this, polls, pollidxs
    {
      Entries(polls[..], pollcnt, pollidxs[..])
    }

    constructor ()
      ensures Valid() && Polled() == map[] && fresh(polls) && fresh(pollidxs)
    {
      pollcnt := 0;
      polls := new PollFd[0];
      pollidxs := new int[0];
    }

    /** Marks new slots of the index as unused. */
    static method PollidxInit(a: array<int>, base: nat, count: nat)
      requires base + count <= a.Length
      modifies a
      ensures forall i :: 0 <= i < a.Length ==> a[i] == if base <= i < base + count then -1 else old(a[i])
    {
      var i := 0;
      while i < count
        invariant i <= count
        invariant forall k :: 0 <= k < a.Length ==> a[k] == if base <= k < base + i then -1 else old(a[k])
      {
        a[base + i] := -1;
        i := i + 1;
      }
    }

    method NeedIndex(cnt: nat)
      requires Valid()
      modifies this`pollidxs
      ensures Valid() && Polled() == old(Polled()) && cnt <= pollidxs.Length
      ensures pollidxs == old(pollidxs) || fresh(pollidxs)
    {
      hide Dense, Entries;
      if cnt > pollidxs.Length {
        var size, _ := Growth.NextSize(4, pollidxs.Length, cnt, Growth.ADDRESS_SIZE);
        var cur := pollidxs.Length;
        var bigger := new int[size](i requires i >= 0 reads this, pollidxs => if i < pollidxs.Length then pollidxs[i] else 0);
        PollidxInit(bigger, cur, size - cur);
        EntriesAfterGrowth(polls[..], pollcnt, pollidxs[..], [], bigger[cur..]);
        assert bigger[..] == pollidxs[..] + bigger[cur..];
        assert polls[..] == polls[..] + [];
        pollidxs := bigger;
      }
    }

    method NeedPolls(cnt: nat)
      requires Valid()
      modifies this`polls
      ensures Valid() && Polled() == old(Polled()) && cnt <= polls.Length
      ensures polls == old(polls) || fresh(polls)
    {
      hide Dense, Entries;
      if cnt > polls.Length {
        var size, _ := Growth.NextSize(8, polls.Length, cnt, Growth.ADDRESS_SIZE);
        var bigger := new PollFd[size](i requires i >= 0 reads this, polls => if i < polls.Length then polls[i] else PollFd(0, {}));
        EntriesAfterGrowth(polls[..], pollcnt, pollidxs[..], bigger[polls.Length..], []);
        assert bigger[..] == polls[..] + bigger[polls.Length..];
        assert pollidxs[..] == pollidxs[..] + [];
        polls := bigger;
      }
    }

    /** Gives a descriptor without a slot the next one. */
    method Allocate(fd: nat) returns (idx: nat)
      requires Valid() && fd < pollidxs.Length && pollidxs[fd] == -1
      modifies this`pollcnt, this`polls, polls, pollidxs
      ensures Valid() && idx < pollcnt && pollidxs[fd] == idx && polls[idx].fd == fd
      ensures Polled() == old(Polled())[fd := polls[idx].events]
      ensures polls == old(polls) || fresh(polls)
    {
      hide Dense, Entries;
      NeedPolls(pollcnt + 1);
      idx := pollcnt;
      pollidxs[fd] := idx;
      pollcnt := pollcnt + 1;
      ghost var before := polls[..];
      polls[idx] := PollFd(fd, polls[idx].events);
      EntriesAfterAdd(before, idx, old(pollidxs[..]), polls[idx]);
      assert pollidxs[..] == old(pollidxs[..])[fd := idx];
      assert polls[..] == before[idx := polls[idx]];
    }

    /** Gives a slot up by moving the last one into it. */
    method Release(fd: nat, idx: nat)
      requires Valid() && fd < pollidxs.Length && pollidxs[fd] == idx
      modifies this`pollcnt, polls, pollidxs
      ensures Valid() && Polled() == old(Polled()) - {fd}
    {
      hide Entries;
      EntriesAfterRemove(polls[..], pollcnt, pollidxs[..], fd);
      pollidxs[fd] := -1;
      pollcnt := pollcnt - 1;
      if idx < pollcnt {
        polls[idx] := polls[pollcnt];
        pollidxs[polls[idx].fd] := idx;
      }
      assert polls[..] == SlotsAfterRemove(old(polls[..]), old(pollcnt), idx);
      assert pollidxs[..] == IndexAfterRemove(old(polls[..]), old(pollcnt), old(pollidxs[..]), fd);
    }

    /** Sets the events that a slot polls for. */
    method Update(fd: nat, idx: nat, events: Events)
      requires Valid() && fd < pollidxs.Length && pollidxs[fd] == idx
      modifies polls
      ensures Valid() && Polled() == old(Polled())[fd := events]
    {
      hide Entries;
      assert polls[idx].fd == fd;
      EntriesAfterUpdate(polls[..], pollcnt, pollidxs[..], idx, PollFd(fd, events));
      ghost var before := polls[..];
      polls[idx] := PollFd(fd, events);
      assert polls[..] == before[idx := polls[idx]];
    }

    /** Brings the table in line with a change of the events wanted for a descriptor. */
    method Modify(fd: nat, oev: Events, nev: Events)
      requires Valid()
      modifies this, polls, pollidxs
      ensures Valid()
      ensures Polled() == if oev == nev then old(Polled()) else if nev == {} then old(Polled()) - {fd} else old(Polled())[fd := PollEvents(nev)]
      ensures oev != nev && nev != {} ==> fd in Polled() && AsksFor(Polled()[fd], nev)
      ensures (polls == old(polls) || fresh(polls)) && (pollidxs == old(pollidxs) || fresh(pollidxs))
    {
      hide Entries;
      if oev == nev {
        return;
      }
      NeedIndex(fd + 1);
      var idx := pollidxs[fd];
      if idx < 0 {
        idx := Allocate(fd);
      }
      if nev != {} {
        Update(fd, idx, PollEvents(nev));
      } else {
        Release(fd, idx);
      }
    }
  }
}
