/**
 The event loop's lists: timers kept in the order they will fire, descriptors in the order of
 the last registered first. The order in which timers fire, over any run.
 */
module EventLoop {

  /** A pending timer. The serial number tells list nodes apart; it counts registrations. */
  datatype Timer = Timer(time: int, fn: int, arg: int, serial: nat)

  datatype Watch = Watch(fd: int, fn: int, arg: int)

  // ---------- Specification ----------

  /** x fires before y: earlier, or at the same time and registered first. */
  predicate Before(x: Timer, y: Timer) {
    x.time < y.time || (x.time == y.time && x.serial < y.serial)
  }

  ghost predicate Ordered(timers: seq<Timer>) {
    forall i, j :: 0 <= i < j < |timers| ==> Before(timers[i], timers[j])
  }

  /** The position of the first timer strictly later than a time. */
  function Place(timers: seq<Timer>, time: int): (i: nat)
    ensures i <= |timers| && (i < |timers| ==> time < timers[i].time)
    ensures forall k :: 0 <= k < i ==> timers[k].time <= time
  {
    if timers == [] || time < timers[0].time then 0 else 1 + Place(timers[1..], time)
  }

  function Inserted(timers: seq<Timer>, t: Timer): seq<Timer> {
    var i := Place(timers, t.time);
    timers[..i] + [t] + timers[i..]
  }

  predicate Matches(t: Timer, fn: int, arg: int) {
    t.fn == fn && t.arg == arg
  }

  /** The position of the first timer of a callback, or the length. */
  function FirstTimer(timers: seq<Timer>, fn: int, arg: int): (i: nat)
    ensures i <= |timers| && (i < |timers| ==> Matches(timers[i], fn, arg))
    ensures forall k :: 0 <= k < i ==> !Matches(timers[k], fn, arg)
  {
    if timers == [] || Matches(timers[0], fn, arg) then 0 else 1 + FirstTimer(timers[1..], fn, arg)
  }

  function FirstWatch(fds: seq<Watch>, w: Watch): (i: nat)
    ensures i <= |fds| && (i < |fds| ==> fds[i] == w)
    ensures forall k :: 0 <= k < i ==> fds[k] != w
  {
    if fds == [] || fds[0] == w then 0 else 1 + FirstWatch(fds[1..], w)
  }

  function Without<T>(s: seq<T>, i: nat): (r: seq<T>)
    ensures i < |s| ==> |r| == |s| - 1
  {
    if i < |s| then s[..i] + s[i + 1..] else s
  }

  /** A position is decided by what is before it. */
  lemma {:induction false} PlaceIs(timers: seq<Timer>, time: int, i: nat)
    requires i <= |timers| && (i < |timers| ==> time < timers[i].time)
    requires forall k :: 0 <= k < i ==> timers[k].time <= time
    ensures Place(timers, time) == i
  {
    if i > 0 {
      PlaceIs(timers[1..], time, i - 1);
    }
  }

  lemma {:induction false} FirstTimerIs(timers: seq<Timer>, fn: int, arg: int, i: nat)
    requires i <= |timers| && (i < |timers| ==> Matches(timers[i], fn, arg))
    requires forall k :: 0 <= k < i ==> !Matches(timers[k], fn, arg)
    ensures FirstTimer(timers, fn, arg) == i
  {
    if i > 0 {
      FirstTimerIs(timers[1..], fn, arg, i - 1);
    }
  }

  lemma {:induction false} FirstWatchIs(fds: seq<Watch>, w: Watch, i: nat)
    requires i <= |fds| && (i < |fds| ==> fds[i] == w)
    requires forall k :: 0 <= k < i ==> fds[k] != w
    ensures FirstWatch(fds, w) == i
  {
    if i > 0 {
      FirstWatchIs(fds[1..], w, i - 1);
    }
  }

  /** Unregistering a timer just registered gives the list back, if no other has its callback and argument. */
  lemma UnregUndoesReg(timers: seq<Timer>, t: Timer)
    requires forall k :: 0 <= k < |timers| ==> timers[k].fn != t.fn || timers[k].arg != t.arg
    ensures Without(Inserted(timers, t), FirstTimer(Inserted(timers, t), t.fn, t.arg)) == timers
  {
    hide Place;
    var i, now := Place(timers, t.time), Inserted(timers, t);
    FirstTimerIs(now, t.fn, t.arg, i);
    assert now[..i] + now[i + 1..] == timers;
  }

  /** No timer with another callback or another argument goes. */
  lemma OthersStay(timers: seq<Timer>, fn: int, arg: int, t: Timer)
    requires t in timers && (t.fn != fn || t.arg != arg)
    ensures t in Without(timers, FirstTimer(timers, fn, arg))
  {
    hide FirstTimer;
    var i := FirstTimer(timers, fn, arg);
    if i < |timers| {
      assert t != timers[i] && t in timers[..i] + [timers[i]] + timers[i + 1..] by {
        assert timers == timers[..i] + [timers[i]] + timers[i + 1..];
      }
    }
  }

  // ---------- The lists ----------

  class Lists {
    var timers: seq<Timer>
    var fds: seq<Watch>
    var serial: nat

    constructor ()
      ensures timers == [] && fds == [] && serial == 0
    {
      timers, fds, serial := [], [], 0;
    }

    /** eventloop_reg_timeout. */
    method RegTimeout(time: int, fn: int, arg: int)
      modifies `timers, `serial
      ensures timers == Inserted(old(timers), Timer(time, fn, arg, old(serial))) && serial == old(serial) + 1
    {
      var e := Timer(time, fn, arg, serial);
      var i := 0;
      while i < |timers| && !(e.time < timers[i].time)
        invariant i <= |timers| && forall k :: 0 <= k < i ==> timers[k].time <= time
      {
        i := i + 1;
      }
      PlaceIs(timers, time, i);
      timers, serial := timers[..i] + [e] + timers[i..], serial + 1;
    }

    /** eventloop_reg_fd. */
    method RegFd(fd: int, fn: int, arg: int)
      modifies `fds
      ensures fds == [Watch(fd, fn, arg)] + old(fds)
    {
      fds := [Watch(fd, fn, arg)] + fds;
    }

    /** eventloop_unreg: the first match in each list goes; false if there is none in either. */
    method Unreg(fd: int, fn: int, arg: int) returns (found: bool)
      modifies `timers, `fds
      ensures timers == Without(old(timers), FirstTimer(old(timers), fn, arg))
      ensures fds == Without(old(fds), FirstWatch(old(fds), Watch(fd, fn, arg)))
      ensures found <==> (exists t :: t in old(timers) && Matches(t, fn, arg)) || Watch(fd, fn, arg) in old(fds)
    {
      found := false;
      var i := 0;
      while i < |timers| && !(fn == timers[i].fn && arg == timers[i].arg)
        invariant i <= |timers| && forall k :: 0 <= k < i ==> !Matches(timers[k], fn, arg)
      {
        i := i + 1;
      }
      FirstTimerIs(timers, fn, arg, i);
      if i < |timers| {
        found := true;
        assert timers[i] in timers;
        timers := timers[..i] + timers[i + 1..];
      }
      i := 0;
      while i < |fds| && !(fn == fds[i].fn && arg == fds[i].arg && fd == fds[i].fd)
        invariant i <= |fds| && forall k :: 0 <= k < i ==> fds[k] != Watch(fd, fn, arg)
      {
        i := i + 1;
      }
      FirstWatchIs(fds, Watch(fd, fn, arg), i);
      if i < |fds| {
        found := true;
        fds := fds[..i] + fds[i + 1..];
      }
    }

    /** The timeout branch of eventloop: the head of the list is taken off before its callback runs. */
    method Dispatch() returns (e: Timer)
      requires timers != []
      modifies `timers
      ensures old(timers) == [e] + timers
      ensures Ordered(old(timers)) ==> Ordered(timers) && forall t :: t in timers ==> Before(e, t)
    {
      e := timers[0];
      timers := timers[1..];
    }
  }

  // ---------- Runs ----------

  /** Callbacks do nothing else to the timers than register and unregister them, so they are part of the run. */
  datatype Event = Register(time: int, fn: int, arg: int) | Unregister(fn: int, arg: int) | Fire

  /** The pending timers and what became of the others; all of them, in the order registered. */
  datatype History = History(timers: seq<Timer>, fired: seq<Timer>, removed: seq<Timer>, registered: seq<Timer>)

  function Next(h: History, e: Event): History {
    match e
    case Register(time, fn, arg) =>
      var t := Timer(time, fn, arg, |h.registered|);
      h.(timers := Inserted(h.timers, t), registered := h.registered + [t])
    case Unregister(fn, arg) =>
      var i := FirstTimer(h.timers, fn, arg);
      if i == |h.timers| then h else h.(timers := Without(h.timers, i), removed := h.removed + [h.timers[i]])
    case Fire =>
      if h.timers == [] then h else h.(timers := h.timers[1..], fired := h.fired + [h.timers[0]])
  }

  function After(es: seq<Event>, n: nat): History
    requires n <= |es|
  {
    if n == 0 then History([], [], [], []) else Next(After(es, n - 1), es[n - 1])
  }

  ghost predicate Numbered(s: seq<Timer>, n: nat) {
    forall i :: 0 <= i < |s| ==> s[i].serial < n
  }

  /** Those of one deadline fire in the order registered. */
  ghost predicate FiredInOrder(fired: seq<Timer>) {
    forall i, j :: 0 <= i < j < |fired| && fired[i].time == fired[j].time ==> fired[i].serial < fired[j].serial
  }

  ghost predicate FiredFirst(fired: seq<Timer>, timers: seq<Timer>) {
    forall i, j :: 0 <= i < |fired| && 0 <= j < |timers| && fired[i].time == timers[j].time ==> fired[i].serial < timers[j].serial
  }

  ghost predicate Consistent(h: History) {
    && Ordered(h.timers) && Numbered(h.timers, |h.registered|) && Numbered(h.fired, |h.registered|)
    && FiredInOrder(h.fired) && FiredFirst(h.fired, h.timers)
    && multiset(h.registered) == multiset(h.timers) + multiset(h.fired) + multiset(h.removed)
  }

  lemma InsertedAt(timers: seq<Timer>, t: Timer)
    ensures var i, r := Place(timers, t.time), Inserted(timers, t);
            && |r| == |timers| + 1
            && forall k {:trigger r[k]} :: 0 <= k < |r| ==> r[k] == if k < i then timers[k] else if k == i then t else timers[k - 1]
  {
  }

  lemma InsertedIsOneMore(timers: seq<Timer>, t: Timer)
    ensures multiset(Inserted(timers, t)) == multiset(timers) + multiset{t}
  {
    hide Place;
    assert timers == timers[..Place(timers, t.time)] + timers[Place(timers, t.time)..];
  }

  /** Insertion behind all that are not later keeps the order, since the new timer has the highest number. */
  lemma InsertedIsOrdered(timers: seq<Timer>, t: Timer)
    requires Ordered(timers) && Numbered(timers, t.serial)
    ensures Ordered(Inserted(timers, t))
  {
    hide Inserted;
    InsertedAt(timers, t);
    var i, r := Place(timers, t.time), Inserted(timers, t);
    forall a, b | 0 <= a < b < |r|
      ensures Before(r[a], r[b])
    {
      if b <= i || i < a {
      } else if a == i {
        assert b - 1 == i || Before(timers[i], timers[b - 1]);
      }
    }
  }

  lemma WithoutIsOrdered(timers: seq<Timer>, i: nat)
    requires Ordered(timers) && i < |timers|
    ensures Ordered(Without(timers, i))
    ensures forall k {:trigger Without(timers, i)[k]} :: 0 <= k < |timers| - 1 ==> Without(timers, i)[k] in timers
  {
    hide Before;
    var r := Without(timers, i);
    assert forall k {:trigger r[k]} :: 0 <= k < |r| ==> r[k] == if k < i then timers[k] else timers[k + 1];
  }

  lemma WithoutIsOneLess(timers: seq<Timer>, i: nat)
    requires i < |timers|
    ensures multiset(timers) == multiset(Without(timers, i)) + multiset{timers[i]}
  {
    assert timers == timers[..i] + [timers[i]] + timers[i + 1..];
  }

  lemma RegisterIsConsistent(h: History, time: int, fn: int, arg: int)
    requires Consistent(h)
    ensures Consistent(Next(h, Register(time, fn, arg)))
  {
    hide Inserted, Before, Ordered;
    var t := Timer(time, fn, arg, |h.registered|);
    InsertedAt(h.timers, t);
    InsertedIsOrdered(h.timers, t);
    InsertedIsOneMore(h.timers, t);
  }

  lemma UnregisterIsConsistent(h: History, fn: int, arg: int)
    requires Consistent(h)
    ensures Consistent(Next(h, Unregister(fn, arg)))
  {
    hide Without, FirstTimer, Before, Ordered;
    var i := FirstTimer(h.timers, fn, arg);
    if i < |h.timers| {
      WithoutIsOrdered(h.timers, i);
      WithoutIsOneLess(h.timers, i);
    }
  }

  lemma FireIsConsistent(h: History)
    requires Consistent(h)
    ensures Consistent(Next(h, Fire))
  {
    if h.timers != [] {
      assert Without(h.timers, 0) == h.timers[1..];
      HeadIsFirst(h.timers);
      hide Without, Before, Ordered;
      WithoutIsOrdered(h.timers, 0);
      WithoutIsOneLess(h.timers, 0);
    }
  }

  lemma HeadIsFirst(timers: seq<Timer>)
    requires Ordered(timers) && timers != []
    ensures forall k :: 1 <= k < |timers| && timers[k].time == timers[0].time ==> timers[0].serial < timers[k].serial
    ensures forall k :: 1 <= k < |timers| ==> Before(timers[0], timers[k])
  {
  }

  /** Over any run: the list is ordered, and registered = pending + fired + unregistered. */
  lemma {:induction false} RunIsConsistent(es: seq<Event>, n: nat)
    requires n <= |es|
    ensures Consistent(After(es, n))
  {
    hide Consistent, Next;
    if n == 0 {
      NothingIsConsistent();
    } else {
      RunIsConsistent(es, n - 1);
      match es[n - 1]
      case Register(time, fn, arg) => RegisterIsConsistent(After(es, n - 1), time, fn, arg);
      case Unregister(fn, arg) => UnregisterIsConsistent(After(es, n - 1), fn, arg);
      case Fire => FireIsConsistent(After(es, n - 1));
    }
  }

  lemma NothingIsConsistent()
    ensures Consistent(History([], [], [], []))
  {
  }

  /** A timer that fires is the earliest of those pending, and the first registered of the earliest. */
  lemma FiredIsMinimum(es: seq<Event>, n: nat)
    requires n < |es| && es[n] == Fire && After(es, n).timers != []
    ensures var h, g := After(es, n), After(es, n + 1);
            && g.fired == h.fired + [h.timers[0]]
            && forall t :: t in h.timers ==> t == h.timers[0] || Before(h.timers[0], t)
  {
    hide After;
    RunIsConsistent(es, n);
    AfterOneMore(es, n);
  }

  lemma AfterOneMore(es: seq<Event>, n: nat)
    requires n < |es|
    ensures After(es, n + 1) == Next(After(es, n), es[n])
  {
  }

  /** Of two timers with the same deadline, the one registered first fires first, however far apart the two are. */
  lemma SameDeadlineInOrder(es: seq<Event>, n: nat, i: nat, j: nat)
    requires n <= |es| && i < |After(es, n).fired| && j < |After(es, n).fired|
    requires After(es, n).fired[i].time == After(es, n).fired[j].time
    ensures After(es, n).fired[i].serial < After(es, n).fired[j].serial <==> i < j
  {
    hide After;
    RunIsConsistent(es, n);
  }
}
