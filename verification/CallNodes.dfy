/**
 Server and client as objects whose handlers change their fields. Each handler of the server is
 the corresponding event of the whole system, seen from the server.
 */
module CallNodes {
  import opened CallProtocol
  import opened CallSpec

  // ---------- The server in the system ----------

  /** The server's fields are those of the system: its list is the lines' entries, its counter 32 bits of the tests committed. */
  ghost predicate Shows(entries: seq<Entry>, testId: nat, s: System) {
    entries == Entries(s.lines) && testId == WireId(s.committed)
  }

  /** A new entry at the head moves every known client one place on. */
  lemma {:induction false} FoundOnePlaceOn(entries: seq<Entry>, id: nat, n: nat)
    requires n <= |entries|
    ensures FindById([UNKNOWN] + entries, id, n + 1) == if id == 0 then 0 else FindById(entries, id, n) + 1
  {
    var longer := [UNKNOWN] + entries;
    if n > 0 {
      assert longer[n] == entries[n - 1];
      FoundOnePlaceOn(entries, id, n - 1);
    } else {
      assert FindById(longer, id, 0) == 0;
    }
  }

  lemma EntryChanged(lines: seq<Line>, i: nat, l: Line)
    requires i < |lines|
    ensures Entries(lines[i := l]) == Entries(lines)[i := l.entry]
  {
  }

  lemma ConnectIsShown(entries: seq<Entry>, testId: nat, s: System, id: nat)
    requires Shows(entries, testId, s)
    ensures Shows([UNKNOWN] + entries, testId, Next(s, Connects(id)))
  {
    NewLineIs(id);
  }

  lemma ReadIsShown(entries: seq<Entry>, testId: nat, s: System, i: nat)
    requires Shows(entries, testId, s) && Possible(s, ServerReads(i))
    ensures Shows(entries[i := Receive(entries[i], s.lines[i].up[0])], testId, Next(s, ServerReads(i)))
  {
    hide Receive;
    EntryChanged(s.lines, i, Read(s.lines[i]));
  }

  /** The list after a probe. */
  function ProbedList(entries: seq<Entry>, id: nat, from: nat): seq<Entry> {
    var i := FindById(entries, id, |entries|);
    if i < |entries| then entries[i := Probe(entries[i], from)] else entries
  }

  lemma ProbeIsShown(entries: seq<Entry>, testId: nat, s: System, id: nat, from: nat)
    requires Shows(entries, testId, s) && Possible(s, Probed(id, from))
    ensures Shows(ProbedList(entries, id, from), testId, Next(s, Probed(id, from)))
  {
    hide Probe;
    var i := FindById(entries, id, |entries|);
    if i < |entries| {
      EntryChanged(s.lines, i, s.lines[i].(entry := Probe(s.lines[i].entry, from)));
    }
  }

  /** What the server sends for a call, on the two connections of the system. */
  ghost predicate SendsAs(s: System, a: nat, b: nat, sent: seq<Start>)
    requires Possible(s, Calls(a, b))
  {
    var t := Next(s, Calls(a, b));
    if sent == [] then t == s
    else && |sent| == 2
         && t.lines[a].down == s.lines[a].down + [sent[0]] && t.lines[b].down == s.lines[b].down + [sent[1]]
  }

  lemma CallIsShown(entries: seq<Entry>, testId: nat, s: System, a: nat, b: nat)
    requires Shows(entries, testId, s) && Possible(s, Calls(a, b)) && Available(entries[a], entries[b])
    ensures var send, rcv := entries[a], entries[b];
            && Shows(entries[a := Paired(send, Sender, rcv.id)][b := Paired(rcv, Receiver, send.id)], NextTest(testId),
                     Next(s, Calls(a, b)))
            && SendsAs(s, a, b, [StartFor(send, rcv, Sender, testId), StartFor(rcv, send, Receiver, testId)])
  {
    hide NextTest, WireId;
    IdsAdvance(s.committed);
    var l, m := s.lines[a], s.lines[b];
    var p := Sent(l, Paired(l.entry, Sender, m.entry.id), StartFor(l.entry, m.entry, Sender, testId));
    EntryChanged(s.lines, a, p);
    EntryChanged(s.lines[a := p], b,
                 Sent(m, Paired(m.entry, Receiver, l.entry.id), StartFor(m.entry, l.entry, Receiver, testId)));
  }

  // ---------- The objects ----------

  class Server {
    var entries: seq<Entry>
    var testId: nat

    constructor ()
      ensures entries == [] && testId == 0
    {
      entries, testId := [], 0;
    }

    /** connect_input and cfe_add: a new entry at the head of the list, nothing known about it. */
    method ConnectInput()
      modifies this
      ensures entries == [UNKNOWN] + old(entries) && testId == old(testId)
      ensures forall id :: FindById(entries, id, |entries|)
                           == if id == 0 then 0 else FindById(old(entries), id, |old(entries)|) + 1
      ensures forall s, id :: old(Shows(entries, testId, s)) ==> Shows(entries, testId, Next(s, Connects(id)))
    {
      ghost var before := entries;
      entries := [UNKNOWN] + entries;
      forall id
        ensures FindById(entries, id, |entries|) == if id == 0 then 0 else FindById(before, id, |before|) + 1
      {
        FoundOnePlaceOn(before, id, |before|);
      }
      forall s, id | Shows(before, testId, s)
        ensures Shows(entries, testId, Next(s, Connects(id)))
      {
        ConnectIsShown(before, testId, s, id);
      }
    }

    /** client_input and rcv_sp_proto, for the connection of entry i. */
    method ClientInput(i: nat, x: Incoming)
      requires i < |entries|
      modifies `entries
      ensures entries == AfterInput(old(entries), i, x)
      ensures forall s :: old(Shows(entries, testId, s)) && Possible(s, ServerReads(i)) && x == Message(s.lines[i].up[0], 0)
                ==> Shows(entries, testId, Next(s, ServerReads(i)))
    {
      forall s | Shows(entries, testId, s) && Possible(s, ServerReads(i)) && x == Message(s.lines[i].up[0], 0)
        ensures Shows(AfterInput(entries, i, x), testId, Next(s, ServerReads(i)))
      {
        ReadIsShown(entries, testId, s, i);
      }
      var e := entries[i];
      match x {
        case Closed =>
          entries := entries[..i] + entries[i + 1..];
        case Deregister(id) =>
          if e.id == 0 || id == e.id {
            entries := entries[..i] + entries[i + 1..];
          }
        case Message(m, addr) =>
          if e.id != 0 && m.id != e.id {
            return;
          }
          match m {
            case Register(id, busy) =>
              e := e.(id := id);
              if !busy {
                e := e.(peer := 0);
              }
              if addr != 0 {
                e := e.(addrPub := addr);
              }
            case Report(_, _, _) =>
              e := e.(state := Idle, peer := 0);
          }
          entries := entries[i := e];
      }
    }

    /** cfe_find_byid. */
    method FindEntry(id: nat) returns (i: nat)
      ensures i == FindById(entries, id, |entries|)
    {
      i := 0;
      while i < |entries|
        invariant i <= |entries| && forall k :: 0 <= k < i ==> entries[k].id != id
      {
        if entries[i].id == id {
          return;
        }
        i := i + 1;
      }
    }

    /** udp_input: a probe from an address, for the entry with the id it names. */
    method UdpInput(id: nat, from: nat)
      modifies `entries
      ensures entries == ProbedList(old(entries), id, from)
      ensures forall s :: old(Shows(entries, testId, s)) && Possible(s, Probed(id, from))
                ==> Shows(entries, testId, Next(s, Probed(id, from)))
    {
      forall s | Shows(entries, testId, s) && Possible(s, Probed(id, from))
        ensures Shows(ProbedList(entries, id, from), testId, Next(s, Probed(id, from)))
      {
        ProbeIsShown(entries, testId, s, id, from);
      }
      var i := FindEntry(id);
      if i == |entries| {
        return;
      }
      if from != entries[i].addrPub {
        entries := entries[i := entries[i].(addrPub := from)];
        if entries[i].state == Init {
          entries := entries[i := entries[i].(state := Idle)];
        }
      }
    }

    /**
     client_startcalls, for two different positions drawn at random; `ok1` and `ok2` tell whether
     the two sends succeed. After one that fails the number of the test is used up, nobody is
     marked, and the result ends the server.
     */
    method StartCalls(index1: nat, index2: nat, ok1: bool, ok2: bool) returns (sent: seq<Start>, failed: bool)
      requires index1 < |entries| && index2 < |entries| && index1 != index2
      modifies this
      ensures var send, rcv := old(entries)[index1], old(entries)[index2];
              var starts := [StartFor(send, rcv, Sender, old(testId)), StartFor(rcv, send, Receiver, old(testId))];
              if !Available(send, rcv) then sent == [] && !failed && entries == old(entries) && testId == old(testId)
              else if ok1 && ok2 then
                && sent == starts && !failed && testId == NextTest(old(testId))
                && entries == old(entries)[index1 := Paired(send, Sender, rcv.id)][index2 := Paired(rcv, Receiver, send.id)]
              else
                && failed && sent == (if ok1 then starts[..1] else [])
                && entries == old(entries) && testId == NextTest(old(testId))
      ensures forall s :: old(Shows(entries, testId, s)) && Possible(s, Calls(index1, index2)) && !failed
                ==> Shows(entries, testId, Next(s, Calls(index1, index2))) && SendsAs(s, index1, index2, sent)
    {
      ghost var before, beforeId := entries, testId;
      var i, send, rcv := 0, UNKNOWN, UNKNOWN;
      while i < |entries|
        invariant i <= |entries|
        invariant (i > index1 ==> send == entries[index1]) && (i > index2 ==> rcv == entries[index2])
      {
        if i == index1 {
          send := entries[i];
        }
        if i == index2 {
          rcv := entries[i];
        }
        i := i + 1;
      }
      var thisTestId := testId;
      sent, failed := [], false;
      if send.state == Idle && rcv.state == Idle {
        testId := NextTest(testId);
        if !ok1 {
          return [], true;
        }
        sent := [StartFor(send, rcv, Sender, thisTestId)];
        if !ok2 {
          return sent, true;
        }
        sent := sent + [StartFor(rcv, send, Receiver, thisTestId)];
        entries := entries[index1 := send.(state := Busy(Sender))][index2 := rcv.(state := Busy(Receiver))];
        entries := entries[index2 := entries[index2].(peer := send.id)];
        entries := entries[index1 := entries[index1].(peer := rcv.id)];
      }
      forall s | Shows(before, beforeId, s) && Possible(s, Calls(index1, index2))
        ensures Shows(entries, testId, Next(s, Calls(index1, index2))) && SendsAs(s, index1, index2, sent)
      {
        if sent != [] {
          CallIsShown(before, beforeId, s, index1, index2);
        }
      }
    }
  }

  class ClientNode {
    const id: nat
    var state: ClientState

    function Contents(): Client
      reads this
    {
      Client(id, state)
    }

    constructor (id: nat)
      ensures Contents() == Client(id, Looking)
    {
      this.id, state := id, Looking;
    }

    /**
     sps_wrapper: a registration on the connection and, as a probe, on the datagram socket; `ok1`
     and `ok2` tell whether the two sends succeed. The first failure ends the client.
     */
    method SpsWrapper(a: Attempt, ok1: bool, ok2: bool) returns (m: Option<Up>, probe: Option<Up>, failed: bool)
      modifies `state
      ensures var (c, r) := Wrapper(old(Contents()), a.Made?);
              && Contents() == c && m == (if ok1 then r else None) && probe == (if ok1 && ok2 then r else None)
              && failed == if r.Some? then !ok1 || !ok2 else a.Broken?
    {
      m, probe, failed := None, None, false;
      if state == Looking {
        match a
        case Broken => return None, None, true;
        case Refused =>
        case Made => state := Connected;
      }
      if state != Looking {
        var r := Register(id, state != Looking && state != Connected);
        if !ok1 {
          return None, None, true;
        }
        m := Some(r);
        if !ok2 {
          return m, None, true;
        }
        probe := Some(r);
      }
    }

    /** server_input. */
    method ServerInput(x: Heard) returns (exits: bool)
      modifies `state
      ensures exits <==> x == Exit(id)
      ensures Contents() == match x
                            case Begin(m) => Take(old(Contents()), m)
                            case Ended => Client(id, Looking)
                            case Exit(_) => old(Contents())
    {
      exits := false;
      match x
      case Ended => state := Looking;
      case Exit(other) => exits := other == id;
      case Begin(m) =>
        if m.id != id || state != Connected {
          return;
        }
        match m.role {
          case Sender => state := Data(Sender, m.test, m.peer);
          case Receiver => state := Data(Receiver, m.test, m.peer);
        }
    }

    /** send_data_wrapper, with the times and counts of the test's session. */
    method SendDataWrapper(duration: int, elapsed: int, rcvd: nat, sent: nat, sizeMs: nat) returns (m: Option<Up>)
      requires sizeMs > 0
      modifies `state
      ensures (Contents(), m) == SenderTick(old(Contents()), TimeIsOver(duration, elapsed, rcvd, sent, sizeMs))
    {
      m := None;
      match state
      case Closing(test) =>
        m := Some(Report(id, Sender, test));
        state := Connected;
      case Data(role, test, _) =>
        if role == Sender {
          if duration < elapsed
             || (rcvd == 0 && elapsed / 1_000_000 > SPC_SEND_TIMEOUT_S && sent > SPC_SEND_TIMEOUT_S * (1000 / sizeMs)) {
            state := Closing(test);
          }
        }
      case _ =>
    }

    /** rcv_timeout. */
    method RcvTimeout() returns (m: Option<Up>)
      modifies `state
      ensures (Contents(), m) == ReceiverTimeout(old(Contents()))
    {
      m := None;
      match state
      case Data(role, test, _) =>
        if role == Receiver {
          m := Some(Report(id, Receiver, test));
          state := Connected;
        }
      case _ =>
    }
  }
}
