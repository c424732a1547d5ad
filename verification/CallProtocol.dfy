/**
 The whole system: one server, any number of clients, a FIFO connection each way for every
 client, probes from anywhere at any time. Every interleaving keeps the tests in order.
 */
module CallProtocol {
  import opened CallSpec

  // ---------- The system ----------

  /** A client, its entry at the server, and the messages under way on its connection. */
  datatype Line = Line(entry: Entry, client: Client, down: seq<Start>, up: seq<Up>)

  /** The part of one client in one test. */
  datatype Part = Part(role: Role, test: nat)

  /** The lines in the order of the server's list, the tests committed, and the reports the server has accepted. */
  datatype System = System(lines: seq<Line>, committed: nat, reported: multiset<Part>)

  const START: System := System([], 0, multiset{})

  function Queued(up: seq<Up>, m: Option<Up>): seq<Up> {
    if m.Some? then up + [m.value] else up
  }

  /** What can happen. */
  datatype Event =
    | Connects(id: nat)
    | Registers(i: nat)
    | Probed(id: nat, from: nat)
    | Calls(index1: nat, index2: nat)
    | ServerReads(i: nat)
    | ClientReads(i: nat)
    | SenderTimer(i: nat, over: bool)
    | ReceiverTimer(i: nat)

  /**
   Probes come from real addresses; only what is there is read. Ids are drawn at random, so any
   client may have any id, and a probe may name any.
   */
  predicate Possible(s: System, e: Event) {
    match e
    case Connects(_) => true
    case Registers(i) => i < |s.lines|
    case Probed(_, from) => from != 0
    case Calls(index1, index2) => index1 < |s.lines| && index2 < |s.lines| && index1 != index2
    case ServerReads(i) => i < |s.lines| && s.lines[i].up != []
    case ClientReads(i) => i < |s.lines| && s.lines[i].down != []
    case SenderTimer(i, _) => i < |s.lines|
    case ReceiverTimer(i) => i < |s.lines|
  }

  function NewLine(id: nat): Line {
    var (c, m) := Wrapper(Client(id, Looking), true);
    Line(UNKNOWN, c, [], Queued([], m))
  }

  function Entries(lines: seq<Line>): (e: seq<Entry>)
    ensures |e| == |lines| && forall i :: 0 <= i < |lines| ==> e[i] == lines[i].entry
  {
    seq(|lines|, i requires 0 <= i < |lines| => lines[i].entry)
  }

  /** The client's own message or timer. */
  function Acted(l: Line, r: (Client, Option<Up>)): Line {
    l.(client := r.0, up := Queued(l.up, r.1))
  }

  /** The server takes the next message off a connection. */
  function Read(l: Line): Line
    requires l.up != []
  {
    l.(entry := Receive(l.entry, l.up[0]), up := l.up[1..])
  }

  /** A report that the server accepts. */
  predicate Accepts(l: Line)
    requires l.up != []
  {
    l.up[0].Report? && (l.entry.id == 0 || l.up[0].id == l.entry.id)
  }

  /** The client takes the next start off its connection. */
  function Started(l: Line): Line
    requires l.down != []
  {
    l.(client := Take(l.client, l.down[0]), down := l.down[1..])
  }

  function Sent(l: Line, e: Entry, m: Start): Line {
    l.(entry := e, down := l.down + [m])
  }

  function Next(s: System, e: Event): System
    requires Possible(s, e)
  {
    match e
    case Connects(id) => s.(lines := [NewLine(id)] + s.lines)
    case Registers(i) => s.(lines := s.lines[i := Acted(s.lines[i], Wrapper(s.lines[i].client, true))])
    case Probed(id, from) =>
      var i := FindById(Entries(s.lines), id, |s.lines|);
      if i == |s.lines| then s
      else s.(lines := s.lines[i := s.lines[i].(entry := Probe(s.lines[i].entry, from))])
    case Calls(index1, index2) =>
      var a, b, test := s.lines[index1], s.lines[index2], WireId(s.committed);
      if !Available(a.entry, b.entry) then s
      else s.(lines := s.lines
                [index1 := Sent(a, Paired(a.entry, Sender, b.entry.id), StartFor(a.entry, b.entry, Sender, test))]
                [index2 := Sent(b, Paired(b.entry, Receiver, a.entry.id), StartFor(b.entry, a.entry, Receiver, test))],
              committed := s.committed + 1)
    case ServerReads(i) =>
      var l := s.lines[i];
      s.(lines := s.lines[i := Read(l)],
         reported := if Accepts(l) then s.reported + multiset{Part(l.up[0].role, l.up[0].test)} else s.reported)
    case ClientReads(i) => s.(lines := s.lines[i := Started(s.lines[i])])
    case SenderTimer(i, over) => s.(lines := s.lines[i := Acted(s.lines[i], SenderTick(s.lines[i].client, over))])
    case ReceiverTimer(i) => s.(lines := s.lines[i := Acted(s.lines[i], ReceiverTimeout(s.lines[i].client))])
  }

  // ---------- Where a client's part in a test is ----------

  function StartParts(down: seq<Start>): (p: seq<Part>)
    ensures |p| == |down|
  {
    seq(|down|, k requires 0 <= k < |down| => Part(down[k].role, down[k].test))
  }

  function ClientParts(c: Client): seq<Part> {
    match c.state
    case Data(role, test, _) => [Part(role, test)]
    case Closing(test) => [Part(Sender, test)]
    case _ => []
  }

  function ReportPart(m: Up): seq<Part> {
    if m.Report? then [Part(m.role, m.test)] else []
  }

  function ReportParts(up: seq<Up>): seq<Part> {
    if up == [] then [] else ReportPart(up[0]) + ReportParts(up[1..])
  }

  /** Starts under way, the test being run, reports under way. */
  function Parts(l: Line): seq<Part> {
    StartParts(l.down) + ClientParts(l.client) + ReportParts(l.up)
  }

  lemma {:induction false} ReportPartsJoin(a: seq<Up>, b: seq<Up>)
    ensures ReportParts(a + b) == ReportParts(a) + ReportParts(b)
  {
    hide ReportPart;
    if a == [] {
      assert a + b == b;
    } else {
      assert (a + b)[1..] == a[1..] + b;
      ReportPartsJoin(a[1..], b);
    }
  }

  lemma OneReport(m: Up)
    ensures ReportParts([m]) == if m.Report? then [Part(m.role, m.test)] else []
  {
    assert ReportParts([m][1..]) == [];
  }

  // ---------- What always holds of a line ----------

  /**
   A client the server has marked busy has at most one part in a test: a start under way to it,
   or a test it is running, or a report under way from it, in the role it is marked with. A
   client that is not busy has none. An entry has a public address once it is out of its initial
   state and not before; its id is its client's once the server has read a registration.
   */
  ghost predicate Orderly(l: Line) {
    && (match l.entry.state
        case Busy(role) => Parts(l) == [] || (|Parts(l)| == 1 && Parts(l)[0].role == role)
        case _ => Parts(l) == [])
    && (l.entry.state == Init <==> l.entry.addrPub == 0)
    && l.entry.id in {0, l.client.id} && l.client.state != Looking
    && (forall k :: 0 <= k < |l.down| ==> l.down[k].peer != 0)
    && (forall k :: 0 <= k < |l.up| ==> l.up[k].id == l.client.id)
  }

  lemma NewLineIsOrderly(id: nat)
    ensures Orderly(NewLine(id)) && Parts(NewLine(id)) == []
  {
    OneReport(Register(id, false));
    NewLineIs(id);
  }

  /** A client's own steps move its part, if any, from the client to the connection. */
  lemma ActingKeepsParts(l: Line, r: (Client, Option<Up>))
    requires Orderly(l) && r.0.id == l.client.id && r.0.state != Looking && (r.1.Some? ==> r.1.value.id == l.client.id)
    requires ClientParts(r.0) + (if r.1.Some? then ReportParts([r.1.value]) else []) == ClientParts(l.client)
    ensures Orderly(Acted(l, r)) && Parts(Acted(l, r)) == Parts(l)
  {
    hide ClientParts, ReportParts, StartParts;
    assert |Parts(l)| <= 1;
    if r.1.Some? {
      ReportPartsJoin(l.up, [r.1.value]);
      MovesBehind(StartParts(l.down), ClientParts(r.0), ReportParts([r.1.value]), ReportParts(l.up));
    }
  }

  /** When there is at most one part in all, a part may move behind the others. */
  lemma MovesBehind<T>(a: seq<T>, b: seq<T>, c: seq<T>, d: seq<T>)
    requires |a + (b + c) + d| <= 1
    ensures a + b + (d + c) == a + (b + c) + d
  {
  }

  lemma SenderTickKeepsParts(l: Line, over: bool)
    requires Orderly(l)
    ensures Orderly(Acted(l, SenderTick(l.client, over))) && Parts(Acted(l, SenderTick(l.client, over))) == Parts(l)
  {
    match l.client.state {
      case Closing(test) => OneReport(Report(l.client.id, Sender, test));
      case _ =>
    }
    ActingKeepsParts(l, SenderTick(l.client, over));
  }

  lemma ReceiverTimeoutKeepsParts(l: Line)
    requires Orderly(l)
    ensures Orderly(Acted(l, ReceiverTimeout(l.client))) && Parts(Acted(l, ReceiverTimeout(l.client))) == Parts(l)
  {
    match l.client.state {
      case Data(role, test, _) => OneReport(Report(l.client.id, Receiver, test));
      case _ =>
    }
    ActingKeepsParts(l, ReceiverTimeout(l.client));
  }

  lemma RegistrationKeepsParts(l: Line)
    requires Orderly(l)
    ensures Orderly(Acted(l, Wrapper(l.client, true))) && Parts(Acted(l, Wrapper(l.client, true))) == Parts(l)
  {
    OneReport(Registration(l.client));
    ActingKeepsParts(l, Wrapper(l.client, true));
  }

  /** A client that gets a start is connected and not in a test: it runs it if and only if it is the client that is named. */
  lemma StartIsTaken(l: Line)
    requires Orderly(l) && l.down != []
    ensures l.client.state == Connected && l.entry.state == Busy(l.down[0].role) && |l.down| == 1
    ensures if l.down[0].id == l.client.id
            then && Started(l).client.state == Data(l.down[0].role, l.down[0].test, l.down[0].peer)
                 && Orderly(Started(l)) && Parts(Started(l)) == Parts(l)
            else Started(l).client == l.client && Orderly(Started(l)) && Parts(Started(l)) == []
  {
    var a := StartParts(l.down);
    assert a[0] == Parts(l)[0];
    assert |l.down| == 1 && l.down[1..] == [];
    assert ClientParts(l.client) == [] && ReportParts(l.up) == [];
    assert StartParts(l.down[1..]) == [];
    assert Parts(l) == a == [Part(l.down[0].role, l.down[0].test)];
  }

  /** A report that is read is the client's one part, and makes it idle; nothing else that is read changes its parts. */
  lemma ReadingIsOrderly(l: Line)
    requires Orderly(l) && l.up != []
    ensures Orderly(Read(l))
    ensures Accepts(l) <==> l.up[0].Report?
    ensures if Accepts(l)
            then && l.entry.state.Busy? && Parts(l) == [Part(l.up[0].role, l.up[0].test)]
                 && Parts(Read(l)) == [] && Read(l).entry.state == Idle
            else Parts(Read(l)) == Parts(l) && Read(l).entry.state == l.entry.state
  {
    var m, rest := l.up[0], ReportParts(l.up[1..]);
    assert m.id == l.client.id;
    if m.Report? {
      assert ReportParts(l.up) == [Part(m.role, m.test)] + rest;
      assert |Parts(l)| == |StartParts(l.down)| + |ClientParts(l.client)| + 1 + |rest|;
      assert StartParts(l.down) == [] && ClientParts(l.client) == [] && rest == [];
    }
  }

  lemma PairingIsOrderly(l: Line, role: Role, peer: Entry, test: nat)
    requires Orderly(l) && l.entry.state == Idle && peer.addrPub != 0
    ensures var p := Sent(l, Paired(l.entry, role, peer.id), StartFor(l.entry, peer, role, test));
            Orderly(p) && Parts(p) == [Part(role, test)]
  {
    assert l.down == [] by {
      assert |StartParts(l.down)| <= |Parts(l)|;
    }
    assert ClientParts(l.client) == [] && ReportParts(l.up) == [];
    var m := StartFor(l.entry, peer, role, test);
    assert StartParts([m]) == [Part(role, test)];
    assert l.down + [m] == [m];
  }

  lemma ProbingIsOrderly(l: Line, from: nat)
    requires Orderly(l) && from != 0
    ensures var p := l.(entry := Probe(l.entry, from));
            Orderly(p) && Parts(p) == Parts(l)
  {
  }

  // ---------- What always holds of the system ----------

  /** All parts of all lines. */
  function AllParts(lines: seq<Line>): multiset<Part> {
    if lines == [] then multiset{} else multiset(Parts(lines[0])) + AllParts(lines[1..])
  }

  lemma {:induction false} AllPartsAt(lines: seq<Line>, i: nat, l: Line)
    requires i < |lines|
    ensures AllParts(lines[i := l]) + multiset(Parts(lines[i])) == AllParts(lines) + multiset(Parts(l))
  {
    hide Parts;
    if i > 0 {
      assert lines[i := l][1..] == lines[1..][i - 1 := l];
      AllPartsAt(lines[1..], i - 1, l);
      AddInFront(multiset(Parts(lines[0])), AllParts(lines[1..][i - 1 := l]), multiset(Parts(lines[i])), AllParts(lines[1..]),
                 multiset(Parts(l)));
    } else {
      assert lines[i := l][1..] == lines[1..];
    }
  }

  lemma AddInFront<T>(h: multiset<T>, a: multiset<T>, b: multiset<T>, c: multiset<T>, d: multiset<T>)
    requires a + b == c + d
    ensures (h + a) + b == (h + c) + d
  {
    assert (h + a) + b == h + (a + b);
    assert (h + c) + d == h + (c + d);
  }

  /** The parts of the first n tests: one sender and one receiver each. */
  function PartsOfTests(n: nat): multiset<Part> {
    if n == 0 then multiset{} else
    PartsOfTests(n - 1) + multiset{Part(Sender, WireId(n - 1)), Part(Receiver, WireId(n - 1))}
  }

  /** The sum of a number over all lines. */
  function Total(lines: seq<Line>, f: Line -> nat): nat {
    if lines == [] then 0 else f(lines[0]) + Total(lines[1..], f)
  }

  lemma {:induction false} TotalAt(lines: seq<Line>, i: nat, l: Line, f: Line -> nat)
    requires i < |lines|
    ensures Total(lines[i := l], f) + f(lines[i]) == Total(lines, f) + f(l)
  {
    if i > 0 {
      assert lines[i := l][1..] == lines[1..][i - 1 := l];
      TotalAt(lines[1..], i - 1, l, f);
    } else {
      assert lines[i := l][1..] == lines[1..];
    }
  }

  lemma {:induction false} TotalIsZero(lines: seq<Line>, f: Line -> nat)
    ensures Total(lines, f) == 0 <==> forall i :: 0 <= i < |lines| ==> f(lines[i]) == 0
  {
    if lines != [] {
      TotalIsZero(lines[1..], f);
      assert forall i :: 1 <= i < |lines| ==> lines[i] == lines[1..][i - 1];
    }
  }

  /** Marked busy. */
  function BusyIn(l: Line): nat {
    if l.entry.state.Busy? then 1 else 0
  }

  /**
   Over all clients: parts are of tests committed, and every part committed is in a report that
   was accepted or keeps one client busy.
   */
  ghost predicate Invariant(s: System) {
    && (forall i :: 0 <= i < |s.lines| ==> Orderly(s.lines[i]))
    && AllParts(s.lines) + s.reported <= PartsOfTests(s.committed)
    && Total(s.lines, BusyIn) + |s.reported| == 2 * s.committed
  }

  lemma SubCancel<T>(a: multiset<T>, b: multiset<T>, c: multiset<T>, d: multiset<T>, r: multiset<T>, t: multiset<T>)
    requires a + c == b + d && d <= c && b + r <= t
    ensures a + r <= t
  {
    forall x
      ensures (a + r)[x] <= t[x]
    {
      assert (a + c)[x] == (b + d)[x];
      assert (b + r)[x] <= t[x];
    }
  }

  /** A line changes, keeps its mark and gets no new part. */
  lemma LineKeepsInvariant(s: System, i: nat, l: Line)
    requires Invariant(s) && i < |s.lines| && Orderly(l) && (Parts(l) == Parts(s.lines[i]) || Parts(l) == [])
    requires BusyIn(l) == BusyIn(s.lines[i])
    ensures Invariant(s.(lines := s.lines[i := l]))
  {
    hide AllParts, BusyIn, Orderly, Parts, PartsOfTests;
    AllPartsAt(s.lines, i, l);
    TotalAt(s.lines, i, l, BusyIn);
    SubCancel(AllParts(s.lines[i := l]), AllParts(s.lines), multiset(Parts(s.lines[i])), multiset(Parts(l)), s.reported,
              PartsOfTests(s.committed));
  }

  lemma ProbeKeepsInvariant(s: System, id: nat, from: nat)
    requires Invariant(s) && Possible(s, Probed(id, from))
    ensures Invariant(Next(s, Probed(id, from)))
  {
    hide AllParts, Parts, PartsOfTests;
    var i := FindById(Entries(s.lines), id, |s.lines|);
    if i < |s.lines| {
      ProbingIsOrderly(s.lines[i], from);
      LineKeepsInvariant(s, i, s.lines[i].(entry := Probe(s.lines[i].entry, from)));
    }
  }

  lemma CallKeepsInvariant(s: System, a: nat, b: nat)
    requires Invariant(s) && Possible(s, Calls(a, b))
    ensures Invariant(Next(s, Calls(a, b)))
  {
    hide AllParts, Parts, PartsOfTests;
    var l, m, test := s.lines[a], s.lines[b], WireId(s.committed);
    if Available(l.entry, m.entry) {
      PairingIsOrderly(l, Sender, m.entry, test);
      PairingIsOrderly(m, Receiver, l.entry, test);
      PairKeepsInvariant(s, a, b, Sent(l, Paired(l.entry, Sender, m.entry.id), StartFor(l.entry, m.entry, Sender, test)),
                         Sent(m, Paired(m.entry, Receiver, l.entry.id), StartFor(m.entry, l.entry, Receiver, test)));
    }
  }

  lemma PairKeepsInvariant(s: System, a: nat, b: nat, p: Line, q: Line)
    requires Invariant(s) && a < |s.lines| && b < |s.lines| && a != b && Orderly(p) && Orderly(q)
    requires Parts(s.lines[a]) == Parts(s.lines[b]) == [] && BusyIn(s.lines[a]) == BusyIn(s.lines[b]) == 0
    requires Parts(p) == [Part(Sender, WireId(s.committed))] && Parts(q) == [Part(Receiver, WireId(s.committed))]
    requires BusyIn(p) == BusyIn(q) == 1
    ensures Invariant(s.(lines := s.lines[a := p][b := q], committed := s.committed + 1))
  {
    hide AllParts, BusyIn, Orderly, Parts, PartsOfTests;
    AllPartsAt(s.lines, a, p);
    AllPartsAt(s.lines[a := p], b, q);
    TotalAt(s.lines, a, p, BusyIn);
    TotalAt(s.lines[a := p], b, q, BusyIn);
    OneMoreTest(s.committed);
    PartsAdd(AllParts(s.lines), AllParts(s.lines[a := p]), AllParts(s.lines[a := p][b := q]), s.reported, Parts(p)[0], Parts(q)[0]);
    assert s.lines[a := p][b] == s.lines[b];
  }

  lemma OneMoreTest(n: nat)
    ensures PartsOfTests(n + 1) == PartsOfTests(n) + multiset{Part(Sender, WireId(n)), Part(Receiver, WireId(n))}
  {
  }

  lemma PartsAdd<T>(x: multiset<T>, y: multiset<T>, z: multiset<T>, r: multiset<T>, p: T, q: T)
    requires y == x + multiset{p} && z == y + multiset{q}
    ensures z + r == (x + r) + multiset{p, q}
  {
  }

  lemma PartReported<T>(x: multiset<T>, y: multiset<T>, r: multiset<T>, p: T)
    requires x + multiset{p} == y
    ensures x + (r + multiset{p}) == y + r
  {
    assert x + (r + multiset{p}) == (x + multiset{p}) + r;
  }

  lemma ReadKeepsInvariant(s: System, i: nat)
    requires Invariant(s) && Possible(s, ServerReads(i))
    ensures Invariant(Next(s, ServerReads(i)))
  {
    hide AllParts, Orderly, Parts, PartsOfTests, Receive;
    var l := s.lines[i];
    ReadingIsOrderly(l);
    if Accepts(l) {
      AllPartsAt(s.lines, i, Read(l));
      TotalAt(s.lines, i, Read(l), BusyIn);
      PartReported(AllParts(s.lines[i := Read(l)]), AllParts(s.lines), s.reported, Part(l.up[0].role, l.up[0].test));
    } else {
      LineKeepsInvariant(s, i, Read(l));
    }
  }

  lemma ConnectKeepsInvariant(s: System, id: nat)
    requires Invariant(s)
    ensures Invariant(Next(s, Connects(id)))
  {
    hide Parts, Orderly, PartsOfTests;
    NewLineIsOrderly(id);
    assert ([NewLine(id)] + s.lines)[1..] == s.lines;
  }

  /** Every event keeps the invariant. */
  lemma StepKeepsInvariant(s: System, e: Event)
    requires Invariant(s) && Possible(s, e)
    ensures Invariant(Next(s, e))
  {
    hide AllParts, Parts, Orderly, PartsOfTests;
    match e
    case Connects(id) => ConnectKeepsInvariant(s, id);
    case Probed(id, from) => ProbeKeepsInvariant(s, id, from);
    case Calls(a, b) => CallKeepsInvariant(s, a, b);
    case ServerReads(i) => ReadKeepsInvariant(s, i);
    case Registers(i) =>
      RegistrationKeepsParts(s.lines[i]);
      LineKeepsInvariant(s, i, Acted(s.lines[i], Wrapper(s.lines[i].client, true)));
    case ClientReads(i) =>
      StartIsTaken(s.lines[i]);
      LineKeepsInvariant(s, i, Started(s.lines[i]));
    case SenderTimer(i, over) =>
      SenderTickKeepsParts(s.lines[i], over);
      LineKeepsInvariant(s, i, Acted(s.lines[i], SenderTick(s.lines[i].client, over)));
    case ReceiverTimer(i) =>
      ReceiverTimeoutKeepsParts(s.lines[i]);
      LineKeepsInvariant(s, i, Acted(s.lines[i], ReceiverTimeout(s.lines[i].client)));
  }

  // ---------- Runs ----------

  /** The system after n events; an event that is not possible when its turn comes does not happen. */
  function RunFrom(s: System, es: seq<Event>, n: nat): System
    requires n <= |es|
  {
    if n == 0 then s else
    var t := RunFrom(s, es, n - 1);
    if Possible(t, es[n - 1]) then Next(t, es[n - 1]) else t
  }

  function After(es: seq<Event>, n: nat): System
    requires n <= |es|
  {
    RunFrom(START, es, n)
  }

  lemma StartIsInvariant()
    ensures Invariant(START)
  {
  }

  lemma AfterStep(es: seq<Event>, n: nat)
    requires 0 < n <= |es|
    ensures After(es, 0) == START
    ensures After(es, n) == if Possible(After(es, n - 1), es[n - 1]) then Next(After(es, n - 1), es[n - 1]) else After(es, n - 1)
  {
    hide Next, Possible;
  }

  lemma StartIs(es: seq<Event>)
    ensures After(es, 0) == START
  {
  }

  /** Every run keeps it, for any number of clients, whatever their ids, any probes and any interleaving. */
  lemma {:induction false} RunKeepsInvariant(es: seq<Event>, n: nat)
    requires n <= |es|
    ensures Invariant(After(es, n))
  {
    hide After, Invariant, Next, Possible;
    if n == 0 {
      StartIsInvariant();
      StartIs(es);
    } else {
      RunKeepsInvariant(es, n - 1);
      AfterStep(es, n);
      if Possible(After(es, n - 1), es[n - 1]) {
        StepKeepsInvariant(After(es, n - 1), es[n - 1]);
      }
    }
  }

  /** In every run an idle client has a public address, and nothing of a test is anywhere. */
  lemma IdleIsAvailable(es: seq<Event>, n: nat, i: nat)
    requires n <= |es| && i < |After(es, n).lines|
    ensures var l := After(es, n).lines[i];
            l.entry.state == Idle ==>
              l.entry.addrPub != 0 && l.client.state == Connected && l.down == [] && ReportParts(l.up) == []
  {
    hide After, AllParts, PartsOfTests;
    RunKeepsInvariant(es, n);
    var l := After(es, n).lines[i];
    if l.entry.state == Idle {
      assert Parts(l) == [];
      assert |StartParts(l.down)| + |ClientParts(l.client)| + |ReportParts(l.up)| == 0;
    }
  }

  /** Test ids repeat after 2^32 tests and not before. */
  lemma {:induction false} PartsAreOfTests(n: nat, p: Part)
    ensures p in PartsOfTests(n) ==> p.test < n && p.test < TEST_IDS
    ensures n <= TEST_IDS ==> PartsOfTests(n)[p] <= 1
  {
    hide WireId;
    if n > 0 {
      PartsAreOfTests(n - 1, p);
      CountOfTwo(Part(Sender, WireId(n - 1)), Part(Receiver, WireId(n - 1)), p);
    }
  }

  lemma CountOfTwo(a: Part, b: Part, p: Part)
    requires a != b
    ensures multiset{a, b}[p] == if p == a || p == b then 1 else 0
  {
  }

  lemma {:induction false} PartsGrow(m: nat, n: nat, p: Part)
    requires m <= n
    ensures PartsOfTests(m)[p] <= PartsOfTests(n)[p]
  {
    hide WireId;
    if m < n {
      PartsGrow(m, n - 1, p);
    }
  }

  lemma FirstIdReturns()
    ensures PartsOfTests(TEST_IDS + 1)[Part(Sender, 0)] >= 2
  {
    hide PartsOfTests;
    OneMoreTest(0);
    PartsGrow(1, TEST_IDS, Part(Sender, 0));
    OneMoreTest(TEST_IDS);
  }

  lemma TestIdsAreUnique(n: nat)
    ensures (forall p :: PartsOfTests(n)[p] <= 1) <==> n <= TEST_IDS
  {
    hide PartsOfTests;
    if n <= TEST_IDS {
      forall p
        ensures PartsOfTests(n)[p] <= 1
      {
        PartsAreOfTests(n, p);
      }
    } else {
      FirstIdReturns();
      PartsGrow(TEST_IDS + 1, n, Part(Sender, 0));
    }
  }

  /** Up to 2^32 tests, the server accepts at most one report of each kind for a test, and only for tests it committed. */
  lemma AtMostOneReport(es: seq<Event>, n: nat, p: Part)
    requires n <= |es| && After(es, n).committed <= TEST_IDS
    ensures After(es, n).reported[p] <= 1
    ensures p in After(es, n).reported ==> p.test < After(es, n).committed
  {
    hide After, AllParts, PartsOfTests, Orderly;
    RunKeepsInvariant(es, n);
    var s := After(es, n);
    PartsAreOfTests(s.committed, p);
    assert (AllParts(s.lines) + s.reported)[p] <= PartsOfTests(s.committed)[p];
  }

  lemma {:induction false} TwoParts(n: nat)
    ensures |PartsOfTests(n)| == 2 * n
  {
    hide WireId;
    if n > 0 {
      TwoParts(n - 1);
    }
  }

  lemma SameSize<T>(a: multiset<T>, b: multiset<T>)
    requires a <= b
    ensures a == b <==> |a| == |b|
  {
    assert b == a + (b - a);
    if |a| == |b| {
      assert |b - a| == 0;
    }
  }

  /** The reports are all there exactly when no client is marked busy. */
  lemma AllTestsReported(es: seq<Event>, n: nat)
    requires n <= |es|
    ensures var s := After(es, n);
            s.reported == PartsOfTests(s.committed)
            <==> forall i :: 0 <= i < |s.lines| ==> !s.lines[i].entry.state.Busy?
  {
    hide After, AllParts, PartsOfTests, Parts;
    RunKeepsInvariant(es, n);
    var s := After(es, n);
    TwoParts(s.committed);
    assert s.reported <= AllParts(s.lines) + s.reported;
    SameSize(s.reported, PartsOfTests(s.committed));
    TotalIsZero(s.lines, BusyIn);
    assert forall i :: 0 <= i < |s.lines| ==> (BusyIn(s.lines[i]) == 0 <==> !s.lines[i].entry.state.Busy?);
  }

  // ---------- Starts that are ignored ----------

  /** The call finds the id of each of its clients in the client's entry. */
  predicate NamesClients(s: System, e: Event)
    requires Possible(s, e)
  {
    match e
    case Calls(a, b) => Available(s.lines[a].entry, s.lines[b].entry) ==> Unnamed(s.lines[a]) == Unnamed(s.lines[b]) == 0
    case _ => true
  }

  function Unnamed(l: Line): nat {
    if l.entry.id == l.client.id then 0 else 1
  }

  /** The starts it sends that do not name the client they go to. */
  function Misnames(s: System, e: Event): nat
    requires Possible(s, e)
  {
    match e
    case Calls(a, b) =>
      if Available(s.lines[a].entry, s.lines[b].entry) then Unnamed(s.lines[a]) + Unnamed(s.lines[b]) else 0
    case _ => 0
  }

  /** A client reads a start and goes on as before. */
  predicate Ignores(s: System, e: Event)
    requires Possible(s, e)
  {
    e.ClientReads? && Started(s.lines[e.i]).client == s.lines[e.i].client
  }

  /** The starts ignored in the first n events. */
  function Ignored(es: seq<Event>, n: nat): nat
    requires n <= |es|
  {
    if n == 0 then 0 else
    var s := After(es, n - 1);
    Ignored(es, n - 1) + if Possible(s, es[n - 1]) && Ignores(s, es[n - 1]) then 1 else 0
  }

  /** The starts sent in the first n events that do not name their client. */
  function Misnamed(es: seq<Event>, n: nat): nat
    requires n <= |es|
  {
    if n == 0 then 0 else
    var s := After(es, n - 1);
    Misnamed(es, n - 1) + if Possible(s, es[n - 1]) then Misnames(s, es[n - 1]) else 0
  }

  /** Every call of the first n events names its clients. */
  ghost predicate NamedRun(es: seq<Event>, n: nat)
    requires n <= |es|
  {
    forall m {:trigger After(es, m)} :: 0 <= m < n && Possible(After(es, m), es[m]) ==> NamesClients(After(es, m), es[m])
  }

  lemma {:induction false} NamedIsNoneMisnamed(es: seq<Event>, n: nat)
    requires n <= |es|
    ensures NamedRun(es, n) <==> Misnamed(es, n) == 0
  {
    hide After, Possible;
    if n > 0 {
      NamedIsNoneMisnamed(es, n - 1);
    }
  }

  /** Marked busy with no part in any test. */
  predicate Lost(l: Line) {
    l.entry.state.Busy? && Parts(l) == []
  }

  function LostIn(l: Line): nat {
    if Lost(l) then 1 else 0
  }

  function MisnamedTo(id: nat, down: seq<Start>): nat {
    if down == [] then 0 else MisnamedTo(id, down[1..]) + if down[0].id == id then 0 else 1
  }

  /** The starts under way to a client that do not name it. */
  function MisnamedIn(l: Line): nat {
    MisnamedTo(l.client.id, l.down)
  }

  lemma StartChangesCounts(l: Line)
    requires Orderly(l) && l.down != []
    ensures if l.down[0].id == l.client.id
            then Started(l).client != l.client && LostIn(Started(l)) == LostIn(l) && MisnamedIn(Started(l)) == MisnamedIn(l) == 0
            else && Started(l).client == l.client && LostIn(l) == 0 && LostIn(Started(l)) == 1
                 && MisnamedIn(l) == 1 && MisnamedIn(Started(l)) == 0
  {
    hide Parts;
    StartIsTaken(l);
    PartOfStart(l);
    assert l.down[1..] == [];
    assert MisnamedTo(l.client.id, l.down[1..]) == 0;
  }

  lemma PartOfStart(l: Line)
    requires l.down != []
    ensures Parts(l) != []
  {
    assert Parts(l)[0] == StartParts(l.down)[0];
  }

  lemma PairingChangesCounts(l: Line, role: Role, peer: Entry, test: nat)
    requires Orderly(l) && l.entry.state == Idle && peer.addrPub != 0
    ensures var p := Sent(l, Paired(l.entry, role, peer.id), StartFor(l.entry, peer, role, test));
            LostIn(l) == LostIn(p) == 0 && MisnamedIn(l) == 0 && MisnamedIn(p) == Unnamed(l)
  {
    PairingIsOrderly(l, role, peer, test);
    assert l.down == [] by {
      assert |StartParts(l.down)| <= |Parts(l)|;
    }
    var m := StartFor(l.entry, peer, role, test);
    assert [] + [m] == [m] && [m][1..] == [];
    assert MisnamedTo(l.client.id, [m][1..]) == 0;
  }

  /** Changes of a line that keep its mark, its parts and the starts under way count for nothing. */
  lemma CountsStay(l: Line, p: Line)
    requires BusyIn(l) == BusyIn(p) && Parts(l) == Parts(p) && l.down == p.down && l.client.id == p.client.id
    ensures LostIn(p) == LostIn(l) && MisnamedIn(p) == MisnamedIn(l)
  {
    hide Parts;
  }

  lemma ReadingKeepsCounts(l: Line)
    requires Orderly(l) && l.up != []
    ensures LostIn(Read(l)) == LostIn(l) && MisnamedIn(Read(l)) == MisnamedIn(l)
  {
    hide Parts;
    ReadingIsOrderly(l);
  }

  lemma CountsAt(s: System, i: nat, l: Line)
    requires i < |s.lines| && LostIn(l) == LostIn(s.lines[i]) && MisnamedIn(l) == MisnamedIn(s.lines[i])
    ensures Total(s.lines[i := l], LostIn) == Total(s.lines, LostIn)
    ensures Total(s.lines[i := l], MisnamedIn) == Total(s.lines, MisnamedIn)
  {
    hide LostIn, MisnamedIn;
    TotalAt(s.lines, i, l, LostIn);
    TotalAt(s.lines, i, l, MisnamedIn);
  }

  /** Exactly the ignored starts lose a client; they come from those that did not name theirs. */
  ghost predicate Counted(s: System, e: Event, t: System)
    requires Possible(s, e)
  {
    var ignored := if Ignores(s, e) then 1 else 0;
    && Total(t.lines, LostIn) == Total(s.lines, LostIn) + ignored
    && Total(t.lines, MisnamedIn) + ignored == Total(s.lines, MisnamedIn) + Misnames(s, e)
  }

  lemma CallIsCounted(s: System, a: nat, b: nat)
    requires Invariant(s) && Possible(s, Calls(a, b))
    ensures Counted(s, Calls(a, b), Next(s, Calls(a, b)))
  {
    hide AllParts, LostIn, MisnamedIn, Parts, PartsOfTests, Unnamed;
    var l, m, test := s.lines[a], s.lines[b], WireId(s.committed);
    if Available(l.entry, m.entry) {
      PairingChangesCounts(l, Sender, m.entry, test);
      PairingChangesCounts(m, Receiver, l.entry, test);
      var p := Sent(l, Paired(l.entry, Sender, m.entry.id), StartFor(l.entry, m.entry, Sender, test));
      var q := Sent(m, Paired(m.entry, Receiver, l.entry.id), StartFor(m.entry, l.entry, Receiver, test));
      TotalAt(s.lines, a, p, LostIn);
      TotalAt(s.lines, a, p, MisnamedIn);
      TotalAt(s.lines[a := p], b, q, LostIn);
      TotalAt(s.lines[a := p], b, q, MisnamedIn);
      assert s.lines[a := p][b] == m;
    }
  }

  lemma StartIsCounted(s: System, i: nat)
    requires Invariant(s) && Possible(s, ClientReads(i))
    ensures Counted(s, ClientReads(i), Next(s, ClientReads(i)))
    ensures Ignores(s, ClientReads(i)) <==> s.lines[i].down[0].id != s.lines[i].client.id
  {
    hide AllParts, LostIn, MisnamedIn, Parts, PartsOfTests, Take;
    StartChangesCounts(s.lines[i]);
    TotalAt(s.lines, i, Started(s.lines[i]), LostIn);
    TotalAt(s.lines, i, Started(s.lines[i]), MisnamedIn);
  }

  lemma ProbeIsCounted(s: System, id: nat, from: nat)
    requires Invariant(s) && Possible(s, Probed(id, from))
    ensures Counted(s, Probed(id, from), Next(s, Probed(id, from)))
  {
    hide AllParts, LostIn, MisnamedIn, Parts, PartsOfTests;
    var i := FindById(Entries(s.lines), id, |s.lines|);
    if i < |s.lines| {
      var p := s.lines[i].(entry := Probe(s.lines[i].entry, from));
      SameParts(s.lines[i], p.entry);
      CountsStay(s.lines[i], p);
      CountsAt(s, i, p);
    }
  }

  lemma ConnectIsCounted(s: System, id: nat)
    ensures Counted(s, Connects(id), Next(s, Connects(id)))
  {
    hide Parts;
    NewLineIsOrderly(id);
    NewLineIs(id);
    assert ([NewLine(id)] + s.lines)[1..] == s.lines;
  }

  lemma StepIsCounted(s: System, e: Event)
    requires Invariant(s) && Possible(s, e)
    ensures Counted(s, e, Next(s, e))
  {
    hide AllParts, LostIn, MisnamedIn, Orderly, Parts, PartsOfTests, Receive, Wrapper, SenderTick, ReceiverTimeout;
    match e
    case Connects(id) => ConnectIsCounted(s, id);
    case Probed(id, from) => ProbeIsCounted(s, id, from);
    case Calls(a, b) => CallIsCounted(s, a, b);
    case ClientReads(i) => StartIsCounted(s, i);
    case ServerReads(i) =>
      ReadingKeepsCounts(s.lines[i]);
      CountsAt(s, i, Read(s.lines[i]));
    case Registers(i) =>
      RegistrationKeepsParts(s.lines[i]);
      ActingKeepsId(s.lines[i].client, true);
      ActedIsCounted(s, i, Wrapper(s.lines[i].client, true));
    case SenderTimer(i, over) =>
      SenderTickKeepsParts(s.lines[i], over);
      ActingKeepsId(s.lines[i].client, over);
      ActedIsCounted(s, i, SenderTick(s.lines[i].client, over));
    case ReceiverTimer(i) =>
      ReceiverTimeoutKeepsParts(s.lines[i]);
      ActingKeepsId(s.lines[i].client, true);
      ActedIsCounted(s, i, ReceiverTimeout(s.lines[i].client));
  }

  lemma ActingKeepsId(c: Client, over: bool)
    ensures Wrapper(c, true).0.id == SenderTick(c, over).0.id == ReceiverTimeout(c).0.id == c.id
  {
  }

  lemma ActedIsCounted(s: System, i: nat, r: (Client, Option<Up>))
    requires i < |s.lines| && Parts(Acted(s.lines[i], r)) == Parts(s.lines[i]) && r.0.id == s.lines[i].client.id
    ensures Total(s.lines[i := Acted(s.lines[i], r)], LostIn) == Total(s.lines, LostIn)
    ensures Total(s.lines[i := Acted(s.lines[i], r)], MisnamedIn) == Total(s.lines, MisnamedIn)
  {
    hide LostIn, MisnamedIn, Parts;
    CountsStay(s.lines[i], Acted(s.lines[i], r));
    CountsAt(s, i, Acted(s.lines[i], r));
  }

  /** The starts ignored are those that did not name their client and have been read; each has cost a client. */
  lemma {:induction false} StartsIgnored(es: seq<Event>, n: nat)
    requires n <= |es|
    ensures Total(After(es, n).lines, LostIn) == Ignored(es, n)
    ensures Total(After(es, n).lines, MisnamedIn) + Ignored(es, n) == Misnamed(es, n)
  {
    hide After, Invariant, Next, Possible, LostIn, MisnamedIn, Ignores, Misnames;
    if n == 0 {
      StartIs(es);
    } else {
      StartsIgnored(es, n - 1);
      RunKeepsInvariant(es, n - 1);
      AfterStep(es, n);
      if Possible(After(es, n - 1), es[n - 1]) {
        StepIsCounted(After(es, n - 1), es[n - 1]);
      }
    }
  }

  /**
   In every run, a start that is read is taken if and only if it names its client; then the
   client was waiting for it and runs the test.
   */
  lemma StartsAreTaken(es: seq<Event>, n: nat, i: nat)
    requires n <= |es| && Possible(After(es, n), ClientReads(i))
    ensures var l := After(es, n).lines[i];
            && l.client.state == Connected && l.entry.state == Busy(l.down[0].role)
            && (Ignores(After(es, n), ClientReads(i)) <==> l.down[0].id != l.client.id)
            && (!Ignores(After(es, n), ClientReads(i)) ==>
                  Started(l).client.state == Data(l.down[0].role, l.down[0].test, l.down[0].peer))
  {
    hide After, AllParts, Orderly, PartsOfTests, Take;
    RunKeepsInvariant(es, n);
    StartIsTaken(After(es, n).lines[i]);
    StartIsCounted(After(es, n), i);
  }

  /** No start is or will be ignored if and only if every call named its clients. */
  lemma NoStartIsIgnored(es: seq<Event>, n: nat)
    requires n <= |es|
    ensures NamedRun(es, n)
            <==> Ignored(es, n) == 0 && forall i :: 0 <= i < |After(es, n).lines| ==> MisnamedIn(After(es, n).lines[i]) == 0
  {
    hide After, MisnamedIn, LostIn, NamedRun;
    StartsIgnored(es, n);
    NamedIsNoneMisnamed(es, n);
    TotalIsZero(After(es, n).lines, MisnamedIn);
  }

  lemma {:induction false} PartsOfBusy(lines: seq<Line>)
    requires forall i :: 0 <= i < |lines| ==> Orderly(lines[i])
    ensures |AllParts(lines)| + Total(lines, LostIn) == Total(lines, BusyIn)
  {
    hide Parts;
    if lines != [] {
      PartsOfBusy(lines[1..]);
      assert |multiset(Parts(lines[0]))| == |Parts(lines[0])|;
    }
  }

  /** The parts of all tests are there, under way, being run or reported, if and only if no start was ignored. */
  lemma TestsAreConserved(es: seq<Event>, n: nat)
    requires n <= |es|
    ensures var s := After(es, n);
            AllParts(s.lines) + s.reported == PartsOfTests(s.committed) <==> Ignored(es, n) == 0
  {
    hide After, AllParts, LostIn, Orderly, PartsOfTests;
    RunKeepsInvariant(es, n);
    StartsIgnored(es, n);
    var s := After(es, n);
    PartsOfBusy(s.lines);
    TwoParts(s.committed);
    SameSize(AllParts(s.lines) + s.reported, PartsOfTests(s.committed));
    assert |AllParts(s.lines) + s.reported| == |AllParts(s.lines)| + |s.reported|;
  }

  // ---------- How a call comes to name nobody ----------

  /** An entry out of its initial state has its client's id. */
  predicate KnownIn(l: Line) {
    l.entry.state != Init ==> l.entry.id == l.client.id
  }

  ghost predicate Known(s: System) {
    forall i :: 0 <= i < |s.lines| ==> KnownIn(s.lines[i])
  }

  lemma ReadingKeepsKnown(l: Line)
    requires Orderly(l) && l.up != [] && KnownIn(l)
    ensures KnownIn(Read(l))
  {
    hide Parts;
    ReadingIsOrderly(l);
  }

  lemma ProbeKeepsKnown(s: System, id: nat, from: nat)
    requires Invariant(s) && Known(s) && Possible(s, Probed(id, from)) && id != 0
    ensures Known(Next(s, Probed(id, from)))
  {
    hide AllParts, Parts, PartsOfTests;
    var i := FindById(Entries(s.lines), id, |s.lines|);
    if i < |s.lines| {
      assert s.lines[i].entry.id == s.lines[i].client.id;
    }
  }

  lemma StepKeepsKnown(s: System, e: Event)
    requires Invariant(s) && Known(s) && Possible(s, e) && (e.Probed? ==> e.id != 0)
    ensures NamesClients(s, e) && Known(Next(s, e))
  {
    hide AllParts, Orderly, Parts, PartsOfTests, Read, Started;
    match e
    case Connects(id) => NewLineIs(id);
    case Probed(id, from) => ProbeKeepsKnown(s, id, from);
    case Calls(_, _) =>
    case ServerReads(i) => ReadingKeepsKnown(s.lines[i]);
    case ClientReads(i) => StartedKeepsEntry(s.lines[i]);
    case Registers(i) => ActingKeepsId(s.lines[i].client, true);
    case SenderTimer(i, over) => ActingKeepsId(s.lines[i].client, over);
    case ReceiverTimer(i) => ActingKeepsId(s.lines[i].client, true);
  }

  lemma StartedKeepsEntry(l: Line)
    requires l.down != []
    ensures Started(l).entry == l.entry && Started(l).client.id == l.client.id
  {
  }

  /** As long as probes name ids other than 0, calls name their clients. */
  lemma {:induction false} NamedProbesNameClients(es: seq<Event>, n: nat)
    requires n <= |es| && forall m :: 0 <= m < n && es[m].Probed? ==> es[m].id != 0
    ensures NamedRun(es, n) && Known(After(es, n))
  {
    hide After, Invariant, Known, NamesClients, Next, Possible;
    if n == 0 {
      StartIs(es);
      NobodyIsUnknown();
    } else {
      NamedProbesNameClients(es, n - 1);
      RunKeepsInvariant(es, n - 1);
      AfterStep(es, n);
      if Possible(After(es, n - 1), es[n - 1]) {
        StepKeepsKnown(After(es, n - 1), es[n - 1]);
      }
    }
  }

  lemma NobodyIsUnknown()
    ensures Known(START)
  {
  }

  /** The k-th client that connected; lines are numbered from the other end. */
  function LineOf(s: System, k: nat): Line
    requires 0 < k <= |s.lines|
  {
    s.lines[|s.lines| - k]
  }

  /** One more test than before, and client i, still in the state it was in, is lost. */
  predicate HasLost(s: System, v: System, i: nat) {
    && i < |v.lines| == |s.lines| && v.committed == s.committed + 1
    && v.lines[i].client == s.lines[i].client && Lost(v.lines[i])
  }

  /** A call of a client whose id the server does not have loses it, as soon as it reads the start. */
  lemma MisnamedCallLosesClient(s: System, i: nat, j: nat)
    requires Invariant(s) && i < |s.lines| && j < |s.lines| && i != j
    requires Available(s.lines[i].entry, s.lines[j].entry) && Unnamed(s.lines[i]) == 1
    ensures Possible(Next(s, Calls(i, j)), ClientReads(i))
    ensures HasLost(s, Next(Next(s, Calls(i, j)), ClientReads(i)), i)
  {
    hide AllParts, Parts, PartsOfTests;
    var l, e := s.lines[i], s.lines[j].entry;
    NoPartsWhenFree(l);
    PairingIsOrderly(l, Sender, e, WireId(s.committed));
    var p := Sent(l, Paired(l.entry, Sender, e.id), StartFor(l.entry, e, Sender, WireId(s.committed)));
    assert Next(s, Calls(i, j)).lines[i] == p;
    StartIsTaken(p);
  }

  /** The first entry without an id is that of client i, which has an id and is not busy. */
  predicate FoundWithoutId(s: System, i: nat) {
    && i < |s.lines| && i == FindById(Entries(s.lines), 0, |s.lines|)
    && s.lines[i].client.id != 0 && !s.lines[i].entry.state.Busy?
  }

  /** Client i is idle in t without the server having its id, and all else is as in s. */
  predicate MadeIdle(s: System, t: System, i: nat) {
    && i < |t.lines| == |s.lines| && t.committed == s.committed
    && t.lines[i].client == s.lines[i].client && t.lines[i].entry.state == Idle && Unnamed(t.lines[i]) == 1
    && forall k :: 0 <= k < |s.lines| && k != i ==> t.lines[k] == s.lines[k]
  }

  lemma ProbeMakesIdle(s: System, i: nat, from: nat)
    requires Invariant(s) && from != 0 && FoundWithoutId(s, i)
    ensures MadeIdle(s, Next(s, Probed(0, from)), i)
  {
    hide AllParts, Parts, PartsOfTests;
    NoPartsWhenFree(s.lines[i]);
  }

  /**
   A probe with id 0 that finds a client which has not registered makes it idle; a call then
   sends it a start with id 0, which it ignores, and the client is lost.
   */
  lemma ProbeWithoutIdLosesClient(s: System, i: nat, j: nat, from: nat)
    requires Invariant(s) && from != 0 && FoundWithoutId(s, i)
    requires j < |s.lines| && i != j && s.lines[j].entry.state == Idle
    ensures HasLost(s, RunFrom(s, [Probed(0, from), Calls(i, j), ClientReads(i)], 3), i)
  {
    hide Invariant, Lost, FoundWithoutId;
    ProbeMakesIdle(s, i, from);
    var t := Next(s, Probed(0, from));
    StepKeepsInvariant(s, Probed(0, from));
    MisnamedCallLosesClient(t, i, j);
    ThreeSteps(s, Probed(0, from), Calls(i, j), ClientReads(i));
  }

  lemma ThreeSteps(s: System, a: Event, b: Event, c: Event)
    requires Possible(s, a) && Possible(Next(s, a), b) && Possible(Next(Next(s, a), b), c)
    ensures RunFrom(s, [a, b, c], 3) == Next(Next(Next(s, a), b), c)
  {
    hide Next, Possible;
    assert RunFrom(s, [a, b, c], 0) == s;
    assert RunFrom(s, [a, b, c], 1) == Next(s, a);
    assert RunFrom(s, [a, b, c], 2) == Next(Next(s, a), b);
  }

  lemma NoPartsWhenFree(l: Line)
    requires Orderly(l) && !l.entry.state.Busy?
    ensures l.down == [] && ClientParts(l.client) == [] && ReportParts(l.up) == []
    ensures l.entry.state == Init <==> l.entry.addrPub == 0
  {
    assert |StartParts(l.down)| + |ClientParts(l.client)| + |ReportParts(l.up)| == |Parts(l)|;
  }

  // ---------- A lost client stays lost ----------

  lemma NoReportsRead(up: seq<Up>)
    requires up != [] && ReportParts(up) == []
    ensures up[0].Register? && ReportParts(up[1..]) == []
  {
  }

  lemma LostHasNothing(l: Line)
    requires Lost(l)
    ensures l.down == [] && ClientParts(l.client) == [] && ReportParts(l.up) == []
  {
    assert |StartParts(l.down)| + |ClientParts(l.client)| + |ReportParts(l.up)| == |Parts(l)|;
  }

  lemma LostIsRead(l: Line)
    requires Lost(l) && l.up != []
    ensures Lost(Read(l))
  {
    LostHasNothing(l);
    NoReportsRead(l.up);
  }

  lemma LostActs(l: Line, over: bool)
    requires Lost(l)
    ensures Lost(Acted(l, Wrapper(l.client, true)))
    ensures Lost(Acted(l, SenderTick(l.client, over))) && Lost(Acted(l, ReceiverTimeout(l.client)))
  {
    LostHasNothing(l);
    var m := Wrapper(l.client, true).1.value;
    ReportPartsJoin(l.up, [m]);
    OneReport(m);
  }

  lemma SameParts(l: Line, e: Entry)
    ensures Parts(l.(entry := e)) == Parts(l)
  {
  }

  lemma LostIsProbed(l: Line, from: nat)
    requires Lost(l)
    ensures Lost(l.(entry := Probe(l.entry, from)))
  {
    hide Parts;
    SameParts(l, Probe(l.entry, from));
  }

  /** What an event can do to a lost client's line. */
  lemma LineKeepsLost(s: System, e: Event, i: nat)
    requires i < |s.lines| && Lost(s.lines[i]) && Possible(s, e) && !e.Connects?
    ensures |Next(s, e).lines| == |s.lines| && Lost(Next(s, e).lines[i])
  {
    hide Lost, Parts, Receive, Wrapper, SenderTick, ReceiverTimeout, Probe;
    var l := s.lines[i];
    LostIsBusy(l);
    LostActs(l, e.SenderTimer? && e.over);
    if l.up != [] {
      LostIsRead(l);
    }
    if e.Probed? {
      LostIsProbed(l, e.from);
    }
  }

  lemma LostIsBusy(l: Line)
    requires Lost(l)
    ensures l.entry.state.Busy? && l.down == []
  {
    LostHasNothing(l);
  }

  lemma StepKeepsLost(s: System, e: Event, k: nat)
    requires 0 < k <= |s.lines| && Lost(LineOf(s, k)) && Possible(s, e)
    ensures k <= |Next(s, e).lines| && Lost(LineOf(Next(s, e), k))
  {
    hide Lost;
    if !e.Connects? {
      LineKeepsLost(s, e, |s.lines| - k);
    }
  }

  /** Nothing will ever make it idle again. */
  lemma {:induction false} LostForever(s: System, es: seq<Event>, n: nat, k: nat)
    requires n <= |es| && 0 < k <= |s.lines| && Lost(LineOf(s, k))
    ensures k <= |RunFrom(s, es, n).lines| && Lost(LineOf(RunFrom(s, es, n), k))
  {
    hide Lost, LineOf, Next, Possible;
    if n > 0 {
      LostForever(s, es, n - 1, k);
      var t := RunFrom(s, es, n - 1);
      if Possible(t, es[n - 1]) {
        StepKeepsLost(t, es[n - 1], k);
      }
    }
  }

  // ---------- The recorded peer ----------

  /** The server reads a registration of client k that says it is not busy. */
  predicate ReadsIdle(s: System, e: Event, k: nat)
    requires 0 < k <= |s.lines|
  {
    && e == ServerReads(|s.lines| - k) && LineOf(s, k).up != []
    && var l := LineOf(s, k);
       (l.entry.id == 0 || l.up[0].id == l.entry.id) && l.up[0].Register? && !l.up[0].busy
  }

  ghost predicate ReadsIdleWithin(s: System, es: seq<Event>, n: nat, k: nat)
    requires n <= |es| && 0 < k <= |s.lines|
    decreases n
  {
    if n == 0 then false else
    RunGrowsOnly(s, es, n - 1);
    ReadsIdleWithin(s, es, n - 1, k) || ReadsIdle(RunFrom(s, es, n - 1), es[n - 1], k)
  }

  lemma {:induction false} RunGrowsOnly(s: System, es: seq<Event>, n: nat)
    requires n <= |es|
    ensures |s.lines| <= |RunFrom(s, es, n).lines|
  {
    if n > 0 {
      RunGrowsOnly(s, es, n - 1);
    }
  }

  /** Client k is marked busy after each of the first n events. */
  ghost predicate BusyThroughout(s: System, es: seq<Event>, n: nat, k: nat)
    requires n <= |es| && 0 < k <= |s.lines|
    decreases n
  {
    RunGrowsOnly(s, es, n);
    (n == 0 || BusyThroughout(s, es, n - 1, k)) && LineOf(RunFrom(s, es, n), k).entry.state.Busy?
  }

  lemma StepAndPeer(s: System, e: Event, k: nat)
    requires 0 < k <= |s.lines| && Possible(s, e) && LineOf(s, k).entry.state.Busy?
    ensures k <= |Next(s, e).lines|
    ensures LineOf(Next(s, e), k).entry.state.Busy? ==>
              LineOf(Next(s, e), k).entry.peer == if ReadsIdle(s, e, k) then 0 else LineOf(s, k).entry.peer
  {
    hide AllParts;
  }

  /**
   While a client stays busy its recorded peer is the one of the call, exactly until the server
   reads a registration that says it is not busy; from then on it is 0.
   */
  lemma {:induction false} PeerWhileBusy(s: System, es: seq<Event>, n: nat, k: nat)
    requires n <= |es| && 0 < k <= |s.lines| && BusyThroughout(s, es, n, k)
    ensures k <= |RunFrom(s, es, n).lines|
    ensures LineOf(RunFrom(s, es, n), k).entry.peer
            == if ReadsIdleWithin(s, es, n, k) then 0 else LineOf(s, k).entry.peer
  {
    hide LineOf, Next, Possible, ReadsIdle;
    RunGrowsOnly(s, es, n);
    if n > 0 {
      PeerWhileBusy(s, es, n - 1, k);
      var t := RunFrom(s, es, n - 1);
      if Possible(t, es[n - 1]) {
        StepAndPeer(t, es[n - 1], k);
      } else {
        NothingRead(t, es[n - 1], k);
      }
    }
  }

  lemma NothingRead(s: System, e: Event, k: nat)
    requires 0 < k <= |s.lines| && !Possible(s, e)
    ensures !ReadsIdle(s, e, k)
  {
  }

  lemma NewLineIs(id: nat)
    ensures NewLine(id) == Line(UNKNOWN, Client(id, Connected), [], [Register(id, false)])
  {
  }

  lemma IdleLine(l: Line)
    requires Orderly(l) && l.entry.state == Idle
    ensures l.client.state == Connected && l.entry.id in {0, l.client.id} && l.down == [] && ReportParts(l.up) == []
  {
    assert Parts(l) == [];
    assert |StartParts(l.down)| + |ClientParts(l.client)| + |ReportParts(l.up)| == 0;
  }

  /** The next message of a busy client will make the server forget its peer. */
  predicate AboutToForget(s: System, i: nat) {
    && i < |s.lines| && s.lines[i].up != [] && s.lines[i].entry.state == Busy(Sender)
    && Read(s.lines[i]).entry.state == Busy(Sender) && Read(s.lines[i]).entry.peer == 0
  }

  /** Any two idle clients can come to this: one of them registers shortly before it is called, */
  lemma PeerForgottenBefore(s: System, i: nat, j: nat)
    requires Invariant(s) && i < |s.lines| && j < |s.lines| && i != j && s.lines[i].up == []
    requires Available(s.lines[i].entry, s.lines[j].entry)
    ensures AboutToForget(RunFrom(s, [Registers(i), Calls(i, j)], 2), i)
  {
    hide AllParts, Orderly, PartsOfTests;
    var es, l := [Registers(i), Calls(i, j)], s.lines[i];
    IdleLine(l);
    var r, t := Register(l.client.id, false), Next(s, es[0]);
    assert RunFrom(s, es, 1) == t by {
      assert RunFrom(s, es, 0) == s;
    }
    assert t.lines[i] == l.(up := [r]) && t.lines[j] == s.lines[j];
    var u := Next(t, es[1]);
    assert u.lines[i].up == [r] && u.lines[i].entry.id == l.entry.id;
  }

  /** or after the call and before it has read the start. */
  lemma PeerForgottenAfter(s: System, i: nat, j: nat)
    requires Invariant(s) && i < |s.lines| && j < |s.lines| && i != j && s.lines[i].up == []
    requires Available(s.lines[i].entry, s.lines[j].entry)
    ensures AboutToForget(RunFrom(s, [Calls(i, j), Registers(i)], 2), i)
  {
    hide AllParts, Orderly, PartsOfTests;
    var es, l := [Calls(i, j), Registers(i)], s.lines[i];
    IdleLine(l);
    var r, t := Register(l.client.id, false), Next(s, es[0]);
    assert RunFrom(s, es, 1) == t by {
      assert RunFrom(s, es, 0) == s;
    }
    assert t.lines[i].up == [] && t.lines[i].client == l.client && t.lines[i].entry.id == l.entry.id;
    var u := Next(t, es[1]);
    assert u.lines[i].up == [r] && u.lines[i].entry.id == l.entry.id;
  }

  // ---------- What a start says ----------

  /** Client k was called, in that role, by an event: the start names the id its entry has, the test, and its peer's address. */
  predicate CalledBy(s: System, e: Event, k: nat, m: Start) {
    && e.Calls? && Possible(s, e) && 0 < k <= |s.lines|
    && var a, b := s.lines[e.index1].entry, s.lines[e.index2].entry;
       && Available(a, b) && m.test == WireId(s.committed)
       && (|s.lines| - k == if m.role == Sender then e.index1 else e.index2)
       && m.id == (if m.role == Sender then a.id else b.id)
       && m.peer == (if m.role == Sender then b.addrPub else a.addrPub)
  }

  /** A call tells each of its clients the other's public address, and records the other's id. */
  lemma CallIsMutual(s: System, a: nat, b: nat)
    requires Possible(s, Calls(a, b)) && Available(s.lines[a].entry, s.lines[b].entry)
    ensures var t := Next(s, Calls(a, b));
            var x, y, test := s.lines[a].entry, s.lines[b].entry, WireId(s.committed);
            && t.lines[a].down == s.lines[a].down + [Start(x.id, Sender, test, y.addrPub)]
            && t.lines[b].down == s.lines[b].down + [Start(y.id, Receiver, test, x.addrPub)]
            && t.lines[a].entry.peer == y.id && t.lines[b].entry.peer == x.id
            && t.lines[a].entry.state == Busy(Sender) && t.lines[b].entry.state == Busy(Receiver)
  {
    hide WireId;
  }

  /** A start under way to a client, or the one whose test it is running. */
  predicate Told(l: Line, m: Start) {
    m in l.down || (l.client.state == Data(m.role, m.test, m.peer) && m.id == l.client.id)
  }

  lemma ToldByCall(s: System, a: nat, b: nat, k: nat, m: Start)
    requires Possible(s, Calls(a, b)) && 0 < k <= |s.lines| && Told(LineOf(Next(s, Calls(a, b)), k), m)
    ensures Told(LineOf(s, k), m) || CalledBy(s, Calls(a, b), k, m)
  {
    hide WireId;
    if Available(s.lines[a].entry, s.lines[b].entry) {
      CallIsMutual(s, a, b);
    }
  }

  lemma ToldByStep(s: System, e: Event, k: nat, m: Start)
    requires Possible(s, e) && 0 < k <= |Next(s, e).lines| && Told(LineOf(Next(s, e), k), m)
    ensures k <= |s.lines| && (Told(LineOf(s, k), m) || CalledBy(s, e, k, m))
  {
    hide CalledBy, WireId, Receive, Probe;
    match e
    case Connects(id) => NewLineIs(id);
    case Calls(a, b) => ToldByCall(s, a, b, k, m);
    case _ =>
  }

  /**
   In every run, a start under way, and a test that a client is running, comes from one of the
   calls so far, and with what that call had to say: the test, the role and the peer's address.
   */
  lemma {:induction false} TestsComeFromCalls(es: seq<Event>, n: nat, k: nat, m: Start) returns (c: nat)
    requires n <= |es| && 0 < k <= |After(es, n).lines| && Told(LineOf(After(es, n), k), m)
    ensures c < n && CalledBy(After(es, c), es[c], k, m)
  {
    hide After, CalledBy, LineOf, Next, Possible, Told;
    if n == 0 {
      StartIs(es);
      assert false;
    } else {
      AfterStep(es, n);
      if Possible(After(es, n - 1), es[n - 1]) {
        ToldByStep(After(es, n - 1), es[n - 1], k, m);
        if CalledBy(After(es, n - 1), es[n - 1], k, m) {
          c := n - 1;
        } else {
          c := TestsComeFromCalls(es, n - 1, k, m);
        }
      } else {
        c := TestsComeFromCalls(es, n - 1, k, m);
      }
    }
  }

  /** An entry that is not busy has no peer recorded. */
  predicate FreeHasNoPeer(s: System) {
    forall i :: 0 <= i < |s.lines| && !s.lines[i].entry.state.Busy? ==> s.lines[i].entry.peer == 0
  }

  lemma StepKeepsFree(s: System, e: Event)
    requires FreeHasNoPeer(s) && Possible(s, e)
    ensures FreeHasNoPeer(Next(s, e))
  {
    hide WireId, Wrapper, SenderTick, ReceiverTimeout, Take;
    match e
    case Connects(id) => NewLineIs(id);
    case _ =>
  }

  /** In every run a peer is recorded only while its client is busy. */
  lemma {:induction false} PeerOnlyWhileBusy(es: seq<Event>, n: nat)
    requires n <= |es|
    ensures FreeHasNoPeer(After(es, n))
  {
    hide After, Next, Possible;
    if n == 0 {
      StartIs(es);
    } else {
      PeerOnlyWhileBusy(es, n - 1);
      AfterStep(es, n);
      if Possible(After(es, n - 1), es[n - 1]) {
        StepKeepsFree(After(es, n - 1), es[n - 1]);
      }
    }
  }
}
