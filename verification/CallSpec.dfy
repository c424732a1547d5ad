/**
 The call protocol between the measurement server (sps) and its clients (spc) as transition
 functions: what each side does with a message, a timer, or a choice of two clients.
 */
module CallSpec {

  datatype Option<T> = None | Some(value: T)

  datatype Role = Sender | Receiver

  // ---------- Messages ----------

  /** SP_TYPE_START_SEND and SP_TYPE_START_RCV: for client `id`, which plays `role` with the client at address `peer`. */
  datatype Start = Start(id: nat, role: Role, test: nat, peer: nat)

  /** What a client sends over its connection: registrations, and a report when its part of a test is over. */
  datatype Up = Register(id: nat, busy: bool) | Report(id: nat, role: Role, test: nat)

  // ---------- The server ----------

  datatype EntryState = Init | Idle | Busy(role: Role)

  /** A client entry: its public address and its id, 0 while unknown, and the id of the peer it was last paired with. */
  datatype Entry = Entry(addrPub: nat, id: nat, state: EntryState, peer: nat)

  const UNKNOWN: Entry := Entry(0, 0, Init, 0)

  /** client_input and rcv_sp_proto: a message with the wrong id is dropped. */
  function Receive(e: Entry, m: Up): Entry {
    if e.id != 0 && m.id != e.id then e else
    match m
    case Register(id, busy) => e.(id := id, peer := if busy then e.peer else 0)
    case Report(_, _, _) => e.(state := Idle, peer := 0)
  }

  /** What client_input can find on a connection: a message, perhaps with a public address, a farewell, or its end. */
  datatype Incoming = Message(m: Up, addr: nat) | Deregister(id: nat) | Closed

  /** The list after it; a farewell with the wrong id is dropped like any message. */
  function AfterInput(entries: seq<Entry>, i: nat, x: Incoming): seq<Entry>
    requires i < |entries|
  {
    var e := entries[i];
    var gone := entries[..i] + entries[i + 1..];
    match x
    case Message(m, addr) =>
      var r := Receive(e, m);
      entries[i := if m.Register? && (e.id == 0 || m.id == e.id) && addr != 0 then r.(addrPub := addr) else r]
    case Deregister(id) => if e.id == 0 || id == e.id then gone else entries
    case Closed => gone
  }

  /** udp_input for the entry with that id: the public address, and the end of the initial state. */
  function Probe(e: Entry, from: nat): Entry {
    if from == e.addrPub then e else e.(addrPub := from, state := if e.state == Init then Idle else e.state)
  }

  /** The first entry with an id. */
  function FindById(entries: seq<Entry>, id: nat, n: nat): (i: nat)
    requires n <= |entries|
    ensures i <= n && (i < n ==> entries[i].id == id) && forall k :: 0 <= k < i ==> entries[k].id != id
  {
    if n == 0 then 0 else
    var i := FindById(entries, id, n - 1);
    if i < n - 1 then i else if entries[n - 1].id == id then n - 1 else n
  }

  /** Two clients may be paired when both are idle. */
  predicate Available(send: Entry, rcv: Entry) {
    send.state == Idle && rcv.state == Idle
  }

  const TEST_IDS: nat := 0x1_0000_0000

  function NextTest(test: nat): nat {
    (test + 1) % TEST_IDS
  }

  /** The id of the n-th test: 32 bits of the count. */
  function WireId(n: nat): (id: nat)
    ensures id < TEST_IDS && id <= n && (n < TEST_IDS ==> id == n)
    ensures n == TEST_IDS ==> id == 0
  {
    n % TEST_IDS
  }

  lemma IdsAdvance(n: nat)
    ensures NextTest(WireId(n)) == WireId(n + 1)
  {
    var q := n / TEST_IDS;
    assert n == q * TEST_IDS + n % TEST_IDS;
    if n % TEST_IDS + 1 < TEST_IDS {
      assert (n + 1) % TEST_IDS == n % TEST_IDS + 1;
    } else {
      assert n + 1 == (q + 1) * TEST_IDS;
    }
  }

  function Paired(e: Entry, role: Role, peer: nat): Entry {
    e.(state := Busy(role), peer := peer)
  }

  function StartFor(e: Entry, peer: Entry, role: Role, test: nat): Start {
    Start(e.id, role, test, peer.addrPub)
  }

  // ---------- The client ----------

  datatype ClientState = Looking | Connected | Data(role: Role, test: nat, peer: nat) | Closing(test: nat)

  datatype Client = Client(id: nat, state: ClientState)

  /** What server_input can find: a start, a message to exit, or the end of the connection. */
  datatype Heard = Begin(m: Start) | Exit(id: nat) | Ended

  /** server_input: a start for this client, taken only when it is not in a test. */
  function Take(c: Client, m: Start): Client {
    if m.id == c.id && c.state == Connected then c.(state := Data(m.role, m.test, m.peer)) else c
  }

  const SPC_SEND_TIMEOUT_S: nat := 3

  /** The test's duration has passed, or no echo has come in time; times in microseconds. */
  predicate TimeIsOver(duration: int, elapsed: int, rcvd: nat, sent: nat, sizeMs: nat)
    requires sizeMs > 0
  {
    || duration < elapsed
    || (rcvd == 0 && elapsed / 1_000_000 > SPC_SEND_TIMEOUT_S && sent > SPC_SEND_TIMEOUT_S * (1000 / sizeMs))
  }

  /** send_data_wrapper: when the time is over, first wait for late echoes, then report. */
  function SenderTick(c: Client, over: bool): (Client, Option<Up>) {
    match c.state
    case Closing(test) => (c.(state := Connected), Some(Report(c.id, Sender, test)))
    case Data(Sender, test, _) => (if over then c.(state := Closing(test)) else c, None)
    case _ => (c, None)
  }

  /** rcv_timeout. */
  function ReceiverTimeout(c: Client): (Client, Option<Up>) {
    match c.state
    case Data(Receiver, test, _) => (c.(state := Connected), Some(Report(c.id, Receiver, test)))
    case _ => (c, None)
  }

  /** send_register. */
  function Registration(c: Client): Up {
    Register(c.id, c.state != Looking && c.state != Connected)
  }

  /** connect_server: no connection yet, an error, or a connection. */
  datatype Attempt = Refused | Broken | Made

  /** sps_wrapper: connect if that succeeds, and register when connected. */
  function Wrapper(c: Client, connects: bool): (Client, Option<Up>) {
    var d := if c.state == Looking && connects then c.(state := Connected) else c;
    (d, if d.state == Looking then None else Some(Registration(d)))
  }

  // ---------- What the steps mean ----------

  /** An entry listens to its own client only, as soon as it knows its id. */
  lemma OthersAreIgnored(entries: seq<Entry>, i: nat, m: Up, id: nat, addr: nat)
    requires i < |entries| && entries[i].id != 0
    ensures m.id != entries[i].id ==> AfterInput(entries, i, Message(m, addr)) == entries
    ensures id != entries[i].id ==> AfterInput(entries, i, Deregister(id)) == entries
  {
  }

  /**
   A client that registers with a public address is in the list with its id and that address, and
   otherwise as it was; the farewell with its id then removes that entry and no other.
   */
  lemma RegisteredUntilFarewell(entries: seq<Entry>, i: nat, id: nat, busy: bool, addr: nat)
    requires i < |entries| && entries[i].id in {0, id} && addr != 0
    ensures var after := AfterInput(entries, i, Message(Register(id, busy), addr));
            && after == entries[i := Entry(addr, id, entries[i].state, if busy then entries[i].peer else 0)]
            && AfterInput(after, i, Deregister(id)) == AfterInput(entries, i, Closed) == entries[..i] + entries[i + 1..]
  {
  }

  /** A registration without a public address, and a report, leave the one that is known. */
  lemma AddressIsKept(entries: seq<Entry>, i: nat, m: Up, addr: nat)
    requires i < |entries| && (m.Report? || addr == 0)
    ensures |AfterInput(entries, i, Message(m, addr))| == |entries|
    ensures AfterInput(entries, i, Message(m, addr))[i].addrPub == entries[i].addrPub
  {
  }

  lemma ScheduleInSeconds(ms: nat, sizeMs: nat)
    requires 0 < sizeMs <= 500 && ms >= 4000
    ensures ms / sizeMs >= 4 * (1000 / sizeMs) && 1000 / sizeMs >= 2
  {
    var q := 1000 / sizeMs;
    assert q * sizeMs <= 1000;
    assert 4 * q * sizeMs <= ms;
    QuotientAtLeast(ms, sizeMs, 4 * q);
    QuotientAtLeast(1000, sizeMs, 2);
  }

  lemma QuotientAtLeast(m: nat, d: nat, q: nat)
    requires d > 0 && q * d <= m
    ensures m / d >= q
  {
    var r := m / d;
    assert m < r * d + d;
    assert (r + 1 - q) * d == r * d + d - q * d > 0;
    PositiveFactor(r + 1 - q, d);
  }

  lemma PositiveFactor(x: int, d: nat)
    requires x * d > 0
    ensures x > 0
  {
  }

  /**
   A test in which echoes come ends when its duration has passed. A sender that is no more than
   one packet behind its schedule and hears nothing gives up as soon as four seconds have passed,
   not three: the seconds compared are whole ones.
   */
  lemma WhenTimeIsOver(duration: int, elapsed: nat, rcvd: nat, sent: nat, sizeMs: nat)
    requires 0 < sizeMs <= 500 && sent + 1 >= elapsed / 1000 / sizeMs
    ensures TimeIsOver(duration, elapsed, rcvd, sent, sizeMs) <==> duration < elapsed || (rcvd == 0 && elapsed >= 4_000_000)
  {
    if elapsed >= 4_000_000 {
      ScheduleInSeconds(elapsed / 1000, sizeMs);
    }
  }

  /** It is not given up before it has sent packets for three seconds, but for three packets at most. */
  lemma LateSenderIsAwaited(duration: int, elapsed: int, rcvd: nat, sent: nat, sizeMs: nat)
    requires sizeMs > 0 && sent * sizeMs + 3 * sizeMs <= 3000
    ensures TimeIsOver(duration, elapsed, rcvd, sent, sizeMs) <==> duration < elapsed
  {
    var q := 1000 / sizeMs;
    assert 1000 < q * sizeMs + sizeMs;
    assert (3 * q + 1 - sent) * sizeMs == 3 * (q * sizeMs) + sizeMs - sent * sizeMs;
    PositiveFactor(3 * q + 1 - sent, sizeMs);
  }

  /** A registration says busy exactly when the client has a part in a test. */
  lemma RegistrationTells(c: Client)
    ensures Registration(c) == Register(c.id, c.state.Data? || c.state.Closing?)
  {
  }

  // ---------- The end of a test ----------

  /** The client and its reports after n ticks of the sender's timer; over[k] says whether time is over at tick k. */
  function Ticked(c: Client, over: seq<bool>, n: nat): (r: (Client, seq<Up>))
    requires n <= |over|
  {
    if n == 0 then (c, []) else
    var (d, sent) := Ticked(c, over, n - 1);
    var (e, m) := SenderTick(d, over[n - 1]);
    (e, if m.Some? then sent + [m.value] else sent)
  }

  /** The first of n ticks at which time is over, n if none. */
  function FirstOver(over: seq<bool>, n: nat): (k: nat)
    requires n <= |over|
    ensures k <= n && (k < n ==> over[k]) && forall j :: 0 <= j < k ==> !over[j]
  {
    if n == 0 then 0 else
    var k := FirstOver(over, n - 1);
    if k < n - 1 || over[n - 1] then k else n
  }

  /** A sender reports once: at the tick after the first at which its time was over, when late echoes are in. */
  lemma {:induction false} SenderReportsOnce(id: nat, test: nat, peer: nat, over: seq<bool>, n: nat)
    requires n <= |over|
    ensures var c, k := Client(id, Data(Sender, test, peer)), FirstOver(over, n);
            Ticked(c, over, n) == if k == n then (c, [])
                                  else if k == n - 1 then (Client(id, Closing(test)), [])
                                  else (Client(id, Connected), [Report(id, Sender, test)])
  {
    var c := Client(id, Data(Sender, test, peer));
    if n == 0 {
      assert Ticked(c, over, 0) == (c, []) && FirstOver(over, 0) == 0;
    } else {
      SenderReportsOnce(id, test, peer, over, n - 1);
      var none: seq<Up> := [];
      assert none + [Report(id, Sender, test)] == [Report(id, Sender, test)];
    }
  }
}
