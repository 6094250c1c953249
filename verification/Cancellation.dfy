/**
 * Logins in flight on a daemon with any number of greeter connections: which connection may cancel
 * which login, and how often. Operations of different connections interleave arbitrarily.
 */
module Cancellation {
  import opened PamProtocol
  import opened ScopeIdentity

  datatype Key = Key(connectionId: string, epoch: U64, requestId: U64, seat: string)

  datatype State = PreCommit | Committed

  datatype Authority = Authority(connectionId: string, epoch: U64, seat: string)

  predicate Owns(a: Authority, k: Key) {
    k.connectionId == a.connectionId && k.epoch == a.epoch && k.seat == a.seat
  }

  function KeyOf(a: Authority, requestId: U64): Key {
    Key(a.connectionId, a.epoch, requestId, a.seat)
  }

  // ---------------------------------------------------------------- the table of logins

  /** The logins a disconnect of `a` cancels. */
  function Doomed(table: map<Key, State>, a: Authority): set<Key> {
    set k | k in table && table[k] == PreCommit && Owns(a, k)
  }

  function AfterBegin(table: map<Key, State>, k: Key): map<Key, State> {
    table[k := PreCommit]
  }

  /** The table without the login, and whether the backend is to be told. */
  function AfterCancel(table: map<Key, State>, k: Key): (map<Key, State>, bool) {
    (table - {k}, k in table && table[k] == PreCommit)
  }

  /** The table without the connection's open logins, and those logins. */
  function AfterDisconnect(table: map<Key, State>, a: Authority): (map<Key, State>, set<Key>) {
    (table - Doomed(table, a), Doomed(table, a))
  }

  function AfterFinish(table: map<Key, State>, k: Key, committed: bool): map<Key, State> {
    if committed then table[k := Committed] else table - {k}
  }

  /** The table of logins in flight, and every cancel handed to the backend. */
  class TransactionTable {
    var transactions: map<Key, State>
    ghost var cancelled: multiset<Key>

    constructor ()
      ensures transactions == map[] && cancelled == multiset{}
    {
      transactions, cancelled := map[], multiset{};
    }

    method Begin(k: Key)
      modifies this`transactions
      ensures transactions == AfterBegin(old(transactions), k)
    {
      transactions := transactions[k := PreCommit];
    }

    method Finish(k: Key, committed: bool)
      modifies this`transactions
      ensures transactions == AfterFinish(old(transactions), k, committed)
    {
      if committed {
        transactions := transactions[k := Committed];
      } else {
        transactions := transactions - {k};
      }
    }

    /** Cancels the connection's open logins one by one, then forgets exactly those. */
    method Disconnect(a: Authority)
      modifies this
      ensures transactions == AfterDisconnect(old(transactions), a).0
      ensures cancelled == old(cancelled) + multiset(AfterDisconnect(old(transactions), a).1)
    {
      var doomed := Doomed(transactions, a);
      var todo := doomed;
      while todo != {}
        invariant todo <= doomed && transactions == old(transactions)
        invariant cancelled == old(cancelled) + multiset(doomed - todo)
        decreases |todo|
      {
        var k :| k in todo;
        cancelled := cancelled + multiset{k};
        assert doomed - (todo - {k}) == (doomed - todo) + {k};
        todo := todo - {k};
      }
      assert doomed - {} == doomed;
      transactions := transactions - doomed;
    }

    /** Forgets the login; the caller cancels it at the backend when this says so. */
    method Cancel(a: Authority, target: U64) returns (removed: bool)
      modifies this`transactions
      ensures (transactions, removed) == AfterCancel(old(transactions), KeyOf(a, target))
    {
      var k := KeyOf(a, target);
      removed := k in transactions && transactions[k] == PreCommit;
      transactions := transactions - {k};
    }
  }

  // ---------------------------------------------------------------- the daemon

  datatype Connection = Connection(authority: Authority, last: U64, requestIds: set<U64>, open: bool)

  /**
   * `pending` holds cancels a connection has decided on but not yet handed to the backend, which it
   * does outside the lock; `began` and `cancelled` count what the backend was told.
   */
  datatype Daemon = Daemon(
    generation: U64, connections: seq<Connection>, table: map<Key, State>, pending: multiset<Key>,
    began: multiset<Key>, cancelled: multiset<Key>)

  datatype Payload = Login | CancelRequest(target: U64) | Query

  datatype Frame = Frame(
    connectionId: string, epoch: U64, seat: string, sequence: U64, requestId: U64, payload: Payload)

  /** What may happen next, on any connection; `Malformed` is any frame refused before its fields count. */
  datatype Op =
    | Connect(seat: string)
    | Receive(connection: nat, frame: Frame)
    | Malformed(connection: nat)
    | Finish(connection: nat, requestId: U64, committed: bool)
    | HandOver(key: Key)
    | Close(connection: nat)

  const U64_MODULUS := U64_MAX + 1
  const HEX := "0123456789abcdef"

  function HexDigits(n: nat, width: nat): string {
    if width == 0 then "" else HexDigits(n / 16, width - 1) + [HEX[n % 16]]
  }

  function ConnectionId(generation: U64, ordinal: nat): string {
    "g" + HexDigits(generation, 16) + "-c" + Decimal(ordinal)
  }

  function MaxOne(n: U64): U64 {
    if n == 0 then 1 else n
  }

  /** The n-th value of a 64-bit counter that starts at one. */
  function Counter(n: nat): (r: U64)
    ensures n < U64_MAX ==> r == n + 1
    ensures n == U64_MAX ==> r == 0
  {
    (n + 1) % U64_MODULUS
  }

  /** The authority of the n-th connection. */
  function Issued(generation: U64, seat: string, n: nat): Authority {
    Authority(ConnectionId(generation, Counter(n)), MaxOne((generation + Counter(n)) % U64_MODULUS), seat)
  }

  function Fresh(generation: U64): Daemon {
    Daemon(generation, [], map[], multiset{}, multiset{}, multiset{})
  }

  /** The end of a connection, however it comes. */
  function Disconnected(d: Daemon, i: nat): Daemon
    requires i < |d.connections|
  {
    var c := d.connections[i];
    var (table, doomed) := AfterDisconnect(d.table, c.authority);
    d.(connections := d.connections[i := c.(open := false)], table := table,
        cancelled := d.cancelled + multiset(doomed))
  }

  predicate Admits(c: Connection, f: Frame) {
    && f.connectionId == c.authority.connectionId && f.epoch == c.authority.epoch && f.seat == c.authority.seat
    && f.sequence != 0 && c.last < f.sequence && f.requestId !in c.requestIds
  }

  function Served(d: Daemon, i: nat, f: Frame): Daemon
    requires i < |d.connections|
  {
    var c := d.connections[i];
    var served := d.(connections := d.connections[i := c.(last := f.sequence,
      requestIds := c.requestIds + {f.requestId})]);
    match f.payload
    case Query => served
    case Login =>
      var k := KeyOf(c.authority, f.requestId);
      served.(table := AfterBegin(d.table, k), began := d.began + multiset{k})
    case CancelRequest(target) =>
      var k := KeyOf(c.authority, target);
      var (table, removed) := AfterCancel(d.table, k);
      served.(table := table, pending := if removed then d.pending + multiset{k} else d.pending)
  }

  function Step(d: Daemon, op: Op): Daemon {
    match op
    case Connect(seat) =>
      d.(connections := d.connections + [Connection(Issued(d.generation, seat, |d.connections|), 0, {}, true)])
    case Receive(i, f) =>
      if i >= |d.connections| || !d.connections[i].open then d
      else if !Admits(d.connections[i], f) then Disconnected(d, i)
      else Served(d, i, f)
    case Malformed(i) => if i >= |d.connections| || !d.connections[i].open then d else Disconnected(d, i)
    case Close(i) => if i >= |d.connections| || !d.connections[i].open then d else Disconnected(d, i)
    case Finish(i, requestId, committed) =>
      if i >= |d.connections| then d
      else d.(table := AfterFinish(d.table, KeyOf(d.connections[i].authority, requestId), committed))
    case HandOver(k) =>
      if d.pending[k] == 0 then d else d.(pending := d.pending - multiset{k}, cancelled := d.cancelled + multiset{k})
  }

  function Run(d: Daemon, ops: seq<Op>): Daemon
    decreases |ops|
  {
    if ops == [] then d else Run(Step(d, ops[0]), ops[1..])
  }

  // ---------------------------------------------------------------- no more cancels than begins

  function Live(table: map<Key, State>, k: Key): nat {
    if k in table && table[k] == PreCommit then 1 else 0
  }

  ghost predicate Backed(d: Daemon) {
    forall k: Key :: d.cancelled[k] + d.pending[k] + Live(d.table, k) <= d.began[k]
  }

  lemma DisconnectBacked(d: Daemon, i: nat)
    requires Backed(d) && i < |d.connections|
    ensures Backed(Disconnected(d, i))
  {
  }

  lemma ServedBacked(d: Daemon, i: nat, f: Frame)
    requires Backed(d) && i < |d.connections|
    ensures Backed(Served(d, i, f))
  {
  }

  lemma StepBacked(d: Daemon, op: Op)
    requires Backed(d)
    ensures Backed(Step(d, op))
  {
    if (op.Receive? || op.Malformed? || op.Close?) && op.connection < |d.connections| {
      DisconnectBacked(d, op.connection);
      if op.Receive? {
        ServedBacked(d, op.connection, op.frame);
      }
    }
  }

  /** In every interleaving the backend is told to cancel a login at most as often as to begin it. */
  lemma {:induction false} CancelsAreBacked(d: Daemon, ops: seq<Op>)
    requires Backed(d)
    ensures Backed(Run(d, ops)) && forall k: Key :: Run(d, ops).cancelled[k] <= Run(d, ops).began[k]
    decreases |ops|
  {
    if ops != [] {
      StepBacked(d, ops[0]);
      CancelsAreBacked(Step(d, ops[0]), ops[1..]);
    } else {
      forall k: Key ensures d.cancelled[k] <= d.began[k] {
        assert d.cancelled[k] + d.pending[k] + Live(d.table, k) <= d.began[k];
      }
    }
  }

  /** A cancel of a login is decided only by an operation of a connection with its id, epoch and seat. */
  lemma OnlyTheOwnerCancels(d: Daemon, op: Op, k: Key)
    requires d.cancelled[k] + d.pending[k] < Step(d, op).cancelled[k] + Step(d, op).pending[k]
    ensures (op.Receive? || op.Malformed? || op.Close?) && op.connection < |d.connections| &&
      Owns(d.connections[op.connection].authority, k)
  {
  }

  /** The end of a connection keeps every committed login and every login of others. */
  lemma DisconnectKeepsTheRest(d: Daemon, i: nat, k: Key)
    requires i < |d.connections| && k in d.table
    ensures var after := Disconnected(d, i).table;
      if d.table[k] == PreCommit && Owns(d.connections[i].authority, k) then k !in after
      else k in after && after[k] == d.table[k]
  {
  }

  // ---------------------------------------------------------------- each login at most once

  lemma {:induction false} DecimalIsInjective(m: nat, n: nat)
    requires Decimal(m) == Decimal(n)
    ensures m == n
  {
    DecimalLast(m);
    DecimalLast(n);
    if m >= 10 && n >= 10 {
      assert Decimal(m)[..|Decimal(m)| - 1] == Decimal(m / 10);
      assert Decimal(n)[..|Decimal(n)| - 1] == Decimal(n / 10);
      DecimalIsInjective(m / 10, n / 10);
    }
  }

  lemma DecimalLast(n: nat)
    ensures |Decimal(n)| >= 1 && Decimal(n)[|Decimal(n)| - 1] as int == '0' as int + n % 10
    ensures n >= 10 <==> |Decimal(n)| >= 2
  {
  }

  lemma ConnectionIdIsInjective(generation: U64, m: nat, n: nat)
    requires ConnectionId(generation, m) == ConnectionId(generation, n)
    ensures m == n
  {
    var prefix := "g" + HexDigits(generation, 16) + "-c";
    assert ConnectionId(generation, m)[|prefix|..] == Decimal(m);
    assert ConnectionId(generation, n)[|prefix|..] == Decimal(n);
    DecimalIsInjective(m, n);
  }

  lemma IssuedIsUnique(generation: U64, i: nat, j: nat, s: string, t: string)
    requires i < U64_MODULUS && j < U64_MODULUS
    requires Issued(generation, s, i).connectionId == Issued(generation, t, j).connectionId
    ensures i == j
  {
    ConnectionIdIsInjective(generation, Counter(i), Counter(j));
  }

  /** The connections of a daemon are never forgotten, and keep their authority and the ids they saw. */
  predicate Extends(before: seq<Connection>, after: seq<Connection>) {
    |before| <= |after| &&
    forall i | 0 <= i < |before| ::
      after[i].authority == before[i].authority && before[i].requestIds <= after[i].requestIds
  }

  lemma StepExtends(d: Daemon, op: Op)
    ensures Extends(d.connections, Step(d, op).connections)
  {
  }

  /** Every connection was issued its id in turn. */
  predicate InTurn(generation: U64, connections: seq<Connection>) {
    forall i | 0 <= i < |connections| ::
      connections[i].authority == Issued(generation, connections[i].authority.seat, i)
  }

  lemma StepInTurn(d: Daemon, op: Op)
    requires InTurn(d.generation, d.connections)
    ensures InTurn(d.generation, Step(d, op).connections) && Step(d, op).generation == d.generation
  {
    StepExtends(d, op);
  }

  /** A login's connection has seen its request. */
  predicate Requested(connections: seq<Connection>, k: Key) {
    exists i | 0 <= i < |connections| :: Owns(connections[i].authority, k) && k.requestId in connections[i].requestIds
  }

  lemma RequestedStays(before: seq<Connection>, after: seq<Connection>, k: Key)
    requires Extends(before, after) && Requested(before, k)
    ensures Requested(after, k)
  {
    var i :| 0 <= i < |before| && Owns(before[i].authority, k) && k.requestId in before[i].requestIds;
    assert Owns(after[i].authority, k) && k.requestId in after[i].requestIds;
  }

  /** No login began twice, or without its request. */
  ghost predicate BegunOnce(d: Daemon) {
    forall k: Key | d.began[k] > 0 :: d.began[k] == 1 && Requested(d.connections, k)
  }

  ghost predicate Numbered(d: Daemon) {
    InTurn(d.generation, d.connections) && BegunOnce(d)
  }

  /** A request id a connection has not seen belongs to no login begun so far. */
  lemma NewRequestIsNew(d: Daemon, i: nat, requestId: U64)
    requires Numbered(d) && |d.connections| <= U64_MODULUS && i < |d.connections| &&
      requestId !in d.connections[i].requestIds
    ensures d.began[KeyOf(d.connections[i].authority, requestId)] == 0
  {
    var k := KeyOf(d.connections[i].authority, requestId);
    if d.began[k] > 0 {
      assert Requested(d.connections, k);
      var j :| 0 <= j < |d.connections| && Owns(d.connections[j].authority, k) &&
        k.requestId in d.connections[j].requestIds;
      IssuedIsUnique(d.generation, i, j, d.connections[i].authority.seat, d.connections[j].authority.seat);
    }
  }

  lemma StepBegins(d: Daemon, op: Op)
    ensures var after := Step(d, op);
      after.began == d.began ||
      (op.Receive? && op.connection < |d.connections| && op.frame.requestId !in d.connections[op.connection].requestIds
        && after.began == d.began + multiset{KeyOf(d.connections[op.connection].authority, op.frame.requestId)}
        && Requested(after.connections, KeyOf(d.connections[op.connection].authority, op.frame.requestId)))
  {
    if op.Receive? && op.connection < |d.connections| {
      var after, k := Step(d, op), KeyOf(d.connections[op.connection].authority, op.frame.requestId);
      if after.began != d.began {
        assert Owns(after.connections[op.connection].authority, k) &&
          k.requestId in after.connections[op.connection].requestIds;
      }
    }
  }

  lemma StepNumbered(d: Daemon, op: Op)
    requires Numbered(d) && |d.connections| <= U64_MODULUS
    ensures Numbered(Step(d, op))
  {
    var after := Step(d, op);
    StepInTurn(d, op);
    StepExtends(d, op);
    StepBegins(d, op);
    if op.Receive? && op.connection < |d.connections| &&
      op.frame.requestId !in d.connections[op.connection].requestIds {
      NewRequestIsNew(d, op.connection, op.frame.requestId);
    }
    forall k: Key | after.began[k] > 0 ensures after.began[k] == 1 && Requested(after.connections, k) {
      if d.began[k] > 0 {
        RequestedStays(d.connections, after.connections, k);
      }
    }
  }

  lemma {:induction false} RunNumbered(d: Daemon, ops: seq<Op>)
    requires Numbered(d) && |Run(d, ops).connections| <= U64_MODULUS
    ensures Numbered(Run(d, ops)) && |d.connections| <= |Run(d, ops).connections|
    decreases |ops|
  {
    ConnectionsGrow(d, ops);
    if ops != [] {
      StepNumbered(d, ops[0]);
      RunNumbered(Step(d, ops[0]), ops[1..]);
    }
  }

  lemma {:induction false} ConnectionsGrow(d: Daemon, ops: seq<Op>)
    ensures |d.connections| <= |Run(d, ops).connections|
    decreases |ops|
  {
    if ops != [] {
      StepExtends(d, ops[0]);
      ConnectionsGrow(Step(d, ops[0]), ops[1..]);
    }
  }

  /**
   * From a fresh daemon, in every interleaving that issues each connection id once (at most 2^64
   * connections), each login is begun at most once and cancelled at most once.
   */
  lemma EachLoginCancelledOnce(generation: U64, ops: seq<Op>, k: Key)
    requires |Run(Fresh(generation), ops).connections| <= U64_MODULUS
    ensures var d := Run(Fresh(generation), ops); d.cancelled[k] <= d.began[k] <= 1
  {
    CancelsAreBacked(Fresh(generation), ops);
    RunNumbered(Fresh(generation), ops);
  }

  // ---------------------------------------------------------------- and twice after the counters wrap

  lemma {:induction false} RunConcat(d: Daemon, ops: seq<Op>, more: seq<Op>)
    ensures Run(d, ops + more) == Run(Run(d, ops), more)
    decreases |ops|
  {
    if ops == [] {
      assert ops + more == more;
    } else {
      assert (ops + more)[1..] == ops[1..] + more;
      RunConcat(Step(d, ops[0]), ops[1..], more);
    }
  }

  function Connects(seat: string, n: nat): seq<Op> {
    if n == 0 then [] else Connects(seat, n - 1) + [Connect(seat)]
  }

  /** A daemon after so many connections and nothing else. */
  function Connected(generation: U64, seat: string, n: nat): Daemon {
    Fresh(generation).(connections := seq(n, i requires 0 <= i => Connection(Issued(generation, seat, i), 0, {}, true)))
  }

  lemma OneMoreConnected(generation: U64, seat: string, n: nat)
    ensures Step(Connected(generation, seat, n), Connect(seat)) == Connected(generation, seat, n + 1)
  {
    hide Issued;
    assert Connected(generation, seat, n + 1).connections
      == Connected(generation, seat, n).connections + [Connection(Issued(generation, seat, n), 0, {}, true)];
  }

  lemma {:induction false} ConnectsConnect(generation: U64, seat: string, n: nat)
    ensures Run(Fresh(generation), Connects(seat, n)) == Connected(generation, seat, n)
    decreases n
  {
    if n == 0 {
      assert Connected(generation, seat, 0).connections == [];
    } else {
      hide Step, Connected, Fresh;
      ConnectsConnect(generation, seat, n - 1);
      RunConcat(Fresh(generation), Connects(seat, n - 1), [Connect(seat)]);
      assert [Connect(seat)][1..] == [];
      OneMoreConnected(generation, seat, n - 1);
    }
  }

  lemma IssuedRepeats(generation: U64, seat: string, n: nat)
    ensures Issued(generation, seat, n + U64_MODULUS) == Issued(generation, seat, n)
  {
    assert (n + U64_MODULUS + 1) % U64_MODULUS == (n + 1) % U64_MODULUS;
  }

  /** The first login a connection asks for. */
  function FirstLogin(a: Authority): Frame {
    Frame(a.connectionId, a.epoch, a.seat, 1, 1, Login)
  }

  /** A connection logs in and closes. */
  function LoginOnce(f: Frame, i: nat): seq<Op> {
    [Receive(i, f), Close(i)]
  }

  lemma RunLoginOnce(d: Daemon, f: Frame, i: nat)
    ensures Run(d, LoginOnce(f, i)) == Step(Step(d, Receive(i, f)), Close(i))
  {
    var ops, begun := LoginOnce(f, i), Step(d, Receive(i, f));
    assert ops[1..] == [Close(i)] && [Close(i)][1..] == [];
    assert Run(begun, [Close(i)]) == Run(Step(begun, Close(i)), []);
  }

  /** The login of an unused connection that closes is cancelled once more. */
  lemma LoginAndClose(d: Daemon, i: nat)
    requires i < |d.connections| && d.table == map[]
    requires Unused(d.connections[i])
    ensures var a := d.connections[i].authority;
      var after := Run(d, LoginOnce(FirstLogin(a), i));
      && after.table == map[] && after.cancelled == d.cancelled + multiset{KeyOf(a, 1)}
      && after.connections == d.connections[i := Connection(a, 1, {1}, false)]
  {
    var a := d.connections[i].authority;
    var k := KeyOf(a, 1);
    var begun := Step(d, Receive(i, FirstLogin(a)));
    RunLoginOnce(d, FirstLogin(a), i);
    assert begun.table == map[k := PreCommit];
    assert Doomed(begun.table, a) == {k};
    assert begun.table - {k} == map[];
  }

  predicate Unused(c: Connection) {
    c.open && c.last == 0 && c.requestIds == {}
  }

  /** Two fresh connections with one authority each log in and close. */
  lemma SharedAuthorityCancelsTwice(d: Daemon, i: nat, j: nat)
    requires i < |d.connections| && j < |d.connections| && i != j && d.table == map[] && d.cancelled == multiset{}
    requires Unused(d.connections[i]) && Unused(d.connections[j])
    requires d.connections[i].authority == d.connections[j].authority
    ensures var a := d.connections[i].authority;
      var after := Run(d, LoginOnce(FirstLogin(a), i) + LoginOnce(FirstLogin(a), j));
      |after.connections| == |d.connections| && after.cancelled[KeyOf(a, 1)] == 2
  {
    var f := FirstLogin(d.connections[i].authority);
    LoginAndClose(d, i);
    LoginAndClose(Run(d, LoginOnce(f, i)), j);
    RunConcat(d, LoginOnce(f, i), LoginOnce(f, j));
  }

  /** The first connection and the one that got the same id. */
  function LoginTwice(generation: U64, seat: string, n: nat): seq<Op> {
    var f := FirstLogin(Issued(generation, seat, 0));
    Connects(seat, n) + (LoginOnce(f, 0) + LoginOnce(f, U64_MODULUS))
  }

  /** The failing run: with more than 2^64 connections two of them share an id, and one key is cancelled twice. */
  lemma CancelledTwiceAfterWrap(generation: U64, seat: string, n: nat)
    requires n > U64_MODULUS
    ensures var d := Run(Fresh(generation), LoginTwice(generation, seat, n));
      |d.connections| == n && d.cancelled[KeyOf(Issued(generation, seat, 0), 1)] == 2
  {
    var start, f := Connected(generation, seat, n), FirstLogin(Issued(generation, seat, 0));
    ConnectsConnect(generation, seat, n);
    IssuedRepeats(generation, seat, 0);
    RunConcat(Fresh(generation), Connects(seat, n), LoginOnce(f, 0) + LoginOnce(f, U64_MODULUS));
    assert start.connections[0].authority == start.connections[U64_MODULUS].authority;
    SharedAuthorityCancelsTwice(start, 0, U64_MODULUS);
  }

  /** How many connections a run makes. */
  function Connections(generation: U64, ops: seq<Op>): nat {
    |Run(Fresh(generation), ops).connections|
  }

  /** No login is cancelled twice. */
  ghost predicate NoneTwice(d: Daemon) {
    forall k: Key :: d.cancelled[k] <= 1
  }

  /** What can be counted beforehand: no run with `n` connections cancels a login twice exactly up to 2^64 of them. */
  lemma CancelledOnceExactly(generation: U64, n: nat)
    ensures n <= U64_MODULUS <==>
      forall ops: seq<Op> | Connections(generation, ops) == n :: NoneTwice(Run(Fresh(generation), ops))
  {
    if n <= U64_MODULUS {
      forall ops: seq<Op> | Connections(generation, ops) == n ensures NoneTwice(Run(Fresh(generation), ops)) {
        forall k: Key ensures Run(Fresh(generation), ops).cancelled[k] <= 1 {
          EachLoginCancelledOnce(generation, ops, k);
        }
      }
    } else {
      CancelledTwiceAfterWrap(generation, "seat0", n);
      var ops := LoginTwice(generation, "seat0", n);
      assert Connections(generation, ops) == n && !NoneTwice(Run(Fresh(generation), ops));
    }
  }

  // ---------------------------------------------------------------- cancels reach the backend

  /** The next frame of an open connection, field by field. */
  predicate NextFrame(c: Connection, f: Frame) {
    && c.open && f.connectionId == c.authority.connectionId && f.epoch == c.authority.epoch
    && f.seat == c.authority.seat && f.sequence > c.last && f.requestId !in c.requestIds
  }

  /** A login that is asked for begins and is open. */
  lemma LoginBegins(d: Daemon, i: nat, f: Frame)
    requires i < |d.connections| && NextFrame(d.connections[i], f) && f.payload == Login
    ensures var k := KeyOf(d.connections[i].authority, f.requestId);
      var after := Step(d, Receive(i, f));
      && after.began == d.began + multiset{k} && Live(after.table, k) == 1 && after.connections[i].open
      && after.cancelled == d.cancelled && after.pending == d.pending
  {
  }

  /** A cancel of one's own open login is decided once, and reaches the backend when it is handed over. */
  lemma CancelReachesBackend(d: Daemon, i: nat, f: Frame, target: U64)
    requires i < |d.connections| && NextFrame(d.connections[i], f) && f.payload == CancelRequest(target)
    ensures var k := KeyOf(d.connections[i].authority, target);
      var after := Step(d, Receive(i, f));
      && k !in after.table && after.connections[i].open
      && after.pending[k] == d.pending[k] + Live(d.table, k)
      && (Live(d.table, k) == 1 ==> Step(after, HandOver(k)).cancelled[k] == d.cancelled[k] + 1)
  {
  }

  /** A connection that ends, by closing or by a frame that is refused, has each of its open logins cancelled. */
  lemma EndReachesBackend(d: Daemon, i: nat, op: Op, k: Key)
    requires i < |d.connections| && d.connections[i].open && Owns(d.connections[i].authority, k)
    requires op == Close(i) || op == Malformed(i) ||
      (op.Receive? && op.connection == i && !NextFrame(d.connections[i], op.frame))
    ensures Step(d, op).cancelled[k] == d.cancelled[k] + Live(d.table, k)
    ensures Live(Step(d, op).table, k) == 0 && !Step(d, op).connections[i].open
  {
  }

  /** A decided cancel is never lost: in every run it is pending until it was handed over. */
  lemma {:induction false} DecidedCancelsStay(d: Daemon, ops: seq<Op>, k: Key)
    ensures var after := Run(d, ops);
      d.cancelled[k] <= after.cancelled[k] && d.cancelled[k] + d.pending[k] <= after.cancelled[k] + after.pending[k]
    decreases |ops|
  {
    if ops != [] {
      StepKeepsDecided(d, ops[0], k);
      DecidedCancelsStay(Step(d, ops[0]), ops[1..], k);
    }
  }

  lemma StepKeepsDecided(d: Daemon, op: Op, k: Key)
    ensures var after := Step(d, op);
      d.cancelled[k] <= after.cancelled[k] && d.cancelled[k] + d.pending[k] <= after.cancelled[k] + after.pending[k]
  {
  }

  lemma {:induction false} BegunIsKept(d: Daemon, ops: seq<Op>, k: Key)
    ensures d.began[k] <= Run(d, ops).began[k]
    decreases |ops|
  {
    if ops != [] {
      BegunIsKept(Step(d, ops[0]), ops[1..], k);
    }
  }

  predicate StaysSettled(d: Daemon, after: Daemon, k: Key) {
    Live(after.table, k) == 0 && after.cancelled[k] + after.pending[k] == d.cancelled[k] + d.pending[k]
  }

  lemma SettledDisconnect(d: Daemon, i: nat, k: Key)
    requires Live(d.table, k) == 0 && i < |d.connections|
    ensures StaysSettled(d, Disconnected(d, i), k)
  {
  }

  lemma SettledServed(d: Daemon, i: nat, f: Frame, k: Key)
    requires Live(d.table, k) == 0 && i < |d.connections| && Served(d, i, f).began[k] == d.began[k]
    ensures StaysSettled(d, Served(d, i, f), k)
  {
  }

  lemma SettledStep(d: Daemon, op: Op, k: Key)
    requires Live(d.table, k) == 0 && Step(d, op).began[k] == d.began[k]
    ensures StaysSettled(d, Step(d, op), k)
  {
    if (op.Receive? || op.Malformed? || op.Close?) && op.connection < |d.connections| {
      hide Disconnected, Served;
      SettledDisconnect(d, op.connection, k);
      if op.Receive? && d.connections[op.connection].open && Admits(d.connections[op.connection], op.frame) {
        SettledServed(d, op.connection, op.frame, k);
      }
    }
  }

  /** A login that is not open is never cancelled again, in any run that does not begin it anew. */
  lemma {:induction false} SettledIsNotCancelled(d: Daemon, ops: seq<Op>, k: Key)
    requires Live(d.table, k) == 0 && Run(d, ops).began[k] == d.began[k]
    ensures StaysSettled(d, Run(d, ops), k)
    decreases |ops|
  {
    if ops != [] {
      var next := Step(d, ops[0]);
      BegunIsKept(next, ops[1..], k);
      BegunIsKept(d, [ops[0]], k);
      assert Run(d, [ops[0]]) == next;
      SettledStep(d, ops[0], k);
      SettledIsNotCancelled(next, ops[1..], k);
    }
  }

  /** A finished login is in the table exactly if it was committed, and no later run cancels it. */
  lemma FinishedIsSettled(d: Daemon, i: nat, requestId: U64, committed: bool, ops: seq<Op>)
    requires i < |d.connections|
    ensures var k := KeyOf(d.connections[i].authority, requestId);
      var finished := Step(d, Finish(i, requestId, committed));
      && (k in finished.table <==> committed) && Live(finished.table, k) == 0
      && (Run(finished, ops).began[k] == d.began[k] ==>
            Run(finished, ops).cancelled[k] + Run(finished, ops).pending[k] == d.cancelled[k] + d.pending[k])
  {
    var k := KeyOf(d.connections[i].authority, requestId);
    var finished := Step(d, Finish(i, requestId, committed));
    if Run(finished, ops).began[k] == d.began[k] {
      SettledIsNotCancelled(finished, ops, k);
    }
  }
}
