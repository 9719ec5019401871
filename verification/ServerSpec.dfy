/** The server's CONNECT-IP handlers as a step relation. Every handler runs
    take, AllocateFor (IPv4), AllocateFor (IPv6), announce, Router.Add, Router.Add, forward
    and then its deferred calls in reverse; each call that holds a lock is one step, and
    the steps of any number of handlers interleave freely. */
module ServerSpec {
  import opened Prelude
  import opened Addresses
  import opened PoolSpec
  import opened PoolLaws

  /** The identity of a *connectip.Conn. */
  type Conn = nat

  /** What a handler does next. */
  datatype Phase =
    | Taking
    | Allocating(family: Family)
    | Announcing
    | Adding(family: Family)
    | Forwarding
    | Removing(family: Family)
    | Releasing(family: Family)
    | Dropping
    | Done

  /** One value for each address family. */
  datatype Pair<T> = Pair(v4: T, v6: T) {
    function At(f: Family): T {
      if f == V4 then v4 else v6
    }

    function Set(f: Family, x: T): Pair<T> {
      if f == V4 then Pair(x, v6) else Pair(v4, x)
    }
  }

  /** A handler's variables for one family: the address the client was given, the lease still to
      be released and whether a route is still to be removed. */
  datatype Slot = Slot(addr: Option<Addr>, lease: Option<Lease>, routed: bool)

  datatype Session = Session(cn: string, phase: Phase, slots: Pair<Slot>)

  /** The shared state. A pool is None where none is configured; assign is the IPv4 prefix used
      then. newest records which handler of each CN called take last, and exists only to
      state properties. */
  datatype World = World(
    pools: Pair<Option<Pool>>,
    assign: Prefix,
    clients: map<Addr, Conn>,
    byCN: map<string, Conn>,
    sessions: map<Conn, Session>,
    newest: map<string, Conn>,
    closed: set<Conn>)

  // ---- Router and sessionIndex ----

  function RouterAdd(clients: map<Addr, Conn>, addr: Addr, conn: Conn): map<Addr, Conn> {
    clients[addr := conn]
  }

  function RouterRemove(clients: map<Addr, Conn>, addr: Addr, conn: Conn): map<Addr, Conn> {
    if addr in clients && clients[addr] == conn then clients - {addr} else clients
  }

  function IndexTake(byCN: map<string, Conn>, cn: string, conn: Conn): map<string, Conn> {
    if cn == "" then byCN else byCN[cn := conn]
  }

  /** The older connection of the same CN, which take closes. */
  function Superseded(byCN: map<string, Conn>, cn: string, conn: Conn): set<Conn> {
    if cn != "" && cn in byCN && byCN[cn] != conn then {byCN[cn]} else {}
  }

  function IndexDrop(byCN: map<string, Conn>, cn: string, conn: Conn): map<string, Conn> {
    if cn != "" && cn in byCN && byCN[cn] == conn then byCN - {cn} else byCN
  }

  // ---- one step of one handler ----

  predicate Shaped(w: World) {
    && (w.pools.v4.Some? ==> w.pools.v4.value.Shaped())
    && (w.pools.v6.Some? ==> w.pools.v6.value.Shaped())
  }

  function With(w: World, c: Conn, s: Session): World {
    w.(sessions := w.sessions[c := s])
  }

  /** The session at its next phase, with a new slot for family f. */
  function Moved(s: Session, phase: Phase, f: Family, slot: Slot): Session {
    s.(phase := phase, slots := s.slots.Set(f, slot))
  }

  function TakeStep(w: World, c: Conn): World
    requires c in w.sessions
  {
    var s := w.sessions[c];
    With(w, c, s.(phase := Allocating(V4))).(
      byCN := IndexTake(w.byCN, s.cn, c),
      closed := w.closed + Superseded(w.byCN, s.cn, c),
      newest := if s.cn == "" then w.newest else w.newest[s.cn := c])
  }

  function AfterAlloc(f: Family): Phase {
    if f == V4 then Allocating(V6) else Announcing
  }

  /** Without a pool IPv4 falls back to the configured address and IPv6 is left out. */
  function AllocStep(w: World, c: Conn, f: Family): World
    requires c in w.sessions && Shaped(w)
  {
    match w.pools.At(f)
    case None => NoPoolStep(w, c, f)
    case Some(p) =>
      var (q, g) := AllocateFor(p, w.sessions[c].cn);
      AllocWith(w, c, f, q, g)
  }

  function NoPoolStep(w: World, c: Conn, f: Family): World
    requires c in w.sessions
  {
    var s := w.sessions[c];
    var slot := s.slots.At(f);
    With(w, c, Moved(s, AfterAlloc(f), f, if f == V4 then slot.(addr := Some(w.assign.addr)) else slot))
  }

  /** The handler goes on with the pool's answer: a refusal closes the connection and starts the teardown. */
  function AllocWith(w: World, c: Conn, f: Family, q: Pool, g: Grant): World
    requires c in w.sessions
  {
    var s := w.sessions[c];
    match g
    case Denied =>
      With(w, c, s.(phase := if f == V4 then Dropping else Releasing(V4))).(
        pools := w.pools.Set(f, Some(q)), closed := w.closed + {c})
    case Granted(prefix, lease) =>
      var slot := s.slots.At(f).(addr := Some(prefix.addr), lease := Some(lease));
      With(w, c, Moved(s, AfterAlloc(f), f, slot)).(pools := w.pools.Set(f, Some(q)))
  }

  function AddStep(w: World, c: Conn, f: Family): World
    requires c in w.sessions
  {
    var s := w.sessions[c];
    var slot := s.slots.At(f);
    var next := if f == V4 then Adding(V6) else Forwarding;
    match slot.addr
    case None => With(w, c, s.(phase := next))
    case Some(a) => With(w, c, Moved(s, next, f, slot.(routed := true))).(clients := RouterAdd(w.clients, a, c))
  }

  function RemoveStep(w: World, c: Conn, f: Family): World
    requires c in w.sessions
  {
    var s := w.sessions[c];
    var slot := s.slots.At(f);
    var next := if f == V6 then Removing(V4) else Releasing(V6);
    if slot.routed && slot.addr.Some? then
      With(w, c, Moved(s, next, f, slot.(routed := false))).(clients := RouterRemove(w.clients, slot.addr.value, c))
    else With(w, c, s.(phase := next))
  }

  function ReleaseStep(w: World, c: Conn, f: Family): World
    requires c in w.sessions
  {
    var s := w.sessions[c];
    var slot := s.slots.At(f);
    var next := if f == V6 then Releasing(V4) else Dropping;
    if slot.lease.Some? && slot.addr.Some? && w.pools.At(f).Some? then
      var p := w.pools.At(f).value;
      ReleaseWith(w, c, f, Release(p, s.cn, slot.lease.value, HostPrefix(slot.addr.value, p.Is4())))
    else With(w, c, s.(phase := next))
  }

  function ReleaseWith(w: World, c: Conn, f: Family, q: Pool): World
    requires c in w.sessions
  {
    var s := w.sessions[c];
    var next := if f == V6 then Releasing(V4) else Dropping;
    With(w, c, Moved(s, next, f, s.slots.At(f).(lease := None))).(pools := w.pools.Set(f, Some(q)))
  }

  function DropStep(w: World, c: Conn): World
    requires c in w.sessions
  {
    var s := w.sessions[c];
    With(w, c, s.(phase := Done)).(byCN := IndexDrop(w.byCN, s.cn, c))
  }

  const EMPTY_SLOT := Slot(None, None, false)

  /** A new connection, one step of a handler, or a handler whose announcement to the client
      fails. When and why a client goes away is left open: Forwarding may end at any time. */
  datatype Action =
    | Accept(conn: Conn, cn: string)
    | Advance(conn: Conn)
    | Abort(conn: Conn)

  predicate Enabled(w: World, a: Action) {
    match a
    case Accept(c, _) => c !in w.sessions
    case Advance(c) => c in w.sessions && w.sessions[c].phase != Done
    case Abort(c) => c in w.sessions && w.sessions[c].phase == Announcing
  }

  function Apply(w: World, a: Action): World
    requires Shaped(w) && Enabled(w, a)
  {
    match a
    case Accept(c, cn) => With(w, c, Session(cn, Taking, Pair(EMPTY_SLOT, EMPTY_SLOT)))
    case Abort(c) => MoveOn(w, c, Releasing(V6))
    case Advance(c) => AdvanceStep(w, c)
  }

  function MoveOn(w: World, c: Conn, phase: Phase): World
    requires c in w.sessions
  {
    With(w, c, w.sessions[c].(phase := phase))
  }

  function AdvanceStep(w: World, c: Conn): World
    requires c in w.sessions && Shaped(w)
  {
    match w.sessions[c].phase
    case Taking => TakeStep(w, c)
    case Allocating(f) => AllocStep(w, c, f)
    case Announcing => MoveOn(w, c, Adding(V4))
    case Adding(f) => AddStep(w, c, f)
    case Forwarding => MoveOn(w, c, Removing(V6)).(closed := w.closed + {c})
    case Removing(f) => RemoveStep(w, c, f)
    case Releasing(f) => ReleaseStep(w, c, f)
    case Dropping => DropStep(w, c)
    case Done => w
  }

  /** As NewIPPool leaves it. */
  predicate Unused(p: Pool) {
    p.inUse == {} && p.sticky == map[] && p.lease == map[] && p.nextLease == 0
  }

  /** The server just started, with the configured pools. */
  ghost predicate Started(w: World) {
    && (w.pools.v4.Some? ==> Inv(w.pools.v4.value) && Unused(w.pools.v4.value))
    && (w.pools.v6.Some? ==> Inv(w.pools.v6.value) && Unused(w.pools.v6.value))
    && w.clients == map[] && w.byCN == map[] && w.sessions == map[] && w.newest == map[] && w.closed == {}
  }
}
