/** The leader's view of which peers are online. */
module Peers {

  // Seconds
  const GRACE: int := 20
  const STALE: int := 120

  datatype Row = Row(isOnline: bool, lastSeen: int)

  /** The peer registry, and for every open connection the peer bound to it ("" for none). */
  datatype Leader = Leader(registry: map<string, Row>, bound: map<int, string>)

  datatype Message =
    | Connect(fd: int)
    | Register(fd: int, id: string)
    | RegisterUnnamed(fd: int)
    | SelfRegister(id: string)
    | Heartbeat(fd: int, id: string)
    | SelfBeat(id: string)
    | UpdateMac(id: string)
    | Disconnect(fd: int)
    | Delete(id: string)
    | ClearAll

  const UNNAMED: string := "unknown"

  function Bound(l: Leader, fd: int): string
  {
    if fd in l.bound then l.bound[fd] else ""
  }

  function Upsert(l: Leader, id: string, online: bool, now: int): Leader
  {
    l.(registry := l.registry[id := Row(online, now)])
  }

  /** UPDATE ... WHERE peer_id: nothing happens to a peer without a row. */
  function Touch(l: Leader, id: string, online: bool, now: int): Leader
  {
    if id in l.registry then Upsert(l, id, online, now) else l
  }

  /** A lookup that yields an empty id counts as no such peer, so the empty id is never found. */
  predicate Known(l: Leader, id: string)
  {
    id in l.registry && id != ""
  }

  /** What the leader does about a message at time `now`. */
  function Handle(l: Leader, m: Message, now: int): Leader
  {
    match m
    case Connect(fd) => l.(bound := l.bound[fd := ""])
    case Register(fd, id) => Upsert(l.(bound := l.bound[fd := id]), id, true, now)
    case RegisterUnnamed(fd) => Upsert(l, UNNAMED, true, now)
    case SelfRegister(id) => Upsert(l, id, true, now)
    case Heartbeat(fd, id) =>
      var l1 := Touch(l, id, true, now);
      if Bound(l, fd) == "" then l1.(bound := l1.bound[fd := id]) else l1
    case SelfBeat(id) => Touch(l, id, true, now)
    case UpdateMac(id) => if Known(l, id) then Upsert(l, id, l.registry[id].isOnline, now) else l
    case Disconnect(fd) =>
      var id := Bound(l, fd);
      var l1 := if id != "" then Touch(l, id, false, now) else l;
      l1.(bound := l1.bound - {fd})
    case Delete(id) => if Known(l, id) then l.(registry := l.registry - {id}) else l
    case ClearAll => l.(registry := map[])
  }

  /** A run of messages with their times, from an empty registry. */
  function Run(ms: seq<(Message, int)>): Leader
  {
    if ms == [] then Leader(map[], map[]) else Handle(Run(ms[..|ms| - 1]), ms[|ms| - 1].0, ms[|ms| - 1].1)
  }

  /** What listPeers reports at time `now`. */
  predicate ReportedOnline(l: Leader, id: string, now: int)
  {
    && id in l.registry
    && l.registry[id].isOnline && l.registry[id].lastSeen > now - GRACE
    && now - l.registry[id].lastSeen <= STALE
  }

  // ----- What the messages say -----

  predicate Registers(m: Message, id: string)
  {
    (m.Register? && m.id == id) || (m.RegisterUnnamed? && id == UNNAMED) || (m.SelfRegister? && m.id == id)
  }

  /** A register or heartbeat: the peer is there. */
  predicate SignOfLife(m: Message, id: string)
  {
    Registers(m, id) || ((m.Heartbeat? || m.SelfBeat?) && m.id == id)
  }

  predicate Refreshes(m: Message, id: string)
  {
    SignOfLife(m, id) || (m.UpdateMac? && m.id == id && id != "")
  }

  predicate Removes(m: Message, id: string)
  {
    m == ClearAll || (m == Delete(id) && id != "")
  }

  // ----- Which peer a connection is bound to -----

  /** The message settles anew what the connection is bound to: nothing, or the id registered on it. */
  predicate Settles(m: Message, fd: int)
  {
    (m.Connect? || m.Disconnect? || m.Register?) && m.fd == fd
  }

  /** After this message, and at the very start, the connection is bound to nothing. */
  ghost predicate Unbinds(ms: seq<(Message, int)>, fd: int, k: int)
  {
    k == -1 || (0 <= k < |ms| && Settles(ms[k].0, fd) && (ms[k].0.Register? ==> ms[k].0.id == ""))
  }

  predicate BeatsFor(m: Message, fd: int)
  {
    m.Heartbeat? && m.fd == fd && m.id != ""
  }

  ghost predicate NoneSettles(ms: seq<(Message, int)>, fd: int, k: int)
  {
    forall j | 0 <= j < |ms| && k < j :: !Settles(ms[j].0, fd)
  }

  ghost predicate NoneBeats(ms: seq<(Message, int)>, fd: int, from: int, to: int)
  {
    forall j | 0 <= j < |ms| && from < j < to :: !BeatsFor(ms[j].0, fd)
  }

  /** Nothing has bound the connection since message `k`. */
  ghost predicate UnboundSince(ms: seq<(Message, int)>, fd: int, k: int)
  {
    Unbinds(ms, fd, k) && NoneSettles(ms, fd, k) && NoneBeats(ms, fd, k, |ms|)
  }

  /** Message `k` registered `id` on the connection, and nothing has settled the matter since. */
  ghost predicate RegisteredOn(ms: seq<(Message, int)>, fd: int, id: string, k: int)
  {
    0 <= k < |ms| && ms[k].0 == Register(fd, id) && NoneSettles(ms, fd, k)
  }

  /** Message `k` is the first heartbeat with an id on the connection since message `from` unbound it. */
  ghost predicate FirstBeat(ms: seq<(Message, int)>, fd: int, id: string, from: int, k: int)
  {
    && 0 <= k < |ms| && from < k && ms[k].0 == Heartbeat(fd, id)
    && Unbinds(ms, fd, from) && NoneSettles(ms, fd, from) && NoneBeats(ms, fd, from, k)
  }

  /** What the messages bind the connection to. */
  ghost predicate BoundTo(ms: seq<(Message, int)>, fd: int, id: string)
  {
    (exists k :: RegisteredOn(ms, fd, id, k)) || (exists from, k :: FirstBeat(ms, fd, id, from, k))
  }

  ghost predicate Unbound(ms: seq<(Message, int)>, fd: int)
  {
    exists k :: UnboundSince(ms, fd, k)
  }

  lemma SettlesNow(ms: seq<(Message, int)>, m: (Message, int), fd: int)
    requires Settles(m.0, fd)
    ensures m.0.Register? && m.0.id != "" ==> BoundTo(ms + [m], fd, m.0.id)
    ensures !m.0.Register? || m.0.id == "" ==> Unbound(ms + [m], fd)
  {
    var all := ms + [m];
    assert all[|ms|] == m && NoneSettles(all, fd, |ms|);
    if m.0.Register? && m.0.id != "" {
      assert RegisteredOn(all, fd, m.0.id, |ms|);
    } else {
      assert UnboundSince(all, fd, |ms|);
    }
  }

  lemma BindsNow(ms: seq<(Message, int)>, m: (Message, int), fd: int)
    requires Unbound(ms, fd) && BeatsFor(m.0, fd)
    ensures BoundTo(ms + [m], fd, m.0.id)
  {
    var all := ms + [m];
    var k :| UnboundSince(ms, fd, k);
    assert forall j | 0 <= j < |ms| :: all[j] == ms[j];
    assert FirstBeat(all, fd, m.0.id, k, |ms|);
  }

  lemma StaysBound(ms: seq<(Message, int)>, m: (Message, int), fd: int, id: string)
    requires BoundTo(ms, fd, id) && !Settles(m.0, fd)
    ensures BoundTo(ms + [m], fd, id)
  {
    var all := ms + [m];
    assert forall j | 0 <= j < |ms| :: all[j] == ms[j];
    if k :| RegisteredOn(ms, fd, id, k) {
      assert RegisteredOn(all, fd, id, k);
    } else {
      var from, k :| FirstBeat(ms, fd, id, from, k);
      assert FirstBeat(all, fd, id, from, k);
    }
  }

  lemma StaysUnbound(ms: seq<(Message, int)>, m: (Message, int), fd: int)
    requires Unbound(ms, fd) && !Settles(m.0, fd) && !BeatsFor(m.0, fd)
    ensures Unbound(ms + [m], fd)
  {
    var all := ms + [m];
    var k :| UnboundSince(ms, fd, k);
    assert forall j | 0 <= j < |ms| :: all[j] == ms[j];
    assert UnboundSince(all, fd, k);
  }

  /** What one message makes of a binding. */
  lemma BoundAfter(l: Leader, m: Message, now: int, fd: int)
    ensures Bound(Handle(l, m, now), fd)
         == if Settles(m, fd) then (if m.Register? then m.id else "")
            else if Bound(l, fd) == "" && BeatsFor(m, fd) then m.id else Bound(l, fd)
  {
  }

  lemma {:induction false} BindingHolds(ms: seq<(Message, int)>, fd: int)
    ensures var id := Bound(Run(ms), fd); if id == "" then Unbound(ms, fd) else BoundTo(ms, fd, id)
  {
    if ms == [] {
      assert UnboundSince(ms, fd, -1);
    } else {
      var before, m := ms[..|ms| - 1], ms[|ms| - 1];
      assert ms == before + [m];
      BindingHolds(before, fd);
      BoundAfter(Run(before), m.0, m.1, fd);
      hide Handle, BoundTo, Unbound;
      if Settles(m.0, fd) {
        SettlesNow(before, m, fd);
      } else if Bound(Run(before), fd) != "" {
        StaysBound(before, m, fd, Bound(Run(before), fd));
      } else if BeatsFor(m.0, fd) {
        BindsNow(before, m, fd);
      } else {
        StaysUnbound(before, m, fd);
      }
    }
  }

  lemma SameFirstBeat(ms: seq<(Message, int)>, fd: int, id: string, id': string, from: int, k: int, from': int, k': int)
    requires id != "" && id' != "" && FirstBeat(ms, fd, id, from, k) && FirstBeat(ms, fd, id', from', k')
    ensures id == id'
  {
    assert from == from';
    assert !(k < k') && !(k' < k);
  }

  /** The messages bind a connection to at most one peer. */
  lemma OneBinding(ms: seq<(Message, int)>, fd: int, id: string, id': string)
    requires id != "" && id' != "" && BoundTo(ms, fd, id) && BoundTo(ms, fd, id')
    ensures id == id'
  {
    if j, j' :| RegisteredOn(ms, fd, id, j) && RegisteredOn(ms, fd, id', j') {
      assert j == j';
    } else if from, k, from', k' :| FirstBeat(ms, fd, id, from, k) && FirstBeat(ms, fd, id', from', k') {
      SameFirstBeat(ms, fd, id, id', from, k, from', k');
    }
  }

  lemma BoundOrUnbound(ms: seq<(Message, int)>, fd: int, id: string)
    requires id != "" && BoundTo(ms, fd, id)
    ensures !Unbound(ms, fd)
  {
    forall u | UnboundSince(ms, fd, u)
      ensures false
    {
      if j :| RegisteredOn(ms, fd, id, j) {
        assert false;
      } else {
        var from, k :| FirstBeat(ms, fd, id, from, k);
        assert false;
      }
    }
  }

  /** Over every run of messages, a connection is bound to a peer exactly if that was registered on it
      and nothing has settled the matter since, or its first heartbeat with an id since the last
      connect, disconnect or nameless register on it was one of that peer. */
  lemma BoundIff(ms: seq<(Message, int)>, fd: int, id: string)
    requires id != ""
    ensures Bound(Run(ms), fd) == id <==> BoundTo(ms, fd, id)
  {
    hide Run, BoundTo, Unbound;
    BindingHolds(ms, fd);
    if BoundTo(ms, fd, id) {
      BoundOrUnbound(ms, fd, id);
      OneBinding(ms, fd, id, Bound(Run(ms), fd));
    }
  }

  /** Does the message, coming after `ms`, close a connection that is bound to the peer? */
  ghost predicate Closes(ms: seq<(Message, int)>, m: Message, id: string)
  {
    m.Disconnect? && id != "" && BoundTo(ms, m.fd, id)
  }

  /** The peer was registered by a message that no removal followed. */
  ghost predicate Registered(ms: seq<(Message, int)>, id: string)
  {
    exists k :: 0 <= k < |ms| && Registers(ms[k].0, id) && forall j | k < j < |ms| :: !Removes(ms[j].0, id)
  }

  ghost predicate LastSign(ms: seq<(Message, int)>, id: string, k: int)
  {
    0 <= k < |ms| && SignOfLife(ms[k].0, id) && forall j | k < j < |ms| :: !Closes(ms[..j], ms[j].0, id)
  }

  /** Some sign of life of the peer is later than every close of a connection that was bound to it. */
  ghost predicate Unclosed(ms: seq<(Message, int)>, id: string)
  {
    exists k :: LastSign(ms, id, k)
  }

  /** The message at `j` refreshed the peer while it was registered. */
  ghost predicate Refreshed(ms: seq<(Message, int)>, id: string, j: int)
    requires 0 <= j < |ms|
  {
    Refreshes(ms[j].0, id) && Registered(ms[..j + 1], id)
  }

  /** The message at `k` is the latest to do so. */
  ghost predicate LatestRefresh(ms: seq<(Message, int)>, id: string, k: int)
  {
    0 <= k < |ms| && Refreshed(ms, id, k) && forall j | k < j < |ms| :: !Refreshed(ms, id, j)
  }

  /** The latest refresh of the peer while it was registered is less than 20 seconds old. */
  ghost predicate Fresh(ms: seq<(Message, int)>, id: string, now: int)
  {
    exists k :: LatestRefresh(ms, id, k) && ms[k].1 > now - 20
  }

  lemma RefreshedSnoc(ms: seq<(Message, int)>, m: (Message, int), id: string, j: int)
    requires 0 <= j <= |ms|
    ensures Refreshed(ms + [m], id, j) <==>
              if j < |ms| then Refreshed(ms, id, j) else Refreshes(m.0, id) && Registered(ms + [m], id)
  {
    var all := ms + [m];
    if j < |ms| {
      assert all[..j + 1] == ms[..j + 1];
    } else {
      assert all[..j + 1] == all;
    }
    hide Refreshes, Registered;
  }

  lemma LatestSnoc(ms: seq<(Message, int)>, m: (Message, int), id: string, k: int)
    requires LatestRefresh(ms, id, k) && !(Refreshes(m.0, id) && Registered(ms + [m], id))
    ensures LatestRefresh(ms + [m], id, k)
  {
    hide Refreshes, Registered, Refreshed;
    forall j | 0 <= j <= |ms|
      ensures Refreshed(ms + [m], id, j) <==>
                if j < |ms| then Refreshed(ms, id, j) else Refreshes(m.0, id) && Registered(ms + [m], id)
    {
      RefreshedSnoc(ms, m, id, j);
    }
  }

  lemma LatestIsUnique(ms: seq<(Message, int)>, id: string, j: int, k: int)
    requires LatestRefresh(ms, id, j) && LatestRefresh(ms, id, k)
    ensures j == k
  {
    hide Refreshed;
  }

  lemma RegisteredSnoc(ms: seq<(Message, int)>, m: (Message, int), id: string)
    ensures Registered(ms + [m], id) <==> Registers(m.0, id) || (Registered(ms, id) && !Removes(m.0, id))
  {
    var all := ms + [m];
    if Registers(m.0, id) {
      assert Registers(all[|ms|].0, id);
    }
    if Registered(ms, id) && !Removes(m.0, id) {
      var k :| 0 <= k < |ms| && Registers(ms[k].0, id) && forall j | k < j < |ms| :: !Removes(ms[j].0, id);
      assert Registers(all[k].0, id);
    }
    if Registered(all, id) && !Registers(m.0, id) {
      var k :| 0 <= k < |all| && Registers(all[k].0, id) && forall j | k < j < |all| :: !Removes(all[j].0, id);
      assert Registers(ms[k].0, id) && !Removes(all[|ms|].0, id);
      assert forall j | k < j < |ms| :: ms[j] == all[j];
    }
  }

  lemma LastSignSnoc(ms: seq<(Message, int)>, m: (Message, int), id: string, k: int)
    requires k < |ms|
    ensures LastSign(ms + [m], id, k) <==> LastSign(ms, id, k) && !Closes(ms, m.0, id)
  {
    var all := ms + [m];
    assert all[..|ms|] == ms;
    assert forall j | 0 <= j < |ms| :: all[j] == ms[j] && all[..j] == ms[..j];
    if LastSign(all, id, k) {
      assert !Closes(all[..|ms|], all[|ms|].0, id);
    }
  }

  lemma UnclosedSnoc(ms: seq<(Message, int)>, m: (Message, int), id: string)
    ensures Unclosed(ms + [m], id) <==> SignOfLife(m.0, id) || (Unclosed(ms, id) && !Closes(ms, m.0, id))
  {
    var all := ms + [m];
    if SignOfLife(m.0, id) {
      assert LastSign(all, id, |ms|);
    }
    if Unclosed(ms, id) && !Closes(ms, m.0, id) {
      var k :| LastSign(ms, id, k);
      LastSignSnoc(ms, m, id, k);
    }
    if Unclosed(all, id) && !SignOfLife(m.0, id) {
      var k :| LastSign(all, id, k);
      LastSignSnoc(ms, m, id, k);
    }
  }

  // ----- The registry tells the truth -----

  /** The row of a peer exists exactly when it is registered, and says online exactly when a sign of
      life is later than every close. */
  ghost predicate Faithful(ms: seq<(Message, int)>, id: string)
  {
    var r := Run(ms).registry;
    && (id in r <==> Registered(ms, id))
    && (id in r ==> (r[id].isOnline <==> Unclosed(ms, id)))
  }

  /** What one message makes of one row. */
  lemma RowAfter(l: Leader, m: Message, now: int, id: string)
    ensures var r, r', closes := l.registry, Handle(l, m, now).registry, m.Disconnect? && id != "" && Bound(l, m.fd) == id;
            && (id in r' <==> Registers(m, id) || (id in r && !Removes(m, id)))
            && (id in r' ==> (r'[id].isOnline <==> SignOfLife(m, id) || (id in r && r[id].isOnline && !closes)))
            && (id in r' && Refreshes(m, id) ==> r'[id].lastSeen == now)
            && (id in r' && !Refreshes(m, id) && r'[id].isOnline ==> id in r && r'[id] == r[id])
            && (id in r' && !Refreshes(m, id) ==> id in r && r'[id].lastSeen == if closes then now else r[id].lastSeen)
  {
  }

  /** An online row carries the time of the latest refresh. */
  ghost predicate SeenThen(ms: seq<(Message, int)>, id: string)
  {
    var r := Run(ms).registry;
    id in r && r[id].isOnline ==> exists k :: LatestRefresh(ms, id, k) && ms[k].1 == r[id].lastSeen
  }

  lemma SeenSnoc(ms: seq<(Message, int)>, m: (Message, int), id: string)
    requires SeenThen(ms, id) && (id in Run(ms + [m]).registry <==> Registered(ms + [m], id))
    ensures SeenThen(ms + [m], id)
  {
    var all := ms + [m];
    assert all[..|ms|] == ms && all[..|all|] == all;
    RowAfter(Run(ms), m.0, m.1, id);
    var r, r' := Run(ms).registry, Run(all).registry;
    hide Registered, Handle, Refreshes, Run;
    if id in r' && r'[id].isOnline {
      if Refreshes(m.0, id) {
        RefreshedSnoc(ms, m, id, |ms|);
        assert LatestRefresh(all, id, |ms|);
      } else {
        var k :| LatestRefresh(ms, id, k) && ms[k].1 == r[id].lastSeen;
        LatestSnoc(ms, m, id, k);
      }
    }
  }

  lemma ClosesBound(ms: seq<(Message, int)>, m: Message, id: string)
    ensures Closes(ms, m, id) <==> m.Disconnect? && id != "" && Bound(Run(ms), m.fd) == id
  {
    hide BoundTo, Run;
    if m.Disconnect? && id != "" {
      BoundIff(ms, m.fd, id);
    }
  }

  lemma {:induction false} RunFaithful(ms: seq<(Message, int)>, id: string)
    ensures Faithful(ms, id) && SeenThen(ms, id)
  {
    if ms != [] {
      var before, m := ms[..|ms| - 1], ms[|ms| - 1];
      assert ms == before + [m];
      RunFaithful(before, id);
      RowAfter(Run(before), m.0, m.1, id);
      ClosesBound(before, m.0, id);
      RegisteredSnoc(before, m, id);
      UnclosedSnoc(before, m, id);
      hide Registered, Unclosed, Registers, SignOfLife, Removes, Closes, Handle, Refreshes, SeenThen;
      assert Faithful(ms, id);
      SeenSnoc(before, m, id);
    }
  }

  /** The leader reports a peer online exactly when it is registered, some sign of life of it is later
      than every close of a connection that was bound to it, and its latest register, heartbeat or
      MAC update while registered was handled within the last 20 seconds. */
  lemma OnlineIff(ms: seq<(Message, int)>, id: string, now: int)
    ensures ReportedOnline(Run(ms), id, now) <==> Registered(ms, id) && Unclosed(ms, id) && Fresh(ms, id, now)
  {
    RunFaithful(ms, id);
    hide Registered, Unclosed, Refreshes;
    if Registered(ms, id) && Unclosed(ms, id) {
      var seen :| LatestRefresh(ms, id, seen) && ms[seen].1 == Run(ms).registry[id].lastSeen;
      forall k | LatestRefresh(ms, id, k)
        ensures k == seen
      {
        LatestIsUnique(ms, id, k, seen);
      }
    }
  }

  /** A row says online exactly when the peer is registered and a sign of life is later than every
      close; a peer has a row exactly when a registration is later than every removal, so heartbeats
      and MAC updates never bring a deleted peer back. */
  lemma ListedIff(ms: seq<(Message, int)>, id: string)
    ensures id in Run(ms).registry <==> Registered(ms, id)
    ensures id in Run(ms).registry && Run(ms).registry[id].isOnline <==> Registered(ms, id) && Unclosed(ms, id)
  {
    RunFaithful(ms, id);
  }

  // ----- When a peer was last seen -----

  /** The message at `j` refreshed the registered peer or closed a connection that was bound to it. */
  ghost predicate Stamps(ms: seq<(Message, int)>, id: string, j: int)
    requires 0 <= j < |ms|
  {
    (Refreshes(ms[j].0, id) || Closes(ms[..j], ms[j].0, id)) && Registered(ms[..j + 1], id)
  }

  ghost predicate LatestStamp(ms: seq<(Message, int)>, id: string, k: int)
  {
    0 <= k < |ms| && Stamps(ms, id, k) && forall j | k < j < |ms| :: !Stamps(ms, id, j)
  }

  lemma StampsSnoc(ms: seq<(Message, int)>, m: (Message, int), id: string, j: int)
    requires 0 <= j < |ms|
    ensures Stamps(ms + [m], id, j) <==> Stamps(ms, id, j)
  {
    assert (ms + [m])[..j] == ms[..j] && (ms + [m])[..j + 1] == ms[..j + 1];
  }

  /** Over every run of messages, a row carries the time of the latest message that refreshed the peer
      while it was registered or closed a connection bound to it. */
  lemma {:induction false} LastSeenIs(ms: seq<(Message, int)>, id: string)
    requires id in Run(ms).registry
    ensures exists k :: LatestStamp(ms, id, k) && ms[k].1 == Run(ms).registry[id].lastSeen
  {
    var before, m := ms[..|ms| - 1], ms[|ms| - 1];
    assert ms == before + [m] && ms[..|ms|] == ms;
    RowAfter(Run(before), m.0, m.1, id);
    ListedIff(ms, id);
    ClosesBound(before, m.0, id);
    forall j | 0 <= j < |before|
      ensures Stamps(ms, id, j) <==> Stamps(before, id, j)
    {
      StampsSnoc(before, m, id, j);
    }
    hide Handle, Refreshes, Registered, Registers, SignOfLife, Removes, BoundTo;
    assert Stamps(ms, id, |before|) <==> Refreshes(m.0, id) || Closes(before, m.0, id);
    hide Stamps, Closes;
    if Stamps(ms, id, |before|) {
      assert LatestStamp(ms, id, |before|);
    } else {
      LastSeenIs(before, id);
      var k :| LatestStamp(before, id, k) && before[k].1 == Run(before).registry[id].lastSeen;
      assert LatestStamp(ms, id, k);
    }
  }

  // ----- As it runs -----

  class PeerRegistry {
    var registry: map<string, Row>
    var bound: map<int, string>

    function State(): Leader
      reads this
    {
      Leader(registry, bound)
    }

    constructor ()
      ensures State() == Leader(map[], map[])
    {
      registry, bound := map[], map[];
    }

    method UpsertPeer(id: string, online: bool, now: int)
      modifies this`registry
      ensures State() == Upsert(old(State()), id, online, now)
    {
      registry := registry[id := Row(online, now)];
    }

    method TouchPeer(id: string, online: bool, now: int)
      modifies this`registry
      ensures State() == Touch(old(State()), id, online, now)
    {
      if id in registry {
        UpsertPeer(id, online, now);
      }
    }

    /** The id in the row found, or "" if there is none. */
    method GetPeerId(id: string) returns (found: string)
      ensures found == if id in registry then id else ""
    {
      found := if id in registry then id else "";
    }

    /** A heartbeat only refreshes its row, and binds a connection that is not bound yet. */
    method OnHeartbeat(fd: int, id: string, now: int)
      modifies this
      ensures State() == Handle(old(State()), Heartbeat(fd, id), now)
    {
      TouchPeer(id, true, now);
      if fd !in bound || bound[fd] == "" {
        bound := bound[fd := id];
      }
    }

    /** A registration always binds its connection. */
    method OnRegister(fd: int, id: string, now: int)
      modifies this
      ensures State() == Handle(old(State()), Register(fd, id), now)
    {
      bound := bound[fd := id];
      UpsertPeer(id, true, now);
    }

    method OnUpdateMac(id: string, now: int) returns (ok: bool)
      modifies this
      ensures State() == Handle(old(State()), UpdateMac(id), now)
      ensures ok <==> Known(old(State()), id)
    {
      var found := GetPeerId(id);
      ok := found != "";
      if ok {
        UpsertPeer(id, registry[id].isOnline, now);
      }
    }

    method OnDisconnect(fd: int, now: int)
      modifies this
      ensures State() == Handle(old(State()), Disconnect(fd), now)
    {
      if fd in bound && bound[fd] != "" {
        TouchPeer(bound[fd], false, now);
      }
      bound := bound - {fd};
    }

    method OnDelete(id: string) returns (ok: bool)
      modifies this
      ensures State() == Handle(old(State()), Delete(id), 0)
      ensures ok <==> Known(old(State()), id)
    {
      var found := GetPeerId(id);
      ok := found != "";
      if ok {
        registry := registry - {id};
      }
    }
  }
}
