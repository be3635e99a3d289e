/**
 The inactivity monitor on top of the registry: the table of last signs of life, the sweep, and what holds
 over every history of adds, removes, polls, notifications and sweeps.
 */
module AliveMonitor {
  import opened Options
  import opened Registry
  import opened Words

  /** A monotonic clock: later readings are not smaller. `log` are all readings so far. */
  class MonotonicClock {
    var now: int
    ghost var log: seq<int>

    constructor ()
      ensures log == []
    {
      now := 0;
      log := [];
    }

    method Now() returns (t: int)
      modifies this
      ensures now == t >= old(now) && log == old(log) + [t]
    {
      t :| t >= now;
      now := t;
      log := log + [t];
    }
  }

  /**
   The monitored devices with the time of their last refresh; the devices in the store, those of them whose
   runners were started, and those that report their polls; whether the store knows the monitor, and whether it
   was stopped. `hung` and `blocked` tell that the mutex of the store, or of the monitor, is held for ever.
   */
  datatype Table = Table(devices: map<Uri, int>, stored: set<Uri>, started: set<Uri>, notifying: set<Uri>,
                         attached: bool, stopped: bool, hung: bool, blocked: bool)

  /**
   `Sweep`: `readings` are the clock readings of the devices looked at, `stuck` the one that ended the sweep;
   `hangs` tells that its removal does not return.
   */
  datatype Event =
    | Add(uri: Uri, at: int)
    | Remove(uri: Uri, at: int)
    | Notify(uri: Uri, at: int)            // Monitor(uri).NotifyAlive()
    | Polled(uri: Uri, at: int)            // a poll of a registered device without error
    | Attach(at: int)                      // SetAliveMonitor
    | StartStore(at: int)
    | StopStore(at: int)
    | StoreHangs(at: int)                  // a call of the store itself that does not return
    | CallHangs(at: int)                   // an `Add` or `Remove` of the monitor that does not return
    | Sweep(start: int, at: int, readings: map<Uri, int>, stuck: Option<Uri>, hangs: bool)

  predicate Inactive(limit: int, t: Table, readings: map<Uri, int>, uri: Uri)
    requires uri in readings ==> uri in t.devices
  {
    uri in readings && readings[uri] - t.devices[uri] >= limit
  }

  /** The devices a sweep removes. */
  function Swept(limit: int, t: Table, readings: map<Uri, int>, stuck: Option<Uri>): set<Uri>
    requires readings.Keys <= t.devices.Keys
  {
    set uri | uri in readings && Inactive(limit, t, readings, uri) && stuck != Some(uri)
  }

  /** Joining a runner that was never started does not return, nor does waiting for a mutex held for ever. */
  predicate JoinHangs(t: Table, uri: Uri) {
    t.hung || (uri in t.stored && uri !in t.started)
  }

  predicate Enabled(limit: int, t: Table, e: Event) {
    match e
    case Add(uri, _) => !t.blocked && !t.hung && uri !in t.stored && !t.stopped
    case Remove(uri, _) => !t.blocked && !t.hung && uri in t.stored && uri in t.started
    case Notify(_, _) => !t.blocked
    case Polled(uri, _) => uri in t.stored && uri in t.started && (uri in t.notifying ==> !t.blocked)
    case Attach(_) => true
    case StartStore(_) => !t.hung
    case StopStore(_) => !t.hung && t.stored <= t.started
    case StoreHangs(_) => !t.hung && !(t.stored <= t.started)
    case CallHangs(_) => !t.blocked && (t.hung || !(t.stored <= t.started))
    case Sweep(start, end, readings, stuck, hangs) =>
      && !t.blocked
      && readings.Keys <= t.devices.Keys
      && (forall uri :: uri in readings ==> start <= readings[uri] <= end)
      && Swept(limit, t, readings, stuck) <= t.stored * t.started
      && (t.hung ==> Swept(limit, t, readings, stuck) == {})
      && (match stuck
          case None => readings.Keys == t.devices.Keys && !hangs
          case Some(uri) => Inactive(limit, t, readings, uri) && (hangs ==> JoinHangs(t, uri)) && (t.hung ==> hangs))
  }

  function Without(t: Table, gone: set<Uri>): Table {
    t.(devices := t.devices - gone, stored := t.stored - gone,
       started := t.started - gone, notifying := t.notifying - gone)
  }

  function Next(limit: int, t: Table, e: Event): Table
    requires Enabled(limit, t, e)
  {
    match e
    case Add(uri, at) =>
      t.(devices := t.devices[uri := at], stored := t.stored + {uri}, started := t.started + {uri},
         notifying := if t.attached then t.notifying + {uri} else t.notifying)
    case Remove(uri, _) => Without(t, {uri})
    case Notify(uri, at) => t.(devices := t.devices[uri := at])
    case Polled(uri, at) => if uri in t.notifying then t.(devices := t.devices[uri := at]) else t
    case Attach(_) => t.(attached := true)
    case StartStore(_) => t.(started := t.stored)
    case StopStore(_) => t.(stored := {}, started := {}, notifying := {}, stopped := true)
    case StoreHangs(_) => t.(hung := true)
    case CallHangs(_) => t.(hung := true, blocked := true)
    case Sweep(_, _, readings, stuck, hangs) =>
      Without(t, Swept(limit, t, readings, stuck)).(hung := t.hung || hangs, blocked := hangs)
  }

  /** The table of a new monitor: no restored device knows it, and none was started. */
  function Boot(devices: map<Uri, int>): Table {
    Table(devices, devices.Keys, {}, {}, false, false, false, false)
  }

  function Notifying(nodes: map<Uri, Node>): set<Uri> {
    set uri | uri in nodes && nodes[uri].notifies
  }

  function StartedNodes(nodes: map<Uri, Node>): set<Uri> {
    set uri | uri in nodes && nodes[uri].starts > 0
  }

  /** The table of a monitor with these devices on this store. */
  function TableOf(devices: map<Uri, int>, s: Store, blocked: bool): Table {
    Table(devices, s.nodes.Keys, StartedNodes(s.nodes), Notifying(s.nodes), s.monitored, s.stopped, s.hung, blocked)
  }

  /** The store without these devices. */
  function SweptStore(s: Store, gone: set<Uri>): Store {
    s.(db := s.db - gone, nodes := s.nodes - gone,
       known := s.known - NodeHosts(Except(s.nodes, s.nodes.Keys - gone)))
  }

  lemma NodesLess(nodes: map<Uri, Node>, gone: set<Uri>)
    ensures Notifying(nodes - gone) == Notifying(nodes) - gone
    ensures StartedNodes(nodes - gone) == StartedNodes(nodes) - gone
  {
  }

  /** Removing devices from the store and from the table is removing them from what the table shows. */
  lemma SweptTable(devices: map<Uri, int>, s: Store, gone: set<Uri>)
    ensures TableOf(devices - gone, SweptStore(s, gone), false) == Without(TableOf(devices, s, false), gone)
  {
    NodesLess(s.nodes, gone);
  }

  lemma SweptNothing(devices: map<Uri, int>, s: Store)
    ensures SweptStore(s, {}) == s && devices - {} == devices
  {
    assert Except(s.nodes, s.nodes.Keys - {}) == map[];
  }

  /** One more removal of a sweep. */
  lemma SweptOneMore(s: Store, gone: set<Uri>, uri: Uri)
    requires gone <= s.nodes.Keys && uri in s.nodes && uri !in gone && !s.hung && s.nodes[uri].starts > 0
    ensures Removed(SweptStore(s, gone), uri, true) == (SweptStore(s, gone + {uri}), Ok)
  {
    var nodes, rest := s.nodes, s.nodes.Keys - gone;
    assert rest - {uri} == nodes.Keys - (gone + {uri});
    ExceptLess(nodes, rest, uri);
    NodeHostsGrow(Except(nodes, rest), uri, nodes[uri]);
    MinusMinus(s.db, gone, {uri});
    MinusMinus(s.nodes, gone, {uri});
    assert s.known - NodeHosts(Except(nodes, rest)) - Hosts(nodes[uri])
        == s.known - (NodeHosts(Except(nodes, rest)) + Hosts(nodes[uri]));
  }

  // ---- What the methods do to the table

  lemma NotifyTable(limit: int, ds: map<Uri, int>, s: Store, uri: Uri, at: int)
    ensures Enabled(limit, TableOf(ds, s, false), Notify(uri, at))
    ensures Next(limit, TableOf(ds, s, false), Notify(uri, at)) == TableOf(ds[uri := at], s, false)
  {
  }

  lemma PolledTable(limit: int, ds: map<Uri, int>, s: Store, uri: Uri, at: int, blocked: bool)
    requires uri in s.nodes && s.nodes[uri].starts > 0 && (s.nodes[uri].notifies ==> !blocked)
    ensures Enabled(limit, TableOf(ds, s, blocked), Polled(uri, at))
    ensures Next(limit, TableOf(ds, s, blocked), Polled(uri, at))
         == TableOf(if s.nodes[uri].notifies then ds[uri := at] else ds, s, blocked)
  {
  }

  lemma AddTable(limit: int, parse: UrlParser, ds: map<Uri, int>, s: Store, at: int,
                 uri: Uri, typ: Text, desc: Text, now: int64, ok: bool)
    ensures var t, (s', err) := TableOf(ds, s, false), Added(parse, s, uri, typ, desc, now, ok);
            && (err == Ok ==> Enabled(limit, t, Add(uri, at))
                              && Next(limit, t, Add(uri, at)) == TableOf(ds[uri := at], s', false))
            && (err == NoReturn ==> Enabled(limit, t, CallHangs(at))
                                    && Next(limit, t, CallHangs(at)) == TableOf(ds, s', true))
            && (err !in {Ok, NoReturn} ==> TableOf(ds, s', false) == t)
  {
    var (s', err) := Added(parse, s, uri, typ, desc, now, ok);
    AddEffect(parse, s, uri, typ, desc, now, ok);
    if err == Ok { NodesMore(s.nodes, uri, s'.nodes[uri]); }
  }

  lemma RemoveTable(limit: int, ds: map<Uri, int>, s: Store, at: int, uri: Uri, ok: bool)
    ensures var t, (s', err) := TableOf(ds, s, false), Removed(s, uri, ok);
            && (err == Ok ==> Enabled(limit, t, Remove(uri, at))
                              && Next(limit, t, Remove(uri, at)) == TableOf(ds - {uri}, s', false))
            && (err == NoReturn ==> Enabled(limit, t, CallHangs(at))
                                    && Next(limit, t, CallHangs(at)) == TableOf(ds, s', true))
            && (err !in {Ok, NoReturn} ==> s' == s)
  {
    NodesLess(s.nodes, {uri});
  }

  /** What the calls of the store itself do. */
  predicate Leads(limit: int, t: Table, e: Event, n: Table) {
    Enabled(limit, t, e) && Next(limit, t, e) == n
  }

  lemma StartTable(limit: int, ds: map<Uri, int>, s: Store, blocked: bool, at: int)
    requires !s.hung
    ensures Leads(limit, TableOf(ds, s, blocked), StartStore(at), TableOf(ds, StartedAll(s), blocked))
  {
    assert StartedNodes(StartedAll(s).nodes) == s.nodes.Keys;
    assert Notifying(StartedAll(s).nodes) == Notifying(s.nodes);
  }

  lemma StopTable(limit: int, ds: map<Uri, int>, s: Store, blocked: bool, walked: set<Uri>, at: int)
    requires !s.hung
    ensures Leads(limit, TableOf(ds, s, blocked), if AllStarted(s) then StopStore(at) else StoreHangs(at),
                  TableOf(ds, StoppedAll(s, walked), blocked))
  {
    if AllStarted(s) {
      assert StartedNodes(s.nodes) == s.nodes.Keys;
    } else {
      var uri :| uri in s.nodes && s.nodes[uri].starts == 0;
      assert uri !in StartedNodes(s.nodes);
    }
  }

  lemma AttachTable(limit: int, ds: map<Uri, int>, s: Store, blocked: bool, at: int)
    ensures Leads(limit, TableOf(ds, s, blocked), Attach(at), TableOf(ds, Monitored(s), blocked))
  {
  }

  lemma NodesMore(nodes: map<Uri, Node>, uri: Uri, n: Node)
    requires uri !in nodes && n.starts > 0
    ensures Notifying(nodes[uri := n]) == if n.notifies then Notifying(nodes) + {uri} else Notifying(nodes)
    ensures StartedNodes(nodes[uri := n]) == StartedNodes(nodes) + {uri}
  {
  }

  /** The devices got these readings of the clock, one after the other, each of them its own. */
  ghost predicate ReadInTurn(readings: map<Uri, int>, times: seq<int>)
    decreases |times|
  {
    if times == [] then readings == map[]
    else
      var last := |times| - 1;
      exists uri :: uri in readings && readings[uri] == times[last] && ReadInTurn(readings - {uri}, times[..last])
  }

  lemma ReadOneMore(readings: map<Uri, int>, times: seq<int>, uri: Uri, t: int)
    requires ReadInTurn(readings, times) && uri !in readings
    ensures ReadInTurn(readings[uri := t], times + [t])
    ensures forall log: seq<int> :: log + times + [t] == log + (times + [t])
  {
    assert readings[uri := t] - {uri} == readings;
    assert (times + [t])[..|times|] == times;
  }

  class StoreAliveMonitor {
    const limit: int
    const clock: MonotonicClock
    const store: CacheStore
    var devices: map<Uri, int>
    var blocked: bool

    function Value(): Table
      reads this, store, store.db, store.resolveStore
    {
      TableOf(devices, store.Value(), blocked)
    }

    constructor (clock: MonotonicClock, store: CacheStore, limit: int)
      modifies clock
      ensures this.clock == clock && this.store == store && this.limit == limit
      ensures devices.Keys == store.nodes.Keys
      ensures !blocked
      ensures Notifying(store.nodes) == StartedNodes(store.nodes) == {} && !store.aliveMonitor && Open(store.Value())
          ==> Value() == Boot(devices)
      ensures old(clock.now) <= clock.now
      ensures forall uri :: uri in devices ==> old(clock.now) <= devices[uri] <= clock.now
      ensures exists times :: clock.log == old(clock.log) + times && ReadInTurn(devices, times)
    {
      this.clock, this.store, this.limit := clock, store, limit;
      devices, blocked := map[], false;
      new;
      var times := RestoreDevices();
      assert clock.log == old(clock.log) + times && ReadInTurn(devices, times);
    }

    /** Every registered device gets a reading of its own, in any order. */
    method RestoreDevices() returns (ghost times: seq<int>)
      requires devices == map[]
      modifies this`devices, clock
      ensures forall uri :: uri in devices <==> uri in store.nodes
      ensures old(clock.now) <= clock.now
      ensures forall uri :: uri in devices ==> old(clock.now) <= devices[uri] <= clock.now
      ensures clock.log == old(clock.log) + times && ReadInTurn(devices, times)
    {
      var uris := ListedUris();
      times := [];
      for i := 0 to |uris|
        invariant old(clock.now) <= clock.now
        invariant forall uri :: uri in devices <==> uri in uris[..i]
        invariant forall uri :: uri in devices ==> old(clock.now) <= devices[uri] <= clock.now
        invariant clock.log == old(clock.log) + times && ReadInTurn(devices, times)
      {
        var now := clock.Now();
        assert uris[..i + 1] == uris[..i] + [uris[i]];
        ReadOneMore(devices, times, uris[i], now);
        devices := devices[uris[i] := now];
        times := times + [now];
      }
      assert uris[..|uris|] == uris;
    }

    /** The URIs of `GetDesc`. */
    method ListedUris() returns (uris: seq<Uri>)
      ensures forall i :: 0 <= i < |uris| ==> uris[i] !in uris[..i]
      ensures forall uri :: uri in uris <==> uri in store.nodes
    {
      var items := store.GetDesc();
      uris := seq(|items|, i requires 0 <= i < |items| => items[i].0);
      forall uri
        ensures uri in uris <==> uri in store.nodes
      {
        if uri in store.nodes {
          var i :| 0 <= i < |items| && items[i].0 == uri;
          assert uris[i] == uri;
        }
        if uri in uris {
          var i :| 0 <= i < |uris| && uris[i] == uri;
          assert items[i].0 in store.nodes;
        }
      }
    }

    /** A call that does not return leaves the mutex locked. */
    method Add(uri: Uri, typ: Text, desc: Text, wall: int64) returns (err: Err)
      modifies this, clock, store, store.db, store.resolveStore
      ensures (store.Value(), err)
           == if old(blocked) then (old(store.Value()), NoReturn)
              else Added(store.parse, old(store.Value()), uri, typ, desc, wall, old(store.db.Willing()))
      ensures old(clock.now) <= clock.now && clock.log == old(clock.log) + if err == Ok then [clock.now] else []
      ensures devices == if err == Ok then old(devices)[uri := clock.now] else old(devices)
      ensures blocked == (err == NoReturn)
      ensures err == Ok ==> Happened(old(Value()), Event.Add(uri, clock.now))
      ensures err == NoReturn && !old(blocked) ==> Happened(old(Value()), CallHangs(clock.now))
      ensures err !in {Ok, NoReturn} || old(blocked) ==> Value() == old(Value())
    {
      if blocked { return NoReturn; }
      ghost var s, willing := store.Value(), store.db.Willing();
      err := store.Add(uri, typ, desc, wall);
      if err == NoReturn { blocked := true; }
      if err == Ok {
        var now := clock.Now();
        devices := devices[uri := now];
      }
      AddTable(limit, store.parse, old(devices), s, clock.now, uri, typ, desc, wall, willing);
    }

    method Remove(uri: Uri) returns (err: Err)
      modifies this, store, store.db, store.resolveStore
      ensures (store.Value(), err)
           == if old(blocked) then (old(store.Value()), NoReturn)
              else Removed(old(store.Value()), uri, old(store.db.Willing()))
      ensures devices == if err == Ok then old(devices) - {uri} else old(devices)
      ensures blocked == (err == NoReturn)
      ensures err == Ok ==> Happened(old(Value()), Event.Remove(uri, clock.now))
      ensures err == NoReturn && !old(blocked) ==> Happened(old(Value()), CallHangs(clock.now))
      ensures err !in {Ok, NoReturn} || old(blocked) ==> Value() == old(Value())
    {
      if blocked { return NoReturn; }
      RemoveTable(limit, devices, store.Value(), clock.now, uri, store.db.Willing());
      err := store.Remove(uri);
      if err == NoReturn { blocked := true; }
      if err != Ok { return; }
      devices := devices - {uri};
    }

    /** The event was possible in `t`, and has led here. */
    predicate Happened(t: Table, e: Event)
      reads this, store, store.db, store.resolveStore
    {
      Enabled(limit, t, e) && Value() == Next(limit, t, e)
    }

    /** A notifier inserts its device whether or not it is registered. */
    method NotifyAlive(uri: Uri)
      modifies this, clock
      ensures old(clock.now) <= clock.now && clock.log == old(clock.log) + if old(blocked) then [] else [clock.now]
      ensures devices == if old(blocked) then old(devices) else old(devices)[uri := clock.now]
      ensures if old(blocked) then Value() == old(Value()) else Happened(old(Value()), Notify(uri, clock.now))
    {
      if blocked { return; }
      var now := clock.Now();
      NotifyTable(limit, devices, store.Value(), uri, now);
      devices := devices[uri := now];
    }

    /** The task of a device behind a poll without error: only a node made with a notifier has one. */
    method PollSucceeded(uri: Uri)
      requires uri in store.nodes && store.nodes[uri].starts > 0
      modifies this, clock
      ensures old(clock.now) <= clock.now
      ensures clock.log == old(clock.log) + if store.nodes[uri].notifies && !old(blocked) then [clock.now] else []
      ensures devices == if store.nodes[uri].notifies && !old(blocked) then old(devices)[uri := clock.now]
                         else old(devices)
      ensures if store.nodes[uri].notifies && old(blocked) then Value() == old(Value())
              else Happened(old(Value()), Polled(uri, clock.now))
    {
      ghost var s, ds := store.Value(), devices;
      if store.nodes[uri].notifies { NotifyAlive(uri); }
      assert store.Value() == s;
      if store.nodes[uri].notifies ==> !blocked { PolledTable(limit, ds, s, uri, clock.now, blocked); }
    }

    function Snap(): Snapshot
      reads this, clock, store, store.db, store.resolveStore
    {
      Snapshot(devices, store.Value(), clock.now, store.db.asked, blocked)
    }

    /** One removal of the sweep: from the store, then from the table. */
    method Evict(uri: Uri, ghost m: Snapshot, ghost gone: set<Uri>) returns (err: Err)
      requires SweptSoFar(m, Snap(), gone) && uri !in gone
      modifies this, store, store.db, store.resolveStore
      ensures (store.Value(), err) == Removed(SweptStore(m.store, gone), uri, old(store.db.Willing()))
      ensures clock.now == old(clock.now) && clock.log == old(clock.log)
      ensures err == Ok ==> Removable(TableOf(m.devices, m.store, false), uri) && SweptSoFar(m, Snap(), gone + {uri})
      ensures err != Ok ==> EndedBy(store.db.answers, m, Snap(), gone, uri, err)
    {
      err := store.Remove(uri);
      if err == Ok {
        SweptOneMore(m.store, gone, uri);
        devices := devices - {uri};
        MinusMinus(m.devices, gone, {uri});
        assert |gone + {uri}| == |gone| + 1;
      } else {
        blocked := err == NoReturn;
      }
    }

    /**
     The sweep, in whatever order the table is walked; it ends at the first removal that fails. Every device looked
     at has a reading of its own, and what the store answers is what it answers to the removals, one after the other.
     */
    method Run() returns (err: Err, ghost readings: map<Uri, int>, ghost stuck: Option<Uri>)
      modifies this, clock, store, store.db, store.resolveStore
      ensures if old(blocked) then err == NoReturn && Snap() == old(Snap())
              else Ran(limit, store.db.answers, old(Snap()), Snap(), err, readings, stuck)
      ensures exists times :: clock.log == old(clock.log) + times && ReadInTurn(readings, times)
    {
      readings, stuck := map[], None;
      if blocked {
        assert ReadInTurn(readings, []) && clock.log == old(clock.log) + [];
        return NoReturn, readings, stuck;
      }
      ghost var times;
      err, readings, stuck, times := RunLocked();
    }

    /** One turn of the loop: a device that is active stays, one that is not is evicted. */
    method Look(uri: Uri, ghost m: Snapshot, ghost readings: map<Uri, int>, ghost gone: set<Uri>)
      returns (now: int, err: Err, ghost more: set<Uri>)
      requires Sweeping(limit, TableAt(m), m.time, clock.now, readings, gone) && SweptSoFar(m, Snap(), gone)
      requires uri in m.devices && uri !in readings
      modifies this, clock, store, store.db, store.resolveStore
      ensures now == clock.now && clock.log == old(clock.log) + [now]
      ensures err == Ok ==> Sweeping(limit, TableAt(m), m.time, clock.now, readings[uri := now], more)
                            && SweptSoFar(m, Snap(), more)
      ensures err != Ok ==> Ran(limit, store.db.answers, m, Snap(), err, readings[uri := now], Some(uri))
    {
      ghost var before := clock.now;
      now := clock.Now();
      SweepGoesOn(limit, TableAt(m), m.time, before, readings, gone, uri, now);
      more, err := gone, Ok;
      if now - devices[uri] >= limit { err, more := EvictInactive(uri, m, readings[uri := now], gone); }
    }

    method EvictInactive(uri: Uri, ghost m: Snapshot, ghost readings: map<Uri, int>, ghost gone: set<Uri>)
      returns (err: Err, ghost more: set<Uri>)
      requires CanStop(limit, TableAt(m), m.time, clock.now, readings, gone, uri) && SweptSoFar(m, Snap(), gone)
      requires Removable(TableAt(m), uri) ==> Sweeping(limit, TableAt(m), m.time, clock.now, readings, gone + {uri})
      modifies this, store, store.db, store.resolveStore
      ensures err == Ok ==> Sweeping(limit, TableAt(m), m.time, clock.now, readings, more)
                            && SweptSoFar(m, Snap(), more)
      ensures err != Ok ==> Ran(limit, store.db.answers, m, Snap(), err, readings, Some(uri))
    {
      err := Evict(uri, m, gone);
      more := gone + {uri};
      if err != Ok { SweepStops(limit, store.db.answers, m, Snap(), readings, gone, uri, err); }
    }

    /** The sweep behind the mutex. */
    method RunLocked() returns (err: Err, ghost readings: map<Uri, int>, ghost stuck: Option<Uri>,
                                ghost times: seq<int>)
      requires !blocked
      modifies this, clock, store, store.db, store.resolveStore
      ensures Ran(limit, store.db.answers, old(Snap()), Snap(), err, readings, stuck)
      ensures clock.log == old(clock.log) + times && ReadInTurn(readings, times)
    {
      ghost var m := Snap();
      ghost var t, gone: set<Uri> := TableAt(m), {};
      var rest := devices.Keys;
      readings, stuck, times := map[], None, [];
      SweptNothing(m.devices, m.store);
      while rest != {}
        invariant clock.log == old(clock.log) + times && ReadInTurn(readings, times)
        invariant readings.Keys == m.devices.Keys - rest && rest <= m.devices.Keys
        invariant Sweeping(limit, t, m.time, clock.now, readings, gone)
        invariant SweptSoFar(m, Snap(), gone)
        modifies this, clock, store, store.db, store.resolveStore
      {
        var uri :| uri in rest;
        var now;
        now, err, gone := Look(uri, m, readings, gone);
        ReadOneMore(readings, times, uri, now);
        readings, times := readings[uri := now], times + [now];
        rest := rest - {uri};
        if err != Ok {
          stuck := Some(uri);
          return;
        }
      }
      SweepCompletes(limit, store.db.answers, m, Snap(), readings, gone);
      err := Ok;
    }
  }

  /** The monitor and what it calls, at one moment. */
  datatype Snapshot = Snapshot(devices: map<Uri, int>, store: Store, time: int, asked: nat, blocked: bool)

  function TableAt(m: Snapshot): Table {
    TableOf(m.devices, m.store, m.blocked)
  }

  /** A removal asks the database, unless the store hangs or has no such device. */
  function AsksFor(s: Store, uri: Uri): nat {
    if !s.hung && uri in s.nodes then 1 else 0
  }

  /** What a sweep does, from the clock readings and the answers of the database. */
  ghost predicate Ran(limit: int, answers: nat -> bool, m: Snapshot, n: Snapshot,
                          err: Err, readings: map<Uri, int>, stuck: Option<Uri>) {
    var t, e := TableAt(m), Sweep(m.time, n.time, readings, stuck, err == NoReturn);
    && Enabled(limit, t, e) && TableAt(n) == Next(limit, t, e)
    && (err == Ok <==> stuck == None)
    && var gone := Swept(limit, t, readings, stuck);
       && n.asked == m.asked + |gone| + (if stuck.Some? then AsksFor(m.store, stuck.value) else 0)
       && (stuck == None ==> n.store == SweptStore(m.store, gone))
       && (stuck.Some? ==> (n.store, err) == Removed(SweptStore(m.store, gone), stuck.value, err != DbFailed))
       && (err == DbFailed ==> n.asked > m.asked && !answers(n.asked - 1))
  }

  /**
   A sweep that nothing stands in the way of: if the database refuses nothing, and the store does not hang, and
   every device found inactive at its own reading is registered and was started, then the sweep ends without an
   error, and exactly those devices are gone from the table, from the registry and from the database.
   */
  lemma HealthySweep(limit: int, answers: nat -> bool, m: Snapshot, n: Snapshot,
                     err: Err, readings: map<Uri, int>, stuck: Option<Uri>)
    requires Ran(limit, answers, m, n, err, readings, stuck) && !m.store.hung
    requires forall i :: m.asked <= i < n.asked ==> answers(i)
    requires forall uri :: uri in readings && uri in m.devices && readings[uri] - m.devices[uri] >= limit
               ==> uri in m.store.nodes && m.store.nodes[uri].starts > 0
    ensures err == Ok && readings.Keys == m.devices.Keys
    ensures forall uri :: uri in m.devices ==>
              var inactive := readings[uri] - m.devices[uri] >= limit;
              && (uri in n.devices <==> !inactive)
              && (uri in n.store.nodes <==> uri in m.store.nodes && !inactive)
              && (uri in n.store.db <==> uri in m.store.db && !inactive)
  {
  }

  /** What a sweep that has removed `gone` has made of the moment `m`. */
  ghost predicate SweptSoFar(m: Snapshot, n: Snapshot, gone: set<Uri>) {
    && !m.blocked && !n.blocked && n.devices == m.devices - gone && n.store == SweptStore(m.store, gone)
    && n.asked == m.asked + |gone|
    && gone <= m.store.nodes.Keys && (m.store.hung ==> gone == {})
  }

  /** What `Add` does to the devices. */
  lemma AddEffect(parse: UrlParser, s: Store, uri: Uri, typ: Text, desc: Text, now: int64, ok: bool)
    ensures var (t, err) := Added(parse, s, uri, typ, desc, now, ok);
            && t.stopped == s.stopped && t.hung == s.hung && t.monitored == s.monitored
            && (err == NoReturn <==> s.hung)
            && (err == Ok ==> uri !in s.nodes && !s.stopped && uri in t.nodes && t.nodes == s.nodes[uri := t.nodes[uri]]
                              && t.nodes[uri].starts == 1 && t.nodes[uri].notifies == s.monitored)
            && (err != Ok ==> t.nodes == s.nodes)
  {
  }

  /** A sweep that has looked at `readings` and has removed `gone`; `now` is not before them. */
  ghost predicate Sweeping(limit: int, t: Table, start: int, now: int, readings: map<Uri, int>, gone: set<Uri>) {
    && !t.blocked && readings.Keys <= t.devices.Keys
    && start <= now && (forall uri :: uri in readings ==> start <= readings[uri] <= now)
    && gone == Swept(limit, t, readings, None) && gone <= t.stored * t.started
    && (t.hung ==> gone == {})
  }

  /** Looking at one more device: it stays, or it is removed, or it ends the sweep. */
  lemma SweepGoesOn(limit: int, t: Table, start: int, before: int, readings: map<Uri, int>, gone: set<Uri>,
                    uri: Uri, now: int)
    requires Sweeping(limit, t, start, before, readings, gone)
    requires uri in t.devices && uri !in readings && before <= now
    ensures uri !in gone
    ensures var more := readings[uri := now];
            && Swept(limit, t, more, Some(uri)) == gone
            && (now - t.devices[uri] < limit ==> Sweeping(limit, t, start, now, more, gone))
            && (now - t.devices[uri] >= limit && Removable(t, uri)
                ==> Sweeping(limit, t, start, now, more, gone + {uri}))
            && (now - t.devices[uri] >= limit ==> CanStop(limit, t, start, now, more, gone, uri))
  {
    SweptOne(limit, t, readings, uri, now);
  }

  /** Behind a sweep that has removed `gone`, the removal of `uri` has failed, or hangs. */
  ghost predicate EndedBy(answers: nat -> bool, m: Snapshot, n: Snapshot, gone: set<Uri>, uri: Uri, err: Err) {
    && (n.store, err) == Removed(SweptStore(m.store, gone), uri, err != DbFailed)
    && n.devices == m.devices - gone && n.blocked == (err == NoReturn)
    && n.asked == m.asked + |gone| + AsksFor(m.store, uri)
    && (err == DbFailed ==> n.asked > m.asked && !answers(n.asked - 1))
  }

  /** The removal of `uri`, the last device looked at, may end the sweep. */
  ghost predicate CanStop(limit: int, t: Table, start: int, now: int, readings: map<Uri, int>,
                          gone: set<Uri>, uri: Uri) {
    && !t.blocked && uri !in gone && (t.hung ==> gone == {})
    && readings.Keys <= t.devices.Keys && Swept(limit, t, readings, Some(uri)) == gone
    && (JoinHangs(t, uri) ==> Enabled(limit, t, Sweep(start, now, readings, Some(uri), true)))
    && (!t.hung ==> Enabled(limit, t, Sweep(start, now, readings, Some(uri), false)))
  }

  lemma SweepCompletes(limit: int, answers: nat -> bool, m: Snapshot, n: Snapshot,
                       readings: map<Uri, int>, gone: set<Uri>)
    requires Sweeping(limit, TableAt(m), m.time, n.time, readings, gone) && SweptSoFar(m, n, gone)
    requires readings.Keys == m.devices.Keys
    ensures Ran(limit, answers, m, n, Ok, readings, None)
  {
    SweptTable(m.devices, m.store, gone);
  }

  lemma SweepStops(limit: int, answers: nat -> bool, m: Snapshot, n: Snapshot,
                   readings: map<Uri, int>, gone: set<Uri>, uri: Uri, err: Err)
    requires CanStop(limit, TableAt(m), m.time, n.time, readings, gone, uri)
    requires err != Ok && EndedBy(answers, m, n, gone, uri, err)
    ensures Ran(limit, answers, m, n, err, readings, Some(uri))
  {
    SweptTable(m.devices, m.store, gone);
  }

  lemma MinusMinus<V>(m: map<Uri, V>, a: set<Uri>, b: set<Uri>)
    ensures (m - a) - b == m - (a + b)
  {
  }

  lemma SweptOne(limit: int, t: Table, readings: map<Uri, int>, uri: Uri, now: int)
    requires readings.Keys <= t.devices.Keys && uri in t.devices && uri !in readings
    ensures var more := readings[uri := now];
            && uri !in Swept(limit, t, readings, None)
            && Swept(limit, t, more, None)
            == Swept(limit, t, readings, None) + (if now - t.devices[uri] >= limit then {uri} else {})
            && Swept(limit, t, more, Some(uri)) == Swept(limit, t, readings, None)
  {
  }

  // ---- Histories

  /** The time an event begins. */
  function Begin(e: Event): int {
    if e.Sweep? then e.start else e.at
  }

  /** The time the latest event ended; `t0` is when the monitor was made. */
  function Clock(t0: int, es: seq<Event>): int {
    if es == [] then t0 else es[|es| - 1].at
  }

  predicate InTime(t0: int, es: seq<Event>, e: Event) {
    Clock(t0, es) <= Begin(e) <= e.at
  }

  /** The table after a history that began with the devices of `boot`; `None` if a step was not possible. */
  function After(limit: int, boot: map<Uri, int>, t0: int, es: seq<Event>): Option<Table> {
    if es == [] then Some(Boot(boot))
    else
      var before, e := es[..|es| - 1], es[|es| - 1];
      match After(limit, boot, t0, before)
      case None => None
      case Some(t) => if Enabled(limit, t, e) && InTime(t0, before, e) then Some(Next(limit, t, e)) else None
  }

  /** A history of a monitor made between `start` and `t0` with a positive limit. */
  predicate Reaches(limit: int, boot: map<Uri, int>, start: int, t0: int, es: seq<Event>, t: Table) {
    && limit > 0
    && (forall uri :: uri in boot ==> start <= boot[uri] <= t0)
    && start <= t0
    && After(limit, boot, t0, es) == Some(t)
  }

  /** Every beginning of a history is one. */
  lemma {:induction false} Earlier(limit: int, boot: map<Uri, int>, start: int, t0: int, es: seq<Event>, t: Table,
                                   k: nat)
    returns (p: Table)
    requires Reaches(limit, boot, start, t0, es, t) && k <= |es|
    ensures Reaches(limit, boot, start, t0, es[..k], p)
    ensures k < |es| ==> Enabled(limit, p, es[k]) && InTime(t0, es[..k], es[k])
  {
    if k == |es| {
      assert es[..k] == es;
      p := t;
    } else {
      var last := |es| - 1;
      assert es[..last][..k] == es[..k];
      p := Earlier(limit, boot, start, t0, es[..last], After(limit, boot, t0, es[..last]).value, k);
    }
  }

  predicate Attached(es: seq<Event>) {
    es != [] && (es[|es| - 1].Attach? || Attached(es[..|es| - 1]))
  }

  /** Was the latest node of this URI made when the store knew the monitor? Restored nodes were not. */
  predicate MadeAttached(es: seq<Event>, uri: Uri) {
    es != [] &&
    if es[|es| - 1].Add? && es[|es| - 1].uri == uri then Attached(es[..|es| - 1])
    else MadeAttached(es[..|es| - 1], uri)
  }

  /** Is this event, behind those, a refresh of the device? */
  predicate RefreshOf(before: seq<Event>, e: Event, uri: Uri) {
    (e.Add? || e.Notify? || (e.Polled? && MadeAttached(before, uri))) && e.uri == uri
  }

  /** The time of the latest refresh: restored, added, notified or polled. */
  function LastRefresh(boot: map<Uri, int>, es: seq<Event>, uri: Uri): Option<int> {
    if es == [] then (if uri in boot then Some(boot[uri]) else None)
    else if RefreshOf(es[..|es| - 1], es[|es| - 1], uri) then Some(es[|es| - 1].at)
    else LastRefresh(boot, es[..|es| - 1], uri)
  }

  predicate GoodSweep(e: Event) {
    e.Sweep? && e.stuck.None?
  }

  /** The start of the latest sweep that ended without an error; construction counts as the first. */
  function LastSweep(start: int, es: seq<Event>): int {
    if es == [] then start
    else if GoodSweep(es[|es| - 1]) then es[|es| - 1].start
    else LastSweep(start, es[..|es| - 1])
  }

  // ---- Theorems over every history

  /** The sets of a table, one device at a time. */
  predicate Explained(boot: map<Uri, int>, es: seq<Event>, t: Table, now: int, uri: Uri) {
    && (uri in t.started ==> uri in t.stored)
    && (uri in t.stored ==> uri in t.devices)
    && (uri in t.notifying <==> uri in t.stored && MadeAttached(es, uri))
    && (uri in t.devices ==> LastRefresh(boot, es, uri) == Some(t.devices[uri]) && t.devices[uri] <= now)
  }

  lemma StepExplains(limit: int, boot: map<Uri, int>, t0: int, es: seq<Event>, q: Table, uri: Uri)
    requires es != [] && Enabled(limit, q, es[|es| - 1]) && InTime(t0, es[..|es| - 1], es[|es| - 1])
    requires q.attached == Attached(es[..|es| - 1])
    requires Explained(boot, es[..|es| - 1], q, Clock(t0, es[..|es| - 1]), uri)
    ensures Explained(boot, es, Next(limit, q, es[|es| - 1]), Clock(t0, es), uri)
  {
  }

  lemma {:induction false} TableExplained(limit: int, boot: map<Uri, int>, start: int, t0: int, es: seq<Event>,
                                          t: Table,
                                          uri: Uri)
    requires Reaches(limit, boot, start, t0, es, t)
    ensures t.attached == Attached(es) && Explained(boot, es, t, Clock(t0, es), uri)
  {
    if es != [] {
      var before := es[..|es| - 1];
      var q := After(limit, boot, t0, before).value;
      TableExplained(limit, boot, start, t0, before, q, uri);
      StepExplains(limit, boot, t0, es, q, uri);
    }
  }

  /**
   A registered device is always monitored, the table holds the time of its latest refresh, and a device
   reports its polls exactly if its node was made when the store knew the monitor.
   */
  lemma TableIsHistory(limit: int, boot: map<Uri, int>, start: int, t0: int, es: seq<Event>, t: Table)
    requires Reaches(limit, boot, start, t0, es, t)
    ensures t.started <= t.stored <= t.devices.Keys
    ensures t.notifying == set uri | uri in t.stored && MadeAttached(es, uri)
    ensures t.attached == Attached(es)
    ensures forall uri :: uri in t.devices ==> LastRefresh(boot, es, uri) == Some(t.devices[uri])
    ensures forall uri :: uri in t.devices ==> t.devices[uri] <= Clock(t0, es)
  {
    TableExplained(limit, boot, start, t0, es, t, "");
    forall uri
      ensures uri in t.started ==> uri in t.stored
      ensures uri in t.stored ==> uri in t.devices
      ensures uri in t.notifying <==> uri in t.stored && MadeAttached(es, uri)
      ensures uri in t.devices ==> LastRefresh(boot, es, uri) == Some(t.devices[uri]) && t.devices[uri] <= Clock(t0, es)
    {
      TableExplained(limit, boot, start, t0, es, t, uri);
    }
  }

  predicate OnlyRegisteredNotify(limit: int, boot: map<Uri, int>, t0: int, es: seq<Event>) {
    forall i :: 0 <= i < |es| && es[i].Notify? ==> NotifyRegistered(limit, boot, t0, es, i)
  }

  predicate NotifyRegistered(limit: int, boot: map<Uri, int>, t0: int, es: seq<Event>, i: nat)
    requires i < |es| && es[i].Notify?
  {
    match After(limit, boot, t0, es[..i])
    case Some(t) => es[i].uri in t.stored
    case None => false
  }

  /** Nothing but registered devices is monitored as long as only they notify and the store is not stopped. */
  lemma {:induction false} MonitoredAreRegistered(limit: int, boot: map<Uri, int>, start: int, t0: int,
                                                  es: seq<Event>, t: Table)
    requires Reaches(limit, boot, start, t0, es, t) && OnlyRegisteredNotify(limit, boot, t0, es) && !t.stopped
    ensures t.devices.Keys == t.stored
  {
    if es != [] {
      var last := |es| - 1;
      var before := es[..last];
      var p := After(limit, boot, t0, before).value;
      forall i | 0 <= i < last && before[i].Notify?
        ensures NotifyRegistered(limit, boot, t0, before, i)
      {
        assert es[..i] == before[..i];
        assert NotifyRegistered(limit, boot, t0, es, i);
      }
      MonitoredAreRegistered(limit, boot, start, t0, before, p);
      if es[last].Notify? { assert NotifyRegistered(limit, boot, t0, es, last); }
    }
  }

  /** Since the latest good sweep began, no monitored device has been silent for the limit. */
  lemma {:induction false} SweepInvariant(limit: int, boot: map<Uri, int>, start: int, t0: int, es: seq<Event>,
                                          t: Table)
    requires Reaches(limit, boot, start, t0, es, t)
    ensures LastSweep(start, es) <= Clock(t0, es)
    ensures forall uri :: uri in t.devices ==> LastSweep(start, es) - t.devices[uri] < limit
  {
    if es != [] {
      var before := es[..|es| - 1];
      TableIsHistory(limit, boot, start, t0, before, After(limit, boot, t0, before).value);
      SweepInvariant(limit, boot, start, t0, before, After(limit, boot, t0, before).value);
    }
  }

  /** From construction to `end`, good sweeps begin at most `gap` after one another. */
  predicate SweptEvery(gap: int, start: int, es: seq<Event>, end: int) {
    && (forall j :: 0 <= j < |es| && GoodSweep(es[j]) ==> es[j].start - LastSweep(start, es[..j]) <= gap)
    && end - LastSweep(start, es) <= gap
  }

  /** A moment after the first `k` events of a history that is watched until `end`, and before the next one. */
  predicate Moment(t0: int, es: seq<Event>, end: int, k: nat, now: int) {
    k <= |es| && Clock(t0, es[..k]) <= now && now <= (if k < |es| then Begin(es[k]) else end)
  }

  /** At every moment of such a run the latest good sweep began at most `gap` ago. */
  lemma {:induction false} SweptRecently(limit: int, boot: map<Uri, int>, start: int, t0: int, es: seq<Event>, t: Table,
                                         gap: int, end: int, k: nat, now: int)
    requires Reaches(limit, boot, start, t0, es, t) && SweptEvery(gap, start, es, end) && Clock(t0, es) <= end
    requires Moment(t0, es, end, k, now)
    ensures now - LastSweep(start, es[..k]) <= gap
  {
    if k == |es| {
      assert es[..k] == es;
    } else {
      var last := |es| - 1;
      var before, e := es[..last], es[last];
      assert es[..k] == before[..k];
      assert forall j :: 0 <= j < last ==> es[..j] == before[..j];
      assert forall j :: 0 <= j < last ==> es[j] == before[j];
      SweptRecently(limit, boot, start, t0, before, After(limit, boot, t0, before).value, gap, Begin(e), k, now);
    }
  }

  /**
   Bounded staleness: with good sweeps at most `gap` apart, construction being the first, every device that is
   monitored at any moment of the run was added, restored or heard of less than `limit + gap` before it.
   */
  lemma BoundedStaleness(limit: int, boot: map<Uri, int>, start: int, t0: int, es: seq<Event>, t: Table,
                         gap: int, end: int, k: nat, now: int, uri: Uri)
    requires Reaches(limit, boot, start, t0, es, t) && SweptEvery(gap, start, es, end) && Clock(t0, es) <= end
    requires Moment(t0, es, end, k, now)
    requires After(limit, boot, t0, es[..k]).Some? ==> uri in After(limit, boot, t0, es[..k]).value.devices
    ensures LastRefresh(boot, es[..k], uri).Some? && now - LastRefresh(boot, es[..k], uri).value < limit + gap
  {
    var p := Earlier(limit, boot, start, t0, es, t, k);
    SweptRecently(limit, boot, start, t0, es, t, gap, end, k, now);
    TableIsHistory(limit, boot, start, t0, es[..k], p);
    SweepInvariant(limit, boot, start, t0, es[..k], p);
  }

  /** No event lies behind the clock, and the latest refresh is the latest. */
  lemma {:induction false} RefreshesUpTo(limit: int, boot: map<Uri, int>, start: int, t0: int, es: seq<Event>,
                                         t: Table, uri: Uri)
    requires Reaches(limit, boot, start, t0, es, t)
    ensures Clock(t0, es) >= t0
    ensures forall i :: 0 <= i < |es| ==> es[i].at <= Clock(t0, es)
    ensures forall i :: 0 <= i < |es| && RefreshOf(es[..i], es[i], uri)
              ==> LastRefresh(boot, es, uri).Some? && es[i].at <= LastRefresh(boot, es, uri).value
    ensures uri in boot ==> LastRefresh(boot, es, uri).Some? && boot[uri] <= LastRefresh(boot, es, uri).value
  {
    if es != [] {
      var before := es[..|es| - 1];
      assert forall i :: 0 <= i < |before| ==> es[..i] == before[..i];
      RefreshesUpTo(limit, boot, start, t0, before, After(limit, boot, t0, before).value, uri);
    }
  }

  /** A sweep that may follow a history. */
  predicate Sweeps(limit: int, boot: map<Uri, int>, start: int, t0: int, es: seq<Event>, t: Table, e: Event) {
    Reaches(limit, boot, start, t0, es, t) && e.Sweep? && Enabled(limit, t, e) && InTime(t0, es, e)
  }

  /** No false eviction: what a sweep removes was not restored, added or heard of within the limit before. */
  lemma NoFalseEviction(limit: int, boot: map<Uri, int>, start: int, t0: int, es: seq<Event>, t: Table, e: Event,
                        uri: Uri)
    requires Sweeps(limit, boot, start, t0, es, t, e)
    requires uri in t.devices && uri !in Next(limit, t, e).devices
    ensures uri in e.readings && e.start <= e.readings[uri] <= e.at
    ensures uri in boot ==> e.readings[uri] - boot[uri] >= limit
    ensures forall i :: 0 <= i < |es| && RefreshOf(es[..i], es[i], uri) ==> e.readings[uri] - es[i].at >= limit
  {
    TableIsHistory(limit, boot, start, t0, es, t);
    RefreshesUpTo(limit, boot, start, t0, es, t, uri);
  }

  /** A device whose latest refresh is less than the limit before its own reading stays, in table and store. */
  lemma RefreshedIsKept(limit: int, boot: map<Uri, int>, start: int, t0: int, es: seq<Event>, t: Table, e: Event,
                        uri: Uri)
    requires Sweeps(limit, boot, start, t0, es, t, e) && uri in t.devices
    requires LastRefresh(boot, es, uri).Some?
    requires uri in e.readings ==> e.readings[uri] - LastRefresh(boot, es, uri).value < limit
    ensures uri in Next(limit, t, e).devices
    ensures uri in t.stored ==> uri in Next(limit, t, e).stored
  {
    TableIsHistory(limit, boot, start, t0, es, t);
  }

  /** A sweep without error removes exactly the inactive devices, from the table and from the store. */
  lemma SweepIsExact(limit: int, boot: map<Uri, int>, start: int, t0: int, es: seq<Event>, t: Table, e: Event)
    requires Reaches(limit, boot, start, t0, es, t) && e.Sweep? && Enabled(limit, t, e)
    ensures var t' := Next(limit, t, e);
            && (forall uri :: uri in t'.devices ==> t'.devices[uri] == t.devices[uri])
            && (forall uri :: uri in t.devices ==>
                 (uri in t'.devices <==> !(Inactive(limit, t, e.readings, uri) && e.stuck != Some(uri))))
            && t'.stored == t.stored * t'.devices.Keys
            && (e.stuck == None ==> forall uri :: uri in t'.devices ==> e.readings[uri] - t.devices[uri] < limit)
  {
    TableIsHistory(limit, boot, start, t0, es, t);
  }

  // ---- Polls

  predicate About(e: Event, uri: Uri) {
    (e.Add? || e.Remove? || e.Notify?) && e.uri == uri
  }

  /** From the `k`-th event on, nothing but polls and sweeps concerns the device. */
  predicate OnlyPolled(es: seq<Event>, k: nat, uri: Uri) {
    forall j :: k <= j < |es| ==> !About(es[j], uri) && !es[j].StopStore?
  }

  predicate PollBefore(limit: int, es: seq<Event>, k: nat, i: int, j: int, uri: Uri)
    requires j < |es|
  {
    k <= i < j && es[i].Polled? && es[i].uri == uri && es[j].at - es[i].at < limit
  }

  predicate PolledWithin(limit: int, es: seq<Event>, k: nat, j: nat, uri: Uri)
    requires j < |es|
  {
    exists i :: 0 <= i < j && PollBefore(limit, es, k, i, j, uri)
  }

  /** The device is polled without error less than the limit before the end of every sweep. */
  predicate PolledInTime(limit: int, es: seq<Event>, k: nat, uri: Uri) {
    forall j :: k <= j < |es| && es[j].Sweep? ==> PolledWithin(limit, es, k, j, uri)
  }

  predicate SweptSince(limit: int, es: seq<Event>, k: nat, since: int) {
    exists j :: k <= j < |es| && GoodSweep(es[j]) && es[j].start - since >= limit
  }

  lemma PollStep(limit: int, q: Table, e: Event, uri: Uri)
    requires Enabled(limit, q, e) && !About(e, uri) && !e.StopStore?
    requires uri in q.stored && uri in q.notifying && uri in q.devices
    requires e.Sweep? && uri in e.readings ==> e.readings[uri] - q.devices[uri] < limit
    ensures var r := Next(limit, q, e);
            && uri in r.stored && uri in r.notifying && uri in r.devices
            && r.devices[uri] == if e.Polled? && e.uri == uri then e.at else q.devices[uri]
  {
  }

  /** No poll of the device is younger than `d`. */
  predicate PollsUpTo(es: seq<Event>, k: nat, uri: Uri, d: int) {
    forall i :: k <= i < |es| && es[i].Polled? && es[i].uri == uri ==> es[i].at <= d
  }

  lemma SweepBehindPoll(limit: int, es: seq<Event>, k: nat, uri: Uri, d: int)
    requires k < |es| && es[|es| - 1].Sweep? && PolledInTime(limit, es, k, uri)
    requires PollsUpTo(es[..|es| - 1], k, uri, d)
    ensures es[|es| - 1].at - d < limit
  {
    var last := |es| - 1;
    assert PolledWithin(limit, es, k, last, uri);
    var i :| 0 <= i < last && PollBefore(limit, es, k, i, last, uri);
    assert es[..last][i] == es[i];
  }

  lemma LaterThanPolls(es: seq<Event>, k: nat, uri: Uri, d: int, d': int)
    requires es != [] && PollsUpTo(es[..|es| - 1], k, uri, d) && d <= d'
    requires es[|es| - 1].Polled? && es[|es| - 1].uri == uri ==> es[|es| - 1].at <= d'
    ensures PollsUpTo(es, k, uri, d')
  {
    var before := es[..|es| - 1];
    forall i | k <= i < |es| && es[i].Polled? && es[i].uri == uri
      ensures es[i].at <= d'
    {
      if i < |before| { assert before[i] == es[i]; }
    }
  }

  /** A device that reports its polls is kept by them. */
  lemma {:induction false} PollsKeep(limit: int, boot: map<Uri, int>, start: int, t0: int, es: seq<Event>, t: Table,
                                     k: nat, p: Table, uri: Uri)
    requires Reaches(limit, boot, start, t0, es, t) && k <= |es| && After(limit, boot, t0, es[..k]) == Some(p)
    requires uri in p.stored && uri in p.notifying && OnlyPolled(es, k, uri) && PolledInTime(limit, es, k, uri)
    ensures uri in t.stored && uri in t.notifying && uri in t.devices
    ensures PollsUpTo(es, k, uri, t.devices[uri])
  {
    if k == |es| {
      assert es[..k] == es;
      TableIsHistory(limit, boot, start, t0, es, t);
    } else {
      var last := |es| - 1;
      var before, e := es[..last], es[last];
      var q := After(limit, boot, t0, before).value;
      Shorter(limit, es, k, uri);
      PollsKeep(limit, boot, start, t0, before, q, k, p, uri);
      TableIsHistory(limit, boot, start, t0, before, q);
      if e.Sweep? { SweepBehindPoll(limit, es, k, uri, q.devices[uri]); }
      PollStep(limit, q, e, uri);
      LaterThanPolls(es, k, uri, q.devices[uri], t.devices[uri]);
    }
  }

  lemma Shorter(limit: int, es: seq<Event>, k: nat, uri: Uri)
    requires k < |es|
    ensures es[..|es| - 1][..k] == es[..k]
    ensures OnlyPolled(es, k, uri) ==> OnlyPolled(es[..|es| - 1], k, uri)
    ensures PolledInTime(limit, es, k, uri) ==> PolledInTime(limit, es[..|es| - 1], k, uri)
  {
    var before := es[..|es| - 1];
    if PolledInTime(limit, es, k, uri) {
      forall j | k <= j < |before| && before[j].Sweep?
        ensures PolledWithin(limit, before, k, j, uri)
      {
        assert es[j] == before[j] && PolledWithin(limit, es, k, j, uri);
        var i :| 0 <= i < j && PollBefore(limit, es, k, i, j, uri);
        assert es[i] == before[i];
        assert PollBefore(limit, before, k, i, j, uri);
      }
    }
  }

  lemma SweptSinceLast(limit: int, es: seq<Event>, k: nat, since: int)
    requires k < |es| && SweptSince(limit, es, k, since)
    ensures SweptSince(limit, es[..|es| - 1], k, since)
         || (GoodSweep(es[|es| - 1]) && es[|es| - 1].start - since >= limit)
  {
    var before := es[..|es| - 1];
    var j :| k <= j < |es| && GoodSweep(es[j]) && es[j].start - since >= limit;
    if j < |before| { assert before[j] == es[j]; }
  }

  lemma SilentStep(limit: int, q: Table, e: Event, uri: Uri, d: int)
    requires Enabled(limit, q, e) && !About(e, uri) && uri !in q.notifying
    requires uri in q.stored ==> uri in q.devices && q.devices[uri] == d
    ensures var r := Next(limit, q, e);
            && uri !in r.notifying && (uri in r.stored ==> uri in q.stored)
            && (uri in r.stored ==> uri in r.devices && r.devices[uri] == d)
            && (uri in r.stored && GoodSweep(e) ==> e.start - d < limit)
  {
    if uri in q.stored && e.Sweep? && uri in e.readings { assert e.start <= e.readings[uri]; }
  }

  /** A device that does not report them keeps its old time, until a sweep takes it. */
  lemma {:induction false} PollsDoNotCount(limit: int, boot: map<Uri, int>, start: int, t0: int, es: seq<Event>,
                                           t: Table,
                                           k: nat, p: Table, uri: Uri)
    requires Reaches(limit, boot, start, t0, es, t) && k <= |es| && After(limit, boot, t0, es[..k]) == Some(p)
    requires uri in p.stored && uri !in p.notifying && OnlyPolled(es, k, uri)
    ensures uri in p.devices && uri !in t.notifying
    ensures uri in t.stored ==> uri in t.devices && t.devices[uri] == p.devices[uri]
    ensures SweptSince(limit, es, k, p.devices[uri]) ==> uri !in t.stored
  {
    if k == |es| {
      assert es[..k] == es;
      TableIsHistory(limit, boot, start, t0, es, t);
    } else {
      var before := es[..|es| - 1];
      var q := After(limit, boot, t0, before).value;
      Shorter(limit, es, k, uri);
      PollsDoNotCount(limit, boot, start, t0, before, q, k, p, uri);
      SilentStep(limit, q, es[|es| - 1], uri, p.devices[uri]);
      if SweptSince(limit, es, k, p.devices[uri]) { SweptSinceLast(limit, es, k, p.devices[uri]); }
    }
  }

  /**
   Being polled without error keeps a device exactly if its node was made when the store knew the monitor: a
   restored device is removed by the first good sweep a limit after its last refresh, however well it does.
   */
  lemma PolledIsKeptIff(limit: int, boot: map<Uri, int>, start: int, t0: int, es: seq<Event>, t: Table,
                        k: nat, p: Table, uri: Uri)
    requires Reaches(limit, boot, start, t0, es, t) && k <= |es| && After(limit, boot, t0, es[..k]) == Some(p)
    requires uri in p.stored && uri in p.devices
    requires OnlyPolled(es, k, uri) && PolledInTime(limit, es, k, uri) && SweptSince(limit, es, k, p.devices[uri])
    ensures uri in t.stored <==> MadeAttached(es[..k], uri)
  {
    TableIsHistory(limit, boot, start, t0, es[..k], p);
    if uri in p.notifying {
      PollsKeep(limit, boot, start, t0, es, t, k, p, uri);
    } else {
      PollsDoNotCount(limit, boot, start, t0, es, t, k, p, uri);
    }
  }

  lemma Snoc(limit: int, boot: map<Uri, int>, start: int, t0: int, es: seq<Event>, t: Table, e: Event)
    requires Reaches(limit, boot, start, t0, es, t) && Enabled(limit, t, e) && InTime(t0, es, e)
    ensures Reaches(limit, boot, start, t0, es + [e], Next(limit, t, e))
  {
    assert (es + [e])[..|es|] == es;
  }

  /** A restored device that is polled at the very moment of the sweep is removed by it. */
  lemma ActiveRestoredIsSwept(limit: int, uri: Uri) returns (es: seq<Event>, t: Table)
    requires limit > 0
    ensures Reaches(limit, map[uri := 0], 0, 0, es, t) && OnlyPolled(es, 0, uri) && PolledInTime(limit, es, 0, uri)
    ensures Attached(es) && GoodSweep(es[|es| - 1]) && uri !in t.stored
  {
    var boot := map[uri := 0];
    var sweep := Sweep(limit, limit, map[uri := limit], None, false);
    var t0 := Boot(boot);
    Snoc(limit, boot, 0, 0, [], t0, Attach(0));
    var t1 := Next(limit, t0, Attach(0));
    Snoc(limit, boot, 0, 0, [] + [Attach(0)], t1, StartStore(0));
    var t2 := Next(limit, t1, StartStore(0));
    Snoc(limit, boot, 0, 0, [] + [Attach(0)] + [StartStore(0)], t2, Polled(uri, limit));
    assert Swept(limit, t2, sweep.readings, None) == {uri};
    Snoc(limit, boot, 0, 0, [] + [Attach(0)] + [StartStore(0)] + [Polled(uri, limit)], t2, sweep);
    es := [] + [Attach(0)] + [StartStore(0)] + [Polled(uri, limit)] + [sweep];
    t := Next(limit, t2, sweep);
    assert es == [Attach(0), StartStore(0), Polled(uri, limit), sweep];
    assert es[..3][..2] == es[..2] && es[..2][..1] == [Attach(0)] && Attached(es[..2]);
    assert Attached(es[..3]);
    assert PollBefore(limit, es, 0, 2, 3, uri);
    assert PolledWithin(limit, es, 0, 3, uri);
  }

  // ---- Monitored, but not registered

  /** The removal of this device by a sweep can go through. */
  predicate Removable(t: Table, uri: Uri) {
    uri in t.stored && uri in t.started && !t.hung
  }

  predicate GoodSweepAt(limit: int, t0: int, es: seq<Event>, t: Table, now: int, e: Event) {
    GoodSweep(e) && e.start == now && Enabled(limit, t, e) && InTime(t0, es, e)
  }

  /**
   At any time a sweep without error can begin exactly if the monitor's mutex is free and every device that is
   inactive then is registered and was started, in a store that does not hang.
   */
  lemma GoodSweepPossibleIff(limit: int, boot: map<Uri, int>, start: int, t0: int, es: seq<Event>, t: Table, now: int)
    requires Reaches(limit, boot, start, t0, es, t) && Clock(t0, es) <= now
    ensures (exists e :: GoodSweepAt(limit, t0, es, t, now, e))
       <==> !t.blocked && forall uri :: uri in t.devices && now - t.devices[uri] >= limit ==> Removable(t, uri)
  {
    if e :| GoodSweepAt(limit, t0, es, t, now, e) {
      forall uri | uri in t.devices && now - t.devices[uri] >= limit
        ensures Removable(t, uri)
      {
        assert uri in Swept(limit, t, e.readings, None);
      }
    }
    if !t.blocked && forall uri :: uri in t.devices && now - t.devices[uri] >= limit ==> Removable(t, uri) {
      var readings := map uri | uri in t.devices :: now;
      var e := Sweep(now, now, readings, None, false);
      if uri :| uri in Swept(limit, t, readings, None) { assert Removable(t, uri); }
      assert GoodSweepAt(limit, t0, es, t, now, e);
    }
  }

  /** On a store that was not started, restored devices that have become inactive leave no good sweep. */
  lemma UnstartedBlocksSweeps(limit: int, uri: Uri, now: int)
    requires limit > 0 && now >= limit
    ensures Reaches(limit, map[uri := 0], 0, 0, [], Boot(map[uri := 0]))
    ensures !exists e :: GoodSweepAt(limit, 0, [], Boot(map[uri := 0]), now, e)
  {
    var t := Boot(map[uri := 0]);
    GoodSweepPossibleIff(limit, map[uri := 0], 0, 0, [], t, now);
    assert uri in t.devices && !Removable(t, uri);
  }

  lemma PhantomStep(limit: int, q: Table, e: Event, uri: Uri)
    requires Enabled(limit, q, e) && uri in q.devices && uri !in q.stored
    requires !((e.Add? || e.Notify?) && e.uri == uri)
    ensures var r := Next(limit, q, e);
            && uri in r.devices && uri !in r.stored && r.devices[uri] == q.devices[uri]
            && (e.Sweep? && e.start - q.devices[uri] >= limit ==> e.stuck.Some?)
  {
    if e.Sweep? {
      assert uri !in Swept(limit, q, e.readings, e.stuck);
      assert uri in e.readings ==> e.start <= e.readings[uri];
    }
  }

  /**
   A device that is monitored but not registered stays so until it is added or notified again, and once it is
   inactive every sweep fails.
   */
  lemma {:induction false} PhantomBlocksSweeps(limit: int, boot: map<Uri, int>, start: int, t0: int, es: seq<Event>,
                                               t: Table,
                                               k: nat, p: Table, uri: Uri)
    requires Reaches(limit, boot, start, t0, es, t) && k <= |es| && After(limit, boot, t0, es[..k]) == Some(p)
    requires uri in p.devices && uri !in p.stored
    requires forall j :: k <= j < |es| ==> !((es[j].Add? || es[j].Notify?) && es[j].uri == uri)
    ensures uri in t.devices && uri !in t.stored && t.devices[uri] == p.devices[uri]
    ensures forall j :: k <= j < |es| && es[j].Sweep? && es[j].start - p.devices[uri] >= limit ==> es[j].stuck.Some?
  {
    if k == |es| {
      assert es[..k] == es;
    } else {
      var last := |es| - 1;
      var before, e := es[..last], es[last];
      var q := After(limit, boot, t0, before).value;
      assert before[..k] == es[..k];
      PhantomBlocksSweeps(limit, boot, start, t0, before, q, k, p, uri);
      PhantomStep(limit, q, e, uri);
      assert forall j :: 0 <= j < last ==> es[j] == before[j];
    }
  }

  /** Such a device comes about by a notification for a URI that is not registered, and by stopping the store. */
  lemma PhantomsArise(limit: int, uri: Uri)
    requires limit > 0
    ensures exists t :: Reaches(limit, map[], 0, 0, [Notify(uri, 0)], t) && uri in t.devices && uri !in t.stored
    ensures exists t :: Reaches(limit, map[uri := 0], 0, 0, [StartStore(0), StopStore(0)], t)
                        && uri in t.devices && uri !in t.stored
  {
    var t := Boot(map[]);
    assert [] + [Notify(uri, 0)] == [Notify(uri, 0)];
    Snoc(limit, map[], 0, 0, [], t, Notify(uri, 0));
    assert uri in Next(limit, t, Notify(uri, 0)).devices;
    var boot := map[uri := 0];
    Snoc(limit, boot, 0, 0, [], Boot(boot), StartStore(0));
    var t1 := Next(limit, Boot(boot), StartStore(0));
    Snoc(limit, boot, 0, 0, [] + [StartStore(0)], t1, StopStore(0));
    assert [] + [StartStore(0)] + [StopStore(0)] == [StartStore(0), StopStore(0)];
    assert uri in Next(limit, t1, StopStore(0)).devices;
  }
}
