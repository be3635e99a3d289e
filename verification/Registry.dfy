/**
 The persistent device registry: node map, database and resolve cache under adds, removes, database
 failures and restarts.
 */
module Registry {
  import opened Options
  import opened Words
  import opened Colfer
  import opened ResolveCache

  type Uri = string

  /** What `url.Parse` finds in a URI that it accepts. */
  datatype Url = Url(scheme: string, hostname: Host, port: string)

  type UrlParser = Uri -> Option<Url>

  datatype Err =
    | Ok | DeviceExist | BadUri | NotSupported | PortMissing | TooLarge
    | DbFailed | NoDevice | Panicked | NoReturn

  /**
   One cached device. `created` is the UNIX second its creation text is made from; `host` is set if the
   device is reached through the resolve cache; `id` is what its ID holder has; `notifies` tells whether its
   polls are reported to the alive monitor; `starts` counts the starts of its runner.
   */
  datatype Node = Node(typ: Text, desc: Text, created: int64, host: Option<Host>,
                       id: string, notifies: bool, starts: nat)

  /** `time.Format`, in a fixed time zone. */
  type Formatter = int64 -> string

  datatype Result<T> = Success(value: T) | Failure(err: Err)

  /**
   `monitored` tells whether `SetAliveMonitor` was called; `hung` that a call joins a runner that was never
   started, and holds the mutex for ever.
   */
  datatype Store = Store(db: map<Uri, Text>, nodes: map<Uri, Node>, known: set<Host>,
                         monitored: bool, stopped: bool, hung: bool)

  /** Calls are still answered. */
  predicate Open(s: Store) {
    !s.stopped && !s.hung
  }

  /** `strings.Contains` */
  predicate Contains(s: string, t: string) {
    exists i :: 0 <= i <= |s| && StartsAt(s, i, t)
  }

  predicate StartsAt(s: string, i: nat, t: string) {
    i + |t| <= |s| && s[i..i + |t|] == t
  }

  /** `t` occurs in `s`. */
  lemma ContainsIff(s: string, t: string)
    ensures Contains(s, t) <==> exists a: string, b: string :: s == a + t + b
  {
    if Contains(s, t) {
      var i :| 0 <= i <= |s| && StartsAt(s, i, t);
      assert s == s[..i] + t + s[i + |t|..];
    }
    if a: string, b: string :| s == a + t + b {
      assert StartsAt(s, |a|, t);
    }
  }

  /** A node depends on the URI, on the item and on whether there is a monitor yet, not on the rest of the state. */
  function MakeNode(parse: UrlParser, uri: Uri, o: Item, notifies: bool): Result<Node> {
    match parse(uri)
    case None => Failure(BadUri)
    case Some(u) =>
      if u.scheme != "http" && u.scheme != "https" then Failure(NotSupported)
      else if u.port == "" then Failure(PortMissing)
      else
        Success(NodeOf(parse, uri, o, notifies, 0))
  }

  /** The URIs that a node can be made for. */
  predicate Usable(parse: UrlParser, uri: Uri) {
    match parse(uri)
    case None => false
    case Some(u) => u.scheme in {"http", "https"} && u.port != ""
  }

  /** The node of an item; the host is set if the device is on the local network. */
  function NodeOf(parse: UrlParser, uri: Uri, o: Item, notifies: bool, starts: nat): Node {
    var host := if Contains(uri, ".local") && parse(uri).Some? then Some(parse(uri).value.hostname) else None;
    Node(o.typ, o.desc, o.timestamp, host, "", notifies, starts)
  }

  function ItemOf(n: Node): Item {
    Item(n.desc, n.created, n.typ)
  }

  function Hosts(n: Node): set<Host> {
    if n.host.Some? then {n.host.value} else {}
  }

  /** The node a stored record becomes, if it becomes one; no monitor is set at that time. */
  function Restore(parse: UrlParser, uri: Uri, bytes: Text): Option<Node> {
    var d := Decode(FRESH, bytes);
    if d.err != NoError then None
    else match MakeNode(parse, uri, d.item, false)
      case Success(n) => Some(n)
      case Failure(_) => None
  }

  // ---- The methods as functions

  /** `kept` are the unrestorable entries whose removal failed. */
  function New(parse: UrlParser, db: map<Uri, Text>, known: set<Host>, kept: set<Uri>): Store {
    var nodes := Restored(parse, db);
    Store(map uri | uri in db && (uri in nodes || uri in kept) :: db[uri], nodes, known + NodeHosts(nodes),
          false, false, false)
  }

  function Restored(parse: UrlParser, db: map<Uri, Text>): map<Uri, Node> {
    map uri | uri in db && Restore(parse, uri, db[uri]).Some? :: Restore(parse, uri, db[uri]).value
  }

  function NodeHosts(nodes: map<Uri, Node>): set<Host> {
    set uri, h | uri in nodes && h in Hosts(nodes[uri]) :: h
  }

  function Started(n: Node): Node {
    n.(starts := n.starts + 1)
  }

  function StartedAll(s: Store): Store {
    if s.hung then s else s.(nodes := map uri | uri in s.nodes :: Started(s.nodes[uri]))
  }

  predicate AllStarted(s: Store) {
    forall uri :: uri in s.nodes ==> s.nodes[uri].starts > 0
  }

  /** `walked` are the devices stopped so far if one of them cannot be joined. */
  function StoppedAll(s: Store, walked: set<Uri>): Store {
    if s.hung then s
    else if AllStarted(s) then s.(nodes := map[], known := s.known - NodeHosts(s.nodes), stopped := true)
    else s.(known := s.known - NodeHosts(Except(s.nodes, s.nodes.Keys - walked)), hung := true)
  }

  function Monitored(s: Store): Store {
    s.(monitored := true)
  }

  /** `now` is the clock reading of the call; a node is made, and its host added, before anything can fail. */
  function Added(parse: UrlParser, s: Store, uri: Uri, typ: Text, desc: Text, now: int64, writeOk: bool): (Store, Err) {
    if s.hung then (s, NoReturn)
    else if uri in s.nodes then (s, DeviceExist)
    else
      var o := Item(desc, now, typ);
      match MakeNode(parse, uri, o, s.monitored)
      case Failure(e) => (s, e)
      case Success(n) =>
        var s1 := s.(known := s.known + Hosts(n));
        if Marshalable(o) != NoError then (s1, TooLarge)
        else if !writeOk then (s1, DbFailed)
        else
          var s2 := s1.(db := s1.db[uri := Encode(o)]);
          if s.stopped then (s2, Panicked)   // assignment to the nil map
          else (s2.(nodes := s2.nodes[uri := Started(n)]), Ok)
  }

  /** The record and the host go before the runner is joined, the node behind it. */
  function Removed(s: Store, uri: Uri, removeOk: bool): (Store, Err) {
    if s.hung then (s, NoReturn)
    else if uri !in s.nodes then (s, NoDevice)
    else if !removeOk then (s, DbFailed)
    else
      var t := s.(db := s.db - {uri}, known := s.known - Hosts(s.nodes[uri]));
      if s.nodes[uri].starts == 0 then (t.(hung := true), NoReturn)
      else (t.(nodes := s.nodes - {uri}), Ok)
  }

  /** The ID holder of a device takes the ID of a registration that was handed over. */
  function Held(s: Store, uri: Uri, id: string): Store {
    if uri in s.nodes then s.(nodes := s.nodes[uri := s.nodes[uri].(id := id)]) else s
  }

  datatype Listed = Listed(typ: Text, desc: Text, created: string, id: string)

  function ListedOf(format: Formatter, n: Node): Listed {
    Listed(n.typ, n.desc, format(n.created), n.id)
  }

  /** What `GetDesc` lists, by URI. */
  function Listing(format: Formatter, nodes: map<Uri, Node>): map<Uri, Listed> {
    map uri | uri in nodes :: ListedOf(format, nodes[uri])
  }

  /** The part of a map that a loop has behind it. */
  function Except<V>(m: map<Uri, V>, rest: set<Uri>): map<Uri, V> {
    map uri | uri in m && uri !in rest :: m[uri]
  }

  lemma ExceptLess<V>(m: map<Uri, V>, rest: set<Uri>, uri: Uri)
    requires uri in rest && uri in m
    ensures Except(m, rest - {uri}) == Except(m, rest)[uri := m[uri]]
  {
  }

  function ForgetAll(c: Cache, hosts: set<Host>): Cache {
    c.(known := c.known - hosts, resolved := c.resolved - hosts)
  }

  lemma ForgetNothing(c: Cache, nodes: map<Uri, Node>)
    ensures ForgetAll(c, NodeHosts(Except(nodes, nodes.Keys))) == c
  {
    assert Except(nodes, nodes.Keys) == map[];
  }

  /** One turn of the walk of a stop. */
  lemma ForgetOneMore(c: Cache, nodes: map<Uri, Node>, rest: set<Uri>, uri: Uri)
    requires uri in rest && rest <= nodes.Keys
    ensures var before, n := ForgetAll(c, NodeHosts(Except(nodes, rest))), nodes[uri];
            ForgetAll(c, NodeHosts(Except(nodes, rest - {uri})))
            == if n.host.Some? then Forget(before, n.host.value) else before
  {
    ExceptLess(nodes, rest, uri);
    NodeHostsGrow(Except(nodes, rest), uri, nodes[uri]);
  }

  lemma NodeHostsAre(nodes: map<Uri, Node>)
    ensures forall h :: h in NodeHosts(nodes) <==> exists uri :: uri in nodes && h in Hosts(nodes[uri])
  {
  }

  lemma NodeHostsGrow(nodes: map<Uri, Node>, uri: Uri, n: Node)
    requires uri !in nodes
    ensures NodeHosts(nodes[uri := n]) == NodeHosts(nodes) + Hosts(n)
  {
    var more := nodes[uri := n];
    forall h | h in NodeHosts(nodes)
      ensures h in NodeHosts(more)
    {
      var u :| u in nodes && h in Hosts(nodes[u]);
      assert u in more && h in Hosts(more[u]);
    }
    forall h | h in Hosts(n)
      ensures h in NodeHosts(more)
    {
      assert uri in more && h in Hosts(more[uri]);
    }
  }

  /** One turn of the walk over the bucket. */
  lemma RestoredGrow(parse: UrlParser, db: map<Uri, Text>, rest: set<Uri>, uri: Uri)
    requires uri in rest && uri in db
    ensures var r, was := Restore(parse, uri, db[uri]), Restored(parse, Except(db, rest));
            && uri !in was
            && Restored(parse, Except(db, rest - {uri})) == (if r.Some? then was[uri := r.value] else was)
            && (r.Some? ==> NodeHosts(was[uri := r.value]) == NodeHosts(was) + Hosts(r.value))
  {
    var r, was := Restore(parse, uri, db[uri]), Restored(parse, Except(db, rest));
    if r.Some? { NodeHostsGrow(was, uri, r.value); }
  }

  lemma UnionUnion(known: set<Host>, hosts: set<Host>, r: Option<Node>)
    ensures r.Some? ==> (known + hosts) + Hosts(r.value) == known + (hosts + Hosts(r.value))
    ensures (known + hosts) + {} == known + hosts
  {
  }

  // ---- The objects

  /**
   A bbolt bucket: every operation is a transaction that happens as a whole or not at all. `answers` tells for
   each of them, in turn, whether it happens.
   */
  class Bucket {
    const answers: nat -> bool
    var asked: nat
    var data: map<Uri, Text>

    constructor (answers: nat -> bool)
      ensures data == map[] && asked == 0 && this.answers == answers
    {
      this.answers := answers;
      data, asked := map[], 0;
    }

    /** The next operation will happen. */
    predicate Willing()
      reads this
    {
      answers(asked)
    }

    method Write(key: Uri, value: Text) returns (ok: bool)
      modifies this
      ensures ok == old(Willing()) && asked == old(asked) + 1
      ensures data == if ok then old(data)[key := value] else old(data)
    {
      ok := answers(asked);
      asked := asked + 1;
      if ok { data := data[key := value]; }
    }

    method Remove(key: Uri) returns (ok: bool)
      modifies this
      ensures ok == old(Willing()) && asked == old(asked) + 1
      ensures data == if ok then old(data) - {key} else old(data)
    {
      ok := answers(asked);
      asked := asked + 1;
      if ok { data := data - {key}; }
    }
  }

  /**
   The entries were to be deleted one by one, in the turns from `from` to `to`, and each of them is still there
   exactly if the bucket refused then.
   */
  ghost predicate DeletedUnlessRefused(order: seq<Uri>, answers: nat -> bool, from: nat, to: nat,
                                       entries: set<Uri>, data: map<Uri, Text>) {
    && (forall uri :: uri in order <==> uri in entries) && to == from + |order|
    && (forall i, j :: 0 <= i < j < |order| ==> order[i] != order[j])
    && (forall i :: 0 <= i < |order| ==> (order[i] in data <==> !answers(from + i)))
  }

  lemma DeletedOneMore(order: seq<Uri>, answers: nat -> bool, from: nat, to: nat,
                       entries: set<Uri>, data: map<Uri, Text>, uri: Uri)
    requires DeletedUnlessRefused(order, answers, from, to, entries, data) && uri !in entries && uri in data
    ensures DeletedUnlessRefused(order + [uri], answers, from, to + 1, entries + {uri},
                                 if answers(to) then data - {uri} else data)
  {
    assert forall i :: 0 <= i < |order| ==> order[i] in order && order[i] != uri;
  }

  /** What a walk over the bucket restores, in terms of the entries. */
  lemma RestoredEntries(parse: UrlParser, db: map<Uri, Text>)
    ensures var nodes := Restored(parse, db);
            && nodes.Keys == (set uri | uri in db && Restorable(parse, uri, db[uri]))
            && (forall uri :: uri in nodes ==>
                 && nodes[uri] == NodeOf(parse, uri, Decode(FRESH, db[uri]).item, false, 0)
                 && Hosts(nodes[uri]) == LocalHosts(parse, uri))
            && (forall h :: h in NodeHosts(nodes) <==> exists uri :: uri in nodes && h in LocalHosts(parse, uri))
  {
    var nodes := Restored(parse, db);
    NodeHostsAre(nodes);
    forall uri | uri in db
      ensures Restorable(parse, uri, db[uri]) <==> Restore(parse, uri, db[uri]).Some?
      ensures Restorable(parse, uri, db[uri])
          ==> Restore(parse, uri, db[uri]) == Some(NodeOf(parse, uri, Decode(FRESH, db[uri]).item, false, 0))
    {
    }
  }

  /** An entry that a node can be made from. */
  predicate Restorable(parse: UrlParser, uri: Uri, bytes: Text) {
    Decode(FRESH, bytes).err == NoError && Usable(parse, uri)
  }

  /** The host under which a device is reached through the resolve cache. */
  function LocalHosts(parse: UrlParser, uri: Uri): set<Host> {
    if Contains(uri, ".local") && parse(uri).Some? then {parse(uri).value.hostname} else {}
  }

  class CacheStore {
    const parse: UrlParser
    const format: Formatter
    const db: Bucket
    const resolveStore: ResolveStore
    var nodes: map<Uri, Node>
    var aliveMonitor: bool
    var stopped: bool
    var hung: bool

    function Value(): Store
      reads this, db, resolveStore
    {
      Store(db.data, nodes, resolveStore.knownHosts, aliveMonitor, stopped, hung)
    }

    /** `NewCacheStore`, in whatever order the bucket and the cleanup are walked. */
    constructor (parse: UrlParser, format: Formatter, db: Bucket, resolveStore: ResolveStore)
      modifies db, resolveStore
      ensures this.db == db && this.resolveStore == resolveStore && this.parse == parse && this.format == format
      ensures Value() == New(parse, old(db.data), old(resolveStore.knownHosts), db.data.Keys)
      ensures nodes.Keys == (set uri | uri in old(db.data) && Restorable(parse, uri, old(db.data)[uri]))
      ensures forall uri :: uri in nodes ==>
                uri in db.data && db.data[uri] == old(db.data)[uri]
                && nodes[uri] == NodeOf(parse, uri, Decode(FRESH, db.data[uri]).item, false, 0)
      ensures exists order :: DeletedUnlessRefused(order, db.answers, old(db.asked), db.asked,
                                                   old(db.data).Keys - nodes.Keys, db.data)
      ensures db.data.Keys <= old(db.data).Keys
      ensures forall h :: h in resolveStore.knownHosts
                <==> h in old(resolveStore.knownHosts) || exists uri :: uri in nodes && h in LocalHosts(parse, uri)
      ensures resolveStore.Value() == old(resolveStore.Value()).(known := resolveStore.knownHosts)
      ensures !aliveMonitor && !stopped && !hung
    {
      this.parse, this.format, this.db, this.resolveStore := parse, format, db, resolveStore;
      nodes, aliveMonitor, stopped, hung := map[], false, false, false;
      new;
      var unrestored := RestoreNodes();
      RestoredEntries(parse, db.data);
      ghost var order := RemoveUnrestored(unrestored);
      assert DeletedUnlessRefused(order, db.answers, old(db.asked), db.asked, unrestored, db.data);
    }

    /** The walk over the bucket. */
    method RestoreNodes() returns (unrestored: set<Uri>)
      requires nodes == map[] && !aliveMonitor
      modifies this`nodes, resolveStore
      ensures nodes == Restored(parse, db.data)
      ensures resolveStore.Value()
           == old(resolveStore.Value()).(known := old(resolveStore.knownHosts) + NodeHosts(nodes))
      ensures unrestored == db.data.Keys - nodes.Keys
    {
      ghost var known := resolveStore.knownHosts;
      var rest := db.data.Keys;
      unrestored := {};
      while rest != {}
        invariant rest <= db.data.Keys
        invariant nodes == Restored(parse, Except(db.data, rest))
        invariant unrestored == db.data.Keys - rest - nodes.Keys
        invariant resolveStore.Value() == old(resolveStore.Value()).(known := known + NodeHosts(nodes))
        modifies this`nodes, resolveStore
      {
        var uri :| uri in rest;
        RestoredGrow(parse, db.data, rest, uri);
        UnionUnion(known, NodeHosts(nodes), Restore(parse, uri, db.data[uri]));
        var ok := RestoreNode(uri, db.data[uri]);
        if !ok { unrestored := unrestored + {uri}; }
        rest := rest - {uri};
      }
      assert Except(db.data, {}) == db.data;
    }

    method RestoreNode(uri: Uri, buf: Text) returns (ok: bool)
      requires uri !in nodes && !aliveMonitor
      modifies this`nodes, resolveStore
      ensures ok == Restore(parse, uri, buf).Some?
      ensures nodes == if ok then old(nodes)[uri := Restore(parse, uri, buf).value] else old(nodes)
      ensures resolveStore.Value()
           == old(resolveStore.Value()).(known := old(resolveStore.knownHosts)
                                                  + (if ok then Hosts(Restore(parse, uri, buf).value) else {}))
    {
      var item := new StorageItem(FRESH);
      var _, err := item.Unmarshal(buf);
      if err != NoError { return false; }
      var r := NewNode(uri, item.Value());
      if r.Failure? { return false; }
      nodes := nodes[uri := r.value];
      ok := true;
    }

    /** `makeNode`: the HTTP clients of a `.local` device register its host. */
    method NewNode(uri: Uri, o: Item) returns (r: Result<Node>)
      modifies resolveStore
      ensures r == MakeNode(parse, uri, o, aliveMonitor)
      ensures r.Success? <==> && parse(uri).Some? && parse(uri).value.scheme in {"http", "https"}
                              && parse(uri).value.port != ""
      ensures r.Success? <==> Usable(parse, uri)
      ensures r.Failure? ==> r.err == if parse(uri).None? then BadUri
                                      else if parse(uri).value.scheme !in {"http", "https"} then NotSupported
                                      else PortMissing
      ensures r.Success? ==> r.value == NodeOf(parse, uri, o, aliveMonitor, 0)
      ensures r.Success? ==> && r.value.typ == o.typ && r.value.desc == o.desc && r.value.created == o.timestamp
                             && r.value.id == "" && r.value.notifies == aliveMonitor && r.value.starts == 0
      ensures resolveStore.knownHosts
           == if r.Success? && Contains(uri, ".local") then old(resolveStore.knownHosts) + {parse(uri).value.hostname}
              else old(resolveStore.knownHosts)
      ensures resolveStore.Value() == old(resolveStore.Value()).(known := resolveStore.knownHosts)
    {
      var u := parse(uri);
      if u.None? { return Failure(BadUri); }
      if u.value.scheme != "http" && u.value.scheme != "https" { return Failure(NotSupported); }
      if u.value.port == "" { return Failure(PortMissing); }
      var host := None;
      if Contains(uri, ".local") {
        resolveStore.Add(u.value.hostname);
        host := Some(u.value.hostname);
      }
      r := Success(Node(o.typ, o.desc, o.timestamp, host, "", aliveMonitor, 0));
    }

    /** Every entry is deleted unless the bucket refuses, in any order. */
    method RemoveUnrestored(unrestored: set<Uri>) returns (ghost order: seq<Uri>)
      requires unrestored <= db.data.Keys
      modifies db
      ensures old(db.data.Keys) - unrestored <= db.data.Keys <= old(db.data.Keys)
      ensures forall uri :: uri in db.data ==> db.data[uri] == old(db.data)[uri]
      ensures DeletedUnlessRefused(order, db.answers, old(db.asked), db.asked, unrestored, db.data)
    {
      var rest := unrestored;
      order := [];
      assert unrestored - rest == {};
      while rest != {}
        invariant rest <= unrestored && rest <= db.data.Keys
        invariant old(db.data.Keys) - unrestored <= db.data.Keys <= old(db.data.Keys)
        invariant forall uri :: uri in db.data ==> db.data[uri] == old(db.data)[uri]
        invariant DeletedUnlessRefused(order, db.answers, old(db.asked), db.asked, unrestored - rest, db.data)
      {
        var uri :| uri in rest;
        DeletedOneMore(order, db.answers, old(db.asked), db.asked, unrestored - rest, db.data, uri);
        assert unrestored - (rest - {uri}) == (unrestored - rest) + {uri};
        order := order + [uri];
        var _ := db.Remove(uri);
        rest := rest - {uri};
      }
      assert unrestored - {} == unrestored;
    }

    method Add(uri: Uri, typ: Text, desc: Text, now: int64) returns (err: Err)
      modifies this`nodes, db, resolveStore
      ensures (Value(), err) == Added(parse, old(Value()), uri, typ, desc, now, old(db.Willing()))
      ensures err == if old(hung) then NoReturn
                     else if uri in old(nodes) then DeviceExist
                     else if parse(uri).None? then BadUri
                     else if parse(uri).value.scheme !in {"http", "https"} then NotSupported
                     else if parse(uri).value.port == "" then PortMissing
                     else if |desc| > 1024 || |typ| > 1024 || |Encode(Item(desc, now, typ))| > 1024 then TooLarge
                     else if !old(db.Willing()) then DbFailed
                     else if old(stopped) then Panicked
                     else Ok
      ensures nodes == if err == Ok then old(nodes)[uri := NodeOf(parse, uri, Item(desc, now, typ), aliveMonitor, 1)]
                       else old(nodes)
      ensures db.data == if err in {Ok, Panicked} then old(db.data)[uri := Encode(Item(desc, now, typ))]
                         else old(db.data)
      ensures db.asked == old(db.asked) + if err in {Ok, Panicked, DbFailed} then 1 else 0
      ensures resolveStore.knownHosts
           == if err in {Ok, Panicked, DbFailed, TooLarge} && Contains(uri, ".local")
              then old(resolveStore.knownHosts) + {parse(uri).value.hostname}
              else old(resolveStore.knownHosts)
      ensures resolveStore.Value() == old(resolveStore.Value()).(known := resolveStore.knownHosts)
    {
      if hung { return NoReturn; }
      if uri in nodes { return DeviceExist; }
      var o := Item(desc, now, typ);
      var r := NewNode(uri, o);
      if r.Failure? { return r.err; }
      assert resolveStore.knownHosts == old(resolveStore.knownHosts) + Hosts(r.value);
      var item := new StorageItem(o);
      var buf, merr := item.MarshalBinary();
      if merr != NoError { return TooLarge; }
      var ok := db.Write(uri, buf);
      if !ok { return DbFailed; }
      if stopped { return Panicked; }
      nodes := nodes[uri := Started(r.value)];
      err := Ok;
    }

    /** Joining a runner that was never started does not return. */
    method Remove(uri: Uri) returns (err: Err)
      modifies this`nodes, this`hung, db, resolveStore
      ensures (Value(), err) == Removed(old(Value()), uri, old(db.Willing()))
      ensures err == if old(hung) then NoReturn
                     else if uri !in old(nodes) then NoDevice
                     else if !old(db.Willing()) then DbFailed
                     else if old(nodes)[uri].starts == 0 then NoReturn
                     else Ok
      ensures nodes == if err == Ok then old(nodes) - {uri} else old(nodes)
      ensures hung == (err == NoReturn)
      ensures db.data == if err == Ok || (hung && !old(hung)) then old(db.data) - {uri} else old(db.data)
      ensures db.asked == old(db.asked) + if !old(hung) && uri in old(nodes) then 1 else 0
      ensures resolveStore.Value()
           == if (err == Ok || (hung && !old(hung))) && old(nodes)[uri].host.Some?
              then Forget(old(resolveStore.Value()), old(nodes)[uri].host.value)
              else old(resolveStore.Value())
    {
      if hung { return NoReturn; }
      if uri !in nodes { return NoDevice; }
      var node := nodes[uri];
      var ok := db.Remove(uri);
      if !ok { return DbFailed; }
      if node.host.Some? { resolveStore.Remove(node.host.value); }
      assert resolveStore.knownHosts == old(resolveStore.knownHosts) - Hosts(node);
      if node.starts == 0 {
        hung := true;
        return NoReturn;
      }
      nodes := nodes - {uri};
      err := Ok;
    }

    method Start()
      modifies this`nodes
      ensures Value() == StartedAll(old(Value()))
      ensures nodes.Keys == old(nodes).Keys
      ensures forall uri :: uri in nodes
                ==> nodes[uri] == old(nodes)[uri].(starts := old(nodes)[uri].starts + if hung then 0 else 1)
    {
      if hung { return; }
      var rest := nodes.Keys;
      while rest != {}
        invariant rest <= nodes.Keys == old(nodes).Keys
        invariant forall uri :: uri in nodes
                            ==> nodes[uri] == if uri in rest then old(nodes)[uri] else Started(old(nodes)[uri])
      {
        var uri :| uri in rest;
        nodes := nodes[uri := Started(nodes[uri])];
        rest := rest - {uri};
      }
    }

    /** The devices are stopped in any order; the first one that was never started is joined for ever. */
    method Stop() returns (ghost walked: set<Uri>)
      modifies this`nodes, this`stopped, this`hung, resolveStore
      ensures Value() == StoppedAll(old(Value()), walked)
      ensures hung <==> old(hung) || exists uri :: uri in old(nodes) && old(nodes)[uri].starts == 0
      ensures stopped == (old(stopped) || !hung) && nodes == if hung then old(nodes) else map[]
      ensures hung && !old(hung)
          ==> walked <= nodes.Keys && exists uri :: uri in walked && nodes[uri].starts == 0
      ensures !hung ==> walked == old(nodes).Keys
      ensures resolveStore.Value()
           == if old(hung) then old(resolveStore.Value())
              else ForgetAll(old(resolveStore.Value()), NodeHosts(Except(old(nodes), old(nodes).Keys - walked)))
    {
      if hung { return {}; }
      ghost var c := resolveStore.Value();
      var rest := nodes.Keys;
      ForgetNothing(c, nodes);
      while rest != {}
        invariant rest <= nodes.Keys
        invariant forall uri :: uri in nodes && uri !in rest ==> nodes[uri].starts > 0
        invariant resolveStore.Value() == ForgetAll(c, NodeHosts(Except(nodes, rest)))
        invariant !hung
        modifies this`hung, resolveStore
      {
        var uri :| uri in rest;
        ForgetOneMore(c, nodes, rest, uri);
        if nodes[uri].host.Some? { resolveStore.Remove(nodes[uri].host.value); }
        rest := rest - {uri};
        if nodes[uri].starts == 0 {
          hung := true;
          walked := nodes.Keys - rest;
          assert nodes.Keys - walked == rest;
          return;
        }
      }
      assert Except(nodes, {}) == nodes;
      walked := nodes.Keys;
      assert nodes.Keys - walked == {};
      nodes := map[];
      stopped := true;
    }

    /** `IDHolder.HandleRegistration` of a cached device, up to the handler behind it. */
    method HandleRegistration(uri: Uri, id: string)
      requires uri in nodes
      modifies this`nodes
      ensures Value() == Held(old(Value()), uri, id)
      ensures nodes == old(nodes)[uri := old(nodes)[uri].(id := id)]
    {
      if nodes[uri].id != id { nodes := nodes[uri := nodes[uri].(id := id)]; }
    }

    method SetAliveMonitor()
      modifies this`aliveMonitor
      ensures Value() == Monitored(old(Value()))
      ensures aliveMonitor
    {
      aliveMonitor := true;
    }

    /** The devices in some order of the map, each once, with the fields of its own node. */
    method GetDesc() returns (items: seq<(Uri, Listed)>)
      ensures forall i, j :: 0 <= i < j < |items| ==> items[i].0 != items[j].0
      ensures forall uri, l :: (uri, l) in items <==> uri in Listing(format, nodes) && Listing(format, nodes)[uri] == l
      ensures forall i :: 0 <= i < |items| ==>
                var uri, l := items[i].0, items[i].1;
                && uri in nodes && l.typ == nodes[uri].typ && l.desc == nodes[uri].desc
                && l.created == format(nodes[uri].created) && l.id == nodes[uri].id
      ensures forall uri :: uri in nodes ==> exists i :: 0 <= i < |items| && items[i].0 == uri
    {
      var rest := nodes.Keys;
      items := [];
      while rest != {}
        invariant rest <= nodes.Keys
        invariant forall i :: 0 <= i < |items| ==> items[i].0 !in rest
        invariant forall i, j :: 0 <= i < j < |items| ==> items[i].0 != items[j].0
        invariant forall uri, l :: (uri, l) in items
                                <==> uri in nodes && uri !in rest && Listing(format, nodes)[uri] == l
      {
        var uri :| uri in rest;
        items := items + [(uri, Listed(nodes[uri].typ, nodes[uri].desc, format(nodes[uri].created), nodes[uri].id))];
        rest := rest - {uri};
      }
      forall uri | uri in nodes
        ensures exists i :: 0 <= i < |items| && items[i].0 == uri
      {
        assert (uri, Listing(format, nodes)[uri]) in items;
      }
      forall i | 0 <= i < |items|
        ensures items[i].0 in nodes && items[i].1 == ListedOf(format, nodes[items[i].0])
      {
        assert (items[i].0, items[i].1) in items;
      }
    }
  }
}
