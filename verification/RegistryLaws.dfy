/** What the registry keeps over whole lives of the store, and across restarts. */
module RegistryLaws {
  import opened Options
  import opened Words
  import opened Colfer
  import opened ColferLaws
  import opened ResolveCache
  import opened Registry

  /** One call between construction and `Stop`, with the outcome of its database operation. */
  datatype Call =
    | CallAdd(uri: Uri, typ: Text, desc: Text, now: int64, writeOk: bool)
    | CallRemove(uri: Uri, removeOk: bool)
    | CallStart
    | CallMonitor
    | CallHold(uri: Uri, id: string)

  function Step(parse: UrlParser, s: Store, c: Call): Store {
    match c
    case CallAdd(uri, typ, desc, now, ok) => Added(parse, s, uri, typ, desc, now, ok).0
    case CallRemove(uri, ok) => Removed(s, uri, ok).0
    case CallStart => StartedAll(s)
    case CallMonitor => Monitored(s)
    case CallHold(uri, id) => Held(s, uri, id)
  }

  function Run(parse: UrlParser, s: Store, calls: seq<Call>): Store
    decreases calls
  {
    if calls == [] then s else Run(parse, Step(parse, s, calls[0]), calls[1..])
  }

  // ---- Map and database

  /** A record below the size limit reads back as the node's item; one at the limit is the node's encoding. */
  predicate Records(bytes: Text, n: Node) {
    || (Decode(FRESH, bytes).err == NoError && Decode(FRESH, bytes).item == ItemOf(n))
    || (bytes == Encode(ItemOf(n)) && |bytes| == COLFER_SIZE_MAX)
  }

  /** The node as it is made when the hub starts: no ID, no notifier, no start. */
  function Fresh(n: Node): Node {
    n.(id := "", starts := 0, notifies := false)
  }

  /** The device is cached and has no record. */
  predicate Lost(s: Store, uri: Uri) {
    uri in s.nodes && uri !in s.db
  }

  /**
   Every node has its record, but for the one whose removal hangs; a node with a record could be made again from
   it; and an entry without a node is one that no node can be made from.
   */
  ghost predicate Agree(parse: UrlParser, s: Store) {
    && (!s.hung ==> s.nodes.Keys <= s.db.Keys)
    && (forall u, v :: Lost(s, u) && Lost(s, v) ==> u == v)
    && (forall uri :: uri in s.nodes && uri in s.db ==>
         Records(s.db[uri], s.nodes[uri])
         && MakeNode(parse, uri, ItemOf(s.nodes[uri]), false) == Success(Fresh(s.nodes[uri])))
    && (forall uri :: uri in s.db && uri !in s.nodes ==> Restore(parse, uri, s.db[uri]).None?)
  }

  /** Construction establishes agreement from any database, however malformed. */
  lemma NewAgrees(parse: UrlParser, db: map<Uri, Text>, known: set<Host>, kept: set<Uri>)
    ensures var s := New(parse, db, known, kept);
            && Agree(parse, s) && Open(s)
            && (forall uri :: uri in db && Restore(parse, uri, db[uri]).Some? ==> uri in s.db && s.db[uri] == db[uri])
            && (kept == {} ==> s.nodes.Keys == s.db.Keys)
  {
  }

  lemma AddRecords(o: Item, n: Node)
    requires Marshalable(o) == NoError && ItemOf(n) == o
    ensures Records(Encode(o), n)
  {
    RoundTrip(FRESH, o, []);
    assert Encode(o) + [] == Encode(o);
  }

  /** Every call keeps agreement, whichever database operation fails, and even if it hangs. */
  lemma StepAgrees(parse: UrlParser, s: Store, c: Call)
    requires Agree(parse, s) && !s.stopped
    ensures Agree(parse, Step(parse, s, c)) && !Step(parse, s, c).stopped
  {
    match c {
      case CallAdd(_, _, _, _, _) => AddAgrees(parse, s, c);
      case CallRemove(_, _) => RemoveAgrees(parse, s, c);
      case _ => SameItemsAgree(parse, s, Step(parse, s, c));
    }
  }

  lemma RemoveAgrees(parse: UrlParser, s: Store, c: Call)
    requires Agree(parse, s) && !s.stopped && c.CallRemove?
    ensures Agree(parse, Step(parse, s, c)) && !Step(parse, s, c).stopped
  {
    assert forall u :: Lost(Step(parse, s, c), u) ==> Lost(s, u) || u == c.uri;
    assert !s.hung ==> forall u :: !Lost(s, u);
  }

  /** Starts, notifiers and IDs do not matter. */
  lemma SameItemsAgree(parse: UrlParser, s: Store, t: Store)
    requires Agree(parse, s) && t.db == s.db && t.hung == s.hung && t.nodes.Keys == s.nodes.Keys
    requires forall uri :: uri in s.nodes ==> Fresh(t.nodes[uri]) == Fresh(s.nodes[uri])
    ensures Agree(parse, t)
  {
    assert forall u :: Lost(t, u) ==> Lost(s, u);
    forall uri | uri in t.nodes && uri in t.db
      ensures Records(t.db[uri], t.nodes[uri])
           && MakeNode(parse, uri, ItemOf(t.nodes[uri]), false) == Success(Fresh(t.nodes[uri]))
    {
      assert ItemOf(t.nodes[uri]) == ItemOf(Fresh(t.nodes[uri])) == ItemOf(s.nodes[uri]);
    }
  }

  lemma AddAgrees(parse: UrlParser, s: Store, c: Call)
    requires Agree(parse, s) && !s.stopped && c.CallAdd?
    ensures Agree(parse, Step(parse, s, c)) && !Step(parse, s, c).stopped
  {
    var o := Item(c.desc, c.now, c.typ);
    var r := MakeNode(parse, c.uri, o, s.monitored);
    if r.Success? && Marshalable(o) == NoError && !s.hung && c.uri !in s.nodes && c.writeOk {
      AddRecords(o, Started(r.value));
      PutAgrees(parse, s, c.uri, Encode(o), Started(r.value), s.known + Hosts(r.value));
      assert Step(parse, s, c) == s.(db := s.db[c.uri := Encode(o)], nodes := s.nodes[c.uri := Started(r.value)],
                                     known := s.known + Hosts(r.value));
    } else {
      assert forall u :: Lost(Step(parse, s, c), u) ==> Lost(s, u);
    }
  }

  /** A record and its node are put in together. */
  lemma PutAgrees(parse: UrlParser, s: Store, uri: Uri, bytes: Text, n: Node, known: set<Host>)
    requires Agree(parse, s) && Records(bytes, n) && MakeNode(parse, uri, ItemOf(n), false) == Success(Fresh(n))
    ensures Agree(parse, s.(db := s.db[uri := bytes], nodes := s.nodes[uri := n], known := known))
  {
    var t := s.(db := s.db[uri := bytes], nodes := s.nodes[uri := n], known := known);
    assert forall u :: Lost(t, u) ==> Lost(s, u);
    forall u | u in t.nodes && u in t.db
      ensures Records(t.db[u], t.nodes[u])
           && MakeNode(parse, u, ItemOf(t.nodes[u]), false) == Success(Fresh(t.nodes[u]))
    {
      if u != uri { assert u in s.nodes && u in s.db && t.db[u] == s.db[u] && t.nodes[u] == s.nodes[u]; }
    }
  }

  lemma {:induction false} RunAgrees(parse: UrlParser, s: Store, calls: seq<Call>)
    requires Agree(parse, s) && !s.stopped
    ensures Agree(parse, Run(parse, s, calls)) && !Run(parse, s, calls).stopped
    decreases calls
  {
    if calls != [] {
      StepAgrees(parse, s, calls[0]);
      RunAgrees(parse, Step(parse, s, calls[0]), calls[1..]);
    }
  }

  // ---- Restart

  predicate Survives(n: Node) {
    |Encode(ItemOf(n))| < COLFER_SIZE_MAX
  }

  lemma RecordReadsBack(bytes: Text, n: Node)
    requires Records(bytes, n)
    ensures Decode(FRESH, bytes).err == NoError <==> Survives(n)
    ensures Survives(n) ==> Decode(FRESH, bytes).item == ItemOf(n)
  {
    if |bytes| == COLFER_SIZE_MAX && bytes == Encode(ItemOf(n)) {
      FullRecordFails(ItemOf(n));
    } else {
      DecodedIsSmall(bytes);
    }
  }

  lemma FullRecordFails(o: Item)
    requires |Encode(o)| == COLFER_SIZE_MAX
    ensures Decode(FRESH, Encode(o)).err == ColferMax
  {
    SizeAtLeastFields(o);
    RoundTrip(FRESH, o, []);
    assert Encode(o) + [] == Encode(o);
  }

  lemma DecodedIsSmall(bytes: Text)
    requires Decode(FRESH, bytes).err == NoError
    ensures |Encode(Decode(FRESH, bytes).item)| < COLFER_SIZE_MAX
  {
    Normalisation(bytes);
    SuccessShape(FRESH, bytes);
  }

  /** In an agreeing store an entry can be restored exactly if it has a node whose encoding is below the limit. */
  lemma RestoredIff(parse: UrlParser, s: Store, uri: Uri)
    requires Agree(parse, s) && uri in s.db
    ensures Restore(parse, uri, s.db[uri])
         == if uri in s.nodes && Survives(s.nodes[uri]) then Some(Fresh(s.nodes[uri])) else None
  {
    if uri in s.nodes { RecordReadsBack(s.db[uri], s.nodes[uri]); }
  }

  /** The devices with a record that can be read back. */
  function Lasting(s: Store): map<Uri, Node> {
    map uri | uri in s.nodes && uri in s.db && Survives(s.nodes[uri]) :: s.nodes[uri]
  }

  /** A new store on the database of an agreeing one has exactly its lasting devices, made afresh. */
  lemma RestoredAre(parse: UrlParser, s: Store)
    requires Agree(parse, s)
    ensures Restored(parse, s.db).Keys == Lasting(s).Keys
    ensures forall uri :: uri in Lasting(s) ==> Restored(parse, s.db)[uri] == Fresh(Lasting(s)[uri])
  {
    forall uri | uri in s.db
      ensures uri in Restored(parse, s.db) <==> uri in Lasting(s)
      ensures uri in Lasting(s) ==> Restored(parse, s.db)[uri] == Fresh(Lasting(s)[uri])
    {
      RestoredIff(parse, s, uri);
    }
  }

  /** The same devices with the same texts, and no IDs yet. */
  predicate ListsAgain(l: map<Uri, Listed>, m: map<Uri, Listed>) {
    l.Keys == m.Keys && forall uri :: uri in l ==> l[uri] == m[uri].(id := "")
  }

  /** Starts and notifiers do not show in the listing. */
  lemma FreshListing(format: Formatter, m: map<Uri, Node>, n: map<Uri, Node>)
    requires m.Keys == n.Keys && forall uri :: uri in n ==> m[uri] == Fresh(n[uri])
    ensures ListsAgain(Listing(format, m), Listing(format, n))
  {
  }

  /**
   A new store on the database of an agreeing one lists the same type, description and creation text for
   exactly the devices whose encoding is below the size limit, and nothing else.
   */
  lemma RestartLists(parse: UrlParser, format: Formatter, s: Store, known: set<Host>, kept: set<Uri>)
    requires Agree(parse, s)
    ensures ListsAgain(Listing(format, New(parse, s.db, known, kept).nodes), Listing(format, Lasting(s)))
    ensures !s.hung ==> Lasting(s).Keys == set uri | uri in s.nodes && Survives(s.nodes[uri])
  {
    RestoredAre(parse, s);
    FreshListing(format, Restored(parse, s.db), Lasting(s));
  }

  /** A device without a record is one whose removal was asked for. */
  lemma {:induction false} LostWasRemoved(parse: UrlParser, s: Store, calls: seq<Call>, uri: Uri)
    requires Lost(Run(parse, s, calls), uri)
    ensures Lost(s, uri) || CallRemove(uri, true) in calls
    decreases calls
  {
    if calls != [] {
      LostWasRemoved(parse, Step(parse, s, calls[0]), calls[1..], uri);
      if Lost(Step(parse, s, calls[0]), uri) { StepLoses(parse, s, calls[0], uri); }
      assert calls == [calls[0]] + calls[1..];
    }
  }

  lemma StepLoses(parse: UrlParser, s: Store, c: Call, uri: Uri)
    requires Lost(Step(parse, s, c), uri)
    ensures Lost(s, uri) || c == CallRemove(uri, true)
  {
  }

  /** The devices that a new store lists again, if all goes well: those below the size limit. */
  function Surviving(s: Store): set<Uri> {
    set uri | uri in s.nodes && Survives(s.nodes[uri])
  }

  /**
   A whole life: any database, any calls with any failures, `Stop`, and a new store. `Stop` leaves the
   database alone, so the listing before it is the one after the restart. If no call hangs, every device below
   the size limit is listed again; one that hangs costs at most a single device, whose removal was asked for.
   */
  lemma RestartPreserves(parse: UrlParser, format: Formatter, db: map<Uri, Text>, known: set<Host>, kept: set<Uri>,
                         calls: seq<Call>, walked: set<Uri>, known': set<Host>, kept': set<Uri>)
    ensures var s := Run(parse, New(parse, db, known, kept), calls);
            var again := New(parse, StoppedAll(s, walked).db, known', kept').nodes;
            && ListsAgain(Listing(format, again), Listing(format, Lasting(s)))
            && again.Keys <= Surviving(s)
            && (!s.hung ==> again.Keys == Surviving(s))
            && (forall u, v :: u in Surviving(s) - again.Keys && v in Surviving(s) - again.Keys ==> u == v)
            && (forall u :: u in Surviving(s) - again.Keys ==> CallRemove(u, true) in calls)
  {
    var s0 := New(parse, db, known, kept);
    NewAgrees(parse, db, known, kept);
    var s := Run(parse, s0, calls);
    RunAgrees(parse, s0, calls);
    RestartLists(parse, format, s, known', kept');
    RestoredAre(parse, s);
    forall u | u in Surviving(s) - Lasting(s).Keys
      ensures Lost(s, u) && CallRemove(u, true) in calls
    {
      LostWasRemoved(parse, s0, calls, u);
    }
  }

  /** What one restart lists, every further restart lists. */
  lemma RestartIdempotent(parse: UrlParser, db: map<Uri, Text>, known: set<Host>, kept: set<Uri>,
                          known': set<Host>, kept': set<Uri>)
    ensures var s := New(parse, db, known, kept);
            New(parse, s.db, known', kept').nodes == s.nodes
  {
    var s := New(parse, db, known, kept);
    NewAgrees(parse, db, known, kept);
    forall uri | uri in s.db
      ensures Restore(parse, uri, s.db[uri]).Some? ==> uri in s.nodes
    {
      RestoredIff(parse, s, uri);
    }
  }

  /** A device whose record is exactly as large as the limit is added, listed, and gone after a restart. */
  lemma FullRecordIsLost(parse: UrlParser, uri: Uri)
    requires MakeNode(parse, uri, Item(seq(1018, i => 65), 1, []), false).Success?
    ensures var desc := seq(1018, i => 65);
            var s := Added(parse, New(parse, map[], {}, {}), uri, [], desc, 1, true);
            && s.1 == Ok && uri in s.0.nodes && uri in s.0.db
            && New(parse, s.0.db, {}, {}).nodes == map[]
            && New(parse, s.0.db, {}, {}).db == map[]
  {
    var desc: Text := seq(1018, i => 65);
    var o := Item(desc, 1, []);
    assert |Uvarint(1018)| == 2 by { assert |Uvarint(1018 / 128)| == 1; }
    assert |TextField(0, desc)| == 1021;
    assert |Encode(o)| == 1024;
    var s := Added(parse, New(parse, map[], {}, {}), uri, [], desc, 1, true).0;
    FullRecordFails(o);
    assert Restore(parse, uri, s.db[uri]).None?;
  }

  // ---- Start once

  predicate AllStartedOnce(s: Store) {
    forall uri :: uri in s.nodes ==> s.nodes[uri].starts == 1
  }

  /** After `Start`, and no second `Start`, every runner has been started exactly once, and no call hangs. */
  lemma {:induction false} StartOnce(parse: UrlParser, s: Store, calls: seq<Call>)
    requires AllStartedOnce(s) && Open(s) && CallStart !in calls
    ensures AllStartedOnce(Run(parse, s, calls)) && Open(Run(parse, s, calls))
    decreases calls
  {
    if calls != [] {
      var t := Step(parse, s, calls[0]);
      assert AllStartedOnce(t) && Open(t);
      assert forall c :: c in calls[1..] ==> c in calls;
      StartOnce(parse, t, calls[1..]);
    }
  }

  /** The devices added in these calls and not removed since. */
  function AddedSince(parse: UrlParser, s: Store, calls: seq<Call>): set<Uri> {
    if calls == [] then {}
    else
      var last := |calls| - 1;
      var before := Run(parse, s, calls[..last]);
      var was := AddedSince(parse, s, calls[..last]);
      match calls[last]
      case CallAdd(uri, typ, desc, now, ok) =>
        if Added(parse, before, uri, typ, desc, now, ok).1 == Ok then was + {uri} else was
      case CallRemove(uri, ok) => if Removed(before, uri, ok).1 == Ok then was - {uri} else was
      case _ => was
  }

  lemma {:induction false} RunSnoc(parse: UrlParser, s: Store, calls: seq<Call>, c: Call)
    ensures Run(parse, s, calls + [c]) == Step(parse, Run(parse, s, calls), c)
    decreases calls
  {
    if calls == [] {
      assert Run(parse, Step(parse, s, c), []) == Step(parse, s, c);
      assert ([] + [c])[1..] == [];
    } else {
      assert (calls + [c])[1..] == calls[1..] + [c];
      RunSnoc(parse, Step(parse, s, calls[0]), calls[1..], c);
    }
  }

  /** Started once if added, not at all if restored. */
  predicate StartsAre(s: Store, added: set<Uri>) {
    && !s.stopped
    && added <= s.nodes.Keys
    && (forall uri :: uri in s.nodes ==> s.nodes[uri].starts == if uri in added then 1 else 0)
    && (s.hung ==> exists uri :: uri in s.nodes && uri !in added)
  }

  lemma {:induction false} StartsBefore(parse: UrlParser, s0: Store, calls: seq<Call>)
    requires Open(s0) && StartsAre(s0, {}) && CallStart !in calls
    ensures StartsAre(Run(parse, s0, calls), AddedSince(parse, s0, calls))
    decreases calls
  {
    if calls != [] {
      var last := |calls| - 1;
      StartsBefore(parse, s0, calls[..last]);
      assert calls == calls[..last] + [calls[last]];
      RunSnoc(parse, s0, calls[..last], calls[last]);
      StepStarts(parse, Run(parse, s0, calls[..last]), AddedSince(parse, s0, calls[..last]), calls[last]);
    }
  }

  lemma StepStarts(parse: UrlParser, s: Store, added: set<Uri>, c: Call)
    requires StartsAre(s, added) && !c.CallStart?
    ensures StartsAre(Step(parse, s, c),
                      match c
                      case CallAdd(uri, typ, desc, now, ok) =>
                        if Added(parse, s, uri, typ, desc, now, ok).1 == Ok then added + {uri} else added
                      case CallRemove(uri, ok) => if Removed(s, uri, ok).1 == Ok then added - {uri} else added
                      case _ => added)
  {
  }

  /**
   Calls made between construction and `Start` break "started once" exactly if they leave an added device
   behind, whose runner `Add` has started and `Start` starts again, or if one of them hangs.
   */
  lemma EarlyAddStartsTwice(parse: UrlParser, db: map<Uri, Text>, known: set<Host>, kept: set<Uri>, calls: seq<Call>)
    requires CallStart !in calls
    ensures var s0 := New(parse, db, known, kept);
            AllStartedOnce(Run(parse, s0, calls + [CallStart]))
            <==> AddedSince(parse, s0, calls) == {} && Open(Run(parse, s0, calls))
  {
    var s0 := New(parse, db, known, kept);
    var s := Run(parse, s0, calls);
    var added := AddedSince(parse, s0, calls);
    StartsBefore(parse, s0, calls);
    RunSnoc(parse, s0, calls, CallStart);
    var t := StartedAll(s);
    if s.hung {
      var uri :| uri in s.nodes && uri !in added;
      assert t.nodes[uri].starts == 0;
    } else if added != {} {
      var uri :| uri in added;
      assert uri in t.nodes && t.nodes[uri].starts == 2;
    }
  }

  /** Before `Start` a removal hangs exactly if the device was restored, not added. */
  lemma EarlyRemoveHangs(parse: UrlParser, db: map<Uri, Text>, known: set<Host>, kept: set<Uri>, calls: seq<Call>,
                         uri: Uri)
    requires CallStart !in calls && Open(Run(parse, New(parse, db, known, kept), calls))
    ensures var s0 := New(parse, db, known, kept);
            var s := Run(parse, s0, calls);
            Removed(s, uri, true).0.hung <==> uri in s.nodes && uri !in AddedSince(parse, s0, calls)
  {
    StartsBefore(parse, New(parse, db, known, kept), calls);
  }

  // ---- IDs

  /** The ID handed over last for the device since it was added; none for a device just made. */
  function LatestId(parse: UrlParser, s: Store, calls: seq<Call>, uri: Uri): string {
    if calls == [] then ""
    else
      var last := |calls| - 1;
      var was := LatestId(parse, s, calls[..last], uri);
      match calls[last]
      case CallAdd(u, typ, desc, now, ok) =>
        if u == uri && Added(parse, Run(parse, s, calls[..last]), u, typ, desc, now, ok).1 == Ok then "" else was
      case CallHold(u, id) => if u == uri && uri in Run(parse, s, calls[..last]).nodes then id else was
      case _ => was
  }

  /** The ID that is listed is the one handed over last for this very node. */
  lemma IdIsLatest(parse: UrlParser, format: Formatter, db: map<Uri, Text>, known: set<Host>, kept: set<Uri>,
                   calls: seq<Call>, uri: Uri)
    requires uri in Run(parse, New(parse, db, known, kept), calls).nodes
    ensures var s0 := New(parse, db, known, kept);
            Listing(format, Run(parse, s0, calls).nodes)[uri].id == LatestId(parse, s0, calls, uri)
  {
    NodeIdIsLatest(parse, db, known, kept, calls, uri);
  }

  lemma {:induction false} NodeIdIsLatest(parse: UrlParser, db: map<Uri, Text>, known: set<Host>, kept: set<Uri>,
                                          calls: seq<Call>, uri: Uri)
    requires uri in Run(parse, New(parse, db, known, kept), calls).nodes
    ensures var s0 := New(parse, db, known, kept);
            Run(parse, s0, calls).nodes[uri].id == LatestId(parse, s0, calls, uri)
    decreases calls
  {
    if calls != [] {
      var s0 := New(parse, db, known, kept);
      var last := |calls| - 1;
      var before, c := calls[..last], calls[last];
      assert calls == before + [c];
      RunSnoc(parse, s0, before, c);
      if uri in Run(parse, s0, before).nodes { NodeIdIsLatest(parse, db, known, kept, before, uri); }
      StepId(parse, Run(parse, s0, before), c, uri);
    }
  }

  lemma StepId(parse: UrlParser, s: Store, c: Call, uri: Uri)
    requires uri in Step(parse, s, c).nodes
    ensures Step(parse, s, c).nodes[uri].id
         == if c.CallAdd? && c.uri == uri && Added(parse, s, uri, c.typ, c.desc, c.now, c.writeOk).1 == Ok then ""
            else if c.CallHold? && c.uri == uri then c.id
            else if uri in s.nodes then s.nodes[uri].id else ""
    ensures uri !in s.nodes
        ==> c.CallAdd? && c.uri == uri && Added(parse, s, uri, c.typ, c.desc, c.now, c.writeOk).1 == Ok
  {
  }

  // ---- Resolve hosts

  /** A device is reached through the resolve cache exactly if its URI says `.local`, under its URL's host. */
  predicate NodesFit(parse: UrlParser, s: Store) {
    forall uri :: uri in s.nodes ==>
      && parse(uri).Some?
      && Hosts(s.nodes[uri]) == if Contains(uri, ".local") then {parse(uri).value.hostname} else {}
  }

  lemma {:induction false} RunFits(parse: UrlParser, s: Store, calls: seq<Call>)
    requires NodesFit(parse, s)
    ensures NodesFit(parse, Run(parse, s, calls))
    decreases calls
  {
    if calls != [] {
      StepFits(parse, s, calls[0]);
      RunFits(parse, Step(parse, s, calls[0]), calls[1..]);
    }
  }

  lemma StepFits(parse: UrlParser, s: Store, c: Call)
    requires NodesFit(parse, s)
    ensures NodesFit(parse, Step(parse, s, c))
  {
    match c {
      case CallAdd(uri, typ, desc, now, _) => var _ := MakeNode(parse, uri, Item(desc, now, typ), s.monitored);
      case _ =>
    }
  }

  lemma NewFits(parse: UrlParser, db: map<Uri, Text>, known: set<Host>, kept: set<Uri>)
    ensures NodesFit(parse, New(parse, db, known, kept))
  {
  }

  predicate HostKnown(parse: UrlParser, s: Store, uri: Uri) {
    Contains(uri, ".local") && parse(uri).Some? ==> parse(uri).value.hostname in s.known
  }

  /** The host of every device with a `.local` URI is known in the resolve cache. */
  predicate HostsKnown(parse: UrlParser, s: Store) {
    forall uri :: uri in s.nodes ==> HostKnown(parse, s, uri)
  }

  lemma NewKnowsHosts(parse: UrlParser, db: map<Uri, Text>, known: set<Host>, kept: set<Uri>)
    ensures HostsKnown(parse, New(parse, db, known, kept))
  {
    var s := New(parse, db, known, kept);
    NewFits(parse, db, known, kept);
    forall uri, h | uri in s.nodes && h in Hosts(s.nodes[uri])
      ensures h in s.known
    {
      assert h in NodeHosts(s.nodes);
    }
    forall uri | uri in s.nodes
      ensures HostKnown(parse, s, uri)
    {
      assert Contains(uri, ".local") ==> parse(uri).value.hostname in Hosts(s.nodes[uri]);
    }
  }

  lemma AddKnowsHosts(parse: UrlParser, s: Store, uri: Uri, typ: Text, desc: Text, now: int64, ok: bool)
    requires HostsKnown(parse, s)
    ensures HostsKnown(parse, Added(parse, s, uri, typ, desc, now, ok).0)
  {
    var t := Added(parse, s, uri, typ, desc, now, ok).0;
    assert s.known <= t.known;
  }

  /** Both URIs say `.local` and name the same host. */
  predicate ShareHost(parse: UrlParser, u: Uri, v: Uri) {
    && Contains(u, ".local") && Contains(v, ".local")
    && parse(u).Some? && parse(v).Some? && parse(u).value.hostname == parse(v).value.hostname
  }

  /**
   The cache keeps a set of hosts, not a count: a removal leaves every remaining device reachable exactly if
   none of them shares the host of the removed one.
   */
  lemma RemoveKnowsHosts(parse: UrlParser, s: Store, uri: Uri)
    requires NodesFit(parse, s) && HostsKnown(parse, s) && Removed(s, uri, true).1 == Ok
    ensures HostsKnown(parse, Removed(s, uri, true).0)
       <==> forall u :: u in s.nodes && u != uri ==> !ShareHost(parse, u, uri)
  {
    var t := Removed(s, uri, true).0;
    assert t.known == s.known - Hosts(s.nodes[uri]);
    forall u | u in s.nodes && u != uri
      ensures u in t.nodes && (HostKnown(parse, t, u) <==> !ShareHost(parse, u, uri))
    {
      assert HostKnown(parse, s, u);
    }
    assert t.nodes.Keys == s.nodes.Keys - {uri};
  }

  /** A stop that returns forgets exactly the hosts of its devices. */
  lemma StopForgetsHosts(parse: UrlParser, s: Store, walked: set<Uri>, h: Host)
    requires NodesFit(parse, s) && !s.hung && AllStarted(s)
    ensures h in StoppedAll(s, walked).known
       <==> && h in s.known
            && forall uri :: uri in s.nodes && Contains(uri, ".local") ==> parse(uri).value.hostname != h
  {
    NodeHostsAre(s.nodes);
    if uri :| uri in s.nodes && Contains(uri, ".local") && parse(uri).value.hostname == h {
      assert h in Hosts(s.nodes[uri]);
    }
    if uri :| uri in s.nodes && h in Hosts(s.nodes[uri]) {
      assert Contains(uri, ".local") && parse(uri).value.hostname == h;
    }
  }
}
