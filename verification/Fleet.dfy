/**
 The runners of the devices over the whole life of the registry: restored, started, added, removed and stopped
 under its mutex, while the goroutines run and the parent context may be cancelled.
 */
module Fleet {
  import opened Options
  import opened Registry
  import opened RegistryLaws
  import ResolveCache
  import opened Words
  import R = TaskRunner

  /** A device may be added again after a removal; every time it gets a runner of its own. */
  datatype Id = Id(uri: Uri, gen: nat)

  const PARAMS := R.Params(false, true)

  /** What a store is made from. */
  datatype Setup = Setup(parse: UrlParser, db: map<Uri, Text>, known: set<ResolveCache.Host>, kept: set<Uri>)

  /** Who holds the mutex, if it is held across events; `rest` have not been stopped yet, `at` is being joined. */
  datatype Busy = Free | Removing(uri: Uri) | Stopping(rest: set<Uri>, at: Option<Uri>)

  /** `current` are the runners of the cached devices; `cancelled` tells about the parent context. */
  datatype State = State(store: Store, runners: map<Id, R.Runner>, current: map<Uri, Id>, busy: Busy, cancelled: bool)

  datatype Event =
    | Do(call: Call, id: Id)     // a call that does not wait; `id` is the runner that an `Add` makes
    | RemoveBegin(uri: Uri)      // record and host go; cancelFunc()
    | RemoveEnd(uri: Uri)        // the runner is joined; the node goes
    | StopBegin
    | StopCancel(uri: Uri)
    | StopJoin(uri: Uri)
    | StopEnd                    // s.nodes = nil
    | ParentCancel
    | Own(id: Id, e: R.Event)    // a step of a goroutine of the device

  function New(u: Setup): Store {
    Registry.New(u.parse, u.db, u.known, u.kept)
  }

  /** Restored devices have runners that nobody has started. */
  function Boot(u: Setup): State {
    var nodes := New(u).nodes;
    State(New(u), map uri | uri in nodes :: Id(uri, 0) := R.INIT, map uri | uri in nodes :: Id(uri, 0), Free, false)
  }

  predicate OwnStep(e: R.Event) {
    R.StartsTask(e) || e.SeeCancel? || e.Finish?
  }

  /** The process has not died. */
  predicate Alive(s: State) {
    forall id :: id in s.runners ==> !s.runners[id].crashed
  }

  predicate Listed(s: State, id: Id) {
    id.uri in s.current && s.current[id.uri] == id
  }

  predicate HasRunner(s: State, uri: Uri) {
    uri in s.current && s.current[uri] in s.runners
  }

  /** The outcome of an `Add`. */
  function Outcome(u: Setup, s: State, c: Call): Err
    requires c.CallAdd?
  {
    Added(u.parse, s.store, c.uri, c.typ, c.desc, c.now, c.writeOk).1
  }

  /** `Add` starts the runner before the assignment that panics behind `Stop`. */
  predicate Launching(u: Setup, s: State, c: Call) {
    c.CallAdd? && Outcome(u, s, c) in {Ok, Panicked}
  }

  predicate Enabled(u: Setup, s: State, e: Event) {
    && Alive(s)
    && match e
       case Do(c, id) =>
         && (s.busy == Free || c.CallMonitor? || c.CallHold?)   // the others need the mutex
         && (Launching(u, s, c) ==> id.uri == c.uri && id !in s.runners)
         && (c.CallRemove? ==> Removed(s.store, c.uri, c.removeOk).1 in {NoDevice, DbFailed})
       case RemoveBegin(uri) => s.busy == Free && HasRunner(s, uri)
       case RemoveEnd(uri) =>
         s.busy == Removing(uri) && HasRunner(s, uri) && R.Enabled(s.runners[s.current[uri]], R.Join)
       case StopBegin => s.busy == Free
       case StopCancel(uri) => s.busy.Stopping? && s.busy.at == None && uri in s.busy.rest && HasRunner(s, uri)
       case StopJoin(uri) =>
         && s.busy.Stopping? && s.busy.at == Some(uri) && HasRunner(s, uri)
         && R.Enabled(s.runners[s.current[uri]], R.Join)
       case StopEnd => s.busy == Stopping({}, None)
       case ParentCancel => true
       case Own(id, x) => id in s.runners && OwnStep(x) && R.Enabled(s.runners[id], x)
  }

  /** A context made under a cancelled parent is cancelled. */
  function Made(s: State): R.Runner {
    if s.cancelled then R.Next(PARAMS, R.INIT, R.Cancel) else R.INIT
  }

  function WithStep(s: State, id: Id, x: R.Event): State
    requires id in s.runners && R.Enabled(s.runners[id], x)
  {
    s.(runners := s.runners[id := R.Next(PARAMS, s.runners[id], x)])
  }

  /** A new device gets a runner, and is cached unless that panics. */
  function Launched(s: State, id: Id, store: Store, ok: bool): State {
    State(store, s.runners[id := R.Next(PARAMS, Made(s), R.Launch)],
          if ok then s.current[id.uri := id] else s.current, s.busy, s.cancelled)
  }

  function Forgotten(s: State, uri: Uri, store: Store): State {
    State(store, s.runners, s.current - {uri}, Free, s.cancelled)
  }

  function StartedRunners(s: State): map<Id, R.Runner>
    requires Alive(s)
  {
    map i | i in s.runners :: if Listed(s, i) then R.Next(PARAMS, s.runners[i], R.Launch) else s.runners[i]
  }

  function Next(u: Setup, s: State, e: Event): State
    requires Enabled(u, s, e)
  {
    match e
    case Do(c, id) =>
      var store := Step(u.parse, s.store, c);
      if Launching(u, s, c) then Launched(s, id, store, Outcome(u, s, c) == Ok)
      else if c.CallStart? then s.(store := store, runners := StartedRunners(s))
      else s.(store := store)
    case RemoveBegin(uri) => WithStep(s, s.current[uri], R.Cancel).(busy := Removing(uri))
    case RemoveEnd(uri) => Forgotten(s, uri, Removed(s.store, uri, true).0)
    case StopBegin => s.(busy := Stopping(s.current.Keys, None))
    case StopCancel(uri) => WithStep(s, s.current[uri], R.Cancel).(busy := Stopping(s.busy.rest - {uri}, Some(uri)))
    case StopJoin(_) => s.(busy := Stopping(s.busy.rest, None))
    case StopEnd => s.(store := StoppedAll(s.store, {}), current := map[], busy := Free)
    case ParentCancel =>
      s.(cancelled := true, runners := map i | i in s.runners :: R.Next(PARAMS, s.runners[i], R.Cancel))
    case Own(id, x) => WithStep(s, id, x)
  }

  function After(u: Setup, es: seq<Event>): Option<State> {
    if es == [] then Some(Boot(u))
    else match After(u, es[..|es| - 1])
      case None => None
      case Some(s) => if Enabled(u, s, es[|es| - 1]) then Some(Next(u, s, es[|es| - 1])) else None
  }

  predicate Reaches(u: Setup, es: seq<Event>, s: State) {
    After(u, es) == Some(s)
  }

  lemma Snoc(u: Setup, es: seq<Event>, s: State, e: Event)
    requires Reaches(u, es, s) && Enabled(u, s, e)
    ensures Reaches(u, es + [e], Next(u, s, e))
  {
    assert (es + [e])[..|es|] == es;
  }

  lemma {:induction false} Earlier(u: Setup, es: seq<Event>, s: State, k: nat) returns (p: State)
    requires Reaches(u, es, s) && k <= |es|
    ensures Reaches(u, es[..k], p)
    ensures k < |es| ==> Enabled(u, p, es[k]) && Reaches(u, es[..k + 1], Next(u, p, es[k]))
  {
    if k == |es| {
      assert es[..k] == es;
      p := s;
    } else {
      var last := |es| - 1;
      var before := es[..last];
      assert before[..k] == es[..k];
      p := Earlier(u, before, After(u, before).value, k);
      if k < last {
        assert before[..k + 1] == es[..k + 1];
      } else {
        assert before[..k] == before && es[..k + 1] == es;
      }
    }
  }

  // ---- The history of one runner

  /** What an event is for one runner. */
  function Told(u: Setup, s: State, e: Event, id: Id): seq<R.Event> {
    match e
    case Do(c, i) =>
      if Launching(u, s, c) then (if i == id then (if s.cancelled then [R.Cancel] else []) + [R.Launch] else [])
      else if c.CallStart? && id in s.runners && Listed(s, id) then [R.Launch]
      else []
    case RemoveBegin(uri) => if Listed(s, id) && id.uri == uri then [R.Cancel] else []
    case RemoveEnd(uri) => if Listed(s, id) && id.uri == uri then [R.Join] else []
    case StopCancel(uri) => if Listed(s, id) && id.uri == uri then [R.Cancel] else []
    case StopJoin(uri) => if Listed(s, id) && id.uri == uri then [R.Join] else []
    case ParentCancel => if id in s.runners then [R.Cancel] else []
    case Own(i, x) => if i == id then [x] else []
    case _ => []
  }

  function Projected(u: Setup, es: seq<Event>, id: Id): seq<R.Event> {
    if es == [] then []
    else
      var before := es[..|es| - 1];
      match After(u, before)
      case None => []
      case Some(s) => Projected(u, before, id) + Told(u, s, es[|es| - 1], id)
  }

  // ---- Invariants

  /** The cached devices have runners. */
  predicate Devices(s: State) {
    && s.current.Keys == s.store.nodes.Keys
    && (forall uri :: uri in s.current ==> s.current[uri].uri == uri && s.current[uri] in s.runners)
    && !s.store.hung
    && (s.store.stopped ==> s.current == map[])
  }

  /** What the holder of the mutex is about. */
  predicate Holder(s: State) {
    match s.busy
    case Free => true
    case Removing(uri) => uri in s.current
    case Stopping(rest, at) => rest <= s.current.Keys && (at.Some? ==> at.value in s.current && at.value !in rest)
  }

  /** The first goroutine to leave closes the channel, a second one crashes; only a cancel makes one leave. */
  predicate Sound(r: R.Runner) {
    R.ExitsCounted(r) && (r.closed ==> r.cancelled)
  }

  /** The registry counts the goroutines. */
  predicate Counts(s: State) {
    && (forall id :: id in s.runners ==> Sound(s.runners[id]))
    && (forall uri :: uri in s.current && uri in s.store.nodes && s.current[uri] in s.runners
          ==> |s.runners[s.current[uri]].gs| == s.store.nodes[uri].starts)
  }

  predicate Joined(s: State, id: Id) {
    id in s.runners && s.runners[id].closed
  }

  /** A device that is not cached was started, and behind a removal it was joined. */
  predicate Gone(s: State) {
    forall id :: id in s.runners && !Listed(s, id)
            ==> |s.runners[id].gs| >= 1 && (!s.store.stopped ==> Joined(s, id))
  }

  predicate HadTurn(busy: Busy, uri: Uri) {
    busy.Stopping? && uri !in busy.rest && busy.at != Some(uri)
  }

  /** Behind its turn in a stop a device has been joined. */
  predicate Turns(s: State) {
    forall uri :: uri in s.current && HadTurn(s.busy, uri) ==> Joined(s, s.current[uri])
  }

  /** A removal or a stop of the device has begun. */
  predicate Ending(busy: Busy, uri: Uri) {
    busy == Removing(uri) || (busy.Stopping? && uri !in busy.rest)
  }

  predicate Cancels(s: State) {
    && (forall uri :: uri in s.current && HasRunner(s, uri)
          ==> (s.runners[s.current[uri]].cancelled <==> s.cancelled || Ending(s.busy, uri)))
    && (s.cancelled ==> forall id :: id in s.runners ==> s.runners[id].cancelled)
  }

  predicate Inv(s: State) {
    Devices(s) && Holder(s) && Counts(s) && Gone(s) && Turns(s) && Cancels(s)
  }

  lemma StartedOf(r: R.Runner)
    requires R.ExitsCounted(r) && r.closed
    ensures |r.gs| >= 1
  {
  }

  lemma StopWasStarted(s: State)
    requires Inv(s) && s.busy == Stopping({}, None)
    ensures AllStarted(s.store)
    ensures forall id :: id in s.runners ==> |s.runners[id].gs| >= 1
    ensures !s.store.stopped ==> forall id :: id in s.runners ==> Joined(s, id)
  {
    forall uri | uri in s.current
      ensures Joined(s, s.current[uri]) && s.store.nodes[uri].starts > 0
    {
      assert HadTurn(s.busy, uri);
      StartedOf(s.runners[s.current[uri]]);
    }
  }

  /** A runner takes a step, or none, that is not a start. */
  predicate Follows(r: R.Runner, t: R.Runner) {
    Sound(t) && |t.gs| == |r.gs| && (r.closed ==> t.closed) && (r.cancelled ==> t.cancelled)
  }

  lemma RunnerStep(r: R.Runner, x: R.Event)
    requires Sound(r) && R.Enabled(r, x)
    ensures var t := R.Next(PARAMS, r, x);
            && Sound(t)
            && |t.gs| == |r.gs| + (if x.Launch? then 1 else 0)
            && (x.Launch? || Follows(r, t))
            && (r.closed ==> t.closed)
            && (t.cancelled <==> r.cancelled || x.Cancel?)
  {
    R.StepExits(PARAMS, r, x);
  }

  lemma MadeIsSound(s: State)
    ensures var r := R.Next(PARAMS, Made(s), R.Launch);
            Sound(r) && |r.gs| == 1 && !r.crashed && !r.closed && r.cancelled == s.cancelled
  {
    RunnerStep(R.INIT, R.Cancel);
    RunnerStep(Made(s), R.Launch);
  }

  /** The devices stay as they are while runners take steps. */
  lemma RunnersMove(s: State, t: State)
    requires Inv(s) && t.store == s.store && t.current == s.current && t.runners.Keys == s.runners.Keys
    requires forall id :: id in s.runners ==> Follows(s.runners[id], t.runners[id])
    ensures Devices(t) && Counts(t) && Gone(t)
    ensures forall id :: Joined(s, id) ==> Joined(t, id)
  {
    forall id | id in t.runners && !Listed(t, id)
      ensures |t.runners[id].gs| >= 1 && (!t.store.stopped ==> Joined(t, id))
    {
      assert !Listed(s, id);
    }
  }

  lemma CancelInv(s: State, uri: Uri, busy: Busy)
    requires Inv(s) && HasRunner(s, uri) && !s.runners[s.current[uri]].crashed
    requires Ending(busy, uri) && forall u :: u in s.current && u != uri ==> (Ending(busy, u) <==> Ending(s.busy, u))
    requires forall u :: HadTurn(busy, u) ==> HadTurn(s.busy, u)
    requires Holder(s.(busy := busy))
    ensures Inv(WithStep(s, s.current[uri], R.Cancel).(busy := busy))
  {
    var id := s.current[uri];
    var t := WithStep(s, id, R.Cancel).(busy := busy);
    RunnerStep(s.runners[id], R.Cancel);
    RunnersMove(s, t);
    CancelCancels(s, t, uri);
    assert forall u :: u in t.current && HadTurn(t.busy, u) ==> Joined(s, t.current[u]);
  }

  lemma CancelCancels(s: State, t: State, uri: Uri)
    requires Inv(s) && HasRunner(s, uri) && t.current == s.current && t.cancelled == s.cancelled
    requires t.runners.Keys == s.runners.Keys && t.runners[s.current[uri]].cancelled
    requires forall i :: i in s.runners && i != s.current[uri] ==> t.runners[i] == s.runners[i]
    requires Ending(t.busy, uri)
    requires forall u :: u in s.current && u != uri ==> (Ending(t.busy, u) <==> Ending(s.busy, u))
    ensures Cancels(t)
  {
    forall u | u in t.current
      ensures t.runners[t.current[u]].cancelled <==> t.cancelled || Ending(t.busy, u)
    {
      if u != uri { assert t.current[u] != s.current[uri] && HasRunner(s, u); }
    }
  }

  lemma OwnInv(s: State, id: Id, x: R.Event)
    requires Inv(s) && id in s.runners && R.Enabled(s.runners[id], x) && OwnStep(x)
    ensures Inv(WithStep(s, id, x))
  {
    var t := WithStep(s, id, x);
    RunnerStep(s.runners[id], x);
    RunnersMove(s, t);
    OwnCancels(s, t, id);
  }

  lemma OwnCancels(s: State, t: State, id: Id)
    requires Cancels(s) && t.current == s.current && t.busy == s.busy && t.cancelled == s.cancelled
    requires id in s.runners && id in t.runners && t.runners == s.runners[id := t.runners[id]]
    requires t.runners[id].cancelled == s.runners[id].cancelled
    ensures Cancels(t)
  {
    assert forall i :: i in s.runners ==> t.runners[i].cancelled == s.runners[i].cancelled;
    assert forall uri :: HasRunner(t, uri) ==> HasRunner(s, uri);
  }

  lemma ParentInv(s: State)
    requires Inv(s) && Alive(s)
    ensures Inv(s.(cancelled := true, runners := map i | i in s.runners :: R.Next(PARAMS, s.runners[i], R.Cancel)))
  {
    var t := s.(cancelled := true, runners := map i | i in s.runners :: R.Next(PARAMS, s.runners[i], R.Cancel));
    forall id | id in s.runners
      ensures Follows(s.runners[id], t.runners[id]) && t.runners[id].cancelled
    {
      RunnerStep(s.runners[id], R.Cancel);
    }
    RunnersMove(s, t);
  }

  lemma RemovedInv(s: State, uri: Uri)
    requires Inv(s) && s.busy == Removing(uri) && HasRunner(s, uri) && s.runners[s.current[uri]].closed
    ensures Removed(s.store, uri, true).1 == Ok
    ensures Inv(Forgotten(s, uri, Removed(s.store, uri, true).0))
  {
    StartedOf(s.runners[s.current[uri]]);
    ForgetInv(s, uri, Removed(s.store, uri, true).0);
  }

  predicate CanForget(s: State, uri: Uri, store: Store) {
    && Inv(s) && s.busy == Removing(uri) && HasRunner(s, uri) && Joined(s, s.current[uri])
    && store.nodes == s.store.nodes - {uri} && store.stopped == s.store.stopped && !store.hung
  }

  /** Forgetting a device that was joined leaves the others. */
  lemma ForgetInv(s: State, uri: Uri, store: Store)
    requires CanForget(s, uri, store)
    ensures Inv(Forgotten(s, uri, store))
  {
    ForgetDevices(s, uri, store);
    ForgetGone(s, uri, store);
    ForgetCancels(s, uri, store);
  }

  lemma ForgetDevices(s: State, uri: Uri, store: Store)
    requires CanForget(s, uri, store)
    ensures Devices(Forgotten(s, uri, store)) && Counts(Forgotten(s, uri, store))
  {
  }

  lemma ForgetGone(s: State, uri: Uri, store: Store)
    requires CanForget(s, uri, store)
    ensures Gone(Forgotten(s, uri, store))
  {
    var t := Forgotten(s, uri, store);
    StartedOf(s.runners[s.current[uri]]);
    forall i | i in t.runners && !Listed(t, i)
      ensures |t.runners[i].gs| >= 1 && (!t.store.stopped ==> Joined(t, i))
    {
      if Listed(s, i) { assert i == s.current[uri]; }
    }
  }

  lemma ForgetCancels(s: State, uri: Uri, store: Store)
    requires CanForget(s, uri, store)
    ensures Turns(Forgotten(s, uri, store)) && Cancels(Forgotten(s, uri, store))
  {
    var t := Forgotten(s, uri, store);
    assert forall u :: u in t.current ==> u in s.current && t.current[u] == s.current[u] && !Ending(s.busy, u);
  }

  lemma StoppedInv(s: State)
    requires Inv(s) && s.busy == Stopping({}, None)
    ensures Inv(s.(store := StoppedAll(s.store, {}), current := map[], busy := Free))
  {
    StopWasStarted(s);
  }

  // ---- Calls that do not wait

  /** What `Add` does to the devices. */
  lemma AddEffect(parse: UrlParser, s: Store, c: Call)
    requires c.CallAdd?
    ensures var (t, err) := Added(parse, s, c.uri, c.typ, c.desc, c.now, c.writeOk);
            && t.stopped == s.stopped && t.hung == s.hung
            && (if err == Ok then !s.stopped && AddsNode(s, t, c.uri) else t.nodes == s.nodes)
            && (err == Panicked ==> s.stopped)
  {
  }

  predicate AddsNode(s: Store, t: Store, uri: Uri) {
    uri !in s.nodes && uri in t.nodes && t.nodes == s.nodes[uri := t.nodes[uri]] && t.nodes[uri].starts == 1
  }

  predicate CanLaunch(s: State, id: Id, store: Store, ok: bool) {
    && Inv(s) && s.busy == Free && id !in s.runners
    && store.stopped == s.store.stopped && !store.hung
    && (if ok then !s.store.stopped && AddsNode(s.store, store, id.uri)
        else s.store.stopped && store.nodes == s.store.nodes)
  }

  lemma LaunchInv(s: State, id: Id, store: Store, ok: bool)
    requires CanLaunch(s, id, store, ok)
    ensures Inv(Launched(s, id, store, ok))
  {
    LaunchDevices(s, id, store, ok);
    LaunchCounts(s, id, store, ok);
    LaunchGone(s, id, store, ok);
    LaunchCancels(s, id, store, ok);
  }

  lemma LaunchDevices(s: State, id: Id, store: Store, ok: bool)
    requires CanLaunch(s, id, store, ok)
    ensures Devices(Launched(s, id, store, ok))
  {
  }

  lemma LaunchCounts(s: State, id: Id, store: Store, ok: bool)
    requires CanLaunch(s, id, store, ok)
    ensures Counts(Launched(s, id, store, ok))
  {
    MadeIsSound(s);
  }

  lemma LaunchGone(s: State, id: Id, store: Store, ok: bool)
    requires CanLaunch(s, id, store, ok)
    ensures Gone(Launched(s, id, store, ok))
  {
    MadeIsSound(s);
    var t := Launched(s, id, store, ok);
    forall i | i in t.runners && !Listed(t, i)
      ensures |t.runners[i].gs| >= 1 && (!t.store.stopped ==> Joined(t, i))
    {
      if i != id { assert !Listed(s, i); }
    }
  }

  lemma LaunchCancels(s: State, id: Id, store: Store, ok: bool)
    requires CanLaunch(s, id, store, ok)
    ensures Turns(Launched(s, id, store, ok)) && Cancels(Launched(s, id, store, ok))
  {
    MadeIsSound(s);
    var t := Launched(s, id, store, ok);
    forall u | u in t.current && HasRunner(t, u)
      ensures t.runners[t.current[u]].cancelled <==> t.cancelled
    {
      if t.current[u] != id { assert HasRunner(s, u) && !Ending(s.busy, u); }
    }
  }

  lemma StartInv(s: State)
    requires Inv(s) && Alive(s) && s.busy == Free
    ensures Inv(s.(store := StartedAll(s.store), runners := StartedRunners(s)))
  {
    var t := s.(store := StartedAll(s.store), runners := StartedRunners(s));
    forall i | i in s.runners
      ensures StartedOnceMore(s, t, i)
    {
      RunnerStep(s.runners[i], R.Launch);
    }
    StartDevices(s, t);
    StartGone(s, t);
    StartCancels(s, t);
  }

  predicate StartedOnceMore(s: State, t: State, i: Id)
    requires i in s.runners && i in t.runners
  {
    && Sound(t.runners[i])
    && |t.runners[i].gs| == |s.runners[i].gs| + (if Listed(s, i) then 1 else 0)
    && t.runners[i].cancelled == s.runners[i].cancelled && t.runners[i].closed == s.runners[i].closed
  }

  lemma StartDevices(s: State, t: State)
    requires Inv(s) && t.current == s.current && t.runners.Keys == s.runners.Keys
    requires t.store == StartedAll(s.store)
    requires forall i :: i in s.runners ==> StartedOnceMore(s, t, i)
    ensures Devices(t) && Counts(t)
  {
    forall uri | uri in t.current
      ensures t.current[uri] in t.runners && |t.runners[t.current[uri]].gs| == t.store.nodes[uri].starts
    {
      assert Listed(s, s.current[uri]) && StartedOnceMore(s, t, s.current[uri]);
    }
  }

  lemma StartGone(s: State, t: State)
    requires Inv(s) && t.current == s.current && t.runners.Keys == s.runners.Keys
    requires t.store.stopped == s.store.stopped
    requires forall i :: i in s.runners ==> StartedOnceMore(s, t, i)
    ensures Gone(t)
  {
    forall i | i in t.runners && !Listed(t, i)
      ensures |t.runners[i].gs| >= 1 && (!t.store.stopped ==> Joined(t, i))
    {
      assert !Listed(s, i) && StartedOnceMore(s, t, i);
    }
  }

  lemma StartCancels(s: State, t: State)
    requires Inv(s) && s.busy == t.busy == Free && t.current == s.current && t.runners.Keys == s.runners.Keys
    requires t.cancelled == s.cancelled && forall i :: i in s.runners ==> StartedOnceMore(s, t, i)
    ensures Cancels(t)
  {
    forall u | u in t.current && HasRunner(t, u)
      ensures t.runners[t.current[u]].cancelled <==> t.cancelled
    {
      assert HasRunner(s, u) && StartedOnceMore(s, t, s.current[u]) && !Ending(s.busy, u);
    }
  }

  lemma StoreInv(s: State, store: Store)
    requires Inv(s) && store.stopped == s.store.stopped && !store.hung && store.nodes.Keys == s.store.nodes.Keys
    requires forall uri :: uri in store.nodes ==> store.nodes[uri].starts == s.store.nodes[uri].starts
    ensures Inv(s.(store := store))
  {
  }

  lemma DoInv(u: Setup, s: State, c: Call, id: Id)
    requires Inv(s) && Enabled(u, s, Do(c, id))
    ensures Inv(Next(u, s, Do(c, id)))
  {
    match c {
      case CallAdd(_, _, _, _, _) =>
        AddEffect(u.parse, s.store, c);
        var store := Step(u.parse, s.store, c);
        if Launching(u, s, c) {
          LaunchInv(s, id, store, Outcome(u, s, c) == Ok);
        } else {
          StoreInv(s, store);
        }
      case CallRemove(_, _) => StoreInv(s, Step(u.parse, s.store, c));
      case CallStart => StartInv(s);
      case CallMonitor => StoreInv(s, Monitored(s.store));
      case CallHold(_, _) => StoreInv(s, Step(u.parse, s.store, c));
    }
  }

  /** The holder of the mutex goes on, and no runner is touched. */
  lemma HolderInv(s: State, busy: Busy)
    requires Inv(s) && Holder(s.(busy := busy))
    requires forall u :: u in s.current && HadTurn(busy, u) ==> Joined(s, s.current[u])
    requires forall u :: u in s.current ==> (Ending(busy, u) <==> Ending(s.busy, u))
    ensures Inv(s.(busy := busy))
  {
  }

  lemma StepInv(u: Setup, s: State, e: Event)
    requires Inv(s) && Enabled(u, s, e)
    ensures Inv(Next(u, s, e))
  {
    match e {
      case Do(c, id) => DoInv(u, s, c, id);
      case ParentCancel => ParentInv(s);
      case Own(id, x) => OwnInv(s, id, x);
      case _ => if e.RemoveBegin? || e.StopCancel? { CancelBegins(u, s, e); } else { LockedInv(u, s, e); }
    }
  }

  lemma CancelBegins(u: Setup, s: State, e: Event)
    requires Inv(s) && Enabled(u, s, e) && (e.RemoveBegin? || e.StopCancel?)
    ensures Inv(Next(u, s, e))
  {
    CancelInv(s, e.uri, if e.RemoveBegin? then Removing(e.uri) else Stopping(s.busy.rest - {e.uri}, Some(e.uri)));
  }

  lemma LockedInv(u: Setup, s: State, e: Event)
    requires Inv(s) && Enabled(u, s, e) && (e.RemoveEnd? || e.StopBegin? || e.StopJoin? || e.StopEnd?)
    ensures Inv(Next(u, s, e))
  {
    match e {
      case RemoveEnd(uri) => RemovedInv(s, uri);
      case StopBegin => HolderInv(s, Stopping(s.current.Keys, None));
      case StopJoin(uri) => HolderInv(s, Stopping(s.busy.rest, None));
      case StopEnd => StoppedInv(s);
    }
  }

  lemma BootInv(u: Setup)
    ensures Inv(Boot(u))
  {
    RunnerStep(R.INIT, R.Cancel);
    assert forall uri :: uri in New(u).nodes ==> New(u).nodes[uri].starts == 0;
  }

  lemma {:induction false} HistoryInv(u: Setup, es: seq<Event>, s: State)
    requires Reaches(u, es, s)
    ensures Inv(s)
  {
    if es == [] {
      BootInv(u);
    } else {
      var before := es[..|es| - 1];
      HistoryInv(u, before, After(u, before).value);
      StepInv(u, After(u, before).value, es[|es| - 1]);
    }
  }

  // ---- Theorems over every history

  predicate Lawful(s: State, own: seq<R.Event>, id: Id) {
    if id in s.runners then R.Reaches(PARAMS, own, s.runners[id]) else own == []
  }

  predicate IsStart(e: Event) {
    e.Do? && e.call.CallStart?
  }

  /** What an event does to a runner that exists. */
  predicate Obeys(r: R.Runner, told: seq<R.Event>, t: R.Runner) {
    if told == [] then t == r
    else |told| == 1 && R.Enabled(r, told[0]) && t == R.Next(PARAMS, r, told[0])
  }

  /** Only a start of the store starts it again, and only a step of its own makes it run. */
  predicate Allowed(s: State, e: Event, id: Id, told: seq<R.Event>) {
    && (R.Launch in told <==> IsStart(e) && Listed(s, id))
    && (!(e.Own? && e.id == id) ==> forall x :: x in told ==> !OwnStep(x))
  }

  predicate ObeysStep(u: Setup, s: State, e: Event, id: Id)
    requires Enabled(u, s, e) && id in s.runners
  {
    var t, told := Next(u, s, e), Told(u, s, e, id);
    id in t.runners && Obeys(s.runners[id], told, t.runners[id]) && Allowed(s, e, id, told)
  }

  lemma RunnerObeys(u: Setup, s: State, e: Event, id: Id)
    requires Inv(s) && Enabled(u, s, e) && id in s.runners
    ensures ObeysStep(u, s, e, id)
  {
    if e.Do? {
      CallObeys(u, s, e, id);
    } else if e.RemoveBegin? || e.StopCancel? {
      CancelObeys(u, s, e, id);
    } else if e.ParentCancel? || e.Own? {
      OwnObeys(u, s, e, id);
    } else {
      HolderObeys(u, s, e, id);
    }
  }

  lemma CallObeys(u: Setup, s: State, e: Event, id: Id)
    requires Inv(s) && Enabled(u, s, e) && id in s.runners && e.Do?
    ensures ObeysStep(u, s, e, id)
  {
    assert Told(u, s, e, id) == if IsStart(e) && Listed(s, id) then [R.Launch] else [];
  }

  lemma CancelObeys(u: Setup, s: State, e: Event, id: Id)
    requires Inv(s) && Enabled(u, s, e) && id in s.runners && (e.RemoveBegin? || e.StopCancel?)
    ensures ObeysStep(u, s, e, id)
  {
    assert Listed(s, s.current[e.uri]);
    assert Told(u, s, e, id) == if s.current[e.uri] == id then [R.Cancel] else [];
  }

  lemma OwnObeys(u: Setup, s: State, e: Event, id: Id)
    requires Inv(s) && Enabled(u, s, e) && id in s.runners && (e.ParentCancel? || e.Own?)
    ensures ObeysStep(u, s, e, id)
  {
    assert Told(u, s, e, id) == if e.ParentCancel? then [R.Cancel] else if e.id == id then [e.e] else [];
  }

  lemma HolderObeys(u: Setup, s: State, e: Event, id: Id)
    requires Inv(s) && Enabled(u, s, e) && id in s.runners
    requires e.RemoveEnd? || e.StopBegin? || e.StopJoin? || e.StopEnd?
    ensures ObeysStep(u, s, e, id)
  {
    assert Told(u, s, e, id) in {[], [R.Join]};
  }

  /** A runner comes into being with one goroutine. */
  lemma RunnerIsMade(u: Setup, s: State, e: Event, id: Id)
    requires Inv(s) && Enabled(u, s, e) && id !in s.runners
    ensures var made := e.Do? && Launching(u, s, e.call) && e.id == id;
            && (id in Next(u, s, e).runners <==> made)
            && (made ==> Next(u, s, e).runners[id] == R.Next(PARAMS, Made(s), R.Launch))
            && Told(u, s, e, id) == if made then (if s.cancelled then [R.Cancel] else []) + [R.Launch] else []
  {
  }

  lemma StepIsLawful(u: Setup, s: State, own: seq<R.Event>, id: Id, e: Event)
    requires Inv(s) && Lawful(s, own, id) && Enabled(u, s, e)
    ensures Lawful(Next(u, s, e), own + Told(u, s, e, id), id)
  {
    var told := Told(u, s, e, id);
    if id in s.runners {
      RunnerObeys(u, s, e, id);
      if told == [] {
        assert own + told == own;
      } else {
        assert told == [told[0]];
        R.Snoc(PARAMS, own, s.runners[id], told[0]);
      }
    } else {
      RunnerIsMade(u, s, e, id);
      MadeIsLawful(s);
      assert own + told == told;
    }
  }

  lemma MadeIsLawful(s: State)
    ensures R.Reaches(PARAMS, (if s.cancelled then [R.Cancel] else []) + [R.Launch], R.Next(PARAMS, Made(s), R.Launch))
  {
    R.Snoc(PARAMS, [], R.INIT, R.Cancel);
    assert [] + [R.Cancel] == [R.Cancel];
    R.Snoc(PARAMS, if s.cancelled then [R.Cancel] else [], Made(s), R.Launch);
  }

  /** Every runner is in a state that its own history explains, whatever the registry and the others do. */
  lemma {:induction false} RunnersAreLawful(u: Setup, es: seq<Event>, s: State, id: Id)
    requires Reaches(u, es, s)
    ensures Lawful(s, Projected(u, es, id), id)
  {
    if es != [] {
      var before := es[..|es| - 1];
      var p := After(u, before).value;
      HistoryInv(u, before, p);
      RunnersAreLawful(u, before, p, id);
      StepIsLawful(u, p, Projected(u, before, id), id, es[|es| - 1]);
    }
  }

  /** How often a runner was started in a history. */
  function Starts(u: Setup, es: seq<Event>, id: Id): nat {
    R.Launches(Projected(u, es, id))
  }

  lemma StartsAreGoroutines(u: Setup, es: seq<Event>, s: State, id: Id)
    requires Reaches(u, es, s) && id in s.runners
    ensures Starts(u, es, id) == |s.runners[id].gs|
  {
    RunnersAreLawful(u, es, s, id);
    R.CrashIsSecondExit(PARAMS, Projected(u, es, id), s.runners[id]);
  }

  /** The registry's count of starts is the number of starts in the history of the cached device's runner. */
  lemma RegistryCountsStarts(u: Setup, es: seq<Event>, s: State)
    requires Reaches(u, es, s)
    ensures s.current.Keys == s.store.nodes.Keys
    ensures forall uri :: uri in s.current ==> Starts(u, es, s.current[uri]) == s.store.nodes[uri].starts
  {
    HistoryInv(u, es, s);
    forall uri | uri in s.current { StartsAreGoroutines(u, es, s, s.current[uri]); }
  }

  /** A cached device has been told to stop exactly if the parent context was, or its removal or the stop has begun. */
  lemma ListedIsCancelledIff(u: Setup, es: seq<Event>, s: State, uri: Uri)
    requires Reaches(u, es, s) && uri in s.current
    ensures s.current[uri] in s.runners
    ensures s.runners[s.current[uri]].cancelled <==> ParentCancel in es || Ending(s.busy, uri)
    ensures s.runners[s.current[uri]].closed ==> ParentCancel in es || Ending(s.busy, uri)
  {
    HistoryInv(u, es, s);
    ParentIsHistory(u, es, s);
    assert HasRunner(s, uri);
  }

  lemma {:induction false} ParentIsHistory(u: Setup, es: seq<Event>, s: State)
    requires Reaches(u, es, s)
    ensures s.cancelled <==> ParentCancel in es
  {
    if es != [] {
      var before := es[..|es| - 1];
      ParentIsHistory(u, before, After(u, before).value);
      ParentStep(u, After(u, before).value, es[|es| - 1]);
      assert es == before + [es[|es| - 1]];
    }
  }

  lemma ParentStep(u: Setup, s: State, e: Event)
    requires Enabled(u, s, e)
    ensures Next(u, s, e).cancelled <==> s.cancelled || e == ParentCancel
  {
  }

  // ---- The registry's own history

  /** The calls that have returned, for the registry. */
  function Calls(es: seq<Event>): seq<Call> {
    if es == [] then []
    else
      var before := Calls(es[..|es| - 1]);
      match es[|es| - 1]
      case Do(c, _) => before + [c]
      case RemoveEnd(uri) => before + [CallRemove(uri, true)]
      case _ => before
  }

  /** Up to a stop the registry is where its calls take it. */
  lemma {:induction false} StoreIsRun(u: Setup, es: seq<Event>, s: State)
    requires Reaches(u, es, s) && StopEnd !in es
    ensures s.store == Run(u.parse, New(u), Calls(es))
  {
    if es != [] {
      var before, e := es[..|es| - 1], es[|es| - 1];
      assert es == before + [e];
      StoreIsRun(u, before, After(u, before).value);
      match e {
        case Do(c, _) => RunSnoc(u.parse, New(u), Calls(before), c);
        case RemoveEnd(uri) => RunSnoc(u.parse, New(u), Calls(before), CallRemove(uri, true));
        case _ =>
      }
    }
  }

  /** No store is started in these events. */
  predicate NoStart(es: seq<Event>) {
    forall i :: 0 <= i < |es| ==> !IsStart(es[i])
  }

  lemma {:induction false} NoStartCall(es: seq<Event>)
    requires NoStart(es)
    ensures CallStart !in Calls(es)
  {
    if es != [] {
      assert !IsStart(es[|es| - 1]);
      NoStartCall(es[..|es| - 1]);
    }
  }

  /** Without a start of the store, the runners keep their numbers of goroutines, and new ones have one. */
  predicate SameSizes(s: State, t: State) {
    && s.runners.Keys <= t.runners.Keys
    && (forall id :: id in s.runners ==> |t.runners[id].gs| == |s.runners[id].gs|)
    && (forall id :: id in t.runners && id !in s.runners ==> |t.runners[id].gs| == 1)
  }

  lemma StepSizes(u: Setup, s: State, e: Event)
    requires Inv(s) && Enabled(u, s, e) && !IsStart(e)
    ensures SameSizes(s, Next(u, s, e))
  {
    var t := Next(u, s, e);
    forall id | id in s.runners
      ensures id in t.runners && |t.runners[id].gs| == |s.runners[id].gs|
    {
      RunnerObeys(u, s, e, id);
      SameSize(s.runners[id], Told(u, s, e, id), t.runners[id]);
    }
    forall id | id in t.runners && id !in s.runners
      ensures |t.runners[id].gs| == 1
    {
      RunnerIsMade(u, s, e, id);
      MadeIsSound(s);
    }
  }

  lemma SameSize(r: R.Runner, told: seq<R.Event>, t: R.Runner)
    requires Sound(r) && Obeys(r, told, t)
    ensures |t.gs| == |r.gs| + if R.Launch in told then 1 else 0
  {
    if told != [] { RunnerStep(r, told[0]); }
  }

  predicate NoStartFrom(es: seq<Event>, k: nat) {
    forall i :: k <= i < |es| ==> !IsStart(es[i])
  }

  lemma SizesCompose(p: State, q: State, s: State)
    requires SameSizes(p, q) && SameSizes(q, s)
    ensures SameSizes(p, s)
  {
  }

  lemma {:induction false} SizesSince(u: Setup, es: seq<Event>, s: State, k: nat, p: State)
    requires Reaches(u, es, s) && k <= |es| && Reaches(u, es[..k], p) && NoStartFrom(es, k)
    ensures SameSizes(p, s)
  {
    if k == |es| {
      assert es[..k] == es;
    } else {
      var before := es[..|es| - 1];
      var q := After(u, before).value;
      assert before[..k] == es[..k];
      SizesSince(u, before, q, k, p);
      HistoryInv(u, before, q);
      StepSizes(u, q, es[|es| - 1]);
      SizesCompose(p, q, s);
    }
  }

  /** The life of a store: calls before `Start`, `Start`, and calls behind it that do not start it again. */
  predicate Life(es: seq<Event>, k: nat) {
    k < |es| && IsStart(es[k]) && NoStart(es[..k]) && NoStartFrom(es, k + 1) && StopEnd !in es[..k]
  }

  /** The runner of a device that was added before `Start`, and was still there then. */
  predicate AddedEarly(u: Setup, es: seq<Event>, k: nat, id: Id)
    requires k < |es|
  {
    match After(u, es[..k])
    case None => false
    case Some(p) => Listed(p, id) && id.uri in AddedSince(u.parse, New(u), Calls(es[..k]))
  }

  /** Before `Start`, added devices have one goroutine and restored ones have none. */
  lemma SizesBefore(u: Setup, es: seq<Event>, k: nat, p: State, id: Id)
    requires k < |es| && Life(es, k) && Reaches(u, es[..k], p) && id in p.runners
    ensures |p.runners[id].gs| == if Listed(p, id) && !AddedEarly(u, es, k, id) then 0 else 1
  {
    var early := es[..k];
    HistoryInv(u, early, p);
    if Listed(p, id) {
      StoreIsRun(u, early, p);
      NoStartCall(early);
      StartsBefore(u.parse, New(u), Calls(early));
    } else {
      assert early[..0] == [];
      SizesSince(u, early, p, 0, Boot(u));
    }
  }

  lemma StartSizes(u: Setup, p: State, e: Event, id: Id)
    requires Inv(p) && Enabled(u, p, e) && IsStart(e)
    ensures id in Next(u, p, e).runners <==> id in p.runners
    ensures id in p.runners
        ==> |Next(u, p, e).runners[id].gs| == |p.runners[id].gs| + if Listed(p, id) then 1 else 0
  {
    if id in p.runners {
      RunnerObeys(u, p, e, id);
      SameSize(p.runners[id], Told(u, p, e, id), Next(u, p, e).runners[id]);
    } else {
      RunnerIsMade(u, p, e, id);
    }
  }

  /**
   Start once, over whole lives: every runner that ever exists has been started exactly once, but twice if its
   device was added before `Start` and not removed by then.
   */
  lemma StartedOnceOrTwice(u: Setup, es: seq<Event>, s: State, k: nat, id: Id)
    requires Reaches(u, es, s) && Life(es, k) && id in s.runners
    ensures Starts(u, es, id) == if AddedEarly(u, es, k, id) then 2 else 1
  {
    var p := Earlier(u, es, s, k);
    var q := Next(u, p, es[k]);
    StartsAreGoroutines(u, es, s, id);
    SizesSince(u, es, s, k + 1, q);
    HistoryInv(u, es[..k], p);
    StartSizes(u, p, es[k], id);
    if id in p.runners { SizesBefore(u, es, k, p, id); }
  }

  // ---- Joins

  /** Every goroutine of the runner has left. */
  predicate Quiet(s: State, id: Id) {
    id in s.runners && forall g :: 0 <= g < |s.runners[id].gs| ==> s.runners[id].gs[g] == R.Exited
  }

  /** One of its goroutines polls, or can begin a poll. */
  predicate Polls(s: State, id: Id) {
    id in s.runners && exists g :: 0 <= g < |s.runners[id].gs| && PollsAt(s.runners[id], g)
  }

  predicate PollsAt(r: R.Runner, g: R.Gid) {
    R.At(r, g, R.InTask) || R.Enabled(r, R.First(g)) || R.Enabled(r, R.Tick(g))
  }

  /** A runner that was joined is quiet exactly if it was started once. */
  lemma JoinedIsQuietIff(s: State, id: Id)
    requires Inv(s) && Alive(s) && Joined(s, id)
    ensures |s.runners[id].gs| == 1 ==> Quiet(s, id)
    ensures |s.runners[id].gs| != 1 ==> Polls(s, id)
  {
    var r := s.runners[id];
    if |r.gs| == 1 {
      assert r.gs == [r.gs[0]] && r.gs[..0] == [];
      assert R.ExitedCount(r.gs[..0]) == 0;
    } else if forall g :: 0 <= g < |r.gs| ==> r.gs[g] == R.Exited {
      R.ExitedTwice(r.gs, 0, 1);
    } else {
      var g :| 0 <= g < |r.gs| && r.gs[g] != R.Exited;
      assert PollsAt(r, g);
    }
  }

  lemma QuietTakesNoStep(u: Setup, s: State, e: Event, id: Id)
    requires Enabled(u, s, e) && Quiet(s, id)
    ensures !(e.Own? && e.id == id)
  {
  }

  lemma QuietObeys(r: R.Runner, told: seq<R.Event>, t: R.Runner)
    requires Obeys(r, told, t) && R.Launch !in told && forall x :: x in told ==> !OwnStep(x)
    ensures t.gs == r.gs
  {
    if told != [] { assert told[0] in told; }
  }

  /** The device was removed, or has been joined by a stop. */
  predicate Retired(s: State, id: Id) {
    id in s.runners && (!Listed(s, id) || HadTurn(s.busy, id.uri))
  }

  /** A retired runner is never started again, not even by another start of the store. */
  lemma RetiredStays(u: Setup, s: State, e: Event, id: Id)
    requires Inv(s) && Enabled(u, s, e) && Retired(s, id)
    ensures Retired(Next(u, s, e), id) && R.Launch !in Told(u, s, e, id)
  {
    RunnerObeys(u, s, e, id);
    if e.Do? { RetiredStaysAway(u, s, e, id); }
  }

  lemma RetiredStaysAway(u: Setup, s: State, e: Event, id: Id)
    requires Inv(s) && Enabled(u, s, e) && Retired(s, id) && e.Do?
    ensures Retired(Next(u, s, e), id) && (IsStart(e) ==> !Listed(s, id))
  {
  }

  /** From the `k`-th event on no goroutine of this runner does anything. */
  predicate NoOwn(es: seq<Event>, k: nat, id: Id) {
    forall j :: k <= j < |es| ==> !(es[j].Own? && es[j].id == id)
  }

  lemma NoOwnSnoc(es: seq<Event>, k: nat, id: Id)
    requires es != [] && NoOwn(es[..|es| - 1], k, id) && !(es[|es| - 1].Own? && es[|es| - 1].id == id)
    ensures NoOwn(es, k, id)
  {
    assert forall j :: 0 <= j < |es| - 1 ==> es[j] == es[..|es| - 1][j];
  }

  lemma {:induction false} RetiredForGood(u: Setup, es: seq<Event>, s: State, k: nat, p: State, id: Id)
    requires Reaches(u, es, s) && k <= |es| && Reaches(u, es[..k], p) && Retired(p, id)
    ensures Retired(s, id) && |s.runners[id].gs| == |p.runners[id].gs|
    ensures Quiet(p, id) ==> Quiet(s, id) && NoOwn(es, k, id)
  {
    if k == |es| {
      assert es[..k] == es;
    } else {
      var before := es[..|es| - 1];
      var q := After(u, before).value;
      assert before[..k] == es[..k];
      RetiredForGood(u, before, q, k, p, id);
      HistoryInv(u, before, q);
      RetiredStep(u, q, es[|es| - 1], id);
      if Quiet(p, id) { NoOwnSnoc(es, k, id); }
    }
  }

  lemma RetiredStep(u: Setup, s: State, e: Event, id: Id)
    requires Inv(s) && Enabled(u, s, e) && Retired(s, id)
    ensures var t := Next(u, s, e);
            && Retired(t, id) && |t.runners[id].gs| == |s.runners[id].gs|
            && (Quiet(s, id) ==> Quiet(t, id) && !(e.Own? && e.id == id))
  {
    RetiredStays(u, s, e, id);
    RunnerObeys(u, s, e, id);
    SameSize(s.runners[id], Told(u, s, e, id), Next(u, s, e).runners[id]);
    if Quiet(s, id) {
      QuietTakesNoStep(u, s, e, id);
      QuietObeys(s.runners[id], Told(u, s, e, id), Next(u, s, e).runners[id]);
    }
  }

  /** The `i`-th event joins this runner: `Remove` returns, or a stop goes on. */
  predicate JoinsAt(u: Setup, es: seq<Event>, i: nat, id: Id)
    requires i < |es|
  {
    && (es[i].RemoveEnd? || es[i].StopJoin?)
    && match After(u, es[..i])
       case None => false
       case Some(p) => es[i].uri in p.current && p.current[es[i].uri] == id
  }

  lemma JoinRetires(u: Setup, p: State, e: Event, id: Id)
    requires Inv(p) && Enabled(u, p, e) && (e.RemoveEnd? || e.StopJoin?)
    requires e.uri in p.current && p.current[e.uri] == id
    ensures var q := Next(u, p, e);
            Retired(q, id) && Joined(q, id) && q.runners == p.runners
  {
  }

  /**
   No poll behind a join: when a removal, or its turn in a stop, has joined a runner that was started once, none of
   its polls is in progress and none ever starts; if it was started twice, one is in progress or can start.
   */
  lemma NoPollAfterJoin(u: Setup, es: seq<Event>, s: State, i: nat, id: Id)
    requires Reaches(u, es, s) && i < |es| && JoinsAt(u, es, i, id)
    ensures Starts(u, es, id) == 1 ==> Quiet(s, id) && NoOwn(es, i + 1, id)
    ensures Starts(u, es, id) != 1 ==> After(u, es[..i + 1]).Some? && Polls(After(u, es[..i + 1]).value, id)
  {
    var p := Earlier(u, es, s, i);
    var q := Next(u, p, es[i]);
    HistoryInv(u, es[..i], p);
    JoinRetires(u, p, es[i], id);
    HistoryInv(u, es[..i + 1], q);
    RetiredForGood(u, es, s, i + 1, q, id);
    StartsAreGoroutines(u, es, s, id);
    JoinedIsQuietIff(q, id);
  }

  /** The same over the life of a store: only a device added before `Start` can poll behind its removal or the stop. */
  lemma QuietInLife(u: Setup, es: seq<Event>, s: State, k: nat, i: nat, id: Id)
    requires Reaches(u, es, s) && Life(es, k) && i < |es| && JoinsAt(u, es, i, id)
    ensures !AddedEarly(u, es, k, id)
        ==> Quiet(s, id) && NoOwn(es, i + 1, id)
    ensures AddedEarly(u, es, k, id) ==> After(u, es[..i + 1]).Some? && Polls(After(u, es[..i + 1]).value, id)
  {
    var p := Earlier(u, es, s, i);
    HistoryInv(u, es[..i], p);
    JoinRetires(u, p, es[i], id);
    RetiredForGood(u, es, s, i + 1, Next(u, p, es[i]), id);
    StartedOnceOrTwice(u, es, s, k, id);
    NoPollAfterJoin(u, es, s, i, id);
  }

  /**
   Behind the end of the first stop every runner that was there, restored or added, and was started once is quiet:
   whatever still polls was started twice, or was made by an `Add` behind the stop.
   */
  lemma NoPollAfterStop(u: Setup, es: seq<Event>, s: State, i: nat, p: State, id: Id)
    requires Reaches(u, es, s) && i < |es| && es[i] == StopEnd && StopEnd !in es[..i]
    requires Reaches(u, es[..i], p) && id in p.runners
    ensures id in s.runners
    ensures Starts(u, es, id) == 1 ==> Quiet(s, id) && NoOwn(es, i + 1, id)
  {
    var p' := Earlier(u, es, s, i);
    var q := Next(u, p, es[i]);
    HistoryInv(u, es[..i], p);
    NotStopped(u, es[..i], p);
    StopWasStarted(p);
    HistoryInv(u, es[..i + 1], q);
    assert Retired(q, id) && q.runners == p.runners && Joined(p, id);
    RetiredForGood(u, es, s, i + 1, q, id);
    StartsAreGoroutines(u, es, s, id);
    JoinedIsQuietIff(p, id);
  }

  lemma {:induction false} NotStopped(u: Setup, es: seq<Event>, s: State)
    requires Reaches(u, es, s) && StopEnd !in es
    ensures !s.store.stopped
  {
    if es != [] {
      var before, e := es[..|es| - 1], es[|es| - 1];
      assert es == before + [e];
      NotStopped(u, before, After(u, before).value);
      StepKeepsOpen(u, After(u, before).value, e);
    }
  }

  lemma StepKeepsOpen(u: Setup, s: State, e: Event)
    requires Enabled(u, s, e) && !e.StopEnd?
    ensures Next(u, s, e).store.stopped == s.store.stopped
  {
    if e.Do? { CallKeepsOpen(u.parse, s.store, e.call); }
  }

  lemma CallKeepsOpen(parse: UrlParser, s: Store, c: Call)
    ensures Step(parse, s, c).stopped == s.stopped
  {
  }

  // ---- The crash

  function Owns(id: Id, xs: seq<R.Event>): seq<Event> {
    seq(|xs|, i requires 0 <= i < |xs| => Own(id, xs[i]))
  }

  /** All runners but this one are sane. */
  predicate OthersLive(s: State, id: Id) {
    id in s.runners && forall i :: i in s.runners && i != id ==> !s.runners[i].crashed
  }

  function WithRunner(s: State, id: Id, r: R.Runner): State {
    s.(runners := s.runners[id := r])
  }

  lemma OwnStepRuns(u: Setup, es: seq<Event>, s: State, id: Id, x: R.Event)
    requires Reaches(u, es, s) && OthersLive(s, id) && OwnStep(x) && R.Enabled(s.runners[id], x)
    ensures Reaches(u, es + [Own(id, x)], WithRunner(s, id, R.Next(PARAMS, s.runners[id], x)))
  {
    assert Enabled(u, s, Own(id, x));
    Snoc(u, es, s, Own(id, x));
  }

  lemma {:induction false} OwnRuns(u: Setup, es: seq<Event>, s: State, id: Id, xs: seq<R.Event>)
    requires Reaches(u, es, s) && OthersLive(s, id) && R.From(PARAMS, s.runners[id], xs).Some?
    requires forall x :: x in xs ==> OwnStep(x)
    ensures Reaches(u, es + Owns(id, xs), WithRunner(s, id, R.From(PARAMS, s.runners[id], xs).value))
    decreases xs
  {
    if xs == [] {
      assert es + Owns(id, xs) == es;
      assert s.runners[id := s.runners[id]] == s.runners;
    } else {
      var x, rest := xs[0], xs[1..];
      var r := R.Next(PARAMS, s.runners[id], x);
      assert x in xs && forall y :: y in rest ==> y in xs;
      OwnStepRuns(u, es, s, id, x);
      OwnRuns(u, es + [Own(id, x)], WithRunner(s, id, r), id, rest);
      OwnsCons(es, id, xs);
      Overwrite(s, id, r, R.From(PARAMS, r, rest).value);
    }
  }

  lemma Overwrite(s: State, id: Id, r: R.Runner, q: R.Runner)
    ensures WithRunner(WithRunner(s, id, r), id, q) == WithRunner(s, id, q)
  {
  }

  lemma OwnsCons(es: seq<Event>, id: Id, xs: seq<R.Event>)
    requires xs != []
    ensures es + [Own(id, xs[0])] + Owns(id, xs[1..]) == es + Owns(id, xs)
  {
  }

  /** Can the process die of a second close, without another start of the store? */
  ghost predicate CanDie(u: Setup, es: seq<Event>) {
    exists more :: NoStart(more) && Dies(u, es + more)
  }

  predicate Dies(u: Setup, es: seq<Event>) {
    After(u, es).Some? && !Alive(After(u, es).value)
  }

  lemma {:induction false} ExitedAtMost(gs: seq<R.Phase>)
    ensures R.ExitedCount(gs) <= |gs|
  {
    if gs != [] { ExitedAtMost(gs[..|gs| - 1]); }
  }

  /** Two goroutines of one runner, and a cancel of the parent, are enough. */
  lemma TwoGoroutinesCanDie(u: Setup, es: seq<Event>, s: State, id: Id)
    requires Reaches(u, es, s) && id in s.runners && |s.runners[id].gs| >= 2
    ensures CanDie(u, es)
  {
    if !Alive(s) {
      assert es + [] == es;
      assert NoStart([]) && Dies(u, es + []);
    } else {
      var t := Next(u, s, ParentCancel);
      HistoryInv(u, es, s);
      RunnerStep(s.runners[id], R.Cancel);
      ParentInv(s);
      Snoc(u, es, s, ParentCancel);
      CancelledCanDie(u, es, t, id);
    }
  }

  lemma CancelledCanDie(u: Setup, es: seq<Event>, t: State, id: Id)
    requires Reaches(u, es + [ParentCancel], t) && Inv(t) && Alive(t)
    requires id in t.runners && |t.runners[id].gs| >= 2 && t.runners[id].cancelled
    ensures CanDie(u, es)
  {
    var xs := R.TwoGoOut(PARAMS, t.runners[id]);
    OwnRuns(u, es + [ParentCancel], t, id, xs);
    var r := R.From(PARAMS, t.runners[id], xs).value;
    var dead := WithRunner(t, id, r);
    assert id in dead.runners && dead.runners[id].crashed;
    var more := [ParentCancel] + Owns(id, xs);
    assert es + [ParentCancel] + Owns(id, xs) == es + more;
    assert Dies(u, es + more);
    assert NoStart(more);
  }

  lemma LifeGoesOn(es: seq<Event>, k: nat, more: seq<Event>)
    requires Life(es, k) && NoStart(more)
    ensures Life(es + more, k) && (es + more)[..k] == es[..k]
  {
    assert (es + more)[..k] == es[..k];
    forall i | k + 1 <= i < |es + more|
      ensures !IsStart((es + more)[i])
    {
      if i >= |es| { assert (es + more)[i] == more[i - |es|]; }
    }
  }

  /**
   Once a store was started the process can die of a second close, without another start, exactly if an added
   device was there before `Start`.
   */
  lemma CanDieIffAddedEarly(u: Setup, es: seq<Event>, s: State, k: nat)
    requires Reaches(u, es, s) && Life(es, k)
    ensures CanDie(u, es) <==> AddedSince(u.parse, New(u), Calls(es[..k])) != {}
  {
    var added := AddedSince(u.parse, New(u), Calls(es[..k]));
    if added != {} {
      var uri :| uri in added;
      EarlyHasTwo(u, es, s, k, uri);
    } else if CanDie(u, es) {
      var more :| NoStart(more) && Dies(u, es + more);
      LifeGoesOn(es, k, more);
      var t := After(u, es + more).value;
      var id :| id in t.runners && t.runners[id].crashed;
      HistoryInv(u, es + more, t);
      ExitedAtMost(t.runners[id].gs);
      StartsAreGoroutines(u, es + more, t, id);
      StartedOnceOrTwice(u, es + more, t, k, id);
    }
  }

  lemma EarlyHasTwo(u: Setup, es: seq<Event>, s: State, k: nat, uri: Uri)
    requires Reaches(u, es, s) && Life(es, k) && uri in AddedSince(u.parse, New(u), Calls(es[..k]))
    ensures CanDie(u, es)
  {
    var p := Earlier(u, es, s, k);
    HistoryInv(u, es[..k], p);
    StoreIsRun(u, es[..k], p);
    NoStartCall(es[..k]);
    StartsBefore(u.parse, New(u), Calls(es[..k]));
    var id := p.current[uri];
    assert AddedEarly(u, es, k, id);
    var q := Next(u, p, es[k]);
    StartSizes(u, p, es[k], id);
    SizesSince(u, es, s, k + 1, q);
    StartedOnceOrTwice(u, es, s, k, id);
    StartsAreGoroutines(u, es, s, id);
    TwoGoroutinesCanDie(u, es, s, id);
  }
}
