/** A store whose successful additions wake up the network browser. */
module AwakeStores {
  import opened Options
  import opened Words
  import opened Registry
  import opened RegistryLaws
  import R = TaskRunner

  class AwakeStore {
    const awakener: R.AsyncTaskRunner
    const store: CacheStore

    constructor (awakener: R.AsyncTaskRunner, store: CacheStore)
      ensures this.awakener == awakener && this.store == store
    {
      this.awakener, this.store := awakener, store;
    }

    method Add(uri: Uri, typ: Text, desc: Text, now: int64) returns (err: Err)
      requires !awakener.crashed
      modifies awakener, store, store.db, store.resolveStore
      ensures (store.Value(), err)
           == Added(store.parse, old(store.Value()), uri, typ, desc, now, old(store.db.Willing()))
      ensures awakener.awakeCh == (old(awakener.awakeCh) || err == Ok)
      ensures awakener.Value()
           == if err == Ok then R.Next(awakener.params, old(awakener.Value()), R.Awake) else old(awakener.Value())
    {
      err := store.Add(uri, typ, desc, now);
      if err == Ok { awakener.Awake(); }
    }
  }

  // ---- Adding and browsing

  /** `Browser` are the steps of the browser's runner other than being woken. */
  datatype Event =
    | AddDevice(uri: Uri, typ: Text, desc: Text, now: int64, writeOk: bool)
    | Other(c: Call)
    | Browser(e: R.Event)

  datatype State = State(store: Store, runner: R.Runner)

  predicate Enabled(s: State, e: Event) {
    match e
    case AddDevice(_, _, _, _, _) => !s.runner.crashed
    case Other(c) => !c.CallAdd?
    case Browser(x) => !x.Awake? && R.Enabled(s.runner, x)
  }

  /** The outcome of an addition. */
  function Outcome(parse: UrlParser, s: State, e: Event): Err
    requires e.AddDevice?
  {
    Added(parse, s.store, e.uri, e.typ, e.desc, e.now, e.writeOk).1
  }

  function Next(p: R.Params, parse: UrlParser, s: State, e: Event): State
    requires Enabled(s, e)
  {
    match e
    case AddDevice(uri, typ, desc, now, ok) =>
      State(Added(parse, s.store, uri, typ, desc, now, ok).0,
            if Outcome(parse, s, e) == Ok then R.Next(p, s.runner, R.Awake) else s.runner)
    case Other(c) => s.(store := Step(parse, s.store, c))
    case Browser(x) => s.(runner := R.Next(p, s.runner, x))
  }

  function After(p: R.Params, parse: UrlParser, s0: Store, es: seq<Event>): Option<State> {
    if es == [] then Some(State(s0, R.INIT))
    else match After(p, parse, s0, es[..|es| - 1])
      case None => None
      case Some(s) => if Enabled(s, es[|es| - 1]) then Some(Next(p, parse, s, es[|es| - 1])) else None
  }

  predicate IsBrowse(e: Event) {
    e.Browser? && R.StartsTask(e.e)
  }

  predicate BrowseAfter(es: seq<Event>, i: nat) {
    exists j :: i < j < |es| && IsBrowse(es[j])
  }

  /** The `i`-th event adds a device. */
  predicate AddsAt(p: R.Params, parse: UrlParser, s0: Store, es: seq<Event>, i: nat)
    requires i < |es|
  {
    && es[i].AddDevice?
    && match After(p, parse, s0, es[..i])
       case None => false
       case Some(q) => Outcome(parse, q, es[i]) == Ok
  }

  lemma TokenStays(p: R.Params, parse: UrlParser, s: State, e: Event)
    requires Enabled(s, e)
    ensures Next(p, parse, s, e).runner.token
       <==> (e.AddDevice? && Outcome(parse, s, e) == Ok) || (s.runner.token && !(e.Browser? && e.e.Wake?))
  {
    if e.Browser? { R.TokenStays(p, s.runner, e.e); }
  }

  lemma StillBrowsed(es: seq<Event>, i: nat)
    requires es != []
    requires BrowseAfter(es[..|es| - 1], i) || (i < |es| - 1 && IsBrowse(es[|es| - 1]))
    ensures BrowseAfter(es, i)
  {
    var before := es[..|es| - 1];
    if j :| i < j < |before| && IsBrowse(before[j]) { assert IsBrowse(es[j]); }
  }

  /**
   Every device that is added is browsed for: a browse has started behind its addition, or the token for one is
   waiting, whatever else the store and the browser do.
   */
  lemma {:induction false} AddIsBrowsed(p: R.Params, parse: UrlParser, s0: Store, es: seq<Event>, s: State, i: nat)
    requires After(p, parse, s0, es) == Some(s) && i < |es| && AddsAt(p, parse, s0, es, i)
    ensures s.runner.token || BrowseAfter(es, i)
  {
    var last := |es| - 1;
    var before := es[..last];
    var q := After(p, parse, s0, before).value;
    TokenStays(p, parse, q, es[last]);
    if i < last {
      AddsEarlier(p, parse, s0, es, i);
      AddIsBrowsed(p, parse, s0, before, q, i);
      if BrowseAfter(before, i) || IsBrowse(es[last]) { StillBrowsed(es, i); }
    } else {
      assert es[..i] == before;
    }
  }

  lemma AddsEarlier(p: R.Params, parse: UrlParser, s0: Store, es: seq<Event>, i: nat)
    requires i < |es| - 1
    ensures AddsAt(p, parse, s0, es, i) == AddsAt(p, parse, s0, es[..|es| - 1], i)
  {
    assert es[..|es| - 1][..i] == es[..i];
  }
}
