/**
 The cache of resolved host names: the mutex-protected methods as a class, and the whole protocol, with
 its one-slot wake-up channel and any number of goroutines inside `Resolve`, as a step relation.
 */
module ResolveCache {
  import opened Options

  type Host = string

  /** A `net.Addr`; addresses are compared by `String()`. */
  datatype Addr = Addr(network: string, text: string)

  type Tid = nat

  /** Where a goroutine is inside `Resolve(host)`. */
  datatype Waiter =
    | Waiting(host: Host)
    | Woken(host: Host)
    | Answered(host: Host, addr: Addr)
    | NoData(host: Host)
    | TimedOut(host: Host)
  {
    predicate Done() {
      Answered? || NoData? || TimedOut?
    }
  }

  datatype Cache = Cache(known: set<Host>, resolved: map<Host, Addr>, token: bool)

  function HandleResolved(c: Cache, h: Host, a: Addr): Cache {
    if h !in c.known then c
    else if h in c.resolved && c.resolved[h].text == a.text then c.(token := true)
    else c.(resolved := c.resolved[h := a], token := true)
  }

  function Forget(c: Cache, h: Host): Cache {
    c.(known := c.known - {h}, resolved := c.resolved - {h})
  }

  function Lookup(c: Cache, h: Host): Option<Addr> {
    if h in c.resolved then Some(c.resolved[h]) else None
  }

  /** The methods that hold the mutex. `token` is the content of `updateCh`. */
  class ResolveStore {
    var knownHosts: set<Host>
    var resolvedAddrs: map<Host, Addr>
    var token: bool

    function Value(): Cache
      reads this
    {
      Cache(knownHosts, resolvedAddrs, token)
    }

    constructor ()
      ensures Value() == Cache({}, map[], false)
    {
      knownHosts, resolvedAddrs, token := {}, map[], false;
    }

    method HandleResolve(hostname: Host, addr: Addr)
      modifies this
      ensures Value() == HandleResolved(old(Value()), hostname, addr)
      ensures knownHosts == old(knownHosts) && token == (old(token) || hostname in knownHosts)
      ensures resolvedAddrs
           == if hostname in knownHosts
                 && (hostname in old(resolvedAddrs) ==> old(resolvedAddrs)[hostname].text != addr.text)
              then old(resolvedAddrs)[hostname := addr]
              else old(resolvedAddrs)
    {
      if hostname !in knownHosts { return; }
      if hostname !in resolvedAddrs {
        resolvedAddrs := resolvedAddrs[hostname := addr];
      } else if resolvedAddrs[hostname].text != addr.text {
        resolvedAddrs := resolvedAddrs[hostname := addr];
      }
      if !token { token := true; }
    }

    method Add(hostname: Host)
      modifies this
      ensures Value() == old(Value()).(known := old(knownHosts) + {hostname})
      ensures knownHosts == old(knownHosts) + {hostname} && resolvedAddrs == old(resolvedAddrs) && token == old(token)
    {
      knownHosts := knownHosts + {hostname};
    }

    method Remove(hostname: Host)
      modifies this
      ensures Value() == Forget(old(Value()), hostname)
      ensures knownHosts == old(knownHosts) - {hostname} && resolvedAddrs == old(resolvedAddrs) - {hostname}
      ensures token == old(token)
    {
      knownHosts := knownHosts - {hostname};
      resolvedAddrs := resolvedAddrs - {hostname};
    }

    method GetAddr(hostname: Host) returns (r: Option<Addr>)
      ensures r == Lookup(Value(), hostname)
      ensures r == if hostname in resolvedAddrs then Some(resolvedAddrs[hostname]) else None
    {
      if hostname !in resolvedAddrs { return None; }
      r := Some(resolvedAddrs[hostname]);
    }
  }

  // ---- The protocol

  datatype Event =
    | Handle(h: Host, a: Addr)
    | AddHost(h: Host)
    | RemoveHost(h: Host)
    | Begin(t: Tid, h: Host)   // Resolve: first getAddr
    | Wake(t: Tid)             // <-s.updateCh
    | Read(t: Tid)             // getAddr after the wake-up
    | Expire(t: Tid)           // <-ctx.Done()

  datatype State = State(cache: Cache, waiters: map<Tid, Waiter>)

  const INIT := State(Cache({}, map[], false), map[])

  predicate IsWaiting(s: State, t: Tid) {
    t in s.waiters && s.waiters[t].Waiting?
  }

  predicate Enabled(s: State, e: Event) {
    match e
    case Begin(t, h) => t in s.waiters ==> s.waiters[t].Done()
    case Wake(t) => IsWaiting(s, t) && s.cache.token
    case Read(t) => t in s.waiters && s.waiters[t].Woken?
    case Expire(t) => IsWaiting(s, t)
    case _ => true
  }

  function Next(s: State, e: Event): State
    requires Enabled(s, e)
  {
    match e
    case Handle(h, a) => s.(cache := HandleResolved(s.cache, h, a))
    case AddHost(h) => s.(cache := s.cache.(known := s.cache.known + {h}))
    case RemoveHost(h) => s.(cache := Forget(s.cache, h))
    case Begin(t, h) =>
      s.(waiters := s.waiters[t := match Lookup(s.cache, h) case Some(a) => Answered(h, a) case None => Waiting(h)])
    case Wake(t) =>
      State(s.cache.(token := false), s.waiters[t := Woken(s.waiters[t].host)])
    case Read(t) =>
      var h := s.waiters[t].host;
      s.(waiters := s.waiters[t := match Lookup(s.cache, h) case Some(a) => Answered(h, a) case None => NoData(h)])
    case Expire(t) => s.(waiters := s.waiters[t := TimedOut(s.waiters[t].host)])
  }

  /** The state after a history, or `None` if some step of it was not enabled. */
  function After(es: seq<Event>): Option<State> {
    if es == [] then Some(INIT)
    else match After(es[..|es| - 1])
      case None => None
      case Some(s) => if Enabled(s, es[|es| - 1]) then Some(Next(s, es[|es| - 1])) else None
  }

  predicate Reaches(es: seq<Event>, s: State) {
    After(es) == Some(s)
  }

  // ---- What the history says

  /** Is the host known: was it added, and not removed since? */
  predicate KnownBy(es: seq<Event>, h: Host) {
    es != [] &&
    match es[|es| - 1]
    case AddHost(g) => g == h || KnownBy(es[..|es| - 1], h)
    case RemoveHost(g) => g != h && KnownBy(es[..|es| - 1], h)
    case _ => KnownBy(es[..|es| - 1], h)
  }

  /** The address of the latest `HandleResolve` for the host since it last became known. */
  function LatestBy(es: seq<Event>, h: Host): Option<Addr> {
    if es == [] then None
    else
      var before := es[..|es| - 1];
      match es[|es| - 1]
      case RemoveHost(g) => if g == h then None else LatestBy(before, h)
      case Handle(g, a) => if g == h && KnownBy(before, h) then Some(a) else LatestBy(before, h)
      case _ => LatestBy(before, h)
  }

  /** Index of the latest `Begin` of the goroutine, or -1. */
  function LastBegin(es: seq<Event>, t: Tid): int {
    if es == [] then -1
    else if es[|es| - 1].Begin? && es[|es| - 1].t == t then |es| - 1
    else LastBegin(es[..|es| - 1], t)
  }

  // ---- Theorems over every history

  /** The cache holds exactly the latest address, up to its text, of exactly the known hosts that have one. */
  lemma {:induction false} CacheIsLatest(es: seq<Event>, s: State)
    requires Reaches(es, s)
    ensures forall h :: h in s.cache.known <==> KnownBy(es, h)
    ensures s.cache.resolved.Keys <= s.cache.known
    ensures forall h :: h in s.cache.resolved <==> LatestBy(es, h).Some?
    ensures forall h :: h in s.cache.resolved ==> s.cache.resolved[h].text == LatestBy(es, h).value.text
  {
    if es != [] { CacheIsLatest(es[..|es| - 1], After(es[..|es| - 1]).value); }
  }

  predicate Recorded(es: seq<Event>, h: Host, a: Addr) {
    Handle(h, a) in es
  }

  /** An address `Resolve` returns was recorded, as it is, for that very host. */
  lemma {:induction false} AnswersWereRecorded(es: seq<Event>, s: State)
    requires Reaches(es, s)
    ensures forall h :: h in s.cache.resolved ==> Recorded(es, h, s.cache.resolved[h])
    ensures forall t :: t in s.waiters && s.waiters[t].Answered?
                    ==> Recorded(es, s.waiters[t].host, s.waiters[t].addr)
  {
    if es != [] {
      var before := es[..|es| - 1];
      AnswersWereRecorded(before, After(before).value);
      assert forall e :: e in before ==> e in es;
      assert es[|es| - 1] in es;
    }
  }

  function LastWake(es: seq<Event>): int {
    if es == [] then -1
    else if es[|es| - 1].Wake? then |es| - 1
    else LastWake(es[..|es| - 1])
  }

  predicate KnownHandle(es: seq<Event>, i: int) {
    0 <= i < |es| && es[i].Handle? && KnownBy(es[..i], es[i].h)
  }

  /** The channel holds a token exactly if a known host was resolved since a token was last taken. */
  lemma {:induction false} TokenIsNews(es: seq<Event>, s: State)
    requires Reaches(es, s)
    ensures -1 <= LastWake(es) < |es|
    ensures s.cache.token <==> exists i :: i > LastWake(es) && KnownHandle(es, i)
  {
    if es != [] {
      var last := |es| - 1;
      var before := es[..last];
      CacheIsLatest(before, After(before).value);
      TokenIsNews(before, After(before).value);
      assert forall i :: 0 <= i < last ==> before[..i] == es[..i];
      assert forall i :: i < last ==> KnownHandle(es, i) == KnownHandle(before, i);
      assert KnownHandle(es, last) <==> es[last].Handle? && KnownBy(before, es[last].h);
    }
  }

  predicate OtherWake(es: seq<Event>, i: int, t: Tid) {
    0 <= i < |es| && es[i].Wake? && es[i].t != t
  }

  /**
   A goroutine still waiting for a host that is already resolved finds the token in the channel, unless
   another goroutine has taken one since it began to wait.
   */
  lemma {:induction false} StrandedOnlyByOthers(es: seq<Event>, s: State, t: Tid)
    requires Reaches(es, s) && IsWaiting(s, t) && s.waiters[t].host in s.cache.resolved && !s.cache.token
    ensures exists i :: i > LastBegin(es, t) && OtherWake(es, i, t)
  {
    var last := |es| - 1;
    var before := es[..last];
    var p := After(before).value;
    LastBeginBound(before, t);
    if es[last].Wake? {
      assert OtherWake(es, last, t);
    } else {
      StrandedOnlyByOthers(before, p, t);
      var i :| i > LastBegin(before, t) && OtherWake(before, i, t);
      assert OtherWake(es, i, t);
    }
  }

  lemma {:induction false} LastBeginBound(es: seq<Event>, t: Tid)
    ensures -1 <= LastBegin(es, t) < |es|
  {
    if es != [] { LastBeginBound(es[..|es| - 1], t); }
  }

  /** With no other goroutine being woken, a resolved host never leaves its waiter without a token. */
  lemma SingleWaiterIsServed(es: seq<Event>, s: State, t: Tid)
    requires Reaches(es, s) && IsWaiting(s, t) && s.waiters[t].host in s.cache.resolved
    requires forall i :: i > LastBegin(es, t) ==> !OtherWake(es, i, t)
    ensures Enabled(s, Wake(t))
    ensures Next(Next(s, Wake(t)), Read(t)).waiters[t]
         == Answered(s.waiters[t].host, s.cache.resolved[s.waiters[t].host])
  {
    if !s.cache.token { StrandedOnlyByOthers(es, s, t); }
  }

  // ---- Waking up for nothing

  predicate About(e: Event, t: Tid) {
    (e.Begin? || e.Wake? || e.Read? || e.Expire?) && e.t == t
  }

  /** Index of the latest step of the goroutine, or -1. */
  function LastOf(es: seq<Event>, t: Tid): int
    ensures -1 <= LastOf(es, t) < |es|
    ensures LastOf(es, t) >= 0 ==> About(es[LastOf(es, t)], t)
  {
    if es == [] then -1
    else if About(es[|es| - 1], t) then |es| - 1
    else LastOf(es[..|es| - 1], t)
  }

  /** The host of the latest `Resolve` of the goroutine. */
  function HostOf(es: seq<Event>, t: Tid): Host {
    if es == [] then ""
    else if es[|es| - 1].Begin? && es[|es| - 1].t == t then es[|es| - 1].h
    else HostOf(es[..|es| - 1], t)
  }

  /** The goroutine's latest step took the token. */
  predicate TookToken(es: seq<Event>, t: Tid) {
    LastOf(es, t) >= 0 && es[LastOf(es, t)].Wake?
  }

  /** Its latest step gave up. */
  predicate GaveUp(es: seq<Event>, t: Tid) {
    LastOf(es, t) >= 0 && es[LastOf(es, t)].Expire?
  }

  /** The address of its host, as far as the cache was told, when it took its latest step. */
  function ToldThen(es: seq<Event>, t: Tid): Option<Addr>
    requires LastOf(es, t) >= 0
  {
    LatestBy(es[..LastOf(es, t)], HostOf(es, t))
  }

  /** Its latest step was the first look. */
  predicate LookedFirst(es: seq<Event>, t: Tid) {
    LastOf(es, t) >= 0 && es[LastOf(es, t)].Begin?
  }

  /** Its latest step was the second look, behind a token that it had taken. */
  predicate LookedAgain(es: seq<Event>, t: Tid) {
    LastOf(es, t) >= 0 && es[LastOf(es, t)].Read? && TookToken(es[..LastOf(es, t)], t)
  }

  lemma LastOfEarlier(es: seq<Event>, t: Tid)
    requires es != [] && !About(es[|es| - 1], t)
    ensures var before := es[..|es| - 1];
            && LastOf(es, t) == LastOf(before, t) && HostOf(es, t) == HostOf(before, t)
            && (LastOf(es, t) >= 0 ==> es[..LastOf(es, t)] == before[..LastOf(es, t)]
                                       && es[LastOf(es, t)] == before[LastOf(es, t)])
  {
  }

  /** What the history says of a goroutine inside `Resolve`, or behind it. */
  predicate WaiterFits(es: seq<Event>, w: Waiter, t: Tid) {
    && LastOf(es, t) >= 0 && w.host == HostOf(es, t)
    && (w.Waiting? <==> LookedFirst(es, t) && ToldThen(es, t).None?)
    && (w.Woken? <==> TookToken(es, t))
    && (w.Answered? <==> (LookedFirst(es, t) || LookedAgain(es, t)) && ToldThen(es, t).Some?)
    && (w.Answered? ==> w.addr.text == ToldThen(es, t).value.text)
    && (w.NoData? <==> LookedAgain(es, t) && ToldThen(es, t).None?)
    && (w.TimedOut? <==> GaveUp(es, t))
  }

  /**
   `Resolve` over every history: it answers at once or behind a token exactly if its host was resolved when it
   looked, with that address up to its text; it ends without an address before its time is up exactly if its host
   was not resolved when it looked behind a token; and it waits exactly if it was not resolved at the first look.
   */
  lemma {:induction false} WaiterIsHistory(es: seq<Event>, s: State, t: Tid)
    requires Reaches(es, s)
    ensures t in s.waiters <==> LastOf(es, t) >= 0
    ensures t in s.waiters ==> WaiterFits(es, s.waiters[t], t)
  {
    if es != [] {
      var e, before := es[|es| - 1], es[..|es| - 1];
      var p := After(before).value;
      WaiterIsHistory(before, p, t);
      if About(e, t) { CacheIsLatest(before, p); } else { LastOfEarlier(es, t); }
    }
  }

  /** A waiter gets nothing before its time exactly if its host was not resolved when it looked behind a token. */
  lemma NoDataIff(es: seq<Event>, s: State, t: Tid)
    requires Reaches(es, s)
    ensures t in s.waiters && s.waiters[t].NoData? <==> LookedAgain(es, t) && ToldThen(es, t).None?
  {
    WaiterIsHistory(es, s, t);
  }

  /** From every state with a waiter: another host is resolved, the waiter takes the token, and gets nothing. */
  lemma WokenForAnother(es: seq<Event>, s: State, t: Tid, g: Host, a: Addr) returns (more: seq<Event>, n: State)
    requires Reaches(es, s) && IsWaiting(s, t) && s.waiters[t].host !in s.cache.resolved && g != s.waiters[t].host
    ensures more == [AddHost(g), Handle(g, a), Wake(t), Read(t)]
    ensures Reaches(es + more, n) && n.waiters[t] == NoData(s.waiters[t].host)
  {
    var s1 := Next(s, AddHost(g));
    Snoc(es, s, AddHost(g));
    var s2 := Next(s1, Handle(g, a));
    Snoc(es + [AddHost(g)], s1, Handle(g, a));
    assert s2.cache.token;
    var s3 := Next(s2, Wake(t));
    Snoc(es + [AddHost(g)] + [Handle(g, a)], s2, Wake(t));
    n := Next(s3, Read(t));
    Snoc(es + [AddHost(g)] + [Handle(g, a)] + [Wake(t)], s3, Read(t));
    more := [AddHost(g), Handle(g, a), Wake(t), Read(t)];
    assert es + [AddHost(g)] + [Handle(g, a)] + [Wake(t)] + [Read(t)] == es + more;
  }

  // ---- Two waiters

  lemma Snoc(es: seq<Event>, s: State, e: Event)
    requires Reaches(es, s) && Enabled(s, e)
    ensures Reaches(es + [e], Next(s, e))
  {
    assert (es + [e])[..|es|] == es;
  }

  /** Nobody else begins to resolve in these events. */
  predicate NoBegin(more: seq<Event>) {
    forall i :: 0 <= i < |more| ==> !more[i].Begin?
  }

  /** The goroutine waits for a host that is resolved, and there is no token for it. */
  predicate Stranded(s: State, t: Tid) {
    IsWaiting(s, t) && s.waiters[t].host in s.cache.resolved && !s.cache.token
  }

  predicate Strands(es: seq<Event>, t: Tid) {
    After(es).Some? && Stranded(After(es).value, t)
  }

  /** Can the goroutine be stranded, without another one beginning to resolve? */
  ghost predicate CanStrand(es: seq<Event>, t: Tid) {
    exists more :: NoBegin(more) && Strands(es + more, t)
  }

  predicate OtherWaits(s: State, t: Tid) {
    exists u :: u in s.waiters && u != t && s.waiters[u].Waiting?
  }

  /** The host is resolved, and the other waiter takes the token. */
  lemma WrongWaiterWakes(es: seq<Event>, s: State, t: Tid, u: Tid, a: Addr) returns (more: seq<Event>)
    requires Reaches(es, s) && IsWaiting(s, t) && IsWaiting(s, u) && t != u
    ensures more == [AddHost(s.waiters[t].host), Handle(s.waiters[t].host, a), Wake(u)]
    ensures Strands(es + more, t)
  {
    var h := s.waiters[t].host;
    var s1 := Next(s, AddHost(h));
    Snoc(es, s, AddHost(h));
    var s2 := Next(s1, Handle(h, a));
    Snoc(es + [AddHost(h)], s1, Handle(h, a));
    assert s2.cache.token && IsWaiting(s2, u);
    Snoc(es + [AddHost(h)] + [Handle(h, a)], s2, Wake(u));
    more := [AddHost(h), Handle(h, a), Wake(u)];
    assert es + [AddHost(h)] + [Handle(h, a)] + [Wake(u)] == es + more;
  }

  /** The host is not resolved without a token, and nobody else waits. */
  predicate Safe(s: State, t: Tid) {
    IsWaiting(s, t) ==> !Stranded(s, t) && !OtherWaits(s, t)
  }

  lemma StepStaysSafe(s: State, e: Event, t: Tid)
    requires Safe(s, t) && Enabled(s, e) && !e.Begin?
    ensures Safe(Next(s, e), t)
  {
    var n := Next(s, e);
    if IsWaiting(n, t) {
      assert IsWaiting(s, t);
      assert forall u :: u in n.waiters && n.waiters[u].Waiting? ==> u in s.waiters && s.waiters[u].Waiting?;
    }
  }

  lemma {:induction false} StaysSafe(es: seq<Event>, s: State, more: seq<Event>, t: Tid)
    requires Reaches(es, s) && Safe(s, t) && NoBegin(more) && After(es + more).Some?
    ensures Safe(After(es + more).value, t)
  {
    if more == [] {
      assert es + more == es;
    } else {
      var last := |more| - 1;
      assert (es + more)[..|es| + last] == es + more[..last];
      StaysSafe(es, s, more[..last], t);
      StepStaysSafe(After(es + more[..last]).value, more[last], t);
    }
  }

  /**
   Without newcomers, a waiter that is not stranded can be stranded exactly if another goroutine is waiting,
   for whatever host.
   */
  lemma StrandedIffOthersWait(es: seq<Event>, s: State, t: Tid)
    requires Reaches(es, s) && IsWaiting(s, t) && !Stranded(s, t)
    ensures CanStrand(es, t) <==> OtherWaits(s, t)
  {
    if OtherWaits(s, t) {
      var u :| u in s.waiters && u != t && s.waiters[u].Waiting?;
      var more := WrongWaiterWakes(es, s, t, u, Addr("", ""));
      assert NoBegin(more) && Strands(es + more, t);
    } else if CanStrand(es, t) {
      var more :| NoBegin(more) && Strands(es + more, t);
      StaysSafe(es, s, more, t);
    }
  }
}
