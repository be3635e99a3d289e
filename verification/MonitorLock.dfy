/**
 Who waits for whom when the alive monitor removes a device: the removal holds the monitor's mutex and joins the
 device's runner, which may be waiting for that very mutex in its notifier.
 */
module MonitorLock {
  import opened Options

  type Uri = string

  /** Where the goroutine of a device is; behind a poll without error it may have to notify the monitor. */
  datatype Phase = Selecting | Polling | Notifying | Exited

  /** The holder of the monitor's mutex across events: nobody, or the removal of a device that joins its runner. */
  datatype Holder = Nobody | Joining(uri: Uri)

  /** `notifies` are the devices whose nodes were made with a notifier; `parent` tells whether all are cancelled. */
  datatype State = State(runners: map<Uri, Phase>, notifies: set<Uri>, cancelled: set<Uri>,
                         parent: bool, holder: Holder)

  const INIT := State(map[], {}, {}, false, Nobody)

  datatype Event =
    | Call                          // a call that takes the mutex and gives it back
    | AddDevice(uri: Uri, notifier: bool)
    | Poll(uri: Uri)                // a tick, or a wake-up
    | PollFails(uri: Uri)
    | PollSucceeds(uri: Uri)
    | NotifyAlive(uri: Uri)
    | SeeCancel(uri: Uri)
    | ParentCancel
    | RemoveBegin(uri: Uri)         // of `Remove`, or of the sweep
    | RemoveEnd(uri: Uri)

  predicate At(s: State, uri: Uri, ph: Phase) {
    uri in s.runners && s.runners[uri] == ph
  }

  /** Events that take the mutex. */
  predicate Locks(e: Event) {
    e.Call? || e.AddDevice? || e.NotifyAlive? || e.RemoveBegin?
  }

  predicate Enabled(s: State, e: Event) {
    && (Locks(e) ==> s.holder == Nobody)
    && match e
       case Call => true
       case AddDevice(uri, _) => uri !in s.runners
       case Poll(uri) => At(s, uri, Selecting)
       case PollFails(uri) => At(s, uri, Polling)
       case PollSucceeds(uri) => At(s, uri, Polling)
       case NotifyAlive(uri) => At(s, uri, Notifying)
       case SeeCancel(uri) => At(s, uri, Selecting) && (s.parent || uri in s.cancelled)
       case ParentCancel => true
       case RemoveBegin(uri) => uri in s.runners
       case RemoveEnd(uri) => s.holder == Joining(uri) && At(s, uri, Exited)
  }

  function Next(s: State, e: Event): State
    requires Enabled(s, e)
  {
    match e
    case Call => s
    case AddDevice(uri, notifier) =>
      s.(runners := s.runners[uri := Selecting], cancelled := s.cancelled - {uri},
         notifies := if notifier then s.notifies + {uri} else s.notifies - {uri})
    case Poll(uri) => s.(runners := s.runners[uri := Polling])
    case PollFails(uri) => s.(runners := s.runners[uri := Selecting])
    case PollSucceeds(uri) => s.(runners := s.runners[uri := if uri in s.notifies then Notifying else Selecting])
    case NotifyAlive(uri) => s.(runners := s.runners[uri := Selecting])
    case SeeCancel(uri) => s.(runners := s.runners[uri := Exited])
    case ParentCancel => s.(parent := true)
    case RemoveBegin(uri) => s.(cancelled := s.cancelled + {uri}, holder := Joining(uri))
    case RemoveEnd(uri) => s.(runners := s.runners - {uri}, holder := Nobody)
  }

  /** Running on from a state; `None` if a step was not possible. */
  function From(s: State, es: seq<Event>): Option<State>
    decreases es
  {
    if es == [] then Some(s)
    else if Enabled(s, es[0]) then From(Next(s, es[0]), es[1..])
    else None
  }

  /** Only a device with a notifier notifies, only a cancelled one leaves, and a removal has cancelled its device. */
  predicate Valid(s: State) {
    && (forall uri :: At(s, uri, Notifying) && uri in s.runners ==> uri in s.notifies)
    && (forall uri :: At(s, uri, Exited) && uri in s.runners ==> s.parent || uri in s.cancelled)
    && (s.holder.Joining? ==> s.holder.uri in s.runners && s.holder.uri in s.cancelled)
  }

  lemma {:induction false} HistoryIsValid(s: State, es: seq<Event>)
    requires Valid(s) && From(s, es).Some?
    ensures Valid(From(s, es).value)
    decreases es
  {
    if es != [] { HistoryIsValid(Next(s, es[0]), es[1..]); }
  }

  // ---- The deadlock

  /** The removal waits for the runner, and the runner for the removal. */
  predicate Deadlocked(s: State, uri: Uri) {
    s.holder == Joining(uri) && At(s, uri, Notifying)
  }

  lemma DeadlockStep(s: State, e: Event, uri: Uri)
    requires Deadlocked(s, uri) && Enabled(s, e)
    ensures Deadlocked(Next(s, e), uri) && !Locks(e) && !e.RemoveEnd?
  {
  }

  /** A deadlock is for ever: the removal never returns, and nobody ever gets the mutex of the monitor again. */
  lemma {:induction false} DeadlockIsForEver(s: State, es: seq<Event>, uri: Uri)
    requires Deadlocked(s, uri) && From(s, es).Some?
    ensures Deadlocked(From(s, es).value, uri)
    ensures forall i :: 0 <= i < |es| ==> !Locks(es[i]) && !es[i].RemoveEnd?
    decreases es
  {
    if es != [] {
      DeadlockStep(s, es[0], uri);
      DeadlockIsForEver(Next(s, es[0]), es[1..], uri);
      assert forall i :: 1 <= i < |es| ==> es[i] == es[1..][i - 1];
    }
  }

  ghost predicate CanReturn(s: State, uri: Uri) {
    exists es :: From(s, es).Some? && RemoveEnd(uri) in es
  }

  /** Can the removal that is under way deadlock? */
  ghost predicate CanDeadlock(s: State, uri: Uri) {
    exists es :: RemoveEnd(uri) !in es && Deadlocks(s, es, uri)
  }

  predicate Deadlocks(s: State, es: seq<Event>, uri: Uri) {
    From(s, es).Some? && Deadlocked(From(s, es).value, uri)
  }

  lemma FromOne(s: State, e: Event, es: seq<Event>)
    requires Enabled(s, e)
    ensures From(s, [e] + es) == From(Next(s, e), es)
  {
    assert ([e] + es)[1..] == es;
  }

  /** A removal that joins a runner can still return exactly if the two are not deadlocked. */
  lemma RemovalReturnsIff(s: State, uri: Uri)
    requires Valid(s) && s.holder == Joining(uri)
    ensures CanReturn(s, uri) <==> !Deadlocked(s, uri)
  {
    if Deadlocked(s, uri) {
      if es :| From(s, es).Some? && RemoveEnd(uri) in es { DeadlockIsForEver(s, es, uri); }
    } else {
      var es := ToReturn(s, uri);
      assert From(s, es).Some? && RemoveEnd(uri) in es;
    }
  }

  lemma ToReturn(s: State, uri: Uri) returns (es: seq<Event>)
    requires Valid(s) && s.holder == Joining(uri) && !Deadlocked(s, uri)
    ensures From(s, es).Some? && RemoveEnd(uri) in es
    decreases match s.runners[uri] case Polling => 2 case Selecting => 1 case _ => 0
  {
    match s.runners[uri] {
      case Exited =>
        es := [RemoveEnd(uri)] + [];
        FromOne(s, RemoveEnd(uri), []);
      case Selecting =>
        var rest := ToReturn(Next(s, SeeCancel(uri)), uri);
        es := [SeeCancel(uri)] + rest;
        FromOne(s, SeeCancel(uri), rest);
      case Polling =>
        var rest := ToReturn(Next(s, PollFails(uri)), uri);
        es := [PollFails(uri)] + rest;
        FromOne(s, PollFails(uri), rest);
    }
  }

  /**
   Exactly the removals of devices with a notifier whose goroutine has not left can deadlock: also one that is
   between two polls when it begins, since the tick may come before the cancel is seen.
   */
  lemma RemovalDeadlocksIff(s: State, uri: Uri)
    requires Valid(s) && Enabled(s, RemoveBegin(uri))
    ensures CanDeadlock(Next(s, RemoveBegin(uri)), uri) <==> uri in s.notifies && s.runners[uri] != Exited
  {
    var t := Next(s, RemoveBegin(uri));
    if uri in s.notifies && s.runners[uri] != Exited {
      var es := ToDeadlock(t, uri);
      assert RemoveEnd(uri) !in es && Deadlocks(t, es, uri);
    } else if CanDeadlock(t, uri) {
      var es :| RemoveEnd(uri) !in es && Deadlocks(t, es, uri);
      StaysHarmless(t, es, uri);
    }
  }

  lemma ToDeadlock(s: State, uri: Uri) returns (es: seq<Event>)
    requires s.holder == Joining(uri) && uri in s.runners && uri in s.notifies && s.runners[uri] != Exited
    ensures RemoveEnd(uri) !in es && Deadlocks(s, es, uri)
    decreases match s.runners[uri] case Selecting => 2 case Polling => 1 case _ => 0
  {
    match s.runners[uri] {
      case Notifying => es := [];
      case Polling =>
        var rest := ToDeadlock(Next(s, PollSucceeds(uri)), uri);
        es := [PollSucceeds(uri)] + rest;
        FromOne(s, PollSucceeds(uri), rest);
      case Selecting =>
        var rest := ToDeadlock(Next(s, Poll(uri)), uri);
        es := [Poll(uri)] + rest;
        FromOne(s, Poll(uri), rest);
    }
  }

  /** The device of the removal will never wait for the mutex. */
  predicate Harmless(s: State, uri: Uri) {
    s.holder == Joining(uri) && uri in s.runners && s.runners[uri] != Notifying
    && (uri in s.notifies ==> s.runners[uri] == Exited)
  }

  lemma {:induction false} StaysHarmless(s: State, es: seq<Event>, uri: Uri)
    requires Harmless(s, uri) && From(s, es).Some? && RemoveEnd(uri) !in es
    ensures !Deadlocks(s, es, uri)
    decreases es
  {
    if es != [] {
      assert es == [es[0]] + es[1..];
      StaysHarmless(Next(s, es[0]), es[1..], uri);
    }
  }

  /** A poll has succeeded, and the removal, or the sweep, is faster than the notifier. */
  lemma DeadlockIsReachable(uri: Uri)
    ensures Deadlocks(INIT, [AddDevice(uri, true), Poll(uri), PollSucceeds(uri), RemoveBegin(uri)], uri)
  {
    var s1 := Next(INIT, AddDevice(uri, true));
    var s2 := Next(s1, Poll(uri));
    var s3 := Next(s2, PollSucceeds(uri));
    FromOne(s3, RemoveBegin(uri), []);
    FromOne(s2, PollSucceeds(uri), [RemoveBegin(uri)] + []);
    FromOne(s1, Poll(uri), [PollSucceeds(uri)] + ([RemoveBegin(uri)] + []));
    FromOne(INIT, AddDevice(uri, true), [Poll(uri)] + ([PollSucceeds(uri)] + ([RemoveBegin(uri)] + [])));
    assert [AddDevice(uri, true)] + ([Poll(uri)] + ([PollSucceeds(uri)] + ([RemoveBegin(uri)] + [])))
        == [AddDevice(uri, true), Poll(uri), PollSucceeds(uri), RemoveBegin(uri)];
  }
}
