/**
 The periodic task runner: its one-slot wake-up channel, the channel that is closed when it is done, and
 its goroutines, as steps.
 */
module TaskRunner {
  import opened Options

  datatype Params = Params(exitOnSuccess: bool, recoverPanics: bool)

  datatype Outcome = Good | Bad | Panic

  /** Where a goroutine in `run` is. */
  datatype Phase = Spawned | InTask | Selecting | Exited

  type Gid = nat

  datatype Event =
    | Launch                          // Start: go r.run()
    | First(g: Gid)                   // the run before the loop
    | Tick(g: Gid)                    // <-ticker.C
    | Wake(g: Gid)                    // <-r.awakeCh
    | SeeCancel(g: Gid)               // <-r.ctx.Done()
    | Finish(g: Gid, outcome: Outcome)
    | Awake
    | Cancel
    | Join                            // Stop returns

  /** `closed` tells whether `doneCh` is closed; `crashed` that the process died of a panic. */
  datatype Runner = Runner(gs: seq<Phase>, token: bool, cancelled: bool, closed: bool, crashed: bool)

  const INIT := Runner([], false, false, false, false)

  predicate At(r: Runner, g: Gid, p: Phase) {
    g < |r.gs| && r.gs[g] == p
  }

  predicate StartsTask(e: Event) {
    e.First? || e.Tick? || e.Wake?
  }

  /** `runTask` reports whether to leave; a recovered panic counts as success. */
  predicate Leaves(p: Params, o: Outcome) {
    match o
    case Good => p.exitOnSuccess
    case Bad => false
    case Panic => !p.recoverPanics || p.exitOnSuccess
  }

  predicate Enabled(r: Runner, e: Event) {
    && !r.crashed
    && match e
       case First(g) => At(r, g, Spawned)
       case Tick(g) => At(r, g, Selecting)
       case Wake(g) => At(r, g, Selecting) && r.token
       case SeeCancel(g) => At(r, g, Selecting) && r.cancelled
       case Finish(g, _) => At(r, g, InTask)
       case Join => r.closed
       case _ => true
  }

  /** The deferred `close(r.doneCh)`; closing a closed channel panics. */
  function Leave(r: Runner, g: Gid): Runner
    requires g < |r.gs|
  {
    r.(gs := r.gs[g := Exited], closed := true, crashed := r.closed)
  }

  function Next(p: Params, r: Runner, e: Event): Runner
    requires Enabled(r, e)
  {
    match e
    case Launch => r.(gs := r.gs + [Spawned])
    case First(g) => r.(gs := r.gs[g := InTask])
    case Tick(g) => r.(gs := r.gs[g := InTask])
    case Wake(g) => r.(gs := r.gs[g := InTask], token := false)
    case SeeCancel(g) => Leave(r, g)
    case Finish(g, o) =>
      var left := if Leaves(p, o) then Leave(r, g) else r.(gs := r.gs[g := Selecting]);
      if o.Panic? && !p.recoverPanics then left.(crashed := true) else left
    case Awake => r.(token := true)
    case Cancel => r.(cancelled := true)
    case Join => r
  }

  /** The state after a history, or `None` if a step was not enabled. */
  function After(p: Params, es: seq<Event>): Option<Runner> {
    if es == [] then Some(INIT)
    else match After(p, es[..|es| - 1])
      case None => None
      case Some(r) => if Enabled(r, es[|es| - 1]) then Some(Next(p, r, es[|es| - 1])) else None
  }

  predicate Reaches(p: Params, es: seq<Event>, r: Runner) {
    After(p, es) == Some(r)
  }

  /** The runner's fields; the branches of `select` and the end of a task are methods of their own. */
  class AsyncTaskRunner {
    const params: Params
    var gs: seq<Phase>
    var awakeCh: bool
    var cancelled: bool
    var doneCh: bool
    var crashed: bool

    function Value(): Runner
      reads this
    {
      Runner(gs, awakeCh, cancelled, doneCh, crashed)
    }

    constructor (params: Params)
      ensures Value() == INIT && this.params == params
    {
      this.params := params;
      gs, awakeCh, cancelled, doneCh, crashed := [], false, false, false, false;
    }

    method Start()
      requires !crashed
      modifies this
      ensures Value() == Next(params, old(Value()), Launch)
      ensures Value() == old(Value()).(gs := old(gs) + [Spawned])
    {
      gs := gs + [Spawned];
    }

    method Awake()
      requires !crashed
      modifies this
      ensures Value() == Next(params, old(Value()), Event.Awake)
      ensures Value() == old(Value()).(token := true)
    {
      if !awakeCh { awakeCh := true; }
    }

    /** The branch of `select` that was taken, or the run before the loop. */
    method Take(e: Event)
      requires Enabled(Value(), e) && (StartsTask(e) || e.SeeCancel?)
      modifies this
      ensures Value() == Next(params, old(Value()), e)
      ensures gs == old(gs)[e.g := if e.SeeCancel? then Exited else InTask] && cancelled == old(cancelled)
      ensures awakeCh == (old(awakeCh) && !e.Wake?)
      ensures doneCh == (old(doneCh) || e.SeeCancel?) && crashed == (e.SeeCancel? && old(doneCh))
    {
      if e.SeeCancel? {
        CloseDone(e.g);
        return;
      }
      if e.Wake? { awakeCh := false; }
      gs := gs[e.g := InTask];
    }

    /** `close(r.doneCh)` on the way out of `run`. */
    method CloseDone(g: Gid)
      requires g < |gs| && !crashed
      modifies this
      ensures Value() == Leave(old(Value()), g)
    {
      gs := gs[g := Exited];
      if doneCh { crashed := true; }
      doneCh := true;
    }

    /** `runTask` has come back from the task. */
    method RunTask(g: Gid, outcome: Outcome) returns (leave: bool)
      requires Enabled(Value(), Finish(g, outcome))
      modifies this
      ensures leave == Leaves(params, outcome)
      ensures Value() == Next(params, old(Value()), Finish(g, outcome))
      ensures leave == if outcome == Panic && !params.recoverPanics then true
                       else outcome != Bad && params.exitOnSuccess
      ensures gs == old(gs)[g := if leave then Exited else Selecting]
      ensures awakeCh == old(awakeCh) && cancelled == old(cancelled) && doneCh == (old(doneCh) || leave)
      ensures crashed == ((leave && old(doneCh)) || (outcome == Panic && !params.recoverPanics))
    {
      leave := match outcome
               case Good => params.exitOnSuccess
               case Bad => false
               case Panic => !params.recoverPanics || params.exitOnSuccess;
      if leave { CloseDone(g); } else { gs := gs[g := Selecting]; }
      if outcome.Panic? && !params.recoverPanics { crashed := true; }
    }
  }

  // ---- Wake-ups

  predicate TaskStartAfter(es: seq<Event>, i: nat) {
    exists j :: i < j < |es| && StartsTask(es[j])
  }

  lemma StillStarted(es: seq<Event>, i: nat)
    requires es != []
    requires TaskStartAfter(es[..|es| - 1], i) || (i < |es| - 1 && StartsTask(es[|es| - 1]))
    ensures TaskStartAfter(es, i)
  {
    if TaskStartAfter(es[..|es| - 1], i) {
      var j :| i < j < |es| - 1 && StartsTask(es[..|es| - 1][j]);
      assert StartsTask(es[j]);
    }
  }

  lemma TokenStays(p: Params, r: Runner, e: Event)
    requires Enabled(r, e)
    ensures Next(p, r, e).token <==> e.Awake? || (r.token && !e.Wake?)
  {
  }

  /** No lost wake-up: behind every `Awake` a task run has started, or the token for one is in the channel. */
  lemma {:induction false} NoLostWakeup(p: Params, es: seq<Event>, r: Runner, i: nat)
    requires Reaches(p, es, r) && i < |es| && es[i] == Awake
    ensures r.token || TaskStartAfter(es, i)
  {
    var last := |es| - 1;
    var before := es[..last];
    var q := After(p, before).value;
    TokenStays(p, q, es[last]);
    if i < last {
      NoLostWakeup(p, before, q, i);
      if TaskStartAfter(before, i) || StartsTask(es[last]) { StillStarted(es, i); }
    }
  }

  function Count(es: seq<Event>, f: Event -> bool): nat {
    if es == [] then 0
    else Count(es[..|es| - 1], f) + if f(es[|es| - 1]) then 1 else 0
  }

  /** Wake-ups are merged, never multiplied. */
  lemma {:induction false} WakesBounded(p: Params, es: seq<Event>, r: Runner)
    requires Reaches(p, es, r)
    ensures Count(es, (e: Event) => e.Wake?) + (if r.token then 1 else 0) <= Count(es, (e: Event) => e.Awake?)
  {
    if es != [] { WakesBounded(p, es[..|es| - 1], After(p, es[..|es| - 1]).value); }
  }

  // ---- The end of a runner

  function Launches(es: seq<Event>): nat {
    if es == [] then 0
    else Launches(es[..|es| - 1]) + if es[|es| - 1].Launch? then 1 else 0
  }

  lemma Snoc(p: Params, es: seq<Event>, r: Runner, e: Event)
    requires Reaches(p, es, r) && Enabled(r, e)
    ensures Reaches(p, es + [e], Next(p, r, e))
    ensures Launches(es + [e]) == Launches(es) + if e.Launch? then 1 else 0
  {
    assert (es + [e])[..|es|] == es;
  }

  predicate Success(p: Params, e: Event) {
    e.Finish? && e.outcome != Bad && p.exitOnSuccess
  }

  /** Why a runner ends: it was cancelled, or it has succeeded and should then leave. */
  predicate MayEnd(p: Params, es: seq<Event>) {
    Cancel in es || exists i :: 0 <= i < |es| && Success(p, es[i])
  }

  lemma StillMayEnd(p: Params, es: seq<Event>)
    requires es != [] && (MayEnd(p, es[..|es| - 1]) || es[|es| - 1] == Cancel || Success(p, es[|es| - 1]))
    ensures MayEnd(p, es)
  {
    var before := es[..|es| - 1];
    if i :| 0 <= i < |before| && Success(p, before[i]) { assert Success(p, es[i]); }
  }

  /**
   One start: the channel is closed exactly when the goroutine has left, which it does only after a cancel
   or, where asked for, a success; and the process does not crash.
   */
  lemma {:induction false} OneStart(p: Params, es: seq<Event>, r: Runner)
    requires Reaches(p, es, r) && Launches(es) <= 1 && p.recoverPanics
    ensures |r.gs| == Launches(es) && !r.crashed
    ensures r.closed <==> At(r, 0, Exited)
    ensures r.cancelled <==> Cancel in es
    ensures r.closed ==> MayEnd(p, es)
  {
    if es != [] {
      var last := |es| - 1;
      var before := es[..last];
      var q := After(p, before).value;
      OneStart(p, before, q);
      assert es == before + [es[last]];
      OneStartStep(p, q, es[last]);
      if r.closed { StillMayEnd(p, es); }
    }
  }

  lemma OneStartStep(p: Params, q: Runner, e: Event)
    requires Enabled(q, e) && p.recoverPanics && |q.gs| + (if e.Launch? then 1 else 0) <= 1
    requires q.closed <==> At(q, 0, Exited)
    ensures var r := Next(p, q, e);
            && !r.crashed && (r.closed <==> At(r, 0, Exited))
            && (r.closed && !q.closed ==> q.cancelled || Success(p, e))
            && (r.cancelled <==> q.cancelled || e == Cancel)
            && |r.gs| == |q.gs| + if e.Launch? then 1 else 0
  {
  }

  /** What makes a goroutine leave: it sees the cancel, or a result that should end it. */
  predicate Ends(p: Params, e: Event) {
    e.SeeCancel? || (e.Finish? && p.exitOnSuccess && e.outcome in {Good, Panic})
  }

  /**
   A runner that was started once has ended exactly if its goroutine has seen the cancel or a wanted success: it
   ends behind the first one, and behind no other result.
   */
  lemma {:induction false} EndedIff(p: Params, es: seq<Event>, r: Runner)
    requires Reaches(p, es, r) && Launches(es) <= 1 && p.recoverPanics
    ensures r.closed <==> exists i :: 0 <= i < |es| && Ends(p, es[i])
    ensures forall i, j :: 0 <= i < j < |es| && Ends(p, es[i]) ==> !StartsTask(es[j]) && !es[j].Finish?
  {
    if es != [] {
      var last := |es| - 1;
      var before := es[..last];
      var q := After(p, before).value;
      EndedIff(p, before, q);
      OneStart(p, es, r);
      EndStep(p, q, es[last]);
      assert forall i :: 0 <= i < last ==> es[i] == before[i];
    }
  }

  lemma EndStep(p: Params, q: Runner, e: Event)
    requires Enabled(q, e) && p.recoverPanics && |Next(p, q, e).gs| <= 1
    requires Next(p, q, e).closed <==> At(Next(p, q, e), 0, Exited)
    ensures Next(p, q, e).closed <==> q.closed || Ends(p, e)
    ensures q.closed && At(q, 0, Exited) ==> !StartsTask(e) && !e.Finish?
  {
  }

  /** After `Stop` has returned no task is running and none starts. */
  lemma {:induction false} QuietAfterJoin(p: Params, es: seq<Event>, r: Runner, i: nat)
    requires Reaches(p, es, r) && Launches(es) <= 1 && p.recoverPanics && i < |es| && es[i] == Join
    ensures r.gs == [Exited]
    ensures forall j :: i < j < |es| ==> !StartsTask(es[j]) && !es[j].Finish?
  {
    var last := |es| - 1;
    var before := es[..last];
    var q := After(p, before).value;
    OneStart(p, es, r);
    if i < last {
      QuietAfterJoin(p, before, q, i);
      QuietStep(p, q, es[last]);
      assert forall j :: 0 <= j < last ==> es[j] == before[j];
    }
  }

  lemma QuietStep(p: Params, q: Runner, e: Event)
    requires q.gs == [Exited] && Enabled(q, e)
    ensures !StartsTask(e) && !e.Finish?
    ensures Next(p, q, e).gs == if e.Launch? then [Exited, Spawned] else [Exited]
  {
  }

  // ---- More than one start

  function ExitedCount(gs: seq<Phase>): nat {
    if gs == [] then 0 else ExitedCount(gs[..|gs| - 1]) + if gs[|gs| - 1] == Exited then 1 else 0
  }

  lemma {:induction false} ExitOne(gs: seq<Phase>, g: nat, x: Phase)
    requires g < |gs| && gs[g] != Exited
    ensures ExitedCount(gs[g := x]) == ExitedCount(gs) + if x == Exited then 1 else 0
  {
    var n := |gs| - 1;
    if g == n {
      assert gs[g := x][..n] == gs[..n];
    } else {
      assert gs[g := x][..n] == gs[..n][g := x];
      ExitOne(gs[..n], g, x);
    }
  }

  predicate ExitsCounted(r: Runner) {
    (r.crashed <==> ExitedCount(r.gs) >= 2) && (r.closed <==> ExitedCount(r.gs) >= 1)
  }

  lemma StepExits(p: Params, r: Runner, e: Event)
    requires ExitsCounted(r) && Enabled(r, e) && p.recoverPanics
    ensures ExitsCounted(Next(p, r, e))
    ensures |Next(p, r, e).gs| == |r.gs| + if e.Launch? then 1 else 0
  {
    match e {
      case Launch => assert (r.gs + [Spawned])[..|r.gs|] == r.gs;
      case First(g) => ExitOne(r.gs, g, InTask);
      case Tick(g) => ExitOne(r.gs, g, InTask);
      case Wake(g) => ExitOne(r.gs, g, InTask);
      case SeeCancel(g) => ExitOne(r.gs, g, Exited);
      case Finish(g, o) => ExitOne(r.gs, g, if Leaves(p, o) then Exited else Selecting);
      case _ =>
    }
  }

  /** With any number of starts: the channel is closed by the first goroutine that leaves, and the second crashes. */
  lemma {:induction false} CrashIsSecondExit(p: Params, es: seq<Event>, r: Runner)
    requires Reaches(p, es, r) && p.recoverPanics
    ensures ExitsCounted(r) && |r.gs| == Launches(es)
  {
    if es != [] {
      var before := es[..|es| - 1];
      CrashIsSecondExit(p, before, After(p, before).value);
      StepExits(p, After(p, before).value, es[|es| - 1]);
    }
  }

  lemma {:induction false} ExitedAt(gs: seq<Phase>, i: nat)
    requires i < |gs| && gs[i] == Exited
    ensures ExitedCount(gs) >= 1
  {
    if i < |gs| - 1 { ExitedAt(gs[..|gs| - 1], i); }
  }

  lemma {:induction false} ExitedTwice(gs: seq<Phase>, i: nat, j: nat)
    requires i < j < |gs| && gs[i] == Exited && gs[j] == Exited
    ensures ExitedCount(gs) >= 2
  {
    if j < |gs| - 1 { ExitedTwice(gs[..|gs| - 1], i, j); } else { ExitedAt(gs[..j], i); }
  }

  /** Running on from a state, without another start. */
  function From(p: Params, r: Runner, es: seq<Event>): Option<Runner>
    decreases es
  {
    if es == [] then Some(r)
    else if Enabled(r, es[0]) && !es[0].Launch? then From(p, Next(p, r, es[0]), es[1..])
    else None
  }

  lemma {:induction false} FromReaches(p: Params, es: seq<Event>, r: Runner, more: seq<Event>)
    requires Reaches(p, es, r) && From(p, r, more).Some?
    ensures Reaches(p, es + more, From(p, r, more).value) && Launches(es + more) == Launches(es)
    decreases more
  {
    if more == [] {
      assert es + more == es;
    } else {
      var e, rest := more[0], more[1..];
      Snoc(p, es, r, e);
      FromReaches(p, es + [e], Next(p, r, e), rest);
      Regroup(es, more);
    }
  }

  lemma Regroup(es: seq<Event>, more: seq<Event>)
    requires more != []
    ensures es + [more[0]] + more[1..] == es + more
  {
  }

  /** The way out of a goroutine that has seen the cancel: a failing task, then the cancel. */
  function WayOut(ph: Phase, g: Gid): seq<Event> {
    match ph
    case Spawned => [First(g), Finish(g, Bad), SeeCancel(g)]
    case InTask => [Finish(g, Bad), SeeCancel(g)]
    case Selecting => [SeeCancel(g)]
    case Exited => []
  }

  lemma GoesOut(p: Params, r: Runner, g: Gid)
    requires g < |r.gs| && r.cancelled && !r.crashed && r.gs[g] != Exited
    ensures From(p, r, WayOut(r.gs[g], g)) == Some(Leave(r, g))
  {
    var es := WayOut(r.gs[g], g);
    var r1 := r.(gs := r.gs[g := InTask]);
    var r2 := r.(gs := r.gs[g := Selecting]);
    assert Leave(r2, g) == Leave(r, g) by { assert r2.gs[g := Exited] == r.gs[g := Exited]; }
    assert From(p, Leave(r2, g), []) == Some(Leave(r2, g));
    assert From(p, r2, [SeeCancel(g)]) == Some(Leave(r, g)) by { assert [SeeCancel(g)][1..] == []; }
    match r.gs[g] {
      case Selecting => assert r2 == r;
      case InTask =>
        assert es[1..] == [SeeCancel(g)];
        assert Next(p, r, es[0]) == r2;
      case Spawned =>
        assert es[1..] == [Finish(g, Bad), SeeCancel(g)] && es[1..][1..] == [SeeCancel(g)];
        assert Next(p, r, es[0]) == r1;
        assert r1.gs[g := Selecting] == r.gs[g := Selecting];
        assert Next(p, r1, es[1]) == r2;
      case Exited =>
    }
  }

  lemma {:induction false} FromAppend(p: Params, r: Runner, a: seq<Event>, b: seq<Event>)
    requires From(p, r, a).Some?
    ensures From(p, r, a + b) == From(p, From(p, r, a).value, b)
    decreases a
  {
    if a == [] {
      assert a + b == b;
    } else {
      assert (a + b)[1..] == a[1..] + b;
      FromAppend(p, Next(p, r, a[0]), a[1..], b);
    }
  }

  /** Can the process die of a second close, without any further start? */
  ghost predicate CanCrash(p: Params, r: Runner) {
    exists more :: From(p, r, more).Some? && From(p, r, more).value.crashed
  }

  /** Two goroutines can both leave, and the second one crashes. */
  lemma TwoGoOut(p: Params, r: Runner) returns (more: seq<Event>)
    requires ExitsCounted(r) && !r.crashed && r.cancelled && |r.gs| >= 2
    ensures From(p, r, more).Some? && From(p, r, more).value.crashed
    ensures forall e :: e in more ==> e.First? || e.Finish? || e.SeeCancel?
  {
    var g, h := 0, 1;
    if r.gs[0] == Exited {
      if r.gs[1] == Exited { ExitedTwice(r.gs, 0, 1); }
      ExitedAt(r.gs, 0);
      more := WayOut(r.gs[1], 1);
      GoesOut(p, r, 1);
    } else {
      var r1 := Leave(r, 0);
      more := WayOut(r.gs[0], 0);
      GoesOut(p, r, 0);
      if !r1.crashed {
        if r.gs[1] == Exited { ExitedAt(r.gs, 1); }
        var rest := WayOut(r.gs[1], 1);
        GoesOut(p, r1, 1);
        FromAppend(p, r, more, rest);
        more := more + rest;
      }
    }
  }

  /** The process can die of a second close exactly if the runner was started more than once. */
  lemma CrashIffStartedTwice(p: Params, es: seq<Event>, r: Runner)
    requires Reaches(p, es, r) && p.recoverPanics
    ensures CanCrash(p, r) <==> Launches(es) >= 2
  {
    CrashIsSecondExit(p, es, r);
    if Launches(es) >= 2 {
      if r.crashed {
        assert From(p, r, []) == Some(r);
      } else {
        var r1 := Next(p, r, Cancel);
        var rest := TwoGoOut(p, r1);
        assert ([Cancel] + rest)[1..] == rest;
        assert From(p, r, [Cancel] + rest) == From(p, r1, rest);
      }
    } else if CanCrash(p, r) {
      var more :| From(p, r, more).Some? && From(p, r, more).value.crashed;
      FromReaches(p, es, r, more);
      OneStart(p, es + more, From(p, r, more).value);
    }
  }
}
