/** Keeping device clocks and the last persisted time together. */
module Clocks {
  import opened Options
  import opened Words
  import Json

  // ---- The restorer of the last persisted time

  datatype Restorer = Restorer(restored: bool, timestamp: int64)

  const UNRESTORED := Restorer(false, -1)

  function WithTimestamp(r: Restorer, ts: int64): Restorer {
    Restorer(true, if ts > r.timestamp then ts else r.timestamp)
  }

  /** What the persistent storage answers; having no data restores -1. */
  datatype Persisted = Time(ts: int64) | NoData | ReadFailed

  function Restoring(r: Restorer, read: Persisted): Restorer {
    match read
    case ReadFailed => r
    case NoData => if r.restored then r else Restorer(true, -1)
    case Time(ts) => if r.restored then r else Restorer(true, ts)
  }

  function Observable(r: Restorer): Option<int64> {
    if r.restored then Some(r.timestamp) else None
  }

  class SystemClockRestorer {
    var restored: bool
    var timestamp: int64

    function Value(): Restorer
      reads this
    {
      Restorer(restored, timestamp)
    }

    constructor ()
      ensures Value() == UNRESTORED
    {
      restored, timestamp := false, -1;
    }

    method SetTimestamp(ts: int64)
      modifies this
      ensures Value() == WithTimestamp(old(Value()), ts)
      ensures restored && timestamp >= ts && timestamp >= old(timestamp) && timestamp in {ts, old(timestamp)}
    {
      if ts > timestamp { timestamp := ts; }
      if !restored { restored := true; }
    }

    method GetTimestamp() returns (r: Option<int64>)
      ensures r == Observable(Value())
      ensures r == if restored then Some(timestamp) else None
    {
      if !restored { return None; }
      r := Some(timestamp);
    }

    method Run(read: Persisted) returns (ok: bool)
      modifies this
      ensures ok == !read.ReadFailed?
      ensures Value() == Restoring(old(Value()), read)
      ensures restored <==> old(restored) || ok
      ensures timestamp == if old(restored) || !ok then old(timestamp) else if read.Time? then read.ts else -1
    {
      if read.ReadFailed? { return false; }
      if !restored {
        restored := true;
        timestamp := if read.Time? then read.ts else -1;
      }
      ok := true;
    }
  }

  // ---- The writer of device data

  datatype WriteResult = Written | MissingTimestamp | BadTimestamp | WriteFailed

  function TimestampOf(js: Json.Object): Option<int64> {
    if "timestamp" in js && js["timestamp"].Number? then Some(js["timestamp"].whole) else None
  }

  class DataHandler {
    const clock: SystemClockRestorer

    constructor (clock: SystemClockRestorer)
      ensures this.clock == clock
    {
      this.clock := clock;
    }

    /** `handleData`; `writeOk` is the outcome of `WritePoint`. The clock moves only behind a good write. */
    method HandleData(js: Json.Object, writeOk: bool) returns (r: WriteResult)
      modifies clock
      ensures r == if "timestamp" !in js then MissingTimestamp
                   else if !js["timestamp"].Number? then BadTimestamp
                   else if !writeOk then WriteFailed
                   else Written
      ensures clock.restored == (old(clock.restored) || r == Written)
      ensures clock.timestamp == if r == Written && js["timestamp"].whole > old(clock.timestamp)
                                 then js["timestamp"].whole else old(clock.timestamp)
      ensures clock.Value() == if r == Written then WithTimestamp(old(clock.Value()), TimestampOf(js).value)
                               else old(clock.Value())
    {
      if "timestamp" !in js { return MissingTimestamp; }
      if !js["timestamp"].Number? { return BadTimestamp; }
      if !writeOk { return WriteFailed; }
      clock.SetTimestamp(js["timestamp"].whole);
      r := Written;
    }
  }

  // ---- The verifier

  const SECOND: int := 1_000_000_000

  /** `int64(d.Seconds())`, in nanoseconds, towards zero. */
  function WholeSeconds(ns: int64): int64 {
    var d: int := ns;
    if d >= 0 then d / SECOND else -(-d / SECOND)
  }

  datatype Verifier = Basic | Drift(maxDrift: int64)

  /** `local` is the local clock, if it can be read. The difference cannot overflow. */
  function VerifyTime(v: Verifier, local: Option<int64>, device: int64): bool {
    match v
    case Basic => device > 0
    case Drift(max) =>
      if device < 0 then false
      else if local.None? then false
      else if device < local.value then
        var diff: int64 := local.value - device;
        diff < WholeSeconds(max)
      else true
  }

  // ---- The synchronizer

  /** What the clocks answer during one `SyncTime`. */
  datatype SyncEnv = SyncEnv(local: Option<int64>, last: Option<int64>, curr: Option<int64>, setOk: bool)

  datatype SyncResult =
    | Synced(value: int64)
    | LocalUnreadable | LastUnreadable | LastAhead | DeviceUnreadable | DeviceAhead | SetFailed

  function SyncOutcome(e: SyncEnv): SyncResult {
    if e.local.None? then LocalUnreadable
    else if e.last.None? then LastUnreadable
    else if e.local.value < e.last.value then LastAhead
    else if e.curr.None? then DeviceUnreadable
    else if e.local.value < e.curr.value then DeviceAhead
    else if !e.setOk then SetFailed
    else Synced(e.local.value)
  }

  /**
   A clock behind calls that may fail: whether it can be read and set is up to the surroundings. A call to set it
   that fails may have taken effect, since its answer can be lost.
   */
  class RemoteClock {
    var ts: int64
    var readable: bool
    var settable: bool
    var lossy: bool

    constructor (ts: int64, readable: bool, settable: bool, lossy: bool)
      ensures this.ts == ts && this.readable == readable && this.settable == settable && this.lossy == lossy
    {
      this.ts, this.readable, this.settable, this.lossy := ts, readable, settable, lossy;
    }

    function Reading(): Option<int64>
      reads this
    {
      if readable then Some(ts) else None
    }

    method GetTimestamp() returns (r: Option<int64>)
      ensures r == if readable then Some(ts) else None
    {
      r := if readable then Some(ts) else None;
    }

    method SetTimestamp(value: int64) returns (ok: bool)
      modifies this`ts
      ensures ok == settable
      ensures ts == if settable || lossy then value else old(ts)
    {
      if settable || lossy { ts := value; }
      ok := settable;
    }
  }

  class SystemClockSynchronizer {
    const local: RemoteClock
    const remoteLast: SystemClockRestorer
    const remoteCurr: RemoteClock

    constructor (local: RemoteClock, remoteLast: SystemClockRestorer, remoteCurr: RemoteClock)
      ensures this.local == local && this.remoteLast == remoteLast && this.remoteCurr == remoteCurr
    {
      this.local, this.remoteLast, this.remoteCurr := local, remoteLast, remoteCurr;
    }

    /** With nothing in between: the device clock only moves forward, and not behind what was persisted. */
    method SyncTime() returns (r: SyncResult)
      requires local != remoteCurr
      modifies remoteCurr`ts
      ensures r == SyncOutcome(SyncEnv(local.Reading(), Observable(remoteLast.Value()),
                                       old(remoteCurr.Reading()), remoteCurr.settable))
      ensures r == LocalUnreadable <==> !local.readable
      ensures r == LastUnreadable <==> local.readable && !remoteLast.restored
      ensures r == LastAhead <==> local.readable && remoteLast.restored && local.ts < remoteLast.timestamp
      ensures r == DeviceUnreadable <==> local.readable && remoteLast.restored && remoteLast.timestamp <= local.ts
                                         && !remoteCurr.readable
      ensures r == DeviceAhead <==> local.readable && remoteLast.restored && remoteLast.timestamp <= local.ts
                                    && remoteCurr.readable && local.ts < old(remoteCurr.ts)
      ensures r == SetFailed <==> local.readable && remoteLast.restored && remoteLast.timestamp <= local.ts
                                  && remoteCurr.readable && old(remoteCurr.ts) <= local.ts && !remoteCurr.settable
      ensures r == Synced(local.ts) <==> local.readable && remoteLast.restored && remoteLast.timestamp <= local.ts
                                         && remoteCurr.readable && old(remoteCurr.ts) <= local.ts && remoteCurr.settable
      ensures remoteCurr.ts == if r.Synced? || (r == SetFailed && remoteCurr.lossy) then local.ts
                               else old(remoteCurr.ts)
      ensures old(remoteCurr.ts) <= remoteCurr.ts
      ensures r.Synced? || remoteCurr.ts != old(remoteCurr.ts)
          ==> remoteLast.restored && remoteCurr.ts >= remoteLast.timestamp
    {
      var localTs := local.GetTimestamp();
      if localTs.None? { return LocalUnreadable; }
      var lastTs := remoteLast.GetTimestamp();
      if lastTs.None? { return LastUnreadable; }
      if localTs.value < lastTs.value { return LastAhead; }
      var currTs := remoteCurr.GetTimestamp();
      if currTs.None? { return DeviceUnreadable; }
      if localTs.value < currTs.value { return DeviceAhead; }
      var ok := remoteCurr.SetTimestamp(localTs.value);
      if !ok { return SetFailed; }
      r := Synced(localTs.value);
    }
  }

  // ---- The verifier in numbers

  /**
   The drift verifier accepts a time exactly if it is not negative, the local clock can be read, and the time is
   not behind it, or behind by at least a second less than the limit, which is in nanoseconds.
   */
  lemma DriftAcceptsIff(max: int64, local: Option<int64>, device: int64)
    ensures VerifyTime(Drift(max), local, device)
       <==> && device >= 0 && local.Some?
            && (local.value <= device || (local.value - device + 1) * 1_000_000_000 <= max)
  {
    if device >= 0 && local.Some? && device < local.value { WholeSecondsIs(max, local.value - device); }
  }

  lemma WholeSecondsIs(max: int64, diff: int)
    requires diff >= 0
    ensures diff < WholeSeconds(max) <==> (diff + 1) * 1_000_000_000 <= max
  {
  }

  lemma BasicAcceptsIff(local: Option<int64>, device: int64)
    ensures VerifyTime(Basic, local, device) <==> device > 0
  {
  }

  // ---- Synchronisation repairs rejection

  /**
   A device whose time was rejected is not ahead of a readable, nonnegative local clock that does not run
   backwards, so the guard against a device from the future cannot stop the synchronisation.
   */
  lemma RejectedIsNotAhead(v: Verifier, before: int64, device: int64, e: SyncEnv)
    requires !VerifyTime(v, Some(before), device) && 0 <= before
    requires e.local.Some? && before <= e.local.value && e.curr == Some(device)
    ensures SyncOutcome(e) != DeviceAhead
    ensures SyncOutcome(e).Synced? <==> e.last.Some? && e.last.value <= e.local.value && e.setOk
  {
  }

  /** The value that was set is accepted exactly until the local clock has moved on by the whole-second limit. */
  lemma SyncedIsAccepted(max: int64, e: SyncEnv, now: int64)
    requires SyncOutcome(e).Synced? && 0 <= e.local.value <= now
    ensures VerifyTime(Drift(max), Some(now), SyncOutcome(e).value)
       <==> now == e.local.value || (now - e.local.value + 1) * 1_000_000_000 <= max
    ensures VerifyTime(Basic, Some(now), SyncOutcome(e).value) <==> e.local.value > 0
  {
    DriftAcceptsIff(max, Some(now), e.local.value);
  }

  // ---- Interleavings

  type Sid = nat
  type Wid = nat

  /** Where a goroutine is inside `SyncTime`. */
  datatype Sync =
    | HaveLocal(local: int64)
    | HaveLast(local: int64)
    | HaveCurr(local: int64, curr: int64)
    | Done(local: int64, curr: int64)
    | Failed

  datatype Event =
    | WritePoint(w: Wid, ts: int64)       // the point is in the database
    | Publish(w: Wid, ts: int64)          // SetTimestamp; handleData returns
    | Restore(read: Persisted)            // the locked part of the restorer's Run
    | ReadLocal(s: Sid, local: int64)
    | ReadLast(s: Sid)
    | ReadCurr(s: Sid, curr: int64)
    | SetDevice(s: Sid)
    | Fail(s: Sid)                        // a clock could not be read, or a set was not answered

  /** `writing` holds the points written but not yet published. */
  datatype State = State(clock: Restorer, writing: map<Wid, int64>, syncs: map<Sid, Sync>)

  const INIT := State(UNRESTORED, map[], map[])

  predicate Busy(s: State, id: Sid) {
    id in s.syncs && !s.syncs[id].Done? && !s.syncs[id].Failed?
  }

  predicate Enabled(s: State, e: Event) {
    match e
    case WritePoint(w, _) => w !in s.writing
    case Publish(w, ts) => w in s.writing && s.writing[w] == ts
    case Restore(_) => true
    case ReadLocal(id, _) => !Busy(s, id)
    case ReadLast(id) => id in s.syncs && s.syncs[id].HaveLocal?
    case ReadCurr(id, _) => id in s.syncs && s.syncs[id].HaveLast?
    case SetDevice(id) => id in s.syncs && s.syncs[id].HaveCurr?
    case Fail(id) => Busy(s, id)
  }

  function Next(s: State, e: Event): State
    requires Enabled(s, e)
  {
    match e
    case WritePoint(w, ts) => s.(writing := s.writing[w := ts])
    case Publish(w, ts) => s.(clock := WithTimestamp(s.clock, ts), writing := s.writing - {w})
    case Restore(read) => s.(clock := Restoring(s.clock, read))
    case ReadLocal(id, local) => s.(syncs := s.syncs[id := HaveLocal(local)])
    case ReadLast(id) =>
      var local := s.syncs[id].local;
      var last := Observable(s.clock);
      s.(syncs := s.syncs[id := if last.Some? && last.value <= local then HaveLast(local) else Failed])
    case ReadCurr(id, curr) =>
      var local := s.syncs[id].local;
      s.(syncs := s.syncs[id := if curr <= local then HaveCurr(local, curr) else Failed])
    case SetDevice(id) => s.(syncs := s.syncs[id := Done(s.syncs[id].local, s.syncs[id].curr)])
    case Fail(id) => s.(syncs := s.syncs[id := Failed])
  }

  function After(es: seq<Event>): Option<State> {
    if es == [] then Some(INIT)
    else match After(es[..|es| - 1])
      case None => None
      case Some(s) => if Enabled(s, es[|es| - 1]) then Some(Next(s, es[|es| - 1])) else None
  }

  predicate Reaches(es: seq<Event>, s: State) {
    After(es) == Some(s)
  }

  /** The state behind the steps of one synchronisation with nothing in between, if all of them are possible. */
  function Uninterrupted(s: State, id: Sid, local: int64, curr: int64): Option<State> {
    if Busy(s, id) then None
    else
      var s1 := Next(s, ReadLocal(id, local));
      var s2 := Next(s1, ReadLast(id));
      if !Enabled(s2, ReadCurr(id, curr)) then None
      else
        var s3 := Next(s2, ReadCurr(id, curr));
        if Enabled(s3, SetDevice(id)) then Some(Next(s3, SetDevice(id))) else None
  }

  /** Without interference the steps set the device exactly if `SyncTime` does, and to the same value. */
  lemma StepsAreSyncTime(s: State, id: Sid, local: int64, curr: int64)
    requires !Busy(s, id)
    ensures var r, t := SyncOutcome(SyncEnv(Some(local), Observable(s.clock), Some(curr), true)),
                        Uninterrupted(s, id, local, curr);
            && (r.Synced? <==> t.Some?)
            && (r.Synced? ==> t.value.syncs[id] == Done(r.value, curr) && t.value.clock == s.clock)
  {
  }

  /** The value the running maximum starts from: -1 if data came first, else what the storage answered first. */
  function Base(es: seq<Event>): Option<int64> {
    if es == [] then None
    else
      var before := Base(es[..|es| - 1]);
      if before.Some? then before
      else match es[|es| - 1]
        case Publish(_, _) => Some(-1)
        case Restore(Time(ts)) => Some(ts)
        case Restore(NoData) => Some(-1)
        case _ => None
  }

  function MaxPublished(base: int64, es: seq<Event>): int64 {
    if es == [] then base
    else
      var m := MaxPublished(base, es[..|es| - 1]);
      if es[|es| - 1].Publish? && es[|es| - 1].ts > m then es[|es| - 1].ts else m
  }

  /** What the restorer shows is the maximum of everything published so far and of its first value. */
  lemma {:induction false} RestorerIsRunningMaximum(es: seq<Event>, s: State)
    requires Reaches(es, s)
    ensures Observable(s.clock) == if Base(es).None? then None else Some(MaxPublished(Base(es).value, es))
    ensures Base(es).None? ==> s.clock.timestamp == -1 && forall i :: 0 <= i < |es| ==> !es[i].Publish?
    ensures forall b: int64, i :: 0 <= i < |es| && es[i].Publish? ==> es[i].ts <= MaxPublished(b, es)
    ensures forall b: int64 :: b <= MaxPublished(b, es)
    ensures Base(es).None? ==> forall b: int64 :: MaxPublished(b, es) == b
  {
    if es != [] { RestorerIsRunningMaximum(es[..|es| - 1], After(es[..|es| - 1]).value); }
  }

  /** Once something is shown, no interleaving of sets and restores makes it smaller. */
  lemma {:induction false} ObservableNeverDecreases(es: seq<Event>, s: State, i: nat, p: State)
    requires i <= |es| && Reaches(es, s) && Reaches(es[..i], p) && p.clock.restored
    ensures s.clock.restored && p.clock.timestamp <= s.clock.timestamp
  {
    if i < |es| {
      var before := es[..|es| - 1];
      assert before[..i] == es[..i];
      ObservableNeverDecreases(before, After(before).value, i, p);
    } else {
      assert es[..i] == es;
    }
  }

  /** The first thing that set the restorer was a read of at least this time; no data came before it. */
  predicate ReadFirst(es: seq<Event>, persisted: int64) {
    exists i :: 0 <= i < |es| && IsRead(es[i], persisted) && forall j :: 0 <= j < i ==> !Sets(es[j])
  }

  predicate IsRead(e: Event, persisted: int64) {
    e.Restore? && e.read.Time? && e.read.ts >= persisted
  }

  predicate Sets(e: Event) {
    e.Publish? || (e.Restore? && !e.read.ReadFailed?)
  }

  /**
   The value covers what an earlier process persisted exactly if a read brought that much before any data was
   published, or some published time is as late; whatever the storage answers.
   */
  lemma PersistedIsCovered(es: seq<Event>, s: State, persisted: int64)
    requires Reaches(es, s) && s.clock.restored && persisted > -1
    ensures s.clock.timestamp >= persisted
       <==> ReadFirst(es, persisted) || exists i :: 0 <= i < |es| && es[i].Publish? && es[i].ts >= persisted
  {
    RestorerIsRunningMaximum(es, s);
    BaseIsFirst(es, persisted);
    MaxIsOneOf(Base(es).value, es);
  }

  lemma {:induction false} BaseIsFirst(es: seq<Event>, persisted: int64)
    requires persisted > -1
    ensures Base(es).None? <==> forall j :: 0 <= j < |es| ==> !Sets(es[j])
    ensures Base(es).Some? && Base(es).value >= persisted <==> ReadFirst(es, persisted)
  {
    if es != [] {
      var last := |es| - 1;
      var before := es[..last];
      BaseIsFirst(before, persisted);
      assert forall j :: 0 <= j < last ==> es[j] == before[j];
      if ReadFirst(before, persisted) {
        var i :| 0 <= i < |before| && IsRead(before[i], persisted) && forall j :: 0 <= j < i ==> !Sets(before[j]);
        assert IsRead(es[i], persisted);
      }
      if ReadFirst(es, persisted) {
        var i :| 0 <= i < |es| && IsRead(es[i], persisted) && forall j :: 0 <= j < i ==> !Sets(es[j]);
        if i < last { assert IsRead(before[i], persisted); }
      }
      if Base(before).None? && IsRead(es[last], persisted) { assert ReadFirst(es, persisted); }
    }
  }

  lemma {:induction false} MaxIsOneOf(base: int64, es: seq<Event>)
    ensures base <= MaxPublished(base, es)
    ensures MaxPublished(base, es) == base
         || exists i :: 0 <= i < |es| && es[i].Publish? && es[i].ts == MaxPublished(base, es)
  {
    if es != [] { MaxIsOneOf(base, es[..|es| - 1]); }
  }

  /** Data that comes before the storage is read hides the later time of the earlier process. */
  lemma RestoredTooLate(ts: int64, persisted: int64)
    requires ts < persisted && persisted > -1
    ensures exists s: State :: Reaches([WritePoint(0, ts), Publish(0, ts), Restore(Time(persisted))], s)
                               && s.clock.restored && s.clock.timestamp < persisted
  {
    var s1 := Snoc([], INIT, WritePoint(0, ts));
    assert [] + [WritePoint(0, ts)] == [WritePoint(0, ts)];
    var s2 := Snoc([WritePoint(0, ts)], s1, Publish(0, ts));
    var s3 := Snoc([WritePoint(0, ts)] + [Publish(0, ts)], s2, Restore(Time(persisted)));
    assert [WritePoint(0, ts)] + [Publish(0, ts)] + [Restore(Time(persisted))]
        == [WritePoint(0, ts), Publish(0, ts), Restore(Time(persisted))];
    assert s3.clock == s2.clock;
  }

  /** Index of the goroutine's latest read of the last persisted time, or -1. */
  function LastRead(es: seq<Event>, id: Sid): int {
    if es == [] then -1
    else if es[|es| - 1] == ReadLast(id) then |es| - 1
    else LastRead(es[..|es| - 1], id)
  }

  predicate PastLast(s: State, id: Sid) {
    id in s.syncs && (s.syncs[id].HaveLast? || s.syncs[id].HaveCurr? || s.syncs[id].Done?)
  }

  /**
   Forward only, end to end: the value a device is set to, or may be set to by a call that fails, is not below
   the device's own reading, nor below any time whose write had completed before the last persisted time was
   read, in every interleaving of writers, the restorer and other synchronisations.
   */
  lemma {:induction false} ForwardOnly(es: seq<Event>, s: State, id: Sid)
    requires Reaches(es, s) && PastLast(s, id)
    ensures LastRead(es, id) < |es|
    ensures forall i :: 0 <= i < LastRead(es, id) && es[i].Publish? ==> es[i].ts <= s.syncs[id].local
    ensures s.syncs[id].HaveCurr? || s.syncs[id].Done? ==> s.syncs[id].curr <= s.syncs[id].local
  {
    var last := |es| - 1;
    var before := es[..last];
    var p := After(before).value;
    if es[last] == ReadLast(id) {
      RestorerIsRunningMaximum(before, p);
    } else {
      ForwardOnly(before, p, id);
    }
  }

  /**
   A point that is in the database but not yet published is not covered: for every such time the device can
   be set to an earlier one.
   */
  lemma UnpublishedIsNotCovered(first: int64, curr: int64, local: int64, ts: int64)
    requires first <= local < ts && curr <= local
    ensures exists s: State, es ::
              && Reaches(es, s) && |es| > 1 && es[1] == WritePoint(0, ts) && LastRead(es, 0) > 1
              && 0 in s.syncs && s.syncs[0] == Done(local, curr)
  {
    var e0 := [Restore(Time(first))];
    var s0 := Snoc([], INIT, Restore(Time(first)));
    var s1 := Snoc([Restore(Time(first))], s0, WritePoint(0, ts));
    var es := [Restore(Time(first)), WritePoint(0, ts)];
    assert [Restore(Time(first))] + [WritePoint(0, ts)] == es;
    var s2 := Snoc(es, s1, ReadLocal(0, local));
    var s3 := Snoc(es + [ReadLocal(0, local)], s2, ReadLast(0));
    var s4 := Snoc(es + [ReadLocal(0, local)] + [ReadLast(0)], s3, ReadCurr(0, curr));
    var s5 := Snoc(es + [ReadLocal(0, local)] + [ReadLast(0)] + [ReadCurr(0, curr)], s4, SetDevice(0));
    var all := es + [ReadLocal(0, local)] + [ReadLast(0)] + [ReadCurr(0, curr)] + [SetDevice(0)];
    assert all[..5] == es + [ReadLocal(0, local)] + [ReadLast(0)] + [ReadCurr(0, curr)];
    assert all[..5][..4] == es + [ReadLocal(0, local)] + [ReadLast(0)];
    assert LastRead(all[..5][..4], 0) == 3;
    assert LastRead(all, 0) == 3;
  }

  lemma Snoc(es: seq<Event>, s: State, e: Event) returns (s': State)
    requires Reaches(es, s) && Enabled(s, e)
    ensures s' == Next(s, e) && Reaches(es + [e], s')
  {
    s' := Next(s, e);
    assert (es + [e])[..|es|] == es;
  }
}
