/** One poll of a device: fetch, identify, check the time, hand over; and every run of polls. */
module PollDevices {
  import opened Options
  import opened Words
  import opened Clocks
  import Json

  /** A fetch that failed or did not parse, or the object it brought. */
  datatype Fetch = FetchFailed | Got(js: Json.Object)

  /** What the surroundings answer during one poll. */
  datatype Env = Env(
    reg: Fetch, regClock: Option<int64>,
    tel: Fetch, telClock: Option<int64>,
    sync: SyncEnv,
    regHandled: bool, telHandled: bool)

  datatype Params = Params(verifier: Verifier, syncDisabled: bool)

  datatype Event =
    | Sync(result: SyncResult)
    | SyncNotSupported
    | Registration(id: string, js: Json.Object, handled: bool)
    | Telemetry(id: string, js: Json.Object, handled: bool)
  {
    predicate HandOver() {
      Registration? || Telemetry?
    }

    predicate IsSync() {
      Sync? || SyncNotSupported?
    }
  }

  // ---- The steps as functions

  datatype Check = Accepted | Unusable | Rejected

  function CheckTime(p: Params, js: Json.Object, clock: Option<int64>): Check {
    match TimestampOf(js)
    case None => Unusable
    case Some(ts) => if VerifyTime(p.verifier, clock, ts) then Accepted else Rejected
  }

  function SyncEvent(p: Params, e: SyncEnv): Event {
    if p.syncDisabled then SyncNotSupported else Sync(SyncOutcome(e))
  }

  function IdOf(js: Json.Object): Option<string> {
    if "device_id" in js && js["device_id"].String? then Some(js["device_id"].s) else None
  }

  /** The latched ID after a registration, or `None` if it is missing or is not the latched one. */
  function Latch(latched: string, js: Json.Object): Option<string> {
    match IdOf(js)
    case None => None
    case Some(id) => if latched != "" && latched != id then None else Some(id)
  }

  /** A checked fetch: what was seen, and whether to go on. */
  function Checked(p: Params, f: Fetch, clock: Option<int64>, e: SyncEnv): (seq<Event>, bool) {
    if f.FetchFailed? then ([], false)
    else match CheckTime(p, f.js, clock)
      case Accepted => ([], true)
      case Unusable => ([], false)
      case Rejected => ([SyncEvent(p, e)], false)
  }

  datatype Polled = Polled(id: string, events: seq<Event>, ok: bool)

  function Poll(p: Params, latched: string, e: Env): Polled {
    if e.reg.FetchFailed? then Polled(latched, [], false)
    else match Latch(latched, e.reg.js)
      case None => Polled(latched, [], false)
      case Some(id) =>
        var (seen, go) := Checked(p, e.reg, e.regClock, e.sync);
        if !go then Polled(id, seen, false)
        else
          var (seen, go) := Checked(p, e.tel, e.telClock, e.sync);
          if !go then Polled(id, seen, false)
          else if !e.regHandled then Polled(id, [Registration(id, e.reg.js, false)], false)
          else Polled(id, [Registration(id, e.reg.js, true), Telemetry(id, e.tel.js, e.telHandled)], e.telHandled)
  }

  /** The object has a time, and the verifier accepts it. */
  predicate Timely(p: Params, js: Json.Object, clock: Option<int64>) {
    "timestamp" in js && js["timestamp"].Number? && VerifyTime(p.verifier, clock, js["timestamp"].whole)
  }

  /** The object has a time that the verifier does not accept. */
  predicate Untimely(p: Params, js: Json.Object, clock: Option<int64>) {
    "timestamp" in js && js["timestamp"].Number? && !VerifyTime(p.verifier, clock, js["timestamp"].whole)
  }

  /** The registration was fetched, and its ID is the latched one, if there is one. */
  predicate Identified(latched: string, f: Fetch) {
    f.Got? && "device_id" in f.js && f.js["device_id"].String? && latched in {"", f.js["device_id"].s}
  }

  class PollDevice {
    const params: Params
    var deviceID: string

    constructor (params: Params)
      ensures this.params == params && deviceID == ""
    {
      this.params, deviceID := params, "";
    }

    method Run(e: Env) returns (events: seq<Event>, ok: bool)
      modifies this
      ensures Polled(deviceID, events, ok) == Poll(params, old(deviceID), e)
    {
      events, ok := FetchRegistration(e);
      if !ok { return; }
      events, ok := FetchTelemetry(e);
      if !ok { return; }
      events := events + [Registration(deviceID, e.reg.js, e.regHandled)];
      if !e.regHandled { return events, false; }
      events := events + [Telemetry(deviceID, e.tel.js, e.telHandled)];
      ok := e.telHandled;
    }

    method FetchRegistration(e: Env) returns (events: seq<Event>, ok: bool)
      modifies this
      ensures var id := if e.reg.Got? then Latch(old(deviceID), e.reg.js) else None;
              && deviceID == (if id.Some? then id.value else old(deviceID))
              && (events, ok) == if id.Some? then Checked(params, e.reg, e.regClock, e.sync) else ([], false)
    {
      events := [];
      if e.reg.FetchFailed? { return [], false; }
      ok := ParseDeviceID(e.reg.js);
      if !ok { return; }
      events, ok := ValidateTimestamp(e.reg.js, e.regClock, e.sync);
    }

    method FetchTelemetry(e: Env) returns (events: seq<Event>, ok: bool)
      ensures (events, ok) == Checked(params, e.tel, e.telClock, e.sync)
    {
      if e.tel.FetchFailed? { return [], false; }
      events, ok := ValidateTimestamp(e.tel.js, e.telClock, e.sync);
    }

    method ValidateTimestamp(js: Json.Object, clock: Option<int64>, sync: SyncEnv)
      returns (events: seq<Event>, ok: bool)
      ensures (events, ok) == Checked(params, Got(js), clock, sync)
      ensures ok <==> Timely(params, js, clock)
      ensures events == if !ok && "timestamp" in js && js["timestamp"].Number?
                        then [if params.syncDisabled then SyncNotSupported else Sync(SyncOutcome(sync))]
                        else []
    {
      if "timestamp" !in js { return [], false; }
      if !js["timestamp"].Number? { return [], false; }
      if VerifyTime(params.verifier, clock, js["timestamp"].whole) { return [], true; }
      events := [SyncEvent(params, sync)];
      ok := false;
    }

    method ParseDeviceID(js: Json.Object) returns (ok: bool)
      modifies this
      ensures ok == Latch(old(deviceID), js).Some?
      ensures deviceID == if ok then Latch(old(deviceID), js).value else old(deviceID)
      ensures ok <==> "device_id" in js && js["device_id"].String? && old(deviceID) in {"", js["device_id"].s}
      ensures deviceID == if ok then js["device_id"].s else old(deviceID)
    {
      if "device_id" !in js { return false; }
      if !js["device_id"].String? { return false; }
      var id := js["device_id"].s;
      if deviceID != "" && deviceID != id { return false; }
      if deviceID == "" { deviceID := id; }
      ok := true;
    }
  }

  // ---- One poll

  /**
   All that a poll does: with a registration that cannot be identified nothing; otherwise its ID is latched, and an
   untimely object, the registration first, leads to one synchronisation and ends the poll; with two timely objects
   the registration is handed over, and behind it, if it was handled, the telemetry.
   */
  lemma PollIs(p: Params, latched: string, e: Env)
    ensures var r := Poll(p, latched, e);
            var identified := Identified(latched, e.reg);
            var timely := identified && Timely(p, e.reg.js, e.regClock);
            var both := timely && e.tel.Got? && Timely(p, e.tel.js, e.telClock);
            && r.id == (if identified then e.reg.js["device_id"].s else latched)
            && (r.ok <==> both && e.regHandled && e.telHandled)
            && r.events == (
                 if both && e.regHandled
                 then [Registration(r.id, e.reg.js, true), Telemetry(r.id, e.tel.js, e.telHandled)]
                 else if both then [Registration(r.id, e.reg.js, false)]
                 else if (identified && Untimely(p, e.reg.js, e.regClock))
                         || (timely && e.tel.Got? && Untimely(p, e.tel.js, e.telClock))
                 then [if p.syncDisabled then SyncNotSupported else Sync(SyncOutcome(e.sync))]
                 else [])
  {
  }

  /**
   A poll shows nothing, or one synchronisation, or a registration that could not be handled, or a handled
   registration and then the telemetry; it succeeds exactly if both were handled.
   */
  lemma PollShape(p: Params, latched: string, e: Env)
    ensures var r := Poll(p, latched, e);
            && (|r.events| == 0
                || (|r.events| == 1 && r.events[0].IsSync())
                || (|r.events| == 1 && r.events[0].Registration? && !r.events[0].handled)
                || (|r.events| == 2 && r.events[0].Registration? && r.events[0].handled && r.events[1].Telemetry?))
            && (r.ok <==> |r.events| == 2 && r.events[1].Telemetry? && r.events[1].handled)
  {
  }

  /**
   Data is handed over exactly if the registration names the latched or a first ID and both objects are timely
   in this poll; both are handed over with the ID the registration names.
   */
  lemma HandOverIff(p: Params, latched: string, e: Env)
    ensures var r := Poll(p, latched, e);
            && ((exists i :: 0 <= i < |r.events| && r.events[i].HandOver())
                <==> && Identified(latched, e.reg) && e.tel.Got?
                     && Timely(p, e.reg.js, e.regClock) && Timely(p, e.tel.js, e.telClock))
            && forall i :: 0 <= i < |r.events| && r.events[i].HandOver() ==>
                 && r.events[i].id == e.reg.js["device_id"].s
                 && r.events[i].js == (if r.events[i].Registration? then e.reg.js else e.tel.js)
                 && r.events[i].handled == if r.events[i].Registration? then e.regHandled else e.telHandled
  {
    PollIs(p, latched, e);
    var r := Poll(p, latched, e);
    if |r.events| > 0 && r.events[0].HandOver() {
      assert exists i :: 0 <= i < |r.events| && r.events[i].HandOver();
    }
  }

  /** A synchronisation is tried exactly if a time that was reached is present and rejected. */
  lemma SyncIff(p: Params, latched: string, e: Env)
    ensures var r := Poll(p, latched, e);
            && ((exists i :: 0 <= i < |r.events| && r.events[i].IsSync())
                <==> && Identified(latched, e.reg)
                     && (Untimely(p, e.reg.js, e.regClock)
                         || (Timely(p, e.reg.js, e.regClock) && e.tel.Got? && Untimely(p, e.tel.js, e.telClock))))
            && (p.syncDisabled ==> forall i :: 0 <= i < |r.events| ==> !r.events[i].Sync?)
  {
    PollIs(p, latched, e);
    var r := Poll(p, latched, e);
    if |r.events| > 0 && r.events[0].IsSync() {
      assert exists i :: 0 <= i < |r.events| && r.events[i].IsSync();
    }
  }

  /** A poll that sets the device clock sets it to the local time, ahead of both other clocks. */
  lemma PollSyncsForward(p: Params, latched: string, e: Env, i: nat)
    requires i < |Poll(p, latched, e).events|
    requires Poll(p, latched, e).events[i].Sync? && Poll(p, latched, e).events[i].result.Synced?
    ensures var value := Poll(p, latched, e).events[i].result.value;
            && e.sync.local == Some(value)
            && e.sync.last.Some? && e.sync.last.value <= value
            && e.sync.curr.Some? && e.sync.curr.value <= value
  {
  }

  // ---- Runs of polls

  /** All events of a device's life, and the ID latched at its end. */
  function Life(p: Params, latched: string, es: seq<Env>): Polled {
    if es == [] then Polled(latched, [], true)
    else
      var before := Life(p, latched, es[..|es| - 1]);
      var now := Poll(p, before.id, es[|es| - 1]);
      Polled(now.id, before.events + now.events, now.ok)
  }

  /** A latched ID never changes. */
  lemma {:induction false} LatchedForever(p: Params, latched: string, es: seq<Env>, k: nat)
    requires k <= |es| && Life(p, latched, es[..k]).id != ""
    ensures Life(p, latched, es).id == Life(p, latched, es[..k]).id
  {
    if k < |es| {
      var before := es[..|es| - 1];
      assert before[..k] == es[..k];
      LatchedForever(p, latched, before, k);
    } else {
      assert es[..k] == es;
    }
  }

  /** Every ID handed over is empty, or the one that is latched for good. */
  lemma {:induction false} HandedIds(p: Params, es: seq<Env>)
    ensures var l := Life(p, "", es);
            && (forall i :: 0 <= i < |l.events| && l.events[i].HandOver() ==> l.events[i].id in {"", l.id})
            && (l.id == "" ==> forall i :: 0 <= i < |l.events| && l.events[i].HandOver() ==> l.events[i].id == "")
  {
    if es != [] { HandedIds(p, es[..|es| - 1]); }
  }

  predicate HandsOver(l: Polled, i: int) {
    0 <= i < |l.events| && l.events[i].HandOver()
  }

  /** In every life all non-empty IDs ever handed over are equal, and behind one no empty ID follows. */
  lemma {:induction false} OneIdentity(p: Params, es: seq<Env>, i: nat, j: nat)
    requires i <= j && HandsOver(Life(p, "", es), i) && HandsOver(Life(p, "", es), j)
    requires Life(p, "", es).events[i].id != ""
    ensures Life(p, "", es).events[j].id == Life(p, "", es).events[i].id
  {
    var e, earlier := es[|es| - 1], es[..|es| - 1];
    var before := Life(p, "", earlier);
    HandedIds(p, earlier);
    LifeStep(p, earlier, e, es);
    if j < |before.events| {
      OneIdentity(p, earlier, i, j);
    } else {
      PollHandsId(p, before.id, e);
    }
  }

  lemma LifeStep(p: Params, earlier: seq<Env>, e: Env, es: seq<Env>)
    requires es != [] && earlier == es[..|es| - 1] && e == es[|es| - 1]
    ensures Life(p, "", es).events == Life(p, "", earlier).events + Poll(p, Life(p, "", earlier).id, e).events
  {
  }

  /** One poll hands over one ID, which is the latched one if there is one. */
  lemma PollHandsId(p: Params, latched: string, e: Env)
    ensures var r := Poll(p, latched, e);
            forall i :: HandsOver(r, i) ==> r.events[i].id == r.id && (latched == "" || r.id == latched)
  {
  }

  /** The object whose time was reached and rejected in a poll, with the clock reading that rejected it. */
  function Refused(p: Params, latched: string, e: Env): Option<(Json.Object, Option<int64>)> {
    if e.reg.FetchFailed? || Latch(latched, e.reg.js).None? then None
    else match CheckTime(p, e.reg.js, e.regClock)
      case Rejected => Some((e.reg.js, e.regClock))
      case Unusable => None
      case Accepted =>
        if e.tel.Got? && CheckTime(p, e.tel.js, e.telClock) == Rejected then Some((e.tel.js, e.telClock)) else None
  }

  /**
   Rejection, repair, acceptance: after a poll in which a time of the device, in its registration or in its
   telemetry, was rejected while the local clock was readable and nonnegative, and with that clock not running
   backwards and the device's reading unchanged, the only obstacles to a synchronisation are the persisted time
   and the call itself; and a device that reports the time it was set to is accepted again for less than the
   drift limit.
   */
  lemma RejectionIsRepaired(p: Params, latched: string, e: Env, max: int64, before: int64, now: int64, js: Json.Object)
    requires p == Params(Drift(max), false)
    requires Refused(p, latched, e).Some? && Refused(p, latched, e).value.1 == Some(before) && 0 <= before
    requires e.sync.local.Some? && before <= e.sync.local.value <= now
    requires e.sync.curr == TimestampOf(Refused(p, latched, e).value.0)
    requires TimestampOf(js) == e.sync.local
    ensures Poll(p, latched, e).events == [Sync(SyncOutcome(e.sync))] && SyncOutcome(e.sync) != DeviceAhead
    ensures SyncOutcome(e.sync) == Synced(e.sync.local.value)
       <==> e.sync.last.Some? && e.sync.last.value <= e.sync.local.value && e.sync.setOk
    ensures SyncOutcome(e.sync).Synced? ==>
              (CheckTime(p, js, Some(now)) == Accepted
               <==> now == e.sync.local.value || (now - e.sync.local.value + 1) * 1_000_000_000 <= max)
  {
    var refused := Refused(p, latched, e).value;
    RejectedIsNotAhead(p.verifier, before, TimestampOf(refused.0).value, e.sync);
    if SyncOutcome(e.sync).Synced? { SyncedIsAccepted(max, e.sync, now); }
  }
}
