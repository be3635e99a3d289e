/** Auto-discovery: TXT records printed and parsed, and the devices they add. */
module Discovery {
  import opened Options
  import opened Registry
  import opened Words
  import Colfer
  import opened RegistryLaws

  type Pair = (string, string)

  // ---- TXT records

  class Service {
    var TxtRecords: seq<string>

    constructor ()
      ensures TxtRecords == []
    {
      TxtRecords := [];
    }

    method AddTxtRecord(key: string, value: string)
      modifies this
      ensures TxtRecords == old(TxtRecords) + [Print((key, value))]
    {
      TxtRecords := TxtRecords + [key + "=" + value];
    }
  }

  function Print(p: Pair): string {
    p.0 + "=" + p.1
  }

  /** `strings.Split(s, "=")` */
  function Split(s: string): (tokens: seq<string>)
    ensures |tokens| > 0
  {
    if s == "" then [""]
    else
      var rest := Split(s[1..]);
      if s[0] == '=' then [""] + rest else [[s[0]] + rest[0]] + rest[1..]
  }

  /** The binding of a record, `None` for a record without "=", or an error. */
  datatype Parsed = Binding(p: Pair) | Ignored | Malformed

  function ParseRecord(r: string): Parsed {
    if '=' !in r then Ignored
    else
      var tokens := Split(r);
      if |tokens| != 2 || tokens[0] == "" || tokens[1] == "" then Malformed
      else Binding((tokens[0], tokens[1]))
  }

  /** Later bindings win; `None` is the error. */
  function ParseAll(records: seq<string>): Option<map<string, string>> {
    if records == [] then Some(map[])
    else
      match ParseAll(records[..|records| - 1])
      case None => None
      case Some(m) =>
        match ParseRecord(records[|records| - 1])
        case Malformed => None
        case Ignored => Some(m)
        case Binding(p) => Some(m[p.0 := p.1])
  }

  /** `parseTxtRecords` */
  method ParseTxtRecords(records: seq<string>) returns (r: Option<map<string, string>>)
    ensures r == ParseAll(records)
  {
    var ret := map[];
    var i := 0;
    while i < |records|
      invariant i <= |records|
      invariant ParseAll(records[..i]) == Some(ret)
    {
      var record := records[i];
      assert records[..i + 1][..i] == records[..i];
      i := i + 1;
      if '=' !in record { continue; }
      var tokens := Split(record);
      if |tokens| != 2 || tokens[0] == "" || tokens[1] == "" {
        FailsFrom(records, i);
        return None;
      }
      ret := ret[tokens[0] := tokens[1]];
    }
    assert records[..i] == records;
    r := Some(ret);
  }

  lemma {:induction false} FailsFrom(records: seq<string>, i: nat)
    requires i <= |records| && ParseAll(records[..i]).None?
    ensures ParseAll(records).None?
    decreases |records|
  {
    if i < |records| {
      var before := records[..|records| - 1];
      assert before[..i] == records[..i];
      FailsFrom(before, i);
    } else {
      assert records[..i] == records;
    }
  }

  /** Non-empty and free of "=". */
  predicate Clean(s: string) {
    s != "" && '=' !in s
  }

  lemma {:induction false} SplitPlain(s: string)
    requires '=' !in s
    ensures Split(s) == [s]
  {
    if s != "" {
      SplitPlain(s[1..]);
      assert [s[0]] + s[1..] == s;
    }
  }

  lemma {:induction false} SplitAtFirst(a: string, b: string)
    requires '=' !in a
    ensures Split(a + "=" + b) == [a] + Split(b)
  {
    var s := a + "=" + b;
    if a == "" {
      assert s[1..] == b;
    } else {
      SplitAtFirst(a[1..], b);
      assert s[1..] == a[1..] + "=" + b;
      assert [a[0]] + a[1..] == a;
    }
  }

  /** Where the first "=" is. */
  lemma {:induction false} FirstEquals(s: string) returns (a: string, b: string)
    requires '=' in s
    ensures s == a + "=" + b && '=' !in a
  {
    if s[0] == '=' {
      a, b := "", s[1..];
      assert s == [s[0]] + s[1..];
    } else {
      a, b := FirstEquals(s[1..]);
      assert s == [s[0]] + s[1..];
      a := [s[0]] + a;
    }
  }

  lemma SplitLength(s: string)
    ensures |Split(s)| == 1 <==> '=' !in s
  {
    if '=' in s {
      var a, b := FirstEquals(s);
      SplitAtFirst(a, b);
    } else {
      SplitPlain(s);
    }
  }

  /** A record parses to a binding exactly if it is the print of a clean pair. */
  lemma ParsesIffPrinted(r: string)
    ensures match ParseRecord(r)
            case Binding(p) => r == Print(p) && Clean(p.0) && Clean(p.1)
            case Ignored => '=' !in r
            case Malformed => '=' in r && forall p: Pair :: Clean(p.0) && Clean(p.1) ==> r != Print(p)
  {
    if '=' in r {
      var a, b := FirstEquals(r);
      SplitAtFirst(a, b);
      SplitLength(b);
      if '=' !in b { SplitPlain(b); }
      forall p: Pair | Clean(p.0) && Clean(p.1) && r == Print(p)
        ensures ParseRecord(r) == Binding(p)
      {
        SplitAtFirst(p.0, p.1);
        SplitPlain(p.1);
      }
    }
  }

  lemma PrintParses(p: Pair)
    requires Clean(p.0) && Clean(p.1)
    ensures ParseRecord(Print(p)) == Binding(p)
  {
    SplitAtFirst(p.0, p.1);
    SplitPlain(p.1);
  }

  /** The map with the last binding of every key. */
  function LastBindings(pairs: seq<Pair>): map<string, string> {
    if pairs == [] then map[] else LastBindings(pairs[..|pairs| - 1])[pairs[|pairs| - 1].0 := pairs[|pairs| - 1].1]
  }

  /** The records of `pairs` in order, with any records without "=" between them. */
  predicate Interleaves(records: seq<string>, pairs: seq<Pair>) {
    if records == [] then pairs == []
    else
      var before, r := records[..|records| - 1], records[|records| - 1];
      if '=' !in r then Interleaves(before, pairs)
      else pairs != [] && r == Print(pairs[|pairs| - 1]) && Interleaves(before, pairs[..|pairs| - 1])
  }

  /** Printing and parsing TXT records: the last binding wins, and records without "=" change nothing. */
  lemma {:induction false} TxtRoundTrip(records: seq<string>, pairs: seq<Pair>)
    requires Interleaves(records, pairs)
    requires forall p :: p in pairs ==> Clean(p.0) && Clean(p.1)
    ensures ParseAll(records) == Some(LastBindings(pairs))
    decreases |records|
  {
    if records != [] {
      var before, r := records[..|records| - 1], records[|records| - 1];
      if '=' !in r {
        TxtRoundTrip(before, pairs);
      } else {
        PrintParses(pairs[|pairs| - 1]);
        TxtRoundTrip(before, pairs[..|pairs| - 1]);
      }
    }
  }

  /** Parsing fails exactly if some record with "=" is not the print of a clean pair. */
  lemma {:induction false} ParseFailsIff(records: seq<string>)
    ensures ParseAll(records).None?
       <==> exists r :: r in records && '=' in r && forall p: Pair :: Clean(p.0) && Clean(p.1) ==> r != Print(p)
    decreases |records|
  {
    if records != [] {
      var before, r := records[..|records| - 1], records[|records| - 1];
      ParseFailsIff(before);
      ParsesIffPrinted(r);
      assert forall x :: x in records <==> x in before || x == r;
      if ParseRecord(r).Binding? { PrintParses(ParseRecord(r).p); }
    }
  }

  // ---- The mode

  function Digits(s: string): Option<nat> {
    if s == "" then Some(0)
    else
      var c := s[|s| - 1];
      match Digits(s[..|s| - 1])
      case None => None
      case Some(n) => if '0' <= c <= '9' then Some(10 * n + (c as int - '0' as int)) else None
  }

  /** `strconv.Atoi`: an optional sign, at least one digit, and a value that fits. */
  function Atoi(s: string): Option<int64> {
    var negative := s != "" && s[0] == '-';
    var digits := if s != "" && (s[0] == '+' || s[0] == '-') then s[1..] else s;
    if digits == "" then None
    else match Digits(digits)
      case None => None
      case Some(n) =>
        var m: int := n;
        var v := if negative then -m else m;
        if -TWO63 <= v < TWO63 then Some(v) else None
  }

  /** Only adding is a mode: `parseAutodiscoveryMode` succeeds exactly on 1. */
  predicate ModeIsAdd(s: string) {
    Atoi(s) == Some(1)
  }

  predicate Zeros(s: string) {
    forall i :: 0 <= i < |s| ==> s[i] == '0'
  }

  lemma {:induction false} DigitsZero(s: string)
    ensures Digits(s) == Some(0) <==> Zeros(s)
  {
    if s != "" { DigitsZero(s[..|s| - 1]); }
  }

  /** The texts of the mode: a 1, after an optional plus sign and any zeros. */
  lemma ModeTexts(s: string)
    ensures ModeIsAdd(s)
       <==> var digits := if s != "" && s[0] == '+' then s[1..] else s;
            digits != "" && digits[|digits| - 1] == '1' && Zeros(digits[..|digits| - 1])
  {
    var unsigned := if s != "" && (s[0] == '+' || s[0] == '-') then s[1..] else s;
    if unsigned != "" { DigitsZero(unsigned[..|unsigned| - 1]); }
    if s != "" && s[0] == '-' && |s| > 1 { assert s[..|s| - 1][0] == '-'; }
  }

  // ---- From a service to the registry

  const MODE := "autodiscovery_mode"

  /** `ignoreService` */
  predicate Ignores(records: seq<string>) {
    forall r :: r in records ==> !Contains(r, MODE)
  }

  datatype Handled = Nothing | BadRecords | BadMode | AddOf(uri: Uri, typ: string, desc: string)

  /** What `HandleService` asks of the store, if anything. */
  function Request(records: seq<string>): Handled {
    if Ignores(records) then Nothing
    else match ParseAll(records)
      case None => BadRecords
      case Some(m) =>
        if MODE !in m then Nothing
        else if !ModeIsAdd(m[MODE]) then BadMode
        else if "autodiscovery_uri" !in m then Nothing
        else if "autodiscovery_desc" !in m then Nothing
        else if "autodiscovery_type" !in m then Nothing
        else AddOf(m["autodiscovery_uri"], m["autodiscovery_type"], m["autodiscovery_desc"])
  }

  /** Every character of these strings stands for one byte of the Go string. */
  function Bytes(s: string): (b: Text)
    ensures |b| == |s|
    ensures forall i :: 0 <= i < |s| && (s[i] as int) < 256 ==> b[i] == s[i] as int
  {
    seq(|s|, i requires 0 <= i < |s| => (s[i] as int) % 256)
  }

  // ---- What is asked for, in terms of the records

  predicate AllClean(pairs: seq<Pair>) {
    forall p :: p in pairs ==> Clean(p.0) && Clean(p.1)
  }

  /** The records are the prints of these pairs, among records without "=". */
  predicate Prints(records: seq<string>, pairs: seq<Pair>) {
    Interleaves(records, pairs) && AllClean(pairs)
  }

  /** Parsing succeeds exactly on prints of clean pairs, with their last bindings. */
  lemma {:induction false} ParsesOnlyPrints(records: seq<string>, m: map<string, string>) returns (pairs: seq<Pair>)
    requires ParseAll(records) == Some(m)
    ensures Prints(records, pairs) && LastBindings(pairs) == m
    decreases |records|
  {
    if records == [] {
      pairs := [];
    } else {
      var before, r := records[..|records| - 1], records[|records| - 1];
      pairs := ParsesOnlyPrints(before, ParseAll(before).value);
      ParsesIffPrinted(r);
      if ParseRecord(r).Binding? {
        PrintsOneMore(records, pairs, ParseRecord(r).p);
        pairs := pairs + [ParseRecord(r).p];
      }
    }
  }

  lemma PrintsOneMore(records: seq<string>, pairs: seq<Pair>, p: Pair)
    requires records != [] && records[|records| - 1] == Print(p) && Clean(p.0) && Clean(p.1)
    requires Prints(records[..|records| - 1], pairs)
    ensures Prints(records, pairs + [p]) && LastBindings(pairs + [p]) == LastBindings(pairs)[p.0 := p.1]
  {
    assert (pairs + [p])[..|pairs|] == pairs;
    assert Print(p)[|p.0|] == '=';
  }

  /** These bindings name the mode, and it is adding; and they name this URI, type and description. */
  predicate Announces(m: map<string, string>, uri: string, typ: string, desc: string) {
    && "autodiscovery_mode" in m && ModeIsAdd(m["autodiscovery_mode"])
    && "autodiscovery_uri" in m && m["autodiscovery_uri"] == uri
    && "autodiscovery_type" in m && m["autodiscovery_type"] == typ
    && "autodiscovery_desc" in m && m["autodiscovery_desc"] == desc
  }

  /**
   A service asks for a device exactly if its records are prints of clean pairs whose last bindings announce that
   device: malformed records, another mode or a missing URI, type or description ask for nothing.
   */
  lemma RequestIff(records: seq<string>, uri: string, typ: string, desc: string)
    ensures Request(records) == AddOf(uri, typ, desc)
       <==> exists pairs :: Prints(records, pairs) && Announces(LastBindings(pairs), uri, typ, desc)
  {
    if pairs :| Prints(records, pairs) && Announces(LastBindings(pairs), uri, typ, desc) {
      TxtRoundTrip(records, pairs);
      if Ignores(records) { IgnoringIsSound(records); }
    }
    if Request(records) == AddOf(uri, typ, desc) {
      var m := ParseAll(records).value;
      var pairs := ParsesOnlyPrints(records, m);
      assert Prints(records, pairs) && Announces(LastBindings(pairs), uri, typ, desc);
    }
  }

  /** A complaint: some record names the mode and the records are malformed, or the mode is not adding. */
  lemma ComplaintIff(records: seq<string>)
    ensures Request(records) == BadRecords
       <==> && (exists r: string, a: string, b: string :: r in records && r == a + "autodiscovery_mode" + b)
            && forall pairs :: !Prints(records, pairs)
    ensures Request(records) == BadMode
       <==> exists pairs :: && Prints(records, pairs) && "autodiscovery_mode" in LastBindings(pairs)
                            && !ModeIsAdd(LastBindings(pairs)["autodiscovery_mode"])
  {
    IgnoresIff(records);
    if ParseAll(records).Some? {
      var pairs := ParsesOnlyPrints(records, ParseAll(records).value);
      assert Prints(records, pairs);
      if Ignores(records) { IgnoringIsSound(records); }
    }
    forall pairs | Prints(records, pairs)
      ensures ParseAll(records) == Some(LastBindings(pairs))
    {
      TxtRoundTrip(records, pairs);
    }
  }

  lemma IgnoresIff(records: seq<string>)
    ensures !Ignores(records)
       <==> exists r: string, a: string, b: string :: r in records && r == a + "autodiscovery_mode" + b
  {
    if !Ignores(records) {
      var r :| r in records && Contains(r, MODE);
      ContainsIff(r, MODE);
    }
    if r: string, a: string, b: string :| r in records && r == a + "autodiscovery_mode" + b { ContainsIff(r, MODE); }
  }

  datatype Outcome = Done | RecordsInvalid | ModeInvalid | StoreFailed(err: Err)

  class StoreMdnsHandler {
    const store: CacheStore

    constructor (store: CacheStore)
      ensures this.store == store
    {
      this.store := store;
    }

    /** A device that is already registered is no error. */
    method HandleService(service: Service, now: int64) returns (r: Outcome)
      modifies store, store.db, store.resolveStore
      ensures match Request(service.TxtRecords)
              case Nothing => r == Done && store.Value() == old(store.Value())
              case BadRecords => r == RecordsInvalid && store.Value() == old(store.Value())
              case BadMode => r == ModeInvalid && store.Value() == old(store.Value())
              case AddOf(uri, typ, desc) =>
                var (s, err) := Added(store.parse, old(store.Value()), uri, Bytes(typ), Bytes(desc), now,
                                      old(store.db.Willing()));
                store.Value() == s && r == if err in {Ok, DeviceExist} then Done else StoreFailed(err)
    {
      var ignored := Ignored(service.TxtRecords);
      if ignored { return Done; }
      var records := ParseTxtRecords(service.TxtRecords);
      if records.None? { return RecordsInvalid; }
      var m := records.value;
      if MODE !in m { return Done; }
      if !ModeIsAdd(m[MODE]) { return ModeInvalid; }
      if "autodiscovery_uri" !in m { return Done; }
      if "autodiscovery_desc" !in m { return Done; }
      if "autodiscovery_type" !in m { return Done; }
      var err := store.Add(m["autodiscovery_uri"], Bytes(m["autodiscovery_type"]), Bytes(m["autodiscovery_desc"]), now);
      r := if err != Ok && err != DeviceExist then StoreFailed(err) else Done;
    }

    method Ignored(records: seq<string>) returns (r: bool)
      ensures r == Ignores(records)
    {
      for i := 0 to |records|
        invariant forall j :: 0 <= j < i ==> !Contains(records[j], MODE)
      {
        if Contains(records[i], MODE) { return false; }
      }
      r := true;
    }
  }

  lemma {:induction false} KeysComeFromRecords(records: seq<string>, key: string)
    requires ParseAll(records).Some? && key in ParseAll(records).value
    ensures exists r :: r in records && Contains(r, key)
    decreases |records|
  {
    var before, r := records[..|records| - 1], records[|records| - 1];
    ParsesIffPrinted(r);
    assert r in records;
    if ParseRecord(r).Binding? && ParseRecord(r).p.0 == key {
      assert StartsAt(r, 0, key);
    } else {
      KeysComeFromRecords(before, key);
    }
  }

  /** The quick test for relevant services loses no device: without it the request is the same or a complaint. */
  lemma IgnoringIsSound(records: seq<string>)
    requires Ignores(records)
    ensures match ParseAll(records) case None => true case Some(m) => MODE !in m
  {
    if ParseAll(records).Some? && MODE in ParseAll(records).value { KeysComeFromRecords(records, MODE); }
  }

  function Advertised(uri: Uri, typ: string, desc: string): seq<Pair> {
    [(MODE, "1"), ("autodiscovery_uri", uri), ("autodiscovery_type", typ), ("autodiscovery_desc", desc)]
  }

  /** A service that prints a mode, a URI, a type and a description, among records without "=", asks for that device. */
  lemma AdvertisedIsRequested(records: seq<string>, uri: Uri, typ: string, desc: string)
    requires Clean(uri) && Clean(typ) && Clean(desc)
    requires Interleaves(records, Advertised(uri, typ, desc))
    ensures Request(records) == AddOf(uri, typ, desc)
  {
    TxtRoundTrip(records, Advertised(uri, typ, desc));
    AdvertisedBindings(uri, typ, desc);
    ModeTexts("1");
    if Ignores(records) { IgnoringIsSound(records); }
  }

  lemma AdvertisedBindings(uri: Uri, typ: string, desc: string)
    ensures LastBindings(Advertised(uri, typ, desc))
         == map[MODE := "1", "autodiscovery_uri" := uri, "autodiscovery_type" := typ, "autodiscovery_desc" := desc]
  {
    var p := Advertised(uri, typ, desc);
    assert LastBindings(p[..1]) == map[MODE := "1"] by { assert p[..1][..0] == []; }
    assert LastBindings(p[..2]) == LastBindings(p[..1])[p[1].0 := p[1].1] by { assert p[..2][..1] == p[..1]; }
    assert LastBindings(p[..3]) == LastBindings(p[..2])[p[2].0 := p[2].1] by { assert p[..3][..2] == p[..2]; }
  }

  /** Hearing of a device again, whatever was said about it, leaves the registry as it was. */
  lemma RediscoveryIsIdle(parse: UrlParser, s: Store, uri: Uri, typ: Text, desc: Text, now: int64, ok: bool,
                          typ': Text, desc': Text, now': int64, ok': bool)
    requires Added(parse, s, uri, typ, desc, now, ok).1 in {Ok, DeviceExist}
    ensures var t := Added(parse, s, uri, typ, desc, now, ok).0;
            Added(parse, t, uri, typ', desc', now', ok') == (t, DeviceExist)
  {
  }

  /**
   From an announcement to the next start of the hub: a device that a service announces and the registry
   takes is listed again by a new store on the same database, with its type, description and the second of
   its addition, exactly if its encoding is below the size limit; whatever calls for other devices follow,
   and even if one of them hangs.
   */
  lemma DiscoveredSurvivesRestart(parse: UrlParser, format: Formatter, s: Store, records: seq<string>,
                                  uri: Uri, typ: string, desc: string, now: int64, calls: seq<Call>, walked: set<Uri>)
    requires Agree(parse, s) && Open(s)
    requires Clean(uri) && Clean(typ) && Clean(desc) && Interleaves(records, Advertised(uri, typ, desc))
    requires Added(parse, s, uri, Bytes(typ), Bytes(desc), now, true).1 == Ok
    requires forall c :: c in calls ==> !c.CallRemove? || c.uri != uri
    ensures Request(records) == AddOf(uri, typ, desc)
    ensures var t := Run(parse, Added(parse, s, uri, Bytes(typ), Bytes(desc), now, true).0, calls);
            var listing := Listing(format, New(parse, StoppedAll(t, walked).db, {}, {}).nodes);
            if |Colfer.Encode(Colfer.Item(Bytes(desc), now, Bytes(typ)))| < Colfer.COLFER_SIZE_MAX
            then uri in listing && listing[uri] == Listed(Bytes(typ), Bytes(desc), format(now), "")
            else uri !in listing
  {
    AdvertisedIsRequested(records, uri, typ, desc);
    AddedSurvivesRestart(parse, format, s, uri, Bytes(typ), Bytes(desc), now, calls);
  }

  lemma AddedSurvivesRestart(parse: UrlParser, format: Formatter, s: Store, uri: Uri, typ: Text, desc: Text,
                             now: int64, calls: seq<Call>)
    requires Agree(parse, s) && Open(s)
    requires Added(parse, s, uri, typ, desc, now, true).1 == Ok
    requires forall c :: c in calls ==> !c.CallRemove? || c.uri != uri
    ensures var t := Run(parse, Added(parse, s, uri, typ, desc, now, true).0, calls);
            var listing := Listing(format, New(parse, t.db, {}, {}).nodes);
            && (uri in listing <==> |Colfer.Encode(Colfer.Item(desc, now, typ))| < Colfer.COLFER_SIZE_MAX)
            && (uri in listing ==> listing[uri] == Listed(typ, desc, format(now), ""))
  {
    var a := Added(parse, s, uri, typ, desc, now, true).0;
    StepAgrees(parse, s, CallAdd(uri, typ, desc, now, true));
    assert a == Step(parse, s, CallAdd(uri, typ, desc, now, true));
    RunAgrees(parse, a, calls);
    OthersLeaveIt(parse, a, calls, uri, Colfer.Item(desc, now, typ));
    RestartLists(parse, format, Run(parse, a, calls), {}, {});
  }

  predicate Holds(s: Store, uri: Uri, o: Colfer.Item) {
    !s.stopped && uri in s.nodes && uri in s.db && ItemOf(s.nodes[uri]) == o
  }

  /** A device keeps its type, description and creation second while other devices come and go. */
  lemma {:induction false} OthersLeaveIt(parse: UrlParser, s: Store, calls: seq<Call>, uri: Uri, o: Colfer.Item)
    requires Holds(s, uri, o)
    requires forall c :: c in calls ==> !c.CallRemove? || c.uri != uri
    ensures Holds(Run(parse, s, calls), uri, o)
    decreases calls
  {
    if calls != [] {
      assert calls[0] in calls;
      assert forall c :: c in calls[1..] ==> c in calls;
      OthersLeaveIt(parse, Step(parse, s, calls[0]), calls[1..], uri, o);
    }
  }
}
