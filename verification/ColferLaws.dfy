/** What the storage format promises: round trip, self-delimitation, normalisation. */
module ColferLaws {
  import opened Words
  import opened Colfer

  /** Decoding assigns only the fields that are present. */
  function Overlay(was: Item, o: Item): Item {
    Item(if o.desc == [] then was.desc else o.desc,
         if o.timestamp == 0 then was.timestamp else o.timestamp,
         if o.typ == [] then was.typ else o.typ)
  }

  /** Lengths of Go strings fit in an `int`. */
  predicate GoStrings(o: Item) {
    |o.desc| < TWO63 && |o.typ| < TWO63
  }

  // ---- Reading back what was written

  predicate At(data: Text, i: nat, b: Text) {
    i + |b| <= |data| && data[i..i + |b|] == b
  }

  lemma AtSplit(data: Text, i: nat, a: Text, b: Text)
    requires At(data, i, a + b)
    ensures At(data, i, a) && At(data, i + |a|, b)
    ensures a != [] ==> data[i] == a[0]
    ensures b != [] ==> data[i + |a|] == b[0]
  {
    var s := data[i..i + |a| + |b|];
    assert s[..|a|] == a && s[|a|..] == b;
    if b != [] { assert s[|a|] == b[0]; }
  }

  lemma {:induction false} UvarintAt(data: Text, i: nat, x: nat)
    requires At(data, i, Uvarint(x))
    ensures ReadUvarint(data, i) == Got(x, i + |Uvarint(x)|)
    decreases x
  {
    assert data[i] == Uvarint(x)[0];
    if x >= 128 {
      AtSplit(data, i, [128 + x % 128], Uvarint(x / 128));
      UvarintAt(data, i + 1, x / 128);
    }
  }

  lemma {:induction false} MagnitudeAt(data: Text, i: nat, x: uint64, n: nat)
    requires n <= 8 && x < Cap(n)
    requires At(data, i, Magnitude(x, n)) && i + |Magnitude(x, n)| < |data|
    ensures ReadMagnitude(data, i, n) == Got(x, i + |Magnitude(x, n)|)
    decreases 8 - n
  {
    assert data[i] == Magnitude(x, n)[0];
    if x >= 128 && n < 8 {
      AtSplit(data, i, [128 + x % 128], Magnitude(x / 128, n + 1));
      MagnitudeAt(data, i + 1, x / 128, n + 1);
    }
  }

  lemma TextAt(data: Text, i: nat, s: Text)
    requires |s| < TWO63 && At(data, i, Uvarint(|s|) + s) && i + |Uvarint(|s|)| + |s| < |data|
    ensures ReadText(data, i)
         == if |s| > COLFER_SIZE_MAX then TooBig else Got(s, i + |Uvarint(|s|)| + |s|)
  {
    var b := Uvarint(|s|);
    AtSplit(data, i, b, s);
    UvarintAt(data, i, |s|);
    TextBehindSize(data, i, s, i + |b|);
  }

  /** The text behind a size that was read. */
  lemma TextBehindSize(data: Text, i: nat, s: Text, j: nat)
    requires i <= |data| && |s| < TWO63 && ReadUvarint(data, i) == Got(|s|, j) && At(data, j, s) && j + |s| < |data|
    ensures ReadText(data, i) == if |s| > COLFER_SIZE_MAX then TooBig else Got(s, j + |s|)
  {
  }

  lemma TimeAt(data: Text, i: nat, v: int64)
    requires v != 0 && At(data, i, Magnitude(Abs(v), 0)) && i + |Magnitude(Abs(v), 0)| < |data|
    ensures ReadTime(data, i) == Got(Abs(v), i + |Magnitude(Abs(v), 0)|)
    ensures SignedTime(if v > 0 then 1 else 0x81, Abs(v)) == v
  {
    MagnitudeAt(data, i, Abs(v), 0);
  }

  lemma TypeTooLong(o: Item, data: Text, p: nat, s: Text)
    requires COLFER_SIZE_MAX < |s| < TWO63 && At(data, p, TextField(2, s)) && p + |TextField(2, s)| < |data|
    ensures DecodeType(o, data, data[p], p + 1) == Decoded(o, 0, ColferMax)
  {
    var b := Uvarint(|s|) + s;
    assert TextField(2, s) == [2] + b;
    AtSplit(data, p, [2], b);
    TextAt(data, p + 1, s);
  }

  /** The type field lies from `p` to `q`. */
  lemma TypeStage(o: Item, o': Item, data: Text, p: nat, s: Text, q: nat)
    requires |s| <= COLFER_SIZE_MAX && At(data, p, TextField(2, s)) && q == p + |TextField(2, s)| < |data|
    requires data[q] != 2
    requires o' == if s == [] then o else o.(typ := s)
    ensures DecodeType(o, data, data[p], p + 1) == DecodeEnd(o', data[q], q + 1)
  {
    if s != [] {
      var b := Uvarint(|s|) + s;
      assert TextField(2, s) == [2] + b;
      AtSplit(data, p, [2], b);
      TextAt(data, p + 1, s);
    }
  }

  /** The timestamp field lies from `p` to `q`. */
  lemma TimeStage(o: Item, o': Item, data: Text, p: nat, v: int64, q: nat)
    requires At(data, p, TimeField(v)) && q == p + |TimeField(v)| < |data|
    requires data[q] != 1 && data[q] != 0x81
    requires o' == if v == 0 then o else o.(timestamp := v)
    ensures DecodeTime(o, data, data[p], p + 1) == DecodeType(o', data, data[q], q + 1)
  {
    if v != 0 {
      var h := if v > 0 then 1 else 0x81;
      AtSplit(data, p, [h], Magnitude(Abs(v), 0));
      assert data[p] == h;
      TimeAt(data, p + 1, v);
    }
  }

  lemma DescTooLong(o: Item, data: Text, d: Text)
    requires COLFER_SIZE_MAX < |d| < TWO63 && At(data, 0, TextField(0, d)) && |TextField(0, d)| < |data|
    ensures Decode(o, data) == Decoded(o, 0, ColferMax)
  {
    var b := Uvarint(|d|) + d;
    assert TextField(0, d) == [0] + b;
    AtSplit(data, 0, [0], b);
    TextAt(data, 1, d);
  }

  /** The description field lies before `p`. */
  lemma DescStage(o: Item, o': Item, data: Text, d: Text, p: nat)
    requires |d| <= COLFER_SIZE_MAX && At(data, 0, TextField(0, d)) && p == |TextField(0, d)| < |data|
    requires data[p] != 0
    requires o' == if d == [] then o else o.(desc := d)
    ensures Decode(o, data) == DecodeTime(o', data, data[p], p + 1)
  {
    if d != [] {
      var b := Uvarint(|d|) + d;
      assert TextField(0, d) == [0] + b;
      AtSplit(data, 0, [0], b);
      TextAt(data, 1, d);
    }
  }

  /** The fields of an encoding lie before `p`, `q` and `e`, and the end mark is at `e`. */
  lemma Layout(data: Text, o: Item) returns (p: nat, q: nat, e: nat)
    requires At(data, 0, Encode(o))
    ensures p == |TextField(0, o.desc)| && At(data, 0, TextField(0, o.desc))
    ensures q == p + |TimeField(o.timestamp)| && At(data, p, TimeField(o.timestamp))
    ensures e == q + |TextField(2, o.typ)| && At(data, q, TextField(2, o.typ))
    ensures e + 1 == |Encode(o)| <= |data|
    ensures data[e] == 0x7f && data[q] !in {0, 1, 0x81} && data[p] != 0
  {
    var d, t, y := TextField(0, o.desc), TimeField(o.timestamp), TextField(2, o.typ);
    p, q, e := ThreeParts(data, d, t, y);
    assert y != [] ==> y[0] == 2;
    assert t != [] ==> t[0] == 1 || t[0] == 0x81;
  }

  lemma ThreeParts(data: Text, d: Text, t: Text, y: Text) returns (p: nat, q: nat, e: nat)
    requires At(data, 0, d + t + y + [0x7f])
    ensures p == |d| && q == p + |t| && e == q + |y| < |data|
    ensures At(data, 0, d) && At(data, p, t) && At(data, q, y)
    ensures data[e] == 0x7f
    ensures y != [] ==> data[q] == y[0]
    ensures t != [] ==> data[p] == t[0]
  {
    AtSplit(data, 0, d + t + y, [0x7f]);
    AtSplit(data, 0, d + t, y);
    AtSplit(data, 0, d, t);
    p, q, e := |d|, |d| + |t|, |d| + |t| + |y|;
  }

  /** Decoding the first two fields of an encoding. */
  lemma UpToType(was: Item, o: Item, data: Text) returns (q: nat, e: nat)
    requires At(data, 0, Encode(o)) && |o.desc| <= COLFER_SIZE_MAX
    ensures q < |data| && At(data, q, TextField(2, o.typ))
    ensures e == q + |TextField(2, o.typ)| && e + 1 == |Encode(o)| <= |data| && data[e] == 0x7f
    ensures Decode(was, data) == DecodeType(Overlay(was, o.(typ := [])), data, data[q], q + 1)
  {
    var p;
    p, q, e := Layout(data, o);
    var o1 := if o.desc == [] then was else was.(desc := o.desc);
    var o2 := Overlay(was, o.(typ := []));
    TimeStage(o1, o2, data, p, o.timestamp, q);
    DescStage(was, o1, data, o.desc, p);
  }

  /**
   Round trip, whatever follows the record and whatever the receiver held: below the size limit the fields
   come back and exactly the record is consumed; from the limit on, decoding reports `ColferMax`.
   */
  lemma RoundTrip(was: Item, o: Item, tail: Text)
    requires GoStrings(o)
    ensures var d := Decode(was, Encode(o) + tail);
            if |Encode(o)| < COLFER_SIZE_MAX
            then d == Decoded(Overlay(was, o), |Encode(o)|, NoError)
            else d.err == ColferMax && d.n == 0
  {
    var data := Encode(o) + tail;
    assert At(data, 0, Encode(o));
    SizeAtLeastFields(o);
    if |o.desc| > COLFER_SIZE_MAX {
      var _, _, _ := Layout(data, o);
      DescTooLong(was, data, o.desc);
    } else {
      var o2 := Overlay(was, o.(typ := []));
      var q, e := UpToType(was, o, data);
      if |o.typ| > COLFER_SIZE_MAX {
        TypeTooLong(o2, data, q, o.typ);
      } else {
        TypeStage(o2, Overlay(was, o), data, q, o.typ, e);
      }
    }
  }

  /** A fresh receiver gets exactly the item that was marshalled. */
  lemma RoundTripFresh(o: Item, tail: Text)
    requires GoStrings(o) && |Encode(o)| < COLFER_SIZE_MAX
    ensures Decode(FRESH, Encode(o) + tail) == Decoded(o, |Encode(o)|, NoError)
  {
    RoundTrip(FRESH, o, tail);
  }

  /** Marshalling succeeds at exactly the limit; decoding the same bytes does not. */
  lemma LimitGap(o: Item)
    requires GoStrings(o)
    ensures Marshalable(o) == NoError && DecodeWhole(FRESH, Encode(o)) != NoError
       <==> |Encode(o)| == COLFER_SIZE_MAX
  {
    RoundTrip(FRESH, o, []);
    assert Encode(o) + [] == Encode(o);
    SizeAtLeastFields(o);
  }

  lemma SizeAtLeastFields(o: Item)
    ensures |Encode(o)| > |o.desc| && |Encode(o)| > |o.typ|
  {
  }

  // ---- Self-delimitation

  /** `a` and `b` agree on the first `n` bytes, and both have them. */
  predicate Agree(a: Text, b: Text, n: nat) {
    n <= |a| && n <= |b| && a[..n] == b[..n]
  }

  lemma AgreeAt(a: Text, b: Text, n: nat, i: nat)
    requires Agree(a, b, n) && i < n
    ensures a[i] == b[i]
  {
    assert a[..n][i] == b[..n][i];
  }

  lemma {:induction false} UvarintAgree(a: Text, b: Text, i: nat, j: nat)
    requires i <= |a| && ReadUvarint(a, i).Got? && ReadUvarint(a, i).next == j && Agree(a, b, j)
    ensures ReadUvarint(b, i) == ReadUvarint(a, i)
    decreases j - i
  {
    AgreeAt(a, b, j, i);
    if a[i] >= 128 { UvarintAgree(a, b, i + 1, j); }
  }

  lemma {:induction false} MagnitudeAgree(a: Text, b: Text, i: nat, n: nat, j: nat)
    requires n <= 8 && i <= |a| && ReadMagnitude(a, i, n).Got? && ReadMagnitude(a, i, n).next == j
    requires Agree(a, b, j) && j < |b|
    ensures ReadMagnitude(b, i, n) == ReadMagnitude(a, i, n)
    decreases j - i
  {
    AgreeAt(a, b, j, i);
    if a[i] >= 128 && n < 8 { MagnitudeAgree(a, b, i + 1, n + 1, j); }
  }

  lemma TextAgree(a: Text, b: Text, i: nat, j: nat)
    requires i <= |a| && ReadText(a, i).Got? && ReadText(a, i).next == j && Agree(a, b, j) && j < |b|
    ensures ReadText(b, i) == ReadText(a, i)
  {
    var k := ReadUvarint(a, i).next;
    assert Agree(a, b, k) by { assert a[..k] == a[..j][..k] && b[..k] == b[..j][..k]; }
    UvarintAgree(a, b, i, k);
    assert a[k..j] == a[..j][k..] && b[k..j] == b[..j][k..];
  }

  lemma AgreeLess(a: Text, b: Text, n: nat, k: nat)
    requires Agree(a, b, n) && k <= n
    ensures Agree(a, b, k)
  {
    assert a[..k] == a[..n][..k] && b[..k] == b[..n][..k];
  }

  /** A successful last stage ends behind an end mark it has read. */
  lemma TypeShape(o: Item, a: Text, i: nat)
    requires 0 < i <= |a| && DecodeType(o, a, a[i - 1], i).err == NoError
    ensures var n := DecodeType(o, a, a[i - 1], i).n;
            i <= n <= |a| && n < COLFER_SIZE_MAX && a[n - 1] == 0x7f
  {
  }

  lemma TimeShape(o: Item, a: Text, i: nat)
    requires 0 < i <= |a| && DecodeTime(o, a, a[i - 1], i).err == NoError
    ensures var n := DecodeTime(o, a, a[i - 1], i).n;
            i <= n <= |a| && n < COLFER_SIZE_MAX && a[n - 1] == 0x7f
  {
    if a[i - 1] == 1 || a[i - 1] == 0x81 {
      var o', j := TimePart(o, a, i);
      TypeShape(o', a, j + 1);
    } else {
      TypeShape(o, a, i);
    }
  }

  /** The receiver behind a description field, and the index of the next header. */
  lemma DescPart(o: Item, a: Text) returns (o': Item, j: nat)
    requires a != [] && a[0] == 0 && Decode(o, a).err == NoError
    ensures ReadText(a, 1).Got? && 1 < j < |a| && j == ReadText(a, 1).next
    ensures o' == o.(desc := ReadText(a, 1).value)
    ensures Decode(o, a) == DecodeTime(o', a, a[j], j + 1)
  {
    o', j := o.(desc := ReadText(a, 1).value), ReadText(a, 1).next;
  }

  /** On success the decoder has read at least one byte, stayed inside the data and below the limit. */
  lemma SuccessShape(o: Item, a: Text)
    requires Decode(o, a).err == NoError
    ensures var n := Decode(o, a).n; 1 <= n <= |a| && n < COLFER_SIZE_MAX && a[n - 1] == 0x7f
  {
    if a[0] == 0 {
      var o', j := DescPart(o, a);
      TimeShape(o', a, j + 1);
    } else {
      TimeShape(o, a, 1);
    }
  }

  lemma TypeAgree(o: Item, a: Text, b: Text, i: nat, n: nat)
    requires 0 < i <= |a| && DecodeType(o, a, a[i - 1], i).err == NoError
    requires DecodeType(o, a, a[i - 1], i).n == n && Agree(a, b, n)
    ensures i <= |b| && DecodeType(o, b, a[i - 1], i) == DecodeType(o, a, a[i - 1], i)
  {
    TypeShape(o, a, i);
    if a[i - 1] == 2 {
      var j := ReadText(a, i).next;
      AgreeAt(a, b, n, j);
      AgreeLess(a, b, n, j);
      TextAgree(a, b, i, j);
    }
  }

  lemma TimeAgree(o: Item, a: Text, b: Text, i: nat, n: nat)
    requires 0 < i <= |a| && DecodeTime(o, a, a[i - 1], i).err == NoError
    requires DecodeTime(o, a, a[i - 1], i).n == n && Agree(a, b, n)
    ensures i <= |b| && DecodeTime(o, b, a[i - 1], i) == DecodeTime(o, a, a[i - 1], i)
  {
    if a[i - 1] == 1 || a[i - 1] == 0x81 {
      var o', j := TimePart(o, a, i);
      BehindTimeAgree(o, o', a, b, i, j, n);
    } else {
      TypeAgree(o, a, b, i, n);
    }
  }

  lemma BehindTimeAgree(o: Item, o': Item, a: Text, b: Text, i: nat, j: nat, n: nat)
    requires 0 < i < j < |a| && a[i - 1] in {1, 0x81} && ReadTime(a, i).Got? && ReadTime(a, i).next == j
    requires o' == o.(timestamp := SignedTime(a[i - 1], ReadTime(a, i).value))
    requires DecodeType(o', a, a[j], j + 1).err == NoError && DecodeType(o', a, a[j], j + 1).n == n && Agree(a, b, n)
    ensures i <= |b| && DecodeTime(o, b, a[i - 1], i) == DecodeType(o', a, a[j], j + 1)
  {
    TypeShape(o', a, j + 1);
    AgreeLess(a, b, n, j);
    AgreeAt(a, b, n, j);
    TypeAgree(o', a, b, j + 1, n);
    TimePartAgree(o, o', a, b, i, j);
  }

  /** The receiver behind a timestamp field, and the index of the next header. */
  lemma TimePart(o: Item, a: Text, i: nat) returns (o': Item, j: nat)
    requires 0 < i <= |a| && a[i - 1] in {1, 0x81} && DecodeTime(o, a, a[i - 1], i).err == NoError
    ensures ReadTime(a, i).Got? && i < j < |a| && j == ReadTime(a, i).next
    ensures o' == o.(timestamp := SignedTime(a[i - 1], ReadTime(a, i).value))
    ensures DecodeTime(o, a, a[i - 1], i) == DecodeType(o', a, a[j], j + 1)
  {
    o', j := o.(timestamp := SignedTime(a[i - 1], ReadTime(a, i).value)), ReadTime(a, i).next;
  }

  lemma TimePartAgree(o: Item, o': Item, a: Text, b: Text, i: nat, j: nat)
    requires 0 < i <= |a| && a[i - 1] in {1, 0x81} && ReadTime(a, i).Got? && ReadTime(a, i).next == j
    requires o' == o.(timestamp := SignedTime(a[i - 1], ReadTime(a, i).value))
    requires Agree(a, b, j) && j < |b|
    ensures DecodeTime(o, b, a[i - 1], i) == DecodeType(o', b, b[j], j + 1)
  {
    MagnitudeAgree(a, b, i, 0, j);
  }

  /** Success depends on the bytes consumed and on nothing behind them. */
  lemma SelfDelimiting(o: Item, a: Text, b: Text)
    requires Decode(o, a).err == NoError && Agree(a, b, Decode(o, a).n)
    ensures Decode(o, b) == Decode(o, a)
  {
    var n := Decode(o, a).n;
    SuccessShape(o, a);
    AgreeAt(a, b, n, 0);
    if a[0] == 0 {
      var o', j := DescPart(o, a);
      TimeShape(o', a, j + 1);
      TimeAgree(o', a, b, j + 1, n);
      AgreeLess(a, b, n, j);
      AgreeAt(a, b, n, j);
      TextAgree(a, b, 1, j);
    } else {
      TimeAgree(o, a, b, 1, n);
    }
  }

  /** `UnmarshalBinary` complains about a tail exactly when there is one. */
  lemma TailReported(o: Item, a: Text, tail: Text)
    requires Decode(o, a).err == NoError && Decode(o, a).n == |a|
    ensures DecodeWhole(o, a + tail) == if tail == [] then NoError else ColferTail(|a|)
  {
    assert Agree(a, a + tail, |a|);
    SelfDelimiting(o, a, a + tail);
  }

  // ---- What a failure says

  /** The record ends with an end mark at `k`. */
  function EndsAt(item: Item, k: nat): Decoded {
    if k + 1 < 1024 then Decoded(item, k + 1, NoError) else Decoded(item, 0, ColferMax)
  }

  /** `b` begins like `a` and has an end mark at `k`, where it ends. */
  predicate EndedAt(a: Text, b: Text, k: nat) {
    Agree(a, b, k) && |b| == k + 1 && b[k] == 0x7f
  }

  lemma TypeBlame(o: Item, a: Text, b: Text, h: nat, k: nat)
    requires h < |a| && DecodeType(o, a, a[h], h + 1).err == ColferError(k) && EndedAt(a, b, k)
    ensures h <= k < |a| && h < |b| && a[k] != 0x7f
    ensures DecodeType(o, b, b[h], h + 1) == EndsAt(DecodeType(o, a, a[h], h + 1).item, k)
  {
    if a[h] == 2 {
      assert ReadText(a, h + 1).next == k;
      AgreeAt(a, b, k, h);
      TextAgree(a, b, h + 1, k);
    }
  }

  /** The timestamp field lies from `h` to `j`. */
  lemma TimePartBlame(o: Item, a: Text, b: Text, h: nat, j: nat, k: nat)
    requires h < j < |a| && a[h] in {1, 0x81} && ReadTime(a, h + 1).Got? && ReadTime(a, h + 1).next == j
    requires DecodeTime(o, a, a[h], h + 1).err == ColferError(k) && EndedAt(a, b, k)
    ensures h <= k < |a| && h < |b| && a[k] != 0x7f
    ensures DecodeTime(o, b, b[h], h + 1) == EndsAt(DecodeTime(o, a, a[h], h + 1).item, k)
  {
    var o' := o.(timestamp := SignedTime(a[h], ReadTime(a, h + 1).value));
    assert DecodeTime(o, a, a[h], h + 1) == DecodeType(o', a, a[j], j + 1);
    TypeBlame(o', a, b, j, k);
    AgreeAt(a, b, k, h);
    AgreeLess(a, b, k, j);
    TimePartAgree(o, o', a, b, h + 1, j);
  }

  lemma TimeBlame(o: Item, a: Text, b: Text, h: nat, k: nat)
    requires h < |a| && DecodeTime(o, a, a[h], h + 1).err == ColferError(k) && EndedAt(a, b, k)
    ensures h <= k < |a| && h < |b| && a[k] != 0x7f
    ensures DecodeTime(o, b, b[h], h + 1) == EndsAt(DecodeTime(o, a, a[h], h + 1).item, k)
  {
    if a[h] in {1, 0x81} {
      TimePartBlame(o, a, b, h, ReadTime(a, h + 1).next, k);
    } else {
      TypeBlame(o, a, b, h, k);
      if h < k { AgreeAt(a, b, k, h); }
    }
  }

  /**
   `ColferError` names the byte to blame: it is in the data and no end mark, and with an end mark in its place the
   data before it are a record of the same item.
   */
  lemma BlameIsExact(o: Item, a: Text, k: nat)
    requires Decode(o, a).err == ColferError(k)
    ensures k < |a| && a[k] != 0x7f && Decode(o, a[..k] + [0x7f]) == EndsAt(Decode(o, a).item, k)
  {
    BlamedIsThere(o, a, k);
    var b := a[..k] + [0x7f];
    assert b[..k] == a[..k];
    if a[0] == 0 {
      DescPartBlame(o, a, b, ReadText(a, 1).next, k);
    } else {
      TimeBlame(o, a, b, 0, k);
    }
  }

  /** The description field lies before `j`. */
  lemma DescPartBlame(o: Item, a: Text, b: Text, j: nat, k: nat)
    requires 0 < j < |a| && a[0] == 0 && ReadText(a, 1).Got? && ReadText(a, 1).next == j
    requires Decode(o, a).err == ColferError(k) && EndedAt(a, b, k)
    ensures k < |a| && a[k] != 0x7f && Decode(o, b) == EndsAt(Decode(o, a).item, k)
  {
    var o' := o.(desc := ReadText(a, 1).value);
    assert Decode(o, a) == DecodeTime(o', a, a[j], j + 1);
    TimeBlame(o', a, b, j, k);
    AgreeAt(a, b, k, 0);
    AgreeLess(a, b, k, j);
    TextAgree(a, b, 1, j);
  }

  lemma BlamedIsThere(o: Item, a: Text, k: nat)
    requires Decode(o, a).err == ColferError(k)
    ensures k < |a| && (a[0] == 0 ==> 0 < k)
  {
  }

  /** What holds of a failure on `a`. */
  predicate Fails(a: Text, d: Decoded) {
    d.err != NoError ==> d.n == 0 && !d.err.ColferTail? && (d.err == EOF ==> |a| < 1024)
  }

  lemma TypeFails(o: Item, a: Text, i: nat)
    requires 0 < i <= |a|
    ensures Fails(a, DecodeType(o, a, a[i - 1], i))
  {
  }

  lemma TimeFails(o: Item, a: Text, i: nat)
    requires 0 < i <= |a|
    ensures Fails(a, DecodeTime(o, a, a[i - 1], i))
  {
    if a[i - 1] !in {1, 0x81} {
      TypeFails(o, a, i);
    } else if ReadTime(a, i).Got? {
      var j := ReadTime(a, i).next;
      TypeFails(o.(timestamp := SignedTime(a[i - 1], ReadTime(a, i).value)), a, j + 1);
    }
  }

  /** A failure reads nothing, and data of the size limit or more are never just too short. */
  lemma FailureShape(o: Item, a: Text)
    requires Decode(o, a).err != NoError
    ensures Decode(o, a).n == 0 && !Decode(o, a).err.ColferTail?
    ensures Decode(o, a).err == EOF ==> |a| < 1024
  {
    if a != [] && a[0] != 0 {
      TimeFails(o, a, 1);
    } else if a != [] && ReadText(a, 1).Got? {
      TimeFails(o.(desc := ReadText(a, 1).value), a, ReadText(a, 1).next + 1);
    }
  }

  /** A description whose text is missing is too large, or makes the record too large, or is just cut short. */
  lemma MissingText(o: Item, size: nat)
    requires size < TWO63
    ensures Decode(o, [0] + Uvarint(size)).err
         == if size > 1024 || 1 + |Uvarint(size)| + size >= 1024 then ColferMax else EOF
  {
    var data := [0] + Uvarint(size);
    UvarintAt(data, 1, size);
  }

  /** Some records, byte by byte. */
  lemma KnownRecords()
    ensures Encode(Item([], 0, [])) == [0x7f]
    ensures Encode(Item([65], 1, [66, 67])) == [0, 1, 65, 1, 1, 2, 2, 66, 67, 0x7f]
    ensures Encode(Item([], -1, [])) == [0x81, 1, 0x7f]
    ensures Encode(Item([], 300, [])) == [1, 0xac, 2, 0x7f]
    ensures Uvarint(200) == [0xc8, 1]
  {
    assert Magnitude(2, 1) == [2];
    assert Magnitude(300, 0) == [128 + 300 % 128] + Magnitude(300 / 128, 1);
    assert Uvarint(200) == [128 + 200 % 128] + Uvarint(200 / 128);
  }

  lemma ZeroGroup(x: nat, n: nat) returns (y: uint64)
    requires 0 < x && n < 8 && 128 * x < TWO64
    ensures y == 128 * x && Magnitude(y, n) == [128] + Magnitude(x, n + 1)
  {
    y := 128 * x;
    assert y / 128 == x && y % 128 == 0;
  }

  /** The smallest timestamp takes all nine bytes. */
  lemma SmallestTimestamp()
    ensures TimeField(-TWO63) == [0x81, 128, 128, 128, 128, 128, 128, 128, 128, 128]
  {
    var x: uint64 := 128;
    var b: Text := [128];
    for k := 0 to 8
      invariant x == Pow2(7 * k + 7) < TWO64 && Magnitude(x, 8 - k) == b == seq(k + 1, i => 128)
    {
      NextPower(k);
      x := ZeroGroup(x, 7 - k);
      b := [128] + b;
    }
    Pow2Sixty4(64);
    assert Pow2(64) == 2 * Pow2(63);
  }

  lemma NextPower(k: nat)
    requires k < 8
    ensures Pow2(7 * (k + 1) + 7) == 128 * Pow2(7 * k + 7) < TWO64
  {
    Pow2Seven(7 * k + 7);
    Pow2Split(7 * (k + 1) + 7, 64 - (7 * (k + 1) + 7));
    Pow2Sixty4(64);
  }

  // ---- Truncated records

  lemma {:induction false} UvarintCut(a: Text, i: nat, k: nat)
    requires i <= k <= |a| && ReadUvarint(a, i).Got? && k < ReadUvarint(a, i).next
    ensures ReadUvarint(a[..k], i) == Eof(k)
    decreases k - i
  {
    if i < k { UvarintCut(a, i + 1, k); }
  }

  lemma TextCut(a: Text, i: nat, k: nat)
    requires i <= k <= |a| && ReadText(a, i).Got? && k <= ReadText(a, i).next
    ensures ReadText(a[..k], i).Eof? && ReadText(a[..k], i).at <= ReadText(a, i).next
  {
    var m := ReadUvarint(a, i).next;
    if k < m {
      UvarintCut(a, i, k);
    } else {
      assert Agree(a, a[..k], m) by { assert a[..k][..m] == a[..m]; }
      UvarintAgree(a, a[..k], i, m);
    }
  }

  lemma {:induction false} MagnitudeCut(a: Text, i: nat, n: nat, k: nat)
    requires n <= 8 && i <= k <= |a| && ReadMagnitude(a, i, n).Got? && k <= ReadMagnitude(a, i, n).next
    ensures ReadMagnitude(a[..k], i, n).Eof? && ReadMagnitude(a[..k], i, n).at <= ReadMagnitude(a, i, n).next
    decreases k - i
  {
    if i + 1 < k { MagnitudeCut(a, i + 1, n + 1, k); }
  }

  lemma TypeCut(o: Item, o': Item, a: Text, i: nat, k: nat)
    requires 0 < i <= k <= |a| && DecodeType(o, a, a[i - 1], i).err == NoError
    requires k < DecodeType(o, a, a[i - 1], i).n
    ensures DecodeType(o', a[..k], a[i - 1], i).err == EOF
  {
    TypeShape(o, a, i);
    TextCut(a, i, k);
  }

  lemma TimeCut(o: Item, o': Item, a: Text, i: nat, k: nat)
    requires 0 < i <= k <= |a| && DecodeTime(o, a, a[i - 1], i).err == NoError
    requires k < DecodeTime(o, a, a[i - 1], i).n
    ensures DecodeTime(o', a[..k], a[i - 1], i).err == EOF
  {
    if a[i - 1] == 1 || a[i - 1] == 0x81 {
      var p, j := TimePart(o, a, i);
      TypeShape(p, a, j + 1);
      if k <= j {
        TimePartCut(o', a, i, k);
      } else {
        BehindTimeCut(p, o', a, i, j, k);
      }
    } else {
      TypeCut(o, o', a, i, k);
    }
  }

  lemma PrefixAgrees(a: Text, j: nat, k: nat)
    requires j < k <= |a|
    ensures Agree(a, a[..k], j) && a[..k][j] == a[j]
  {
    assert a[..k][..j] == a[..j];
  }

  lemma BehindTimeCut(p: Item, o': Item, a: Text, i: nat, j: nat, k: nat)
    requires 0 < i < j < k <= |a| && a[i - 1] in {1, 0x81} && ReadTime(a, i).Got? && ReadTime(a, i).next == j
    requires DecodeType(p, a, a[j], j + 1).err == NoError && k < DecodeType(p, a, a[j], j + 1).n
    ensures DecodeTime(o', a[..k], a[i - 1], i).err == EOF
  {
    var p' := o'.(timestamp := SignedTime(a[i - 1], ReadTime(a, i).value));
    PrefixAgrees(a, j, k);
    TimePartAgree(o', p', a, a[..k], i, j);
    TypeCut(p, p', a, j + 1, k);
  }

  lemma TimePartCut(o: Item, a: Text, i: nat, k: nat)
    requires 0 < i <= k <= |a| && a[i - 1] in {1, 0x81} && ReadTime(a, i).Got?
    requires k <= ReadTime(a, i).next < COLFER_SIZE_MAX
    ensures DecodeTime(o, a[..k], a[i - 1], i).err == EOF
  {
    MagnitudeCut(a, i, 0, k);
  }

  /** Every strict prefix of a record is reported as cut short, never as malformed and never as a record. */
  lemma PrefixIsEof(o: Item, o': Item, a: Text, k: nat)
    requires Decode(o, a).err == NoError && k < Decode(o, a).n
    ensures Decode(o', a[..k]).err == EOF
  {
    SuccessShape(o, a);
    if k > 0 {
      if a[0] == 0 {
        var p, j := DescPart(o, a);
        TimeShape(p, a, j + 1);
        if k <= j {
          TextCut(a, 1, k);
        } else {
          BehindDescCut(p, o', a, j, k);
        }
      } else {
        TimeCut(o, o', a, 1, k);
      }
    }
  }

  lemma BehindDescCut(p: Item, o': Item, a: Text, j: nat, k: nat)
    requires 1 < j < k <= |a| && a[0] == 0 && ReadText(a, 1).Got? && ReadText(a, 1).next == j
    requires DecodeTime(p, a, a[j], j + 1).err == NoError && k < DecodeTime(p, a, a[j], j + 1).n
    ensures Decode(o', a[..k]).err == EOF
  {
    PrefixAgrees(a, j, k);
    TextAgree(a, a[..k], 1, j);
    TimeCut(p, o'.(desc := ReadText(a, 1).value), a, j + 1, k);
  }

  /** Different items never have encodings of which one begins the other. */
  lemma PrefixFree(x: Item, y: Item, tail: Text)
    requires GoStrings(x) && GoStrings(y)
    requires |Encode(x)| < COLFER_SIZE_MAX && Encode(y) == Encode(x) + tail
    ensures x == y && tail == []
  {
    RoundTripFresh(x, tail);
    RoundTrip(FRESH, y, []);
    assert Encode(y) + [] == Encode(y);
  }

  // ---- Normalisation

  /** The canonical groups of a value are no more than the groups it was read from, even if some were lost. */
  lemma {:induction false} UvarintShortest(a: Text, i: nat, x: nat)
    requires i <= |a| && ReadUvarint(a, i).Got? && x <= ReadUvarint(a, i).value
    ensures |Uvarint(x)| <= ReadUvarint(a, i).next - i
    decreases |a| - i
  {
    if a[i] >= 128 && x >= 128 { UvarintShortest(a, i + 1, x / 128); }
  }

  lemma {:induction false} MagnitudeShortest(a: Text, i: nat, n: nat, x: uint64)
    requires n <= 8 && i <= |a| && ReadMagnitude(a, i, n).Got? && x <= ReadMagnitude(a, i, n).value
    ensures |Magnitude(x, n)| <= ReadMagnitude(a, i, n).next - i
    decreases |a| - i
  {
    if a[i] >= 128 && x >= 128 && n < 8 { MagnitudeShortest(a, i + 1, n + 1, x / 128); }
  }

  /** The values that only a ninth byte can reach start here. */
  ghost function NinthByte(n: nat): nat
    decreases 8 - n
  {
    if n >= 8 then 1 else 128 * NinthByte(n + 1)
  }

  lemma {:induction false} LongMagnitude(a: Text, i: nat, n: nat)
    requires n <= 8 && i <= |a| && ReadMagnitude(a, i, n).Got? && ReadMagnitude(a, i, n).value >= NinthByte(n)
    ensures ReadMagnitude(a, i, n).next - i == 9 - n && NinthByte(n) >= 1
    decreases |a| - i
  {
    NinthByteGrows(n);
    if n < 8 { LongMagnitude(a, i + 1, n + 1); }
  }

  lemma {:induction false} NinthByteGrows(n: nat)
    ensures NinthByte(n) >= if n >= 8 then 1 else 128
    decreases 8 - n
  {
    if n < 8 { NinthByteGrows(n + 1); }
  }

  /** Also for nine-byte timestamps whose magnitude does not fit and flips the sign. */
  lemma TimeShortest(a: Text, i: nat, h: byte)
    requires i <= |a| && ReadTime(a, i).Got?
    ensures var r := ReadTime(a, i); |TimeField(SignedTime(h, r.value))| <= 1 + r.next - i
  {
    var x := ReadTime(a, i).value;
    var v := SignedTime(h, x);
    if x < TWO63 {
      MagnitudeShortest(a, i, 0, Abs(v));
    } else {
      assert NinthByte(0) <= TWO63 by {
        assert NinthByte(6) == 128 * 128;
        assert NinthByte(4) == 128 * 128 * NinthByte(6);
        assert NinthByte(2) == 128 * 128 * NinthByte(4);
      }
      LongMagnitude(a, i, 0);
    }
  }

  lemma TextShortest(a: Text, i: nat, h: byte)
    requires i <= |a| && ReadText(a, i).Got?
    ensures var r := ReadText(a, i); |TextField(h, r.value)| <= 1 + r.next - i
  {
    var u := ReadUvarint(a, i);
    UvarintShortest(a, i, Low64(u.value));
  }

  lemma TypeShortest(o: Item, a: Text, i: nat)
    requires 0 < i <= |a| && DecodeType(o, a, a[i - 1], i).err == NoError && o.typ == []
    ensures var d := DecodeType(o, a, a[i - 1], i);
            d.item == o.(typ := d.item.typ) && |TextField(2, d.item.typ)| <= d.n - i
  {
    if a[i - 1] == 2 { TextShortest(a, i, 2); }
  }

  /** The description is this one, and the other fields take no more than what was read from `i` on. */
  predicate Fits(desc: Text, d: Decoded, i: nat) {
    d.item.desc == desc && |TimeField(d.item.timestamp)| + |TextField(2, d.item.typ)| <= d.n - i
  }

  /** The byte at `j` is the header behind the timestamp. */
  lemma FieldsFit(o: Item, a: Text, i: nat, j: int)
    requires i <= j + 1 && 0 <= j < |a| && DecodeType(o, a, a[j], j + 1).err == NoError && o.typ == []
    requires |TimeField(o.timestamp)| <= j + 1 - i
    ensures Fits(o.desc, DecodeType(o, a, a[j], j + 1), i)
  {
    TypeShortest(o, a, j + 1);
  }

  lemma TimePartShortest(o: Item, a: Text, i: nat) returns (o': Item, j: nat)
    requires 0 < i <= |a| && a[i - 1] in {1, 0x81} && DecodeTime(o, a, a[i - 1], i).err == NoError
    ensures i < j < |a| && |TimeField(o'.timestamp)| <= j + 1 - i && o'.desc == o.desc && o'.typ == o.typ
    ensures DecodeTime(o, a, a[i - 1], i) == DecodeType(o', a, a[j], j + 1)
  {
    o', j := TimePart(o, a, i);
    TimeShortest(a, i, a[i - 1]);
  }

  lemma WithTimeShortest(o: Item, a: Text, i: nat)
    requires 0 < i <= |a| && a[i - 1] in {1, 0x81} && DecodeTime(o, a, a[i - 1], i).err == NoError && o.typ == []
    ensures Fits(o.desc, DecodeTime(o, a, a[i - 1], i), i)
  {
    var o', j := TimePartShortest(o, a, i);
    FieldsFit(o', a, i, j);
  }

  lemma TimeStageShortest(o: Item, a: Text, i: nat)
    requires 0 < i <= |a| && DecodeTime(o, a, a[i - 1], i).err == NoError && o.typ == [] && o.timestamp == 0
    ensures Fits(o.desc, DecodeTime(o, a, a[i - 1], i), i)
  {
    if a[i - 1] in {1, 0x81} { WithTimeShortest(o, a, i); } else { FieldsFit(o, a, i, i - 1); }
  }

  /**
   Whatever decodes into a fresh receiver, canonical or not, can be marshalled again, takes no more bytes than
   were read, and decodes to the same item.
   */
  lemma Normalisation(a: Text)
    requires Decode(FRESH, a).err == NoError
    ensures var d := Decode(FRESH, a);
            && Marshalable(d.item) == NoError
            && |Encode(d.item)| <= d.n
            && Decode(FRESH, Encode(d.item)) == Decoded(d.item, |Encode(d.item)|, NoError)
  {
    var d := Decode(FRESH, a);
    SuccessShape(FRESH, a);
    if a[0] == 0 {
      var o, j := DescPart(FRESH, a);
      TextShortest(a, 1, 0);
      TimeStageShortest(o, a, j + 1);
    } else {
      TimeStageShortest(FRESH, a, 1);
    }
    SizeAtLeastFields(d.item);
    RoundTripFresh(d.item, []);
    assert Encode(d.item) + [] == Encode(d.item);
  }
}
