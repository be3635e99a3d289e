/**
 The binary form of a stored device: the wire format as functions, and the encoder and decoder as the
 methods of `StorageItem`, which walk a buffer with an index as the generated Go code does.
 */
module Colfer {
  import opened Words

  /** Upper limit for serial byte sizes. */
  const COLFER_SIZE_MAX: nat := 1024

  datatype Item = Item(desc: Text, timestamp: int64, typ: Text)

  /** The receiver as Go allocates it. */
  const FRESH := Item([], 0, [])

  datatype Error = NoError | EOF | ColferMax | ColferError(at: nat) | ColferTail(at: nat)

  // ---- Wire format

  /** Base-128 groups, least significant first; every group but the last has its eighth bit set. */
  function Uvarint(x: nat): (b: Text)
    ensures |b| > 0
  {
    if x < 128 then [x] else [128 + x % 128] + Uvarint(x / 128)
  }

  /** Like `Uvarint`, but the ninth byte holds eight bits and is always the last. */
  function Magnitude(x: uint64, n: nat): (b: Text)
    requires n <= 8
    ensures 0 < |b| <= 9 - n
    decreases x
  {
    if x < 128 || n == 8 then [x % 256] else [128 + x % 128] + Magnitude(x / 128, n + 1)
  }

  function TextField(header: byte, s: Text): Text {
    if s == [] then [] else [header] + Uvarint(|s|) + s
  }

  function TimeField(v: int64): Text {
    if v == 0 then [] else [if v > 0 then 1 else 0x81] + Magnitude(Abs(v), 0)
  }

  /** Fields with the zero value are left out; 0x7f ends the record. */
  function Encode(o: Item): Text {
    TextField(0, o.desc) + TimeField(o.timestamp) + TextField(2, o.typ) + [0x7f]
  }

  /** What `MarshalLen` reports. */
  function Marshalable(o: Item): Error {
    if |o.desc| > COLFER_SIZE_MAX || |o.typ| > COLFER_SIZE_MAX || |Encode(o)| > COLFER_SIZE_MAX
    then ColferMax else NoError
  }

  // ---- Reading

  /** A value and the index behind it, or the index at which the data ran out, or a size above the limit. */
  datatype Read<T> = Got(value: T, next: nat) | Eof(at: nat) | TooBig

  /** The exact value of the base-128 groups at `i`, however many there are. */
  function ReadUvarint(data: Text, i: nat): (r: Read<nat>)
    requires i <= |data|
    ensures r.Got? ==> i < r.next <= |data|
    ensures r.Eof? ==> r.at == |data|
    ensures !r.TooBig?
    decreases |data| - i
  {
    if i == |data| then Eof(i)
    else if data[i] < 128 then Got(data[i], i + 1)
    else match ReadUvarint(data, i + 1)
      case Got(v, j) => Got(data[i] - 128 + 128 * v, j)
      case Eof(at) => Eof(at)
  }

  /** The 64-bit accumulator keeps the size modulo 2^64; one byte must follow the text. */
  function ReadText(data: Text, i: nat): (r: Read<Text>)
    requires i <= |data|
    ensures r.Got? ==> i < r.next < |data| && |r.value| <= COLFER_SIZE_MAX
  {
    match ReadUvarint(data, i)
    case Eof(at) => Eof(at)
    case Got(v, j) =>
      var size := Low64(v);
      if size > COLFER_SIZE_MAX then TooBig
      else if j + size >= |data| then Eof(j + size)
      else Got(data[j..j + size], j + size)
  }

  /** Bytes `n` to 8 of a magnitude; one byte must follow. */
  function ReadMagnitude(data: Text, i: nat, n: nat): (r: Read<nat>)
    requires n <= 8 && i <= |data|
    ensures r.Got? ==> i < r.next < |data|
    ensures r.Eof? ==> |data| <= r.at <= |data| + 1
    ensures !r.TooBig?
    decreases |data| - i
  {
    if i + 1 >= |data| then Eof(i + 1)
    else if data[i] < 128 || n == 8 then Got(data[i], i + 1)
    else match ReadMagnitude(data, i + 1, n + 1)
      case Got(v, j) => Got(data[i] - 128 + 128 * v, j)
      case Eof(at) => Eof(at)
  }

  /** One past the largest value that bytes `n` to 8 of a magnitude can hold. */
  ghost function Cap(n: nat): int
    decreases 8 - n
  {
    if n >= 8 then 256 else 128 * Cap(n + 1)
  }

  lemma {:induction false} MagnitudeBelowCap(data: Text, i: nat, n: nat)
    requires n <= 8 && i <= |data|
    ensures Cap(n) >= 256
    ensures var r := ReadMagnitude(data, i, n); r.Got? ==> r.value < Cap(n)
    decreases 8 - n
  {
    if n < 8 { MagnitudeBelowCap(data, if i < |data| then i + 1 else i, n + 1); }
  }

  /** The nine bytes of a timestamp hold exactly 64 bits. */
  function ReadTime(data: Text, i: nat): (r: Read<uint64>)
    requires i <= |data|
    ensures r.Got? ==> i < r.next < |data|
    ensures !r.TooBig?
  {
    match ReadMagnitude(data, i, 0)
    case Got(v, j) =>
      MagnitudeBelowCap(data, i, 0);
      Got(v, j)
    case Eof(at) => Eof(at)
  }

  /** The receiver after the call, the number of bytes read, and the error. */
  datatype Decoded = Decoded(item: Item, n: nat, err: Error)

  /** The code behind `eof`. */
  function AtEof(o: Item, i: nat): Decoded {
    Decoded(o, 0, EofError(i))
  }

  function EofError(i: nat): Error {
    if i >= COLFER_SIZE_MAX then ColferMax else EOF
  }

  /** `h` is the header just read, at index `i - 1`. */
  function DecodeEnd(o: Item, h: byte, i: nat): Decoded
    requires i > 0
  {
    if h != 0x7f then Decoded(o, 0, ColferError(i - 1))
    else if i < COLFER_SIZE_MAX then Decoded(o, i, NoError)
    else AtEof(o, i)
  }

  function DecodeType(o: Item, data: Text, h: byte, i: nat): Decoded
    requires 0 < i <= |data|
  {
    if h != 2 then DecodeEnd(o, h, i)
    else match ReadText(data, i)
      case Got(s, j) => DecodeEnd(o.(typ := s), data[j], j + 1)
      case Eof(at) => AtEof(o, at)
      case TooBig => Decoded(o, 0, ColferMax)
  }

  function SignedTime(h: byte, x: uint64): int64 {
    ToInt64(if h == 1 then x else Negate64(x))
  }

  function DecodeTime(o: Item, data: Text, h: byte, i: nat): Decoded
    requires 0 < i <= |data|
  {
    if h != 1 && h != 0x81 then DecodeType(o, data, h, i)
    else match ReadTime(data, i)
      case Got(x, j) =>
        DecodeType(o.(timestamp := SignedTime(h, x)), data, data[j], j + 1)
      case Eof(at) => AtEof(o, at)
  }

  function Decode(o: Item, data: Text): Decoded {
    if data == [] then Decoded(o, 0, EOF)
    else if data[0] != 0 then DecodeTime(o, data, data[0], 1)
    else match ReadText(data, 1)
      case Got(s, j) => DecodeTime(o.(desc := s), data, data[j], j + 1)
      case Eof(at) => AtEof(o, at)
      case TooBig => Decoded(o, 0, ColferMax)
  }

  /** What `UnmarshalBinary` reports on top of `Unmarshal`. */
  function DecodeWhole(o: Item, data: Text): Error {
    var d := Decode(o, data);
    if d.err == NoError && d.n < |data| then ColferTail(d.n) else d.err
  }

  /** The buffer begins with `done` and is otherwise what it was. */
  ghost predicate Written(buf: array<byte>, was: Text, done: Text)
    reads buf
  {
    |done| <= |was| && buf[..] == done + was[|done|..]
  }

  // ---- The generated code

  class StorageItem {
    var desc: Text
    var timestamp: int64
    var typ: Text

    function Value(): Item
      reads this
    {
      Item(desc, timestamp, typ)
    }

    constructor (o: Item)
      ensures Value() == o
    {
      desc, timestamp, typ := o.desc, o.timestamp, o.typ;
    }

    /** `buf[i] = v` at the end of what was written. */
    static method PutByte(buf: array<byte>, i: nat, v: byte, ghost was: Text, ghost done: Text)
      requires Written(buf, was, done) && i == |done| < buf.Length
      modifies buf
      ensures Written(buf, was, done + [v])
    {
      buf[i] := v;
    }

    /** `copy(buf[i:], s)` with room for all of `s`. */
    static method PutBytes(buf: array<byte>, i: nat, s: Text, ghost was: Text, ghost done: Text)
      requires Written(buf, was, done) && i == |done| && i + |s| <= buf.Length
      modifies buf
      ensures Written(buf, was, done + s)
    {
      forall k | 0 <= k < |s| {
        buf[i + k] := s[k];
      }
    }

    /** Writes the groups of `x0` from index `i0` on. */
    static method PutUvarint(buf: array<byte>, i0: nat, x0: nat, ghost was: Text, ghost done: Text)
      returns (i: nat)
      requires Written(buf, was, done) && i0 == |done| && i0 + |Uvarint(x0)| <= buf.Length
      modifies buf
      ensures i == i0 + |Uvarint(x0)|
      ensures Written(buf, was, done + Uvarint(x0))
    {
      i := i0;
      var x := x0;
      ghost var part: Text := [];
      Empty(done);
      while x >= 0x80
        invariant i == i0 + |part| && part + Uvarint(x) == Uvarint(x0)
        invariant Written(buf, was, done + part)
        decreases x
      {
        var group := Continuation(x);
        PutByte(buf, i, group, was, done + part);
        part := Grow(done, part, group);
        x := x / 128;
        i := i + 1;
      }
      PutByte(buf, i, x, was, done + part);
      part := Grow(done, part, x);
      i := i + 1;
    }

    /** Writes a magnitude: at most eight groups, then a whole byte. */
    static method PutMagnitude(buf: array<byte>, i0: nat, x0: uint64, ghost was: Text, ghost done: Text)
      returns (i: nat)
      requires Written(buf, was, done) && i0 == |done| && i0 + |Magnitude(x0, 0)| <= buf.Length
      modifies buf
      ensures i == i0 + |Magnitude(x0, 0)|
      ensures Written(buf, was, done + Magnitude(x0, 0))
    {
      i := i0;
      var x, n := x0, 0;
      ghost var part: Text := [];
      Empty(done);
      while x >= 0x80 && n < 8
        invariant n <= 8 && i == i0 + |part| && part + Magnitude(x, n) == Magnitude(x0, 0)
        invariant Written(buf, was, done + part)
        decreases 8 - n
      {
        var group := Continuation(x);
        PutByte(buf, i, group, was, done + part);
        part := Grow(done, part, group);
        x := x / 128;
        i := i + 1;
        n := n + 1;
      }
      PutByte(buf, i, x % 256, was, done + part);
      part := Grow(done, part, x % 256);
      i := i + 1;
    }

    /** One text field: header, size, bytes; nothing for the empty text. */
    static method PutText(buf: array<byte>, i0: nat, header: byte, s: Text, ghost was: Text, ghost done: Text)
      returns (i: nat)
      requires Written(buf, was, done) && i0 == |done| && i0 + |TextField(header, s)| <= buf.Length
      modifies buf
      ensures i == i0 + |TextField(header, s)|
      ensures Written(buf, was, done + TextField(header, s))
    {
      i := i0;
      if |s| == 0 {
        Empty(done);
        return;
      }
      PutByte(buf, i, header, was, done);
      i := PutUvarint(buf, i + 1, |s|, was, done + [header]);
      PutBytes(buf, i, s, was, done + [header] + Uvarint(|s|));
      i := i + |s|;
      Assoc(done, [header], Uvarint(|s|));
      Assoc(done, [header] + Uvarint(|s|), s);
    }

    /** The timestamp field: header, magnitude; nothing for 0. */
    static method PutTime(buf: array<byte>, i0: nat, v: int64, ghost was: Text, ghost done: Text)
      returns (i: nat)
      requires Written(buf, was, done) && i0 == |done| && i0 + |TimeField(v)| <= buf.Length
      modifies buf
      ensures i == i0 + |TimeField(v)|
      ensures Written(buf, was, done + TimeField(v))
    {
      i := i0;
      if v == 0 {
        Empty(done);
        return;
      }
      var x := AbsWord(v);
      var header := 1;
      if v < 0 { header := Continuation(1); }
      PutByte(buf, i, header, was, done);
      i := PutMagnitude(buf, i + 1, x, was, done + [header]);
      Assoc(done, [header], Magnitude(x, 0));
    }

    /** Go panics when the buffer is too small; the caller sizes it with `MarshalLen`. */
    method MarshalTo(buf: array<byte>) returns (i: nat)
      requires |Encode(Value())| <= buf.Length
      modifies buf
      ensures i == |Encode(Value())|
      ensures buf[..] == Encode(Value()) + old(buf[..])[i..]
    {
      ghost var was, d, t, y := buf[..], TextField(0, desc), TimeField(timestamp), TextField(2, typ);
      Empty(was);
      i := PutText(buf, 0, 0, desc, was, []);
      Empty(d);
      i := PutTime(buf, i, timestamp, was, d);
      i := PutText(buf, i, 2, typ, was, d + t);
      PutByte(buf, i, 0x7f, was, d + t + y);
      i := i + 1;
    }

    /** Counts the bytes `MarshalTo` will write, without writing them. */
    method MarshalLen() returns (l: nat, err: Error)
      ensures err == Marshalable(Value())
      ensures err == NoError ==> l == |Encode(Value())|
    {
      l := 1;
      var x: nat := |desc|;
      if x != 0 {
        if x > COLFER_SIZE_MAX { return 0, ColferMax; }
        l := l + x + 2;
        while x >= 0x80
          invariant l - |desc| - 2 + |Uvarint(x)| == 1 + |Uvarint(|desc|)|
          decreases x
        {
          x := x / 128;
          l := l + 1;
        }
      }
      assert l == 1 + |TextField(0, desc)|;
      if timestamp != 0 {
        l := l + 2;
        var m := AbsWord(timestamp);
        var n := 0;
        while m >= 0x80 && n < 8
          invariant n <= 8 && l - 2 + |Magnitude(m, n)| == 1 + |TextField(0, desc)| + |Magnitude(Abs(timestamp), 0)|
          decreases 8 - n
        {
          m := m / 128;
          l := l + 1;
          n := n + 1;
        }
      }
      ghost var l1 := l;
      assert l == 1 + |TextField(0, desc)| + |TimeField(timestamp)|;
      x := |typ|;
      if x != 0 {
        if x > COLFER_SIZE_MAX { return 0, ColferMax; }
        l := l + x + 2;
        while x >= 0x80
          invariant l - |typ| - 2 + |Uvarint(x)| == l1 + |Uvarint(|typ|)|
          decreases x
        {
          x := x / 128;
          l := l + 1;
        }
      }
      err := if l > COLFER_SIZE_MAX then ColferMax else NoError;
    }

    method MarshalBinary() returns (data: Text, err: Error)
      ensures err == Marshalable(Value())
      ensures data == if err == NoError then Encode(Value()) else []
    {
      var l;
      l, err := MarshalLen();
      if err != NoError { return [], err; }
      var buf := new byte[l];
      var _ := MarshalTo(buf);
      data := buf[..];
    }

    /** The size loop; `ok` is false where Go jumps to `eof`. */
    static method TakeUvarint(data: Text, i0: nat) returns (x: uint64, i: nat, ok: bool)
      requires i0 <= |data|
      ensures match ReadUvarint(data, i0)
              case Got(v, j) => ok && x == Low64(v) && i == j
              case Eof(at) => !ok && i == at
    {
      i, x, ok := i0, 0, false;
      if i >= |data| { return; }
      var b := data[i];
      x := b;
      i := i + 1;
      if x >= 0x80 {
        x := LowBits(b);
        var shift := 7;
        ghost var sum: nat := x;
        Pow2Seven(0);
        while true
          invariant i <= |data| && sum < Pow2(shift) && x == Low64(sum)
          invariant ReadUvarint(data, i0) == Combine(sum, shift, ReadUvarint(data, i))
          decreases |data| - i
        {
          if i >= |data| { return; }
          b := data[i];
          i := i + 1;
          if b < 0x80 {
            x := JoinGroup(x, b, shift, sum);
            ok := true;
            return;
          }
          var low := LowBits(b);
          CombineGroup(sum, b, shift, ReadUvarint(data, i - 1), ReadUvarint(data, i));
          x := JoinGroup(x, low, shift, sum);
          sum := sum + Shifted(low, shift);
          shift := shift + 7;
        }
      }
      ok := true;
    }

    /** The timestamp loop: at most nine bytes, and always one more behind them. */
    static method TakeMagnitude(data: Text, i0: nat) returns (x: uint64, i: nat, ok: bool)
      requires i0 <= |data|
      ensures match ReadTime(data, i0)
              case Got(v, j) => ok && x == v && i == j
              case Eof(at) => !ok && i == at
    {
      i, x, ok := i0, 0, false;
      if i + 1 >= |data| {
        i := i + 1;
        return;
      }
      var b := data[i];
      x := b;
      i := i + 1;
      if x >= 0x80 {
        x := LowBits(b);
        var shift := 7;
        ghost var n := 1;
        Pow2Seven(0);
        while true
          invariant 1 <= n <= 8 && shift == 7 * n && i < |data| && x < Pow2(shift)
          invariant ReadMagnitude(data, i0, 0) == Combine(x, shift, ReadMagnitude(data, i, n))
          decreases |data| - i
        {
          b := data[i];
          i := i + 1;
          if i >= |data| { return; }
          if b < 0x80 || shift == 56 {
            x := JoinSmallGroup(x, b, shift);
            ok := true;
            return;
          }
          var low := LowBits(b);
          CombineGroup(x, b, shift, ReadMagnitude(data, i - 1, n), ReadMagnitude(data, i, n + 1));
          x := JoinSmallGroup(x, low, shift);
          shift := shift + 7;
          n := n + 1;
        }
      }
      ok := true;
    }

    /** A size and that many bytes, with one more behind them. */
    static method TakeText(data: Text, i0: nat) returns (s: Text, i: nat, ok: bool, err: Error)
      requires i0 <= |data|
      ensures match ReadText(data, i0)
              case Got(v, j) => ok && err == NoError && s == v && i == j
              case Eof(at) => !ok && err == NoError && i == at
              case TooBig => err == ColferMax
    {
      var x;
      s, err := [], NoError;
      x, i, ok := TakeUvarint(data, i0);
      if !ok { return; }
      if x > COLFER_SIZE_MAX {
        err := ColferMax;
        return;
      }
      var start := i;
      i := i + x;
      if i >= |data| {
        ok := false;
        return;
      }
      s := data[start..i];
    }

    /** `Unmarshal`; a field that was read stays assigned when a later one fails. */
    method Unmarshal(data: Text) returns (n: nat, err: Error)
      modifies this
      ensures Decoded(Value(), n, err) == Decode(old(Value()), data)
    {
      if |data| == 0 { return 0, EOF; }
      var header, i := data[0], 1;
      if header == 0 {
        var s, ok;
        s, i, ok, err := TakeText(data, i);
        if err != NoError { return 0, err; }
        if !ok { return 0, EofError(i); }
        desc := s;
        header := data[i];
        i := i + 1;
      }
      n, err := UnmarshalTime(data, header, i);
    }

    /** The code from the two timestamp headers on. */
    method UnmarshalTime(data: Text, header0: byte, i0: nat) returns (n: nat, err: Error)
      requires 0 < i0 <= |data|
      modifies this
      ensures Decoded(Value(), n, err) == DecodeTime(old(Value()), data, header0, i0)
    {
      var x, ok;
      var header, i := header0, i0;
      var negative := Continuation(1);
      if header == 1 {
        x, i, ok := TakeMagnitude(data, i);
        if !ok { return 0, EofError(i); }
        timestamp := ToInt64(x);
        header := data[i];
        i := i + 1;
      } else if header == negative {
        x, i, ok := TakeMagnitude(data, i);
        if !ok { return 0, EofError(i); }
        timestamp := ToInt64(Negate64(x));
        header := data[i];
        i := i + 1;
      }
      n, err := UnmarshalType(data, header, i);
    }

    /** The code from the last text header on. */
    method UnmarshalType(data: Text, header0: byte, i0: nat) returns (n: nat, err: Error)
      requires 0 < i0 <= |data|
      modifies this
      ensures Decoded(Value(), n, err) == DecodeType(old(Value()), data, header0, i0)
    {
      var header, i := header0, i0;
      if header == 2 {
        var s, ok;
        s, i, ok, err := TakeText(data, i);
        if err != NoError { return 0, err; }
        if !ok { return 0, EofError(i); }
        typ := s;
        header := data[i];
        i := i + 1;
      }
      if header != 0x7f { return 0, ColferError(i - 1); }
      if i < COLFER_SIZE_MAX { return i, NoError; }
      return 0, EofError(i);
    }

    method UnmarshalBinary(data: Text) returns (err: Error)
      modifies this
      ensures Value() == Decode(old(Value()), data).item
      ensures err == DecodeWhole(old(Value()), data)
    {
      var i;
      i, err := Unmarshal(data);
      if i < |data| && err == NoError { err := ColferTail(i); }
    }
  }

  lemma Empty(s: Text)
    ensures s + [] == s && [] + s == s
  {
  }

  lemma Assoc(a: Text, b: Text, c: Text)
    ensures (a + b) + c == a + (b + c)
  {
  }

  lemma Grow(done: Text, part: Text, v: byte) returns (longer: Text)
    ensures longer == part + [v] && done + part + [v] == done + longer
  {
    longer := part + [v];
  }

  // ---- The accumulator of the reading loops

  /** `r`, read behind `shift` bits that already hold `sum`. */
  ghost function Combine(sum: nat, shift: nat, r: Read<nat>): Read<nat> {
    match r
    case Got(v, j) => Got(sum + Shifted(v, shift), j)
    case Eof(at) => Eof(at)
    case TooBig => TooBig
  }

  lemma CombineGroup(sum: nat, b: byte, shift: nat, whole: Read<nat>, r: Read<nat>)
    requires b >= 128 && sum < Pow2(shift)
    requires whole == match r case Got(v, j) => Got(b - 128 + 128 * v, j) case e => e
    ensures Combine(sum, shift, whole) == Combine(sum + Shifted(b % 128, shift), shift + 7, r)
    ensures sum + Shifted(b % 128, shift) < Pow2(shift + 7)
  {
    Pow2Seven(shift);
    MulRoom(b % 128, 128, Pow2(shift));
    assert b - 128 == b % 128;
    if r.Got? { SplitProduct(r.value, 128, b % 128, Pow2(shift)); }
  }
}
