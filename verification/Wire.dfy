/** Integers, flags, strings and counted lists as they travel on a stream, and the socket under them. */
module Wire {
  import opened Prelude
  import opened Bytes

  type u16 = x: int | 0 <= x < 0x1_0000
  type u32 = x: int | 0 <= x < 0x1_0000_0000
  type i32 = x: int | -0x8000_0000 <= x < 0x8000_0000
  type u64 = x: int | 0 <= x < 0x1_0000_0000_0000_0000

  const MAX16 := 0xFFFF

  /** The peer closed before, or in the middle of, what was to be read; or it sent something meaningless. */
  datatype WireError = CLOSED | CUT_SHORT | MEANINGLESS

  type Parsed<T> = Result<(T, seq<byte>), WireError>

  // ---- Reading: what is read, and what is left ----

  function Take(s: seq<byte>, n: nat): Parsed<seq<byte>> {
    if n <= |s| then Ok((s[..n], s[n..])) else if s == [] then Err(CLOSED) else Err(CUT_SHORT)
  }

  function Join(hi: int, lo: int): int {
    hi * 256 + lo
  }

  function GetU8(s: seq<byte>): Parsed<byte> {
    var (b, rest) :- Take(s, 1);
    Ok((b[0], rest))
  }

  function GetU16(s: seq<byte>): Parsed<u16> {
    var (b, rest) :- Take(s, 2);
    Ok((Join(b[0], b[1]), rest))
  }

  function GetU32(s: seq<byte>): Parsed<u32> {
    var (b, rest) :- Take(s, 4);
    Ok((Join(Join(Join(b[0], b[1]), b[2]), b[3]), rest))
  }

  function GetI32(s: seq<byte>): Parsed<i32> {
    var (bits, rest) :- GetU32(s);
    Ok((if bits < 0x8000_0000 then bits else bits - 0x1_0000_0000, rest))
  }

  function GetU64(s: seq<byte>): Parsed<u64> {
    var (hi, s) :- GetU32(s);
    var (lo, s) :- GetU32(s);
    Ok((hi * 0x1_0000_0000 + lo, s))
  }

  function GetFlag(s: seq<byte>): Parsed<bool> {
    var (b, s) :- GetU8(s);
    Ok((b != 0, s))
  }

  function GetText(s: seq<byte>): Parsed<Text> {
    var (n, s) :- GetU16(s);
    if n == 0 then Ok(([], s)) else Take(s, n)
  }

  function GetMany<T>(get: seq<byte> -> Parsed<T>, n: nat, s: seq<byte>): Parsed<seq<T>> {
    if n == 0 then Ok(([], s))
    else
      var (x, s) :- get(s);
      var (xs, s) :- GetMany(get, n - 1, s);
      Ok(([x] + xs, s))
  }

  // ---- Writing, in front of what follows; each promises that reading takes back exactly what was written ----

  function U8(v: byte, rest: seq<byte>): (s: seq<byte>)
    ensures GetU8(s) == Ok((v, rest))
  {
    [v] + rest
  }

  function U16(v: u16, rest: seq<byte>): (s: seq<byte>)
    ensures GetU16(s) == Ok((v, rest))
  {
    var s := [v / 256, v % 256] + rest;
    assert s[2..] == rest;
    s
  }

  /** Most significant first. */
  function Octets(v: u32): (b: seq<byte>)
    ensures |b| == 4 && Join(Join(Join(b[0], b[1]), b[2]), b[3]) == v
  {
    var upper := v / 256;
    var half := upper / 256;
    [half / 256, half % 256, upper % 256, v % 256]
  }

  function U32(v: u32, rest: seq<byte>): (s: seq<byte>)
    ensures GetU32(s) == Ok((v, rest))
  {
    var s := Octets(v) + rest;
    assert s[..4] == Octets(v) && s[4..] == rest;
    s
  }

  function I32(v: i32, rest: seq<byte>): (s: seq<byte>)
    ensures GetI32(s) == Ok((v, rest))
  {
    U32(if v < 0 then v + 0x1_0000_0000 else v, rest)
  }

  function U64(v: u64, rest: seq<byte>): (s: seq<byte>)
    ensures GetU64(s) == Ok((v, rest))
  {
    U32(v / 0x1_0000_0000, U32(v % 0x1_0000_0000, rest))
  }

  function Flag(v: bool, rest: seq<byte>): (s: seq<byte>)
    ensures GetFlag(s) == Ok((v, rest))
  {
    U8(if v then 1 else 0, rest)
  }

  /** Only a text of at most 65535 bytes is ever written. */
  function PutText(v: Text, rest: seq<byte>): (s: seq<byte>)
    ensures |v| <= MAX16 ==> GetText(s) == Ok((v, rest))
  {
    var body := v + rest;
    assert body[..|v|] == v && body[|v|..] == rest;
    assert |v| == 0 ==> body == rest;
    U16(|v| % 0x1_0000, body)
  }

  function Many<T>(put: (T, seq<byte>) -> seq<byte>, xs: seq<T>, rest: seq<byte>): seq<byte> {
    if xs == [] then rest else put(xs[0], Many(put, xs[1..], rest))
  }

  lemma {:induction false} ManyLast<T>(put: (T, seq<byte>) -> seq<byte>, xs: seq<T>, x: T, rest: seq<byte>)
    ensures Many(put, xs + [x], rest) == Many(put, xs, put(x, rest))
  {
    if xs == [] {
      assert xs + [x] == [x];
    } else {
      assert (xs + [x])[1..] == xs[1..] + [x];
      ManyLast(put, xs[1..], x, rest);
    }
  }

  function Each<T>(f: T -> T, xs: seq<T>): seq<T> {
    seq(|xs|, i requires 0 <= i < |xs| => f(xs[i]))
  }

  /** What is read one by one comes back as a list, up to what the reader makes of each element. */
  lemma {:induction false} ManyReadBack<T(!new)>(put: (T, seq<byte>) -> seq<byte>, get: seq<byte> -> Parsed<T>,
                                                 seen: T -> T, xs: seq<T>, rest: seq<byte>)
    requires forall i, t | 0 <= i < |xs| :: get(put(xs[i], t)) == Ok((seen(xs[i]), t))
    ensures GetMany(get, |xs|, Many(put, xs, rest)) == Ok((Each(seen, xs), rest))
  {
    if xs != [] {
      forall i, t | 0 <= i < |xs[1..]|
        ensures get(put(xs[1..][i], t)) == Ok((seen(xs[1..][i]), t))
      {
        assert xs[1..][i] == xs[i + 1];
      }
      ManyReadBack(put, get, seen, xs[1..], rest);
      assert Each(seen, xs) == [seen(xs[0])] + Each(seen, xs[1..]);
      assert get(put(xs[0], Many(put, xs[1..], rest))) == Ok((seen(xs[0]), Many(put, xs[1..], rest)));
    } else {
      assert Each(seen, xs) == [];
    }
  }

  lemma ManySame<T(!new)>(put: (T, seq<byte>) -> seq<byte>, get: seq<byte> -> Parsed<T>, xs: seq<T>, rest: seq<byte>)
    requires forall i, t | 0 <= i < |xs| :: get(put(xs[i], t)) == Ok((xs[i], t))
    ensures GetMany(get, |xs|, Many(put, xs, rest)) == Ok((xs, rest))
  {
    var seen := (x: T) => x;
    ManyReadBack(put, get, seen, xs, rest);
    assert Each(seen, xs) == xs;
  }

  lemma {:induction false} ManyLength<T>(get: seq<byte> -> Parsed<T>, n: nat, s: seq<byte>)
    ensures GetMany(get, n, s).Ok? ==> |GetMany(get, n, s).value.0| == n
  {
    if n > 0 && get(s).Ok? {
      ManyLength(get, n - 1, get(s).value.1);
    }
  }

  // ---- The buffer a message is built in ----

  /** Why a message is not sent: it cannot be written, or the connection failed. */
  datatype SendError = TOO_LONG | FAILED(error: WireError)

  type Outcome = Result<(), SendError>

  /** A list being written: the elements before i are in the buffer, those from i on would complete it. */
  ghost predicate HalfWritten<T>(put: (T, seq<byte>) -> seq<byte>, xs: seq<T>, i: nat, start: seq<byte>, now: seq<byte>)
    requires i <= |xs|
  {
    forall rest {:trigger Many(put, xs[i..], rest)} :: now + Many(put, xs[i..], rest) == start + Many(put, xs, rest)
  }

  lemma OneMore<T>(put: (T, seq<byte>) -> seq<byte>, xs: seq<T>, i: nat, start: seq<byte>, was: seq<byte>,
      now: seq<byte>)
    requires i < |xs| && HalfWritten(put, xs, i, start, was)
    requires forall rest {:trigger now + rest} :: now + rest == was + put(xs[i], rest)
    ensures HalfWritten(put, xs, i + 1, start, now)
  {
    forall rest ensures now + Many(put, xs[i + 1..], rest) == start + Many(put, xs, rest) {
      assert xs[i..][1..] == xs[i + 1..];
      assert was + Many(put, xs[i..], rest) == start + Many(put, xs, rest);
    }
  }

  lemma NoneWritten<T>(put: (T, seq<byte>) -> seq<byte>, xs: seq<T>, now: seq<byte>)
    ensures HalfWritten(put, xs, 0, now, now)
  {
  }

  lemma AllWritten<T>(put: (T, seq<byte>) -> seq<byte>, xs: seq<T>, start: seq<byte>, now: seq<byte>)
    requires HalfWritten(put, xs, |xs|, start, now)
    ensures forall rest {:trigger now + rest} :: now + rest == start + Many(put, xs, rest)
  {
    forall rest ensures now + rest == start + Many(put, xs, rest) {
      assert Many(put, xs[|xs|..], rest) == rest;
    }
  }

  /**
   * Each method appends what the function of its name writes: whatever comes to be appended later, the buffer holds
   * what it held and then the value in front of that.
   */
  class Buffer {
    var bytes: seq<byte>

    constructor ()
      ensures bytes == []
    {
      bytes := [];
    }

    method PutU8(v: byte)
      modifies this
      ensures forall rest {:trigger bytes + rest} :: bytes + rest == old(bytes) + U8(v, rest)
    {
      bytes := bytes + [v];
      forall rest ensures bytes + rest == old(bytes) + U8(v, rest) {
        assert old(bytes) + [v] + rest == old(bytes) + ([v] + rest);
      }
    }

    method PutU16(v: u16)
      modifies this
      ensures forall rest {:trigger bytes + rest} :: bytes + rest == old(bytes) + U16(v, rest)
    {
      var be: seq<byte> := [v / 256, v % 256];
      bytes := bytes + be;
      forall rest ensures bytes + rest == old(bytes) + U16(v, rest) {
        assert old(bytes) + be + rest == old(bytes) + (be + rest);
      }
    }

    method PutU32(v: u32)
      modifies this
      ensures forall rest {:trigger bytes + rest} :: bytes + rest == old(bytes) + U32(v, rest)
    {
      var be := Octets(v);
      bytes := bytes + be;
      forall rest ensures bytes + rest == old(bytes) + U32(v, rest) {
        assert old(bytes) + be + rest == old(bytes) + (be + rest);
      }
    }

    method PutI32(v: i32)
      modifies this
      ensures forall rest {:trigger bytes + rest} :: bytes + rest == old(bytes) + I32(v, rest)
    {
      PutU32(if v < 0 then v + 0x1_0000_0000 else v);
    }

    method PutU64(v: u64)
      modifies this
      ensures forall rest {:trigger bytes + rest} :: bytes + rest == old(bytes) + U64(v, rest)
    {
      PutU32(v / 0x1_0000_0000);
      PutU32(v % 0x1_0000_0000);
    }

    method PutFlag(v: bool)
      modifies this
      ensures forall rest {:trigger bytes + rest} :: bytes + rest == old(bytes) + Flag(v, rest)
    {
      PutU8(if v then 1 else 0);
    }

    method PutString(v: Text) returns (r: Outcome)
      modifies this
      ensures r == if |v| <= MAX16 then Ok(()) else Err(TOO_LONG)
      ensures r.Ok? ==> forall rest {:trigger bytes + rest} :: bytes + rest == old(bytes) + PutText(v, rest)
    {
      if |v| > MAX16 {
        return Err(TOO_LONG);
      }
      PutU16(|v|);
      ghost var head := bytes;
      bytes := bytes + v;
      forall rest ensures bytes + rest == old(bytes) + PutText(v, rest) {
        assert head + v + rest == head + (v + rest);
      }
      return Ok(());
    }
  }

  // ---- The socket ----

  /** A method's outcome and the stream it leaves agree with a parse of the stream it found. */
  ghost predicate Agrees<T>(r: Result<T, WireError>, p: Parsed<T>, left: seq<byte>) {
    match p
    case Ok((v, rest)) => r == Ok(v) && left == rest
    case Err(e) => r == Err(e)
  }

  /** A list being read: the stream found starts with the elements in xs, and what is left is read after them. */
  ghost predicate HalfRead<T>(get: seq<byte> -> Parsed<T>, n: nat, found: seq<byte>, xs: seq<T>, left: seq<byte>) {
    && |xs| <= n
    && match GetMany(get, n - |xs|, left)
       case Ok((ys, rest)) => GetMany(get, n, found) == Ok((xs + ys, rest))
       case Err(e) => GetMany(get, n, found) == Err(e)
  }

  lemma NoneRead<T>(get: seq<byte> -> Parsed<T>, n: nat, found: seq<byte>)
    ensures HalfRead(get, n, found, [], found)
  {
    if GetMany(get, n, found).Ok? {
      var ys := GetMany(get, n, found).value.0;
      assert [] + ys == ys;
    }
  }

  lemma OneRead<T>(get: seq<byte> -> Parsed<T>, n: nat, found: seq<byte>, xs: seq<T>, was: seq<byte>,
                   r: Result<T, WireError>, left: seq<byte>)
    requires |xs| < n && HalfRead(get, n, found, xs, was) && Agrees(r, get(was), left)
    ensures if r.Ok? then HalfRead(get, n, found, xs + [r.value], left) else GetMany(get, n, found) == Err(r.error)
  {
    if r.Ok? && GetMany(get, n - |xs| - 1, left).Ok? {
      var ys := GetMany(get, n - |xs| - 1, left).value.0;
      assert xs + ([r.value] + ys) == xs + [r.value] + ys;
    }
  }

  lemma AllRead<T>(get: seq<byte> -> Parsed<T>, n: nat, found: seq<byte>, xs: seq<T>, left: seq<byte>)
    requires |xs| == n && HalfRead(get, n, found, xs, left)
    ensures GetMany(get, n, found) == Ok((xs, left))
  {
    assert xs + [] == xs;
  }

  /** One side of a connection: the bytes still to arrive, until the peer closes, and those sent. */
  class Socket {
    var incoming: seq<byte>
    var sent: seq<byte>

    constructor (stream: seq<byte>)
      ensures incoming == stream && sent == []
    {
      incoming, sent := stream, [];
    }

    /** The system hands over some of what is asked for: at least a byte, unless the peer has closed. */
    method RecvSome(size: nat) returns (chunk: seq<byte>)
      requires 0 < size
      modifies this`incoming
      ensures chunk + incoming == old(incoming) && |chunk| <= size
      ensures chunk == [] <==> old(incoming) == []
    {
      if incoming == [] {
        return [];
      }
      var k: nat :| 0 < k <= size && k <= |incoming|;
      chunk := incoming[..k];
      incoming := incoming[k..];
    }

    /** However the system cuts the stream up, exactly the bytes asked for are read. */
    method RecvAll(size: nat) returns (r: Result<seq<byte>, WireError>)
      modifies this`incoming
      ensures Agrees(r, Take(old(incoming), size), incoming)
    {
      var data: seq<byte> := [];
      while |data| < size
        invariant data + incoming == old(incoming) && |data| <= size
        decreases size - |data|
      {
        var chunk := RecvSome(size - |data|);
        if chunk == [] {
          return Err(if data == [] then CLOSED else CUT_SHORT);
        }
        data := data + chunk;
      }
      assert old(incoming)[..size] == data && old(incoming)[size..] == incoming;
      return Ok(data);
    }

    /** The system takes some of the bytes, or none when the peer has closed. */
    method SendSome(data: seq<byte>, accepts: nat) returns (count: nat)
      modifies this`sent
      ensures count == (if accepts < |data| then accepts else |data|) && sent == old(sent) + data[..count]
    {
      count := if accepts < |data| then accepts else |data|;
      sent := sent + data[..count];
    }

    /** Sends all or reports how the connection failed; what got out before is a prefix of the data. */
    method SendAll(data: seq<byte>, accepts: nat -> nat) returns (r: Result<(), WireError>)
      modifies this`sent
      ensures r.Ok? ==> sent == old(sent) + data
      ensures r.Ok? ==> forall rest {:trigger sent + rest} :: sent + rest == old(sent) + (data + rest)
      ensures old(sent) <= sent <= old(sent) + data
      ensures r.Err? ==> r.error == (if sent == old(sent) then CLOSED else CUT_SHORT) && sent != old(sent) + data
      ensures (forall k :: 0 < accepts(k)) ==> r.Ok?
    {
      var done := 0;
      while done < |data|
        invariant 0 <= done <= |data|
        invariant sent == old(sent) + data[..done]
      {
        var s := SendSome(data[done..], accepts(done));
        assert data[..done] + data[done..][..s] == data[..done + s];
        if s == 0 {
          assert accepts(done) == 0;
          assert |sent| == |old(sent)| + done < |old(sent) + data|;
          return Err(if done == 0 then CLOSED else CUT_SHORT);
        }
        done := done + s;
      }
      assert data[..|data|] == data;
      forall rest ensures sent + rest == old(sent) + (data + rest) {
        assert old(sent) + data + rest == old(sent) + (data + rest);
      }
      return Ok(());
    }

    // ---- Reading values ----

    method RecvU8() returns (r: Result<byte, WireError>)
      modifies this`incoming
      ensures Agrees(r, GetU8(old(incoming)), incoming)
    {
      var b :- RecvAll(1);
      return Ok(b[0]);
    }

    method RecvU16() returns (r: Result<u16, WireError>)
      modifies this`incoming
      ensures Agrees(r, GetU16(old(incoming)), incoming)
    {
      var b :- RecvAll(2);
      return Ok(Join(b[0], b[1]));
    }

    method RecvU32() returns (r: Result<u32, WireError>)
      modifies this`incoming
      ensures Agrees(r, GetU32(old(incoming)), incoming)
    {
      var b :- RecvAll(4);
      return Ok(Join(Join(Join(b[0], b[1]), b[2]), b[3]));
    }

    method RecvI32() returns (r: Result<i32, WireError>)
      modifies this`incoming
      ensures Agrees(r, GetI32(old(incoming)), incoming)
    {
      var bits: int :- RecvU32();
      var v: i32 := if bits < 0x8000_0000 then bits else bits - 0x1_0000_0000;
      return Ok(v);
    }

    method RecvU64() returns (r: Result<u64, WireError>)
      modifies this`incoming
      ensures Agrees(r, GetU64(old(incoming)), incoming)
    {
      var hi: int :- RecvU32();
      var lo: int :- RecvU32();
      var v: u64 := hi * 0x1_0000_0000 + lo;
      return Ok(v);
    }

    method RecvFlag() returns (r: Result<bool, WireError>)
      modifies this`incoming
      ensures Agrees(r, GetFlag(old(incoming)), incoming)
    {
      var b :- RecvU8();
      return Ok(b != 0);
    }

    method RecvString() returns (r: Result<Text, WireError>)
      modifies this`incoming
      ensures Agrees(r, GetText(old(incoming)), incoming)
    {
      var len :- RecvU16();
      if len == 0 {
        return Ok([]);
      }
      r := RecvAll(len);
    }
  }
}
