/** Updates from the server's sending loop to the client, over a stream that may break anywhere. */
module Connections {
  import opened Prelude
  import opened Bytes
  import opened Wire
  import opened Updates
  import opened RoundTrips
  import opened Deliveries
  import opened ServerProtocols
  import opened ClientProtocols

  // ---- What is read does not depend on what comes later ----

  /** What is read of s + t, where before a value was read of s alone: the same value, and t is left as well. */
  predicate Reread<T(==)>(before: Parsed<T>, after: Parsed<T>, s: seq<byte>, t: seq<byte>)
    requires before.Ok?
  {
    |before.value.1| <= |s| && after == Ok((before.value.0, before.value.1 + t))
  }

  /** A value that can be read is read the same when more bytes follow, and those are left. */
  ghost predicate Stable<T(!new)>(get: seq<byte> -> Parsed<T>) {
    forall s, t {:trigger get(s + t)} :: get(s).Ok? ==> Reread(get(s), get(s + t), s, t)
  }

  lemma TakeStable(n: nat)
    ensures forall s: seq<byte>, t {:trigger Take(s + t, n)} ::
      Take(s, n).Ok? ==> Reread(Take(s, n), Take(s + t, n), s, t)
  {
    forall s: seq<byte>, t: seq<byte> | Take(s, n).Ok?
      ensures Reread(Take(s, n), Take(s + t, n), s, t)
    {
      assert (s + t)[..n] == s[..n] && (s + t)[n..] == s[n..] + t;
    }
  }

  ghost predicate PrimitivesStable() {
    Stable(GetU8) && Stable(GetU16) && Stable(GetU32) && Stable(GetI32) && Stable(GetU64) && Stable(GetFlag)
      && Stable(GetText)
  }

  lemma OctetsAreStable()
    ensures Stable(GetU8) && Stable(GetU16) && Stable(GetU32)
  {
    TakeStable(1);
    TakeStable(2);
    TakeStable(4);
    hide Take;
  }

  lemma TextIsStable()
    ensures Stable(GetText)
  {
    OctetsAreStable();
    hide GetU16, Take;
    forall s, t | GetText(s).Ok? ensures Reread(GetText(s), GetText(s + t), s, t) {
      TakeStable(GetU16(s).value.0);
    }
  }

  lemma PrimitivesAreStable()
    ensures PrimitivesStable()
  {
    OctetsAreStable();
    TextIsStable();
    hide GetU8, GetU16, GetU32, GetText;
  }

  lemma {:induction false} ManyStable<T(!new)>(get: seq<byte> -> Parsed<T>, n: nat, s: seq<byte>, t: seq<byte>)
    requires Stable(get)
    ensures GetMany(get, n, s).Ok? ==> Reread(GetMany(get, n, s), GetMany(get, n, s + t), s, t)
  {
    if n > 0 && get(s).Ok? {
      assert Reread(get(s), get(s + t), s, t);
      ManyStable(get, n - 1, get(s).value.1, t);
    }
  }

  ghost predicate CountedStable<T(!new)>(get: seq<byte> -> Parsed<T>) {
    forall s, t {:trigger GetCounted(get, s + t)} ::
      GetCounted(get, s).Ok? ==> Reread(GetCounted(get, s), GetCounted(get, s + t), s, t)
  }

  lemma CountedIsStable<T(!new)>(get: seq<byte> -> Parsed<T>)
    requires Stable(get)
    ensures CountedStable(get)
  {
    PrimitivesAreStable();
    forall s, t | GetCounted(get, s).Ok?
      ensures Reread(GetCounted(get, s), GetCounted(get, s + t), s, t)
    {
      ManyStable(get, GetU16(s).value.0, GetU16(s).value.1, t);
    }
  }

  lemma EntriesAreStable()
    ensures Stable(GetMatch) && Stable(GetSlot) && Stable(GetCell) && Stable(GetNpc) && Stable(GetGround)
      && Stable(GetMember)
  {
    PrimitivesAreStable();
    hide GetU8, GetU16, GetU32, GetI32, GetU64, GetFlag, GetText;
  }

  lemma OutfitIsStable()
    ensures Stable(GetOutfit)
  {
    PrimitivesAreStable();
    hide GetFlag, GetText, GetMany;
    forall s, t | GetEquipment(s).Ok?
      ensures Reread(GetEquipment(s), GetEquipment(s + t), s, t)
    {
      ManyStable<Text>(GetText, GetU8(s).value.0, GetU8(s).value.1, t);
    }
  }

  lemma PlayerIsStable()
    ensures Stable(GetPlayer)
  {
    PrimitivesAreStable();
    OutfitIsStable();
    hide GetU8, GetU16, GetU32, GetI32, GetU64, GetFlag, GetText, GetOutfit;
  }

  lemma ListsAreStable()
    ensures Stable(GetMatchList) && Stable(GetInventory) && Stable(GetCatalog) && Stable(GetSnapshot)
      && Stable(GetClanReview)
  {
    PrimitivesAreStable();
    EntriesAreStable();
    PlayerIsStable();
    CountedIsStable(GetMatch);
    CountedIsStable(GetSlot);
    CountedIsStable<Text>(GetText);
    CountedIsStable(GetPlayer);
    CountedIsStable(GetNpc);
    CountedIsStable(GetGround);
    CountedIsStable(GetMember);
    hide GetU8, GetU16, GetU32, GetI32, GetU64, GetFlag, GetText, GetCounted;
  }

  lemma WorldMapIsStable()
    ensures Stable(GetWorldMap)
  {
    PrimitivesAreStable();
    EntriesAreStable();
    hide GetU16, GetCell, GetMany;
    forall s, t | GetWorldMap(s).Ok?
      ensures Reread(GetWorldMap(s), GetWorldMap(s + t), s, t)
    {
      var (w, s1) := GetU16(s).value;
      var (h, s2) := GetU16(s1).value;
      var n: nat := w * h;
      ManyStable(GetCell, n, s2, t);
    }
  }

  lemma PlainUpdatesAreStable()
    ensures Stable(GetLoginOk) && Stable(GetMatchCreated) && Stable(GetMatchJoined) && Stable(GetJoined)
    ensures Stable(GetPlayerLeft) && Stable(GetMoved) && Stable(GetDeath) && Stable(GetRevive) && Stable(GetMeditate)
    ensures Stable(GetNpcInteract) && Stable(GetChatMsg) && Stable(GetSystemMsg) && Stable(GetError)
    ensures Stable(GetClanResult) && Stable(GetAttacked)
  {
    PrimitivesAreStable();
    hide GetU8, GetU16, GetU32, GetI32, GetU64, GetFlag, GetText;
  }

  lemma BodyIsStable(op: byte)
    ensures forall s, t {:trigger GetBody(op, s + t)} :: GetBody(op, s).Ok? ==>
      Reread(GetBody(op, s), GetBody(op, s + t), s, t)
  {
    ListsAreStable();
    WorldMapIsStable();
    PlainUpdatesAreStable();
    hide GetMatchList, GetMatchJoined, GetSnapshot, GetJoined, GetPlayerLeft, GetWorldMap, GetMoved, GetDeath,
      GetAttacked, GetInventory, GetCatalog, GetNpcInteract, GetChatMsg, GetSystemMsg, GetClanResult, GetClanReview,
      GetError, GetLoginOk, GetMatchCreated, GetRevive, GetMeditate;
  }

  lemma DecodeIsStable()
    ensures Stable(Decode)
  {
    PrimitivesAreStable();
    forall s, t | Decode(s).Ok? ensures Reread(Decode(s), Decode(s + t), s, t) {
      assert Reread(GetU8(s), GetU8(s + t), s, t);
      BodyIsStable(GetU8(s).value.0);
    }
  }

  lemma DecodeConsumes(s: seq<byte>)
    ensures Decode(s).Ok? ==> |Decode(s).value.1| < |s|
  {
    if GetU8(s).Ok? {
      var (op, t) := GetU8(s).value;
      BodyIsStable(op);
      assert t + [] == t;
    }
  }

  // ---- The two loops ----

  /** What a client ends up with: updates are read until one cannot be. */
  function ReadAll(s: seq<byte>): seq<Update>
    decreases |s|
  {
    DecodeConsumes(s);
    match Decode(s)
    case Err(_) => []
    case Ok((u, rest)) => [u] + ReadAll(rest)
  }

  /** A piece of an update short of the whole is not taken for an update. */
  lemma CutUpdate(u: Update, part: seq<byte>)
    requires Sendable(u) && CountsFit(u) && part < Encode(u, [])
    ensures Decode(part).Err?
  {
    hide Encode, Decode;
    if Decode(part).Ok? {
      var tail := Encode(u, [])[|part|..];
      assert part + tail == Encode(u, []);
      DecodeIsStable();
      RoundTrip(u, []);
    }
  }

  /** Nothing, or a strict beginning of some update the server sends. */
  ghost predicate Piece(part: seq<byte>) {
    part == [] || exists u :: Sendable(u) && CountsFit(u) && part < Encode(u, [])
  }

  /** Wherever the stream breaks off, the client gets exactly the updates that got through whole, in order. */
  lemma {:induction false} BrokenStream(us: seq<Update>, part: seq<byte>)
    requires forall u | u in us :: Sendable(u) && CountsFit(u)
    requires Piece(part)
    ensures ReadAll(Many(Encode, us, part)) == Each(Received, us)
  {
    hide Encode, Decode, Received;
    if us == [] {
      assert Decode(part).Err? by {
        if part == [] {
          EmptyStream();
        } else {
          var u :| Sendable(u) && CountsFit(u) && part < Encode(u, []);
          CutUpdate(u, part);
        }
      }
    } else {
      RoundTrip(us[0], Many(Encode, us[1..], part));
      BrokenStream(us[1..], part);
      assert Each(Received, us) == [Received(us[0])] + Each(Received, us[1..]);
    }
  }

  lemma EmptyStream()
    ensures Decode([]).Err?
  {
  }

  /**
   * The server's sending loop over the updates queued for a client: it ends at the first that cannot be sent, or
   * where the connection fails, with a part of that update sent.
   */
  method RunSender(server: ServerProtocol, us: seq<Update>, accepts: nat -> nat)
    returns (count: nat, ghost part: seq<byte>)
    modifies server.socket`sent
    ensures count <= |us| && forall u | u in us[..count] :: Sendable(u)
    ensures server.socket.sent == old(server.socket.sent) + Many(Encode, us[..count], part)
    ensures part == [] || (count < |us| && Sendable(us[count]) && part < Encode(us[count], []))
    ensures (forall k :: 0 < accepts(k)) ==> part == [] && (count == |us| || !Sendable(us[count]))
  {
    hide Encode, Sendable;
    count, part := 0, [];
    while count < |us|
      invariant count <= |us| && forall u | u in us[..count] :: Sendable(u)
      invariant forall rest {:trigger server.socket.sent + rest} ::
        server.socket.sent + rest == old(server.socket.sent) + Many(Encode, us[..count], rest)
    {
      ghost var was := server.socket.sent;
      var r := server.SendUpdate(us[count], accepts);
      if r.Err? {
        part := if Sendable(us[count]) then server.socket.sent[|was|..] else [];
        assert server.socket.sent == was + part;
        return;
      }
      assert us[..count + 1] == us[..count] + [us[count]];
      forall rest
        ensures server.socket.sent + rest == old(server.socket.sent) + Many(Encode, us[..count + 1], rest)
      {
        ManyLast(Encode, us[..count], us[count], rest);
        assert was + Encode(us[count], rest)
          == old(server.socket.sent) + Many(Encode, us[..count], Encode(us[count], rest));
      }
      count := count + 1;
    }
    assert server.socket.sent + [] == server.socket.sent;
  }

  /** The client's receiving loop, until the stream ends or makes no sense. */
  method RunReceiver(client: ClientProtocol) returns (updates: seq<Update>)
    modifies client.socket`incoming
    ensures updates == ReadAll(old(client.socket.incoming))
  {
    hide Decode;
    updates := [];
    while true
      invariant updates + ReadAll(client.socket.incoming) == ReadAll(old(client.socket.incoming))
      decreases |client.socket.incoming|
    {
      ghost var s := client.socket.incoming;
      DecodeConsumes(s);
      var u := client.ReceiveUpdate();
      if u.Err? {
        return;
      }
      assert updates + ([u.value] + ReadAll(client.socket.incoming))
        == updates + [u.value] + ReadAll(client.socket.incoming);
      updates := updates + [u.value];
    }
  }

  /**
   * End to end: whatever the queue holds, however the stream is cut up and wherever it fails, the client receives
   * exactly the updates sent whole, in order; all those before the first unsendable one when the connection holds.
   */
  method Converse(us: seq<Update>, accepts: nat -> nat) returns (received: seq<Update>, count: nat)
    requires forall u | u in us && Sendable(u) :: CountsFit(u)
    ensures count <= |us| && received == Each(Received, us[..count])
    ensures forall i | 0 <= i < count :: Delivers(us[i], received[i])
    ensures forall u | u in us[..count] :: Sendable(u)
    ensures (forall k :: 0 < accepts(k)) ==> count == |us| || !Sendable(us[count])
  {
    hide Sendable, CountsFit, Received, Encode, ReadAll, Delivers;
    var out := new Socket([]);
    var server := new ServerProtocol(out);
    ghost var part;
    count, part := RunSender(server, us, accepts);
    BrokenStream(us[..count], part);
    assert out.sent == Many(Encode, us[..count], part);
    var socket := new Socket(out.sent);
    var client := new ClientProtocol(socket);
    received := RunReceiver(client);
    forall i | 0 <= i < count ensures Delivers(us[i], received[i]) {
      assert us[i] == us[..count][i];
      DeliversReceived(us[i]);
    }
  }

  /** An error message too long for its length field stops the sending: nothing after it gets out. */
  method StuckBehind() returns (received: seq<Update>, count: nat)
    ensures received == [] && count == 0 && Sendable(LoginOk(1))
  {
    var tooLong := ErrorUpdate(1, 0, seq(MAX16 + 1, _ => 0));
    assert !Sendable(tooLong);
    received, count := Converse([tooLong, LoginOk(1)], k => k + 1);
    if 0 < count {
      FirstOfSome([tooLong, LoginOk(1)], count);
    }
  }

  lemma FirstOfSome(us: seq<Update>, count: nat)
    requires 0 < count <= |us| && forall u | u in us[..count] :: Sendable(u)
    ensures Sendable(us[0])
  {
    assert us[..count][0] == us[0];
  }
}
