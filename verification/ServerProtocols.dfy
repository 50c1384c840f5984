/** The server's side of the connection: updates are built field by field in a buffer and sent. */
module ServerProtocols {
  import opened Prelude
  import opened Bytes
  import opened Wire
  import opened Updates

  /** The buffer holds what it held and then the body of the update, in front of whatever is appended later. */
  ghost predicate Appended(was: seq<byte>, now: seq<byte>, u: Update) {
    forall rest {:trigger now + rest} :: now + rest == was + PutBody(u, rest)
  }

  /** A writer throws exactly when the update cannot be sent; otherwise it appends the body. */
  ghost predicate Written(r: Outcome, was: seq<byte>, now: seq<byte>, u: Update) {
    if Sendable(u) then r.Ok? && Appended(was, now, u) else r == Err(TOO_LONG)
  }

  class ServerProtocol {
    const socket: Socket

    constructor (socket: Socket)
      ensures this.socket == socket
    {
      this.socket := socket;
    }

    /** An update leaves whole or not at all, unless the connection fails in the middle of it. */
    method SendUpdate(u: Update, accepts: nat -> nat) returns (r: Outcome)
      modifies socket`sent
      ensures !Sendable(u) ==> r == Err(TOO_LONG) && socket.sent == old(socket.sent)
      ensures r.Ok? ==> forall rest {:trigger socket.sent + rest} ::
        socket.sent + rest == old(socket.sent) + Encode(u, rest)
      ensures old(socket.sent) <= socket.sent
      ensures Sendable(u) ==> socket.sent <= old(socket.sent) + Encode(u, [])
      ensures Sendable(u) && r.Err? ==> socket.sent != old(socket.sent) + Encode(u, [])
      ensures Sendable(u) && (forall k :: 0 < accepts(k)) ==> r.Ok?
    {
      hide PutBody, Sendable, Opcode;
      var buf := new Buffer();
      buf.PutU8(Opcode(u));
      var _ :- PutUpdate(buf, u);
      assert buf.bytes == buf.bytes + [] == Encode(u, []);
      var sending := socket.SendAll(buf.bytes, accepts);
      return if sending.Ok? then Ok(()) else Err(FAILED(sending.error));
    }

    static method PutUpdate(buf: Buffer, u: Update) returns (r: Outcome)
      modifies buf
      ensures Written(r, old(buf.bytes), buf.bytes, u)
    {
      hide Appended, PutBody, Sendable;
      match u
      case LoginOk(_) => r := PutLoginOk(buf, u);
      case MatchList(_) => r := PutMatchList(buf, u);
      case MatchCreated(_) => r := PutMatchCreated(buf, u);
      case MatchJoined(_, _, _, _, _) => r := PutMatchJoined(buf, u);
      case PlayerJoined(_, _, _, _, _, _) => r := PutPlayerJoined(buf, u);
      case PlayerLeft(_, _, _) => r := PutPlayerLeft(buf, u);
      case Spawned(_, _, _, _, _, _) => r := PutSpawned(buf, u);
      case WorldMapUpdate(_, _, _) => r := PutWorldMapUpdate(buf, u);
      case Snapshot(_, _, _, _) => r := PutSnapshot(buf, u);
      case Moved(_, _, _) => r := PutMoved(buf, u);
      case Attacked(_, _) => r := PutAttacked(buf, u);
      case Death(_, _) => r := PutDeath(buf, u);
      case Revive(_, _) => r := PutRevive(buf, u);
      case Meditate(_, _) => r := PutMeditate(buf, u);
      case InventoryUpdate(_, _, _) => r := PutInventoryUpdate(buf, u);
      case Catalog(_, _, _, _) => r := PutCatalog(buf, u);
      case NpcInteract(_, _, _, _, _, _) => r := PutNpcInteract(buf, u);
      case ChatMsg(_, _, _, _, _) => r := PutChatMsg(buf, u);
      case SystemMsg(_, _) => r := PutSystemMsg(buf, u);
      case ClanResult(_, _, _, _, _, _, _) => r := PutClanResult(buf, u);
      case ClanReview(_, _, _, _) => r := PutClanReview(buf, u);
      case ErrorUpdate(_, _, _) => r := PutErrorUpdate(buf, u);
    }

    static method PutLoginOk(buf: Buffer, u: Update) returns (r: Outcome)
      requires u.LoginOk?
      modifies buf
      ensures Written(r, old(buf.bytes), buf.bytes, u)
    {
      buf.PutU32(u.player);
      return Ok(());
    }

    static method PutMatchList(buf: Buffer, u: Update) returns (r: Outcome)
      requires u.MatchList?
      modifies buf
      ensures Written(r, old(buf.bytes), buf.bytes, u)
    {
      hide PutCounted;
      var _ :- PutMatches(buf, u.matches);
      return Ok(());
    }

    static method PutMatchCreated(buf: Buffer, u: Update) returns (r: Outcome)
      requires u.MatchCreated?
      modifies buf
      ensures Written(r, old(buf.bytes), buf.bytes, u)
    {
      buf.PutU32(u.matchId);
      return Ok(());
    }

    static method PutMatchJoined(buf: Buffer, u: Update) returns (r: Outcome)
      requires u.MatchJoined?
      modifies buf
      ensures Written(r, old(buf.bytes), buf.bytes, u)
    {
      buf.PutU32(u.matchId);
      buf.PutU32(u.player);
      buf.PutFlag(u.restored);
      buf.PutU8(u.race);
      buf.PutU8(u.klass);
      return Ok(());
    }

    static method PutPlayerJoined(buf: Buffer, u: Update) returns (r: Outcome)
      requires u.PlayerJoined?
      modifies buf
      ensures Written(r, old(buf.bytes), buf.bytes, u)
    {
      buf.PutU32(u.player);
      var _ :- buf.PutString(u.nick);
      buf.PutU8(u.race);
      buf.PutU8(u.klass);
      buf.PutI32(u.x);
      buf.PutI32(u.y);
      return Ok(());
    }

    static method PutPlayerLeft(buf: Buffer, u: Update) returns (r: Outcome)
      requires u.PlayerLeft?
      modifies buf
      ensures Written(r, old(buf.bytes), buf.bytes, u)
    {
      buf.PutU32(u.player);
      var _ :- buf.PutString(u.nick);
      buf.PutU32(u.clan);
      return Ok(());
    }

    static method PutSpawned(buf: Buffer, u: Update) returns (r: Outcome)
      requires u.Spawned?
      modifies buf
      ensures Written(r, old(buf.bytes), buf.bytes, u)
    {
      buf.PutU32(u.player);
      var _ :- buf.PutString(u.nick);
      buf.PutU8(u.race);
      buf.PutU8(u.klass);
      buf.PutI32(u.x);
      buf.PutI32(u.y);
      return Ok(());
    }

    static method PutWorldMapUpdate(buf: Buffer, u: Update) returns (r: Outcome)
      requires u.WorldMapUpdate?
      modifies buf
      ensures Written(r, old(buf.bytes), buf.bytes, u)
    {
      if u.width * u.height != |u.cells| {
        return Err(TOO_LONG);
      }
      assert Sendable(u);
      hide U16, Many, PutCell, Sendable;
      buf.PutU16(u.width);
      buf.PutU16(u.height);
      PutCells(buf, u.cells);
      return Ok(());
    }

    static method PutSnapshot(buf: Buffer, u: Update) returns (r: Outcome)
      requires u.Snapshot?
      modifies buf
      ensures Written(r, old(buf.bytes), buf.bytes, u)
    {
      hide U32, PutCounted;
      if |u.players| > MAX16 {
        return Err(TOO_LONG);
      }
      buf.PutU32(u.tick);
      var _ :- PutPlayers(buf, u.players);
      var _ :- PutNpcs(buf, u.npcs);
      var _ :- PutPiles(buf, u.ground);
      return Ok(());
    }

    static method PutMoved(buf: Buffer, u: Update) returns (r: Outcome)
      requires u.Moved?
      modifies buf
      ensures Written(r, old(buf.bytes), buf.bytes, u)
    {
      buf.PutU32(u.player);
      buf.PutI32(u.x);
      buf.PutI32(u.y);
      return Ok(());
    }

    static method PutAttacked(buf: Buffer, u: Update) returns (r: Outcome)
      requires u.Attacked?
      modifies buf
      ensures Written(r, old(buf.bytes), buf.bytes, u)
    {
      hide PutBlow;
      r := PutResult(buf, u.result);
    }

    static method PutDeath(buf: Buffer, u: Update) returns (r: Outcome)
      requires u.Death?
      modifies buf
      ensures Written(r, old(buf.bytes), buf.bytes, u)
    {
      buf.PutU32(u.dead);
      buf.PutU32(u.killer);
      return Ok(());
    }

    static method PutRevive(buf: Buffer, u: Update) returns (r: Outcome)
      requires u.Revive?
      modifies buf
      ensures Written(r, old(buf.bytes), buf.bytes, u)
    {
      buf.PutU8(u.status);
      return Ok(());
    }

    static method PutMeditate(buf: Buffer, u: Update) returns (r: Outcome)
      requires u.Meditate?
      modifies buf
      ensures Written(r, old(buf.bytes), buf.bytes, u)
    {
      buf.PutU8(u.status);
      return Ok(());
    }

    static method PutInventoryUpdate(buf: Buffer, u: Update) returns (r: Outcome)
      requires u.InventoryUpdate?
      modifies buf
      ensures Written(r, old(buf.bytes), buf.bytes, u)
    {
      hide U32, U64, PutCounted;
      buf.PutU32(u.player);
      var _ :- PutSlots(buf, u.slots);
      buf.PutU64(u.gold);
      return Ok(());
    }

    static method PutCatalog(buf: Buffer, u: Update) returns (r: Outcome)
      requires u.Catalog?
      modifies buf
      ensures Written(r, old(buf.bytes), buf.bytes, u)
    {
      hide U64, Flag, PutCounted;
      var _ :- PutNames(buf, u.names);
      buf.PutU64(u.gold);
      buf.PutFlag(u.vault);
      return Ok(());
    }

    static method PutNpcInteract(buf: Buffer, u: Update) returns (r: Outcome)
      requires u.NpcInteract?
      modifies buf
      ensures Written(r, old(buf.bytes), buf.bytes, u)
    {
      buf.PutU8(u.kind);
      buf.PutU8(u.status);
      var _ :- buf.PutString(u.item);
      buf.PutU64(u.gold);
      return Ok(());
    }

    static method PutChatMsg(buf: Buffer, u: Update) returns (r: Outcome)
      requires u.ChatMsg?
      modifies buf
      ensures Written(r, old(buf.bytes), buf.bytes, u)
    {
      buf.PutU32(u.sender);
      var _ :- buf.PutString(u.nick);
      var _ :- buf.PutString(u.text);
      buf.PutFlag(u.isPrivate);
      return Ok(());
    }

    static method PutSystemMsg(buf: Buffer, u: Update) returns (r: Outcome)
      requires u.SystemMsg?
      modifies buf
      ensures Written(r, old(buf.bytes), buf.bytes, u)
    {
      buf.PutU32(u.to);
      var _ :- buf.PutString(u.text);
      return Ok(());
    }

    static method PutClanResult(buf: Buffer, u: Update) returns (r: Outcome)
      requires u.ClanResult?
      modifies buf
      ensures Written(r, old(buf.bytes), buf.bytes, u)
    {
      buf.PutU8(u.action);
      buf.PutU8(u.status);
      var _ :- buf.PutString(u.clanName);
      var _ :- buf.PutString(u.actor);
      buf.PutU32(u.other);
      var _ :- buf.PutString(u.otherNick);
      return Ok(());
    }

    static method PutClanReview(buf: Buffer, u: Update) returns (r: Outcome)
      requires u.ClanReview?
      modifies buf
      ensures Written(r, old(buf.bytes), buf.bytes, u)
    {
      hide PutText, PutCounted;
      var _ :- buf.PutString(u.clanName);
      var _ :- PutMembers(buf, u.members);
      var _ :- PutApplicants(buf, u.pending);
      return Ok(());
    }

    static method PutErrorUpdate(buf: Buffer, u: Update) returns (r: Outcome)
      requires u.ErrorUpdate?
      modifies buf
      ensures Written(r, old(buf.bytes), buf.bytes, u)
    {
      buf.PutU8(u.code);
      var _ :- buf.PutString(u.detail);
      return Ok(());
    }

    static method PutMatchInfo(buf: Buffer, m: MatchInfo) returns (r: Outcome)
      modifies buf
      ensures r == if Short(m.name) then Ok(()) else Err(TOO_LONG)
      ensures r.Ok? ==> forall rest {:trigger buf.bytes + rest} ::
        buf.bytes + rest == old(buf.bytes) + PutMatch(m, rest)
    {
      hide U8, U16, U32, I32, U64, Flag, PutText;
      buf.PutU32(m.id);
      var _ :- buf.PutString(m.name);
      buf.PutU8(m.current);
      buf.PutU8(m.max);
      return Ok(());
    }

    static method PutItemSlot(buf: Buffer, s: SlotData) returns (r: Outcome)
      modifies buf
      ensures r == if Short(s.name) then Ok(()) else Err(TOO_LONG)
      ensures r.Ok? ==> forall rest {:trigger buf.bytes + rest} :: buf.bytes + rest == old(buf.bytes) + PutSlot(s, rest)
    {
      hide U8, U16, U32, I32, U64, Flag, PutText;
      var _ :- buf.PutString(s.name);
      buf.PutU32(s.quantity);
      buf.PutFlag(s.equipped);
      return Ok(());
    }

    static method PutPile(buf: Buffer, g: GroundSnapshot) returns (r: Outcome)
      modifies buf
      ensures r == if Short(g.name) then Ok(()) else Err(TOO_LONG)
      ensures r.Ok? ==> forall rest {:trigger buf.bytes + rest} ::
        buf.bytes + rest == old(buf.bytes) + PutGround(g, rest)
    {
      hide U8, U16, U32, I32, U64, Flag, PutText;
      buf.PutI32(g.x);
      buf.PutI32(g.y);
      buf.PutFlag(g.isGold);
      buf.PutU64(g.quantity);
      var _ :- buf.PutString(g.name);
      return Ok(());
    }

    static method PutNpcState(buf: Buffer, n: NpcSnapshot) returns (r: Outcome)
      modifies buf
      ensures r == if Short(n.name) then Ok(()) else Err(TOO_LONG)
      ensures r.Ok? ==> forall rest {:trigger buf.bytes + rest} :: buf.bytes + rest == old(buf.bytes) + PutNpc(n, rest)
    {
      hide U8, U16, U32, I32, U64, Flag, PutText;
      buf.PutU32(n.id);
      var _ :- buf.PutString(n.name);
      buf.PutI32(n.x);
      buf.PutI32(n.y);
      buf.PutI32(n.hp);
      buf.PutI32(n.maxHp);
      buf.PutFlag(n.hostile);
      buf.PutU32(n.kind);
      buf.PutU8(n.direction);
      buf.PutFlag(n.moving);
      return Ok(());
    }

    static method PutClanMember(buf: Buffer, m: MemberInfo) returns (r: Outcome)
      modifies buf
      ensures r == if Short(m.nick) then Ok(()) else Err(TOO_LONG)
      ensures r.Ok? ==> forall rest {:trigger buf.bytes + rest} ::
        buf.bytes + rest == old(buf.bytes) + PutMember(m, rest)
    {
      hide U8, U16, U32, I32, U64, Flag, PutText;
      buf.PutU32(m.id);
      var _ :- buf.PutString(m.nick);
      buf.PutFlag(m.founder);
      buf.PutFlag(m.online);
      return Ok(());
    }

    static method PutApplicant(buf: Buffer, m: MemberInfo) returns (r: Outcome)
      modifies buf
      ensures r == if Short(m.nick) then Ok(()) else Err(TOO_LONG)
      ensures r.Ok? ==> forall rest {:trigger buf.bytes + rest} ::
        buf.bytes + rest == old(buf.bytes) + PutPending(m, rest)
    {
      hide U8, U16, U32, I32, U64, Flag, PutText;
      buf.PutU32(m.id);
      var _ :- buf.PutString(m.nick);
      buf.PutU8(0);
      buf.PutFlag(m.online);
      return Ok(());
    }

    static method PutMatches(buf: Buffer, ms: seq<MatchInfo>) returns (r: Outcome)
      modifies buf
      ensures r == if |ms| <= MAX16 && (forall m | m in ms :: Short(m.name)) then Ok(()) else Err(TOO_LONG)
      ensures r.Ok? ==> forall rest {:trigger buf.bytes + rest} ::
        buf.bytes + rest == old(buf.bytes) + PutCounted<MatchInfo>(PutMatch, ms, rest)
    {
      hide Many, HalfWritten, PutMatch;
      if |ms| > MAX16 {
        return Err(TOO_LONG);
      }
      assert |ms| % 0x1_0000 == |ms|;
      buf.PutU16(|ms|);
      ghost var start := buf.bytes;
      NoneWritten<MatchInfo>(PutMatch, ms, start);
      for i := 0 to |ms|
        invariant forall m | m in ms[..i] :: Short(m.name)
        invariant HalfWritten<MatchInfo>(PutMatch, ms, i, start, buf.bytes)
      {
        ghost var was := buf.bytes;
        var _ :- PutMatchInfo(buf, ms[i]);
        OneMore<MatchInfo>(PutMatch, ms, i, start, was, buf.bytes);
      }
      assert ms[..|ms|] == ms;
      AllWritten<MatchInfo>(PutMatch, ms, start, buf.bytes);
      return Ok(());
    }

    static method PutSlots(buf: Buffer, ss: seq<SlotData>) returns (r: Outcome)
      modifies buf
      ensures r == if |ss| <= MAX16 && (forall s | s in ss :: Short(s.name)) then Ok(()) else Err(TOO_LONG)
      ensures r.Ok? ==> forall rest {:trigger buf.bytes + rest} ::
        buf.bytes + rest == old(buf.bytes) + PutCounted<SlotData>(PutSlot, ss, rest)
    {
      hide Many, HalfWritten, PutSlot;
      if |ss| > MAX16 {
        return Err(TOO_LONG);
      }
      assert |ss| % 0x1_0000 == |ss|;
      buf.PutU16(|ss|);
      ghost var start := buf.bytes;
      NoneWritten<SlotData>(PutSlot, ss, start);
      for i := 0 to |ss|
        invariant forall s | s in ss[..i] :: Short(s.name)
        invariant HalfWritten<SlotData>(PutSlot, ss, i, start, buf.bytes)
      {
        ghost var was := buf.bytes;
        var _ :- PutItemSlot(buf, ss[i]);
        OneMore<SlotData>(PutSlot, ss, i, start, was, buf.bytes);
      }
      assert ss[..|ss|] == ss;
      AllWritten<SlotData>(PutSlot, ss, start, buf.bytes);
      return Ok(());
    }

    static method PutNames(buf: Buffer, ns: seq<Text>) returns (r: Outcome)
      modifies buf
      ensures r == if |ns| <= MAX16 && (forall n | n in ns :: Short(n)) then Ok(()) else Err(TOO_LONG)
      ensures r.Ok? ==> forall rest {:trigger buf.bytes + rest} ::
        buf.bytes + rest == old(buf.bytes) + PutCounted<Text>(PutText, ns, rest)
    {
      hide Many, HalfWritten, PutText;
      if |ns| > MAX16 {
        return Err(TOO_LONG);
      }
      assert |ns| % 0x1_0000 == |ns|;
      buf.PutU16(|ns|);
      ghost var start := buf.bytes;
      NoneWritten<Text>(PutText, ns, start);
      for i := 0 to |ns|
        invariant forall n | n in ns[..i] :: Short(n)
        invariant HalfWritten<Text>(PutText, ns, i, start, buf.bytes)
      {
        ghost var was := buf.bytes;
        assert Short(ns[i]) <==> |ns[i]| <= MAX16;
        var _ :- buf.PutString(ns[i]);
        OneMore<Text>(PutText, ns, i, start, was, buf.bytes);
      }
      assert ns[..|ns|] == ns;
      AllWritten<Text>(PutText, ns, start, buf.bytes);
      return Ok(());
    }

    static method PutPlayers(buf: Buffer, ps: seq<PlayerSnapshot>) returns (r: Outcome)
      modifies buf
      ensures r == if |ps| <= MAX16 && (forall p | p in ps :: Short(p.nick) && forall e | e in p.equipment :: Short(e))
                   then Ok(()) else Err(TOO_LONG)
      ensures r.Ok? ==> forall rest {:trigger buf.bytes + rest} ::
        buf.bytes + rest == old(buf.bytes) + PutCounted<PlayerSnapshot>(PutPlayer, ps, rest)
    {
      hide Many, HalfWritten, PutPlayer;
      if |ps| > MAX16 {
        return Err(TOO_LONG);
      }
      assert |ps| % 0x1_0000 == |ps|;
      buf.PutU16(|ps|);
      ghost var start := buf.bytes;
      NoneWritten<PlayerSnapshot>(PutPlayer, ps, start);
      for i := 0 to |ps|
        invariant forall p | p in ps[..i] :: (Short(p.nick) && forall e | e in p.equipment :: Short(e))
        invariant HalfWritten<PlayerSnapshot>(PutPlayer, ps, i, start, buf.bytes)
      {
        ghost var was := buf.bytes;
        var _ :- PutPlayerState(buf, ps[i]);
        OneMore<PlayerSnapshot>(PutPlayer, ps, i, start, was, buf.bytes);
      }
      assert ps[..|ps|] == ps;
      AllWritten<PlayerSnapshot>(PutPlayer, ps, start, buf.bytes);
      return Ok(());
    }

    static method PutNpcs(buf: Buffer, ns: seq<NpcSnapshot>) returns (r: Outcome)
      modifies buf
      ensures r == if |ns| <= MAX16 && (forall n | n in ns :: Short(n.name)) then Ok(()) else Err(TOO_LONG)
      ensures r.Ok? ==> forall rest {:trigger buf.bytes + rest} ::
        buf.bytes + rest == old(buf.bytes) + PutCounted<NpcSnapshot>(PutNpc, ns, rest)
    {
      hide Many, HalfWritten, PutNpc;
      if |ns| > MAX16 {
        return Err(TOO_LONG);
      }
      assert |ns| % 0x1_0000 == |ns|;
      buf.PutU16(|ns|);
      ghost var start := buf.bytes;
      NoneWritten<NpcSnapshot>(PutNpc, ns, start);
      for i := 0 to |ns|
        invariant forall n | n in ns[..i] :: Short(n.name)
        invariant HalfWritten<NpcSnapshot>(PutNpc, ns, i, start, buf.bytes)
      {
        ghost var was := buf.bytes;
        var _ :- PutNpcState(buf, ns[i]);
        OneMore<NpcSnapshot>(PutNpc, ns, i, start, was, buf.bytes);
      }
      assert ns[..|ns|] == ns;
      AllWritten<NpcSnapshot>(PutNpc, ns, start, buf.bytes);
      return Ok(());
    }

    static method PutPiles(buf: Buffer, gs: seq<GroundSnapshot>) returns (r: Outcome)
      modifies buf
      ensures r == if |gs| <= MAX16 && (forall g | g in gs :: Short(g.name)) then Ok(()) else Err(TOO_LONG)
      ensures r.Ok? ==> forall rest {:trigger buf.bytes + rest} ::
        buf.bytes + rest == old(buf.bytes) + PutCounted<GroundSnapshot>(PutGround, gs, rest)
    {
      hide Many, HalfWritten, PutGround;
      if |gs| > MAX16 {
        return Err(TOO_LONG);
      }
      assert |gs| % 0x1_0000 == |gs|;
      buf.PutU16(|gs|);
      ghost var start := buf.bytes;
      NoneWritten<GroundSnapshot>(PutGround, gs, start);
      for i := 0 to |gs|
        invariant forall g | g in gs[..i] :: Short(g.name)
        invariant HalfWritten<GroundSnapshot>(PutGround, gs, i, start, buf.bytes)
      {
        ghost var was := buf.bytes;
        var _ :- PutPile(buf, gs[i]);
        OneMore<GroundSnapshot>(PutGround, gs, i, start, was, buf.bytes);
      }
      assert gs[..|gs|] == gs;
      AllWritten<GroundSnapshot>(PutGround, gs, start, buf.bytes);
      return Ok(());
    }

    static method PutMembers(buf: Buffer, ms: seq<MemberInfo>) returns (r: Outcome)
      modifies buf
      ensures r == if (forall m | m in ms :: Short(m.nick)) then Ok(()) else Err(TOO_LONG)
      ensures r.Ok? ==> forall rest {:trigger buf.bytes + rest} ::
        buf.bytes + rest == old(buf.bytes) + PutCounted<MemberInfo>(PutMember, ms, rest)
    {
      hide Many, HalfWritten, PutMember;
      buf.PutU16(|ms| % 0x1_0000);
      ghost var start := buf.bytes;
      NoneWritten<MemberInfo>(PutMember, ms, start);
      for i := 0 to |ms|
        invariant forall m | m in ms[..i] :: Short(m.nick)
        invariant HalfWritten<MemberInfo>(PutMember, ms, i, start, buf.bytes)
      {
        ghost var was := buf.bytes;
        var _ :- PutClanMember(buf, ms[i]);
        OneMore<MemberInfo>(PutMember, ms, i, start, was, buf.bytes);
      }
      assert ms[..|ms|] == ms;
      AllWritten<MemberInfo>(PutMember, ms, start, buf.bytes);
      return Ok(());
    }

    static method PutApplicants(buf: Buffer, ms: seq<MemberInfo>) returns (r: Outcome)
      modifies buf
      ensures r == if (forall m | m in ms :: Short(m.nick)) then Ok(()) else Err(TOO_LONG)
      ensures r.Ok? ==> forall rest {:trigger buf.bytes + rest} ::
        buf.bytes + rest == old(buf.bytes) + PutCounted<MemberInfo>(PutPending, ms, rest)
    {
      hide Many, HalfWritten, PutPending;
      buf.PutU16(|ms| % 0x1_0000);
      ghost var start := buf.bytes;
      NoneWritten<MemberInfo>(PutPending, ms, start);
      for i := 0 to |ms|
        invariant forall m | m in ms[..i] :: Short(m.nick)
        invariant HalfWritten<MemberInfo>(PutPending, ms, i, start, buf.bytes)
      {
        ghost var was := buf.bytes;
        var _ :- PutApplicant(buf, ms[i]);
        OneMore<MemberInfo>(PutPending, ms, i, start, was, buf.bytes);
      }
      assert ms[..|ms|] == ms;
      AllWritten<MemberInfo>(PutPending, ms, start, buf.bytes);
      return Ok(());
    }

    static method PutCells(buf: Buffer, cells: seq<CellData>)
      modifies buf
      ensures forall rest {:trigger buf.bytes + rest} ::
        buf.bytes + rest == old(buf.bytes) + Many<CellData>(PutCell, cells, rest)
    {
      hide Many, HalfWritten;
      ghost var start := buf.bytes;
      NoneWritten<CellData>(PutCell, cells, start);
      for i := 0 to |cells|
        invariant HalfWritten<CellData>(PutCell, cells, i, start, buf.bytes)
      {
        ghost var was := buf.bytes;
        buf.PutU8(cells[i].terrain);
        buf.PutFlag(cells[i].blocking);
        OneMore<CellData>(PutCell, cells, i, start, was, buf.bytes);
      }
      AllWritten<CellData>(PutCell, cells, start, buf.bytes);
    }

    static method PutPlayerState(buf: Buffer, p: PlayerSnapshot) returns (r: Outcome)
      modifies buf
      ensures r == if Short(p.nick) && forall e | e in p.equipment :: Short(e) then Ok(()) else Err(TOO_LONG)
      ensures r.Ok? ==> forall rest {:trigger buf.bytes + rest} ::
        buf.bytes + rest == old(buf.bytes) + PutPlayer(p, rest)
    {
      hide U8, U32, I32, PutText, PutRest;
      buf.PutU32(p.id);
      var _ :- buf.PutString(p.nick);
      buf.PutU8(p.race);
      buf.PutU8(p.klass);
      buf.PutI32(p.x);
      buf.PutI32(p.y);
      buf.PutI32(p.hp);
      buf.PutI32(p.maxHp);
      r := PutPlayerRest(buf, p);
    }

    static method PutPlayerRest(buf: Buffer, p: PlayerSnapshot) returns (r: Outcome)
      modifies buf
      ensures r == if forall e | e in p.equipment :: Short(e) then Ok(()) else Err(TOO_LONG)
      ensures r.Ok? ==> forall rest {:trigger buf.bytes + rest} :: buf.bytes + rest == old(buf.bytes) + PutRest(p, rest)
    {
      hide U16, U32, I32, U64, Flag, PutOutfit;
      buf.PutI32(p.mp);
      buf.PutI32(p.maxMp);
      buf.PutU64(p.xp);
      buf.PutU64(p.gold);
      buf.PutU16(p.level);
      buf.PutFlag(p.ghostly);
      buf.PutFlag(p.meditating);
      buf.PutU32(p.clan);
      r := PutWornItems(buf, p);
    }

    static method PutWornItems(buf: Buffer, p: PlayerSnapshot) returns (r: Outcome)
      modifies buf
      ensures r == if forall e | e in p.equipment :: Short(e) then Ok(()) else Err(TOO_LONG)
      ensures r.Ok? ==> forall rest {:trigger buf.bytes + rest} ::
        buf.bytes + rest == old(buf.bytes) + PutOutfit(p, rest)
    {
      hide Many, HalfWritten;
      buf.PutU8(|p.equipment| % 256);
      ghost var start := buf.bytes;
      NoneWritten<Text>(PutText, p.equipment, start);
      for i := 0 to |p.equipment|
        invariant forall e | e in p.equipment[..i] :: Short(e)
        invariant HalfWritten<Text>(PutText, p.equipment, i, start, buf.bytes)
      {
        ghost var was := buf.bytes;
        assert Short(p.equipment[i]) <==> |p.equipment[i]| <= MAX16;
        var _ :- buf.PutString(p.equipment[i]);
        OneMore<Text>(PutText, p.equipment, i, start, was, buf.bytes);
      }
      assert p.equipment[..|p.equipment|] == p.equipment;
      AllWritten<Text>(PutText, p.equipment, start, buf.bytes);
      buf.PutU8(p.direction);
      buf.PutFlag(p.moving);
      return Ok(());
    }

    static method PutResult(buf: Buffer, a: AttackResult) returns (r: Outcome)
      modifies buf
      ensures r == if Short(a.name) then Ok(()) else Err(TOO_LONG)
      ensures r.Ok? ==> forall rest {:trigger buf.bytes + rest} :: buf.bytes + rest == old(buf.bytes) + PutBlow(a, rest)
    {
      hide U8, U32, I32, Flag, PutText;
      buf.PutU32(a.attacker);
      buf.PutU32(a.target);
      buf.PutI32(a.damage);
      buf.PutFlag(a.evaded);
      buf.PutFlag(a.died);
      buf.PutFlag(a.critical);
      buf.PutFlag(a.healing);
      buf.PutI32(a.healed);
      buf.PutU8(a.kind);
      var _ :- buf.PutString(a.name);
      buf.PutU8(a.status);
      buf.PutU32(a.targetClan);
      return Ok(());
    }
  }
}
