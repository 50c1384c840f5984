/** Server to client: what the server writes for each update, and what the client makes of it. */
module Updates {
  import opened Prelude
  import opened Bytes
  import opened Wire

  datatype MatchInfo = MatchInfo(id: u32, name: Text, current: byte, max: byte)

  datatype SlotData = SlotData(name: Text, quantity: u32, equipped: bool)

  datatype CellData = CellData(terrain: byte, blocking: bool)

  datatype PlayerSnapshot = PlayerSnapshot(
    id: u32, nick: Text, race: byte, klass: byte, x: i32, y: i32, hp: i32, maxHp: i32, mp: i32, maxMp: i32,
    xp: u64, gold: u64, level: u16, ghostly: bool, meditating: bool, clan: u32, equipment: seq<Text>,
    direction: byte, moving: bool)

  datatype NpcSnapshot = NpcSnapshot(
    id: u32, name: Text, x: i32, y: i32, hp: i32, maxHp: i32, hostile: bool, kind: u32, direction: byte, moving: bool)

  datatype GroundSnapshot = GroundSnapshot(x: i32, y: i32, isGold: bool, quantity: u64, name: Text)

  datatype MemberInfo = MemberInfo(id: u32, nick: Text, founder: bool, online: bool)

  datatype AttackResult = AttackResult(
    attacker: u32, target: u32, damage: i32, evaded: bool, died: bool, critical: bool, healing: bool, healed: i32,
    kind: byte, name: Text, status: byte, targetClan: u32)

  /** Updates as the server holds them; to is the player an update is routed to, 0 for all. */
  datatype Update =
    | LoginOk(player: u32)
    | MatchList(matches: seq<MatchInfo>)
    | MatchCreated(matchId: u32)
    | MatchJoined(matchId: u32, player: u32, restored: bool, race: byte, klass: byte)
    | PlayerJoined(player: u32, nick: Text, race: byte, klass: byte, x: i32, y: i32)
    | PlayerLeft(player: u32, nick: Text, clan: u32)
    | Spawned(player: u32, nick: Text, race: byte, klass: byte, x: i32, y: i32)
    | WorldMapUpdate(width: u16, height: u16, cells: seq<CellData>)
    | Snapshot(tick: u32, players: seq<PlayerSnapshot>, npcs: seq<NpcSnapshot>, ground: seq<GroundSnapshot>)
    | Moved(player: u32, x: i32, y: i32)
    | Attacked(to: u32, result: AttackResult)
    | Death(dead: u32, killer: u32)
    | Revive(to: u32, status: byte)
    | Meditate(to: u32, status: byte)
    | InventoryUpdate(player: u32, slots: seq<SlotData>, gold: u64)
    | Catalog(to: u32, names: seq<Text>, gold: u64, vault: bool)
    | NpcInteract(to: u32, kind: byte, status: byte, item: Text, gold: u64, names: seq<Text>)
    | ChatMsg(sender: u32, nick: Text, text: Text, to: u32, isPrivate: bool)
    | SystemMsg(to: u32, text: Text)
    | ClanResult(to: u32, action: byte, status: byte, clanName: Text, actor: Text, other: u32, otherNick: Text)
    | ClanReview(to: u32, clanName: Text, members: seq<MemberInfo>, pending: seq<MemberInfo>)
    | ErrorUpdate(to: u32, code: byte, detail: Text)

  // ---- What the server writes ----

  function PutMatch(m: MatchInfo, t: seq<byte>): seq<byte> {
    U32(m.id, PutText(m.name, U8(m.current, U8(m.max, t))))
  }

  function PutSlot(s: SlotData, t: seq<byte>): seq<byte> {
    PutText(s.name, U32(s.quantity, Flag(s.equipped, t)))
  }

  function PutCell(c: CellData, t: seq<byte>): seq<byte> {
    U8(c.terrain, Flag(c.blocking, t))
  }

  function PutPlayer(p: PlayerSnapshot, t: seq<byte>): seq<byte> {
    U32(p.id, PutText(p.nick, U8(p.race, U8(p.klass, I32(p.x, I32(p.y, I32(p.hp, I32(p.maxHp, PutRest(p, t)))))))))
  }

  function PutRest(p: PlayerSnapshot, t: seq<byte>): seq<byte> {
    I32(p.mp, I32(p.maxMp, U64(p.xp, U64(p.gold, U16(p.level, Flag(p.ghostly, Flag(p.meditating, U32(p.clan,
      PutOutfit(p, t)))))))))
  }

  /** The number of worn items travels in one byte. */
  function PutOutfit(p: PlayerSnapshot, t: seq<byte>): seq<byte> {
    U8(|p.equipment| % 256, Many<Text>(PutText, p.equipment, U8(p.direction, Flag(p.moving, t))))
  }

  function PutNpc(n: NpcSnapshot, t: seq<byte>): seq<byte> {
    U32(n.id, PutText(n.name, I32(n.x, I32(n.y, I32(n.hp, I32(n.maxHp, Flag(n.hostile, U32(n.kind,
      U8(n.direction, Flag(n.moving, t))))))))))
  }

  function PutGround(g: GroundSnapshot, t: seq<byte>): seq<byte> {
    I32(g.x, I32(g.y, Flag(g.isGold, U64(g.quantity, PutText(g.name, t)))))
  }

  function PutMember(m: MemberInfo, t: seq<byte>): seq<byte> {
    U32(m.id, PutText(m.nick, Flag(m.founder, Flag(m.online, t))))
  }

  function PutPending(m: MemberInfo, t: seq<byte>): seq<byte> {
    U32(m.id, PutText(m.nick, U8(0, Flag(m.online, t))))
  }

  function PutBlow(r: AttackResult, t: seq<byte>): seq<byte> {
    U32(r.attacker, U32(r.target, I32(r.damage, Flag(r.evaded, Flag(r.died, Flag(r.critical, Flag(r.healing,
      PutEffect(r, t))))))))
  }

  function PutEffect(r: AttackResult, t: seq<byte>): seq<byte> {
    I32(r.healed, U8(r.kind, PutText(r.name, U8(r.status, U32(r.targetClan, t)))))
  }

  /** A list in front of its length in 16 bits. */
  function PutCounted<T>(put: (T, seq<byte>) -> seq<byte>, xs: seq<T>, t: seq<byte>): seq<byte> {
    U16(|xs| % 0x1_0000, Many(put, xs, t))
  }

  function Opcode(u: Update): byte {
    match u
    case LoginOk(_) => 0x81
    case MatchList(_) => 0x82
    case MatchCreated(_) => 0x83
    case MatchJoined(_, _, _, _, _) => 0x84
    case Snapshot(_, _, _, _) => 0x85
    case PlayerJoined(_, _, _, _, _, _) => 0x86
    case PlayerLeft(_, _, _) => 0x87
    case Spawned(_, _, _, _, _, _) => 0x88
    case WorldMapUpdate(_, _, _) => 0x89
    case Moved(_, _, _) => 0x90
    case Death(_, _) => 0x92
    case Revive(_, _) => 0x93
    case Attacked(_, _) => 0x94
    case Meditate(_, _) => 0x95
    case InventoryUpdate(_, _, _) => 0xA0
    case Catalog(_, _, _, _) => 0xA1
    case NpcInteract(_, _, _, _, _, _) => 0xA2
    case ChatMsg(_, _, _, _, _) => 0xB0
    case SystemMsg(_, _) => 0xB1
    case ClanResult(_, _, _, _, _, _, _) => 0xC0
    case ClanReview(_, _, _, _) => 0xC1
    case ErrorUpdate(_, _, _) => 0xEE
  }

  function PutBody(u: Update, t: seq<byte>): seq<byte> {
    match u
    case LoginOk(p) => U32(p, t)
    case MatchList(ms) => PutCounted<MatchInfo>(PutMatch, ms, t)
    case MatchCreated(m) => U32(m, t)
    case MatchJoined(m, p, restored, r, k) => U32(m, U32(p, Flag(restored, U8(r, U8(k, t)))))
    case PlayerJoined(p, nick, r, k, x, y) => U32(p, PutText(nick, U8(r, U8(k, I32(x, I32(y, t))))))
    case PlayerLeft(p, nick, c) => U32(p, PutText(nick, U32(c, t)))
    case Spawned(p, nick, r, k, x, y) => U32(p, PutText(nick, U8(r, U8(k, I32(x, I32(y, t))))))
    case WorldMapUpdate(w, h, cells) => U16(w, U16(h, Many<CellData>(PutCell, cells, t)))
    case Snapshot(tick, ps, ns, gs) =>
      U32(tick, PutCounted<PlayerSnapshot>(PutPlayer, ps, PutCounted<NpcSnapshot>(PutNpc, ns,
        PutCounted<GroundSnapshot>(PutGround, gs, t))))
    case Moved(p, x, y) => U32(p, I32(x, I32(y, t)))
    case Attacked(_, r) => PutBlow(r, t)
    case Death(d, k) => U32(d, U32(k, t))
    case Revive(_, status) => U8(status, t)
    case Meditate(_, status) => U8(status, t)
    case InventoryUpdate(p, slots, gold) => U32(p, PutCounted<SlotData>(PutSlot, slots, U64(gold, t)))
    case Catalog(_, names, gold, vault) => PutCounted<Text>(PutText, names, U64(gold, Flag(vault, t)))
    case NpcInteract(_, kind, status, item, gold, _) => U8(kind, U8(status, PutText(item, U64(gold, t))))
    case ChatMsg(sender, nick, text, _, priv) => U32(sender, PutText(nick, PutText(text, Flag(priv, t))))
    case SystemMsg(to, text) => U32(to, PutText(text, t))
    case ClanResult(_, action, status, clan, actor, other, nick) =>
      U8(action, U8(status, PutText(clan, PutText(actor, U32(other, PutText(nick, t))))))
    case ClanReview(_, clan, members, pending) =>
      PutText(clan, PutCounted<MemberInfo>(PutMember, members, PutCounted<MemberInfo>(PutPending, pending, t)))
    case ErrorUpdate(_, code, detail) => U8(code, PutText(detail, t))
  }

  /** The bytes of an update, in front of whatever follows. */
  function Encode(u: Update, t: seq<byte>): seq<byte> {
    U8(Opcode(u), PutBody(u, t))
  }

  predicate Short(s: Text) {
    |s| <= MAX16
  }

  /** What the server checks while it writes; anything else makes the send throw and nothing is sent. */
  predicate Sendable(u: Update) {
    match u
    case MatchList(ms) => |ms| <= MAX16 && forall m | m in ms :: Short(m.name)
    case PlayerJoined(_, nick, _, _, _, _) => Short(nick)
    case PlayerLeft(_, nick, _) => Short(nick)
    case Spawned(_, nick, _, _, _, _) => Short(nick)
    case WorldMapUpdate(w, h, cells) => w * h == |cells|
    case Snapshot(_, ps, ns, gs) =>
      && |ps| <= MAX16 && |ns| <= MAX16 && |gs| <= MAX16
      && (forall p | p in ps :: Short(p.nick) && forall e | e in p.equipment :: Short(e))
      && (forall n | n in ns :: Short(n.name))
      && (forall g | g in gs :: Short(g.name))
    case Attacked(_, r) => Short(r.name)
    case InventoryUpdate(_, slots, _) => |slots| <= MAX16 && forall s | s in slots :: Short(s.name)
    case Catalog(_, names, _, _) => |names| <= MAX16 && forall n | n in names :: Short(n)
    case NpcInteract(_, _, _, item, _, _) => Short(item)
    case ChatMsg(_, nick, text, _, _) => Short(nick) && Short(text)
    case SystemMsg(_, text) => Short(text)
    case ClanResult(_, _, _, clan, actor, _, nick) => Short(clan) && Short(actor) && Short(nick)
    case ClanReview(_, clan, members, pending) =>
      && Short(clan) && (forall m | m in members :: Short(m.nick)) && (forall m | m in pending :: Short(m.nick))
    case ErrorUpdate(_, _, detail) => Short(detail)
    case _ => true
  }

  /** What the server does not check: the counts it narrows to the width of their field. */
  predicate CountsFit(u: Update) {
    match u
    case Snapshot(_, ps, _, _) => forall p | p in ps :: |p.equipment| <= 255
    case ClanReview(_, _, members, pending) => |members| <= MAX16 && |pending| <= MAX16
    case _ => true
  }

  function NotFounder(m: MemberInfo): MemberInfo {
    m.(founder := false)
  }

  /**
   * The update the client ends up with. The wire carries no routing ids but those of inventories and system
   * messages, no catalogue inside an interaction result and no founder mark on pending members; a spawn arrives
   * as a join.
   */
  function Received(u: Update): Update {
    match u
    case Spawned(p, nick, r, k, x, y) => PlayerJoined(p, nick, r, k, x, y)
    case Attacked(_, r) => Attacked(0, r)
    case Revive(_, status) => Revive(0, status)
    case Meditate(_, status) => Meditate(0, status)
    case Catalog(_, names, gold, vault) => Catalog(0, names, gold, vault)
    case NpcInteract(_, kind, status, item, gold, _) => NpcInteract(0, kind, status, item, gold, [])
    case ChatMsg(sender, nick, text, _, priv) => ChatMsg(sender, nick, text, 0, priv)
    case ClanResult(_, action, status, clan, actor, other, nick) =>
      ClanResult(0, action, status, clan, actor, other, nick)
    case ClanReview(_, clan, members, pending) => ClanReview(0, clan, members, Each(NotFounder, pending))
    case ErrorUpdate(_, code, detail) => ErrorUpdate(0, code, detail)
    case _ => u
  }

  // ---- What the client reads ----

  function GetMatch(s: seq<byte>): Parsed<MatchInfo> {
    var (id, s) :- GetU32(s);
    var (name, s) :- GetText(s);
    var (current, s) :- GetU8(s);
    var (max, s) :- GetU8(s);
    Ok((MatchInfo(id, name, current, max), s))
  }

  function GetSlot(s: seq<byte>): Parsed<SlotData> {
    var (name, s) :- GetText(s);
    var (quantity, s) :- GetU32(s);
    var (equipped, s) :- GetFlag(s);
    Ok((SlotData(name, quantity, equipped), s))
  }

  function GetCell(s: seq<byte>): Parsed<CellData> {
    var (terrain, s) :- GetU8(s);
    var (blocking, s) :- GetFlag(s);
    Ok((CellData(terrain, blocking), s))
  }

  function GetQuad(s: seq<byte>): Parsed<(i32, i32, i32, i32)> {
    var (a, s) :- GetI32(s);
    var (b, s) :- GetI32(s);
    var (c, s) :- GetI32(s);
    var (d, s) :- GetI32(s);
    Ok(((a, b, c, d), s))
  }

  function GetIdentity(s: seq<byte>): Parsed<(u32, Text, byte, byte)> {
    var (id, s) :- GetU32(s);
    var (nick, s) :- GetText(s);
    var (race, s) :- GetU8(s);
    var (klass, s) :- GetU8(s);
    Ok(((id, nick, race, klass), s))
  }

  function GetWealth(s: seq<byte>): Parsed<(i32, i32, u64, u64)> {
    var (mp, s) :- GetI32(s);
    var (maxMp, s) :- GetI32(s);
    var (xp, s) :- GetU64(s);
    var (gold, s) :- GetU64(s);
    Ok(((mp, maxMp, xp, gold), s))
  }

  function GetStanding(s: seq<byte>): Parsed<(u16, bool, bool, u32)> {
    var (level, s) :- GetU16(s);
    var (ghostly, s) :- GetFlag(s);
    var (meditating, s) :- GetFlag(s);
    var (clan, s) :- GetU32(s);
    Ok(((level, ghostly, meditating, clan), s))
  }

  function GetEquipment(s: seq<byte>): Parsed<seq<Text>> {
    var (count, s) :- GetU8(s);
    GetMany(GetText, count, s)
  }

  function GetOutfit(s: seq<byte>): Parsed<(seq<Text>, byte, bool)> {
    var (equipment, s) :- GetEquipment(s);
    var (direction, s) :- GetU8(s);
    var (moving, s) :- GetFlag(s);
    Ok(((equipment, direction, moving), s))
  }

  function GetPlayer(s: seq<byte>): Parsed<PlayerSnapshot> {
    var (a, s) :- GetIdentity(s);
    var (b, s) :- GetQuad(s);
    var (c, s) :- GetWealth(s);
    var (d, s) :- GetStanding(s);
    var (e, s) :- GetOutfit(s);
    Ok((PlayerSnapshot(a.0, a.1, a.2, a.3, b.0, b.1, b.2, b.3, c.0, c.1, c.2, c.3, d.0, d.1, d.2, d.3,
                       e.0, e.1, e.2), s))
  }

  function GetManner(s: seq<byte>): Parsed<(bool, u32, byte, bool)> {
    var (hostile, s) :- GetFlag(s);
    var (kind, s) :- GetU32(s);
    var (direction, s) :- GetU8(s);
    var (moving, s) :- GetFlag(s);
    Ok(((hostile, kind, direction, moving), s))
  }

  function GetNpc(s: seq<byte>): Parsed<NpcSnapshot> {
    var (id, s) :- GetU32(s);
    var (name, s) :- GetText(s);
    var (a, s) :- GetQuad(s);
    var (b, s) :- GetManner(s);
    Ok((NpcSnapshot(id, name, a.0, a.1, a.2, a.3, b.0, b.1, b.2, b.3), s))
  }

  function GetGround(s: seq<byte>): Parsed<GroundSnapshot> {
    var (x, s) :- GetI32(s);
    var (y, s) :- GetI32(s);
    var (isGold, s) :- GetFlag(s);
    var (quantity, s) :- GetU64(s);
    var (name, s) :- GetText(s);
    Ok((GroundSnapshot(x, y, isGold, quantity, name), s))
  }

  function GetMember(s: seq<byte>): Parsed<MemberInfo> {
    var (id, s) :- GetU32(s);
    var (nick, s) :- GetText(s);
    var (founder, s) :- GetFlag(s);
    var (online, s) :- GetFlag(s);
    Ok((MemberInfo(id, nick, founder, online), s))
  }

  function GetCounted<T>(get: seq<byte> -> Parsed<T>, s: seq<byte>): Parsed<seq<T>> {
    var (n, s) :- GetU16(s);
    GetMany(get, n, s)
  }

  function GetJoined(s: seq<byte>): Parsed<Update> {
    var (a, s) :- GetIdentity(s);
    var (x, s) :- GetI32(s);
    var (y, s) :- GetI32(s);
    Ok((PlayerJoined(a.0, a.1, a.2, a.3, x, y), s))
  }

  function GetSnapshot(s: seq<byte>): Parsed<Update> {
    var (tick, s) :- GetU32(s);
    var (players, s) :- GetCounted(GetPlayer, s);
    var (npcs, s) :- GetCounted(GetNpc, s);
    var (ground, s) :- GetCounted(GetGround, s);
    Ok((Snapshot(tick, players, npcs, ground), s))
  }

  function GetBlow(s: seq<byte>): Parsed<(u32, u32, i32)> {
    var (attacker, s) :- GetU32(s);
    var (target, s) :- GetU32(s);
    var (damage, s) :- GetI32(s);
    Ok(((attacker, target, damage), s))
  }

  function GetFlags(s: seq<byte>): Parsed<(bool, bool, bool, bool)> {
    var (a, s) :- GetFlag(s);
    var (b, s) :- GetFlag(s);
    var (c, s) :- GetFlag(s);
    var (d, s) :- GetFlag(s);
    Ok(((a, b, c, d), s))
  }

  function GetEffect(s: seq<byte>): Parsed<(i32, byte, Text, byte, u32)> {
    var (healed, s) :- GetI32(s);
    var (kind, s) :- GetU8(s);
    var (name, s) :- GetText(s);
    var (status, s) :- GetU8(s);
    var (clan, s) :- GetU32(s);
    Ok(((healed, kind, name, status, clan), s))
  }

  function GetAttacked(s: seq<byte>): Parsed<Update> {
    var (a, s) :- GetBlow(s);
    var (b, s) :- GetFlags(s);
    var (c, s) :- GetEffect(s);
    Ok((Attacked(0, AttackResult(a.0, a.1, a.2, b.0, b.1, b.2, b.3, c.0, c.1, c.2, c.3, c.4)), s))
  }

  function GetClanResult(s: seq<byte>): Parsed<Update> {
    var (action, s) :- GetU8(s);
    var (status, s) :- GetU8(s);
    var (clan, s) :- GetText(s);
    var (actor, s) :- GetText(s);
    var (other, s) :- GetU32(s);
    var (nick, s) :- GetText(s);
    Ok((ClanResult(0, action, status, clan, actor, other, nick), s))
  }

  function GetClanReview(s: seq<byte>): Parsed<Update> {
    var (clan, s) :- GetText(s);
    var (members, s) :- GetCounted(GetMember, s);
    var (pending, s) :- GetCounted(GetMember, s);
    Ok((ClanReview(0, clan, members, pending), s))
  }

  function GetLoginOk(s: seq<byte>): Parsed<Update> {
    var (p, s) :- GetU32(s);
    Ok((LoginOk(p), s))
  }

  function GetMatchCreated(s: seq<byte>): Parsed<Update> {
    var (m, s) :- GetU32(s);
    Ok((MatchCreated(m), s))
  }

  function GetRevive(s: seq<byte>): Parsed<Update> {
    var (status, s) :- GetU8(s);
    Ok((Revive(0, status), s))
  }

  function GetMeditate(s: seq<byte>): Parsed<Update> {
    var (status, s) :- GetU8(s);
    Ok((Meditate(0, status), s))
  }

  function GetMatchList(s: seq<byte>): Parsed<Update> {
    var (ms, s) :- GetCounted(GetMatch, s);
    Ok((MatchList(ms), s))
  }

  function GetMatchJoined(s: seq<byte>): Parsed<Update> {
    var (m, s) :- GetU32(s);
    var (p, s) :- GetU32(s);
    var (restored, s) :- GetFlag(s);
    var (race, s) :- GetU8(s);
    var (klass, s) :- GetU8(s);
    Ok((MatchJoined(m, p, restored, race, klass), s))
  }

  function GetPlayerLeft(s: seq<byte>): Parsed<Update> {
    var (p, s) :- GetU32(s);
    var (nick, s) :- GetText(s);
    var (clan, s) :- GetU32(s);
    Ok((PlayerLeft(p, nick, clan), s))
  }

  function GetWorldMap(s: seq<byte>): Parsed<Update> {
    var (w, s) :- GetU16(s);
    var (h, s) :- GetU16(s);
    var (cells, s) :- GetMany(GetCell, w * h, s);
    Ok((WorldMapUpdate(w, h, cells), s))
  }

  function GetMoved(s: seq<byte>): Parsed<Update> {
    var (p, s) :- GetU32(s);
    var (x, s) :- GetI32(s);
    var (y, s) :- GetI32(s);
    Ok((Moved(p, x, y), s))
  }

  function GetDeath(s: seq<byte>): Parsed<Update> {
    var (d, s) :- GetU32(s);
    var (k, s) :- GetU32(s);
    Ok((Death(d, k), s))
  }

  function GetInventory(s: seq<byte>): Parsed<Update> {
    var (p, s) :- GetU32(s);
    var (slots, s) :- GetCounted(GetSlot, s);
    var (gold, s) :- GetU64(s);
    Ok((InventoryUpdate(p, slots, gold), s))
  }

  function GetCatalog(s: seq<byte>): Parsed<Update> {
    var (names, s) :- GetCounted(GetText, s);
    var (gold, s) :- GetU64(s);
    var (vault, s) :- GetFlag(s);
    Ok((Catalog(0, names, gold, vault), s))
  }

  function GetNpcInteract(s: seq<byte>): Parsed<Update> {
    var (kind, s) :- GetU8(s);
    var (status, s) :- GetU8(s);
    var (item, s) :- GetText(s);
    var (gold, s) :- GetU64(s);
    Ok((NpcInteract(0, kind, status, item, gold, []), s))
  }

  function GetChatMsg(s: seq<byte>): Parsed<Update> {
    var (sender, s) :- GetU32(s);
    var (nick, s) :- GetText(s);
    var (text, s) :- GetText(s);
    var (priv, s) :- GetFlag(s);
    Ok((ChatMsg(sender, nick, text, 0, priv), s))
  }

  function GetSystemMsg(s: seq<byte>): Parsed<Update> {
    var (to, s) :- GetU32(s);
    var (text, s) :- GetText(s);
    Ok((SystemMsg(to, text), s))
  }

  function GetError(s: seq<byte>): Parsed<Update> {
    var (code, s) :- GetU8(s);
    var (detail, s) :- GetText(s);
    Ok((ErrorUpdate(0, code, detail), s))
  }

  function GetBody(op: byte, s: seq<byte>): Parsed<Update> {
    match op
    case 0x81 => GetLoginOk(s)
    case 0x82 => GetMatchList(s)
    case 0x83 => GetMatchCreated(s)
    case 0x84 => GetMatchJoined(s)
    case 0x85 => GetSnapshot(s)
    case 0x86 => GetJoined(s)
    case 0x87 => GetPlayerLeft(s)
    case 0x88 => GetJoined(s)
    case 0x89 => GetWorldMap(s)
    case 0x90 => GetMoved(s)
    case 0x92 => GetDeath(s)
    case 0x93 => GetRevive(s)
    case 0x94 => GetAttacked(s)
    case 0x95 => GetMeditate(s)
    case 0xA0 => GetInventory(s)
    case 0xA1 => GetCatalog(s)
    case 0xA2 => GetNpcInteract(s)
    case 0xB0 => GetChatMsg(s)
    case 0xB1 => GetSystemMsg(s)
    case 0xC0 => GetClanResult(s)
    case 0xC1 => GetClanReview(s)
    case 0xEE => GetError(s)
    case _ => Err(MEANINGLESS)
  }

  /** One update off the stream. */
  function Decode(s: seq<byte>): Parsed<Update> {
    var (op, s) :- GetU8(s);
    GetBody(op, s)
  }
}
