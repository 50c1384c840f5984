/** What goes over the wire, byte for byte: the fields of every message in their order. */
module Layouts {
  import opened Prelude
  import opened Bytes
  import opened Wire
  import opened Updates
  import Commands

  function N16(v: u16): seq<byte> {
    U16(v, [])
  }

  function N32(v: u32): seq<byte> {
    U32(v, [])
  }

  function Z32(v: i32): seq<byte> {
    I32(v, [])
  }

  function N64(v: u64): seq<byte> {
    U64(v, [])
  }

  function Yes(v: bool): seq<byte> {
    if v then [1] else [0]
  }

  /** A text and its length before it. */
  function Str(s: Text): seq<byte>
    requires |s| <= MAX16
  {
    N16(|s|) + s
  }

  lemma Numbers(a: u16, b: u32, c: i32, d: u64, t: seq<byte>)
    ensures U16(a, t) == N16(a) + t && U32(b, t) == N32(b) + t && I32(c, t) == Z32(c) + t && U64(d, t) == N64(d) + t
  {
    hide GetU16, GetU32, GetI32, GetU64, Octets;
  }

  lemma AllNumbers()
    ensures forall v: byte, t {:trigger U8(v, t)} :: U8(v, t) == [v] + t
    ensures forall v: u16, t {:trigger U16(v, t)} :: U16(v, t) == N16(v) + t
    ensures forall v: u32, t {:trigger U32(v, t)} :: U32(v, t) == N32(v) + t
    ensures forall v: i32, t {:trigger I32(v, t)} :: I32(v, t) == Z32(v) + t
    ensures forall v: u64, t {:trigger U64(v, t)} :: U64(v, t) == N64(v) + t
    ensures forall v, t {:trigger Flag(v, t)} :: Flag(v, t) == Yes(v) + t
    ensures forall s: Text, t {:trigger PutText(s, t)} :: |s| <= MAX16 ==> PutText(s, t) == Str(s) + t
  {
    hide U16, U32, I32, U64, GetU16, GetU32, GetI32, GetU64;
    forall v: u16, t ensures U16(v, t) == N16(v) + t { Numbers(v, 0, 0, 0, t); }
    forall v: u32, t ensures U32(v, t) == N32(v) + t { Numbers(0, v, 0, 0, t); }
    forall v: i32, t ensures I32(v, t) == Z32(v) + t { Numbers(0, 0, v, 0, t); }
    forall v: u64, t ensures U64(v, t) == N64(v) + t { Numbers(0, 0, 0, v, t); }
    forall s: Text, t | |s| <= MAX16 ensures PutText(s, t) == Str(s) + t {
      Numbers(|s|, 0, 0, 0, s + t);
      assert N16(|s|) + (s + t) == N16(|s|) + s + t;
    }
  }

  // ---- Updates ----

  lemma LobbyLayouts(p: u32, m: u32, restored: bool, r: byte, k: byte, code: byte, to: u32, detail: Text, t: seq<byte>)
    requires |detail| <= MAX16
    ensures Encode(LoginOk(p), t) == [0x81] + (N32(p) + t)
    ensures Encode(MatchCreated(m), t) == [0x83] + (N32(m) + t)
    ensures Encode(MatchJoined(m, p, restored, r, k), t)
            == [0x84] + (N32(m) + (N32(p) + (Yes(restored) + ([r] + ([k] + t)))))
    ensures Encode(ErrorUpdate(to, code, detail), t) == [0xEE] + ([code] + (Str(detail) + t))
  {
    hide U8, U16, U32, I32, U64, Flag, PutText, N16, N32, Z32, N64, Str, Yes;
    hide GetU8, GetU16, GetU32, GetI32, GetU64, GetFlag, GetText;
    AllNumbers();
  }

  lemma PlayerLayouts(p: u32, nick: Text, r: byte, k: byte, x: i32, y: i32, clan: u32, t: seq<byte>)
    requires |nick| <= MAX16
    ensures Encode(PlayerJoined(p, nick, r, k, x, y), t)
            == [0x86] + (N32(p) + (Str(nick) + ([r] + ([k] + (Z32(x) + (Z32(y) + t))))))
    ensures Encode(Spawned(p, nick, r, k, x, y), t)
            == [0x88] + (N32(p) + (Str(nick) + ([r] + ([k] + (Z32(x) + (Z32(y) + t))))))
    ensures Encode(PlayerLeft(p, nick, clan), t) == [0x87] + (N32(p) + (Str(nick) + (N32(clan) + t)))
    ensures Encode(Moved(p, x, y), t) == [0x90] + (N32(p) + (Z32(x) + (Z32(y) + t)))
  {
    hide U8, U16, U32, I32, U64, Flag, PutText, N16, N32, Z32, N64, Str, Yes;
    hide GetU8, GetU16, GetU32, GetI32, GetU64, GetFlag, GetText;
    AllNumbers();
  }

  lemma FightLayouts(to: u32, dead: u32, killer: u32, status: byte, t: seq<byte>)
    ensures Encode(Death(dead, killer), t) == [0x92] + (N32(dead) + (N32(killer) + t))
    ensures Encode(Revive(to, status), t) == [0x93] + ([status] + t)
    ensures Encode(Meditate(to, status), t) == [0x95] + ([status] + t)
  {
    hide U8, U16, U32, I32, U64, Flag, PutText, N16, N32, Z32, N64, Str, Yes;
    hide GetU8, GetU16, GetU32, GetI32, GetU64, GetFlag, GetText;
    AllNumbers();
  }

  lemma AttackLayout(to: u32, r: AttackResult, t: seq<byte>)
    requires |r.name| <= MAX16
    ensures Encode(Attacked(to, r), t)
            == [0x94] + (N32(r.attacker) + (N32(r.target) + (Z32(r.damage) + (Yes(r.evaded) + (Yes(r.died)
               + (Yes(r.critical) + (Yes(r.healing) + (Z32(r.healed) + ([r.kind] + (Str(r.name) + ([r.status]
               + (N32(r.targetClan) + t))))))))))))
  {
    hide U8, U16, U32, I32, U64, Flag, PutText, N16, N32, Z32, N64, Str, Yes;
    hide GetU8, GetU16, GetU32, GetI32, GetU64, GetFlag, GetText;
    AllNumbers();
  }

  lemma TalkLayouts(sender: u32, nick: Text, text: Text, to: u32, isPrivate: bool, action: byte, status: byte,
                    clan: Text, actor: Text, other: u32, t: seq<byte>)
    requires |nick| <= MAX16 && |text| <= MAX16 && |clan| <= MAX16 && |actor| <= MAX16
    ensures Encode(ChatMsg(sender, nick, text, to, isPrivate), t)
            == [0xB0] + (N32(sender) + (Str(nick) + (Str(text) + (Yes(isPrivate) + t))))
    ensures Encode(SystemMsg(to, text), t) == [0xB1] + (N32(to) + (Str(text) + t))
    ensures Encode(ClanResult(to, action, status, clan, actor, other, nick), t)
            == [0xC0] + ([action] + ([status] + (Str(clan) + (Str(actor) + (N32(other) + (Str(nick) + t))))))
  {
    hide U8, U16, U32, I32, U64, Flag, PutText, N16, N32, Z32, N64, Str, Yes;
    hide GetU8, GetU16, GetU32, GetI32, GetU64, GetFlag, GetText;
    AllNumbers();
  }

  /** Lists go behind their length, element by element. */
  lemma ListLayouts(to: u32, matches: seq<MatchInfo>, slots: seq<SlotData>, gold: u64, names: seq<Text>, vault: bool,
                    kind: byte, status: byte, item: Text, t: seq<byte>)
    requires |matches| <= MAX16 && |slots| <= MAX16 && |names| <= MAX16 && |item| <= MAX16
    ensures Encode(MatchList(matches), t) == [0x82] + (N16(|matches|) + Many<MatchInfo>(PutMatch, matches, t))
    ensures Encode(InventoryUpdate(to, slots, gold), t)
            == [0xA0] + (N32(to) + (N16(|slots|) + Many<SlotData>(PutSlot, slots, N64(gold) + t)))
    ensures Encode(Catalog(to, names, gold, vault), t)
            == [0xA1] + (N16(|names|) + Many<Text>(PutText, names, N64(gold) + (Yes(vault) + t)))
    ensures Encode(NpcInteract(to, kind, status, item, gold, names), t)
            == [0xA2] + ([kind] + ([status] + (Str(item) + (N64(gold) + t))))
  {
    hide U8, U16, U32, I32, U64, Flag, PutText, N16, N32, Z32, N64, Str, Yes, Many, PutCounted;
    hide GetU8, GetU16, GetU32, GetI32, GetU64, GetFlag, GetText;
    AllNumbers();
    Counted<MatchInfo>(PutMatch, matches, t);
    Counted<SlotData>(PutSlot, slots, N64(gold) + t);
    Counted<Text>(PutText, names, N64(gold) + (Yes(vault) + t));
  }

  lemma MapLayout(w: u16, h: u16, cells: seq<CellData>, t: seq<byte>)
    ensures Encode(WorldMapUpdate(w, h, cells), t) == [0x89] + (N16(w) + (N16(h) + Many<CellData>(PutCell, cells, t)))
  {
    hide U8, U16, U32, I32, U64, Flag, PutText, N16, N32, Z32, N64, Str, Yes, Many;
    hide GetU8, GetU16, GetU32, GetI32, GetU64, GetFlag, GetText;
    AllNumbers();
  }

  lemma SnapshotLayout(tick: u32, ps: seq<PlayerSnapshot>, ns: seq<NpcSnapshot>, gs: seq<GroundSnapshot>, t: seq<byte>)
    requires |ps| <= MAX16 && |ns| <= MAX16 && |gs| <= MAX16
    ensures Encode(Snapshot(tick, ps, ns, gs), t)
            == [0x85] + (N32(tick) + (N16(|ps|) + Many<PlayerSnapshot>(PutPlayer, ps,
                 N16(|ns|) + Many<NpcSnapshot>(PutNpc, ns, N16(|gs|) + Many<GroundSnapshot>(PutGround, gs, t)))))
  {
    hide U8, U16, U32, I32, U64, Flag, PutText, N16, N32, Z32, N64, Str, Yes, Many, PutCounted;
    hide GetU8, GetU16, GetU32, GetI32, GetU64, GetFlag, GetText;
    AllNumbers();
    Counted<GroundSnapshot>(PutGround, gs, t);
    Counted<NpcSnapshot>(PutNpc, ns, PutCounted<GroundSnapshot>(PutGround, gs, t));
    Counted<PlayerSnapshot>(
      PutPlayer, ps, PutCounted<NpcSnapshot>(PutNpc, ns, PutCounted<GroundSnapshot>(PutGround, gs, t)));
  }

  lemma ReviewLayout(to: u32, clan: Text, members: seq<MemberInfo>, pending: seq<MemberInfo>, t: seq<byte>)
    requires |clan| <= MAX16 && |members| <= MAX16 && |pending| <= MAX16
    ensures Encode(ClanReview(to, clan, members, pending), t)
            == [0xC1] + (Str(clan) + (N16(|members|) + Many<MemberInfo>(PutMember, members,
                 N16(|pending|) + Many<MemberInfo>(PutPending, pending, t))))
  {
    hide U8, U16, U32, I32, U64, Flag, PutText, N16, N32, Z32, N64, Str, Yes, Many, PutCounted;
    hide GetU8, GetU16, GetU32, GetI32, GetU64, GetFlag, GetText;
    AllNumbers();
    Counted<MemberInfo>(PutPending, pending, t);
    Counted<MemberInfo>(PutMember, members, PutCounted<MemberInfo>(PutPending, pending, t));
  }

  // ---- What lists are made of ----

  lemma SmallLayouts(m: MatchInfo, s: SlotData, c: CellData, g: GroundSnapshot, member: MemberInfo, t: seq<byte>)
    requires |m.name| <= MAX16 && |s.name| <= MAX16 && |g.name| <= MAX16 && |member.nick| <= MAX16
    ensures PutMatch(m, t) == N32(m.id) + (Str(m.name) + ([m.current] + ([m.max] + t)))
    ensures PutSlot(s, t) == Str(s.name) + (N32(s.quantity) + (Yes(s.equipped) + t))
    ensures PutCell(c, t) == [c.terrain] + (Yes(c.blocking) + t)
    ensures PutGround(g, t) == Z32(g.x) + (Z32(g.y) + (Yes(g.isGold) + (N64(g.quantity) + (Str(g.name) + t))))
    ensures PutMember(member, t)
            == N32(member.id) + (Str(member.nick) + (Yes(member.founder) + (Yes(member.online) + t)))
    ensures PutPending(member, t) == N32(member.id) + (Str(member.nick) + ([0] + (Yes(member.online) + t)))
  {
    hide U8, U16, U32, I32, U64, Flag, PutText, N16, N32, Z32, N64, Str, Yes;
    hide GetU8, GetU16, GetU32, GetI32, GetU64, GetFlag, GetText;
    AllNumbers();
  }

  lemma PlayerLayout(p: PlayerSnapshot, t: seq<byte>)
    requires |p.nick| <= MAX16
    ensures PutPlayer(p, t)
            == N32(p.id) + (Str(p.nick) + ([p.race] + ([p.klass] + (Z32(p.x) + (Z32(p.y) + (Z32(p.hp) + (Z32(p.maxHp)
               + PutRest(p, t))))))))
  {
    hide U8, U16, U32, I32, U64, Flag, PutText, N16, N32, Z32, N64, Str, Yes, Many;
    hide GetU8, GetU16, GetU32, GetI32, GetU64, GetFlag, GetText;
    AllNumbers();
  }

  lemma RestLayout(p: PlayerSnapshot, t: seq<byte>)
    ensures PutRest(p, t)
            == Z32(p.mp) + (Z32(p.maxMp) + (N64(p.xp) + (N64(p.gold) + (N16(p.level) + (Yes(p.ghostly)
               + (Yes(p.meditating) + (N32(p.clan) + PutOutfit(p, t))))))))
  {
    hide U8, U16, U32, I32, U64, Flag, PutText, N16, N32, Z32, N64, Str, Yes, Many;
    hide GetU8, GetU16, GetU32, GetI32, GetU64, GetFlag, GetText;
    AllNumbers();
  }

  lemma OutfitLayout(p: PlayerSnapshot, t: seq<byte>)
    requires |p.equipment| <= 255
    ensures PutOutfit(p, t)
            == [|p.equipment|] + Many<Text>(PutText, p.equipment, [p.direction] + (Yes(p.moving) + t))
  {
    hide U8, U16, U32, I32, U64, Flag, PutText, N16, N32, Z32, N64, Str, Yes, Many;
    hide GetU8, GetU16, GetU32, GetI32, GetU64, GetFlag, GetText;
    AllNumbers();
  }

  lemma NpcLayout(n: NpcSnapshot, t: seq<byte>)
    requires |n.name| <= MAX16
    ensures PutNpc(n, t)
            == N32(n.id) + (Str(n.name) + (Z32(n.x) + (Z32(n.y) + (Z32(n.hp) + (Z32(n.maxHp) + (Yes(n.hostile)
               + (N32(n.kind) + ([n.direction] + (Yes(n.moving) + t)))))))))
  {
    hide U8, U16, U32, I32, U64, Flag, PutText, N16, N32, Z32, N64, Str, Yes;
    hide GetU8, GetU16, GetU32, GetI32, GetU64, GetFlag, GetText;
    AllNumbers();
  }

  lemma Counted<T>(put: (T, seq<byte>) -> seq<byte>, xs: seq<T>, t: seq<byte>)
    requires |xs| <= MAX16
    ensures PutCounted(put, xs, t) == N16(|xs|) + Many(put, xs, t)
  {
    hide U16, U32, I32, U64, N16, N32, Z32, N64, GetU16, GetU32, GetI32, GetU64, Many;
    Numbers(|xs|, 0, 0, 0, Many(put, xs, t));
  }

  lemma InTurn<T>(put: (T, seq<byte>) -> seq<byte>, x: T, xs: seq<T>, t: seq<byte>)
    ensures Many(put, [], t) == t && Many(put, [x] + xs, t) == put(x, Many(put, xs, t))
  {
    assert ([x] + xs)[1..] == xs;
  }

  // ---- Commands ----

  lemma LobbyCommandLayouts(name: Text, a: byte, n: u32, t: seq<byte>)
    requires |name| <= MAX16
    ensures Commands.Encode(Commands.Login(name), t) == [0x01] + (Str(name) + t)
    ensures Commands.Encode(Commands.ListMatches, t) == [0x02] + t
    ensures Commands.Encode(Commands.CreateMatch(name, a), t) == [0x03] + (Str(name) + ([a] + t))
    ensures Commands.Encode(Commands.JoinMatch(n), t) == [0x04] + (N32(n) + t)
    ensures Commands.Encode(Commands.Disconnect, t) == [0xFF] + t
  {
    hide U8, U16, U32, I32, U64, Flag, PutText, N16, N32, Z32, N64, Str, Yes;
    hide GetU8, GetU16, GetU32, GetI32, GetU64, GetFlag, GetText;
    AllNumbers();
  }

  lemma PlayCommandLayouts(a: byte, b: byte, n: u32, t: seq<byte>)
    ensures Commands.Encode(Commands.SelectRaceClass(a, b), t) == [0x05] + ([a] + ([b] + t))
    ensures Commands.Encode(Commands.Move(a), t) == [0x10] + ([a] + t)
    ensures Commands.Encode(Commands.Attack(n), t) == [0x11] + (N32(n) + t)
    ensures Commands.Encode(Commands.Meditate, t) == [0x12] + t
    ensures Commands.Encode(Commands.PickUp, t) == [0x13] + t
  {
    hide U8, U16, U32, I32, U64, Flag, PutText, N16, N32, Z32, N64, Str, Yes;
    hide GetU8, GetU16, GetU32, GetI32, GetU64, GetFlag, GetText;
    AllNumbers();
  }

  lemma MorePlayCommandLayouts(a: byte, t: seq<byte>)
    ensures Commands.Encode(Commands.DropItem(a), t) == [0x14] + ([a] + t)
    ensures Commands.Encode(Commands.EquipItem(a), t) == [0x15] + ([a] + t)
    ensures Commands.Encode(Commands.Resurrect, t) == [0x18] + t
    ensures Commands.Encode(Commands.Cheat(a), t) == [0x19] + ([a] + t)
    ensures Commands.Encode(Commands.LeaveMatch, t) == [0xFE] + t
  {
    hide U8, U16, U32, I32, U64, Flag, PutText, N16, N32, Z32, N64, Str, Yes;
    hide GetU8, GetU16, GetU32, GetI32, GetU64, GetFlag, GetText;
    AllNumbers();
  }

  lemma TalkCommandLayouts(nick: Text, text: Text, a: byte, t: seq<byte>)
    requires |nick| <= MAX16 && |text| <= MAX16
    ensures Commands.Encode(Commands.Clan(a, text), t) == [0x17] + ([a] + (Str(text) + t))
    ensures Commands.Encode(Commands.Chat(text), t) == [0x20] + (Str(text) + t)
    ensures Commands.Encode(Commands.PrivateChat(nick, text), t) == [0x21] + (Str(nick) + (Str(text) + t))
  {
    hide U8, U16, U32, I32, U64, Flag, PutText, N16, N32, Z32, N64, Str, Yes;
    hide GetU8, GetU16, GetU32, GetI32, GetU64, GetFlag, GetText;
    AllNumbers();
  }

  lemma InteractLayout(n: u32, a: byte, text: Text, amount: i32, t: seq<byte>)
    requires |text| <= MAX16
    ensures Commands.Encode(Commands.Interact(n, a, text, amount), t)
            == [0x16] + (N32(n) + ([a] + (Str(text) + (Z32(amount) + t))))
  {
    hide U8, U16, U32, I32, U64, Flag, PutText, N16, N32, Z32, N64, Str, Yes;
    hide GetU8, GetU16, GetU32, GetI32, GetU64, GetFlag, GetText;
    AllNumbers();
  }
}
