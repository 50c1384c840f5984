/** What the client gets of each kind of update, and the bytes that carry it. */
module Deliveries {
  import opened Prelude
  import opened Bytes
  import opened Wire
  import opened Updates
  import opened RoundTrips

  /** The client reads this, and nothing of what follows. */
  ghost predicate Delivers(u: Update, v: Update) {
    forall t :: Decode(Encode(u, t)) == Ok((v, t))
  }

  lemma DeliversReceived(u: Update)
    requires Sendable(u) && CountsFit(u)
    ensures Delivers(u, Received(u))
  {
    hide Decode, Encode, Received, Sendable, CountsFit;
    forall t
      ensures Decode(Encode(u, t)) == Ok((Received(u), t))
    {
      RoundTrip(u, t);
    }
  }

  lemma DeliversOnly(u: Update, v: Update, w: Update)
    requires Delivers(u, v) && Delivers(u, w)
    ensures v == w
  {
    hide Decode, Encode;
    assert Decode(Encode(u, [])) == Ok((v, []));
  }

  // ---- Lobby and players ----

  lemma LobbyDeliveries(p: u32, m: u32, restored: bool, r: byte, k: byte, code: byte, to: u32, detail: Text,
                        matches: seq<MatchInfo>)
    requires |detail| <= MAX16 && |matches| <= MAX16 && forall i | i in matches :: |i.name| <= MAX16
    ensures Delivers(LoginOk(p), LoginOk(p))
    ensures Delivers(MatchList(matches), MatchList(matches))
    ensures Delivers(MatchCreated(m), MatchCreated(m))
    ensures Delivers(MatchJoined(m, p, restored, r, k), MatchJoined(m, p, restored, r, k))
    ensures Delivers(ErrorUpdate(to, code, detail), ErrorUpdate(0, code, detail))
  {
    hide Delivers;
    DeliversReceived(LoginOk(p));
    DeliversReceived(MatchList(matches));
    DeliversReceived(MatchCreated(m));
    DeliversReceived(MatchJoined(m, p, restored, r, k));
    DeliversReceived(ErrorUpdate(to, code, detail));
  }

  /** A spawn arrives as a join: the same player in the same place. */
  lemma PlayerDeliveries(p: u32, nick: Text, r: byte, k: byte, x: i32, y: i32, clan: u32)
    requires |nick| <= MAX16
    ensures Delivers(PlayerJoined(p, nick, r, k, x, y), PlayerJoined(p, nick, r, k, x, y))
    ensures Delivers(Spawned(p, nick, r, k, x, y), PlayerJoined(p, nick, r, k, x, y))
    ensures Delivers(PlayerLeft(p, nick, clan), PlayerLeft(p, nick, clan))
    ensures Delivers(Moved(p, x, y), Moved(p, x, y))
  {
    hide Delivers;
    DeliversReceived(PlayerJoined(p, nick, r, k, x, y));
    DeliversReceived(Spawned(p, nick, r, k, x, y));
    DeliversReceived(PlayerLeft(p, nick, clan));
    DeliversReceived(Moved(p, x, y));
  }

  // ---- The world ----

  /** Every cell, every player with what is worn, every NPC and every pile, in order and field by field. */
  lemma WorldDeliveries(w: u16, h: u16, cells: seq<CellData>, tick: u32, players: seq<PlayerSnapshot>,
                        npcs: seq<NpcSnapshot>, ground: seq<GroundSnapshot>)
    requires w * h == |cells|
    requires |players| <= MAX16 && |npcs| <= MAX16 && |ground| <= MAX16
    requires forall p | p in players ::
               |p.nick| <= MAX16 && |p.equipment| <= 255 && forall e | e in p.equipment :: |e| <= MAX16
    requires (forall n | n in npcs :: |n.name| <= MAX16) && forall g | g in ground :: |g.name| <= MAX16
    ensures Delivers(WorldMapUpdate(w, h, cells), WorldMapUpdate(w, h, cells))
    ensures Delivers(Snapshot(tick, players, npcs, ground), Snapshot(tick, players, npcs, ground))
  {
    hide Delivers;
    DeliversReceived(WorldMapUpdate(w, h, cells));
    DeliversReceived(Snapshot(tick, players, npcs, ground));
  }

  /** Fights, deaths and recoveries, without the player they were routed to. */
  lemma FightDeliveries(to: u32, result: AttackResult, dead: u32, killer: u32, status: byte)
    requires |result.name| <= MAX16
    ensures Delivers(Attacked(to, result), Attacked(0, result))
    ensures Delivers(Death(dead, killer), Death(dead, killer))
    ensures Delivers(Revive(to, status), Revive(0, status))
    ensures Delivers(Meditate(to, status), Meditate(0, status))
  {
    hide Delivers;
    DeliversReceived(Attacked(to, result));
    DeliversReceived(Death(dead, killer));
    DeliversReceived(Revive(to, status));
    DeliversReceived(Meditate(to, status));
  }

  /** Inventories and what the city NPCs answer; an answer comes without the catalogue, which is sent by itself. */
  lemma TradeDeliveries(to: u32, slots: seq<SlotData>, gold: u64, names: seq<Text>, vault: bool, kind: byte,
                        status: byte, item: Text)
    requires |slots| <= MAX16 && forall s | s in slots :: |s.name| <= MAX16
    requires |names| <= MAX16 && (forall n | n in names :: |n| <= MAX16) && |item| <= MAX16
    ensures Delivers(InventoryUpdate(to, slots, gold), InventoryUpdate(to, slots, gold))
    ensures Delivers(Catalog(to, names, gold, vault), Catalog(0, names, gold, vault))
    ensures Delivers(NpcInteract(to, kind, status, item, gold, names), NpcInteract(0, kind, status, item, gold, []))
  {
    hide Delivers;
    DeliversReceived(InventoryUpdate(to, slots, gold));
    DeliversReceived(Catalog(to, names, gold, vault));
    DeliversReceived(NpcInteract(to, kind, status, item, gold, names));
  }

  lemma TalkDeliveries(sender: u32, nick: Text, text: Text, to: u32, isPrivate: bool, action: byte, status: byte,
                       clan: Text, actor: Text, other: u32)
    requires |nick| <= MAX16 && |text| <= MAX16 && |clan| <= MAX16 && |actor| <= MAX16
    ensures Delivers(ChatMsg(sender, nick, text, to, isPrivate), ChatMsg(sender, nick, text, 0, isPrivate))
    ensures Delivers(SystemMsg(to, text), SystemMsg(to, text))
    ensures Delivers(ClanResult(to, action, status, clan, actor, other, nick),
                     ClanResult(0, action, status, clan, actor, other, nick))
  {
    hide Delivers;
    DeliversReceived(ChatMsg(sender, nick, text, to, isPrivate));
    DeliversReceived(SystemMsg(to, text));
    DeliversReceived(ClanResult(to, action, status, clan, actor, other, nick));
  }

  /** A clan review: the members as they are, the applicants in order and without a founder's mark. */
  lemma ReviewDelivery(to: u32, clan: Text, members: seq<MemberInfo>, pending: seq<MemberInfo>, seen: seq<MemberInfo>)
    requires |clan| <= MAX16 && |members| <= MAX16 && |pending| == |seen| <= MAX16
    requires (forall m | m in members :: |m.nick| <= MAX16) && forall m | m in pending :: |m.nick| <= MAX16
    requires forall i | 0 <= i < |pending| ::
               seen[i] == MemberInfo(pending[i].id, pending[i].nick, false, pending[i].online)
    ensures Delivers(ClanReview(to, clan, members, pending), ClanReview(0, clan, members, seen))
  {
    hide Delivers;
    DeliversReceived(ClanReview(to, clan, members, pending));
    assert Each(NotFounder, pending) == seen;
  }

  // ---- Bytes ----

  lemma BigEndianShort(a: byte, b: byte, t: seq<byte>)
    ensures U16(256 * a + b, t) == [a, b] + t
  {
  }

  lemma LastDigit(q: nat, d: byte)
    ensures (256 * q + d) / 256 == q && (256 * q + d) % 256 == d
  {
  }

  lemma FourDigits(a: byte, b: byte, c: byte, d: byte)
    ensures Octets(0x100_0000 * a + 0x1_0000 * b + 256 * c + d) == [a, b, c, d]
  {
    var upper, half := 0x1_0000 * a + 256 * b + c, 256 * a + b;
    LastDigit(upper, d);
    LastDigit(half, c);
    LastDigit(a, b);
    assert 256 * upper + d == 0x100_0000 * a + 0x1_0000 * b + 256 * c + d && 256 * half + c == upper;
  }

  /** Integers travel with the most significant byte first, negative ones in two's complement. */
  lemma BigEndian(a: byte, b: byte, c: byte, d: byte, t: seq<byte>)
    ensures U32(0x100_0000 * a + 0x1_0000 * b + 256 * c + d, t) == [a, b, c, d] + t
    ensures a < 128 ==> I32(0x100_0000 * a + 0x1_0000 * b + 256 * c + d, t) == [a, b, c, d] + t
    ensures a >= 128 ==> I32(0x100_0000 * (a - 256) + 0x1_0000 * b + 256 * c + d, t) == [a, b, c, d] + t
  {
    FourDigits(a, b, c, d);
    hide Octets, GetU32, GetI32;
  }

  lemma HighAndLow(hi: nat, lo: nat)
    requires lo < 0x1_0000_0000
    ensures (0x1_0000_0000 * hi + lo) / 0x1_0000_0000 == hi && (0x1_0000_0000 * hi + lo) % 0x1_0000_0000 == lo
  {
  }

  lemma BigEndianLong(hi: u32, lo: u32, t: seq<byte>)
    ensures U64(0x1_0000_0000 * hi + lo, t) == U32(hi, U32(lo, t))
  {
    hide U32, GetU64;
    HighAndLow(hi, lo);
  }

  /** A flag is one byte, 1 or 0; a text is its length in two bytes and then its own bytes. */
  lemma FlagsAndTexts(v: bool, a: byte, b: byte, s: Text, t: seq<byte>)
    requires |s| == 256 * a + b
    ensures U8(a, t) == [a] + t && Flag(v, t) == [if v then 1 else 0] + t
    ensures PutText(s, t) == [a, b] + s + t
  {
    BigEndianShort(a, b, s + t);
    hide U16, GetU16;
  }

  /** The first byte tells the kinds apart. */
  lemma FirstBytes(u: Update, t: seq<byte>)
    ensures var op := Encode(u, t)[0];
            && (u.LoginOk? <==> op == 0x81) && (u.MatchList? <==> op == 0x82) && (u.MatchCreated? <==> op == 0x83)
            && (u.MatchJoined? <==> op == 0x84) && (u.Snapshot? <==> op == 0x85) && (u.PlayerJoined? <==> op == 0x86)
            && (u.PlayerLeft? <==> op == 0x87) && (u.Spawned? <==> op == 0x88) && (u.WorldMapUpdate? <==> op == 0x89)
            && (u.Moved? <==> op == 0x90) && (u.Death? <==> op == 0x92) && (u.Revive? <==> op == 0x93)
            && (u.Attacked? <==> op == 0x94) && (u.Meditate? <==> op == 0x95)
            && (u.InventoryUpdate? <==> op == 0xA0) && (u.Catalog? <==> op == 0xA1) && (u.NpcInteract? <==> op == 0xA2)
            && (u.ChatMsg? <==> op == 0xB0) && (u.SystemMsg? <==> op == 0xB1)
            && (u.ClanResult? <==> op == 0xC0) && (u.ClanReview? <==> op == 0xC1) && (u.ErrorUpdate? <==> op == 0xEE)
  {
    hide PutBody;
  }
}
