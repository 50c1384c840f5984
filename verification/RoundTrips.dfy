/** What the client reads is what the server wrote: one update, and whole streams of them. */
module RoundTrips {
  import opened Prelude
  import opened Bytes
  import opened Wire
  import opened Updates

  /** A list and the count in front of it. */
  lemma CountedBack<T(!new)>(put: (T, seq<byte>) -> seq<byte>, get: seq<byte> -> Parsed<T>, seen: T -> T,
                             xs: seq<T>, t: seq<byte>)
    requires |xs| <= MAX16
    requires forall i, t | 0 <= i < |xs| :: get(put(xs[i], t)) == Ok((seen(xs[i]), t))
    ensures GetCounted(get, PutCounted(put, xs, t)) == Ok((Each(seen, xs), t))
  {
    ManyReadBack(put, get, seen, xs, t);
    assert GetU16(PutCounted(put, xs, t)) == Ok((|xs|, Many(put, xs, t)));
  }

  lemma CountedSame<T(!new)>(put: (T, seq<byte>) -> seq<byte>, get: seq<byte> -> Parsed<T>, xs: seq<T>, t: seq<byte>)
    requires |xs| <= MAX16
    requires forall i, t | 0 <= i < |xs| :: get(put(xs[i], t)) == Ok((xs[i], t))
    ensures GetCounted(get, PutCounted(put, xs, t)) == Ok((xs, t))
  {
    ManySame(put, get, xs, t);
    assert GetU16(PutCounted(put, xs, t)) == Ok((|xs|, Many(put, xs, t)));
  }

  predicate Outfitted(p: PlayerSnapshot) {
    |p.equipment| <= 255
  }

  lemma TextsBack(xs: seq<Text>, t: seq<byte>)
    requires forall x | x in xs :: Short(x)
    ensures GetMany<Text>(GetText, |xs|, Many<Text>(PutText, xs, t)) == Ok((xs, t))
  {
    var put: (Text, seq<byte>) -> seq<byte> := PutText;
    var get: seq<byte> -> Parsed<Text> := GetText;
    forall i, t | 0 <= i < |xs| ensures get(put(xs[i], t)) == Ok((xs[i], t)) {
      assert Short(xs[i]);
      assert GetText(PutText(xs[i], t)) == Ok((xs[i], t));
    }
    ManySame<Text>(put, get, xs, t);
  }

  lemma OutfitBack(p: PlayerSnapshot, t: seq<byte>)
    requires Outfitted(p) && forall e | e in p.equipment :: Short(e)
    ensures GetOutfit(PutOutfit(p, t)) == Ok(((p.equipment, p.direction, p.moving), t))
  {
    var rest := U8(p.direction, Flag(p.moving, t));
    TextsBack(p.equipment, rest);
    assert GetU8(PutOutfit(p, t)) == Ok((|p.equipment|, Many<Text>(PutText, p.equipment, rest)));
  }

  lemma RestBack(p: PlayerSnapshot, t: seq<byte>)
    ensures var w := GetWealth(PutRest(p, t));
      w.Ok? && w.value.0 == (p.mp, p.maxMp, p.xp, p.gold)
      && GetStanding(w.value.1) == Ok(((p.level, p.ghostly, p.meditating, p.clan), PutOutfit(p, t)))
  {
  }

  lemma PlayerBack(p: PlayerSnapshot, t: seq<byte>)
    requires Short(p.nick) && |p.equipment| <= 255 && forall e | e in p.equipment :: Short(e)
    ensures GetPlayer(PutPlayer(p, t)) == Ok((p, t))
  {
    RestBack(p, t);
    OutfitBack(p, t);
    var quad := I32(p.x, I32(p.y, I32(p.hp, I32(p.maxHp, PutRest(p, t)))));
    assert GetIdentity(PutPlayer(p, t)) == Ok(((p.id, p.nick, p.race, p.klass), quad));
    assert GetQuad(quad) == Ok(((p.x, p.y, p.hp, p.maxHp), PutRest(p, t)));
  }

  lemma NpcBack(n: NpcSnapshot, t: seq<byte>)
    requires Short(n.name)
    ensures GetNpc(PutNpc(n, t)) == Ok((n, t))
  {
  }

  lemma AttackedBack(r: AttackResult, t: seq<byte>)
    requires Short(r.name)
    ensures GetAttacked(PutBlow(r, t)) == Ok((Attacked(0, r), t))
  {
  }

  lemma PlayersBack(ps: seq<PlayerSnapshot>, t: seq<byte>)
    requires |ps| <= MAX16
    requires forall p | p in ps :: Short(p.nick) && Outfitted(p) && forall e | e in p.equipment :: Short(e)
    ensures GetCounted(GetPlayer, PutCounted<PlayerSnapshot>(PutPlayer, ps, t)) == Ok((ps, t))
  {
    forall i, t | 0 <= i < |ps| ensures GetPlayer(PutPlayer(ps[i], t)) == Ok((ps[i], t)) {
      PlayerBack(ps[i], t);
    }
    CountedSame(PutPlayer, GetPlayer, ps, t);
  }

  lemma NpcsBack(ns: seq<NpcSnapshot>, t: seq<byte>)
    requires |ns| <= MAX16 && forall n | n in ns :: Short(n.name)
    ensures GetCounted(GetNpc, PutCounted<NpcSnapshot>(PutNpc, ns, t)) == Ok((ns, t))
  {
    forall i, t | 0 <= i < |ns| ensures GetNpc(PutNpc(ns[i], t)) == Ok((ns[i], t)) {
      NpcBack(ns[i], t);
    }
    CountedSame(PutNpc, GetNpc, ns, t);
  }

  lemma GroundBack(gs: seq<GroundSnapshot>, t: seq<byte>)
    requires |gs| <= MAX16 && forall g | g in gs :: Short(g.name)
    ensures GetCounted(GetGround, PutCounted<GroundSnapshot>(PutGround, gs, t)) == Ok((gs, t))
  {
    CountedSame(PutGround, GetGround, gs, t);
  }

  lemma SnapshotBack(u: Update, t: seq<byte>)
    requires u.Snapshot? && Sendable(u) && CountsFit(u)
    ensures GetSnapshot(PutBody(u, t)) == Ok((u, t))
  {
    var ground := PutCounted<GroundSnapshot>(PutGround, u.ground, t);
    var npcs := PutCounted<NpcSnapshot>(PutNpc, u.npcs, ground);
    PlayersBack(u.players, npcs);
    NpcsBack(u.npcs, ground);
    GroundBack(u.ground, t);
  }

  lemma ClanReviewBack(u: Update, t: seq<byte>)
    requires u.ClanReview? && Sendable(u) && CountsFit(u)
    ensures GetClanReview(PutBody(u, t)) == Ok((Received(u), t))
  {
    CountedBack(PutPending, GetMember, NotFounder, u.pending, t);
    CountedSame(PutMember, GetMember, u.members, PutCounted<MemberInfo>(PutPending, u.pending, t));
  }

  lemma MatchListBack(ms: seq<MatchInfo>, t: seq<byte>)
    requires |ms| <= MAX16 && forall m | m in ms :: Short(m.name)
    ensures GetMatchList(PutCounted<MatchInfo>(PutMatch, ms, t)) == Ok((MatchList(ms), t))
  {
    CountedSame(PutMatch, GetMatch, ms, t);
  }

  lemma WorldMapBack(w: u16, h: u16, cells: seq<CellData>, t: seq<byte>)
    requires w * h == |cells|
    ensures GetWorldMap(U16(w, U16(h, Many<CellData>(PutCell, cells, t)))) == Ok((WorldMapUpdate(w, h, cells), t))
  {
    ManySame(PutCell, GetCell, cells, t);
  }

  lemma InventoryBack(p: u32, slots: seq<SlotData>, gold: u64, t: seq<byte>)
    requires |slots| <= MAX16 && forall s | s in slots :: Short(s.name)
    ensures GetInventory(U32(p, PutCounted<SlotData>(PutSlot, slots, U64(gold, t))))
            == Ok((InventoryUpdate(p, slots, gold), t))
  {
    CountedSame(PutSlot, GetSlot, slots, U64(gold, t));
  }

  lemma CatalogBack(names: seq<Text>, gold: u64, vault: bool, t: seq<byte>)
    requires |names| <= MAX16 && forall n | n in names :: Short(n)
    ensures GetCatalog(PutCounted<Text>(PutText, names, U64(gold, Flag(vault, t))))
            == Ok((Catalog(0, names, gold, vault), t))
  {
    hide GetU64, GetText, U64, PutText, Many, GetMany;
    TextsBack(names, U64(gold, Flag(vault, t)));
  }

  /** What is read back after the opcode. */
  ghost predicate BodyBack(u: Update, t: seq<byte>) {
    GetBody(Opcode(u), PutBody(u, t)) == Ok((Received(u), t))
  }

  lemma ListBodyBack(u: Update, t: seq<byte>)
    requires u.MatchList? || u.WorldMapUpdate? || u.InventoryUpdate? || u.Catalog?
    requires Sendable(u)
    ensures BodyBack(u, t)
  {
    hide GetU8, GetU16, GetU32, GetI32, GetU64, GetFlag, GetText, U8, U16, U32, I32, U64, Flag, PutText;
    hide GetMany, GetCounted, Many, PutCounted, GetMatchList, GetWorldMap, GetInventory, GetCatalog;
    if u.MatchList? {
      MatchListBack(u.matches, t);
    } else if u.WorldMapUpdate? {
      WorldMapBack(u.width, u.height, u.cells, t);
    } else if u.InventoryUpdate? {
      InventoryBack(u.player, u.slots, u.gold, t);
    } else {
      CatalogBack(u.names, u.gold, u.vault, t);
    }
  }

  lemma LongBodyBack(u: Update, t: seq<byte>)
    requires u.Snapshot? || u.ClanReview? || u.Attacked?
    requires Sendable(u) && CountsFit(u)
    ensures BodyBack(u, t)
  {
    hide GetU8, GetU16, GetU32, GetI32, GetU64, GetFlag, GetText, U8, U16, U32, I32, U64, Flag, PutText;
    hide GetMany, GetCounted, Many, PutCounted, GetSnapshot, GetClanReview, GetAttacked, PutBlow;
    if u.Snapshot? {
      SnapshotBack(u, t);
    } else if u.ClanReview? {
      ClanReviewBack(u, t);
    } else {
      AttackedBack(u.result, t);
    }
  }

  lemma PlainBodyBack(u: Update, t: seq<byte>)
    requires !u.MatchList? && !u.WorldMapUpdate? && !u.InventoryUpdate? && !u.Catalog?
    requires !u.Snapshot? && !u.ClanReview? && !u.Attacked?
    requires Sendable(u)
    ensures BodyBack(u, t)
  {
    hide GetU8, GetU16, GetU32, GetI32, GetU64, GetFlag, GetText, U8, U16, U32, I32, U64, Flag, PutText;
  }

  lemma EveryBodyBack(u: Update, t: seq<byte>)
    requires Sendable(u) && CountsFit(u)
    ensures BodyBack(u, t)
  {
    if u.MatchList? || u.WorldMapUpdate? || u.InventoryUpdate? || u.Catalog? {
      ListBodyBack(u, t);
    } else if u.Snapshot? || u.ClanReview? || u.Attacked? {
      LongBodyBack(u, t);
    } else {
      PlainBodyBack(u, t);
    }
  }

  // ---- What cannot be read back: counts the server narrows ----

  lemma {:induction false} ManyAll<T(!new)>(get: seq<byte> -> Parsed<T>, fine: T -> bool, n: nat, s: seq<byte>)
    requires forall t :: get(t).Ok? ==> fine(get(t).value.0)
    ensures GetMany(get, n, s).Ok? ==> forall x | x in GetMany(get, n, s).value.0 :: fine(x)
  {
    if n > 0 && get(s).Ok? {
      ManyAll(get, fine, n - 1, get(s).value.1);
    }
  }

  lemma PlayerCountFits(s: seq<byte>)
    ensures GetPlayer(s).Ok? ==> Outfitted(GetPlayer(s).value.0)
  {
    forall t: seq<byte> ensures GetOutfit(t).Ok? ==> |GetOutfit(t).value.0.0| <= 255 {
      if GetU8(t).Ok? {
        ManyLength(GetText, GetU8(t).value.0, GetU8(t).value.1);
      }
    }
  }

  lemma SnapshotCountsFit(s: seq<byte>)
    ensures GetSnapshot(s).Ok? ==> CountsFit(GetSnapshot(s).value.0)
  {
    var tick := GetU32(s);
    if tick.Ok? && GetU16(tick.value.1).Ok? {
      var (n, rest) := GetU16(tick.value.1).value;
      forall t ensures GetPlayer(t).Ok? ==> Outfitted(GetPlayer(t).value.0) { PlayerCountFits(t); }
      ManyAll(GetPlayer, Outfitted, n, rest);
    }
  }

  lemma CountedLength<T>(get: seq<byte> -> Parsed<T>, s: seq<byte>)
    ensures GetCounted(get, s).Ok? ==> |GetCounted(get, s).value.0| <= MAX16
  {
    if GetU16(s).Ok? {
      ManyLength(get, GetU16(s).value.0, GetU16(s).value.1);
    }
  }

  lemma ReviewCountsFit(s: seq<byte>)
    ensures GetClanReview(s).Ok? ==> CountsFit(GetClanReview(s).value.0)
  {
    forall t: seq<byte> ensures GetCounted(GetMember, t).Ok? ==> |GetCounted(GetMember, t).value.0| <= MAX16 {
      CountedLength(GetMember, t);
    }
  }

  /** Whatever arrives, the client never ends up with counts the wire cannot carry. */
  lemma DecodedCountsFit(s: seq<byte>)
    ensures Decode(s).Ok? ==> CountsFit(Decode(s).value.0)
  {
    hide GetU16, GetU32, GetI32, GetU64, GetFlag, GetText, GetSnapshot, GetClanReview, GetCounted, GetMany, Take;
    if GetU8(s).Ok? {
      var (op, s) := GetU8(s).value;
      SnapshotCountsFit(s);
      ReviewCountsFit(s);
    }
  }

  lemma ReceivedCounts(u: Update)
    ensures CountsFit(Received(u)) <==> CountsFit(u)
  {
  }

  // ---- Round trips ----

  /** Of the updates the server sends, exactly those whose counts fit are read back, with what follows untouched. */
  lemma RoundTrip(u: Update, t: seq<byte>)
    requires Sendable(u)
    ensures Decode(Encode(u, t)) == Ok((Received(u), t)) <==> CountsFit(u)
  {
    ReceivedCounts(u);
    if CountsFit(u) {
      EveryBodyBack(u, t);
    } else {
      DecodedCountsFit(Encode(u, t));
    }
  }

  /** A review of a clan that more players asked to join than 16 bits can count. */
  function Crowd(): Update {
    ClanReview(0, [], [MemberInfo(1, [], true, true)], seq(MAX16 + 1, i => MemberInfo(0, [], false, false)))
  }

  /** The server sends it, and the client makes something else of it. */
  lemma CrowdIsGarbled(t: seq<byte>)
    ensures Sendable(Crowd()) && Decode(Encode(Crowd(), t)) != Ok((Received(Crowd()), t))
  {
    hide Encode, Decode;
    RoundTrip(Crowd(), t);
  }

  /** A whole run of updates, and any later bytes: all are read back, in order, iff the counts of each fit. */
  lemma StreamRoundTrip(us: seq<Update>, t: seq<byte>)
    requires forall u | u in us :: Sendable(u)
    ensures GetMany(Decode, |us|, Many(Encode, us, t)) == Ok((Each(Received, us), t))
            <==> forall u | u in us :: CountsFit(u)
  {
    if forall u | u in us :: CountsFit(u) {
      forall i, t | 0 <= i < |us| ensures Decode(Encode(us[i], t)) == Ok((Received(us[i]), t)) {
        RoundTrip(us[i], t);
      }
      ManyReadBack(Encode, Decode, Received, us, t);
    } else if GetMany(Decode, |us|, Many(Encode, us, t)) == Ok((Each(Received, us), t)) {
      forall s ensures Decode(s).Ok? ==> CountsFit(Decode(s).value.0) { DecodedCountsFit(s); }
      ManyAll(Decode, CountsFit, |us|, Many(Encode, us, t));
      forall i | 0 <= i < |us| ensures CountsFit(us[i]) {
        assert Each(Received, us)[i] == Received(us[i]);
        ReceivedCounts(us[i]);
      }
      assert false;
    }
  }

  /** A client that already knows an update by what it received would receive the same again. */
  lemma ReceivedIsStable(u: Update)
    ensures Received(Received(u)) == Received(u)
  {
    if u.ClanReview? {
      assert Each(NotFounder, Each(NotFounder, u.pending)) == Each(NotFounder, u.pending);
    }
  }
}
