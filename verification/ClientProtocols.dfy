/** The client's side of the connection: updates are read field by field off the stream. */
module ClientProtocols {
  import opened Prelude
  import opened Bytes
  import opened Wire
  import opened Updates

  /** Every method reads exactly what the function of its name takes off the stream, and fails when that fails. */
  class ClientProtocol {
    const socket: Socket

    constructor (socket: Socket)
      ensures this.socket == socket
    {
      this.socket := socket;
    }

    method ReceiveUpdate() returns (r: Result<Update, WireError>)
      modifies socket`incoming
      ensures Agrees(r, Decode(old(socket.incoming)), socket.incoming)
    {
      hide GetMatchList, GetMatchJoined, GetSnapshot, GetJoined, GetPlayerLeft, GetWorldMap, GetMoved, GetDeath,
        GetAttacked, GetInventory, GetCatalog, GetNpcInteract, GetChatMsg, GetSystemMsg, GetClanResult, GetClanReview,
        GetError;
      var op :- socket.RecvU8();
      match op
      case 0x81 => r := RecvLoginOk();
      case 0x82 => r := RecvMatchList();
      case 0x83 => r := RecvMatchCreated();
      case 0x84 => r := RecvMatchJoined();
      case 0x85 => r := RecvSnapshot();
      case 0x86 => r := RecvPlayerJoined();
      case 0x87 => r := RecvPlayerLeft();
      case 0x88 => r := RecvPlayerJoined();
      case 0x89 => r := RecvWorldMap();
      case 0x90 => r := RecvMoved();
      case 0x92 => r := RecvDeath();
      case 0x93 => r := RecvRevive();
      case 0x94 => r := RecvAttacked();
      case 0x95 => r := RecvMeditate();
      case 0xA0 => r := RecvInventory();
      case 0xA1 => r := RecvCatalog();
      case 0xA2 => r := RecvNpcInteract();
      case 0xB0 => r := RecvChatMsg();
      case 0xB1 => r := RecvSystemMsg();
      case 0xC0 => r := RecvClanResult();
      case 0xC1 => r := RecvClanReview();
      case 0xEE => r := RecvError();
      case _ => return Err(MEANINGLESS);
    }

    method RecvLoginOk() returns (r: Result<Update, WireError>)
      modifies socket`incoming
      ensures Agrees(r, GetLoginOk(old(socket.incoming)), socket.incoming)
    {
      var player :- socket.RecvU32();
      return Ok(LoginOk(player));
    }

    method RecvMatchList() returns (r: Result<Update, WireError>)
      modifies socket`incoming
      ensures Agrees(r, GetMatchList(old(socket.incoming)), socket.incoming)
    {
      var matches :- RecvMatches();
      return Ok(MatchList(matches));
    }

    method RecvMatchCreated() returns (r: Result<Update, WireError>)
      modifies socket`incoming
      ensures Agrees(r, GetMatchCreated(old(socket.incoming)), socket.incoming)
    {
      var matchId :- socket.RecvU32();
      return Ok(MatchCreated(matchId));
    }

    method RecvMatchJoined() returns (r: Result<Update, WireError>)
      modifies socket`incoming
      ensures Agrees(r, GetMatchJoined(old(socket.incoming)), socket.incoming)
    {
      var matchId :- socket.RecvU32();
      var player :- socket.RecvU32();
      var restored :- socket.RecvFlag();
      var race :- socket.RecvU8();
      var klass :- socket.RecvU8();
      return Ok(MatchJoined(matchId, player, restored, race, klass));
    }

    method RecvPlayerJoined() returns (r: Result<Update, WireError>)
      modifies socket`incoming
      ensures Agrees(r, GetJoined(old(socket.incoming)), socket.incoming)
    {
      var player :- socket.RecvU32();
      var nick :- socket.RecvString();
      var race :- socket.RecvU8();
      var klass :- socket.RecvU8();
      var x :- socket.RecvI32();
      var y :- socket.RecvI32();
      return Ok(PlayerJoined(player, nick, race, klass, x, y));
    }

    method RecvPlayerLeft() returns (r: Result<Update, WireError>)
      modifies socket`incoming
      ensures Agrees(r, GetPlayerLeft(old(socket.incoming)), socket.incoming)
    {
      var player :- socket.RecvU32();
      var nick :- socket.RecvString();
      var clan :- socket.RecvU32();
      return Ok(PlayerLeft(player, nick, clan));
    }

    method RecvAttacked() returns (r: Result<Update, WireError>)
      modifies socket`incoming
      ensures Agrees(r, GetAttacked(old(socket.incoming)), socket.incoming)
    {
      var attacker :- socket.RecvU32();
      var target :- socket.RecvU32();
      var damage :- socket.RecvI32();
      var evaded :- socket.RecvFlag();
      var died :- socket.RecvFlag();
      var critical :- socket.RecvFlag();
      var healing :- socket.RecvFlag();
      var healed :- socket.RecvI32();
      var kind :- socket.RecvU8();
      var name :- socket.RecvString();
      var status :- socket.RecvU8();
      var targetClan :- socket.RecvU32();
      return Ok(Attacked(0, AttackResult(attacker, target, damage, evaded, died, critical, healing, healed, kind, name,
                                         status, targetClan)));
    }

    method RecvDeath() returns (r: Result<Update, WireError>)
      modifies socket`incoming
      ensures Agrees(r, GetDeath(old(socket.incoming)), socket.incoming)
    {
      var dead :- socket.RecvU32();
      var killer :- socket.RecvU32();
      return Ok(Death(dead, killer));
    }

    method RecvRevive() returns (r: Result<Update, WireError>)
      modifies socket`incoming
      ensures Agrees(r, GetRevive(old(socket.incoming)), socket.incoming)
    {
      var status :- socket.RecvU8();
      return Ok(Revive(0, status));
    }

    method RecvMeditate() returns (r: Result<Update, WireError>)
      modifies socket`incoming
      ensures Agrees(r, GetMeditate(old(socket.incoming)), socket.incoming)
    {
      var status :- socket.RecvU8();
      return Ok(Meditate(0, status));
    }

    method RecvInventory() returns (r: Result<Update, WireError>)
      modifies socket`incoming
      ensures Agrees(r, GetInventory(old(socket.incoming)), socket.incoming)
    {
      var player :- socket.RecvU32();
      var slots :- RecvSlots();
      var gold :- socket.RecvU64();
      return Ok(InventoryUpdate(player, slots, gold));
    }

    method RecvWorldMap() returns (r: Result<Update, WireError>)
      modifies socket`incoming
      ensures Agrees(r, GetWorldMap(old(socket.incoming)), socket.incoming)
    {
      var width :- socket.RecvU16();
      var height :- socket.RecvU16();
      var w: int, h: int := width, height;
      var cells :- RecvCells(w * h);
      return Ok(WorldMapUpdate(width, height, cells));
    }

    method RecvSnapshot() returns (r: Result<Update, WireError>)
      modifies socket`incoming
      ensures Agrees(r, GetSnapshot(old(socket.incoming)), socket.incoming)
    {
      var tick :- socket.RecvU32();
      var players :- RecvPlayers();
      var npcs :- RecvNpcs();
      var ground :- RecvPiles();
      return Ok(Snapshot(tick, players, npcs, ground));
    }

    method RecvMoved() returns (r: Result<Update, WireError>)
      modifies socket`incoming
      ensures Agrees(r, GetMoved(old(socket.incoming)), socket.incoming)
    {
      var player :- socket.RecvU32();
      var x :- socket.RecvI32();
      var y :- socket.RecvI32();
      return Ok(Moved(player, x, y));
    }

    method RecvChatMsg() returns (r: Result<Update, WireError>)
      modifies socket`incoming
      ensures Agrees(r, GetChatMsg(old(socket.incoming)), socket.incoming)
    {
      var sender :- socket.RecvU32();
      var nick :- socket.RecvString();
      var text :- socket.RecvString();
      var isPrivate :- socket.RecvFlag();
      return Ok(ChatMsg(sender, nick, text, 0, isPrivate));
    }

    method RecvSystemMsg() returns (r: Result<Update, WireError>)
      modifies socket`incoming
      ensures Agrees(r, GetSystemMsg(old(socket.incoming)), socket.incoming)
    {
      var to :- socket.RecvU32();
      var text :- socket.RecvString();
      return Ok(SystemMsg(to, text));
    }

    method RecvNpcInteract() returns (r: Result<Update, WireError>)
      modifies socket`incoming
      ensures Agrees(r, GetNpcInteract(old(socket.incoming)), socket.incoming)
    {
      var kind :- socket.RecvU8();
      var status :- socket.RecvU8();
      var item :- socket.RecvString();
      var gold :- socket.RecvU64();
      return Ok(NpcInteract(0, kind, status, item, gold, []));
    }

    method RecvClanResult() returns (r: Result<Update, WireError>)
      modifies socket`incoming
      ensures Agrees(r, GetClanResult(old(socket.incoming)), socket.incoming)
    {
      var action :- socket.RecvU8();
      var status :- socket.RecvU8();
      var clan :- socket.RecvString();
      var actor :- socket.RecvString();
      var other :- socket.RecvU32();
      var nick :- socket.RecvString();
      return Ok(ClanResult(0, action, status, clan, actor, other, nick));
    }

    method RecvClanReview() returns (r: Result<Update, WireError>)
      modifies socket`incoming
      ensures Agrees(r, GetClanReview(old(socket.incoming)), socket.incoming)
    {
      var clan :- socket.RecvString();
      var members :- RecvMembers();
      var pending :- RecvMembers();
      return Ok(ClanReview(0, clan, members, pending));
    }

    method RecvError() returns (r: Result<Update, WireError>)
      modifies socket`incoming
      ensures Agrees(r, GetError(old(socket.incoming)), socket.incoming)
    {
      var code :- socket.RecvU8();
      var detail :- socket.RecvString();
      return Ok(ErrorUpdate(0, code, detail));
    }

    method RecvCatalog() returns (r: Result<Update, WireError>)
      modifies socket`incoming
      ensures Agrees(r, GetCatalog(old(socket.incoming)), socket.incoming)
    {
      var names :- RecvNames();
      var gold :- socket.RecvU64();
      var vault :- socket.RecvFlag();
      return Ok(Catalog(0, names, gold, vault));
    }

    method RecvMatch() returns (r: Result<MatchInfo, WireError>)
      modifies socket`incoming
      ensures Agrees(r, GetMatch(old(socket.incoming)), socket.incoming)
    {
      var id :- socket.RecvU32();
      var name :- socket.RecvString();
      var current :- socket.RecvU8();
      var max :- socket.RecvU8();
      return Ok(MatchInfo(id, name, current, max));
    }

    method RecvSlot() returns (r: Result<SlotData, WireError>)
      modifies socket`incoming
      ensures Agrees(r, GetSlot(old(socket.incoming)), socket.incoming)
    {
      var name :- socket.RecvString();
      var quantity :- socket.RecvU32();
      var equipped :- socket.RecvFlag();
      return Ok(SlotData(name, quantity, equipped));
    }

    method RecvCell() returns (r: Result<CellData, WireError>)
      modifies socket`incoming
      ensures Agrees(r, GetCell(old(socket.incoming)), socket.incoming)
    {
      var terrain :- socket.RecvU8();
      var blocking :- socket.RecvFlag();
      return Ok(CellData(terrain, blocking));
    }

    method RecvPlayer() returns (r: Result<PlayerSnapshot, WireError>)
      modifies socket`incoming
      ensures Agrees(r, GetPlayer(old(socket.incoming)), socket.incoming)
    {
      hide GetU8, GetU16, GetU32, GetI32, GetU64, GetFlag, GetText, GetEquipment;
      var id :- socket.RecvU32();
      var nick :- socket.RecvString();
      var race :- socket.RecvU8();
      var klass :- socket.RecvU8();
      var x :- socket.RecvI32();
      var y :- socket.RecvI32();
      var hp :- socket.RecvI32();
      var maxHp :- socket.RecvI32();
      var mp :- socket.RecvI32();
      var maxMp :- socket.RecvI32();
      var xp :- socket.RecvU64();
      var gold :- socket.RecvU64();
      var level :- socket.RecvU16();
      var ghostly :- socket.RecvFlag();
      var meditating :- socket.RecvFlag();
      var clan :- socket.RecvU32();
      var equipment :- RecvEquipment();
      var direction :- socket.RecvU8();
      var moving :- socket.RecvFlag();
      return Ok(PlayerSnapshot(id, nick, race, klass, x, y, hp, maxHp, mp, maxMp, xp, gold, level, ghostly, meditating,
                               clan, equipment, direction, moving));
    }

    method RecvNpc() returns (r: Result<NpcSnapshot, WireError>)
      modifies socket`incoming
      ensures Agrees(r, GetNpc(old(socket.incoming)), socket.incoming)
    {
      var id :- socket.RecvU32();
      var name :- socket.RecvString();
      var x :- socket.RecvI32();
      var y :- socket.RecvI32();
      var hp :- socket.RecvI32();
      var maxHp :- socket.RecvI32();
      var hostile :- socket.RecvFlag();
      var kind :- socket.RecvU32();
      var direction :- socket.RecvU8();
      var moving :- socket.RecvFlag();
      return Ok(NpcSnapshot(id, name, x, y, hp, maxHp, hostile, kind, direction, moving));
    }

    method RecvPile() returns (r: Result<GroundSnapshot, WireError>)
      modifies socket`incoming
      ensures Agrees(r, GetGround(old(socket.incoming)), socket.incoming)
    {
      var x :- socket.RecvI32();
      var y :- socket.RecvI32();
      var isGold :- socket.RecvFlag();
      var quantity :- socket.RecvU64();
      var name :- socket.RecvString();
      return Ok(GroundSnapshot(x, y, isGold, quantity, name));
    }

    method RecvMember() returns (r: Result<MemberInfo, WireError>)
      modifies socket`incoming
      ensures Agrees(r, GetMember(old(socket.incoming)), socket.incoming)
    {
      var id :- socket.RecvU32();
      var nick :- socket.RecvString();
      var founder :- socket.RecvFlag();
      var online :- socket.RecvFlag();
      return Ok(MemberInfo(id, nick, founder, online));
    }

    method RecvMatches() returns (r: Result<seq<MatchInfo>, WireError>)
      modifies socket`incoming
      ensures Agrees(r, GetCounted<MatchInfo>(GetMatch, old(socket.incoming)), socket.incoming)
    {
      hide HalfRead, GetMatch, GetMany;
      var n :- socket.RecvU16();
      var xs: seq<MatchInfo> := [];
      ghost var found := socket.incoming;
      NoneRead<MatchInfo>(GetMatch, n, found);
      for i := 0 to n
        invariant |xs| == i && HalfRead<MatchInfo>(GetMatch, n, found, xs, socket.incoming)
      {
        ghost var was := socket.incoming;
        var x := RecvMatch();
        OneRead<MatchInfo>(GetMatch, n, found, xs, was, x, socket.incoming);
        if x.Err? {
          return Err(x.error);
        }
        xs := xs + [x.value];
      }
      AllRead<MatchInfo>(GetMatch, n, found, xs, socket.incoming);
      return Ok(xs);
    }

    method RecvSlots() returns (r: Result<seq<SlotData>, WireError>)
      modifies socket`incoming
      ensures Agrees(r, GetCounted<SlotData>(GetSlot, old(socket.incoming)), socket.incoming)
    {
      hide HalfRead, GetSlot, GetMany;
      var n :- socket.RecvU16();
      var xs: seq<SlotData> := [];
      ghost var found := socket.incoming;
      NoneRead<SlotData>(GetSlot, n, found);
      for i := 0 to n
        invariant |xs| == i && HalfRead<SlotData>(GetSlot, n, found, xs, socket.incoming)
      {
        ghost var was := socket.incoming;
        var x := RecvSlot();
        OneRead<SlotData>(GetSlot, n, found, xs, was, x, socket.incoming);
        if x.Err? {
          return Err(x.error);
        }
        xs := xs + [x.value];
      }
      AllRead<SlotData>(GetSlot, n, found, xs, socket.incoming);
      return Ok(xs);
    }

    method RecvNames() returns (r: Result<seq<Text>, WireError>)
      modifies socket`incoming
      ensures Agrees(r, GetCounted<Text>(GetText, old(socket.incoming)), socket.incoming)
    {
      hide HalfRead, GetText, GetMany;
      var n :- socket.RecvU16();
      var xs: seq<Text> := [];
      ghost var found := socket.incoming;
      NoneRead<Text>(GetText, n, found);
      for i := 0 to n
        invariant |xs| == i && HalfRead<Text>(GetText, n, found, xs, socket.incoming)
      {
        ghost var was := socket.incoming;
        var x := socket.RecvString();
        OneRead<Text>(GetText, n, found, xs, was, x, socket.incoming);
        if x.Err? {
          return Err(x.error);
        }
        xs := xs + [x.value];
      }
      AllRead<Text>(GetText, n, found, xs, socket.incoming);
      return Ok(xs);
    }

    method RecvPlayers() returns (r: Result<seq<PlayerSnapshot>, WireError>)
      modifies socket`incoming
      ensures Agrees(r, GetCounted<PlayerSnapshot>(GetPlayer, old(socket.incoming)), socket.incoming)
    {
      hide HalfRead, GetPlayer, GetMany;
      var n :- socket.RecvU16();
      var xs: seq<PlayerSnapshot> := [];
      ghost var found := socket.incoming;
      NoneRead<PlayerSnapshot>(GetPlayer, n, found);
      for i := 0 to n
        invariant |xs| == i && HalfRead<PlayerSnapshot>(GetPlayer, n, found, xs, socket.incoming)
      {
        ghost var was := socket.incoming;
        var x := RecvPlayer();
        OneRead<PlayerSnapshot>(GetPlayer, n, found, xs, was, x, socket.incoming);
        if x.Err? {
          return Err(x.error);
        }
        xs := xs + [x.value];
      }
      AllRead<PlayerSnapshot>(GetPlayer, n, found, xs, socket.incoming);
      return Ok(xs);
    }

    method RecvNpcs() returns (r: Result<seq<NpcSnapshot>, WireError>)
      modifies socket`incoming
      ensures Agrees(r, GetCounted<NpcSnapshot>(GetNpc, old(socket.incoming)), socket.incoming)
    {
      hide HalfRead, GetNpc, GetMany;
      var n :- socket.RecvU16();
      var xs: seq<NpcSnapshot> := [];
      ghost var found := socket.incoming;
      NoneRead<NpcSnapshot>(GetNpc, n, found);
      for i := 0 to n
        invariant |xs| == i && HalfRead<NpcSnapshot>(GetNpc, n, found, xs, socket.incoming)
      {
        ghost var was := socket.incoming;
        var x := RecvNpc();
        OneRead<NpcSnapshot>(GetNpc, n, found, xs, was, x, socket.incoming);
        if x.Err? {
          return Err(x.error);
        }
        xs := xs + [x.value];
      }
      AllRead<NpcSnapshot>(GetNpc, n, found, xs, socket.incoming);
      return Ok(xs);
    }

    method RecvPiles() returns (r: Result<seq<GroundSnapshot>, WireError>)
      modifies socket`incoming
      ensures Agrees(r, GetCounted<GroundSnapshot>(GetGround, old(socket.incoming)), socket.incoming)
    {
      hide HalfRead, GetGround, GetMany;
      var n :- socket.RecvU16();
      var xs: seq<GroundSnapshot> := [];
      ghost var found := socket.incoming;
      NoneRead<GroundSnapshot>(GetGround, n, found);
      for i := 0 to n
        invariant |xs| == i && HalfRead<GroundSnapshot>(GetGround, n, found, xs, socket.incoming)
      {
        ghost var was := socket.incoming;
        var x := RecvPile();
        OneRead<GroundSnapshot>(GetGround, n, found, xs, was, x, socket.incoming);
        if x.Err? {
          return Err(x.error);
        }
        xs := xs + [x.value];
      }
      AllRead<GroundSnapshot>(GetGround, n, found, xs, socket.incoming);
      return Ok(xs);
    }

    method RecvMembers() returns (r: Result<seq<MemberInfo>, WireError>)
      modifies socket`incoming
      ensures Agrees(r, GetCounted<MemberInfo>(GetMember, old(socket.incoming)), socket.incoming)
    {
      hide HalfRead, GetMember, GetMany;
      var n :- socket.RecvU16();
      var xs: seq<MemberInfo> := [];
      ghost var found := socket.incoming;
      NoneRead<MemberInfo>(GetMember, n, found);
      for i := 0 to n
        invariant |xs| == i && HalfRead<MemberInfo>(GetMember, n, found, xs, socket.incoming)
      {
        ghost var was := socket.incoming;
        var x := RecvMember();
        OneRead<MemberInfo>(GetMember, n, found, xs, was, x, socket.incoming);
        if x.Err? {
          return Err(x.error);
        }
        xs := xs + [x.value];
      }
      AllRead<MemberInfo>(GetMember, n, found, xs, socket.incoming);
      return Ok(xs);
    }

    method RecvEquipment() returns (r: Result<seq<Text>, WireError>)
      modifies socket`incoming
      ensures Agrees(r, GetEquipment(old(socket.incoming)), socket.incoming)
    {
      hide HalfRead, GetText, GetMany;
      var n :- socket.RecvU8();
      var xs: seq<Text> := [];
      ghost var found := socket.incoming;
      NoneRead<Text>(GetText, n, found);
      for i := 0 to n
        invariant |xs| == i && HalfRead<Text>(GetText, n, found, xs, socket.incoming)
      {
        ghost var was := socket.incoming;
        var x := socket.RecvString();
        OneRead<Text>(GetText, n, found, xs, was, x, socket.incoming);
        if x.Err? {
          return Err(x.error);
        }
        xs := xs + [x.value];
      }
      AllRead<Text>(GetText, n, found, xs, socket.incoming);
      return Ok(xs);
    }

    method RecvCells(n: nat) returns (r: Result<seq<CellData>, WireError>)
      modifies socket`incoming
      ensures Agrees(r, GetMany<CellData>(GetCell, n, old(socket.incoming)), socket.incoming)
    {
      hide HalfRead, GetCell, GetMany;
      var xs: seq<CellData> := [];
      ghost var found := socket.incoming;
      NoneRead<CellData>(GetCell, n, found);
      for i := 0 to n
        invariant |xs| == i && HalfRead<CellData>(GetCell, n, found, xs, socket.incoming)
      {
        ghost var was := socket.incoming;
        var x := RecvCell();
        OneRead<CellData>(GetCell, n, found, xs, was, x, socket.incoming);
        if x.Err? {
          return Err(x.error);
        }
        xs := xs + [x.value];
      }
      AllRead<CellData>(GetCell, n, found, xs, socket.incoming);
      return Ok(xs);
    }
  }
}
