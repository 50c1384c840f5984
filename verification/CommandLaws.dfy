/** Which commands a connection may send when, and where each takes it, without the opcodes in between. */
module CommandLaws {
  import opened Prelude
  import opened Bytes
  import opened Wire
  import opened Commands

  /** The first byte tells the kinds apart. */
  lemma FirstBytes(c: Command, t: seq<byte>)
    ensures var op := Encode(c, t)[0];
            && (c.Login? <==> op == 0x01) && (c.ListMatches? <==> op == 0x02) && (c.CreateMatch? <==> op == 0x03)
            && (c.JoinMatch? <==> op == 0x04) && (c.SelectRaceClass? <==> op == 0x05) && (c.Move? <==> op == 0x10)
            && (c.Attack? <==> op == 0x11) && (c.Meditate? <==> op == 0x12) && (c.PickUp? <==> op == 0x13)
            && (c.DropItem? <==> op == 0x14) && (c.EquipItem? <==> op == 0x15) && (c.Interact? <==> op == 0x16)
            && (c.Clan? <==> op == 0x17) && (c.Resurrect? <==> op == 0x18) && (c.Cheat? <==> op == 0x19)
            && (c.Chat? <==> op == 0x20) && (c.PrivateChat? <==> op == 0x21) && (c.LeaveMatch? <==> op == 0xFE)
            && (c.Disconnect? <==> op == 0xFF)
  {
    hide PutPayload;
  }

  /** What the payload has to be for the receiver to make sense of it. */
  ghost predicate Meaningful(c: Command) {
    match c
    case SelectRaceClass(race, klass) => race < 4 && klass < 4
    case Move(direction) => direction < 4
    case _ => true
  }

  /** Whatever has no text over 65535 bytes can be sent. */
  lemma Sends(c: Command)
    ensures Sendable(c) <==> forall k | 0 <= k < |Texts(c)| :: |Texts(c)[k]| <= 65535
  {
    var texts := Texts(c);
    if forall k | 0 <= k < |texts| :: |texts[k]| <= 65535 {
      assert 0 < |texts| ==> |texts[0]| <= 65535;
      assert 1 < |texts| ==> |texts[1]| <= 65535;
    }
  }

  function Texts(c: Command): seq<Text> {
    match c
    case Login(nick) => [nick]
    case CreateMatch(name, _) => [name]
    case Interact(_, _, arg, _) => [arg]
    case Clan(_, arg) => [arg]
    case Chat(text) => [text]
    case PrivateChat(nick, text) => [nick, text]
    case _ => []
  }

  /** Before the login only the login, in the lobby only the lobby's commands, and in a match only the match's. */
  ghost predicate InPlace(phase: Phase, c: Command) {
    match phase
    case CONNECTED => c.Login?
    case AUTHENTICATED => c.ListMatches? || c.CreateMatch? || c.JoinMatch?
    case IN_MATCH =>
      || c.SelectRaceClass? || c.Move? || c.Attack? || c.Meditate? || c.PickUp? || c.DropItem? || c.EquipItem?
      || c.Interact? || c.Clan? || c.Resurrect? || c.Cheat? || c.Chat? || c.PrivateChat? || c.LeaveMatch?
    case DISCONNECTING => false
  }

  lemma HandledInPlace(phase: Phase, c: Command)
    ensures Handles(phase, Opcode(c)) <==> InPlace(phase, c)
    ensures Opcode(c) == DISCONNECT <==> c.Disconnect?
  {
  }

  /**
   * What the receiver reads of a command that was sent: the command itself where it is in place, nothing but its opcode
   * where it is not, and the end of the connection wherever the client takes its leave.
   */
  lemma Understood(phase: Phase, c: Command, t: seq<byte>)
    requires Sendable(c)
    ensures c.Disconnect? ==> ReadRound(phase, Encode(c, t)) == Ok((Leaving, t))
    ensures InPlace(phase, c) && Meaningful(c) ==> ReadRound(phase, Encode(c, t)) == Ok((Taken(c), t))
    ensures InPlace(phase, c) && !Meaningful(c) ==> ReadRound(phase, Encode(c, t)) == Err(MEANINGLESS)
    ensures !c.Disconnect? && phase != DISCONNECTING && !InPlace(phase, c) ==>
              ReadRound(phase, Encode(c, t)).Ok? && ReadRound(phase, Encode(c, t)).value.0.Rejected?
  {
    assert c.Disconnect? ==> PutPayload(c, t) == t && Opcode(c) == DISCONNECT;
    HandledInPlace(phase, c);
    hide GetU8, GetPayload, PutPayload, Opcode, Handles, InPlace;
    if !c.Disconnect? {
      PayloadBack(c, t);
    }
  }

  /** A login leads to the lobby, a join into that match, and leaving back to the lobby; nothing else leads anywhere. */
  lemma LeadsTo(session: Session, c: Command)
    ensures forall nick :: After(session, Login(nick), ACCEPTED) == Session(AUTHENTICATED, session.matchId)
    ensures forall m: u32 :: After(session, JoinMatch(m), ACCEPTED) == Session(IN_MATCH, m)
    ensures After(session, LeaveMatch, ACCEPTED) == After(session, LeaveMatch, REFUSED) == Session(AUTHENTICATED, 0)
    ensures !c.LeaveMatch? ==> After(session, c, REFUSED) == session
    ensures After(session, c, THROWN(false)) == session
    ensures After(session, c, THROWN(true)) == After(session, c, ACCEPTED)
    ensures !(c.Login? || c.JoinMatch? || c.LeaveMatch?) ==> forall a :: After(session, c, a) == session
  {
  }
}
