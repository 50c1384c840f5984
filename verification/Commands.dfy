/** Client to server: what the client writes for each command, and what the server's receiver makes of it. */
module Commands {
  import opened Prelude
  import opened Bytes
  import opened Wire

  datatype Command =
    | Login(nick: Text)
    | ListMatches
    | CreateMatch(name: Text, maxPlayers: byte)
    | JoinMatch(matchId: u32)
    | SelectRaceClass(race: byte, klass: byte)
    | Move(direction: byte)
    | Attack(target: u32)
    | Meditate
    | PickUp
    | DropItem(slot: byte)
    | EquipItem(slot: byte)
    | Interact(npc: u32, kind: byte, arg: Text, amount: i32)
    | Clan(action: byte, arg: Text)
    | Resurrect
    | Cheat(kind: byte)
    | Chat(text: Text)
    | PrivateChat(nick: Text, text: Text)
    | LeaveMatch
    | Disconnect

  const DISCONNECT: byte := 0xFF

  function Opcode(c: Command): byte {
    match c
    case Login(_) => 0x01
    case ListMatches => 0x02
    case CreateMatch(_, _) => 0x03
    case JoinMatch(_) => 0x04
    case SelectRaceClass(_, _) => 0x05
    case Move(_) => 0x10
    case Attack(_) => 0x11
    case Meditate => 0x12
    case PickUp => 0x13
    case DropItem(_) => 0x14
    case EquipItem(_) => 0x15
    case Interact(_, _, _, _) => 0x16
    case Clan(_, _) => 0x17
    case Resurrect => 0x18
    case Cheat(_) => 0x19
    case Chat(_) => 0x20
    case PrivateChat(_, _) => 0x21
    case LeaveMatch => 0xFE
    case Disconnect => DISCONNECT
  }

  function PutPayload(c: Command, t: seq<byte>): seq<byte> {
    match c
    case Login(nick) => PutText(nick, t)
    case CreateMatch(name, max) => PutText(name, U8(max, t))
    case JoinMatch(m) => U32(m, t)
    case SelectRaceClass(race, klass) => U8(race, U8(klass, t))
    case Move(d) => U8(d, t)
    case Attack(target) => U32(target, t)
    case DropItem(slot) => U8(slot, t)
    case EquipItem(slot) => U8(slot, t)
    case Interact(npc, kind, arg, amount) => U32(npc, U8(kind, PutText(arg, I32(amount, t))))
    case Clan(action, arg) => U8(action, PutText(arg, t))
    case Cheat(kind) => U8(kind, t)
    case Chat(text) => PutText(text, t)
    case PrivateChat(nick, text) => PutText(nick, PutText(text, t))
    case _ => t
  }

  /** The bytes of a command, in front of whatever follows. */
  function Encode(c: Command, t: seq<byte>): seq<byte> {
    U8(Opcode(c), PutPayload(c, t))
  }

  /** The client refuses to write longer texts. */
  predicate Sendable(c: Command) {
    match c
    case Login(nick) => |nick| <= MAX16
    case CreateMatch(name, _) => |name| <= MAX16
    case Interact(_, _, arg, _) => |arg| <= MAX16
    case Clan(_, arg) => |arg| <= MAX16
    case Chat(text) => |text| <= MAX16
    case PrivateChat(nick, text) => |nick| <= MAX16 && |text| <= MAX16
    case _ => true
  }

  // ---- The server's readers ----

  function GetCreateMatch(s: seq<byte>): Parsed<Command> {
    var (name, s) :- GetText(s);
    var (max, s) :- GetU8(s);
    Ok((CreateMatch(name, max), s))
  }

  /** There are four races and four classes. */
  function GetRaceClass(s: seq<byte>): Parsed<Command> {
    var (race, s) :- GetU8(s);
    var (klass, s) :- GetU8(s);
    if race <= 3 && klass <= 3 then Ok((SelectRaceClass(race, klass), s)) else Err(MEANINGLESS)
  }

  function GetMove(s: seq<byte>): Parsed<Command> {
    var (d, s) :- GetU8(s);
    if d <= 3 then Ok((Move(d), s)) else Err(MEANINGLESS)
  }

  function GetInteract(s: seq<byte>): Parsed<Command> {
    var (npc, s) :- GetU32(s);
    var (kind, s) :- GetU8(s);
    var (arg, s) :- GetText(s);
    var (amount, s) :- GetI32(s);
    Ok((Interact(npc, kind, arg, amount), s))
  }

  function GetClan(s: seq<byte>): Parsed<Command> {
    var (action, s) :- GetU8(s);
    var (arg, s) :- GetText(s);
    Ok((Clan(action, arg), s))
  }

  function GetPrivateChat(s: seq<byte>): Parsed<Command> {
    var (nick, s) :- GetText(s);
    var (text, s) :- GetText(s);
    Ok((PrivateChat(nick, text), s))
  }

  /** The command an opcode announces; the receiver only asks this of opcodes it handles. */
  function GetPayload(op: byte, s: seq<byte>): Parsed<Command> {
    match op
    case 0x01 => var (nick, s) :- GetText(s); Ok((Login(nick), s))
    case 0x02 => Ok((ListMatches, s))
    case 0x03 => GetCreateMatch(s)
    case 0x04 => var (m, s) :- GetU32(s); Ok((JoinMatch(m), s))
    case 0x05 => GetRaceClass(s)
    case 0x10 => GetMove(s)
    case 0x11 => var (target, s) :- GetU32(s); Ok((Attack(target), s))
    case 0x12 => Ok((Meditate, s))
    case 0x13 => Ok((PickUp, s))
    case 0x14 => var (slot, s) :- GetU8(s); Ok((DropItem(slot), s))
    case 0x15 => var (slot, s) :- GetU8(s); Ok((EquipItem(slot), s))
    case 0x16 => GetInteract(s)
    case 0x17 => GetClan(s)
    case 0x18 => Ok((Resurrect, s))
    case 0x19 => var (kind, s) :- GetU8(s); Ok((Cheat(kind), s))
    case 0x20 => var (text, s) :- GetText(s); Ok((Chat(text), s))
    case 0x21 => GetPrivateChat(s)
    case 0xFE => Ok((LeaveMatch, s))
    case _ => Err(MEANINGLESS)
  }

  // ---- The receiver ----

  datatype Phase = CONNECTED | AUTHENTICATED | IN_MATCH | DISCONNECTING

  /** What the receiver's decisions depend on: the connection's state and the id of the match joined, 0 for none. */
  datatype Session = Session(phase: Phase, matchId: nat)

  /**
   * What becomes of a round: done, refused with an error sent back, or an exception, which can come before the thing is
   * done or, as when the queue to the client is closed, after it.
   */
  datatype Answer = ACCEPTED | REFUSED | THROWN(done: bool)
  {
    predicate Done() {
      ACCEPTED? || (THROWN? && done)
    }
  }

  /** What is read in one round of the receiver's loop. */
  datatype Round = Taken(command: Command) | Rejected(op: byte) | Leaving | Abandoned

  /** The opcodes a state handles. */
  predicate Handles(phase: Phase, op: byte) {
    match phase
    case CONNECTED => op == 0x01
    case AUTHENTICATED => 0x02 <= op <= 0x04
    case IN_MATCH => op == 0x05 || 0x10 <= op <= 0x19 || op == 0x20 || op == 0x21 || op == 0xFE
    case DISCONNECTING => false
  }

  /** One round: an opcode, and the payload only when the state handles it. */
  function ReadRound(phase: Phase, s: seq<byte>): Parsed<Round> {
    var (op, s) :- GetU8(s);
    if op == DISCONNECT then Ok((Leaving, s))
    else if phase == DISCONNECTING then Ok((Abandoned, s))
    else if Handles(phase, op) then
      var (c, s) :- GetPayload(op, s);
      Ok((Taken(c), s))
    else Ok((Rejected(op), s))
  }

  function After(session: Session, c: Command, a: Answer): Session {
    match c
    case Login(_) => if a.Done() then Session(AUTHENTICATED, session.matchId) else session
    case JoinMatch(m) => if a.Done() then Session(IN_MATCH, m) else session
    case LeaveMatch => if a == THROWN(false) then session else Session(AUTHENTICATED, 0)
    case _ => session
  }

  datatype Ending = Left | Broke | AnswerThrew | WasAbandoned

  /** A whole run of the receiver: what it read, round by round, the session it ends in, why, and the bytes unread. */
  datatype Reading = Reading(rounds: seq<Round>, session: Session, ending: Ending, unread: seq<byte>)

  lemma RoundsConsume(phase: Phase, s: seq<byte>)
    ensures ReadRound(phase, s).Ok? ==> |ReadRound(phase, s).value.1| < |s|
  {
    hide GetPayload;
    if GetU8(s).Ok? {
      PayloadsConsume(GetU8(s).value.0, GetU8(s).value.1);
    }
  }

  lemma PayloadsConsume(op: byte, s: seq<byte>)
    ensures GetPayload(op, s).Ok? ==> |GetPayload(op, s).value.1| <= |s|
  {
    FieldsConsume();
    hide GetU8, GetU32, GetI32, GetText;
  }

  lemma FieldsConsume()
    ensures forall s {:trigger GetU8(s)} :: GetU8(s).Ok? ==> |GetU8(s).value.1| <= |s|
    ensures forall s {:trigger GetU32(s)} :: GetU32(s).Ok? ==> |GetU32(s).value.1| <= |s|
    ensures forall s {:trigger GetI32(s)} :: GetI32(s).Ok? ==> |GetI32(s).value.1| <= |s|
    ensures forall s {:trigger GetText(s)} :: GetText(s).Ok? ==> |GetText(s).value.1| <= |s|
  {
  }

  /** The receiver from a state on; answers tells what becomes of each round, the next being number k. */
  function Read(session: Session, s: seq<byte>, answers: nat -> Answer, k: nat): Reading
    decreases |s|
  {
    RoundsConsume(session.phase, s);
    match ReadRound(session.phase, s)
    case Err(_) => Reading([], session, Broke, s)
    case Ok((Leaving, rest)) => Reading([], session, Left, rest)
    case Ok((Abandoned, rest)) => Reading([], session, WasAbandoned, rest)
    case Ok((Rejected(op), rest)) =>
      if answers(k).THROWN? then Reading([Rejected(op)], session, AnswerThrew, rest)
      else
        var later := Read(session, rest, answers, k + 1);
        later.(rounds := [Rejected(op)] + later.rounds)
    case Ok((Taken(c), rest)) =>
      if answers(k).THROWN? then Reading([Taken(c)], After(session, c, answers(k)), AnswerThrew, rest)
      else
        var later := Read(After(session, c, answers(k)), rest, answers, k + 1);
        later.(rounds := [Taken(c)] + later.rounds)
  }

  lemma ReadOn(session: Session, s: seq<byte>, answers: nat -> Answer, k: nat, op: byte, rest: seq<byte>)
    requires ReadRound(session.phase, s) == Ok((Rejected(op), rest)) && !answers(k).THROWN?
    ensures |rest| < |s|
    ensures var later := Read(session, rest, answers, k + 1);
      Read(session, s, answers, k) == later.(rounds := [Rejected(op)] + later.rounds)
  {
    RoundsConsume(session.phase, s);
  }

  lemma ReadCommand(session: Session, s: seq<byte>, answers: nat -> Answer, k: nat, c: Command, rest: seq<byte>)
    requires ReadRound(session.phase, s) == Ok((Taken(c), rest)) && !answers(k).THROWN?
    ensures |rest| < |s|
    ensures var later := Read(After(session, c, answers(k)), rest, answers, k + 1);
      Read(session, s, answers, k) == later.(rounds := [Taken(c)] + later.rounds)
  {
    hide After;
    RoundsConsume(session.phase, s);
  }

  lemma ReadEnds(session: Session, s: seq<byte>, answers: nat -> Answer, k: nat)
    ensures var r := ReadRound(session.phase, s);
      Read(session, s, answers, k) ==
        match r
        case Err(_) => Reading([], session, Broke, s)
        case Ok((Leaving, rest)) => Reading([], session, Left, rest)
        case Ok((Abandoned, rest)) => Reading([], session, WasAbandoned, rest)
        case Ok((Rejected(op), rest)) =>
          if answers(k).THROWN? then Reading([Rejected(op)], session, AnswerThrew, rest)
          else Read(session, s, answers, k)
        case Ok((Taken(c), rest)) =>
          if answers(k).THROWN? then Reading([Taken(c)], After(session, c, answers(k)), AnswerThrew, rest)
          else Read(session, s, answers, k)
  {
    hide After;
  }

  // ---- Framing ----

  /** A command the receiver takes in a state: one of its opcodes, with a race, class and direction that exist. */
  predicate Legal(phase: Phase, c: Command) {
    Handles(phase, Opcode(c)) && (c.SelectRaceClass? ==> c.race <= 3 && c.klass <= 3) && (c.Move? ==> c.direction <= 3)
  }

  predicate HasPayload(c: Command) {
    !(c.ListMatches? || c.Meditate? || c.PickUp? || c.Resurrect? || c.LeaveMatch? || c.Disconnect?)
  }

  lemma PayloadBack(c: Command, t: seq<byte>)
    requires Sendable(c) && !c.Disconnect?
    ensures var r := GetPayload(Opcode(c), PutPayload(c, t));
      if (c.SelectRaceClass? ==> c.race <= 3 && c.klass <= 3) && (c.Move? ==> c.direction <= 3) then r == Ok((c, t))
      else r == Err(MEANINGLESS)
  {
    hide GetU8, GetU16, GetU32, GetI32, GetText, U8, U16, U32, I32, PutText;
  }

  /** A command is read back, with nothing of what follows it touched, exactly when it is legal where it is read. */
  lemma {:induction false} CommandFramed(phase: Phase, c: Command, t: seq<byte>)
    requires Sendable(c) && !c.Disconnect?
    ensures ReadRound(phase, Encode(c, t)) == Ok((Taken(c), t)) <==> Legal(phase, c)
  {
    hide GetU8, GetPayload, PutPayload;
    PayloadBack(c, t);
  }

  lemma PayloadLength(c: Command, t: seq<byte>)
    ensures |t| <= |PutPayload(c, t)|
    ensures HasPayload(c) ==> |t| < |PutPayload(c, t)|
  {
  }

  /** A rejected opcode leaves its payload behind; the stream stays in step exactly when there was none. */
  lemma RejectedOpcode(phase: Phase, c: Command, t: seq<byte>)
    requires phase != DISCONNECTING && !c.Disconnect? && !Handles(phase, Opcode(c))
    ensures ReadRound(phase, Encode(c, t)) == Ok((Rejected(Opcode(c)), PutPayload(c, t)))
    ensures PutPayload(c, t) == t <==> !HasPayload(c)
  {
    PayloadLength(c, t);
  }

  /** Commands each legal in the state it is read in, none of which ends the run. */
  predicate LegalRun(session: Session, cs: seq<Command>, answers: nat -> Answer, k: nat)
    decreases |cs|
  {
    cs != [] ==>
      && Sendable(cs[0]) && !cs[0].Disconnect? && Legal(session.phase, cs[0]) && !answers(k).THROWN?
      && LegalRun(After(session, cs[0], answers(k)), cs[1..], answers, k + 1)
  }

  function AfterAll(session: Session, cs: seq<Command>, answers: nat -> Answer, k: nat): Session
    decreases |cs|
  {
    if cs == [] then session else AfterAll(After(session, cs[0], answers(k)), cs[1..], answers, k + 1)
  }

  function Rounds(cs: seq<Command>): seq<Round> {
    seq(|cs|, i requires 0 <= i < |cs| => Taken(cs[i]))
  }

  lemma FirstRound(cs: seq<Command>, later: seq<Round>)
    requires cs != []
    ensures Rounds(cs) + later == [Taken(cs[0])] + (Rounds(cs[1..]) + later)
  {
  }

  /**
   * Over a run of commands each legal where it is read, whatever the server answers, the receiver reads exactly those
   * commands and takes exactly their bytes: it goes on with what follows.
   */
  lemma {:induction false} LegalRunFramed(session: Session, cs: seq<Command>, answers: nat -> Answer, k: nat,
      t: seq<byte>)
    requires LegalRun(session, cs, answers, k)
    ensures var later := Read(AfterAll(session, cs, answers, k), t, answers, k + |cs|);
      Read(session, Many(Encode, cs, t), answers, k) == later.(rounds := Rounds(cs) + later.rounds)
    decreases |cs|
  {
    hide ReadRound, Encode, After;
    var later := Read(AfterAll(session, cs, answers, k), t, answers, k + |cs|);
    if cs == [] {
      assert Rounds(cs) + later.rounds == later.rounds;
    } else {
      CommandFramed(session.phase, cs[0], Many(Encode, cs[1..], t));
      LegalRunFramed(After(session, cs[0], answers(k)), cs[1..], answers, k + 1, t);
      FirstRound(cs, later.rounds);
    }
  }

  /** Being in a match and having its id go together. */
  predicate Coherent(session: Session) {
    session.phase == IN_MATCH <==> session.matchId != 0
  }

  /** As no match has id 0, a command legal in a match always finds the id of one. */
  lemma {:induction false} StaysCoherent(session: Session, cs: seq<Command>, answers: nat -> Answer, k: nat)
    requires Coherent(session) && LegalRun(session, cs, answers, k)
    requires forall i | 0 <= i < |cs| :: cs[i].JoinMatch? && answers(k + i) == ACCEPTED ==> cs[i].matchId != 0
    ensures Coherent(AfterAll(session, cs, answers, k))
    decreases |cs|
  {
    if cs != [] {
      forall i | 0 <= i < |cs[1..]| && cs[1..][i].JoinMatch? && answers(k + 1 + i) == ACCEPTED
        ensures cs[1..][i].matchId != 0
      {
        assert cs[1..][i] == cs[i + 1] && answers(k + (i + 1)) == ACCEPTED;
      }
      assert answers(k + 0) == answers(k);
      StaysCoherent(After(session, cs[0], answers(k)), cs[1..], answers, k + 1);
    }
  }

  lemma OneLonger(rounds: seq<Round>, r: Round, later: seq<Round>)
    ensures rounds + ([r] + later) == rounds + [r] + later
  {
  }

  /** The receiver's thread. */
  class Receiver {
    const socket: Socket
    var session: Session
    var asked: nat

    constructor (socket: Socket)
      ensures this.socket == socket && session == Session(CONNECTED, 0) && asked == 0
    {
      this.socket := socket;
      session, asked := Session(CONNECTED, 0), 0;
    }

    /** The loop, until the client leaves, the stream breaks off or makes no sense, or an answer throws. */
    method Run(answers: nat -> Answer) returns (rounds: seq<Round>, ending: Ending)
      modifies this, socket`incoming
      ensures var all := Read(old(session), old(socket.incoming), answers, old(asked));
        && rounds == all.rounds && session == all.session && ending == all.ending
        && (ending != Broke ==> socket.incoming == all.unread)
    {
      hide GetU8, GetPayload, After, Handles, Read;
      rounds := [];
      while true
        invariant var all := Read(old(session), old(socket.incoming), answers, old(asked));
          var later := Read(session, socket.incoming, answers, asked);
          all == later.(rounds := rounds + later.rounds)
        decreases |socket.incoming|
      {
        ghost var s := socket.incoming;
        ReadEnds(session, s, answers, asked);
        var op := socket.RecvU8();
        if op.Err? {
          return rounds, Broke;
        }
        if op.value == DISCONNECT {
          return rounds, Left;
        }
        if session.phase == DISCONNECTING {
          return rounds, WasAbandoned;
        }
        if !Handles(session.phase, op.value) {
          if answers(asked).THROWN? {
            return rounds + [Rejected(op.value)], AnswerThrew;
          }
          ReadOn(session, s, answers, asked, op.value, socket.incoming);
          ghost var later := Read(session, socket.incoming, answers, asked + 1);
          OneLonger(rounds, Rejected(op.value), later.rounds);
          rounds, asked := rounds + [Rejected(op.value)], asked + 1;
          continue;
        }
        var c := RecvPayload(op.value);
        if c.Err? {
          return rounds, Broke;
        }
        if answers(asked).THROWN? {
          session := After(session, c.value, answers(asked));
          return rounds + [Taken(c.value)], AnswerThrew;
        }
        ReadCommand(session, s, answers, asked, c.value, socket.incoming);
        ghost var later := Read(After(session, c.value, answers(asked)), socket.incoming, answers, asked + 1);
        OneLonger(rounds, Taken(c.value), later.rounds);
        rounds := rounds + [Taken(c.value)];
        session, asked := After(session, c.value, answers(asked)), asked + 1;
      }
    }

    method RecvPayload(op: byte) returns (r: Result<Command, WireError>)
      modifies socket`incoming
      ensures Agrees(r, GetPayload(op, old(socket.incoming)), socket.incoming)
    {
      hide GetU8, GetU16, GetU32, GetI32, GetText;
      match op
      case 0x01 =>
        var nick :- socket.RecvString();
        return Ok(Login(nick));
      case 0x02 => return Ok(ListMatches);
      case 0x03 =>
        var name :- socket.RecvString();
        var max :- socket.RecvU8();
        return Ok(CreateMatch(name, max));
      case 0x04 =>
        var m :- socket.RecvU32();
        return Ok(JoinMatch(m));
      case 0x05 =>
        var race :- socket.RecvU8();
        var klass :- socket.RecvU8();
        return if race <= 3 && klass <= 3 then Ok(SelectRaceClass(race, klass)) else Err(MEANINGLESS);
      case 0x10 =>
        var d :- socket.RecvU8();
        return if d <= 3 then Ok(Move(d)) else Err(MEANINGLESS);
      case 0x11 =>
        var target :- socket.RecvU32();
        return Ok(Attack(target));
      case 0x12 => return Ok(Meditate);
      case 0x13 => return Ok(PickUp);
      case 0x14 =>
        var slot :- socket.RecvU8();
        return Ok(DropItem(slot));
      case 0x15 =>
        var slot :- socket.RecvU8();
        return Ok(EquipItem(slot));
      case 0x16 =>
        var npc :- socket.RecvU32();
        var kind :- socket.RecvU8();
        var arg :- socket.RecvString();
        var amount :- socket.RecvI32();
        return Ok(Interact(npc, kind, arg, amount));
      case 0x17 =>
        var action :- socket.RecvU8();
        var arg :- socket.RecvString();
        return Ok(Clan(action, arg));
      case 0x18 => return Ok(Resurrect);
      case 0x19 =>
        var kind :- socket.RecvU8();
        return Ok(Cheat(kind));
      case 0x20 =>
        var text :- socket.RecvString();
        return Ok(Chat(text));
      case 0x21 =>
        var nick :- socket.RecvString();
        var text :- socket.RecvString();
        return Ok(PrivateChat(nick, text));
      case 0xFE => return Ok(LeaveMatch);
      case _ => return Err(MEANINGLESS);
    }
  }

  /** The client's writers: a command leaves whole or not at all, unless the connection fails in the middle of it. */
  method SendCommand(socket: Socket, c: Command, accepts: nat -> nat) returns (r: Outcome)
    modifies socket`sent
    ensures !Sendable(c) ==> r == Err(TOO_LONG) && socket.sent == old(socket.sent)
    ensures r.Ok? ==> forall rest {:trigger socket.sent + rest} ::
      socket.sent + rest == old(socket.sent) + Encode(c, rest)
    ensures old(socket.sent) <= socket.sent
    ensures Sendable(c) ==> socket.sent <= old(socket.sent) + Encode(c, [])
    ensures Sendable(c) && r.Err? ==> socket.sent != old(socket.sent) + Encode(c, [])
    ensures Sendable(c) && (forall k :: 0 < accepts(k)) ==> r.Ok?
  {
    hide PutPayload, Sendable, Opcode;
    var buf := new Buffer();
    buf.PutU8(Opcode(c));
    var _ :- WritePayload(buf, c);
    assert buf.bytes == buf.bytes + [] == Encode(c, []);
    var sending := socket.SendAll(buf.bytes, accepts);
    return if sending.Ok? then Ok(()) else Err(FAILED(sending.error));
  }

  method WritePayload(buf: Buffer, c: Command) returns (r: Outcome)
    modifies buf
    ensures r == if Sendable(c) then Ok(()) else Err(TOO_LONG)
    ensures r.Ok? ==> forall rest {:trigger buf.bytes + rest} ::
      buf.bytes + rest == old(buf.bytes) + PutPayload(c, rest)
  {
    match c {
    case Login(nick) => var _ :- buf.PutString(nick);
    case CreateMatch(name, max) =>
      var _ :- buf.PutString(name);
      buf.PutU8(max);
    case JoinMatch(m) => buf.PutU32(m);
    case SelectRaceClass(race, klass) =>
      buf.PutU8(race);
      buf.PutU8(klass);
    case Move(d) => buf.PutU8(d);
    case Attack(target) => buf.PutU32(target);
    case DropItem(slot) => buf.PutU8(slot);
    case EquipItem(slot) => buf.PutU8(slot);
    case Interact(npc, kind, arg, amount) =>
      buf.PutU32(npc);
      buf.PutU8(kind);
      var _ :- buf.PutString(arg);
      buf.PutI32(amount);
    case Clan(action, arg) =>
      buf.PutU8(action);
      var _ :- buf.PutString(arg);
    case Cheat(kind) => buf.PutU8(kind);
    case Chat(text) => var _ :- buf.PutString(text);
    case PrivateChat(nick, text) =>
      var _ :- buf.PutString(nick);
      var _ :- buf.PutString(text);
    case _ =>
    }
    return Ok(());
  }
}
