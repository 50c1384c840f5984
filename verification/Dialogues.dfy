/** Commands from a client to the server's receiver, over a stream that may break anywhere. */
module Dialogues {
  import opened Prelude
  import opened Bytes
  import opened Wire
  import opened Commands
  import Connections

  lemma PayloadIsStable(op: byte, s: seq<byte>, t: seq<byte>)
    requires GetPayload(op, s).Ok?
    ensures Connections.Reread(GetPayload(op, s), GetPayload(op, s + t), s, t)
  {
    Connections.PrimitivesAreStable();
    hide GetU8, GetU32, GetI32, GetText;
  }

  /** A piece of a command short of the whole is not taken for a command. */
  lemma CutCommand(phase: Phase, c: Command, part: seq<byte>)
    requires Sendable(c) && !c.Disconnect? && Legal(phase, c) && part < Encode(c, [])
    ensures ReadRound(phase, part).Err?
  {
    hide GetPayload, PutPayload;
    if part != [] {
      var op, rest := Opcode(c), part[1..];
      assert Encode(c, []) == [op] + PutPayload(c, []);
      if GetPayload(op, rest).Ok? {
        var tail := Encode(c, [])[|part|..];
        assert rest + tail == PutPayload(c, []);
        PayloadIsStable(op, rest, tail);
        PayloadBack(c, []);
      }
    }
  }

  /** In a legal run every beginning is legal, and so is the command after it. */
  lemma {:induction false} LegalBeginning(session: Session, cs: seq<Command>, answers: nat -> Answer, k: nat, n: nat)
    requires LegalRun(session, cs, answers, k) && n <= |cs|
    ensures LegalRun(session, cs[..n], answers, k)
    ensures n < |cs| ==>
              && Sendable(cs[n]) && !cs[n].Disconnect?
              && Legal(AfterAll(session, cs[..n], answers, k).phase, cs[n])
    decreases n
  {
    hide Legal, Sendable, After;
    if n > 0 {
      LegalBeginning(After(session, cs[0], answers(k)), cs[1..], answers, k + 1, n - 1);
      assert cs[..n][1..] == cs[1..][..n - 1];
    }
  }

  /** The client's commands, one after the other, until the connection fails. */
  method RunClient(socket: Socket, cs: seq<Command>, accepts: nat -> nat) returns (count: nat, ghost part: seq<byte>)
    requires forall c | c in cs :: Sendable(c)
    modifies socket`sent
    ensures count <= |cs|
    ensures socket.sent == old(socket.sent) + Many(Encode, cs[..count], part)
    ensures part == [] || (count < |cs| && part < Encode(cs[count], []))
    ensures count == |cs| ==> forall rest {:trigger socket.sent + rest} ::
      socket.sent + rest == old(socket.sent) + Many(Encode, cs, rest)
    ensures (forall k :: 0 < accepts(k)) ==> count == |cs|
  {
    hide Encode, Sendable;
    count, part := 0, [];
    while count < |cs|
      invariant count <= |cs|
      invariant forall rest {:trigger socket.sent + rest} ::
        socket.sent + rest == old(socket.sent) + Many(Encode, cs[..count], rest)
    {
      ghost var was := socket.sent;
      var r := SendCommand(socket, cs[count], accepts);
      if r.Err? {
        part := socket.sent[|was|..];
        assert socket.sent == was + part;
        return;
      }
      assert cs[..count + 1] == cs[..count] + [cs[count]];
      forall rest
        ensures socket.sent + rest == old(socket.sent) + Many(Encode, cs[..count + 1], rest)
      {
        ManyLast(Encode, cs[..count], cs[count], rest);
        assert was + Encode(cs[count], rest) == old(socket.sent) + Many(Encode, cs[..count], Encode(cs[count], rest));
      }
      count := count + 1;
    }
    assert socket.sent + [] == socket.sent && cs[..count] == cs;
  }

  /** Where the stream breaks off, the receiver has exactly the commands that came whole, and stops there. */
  lemma BrokenRun(session: Session, cs: seq<Command>, answers: nat -> Answer, n: nat, part: seq<byte>)
    requires LegalRun(session, cs, answers, 0) && n <= |cs|
    requires part == [] || (n < |cs| && part < Encode(cs[n], []))
    ensures Read(session, Many(Encode, cs[..n], part), answers, 0)
            == Reading(Rounds(cs[..n]), AfterAll(session, cs[..n], answers, 0), Broke, part)
  {
    hide Encode, Legal, Sendable, After;
    LegalBeginning(session, cs, answers, 0, n);
    LegalRunFramed(session, cs[..n], answers, 0, part);
    var there := AfterAll(session, cs[..n], answers, 0);
    if part != [] {
      CutCommand(there.phase, cs[n], part);
    }
    assert Read(there, part, answers, |cs[..n]|) == Reading([], there, Broke, part);
    assert Rounds(cs[..n]) + [] == Rounds(cs[..n]);
  }

  /** A run of commands with a farewell behind it. */
  lemma WholeRun(session: Session, cs: seq<Command>, answers: nat -> Answer)
    requires LegalRun(session, cs, answers, 0)
    ensures Read(session, Many(Encode, cs, Encode(Disconnect, [])), answers, 0)
            == Reading(Rounds(cs), AfterAll(session, cs, answers, 0), Left, [])
  {
    hide Legal, Sendable, After;
    LegalRunFramed(session, cs, answers, 0, Encode(Disconnect, []));
    assert Rounds(cs) + [] == Rounds(cs);
  }

  /** The client's commands and its farewell; whole tells whether everything got out. */
  method SayAll(socket: Socket, cs: seq<Command>, accepts: nat -> nat)
    returns (count: nat, whole: bool, ghost part: seq<byte>)
    requires forall c | c in cs :: Sendable(c)
    requires socket.sent == []
    modifies socket`sent
    ensures count <= |cs| && (whole ==> count == |cs|)
    ensures socket.sent
            == if whole then Many(Encode, cs, Encode(Disconnect, [])) else Many(Encode, cs[..count], part)
    ensures part == [] || (count < |cs| && part < Encode(cs[count], []))
    ensures (forall k :: 0 < accepts(k)) ==> whole
  {
    FarewellIsOneByte();
    hide Encode;
    count, part := RunClient(socket, cs, accepts);
    if count < |cs| {
      return count, false, part;
    }
    assert cs[..count] == cs && part == [];
    ghost var was := socket.sent;
    var r := SendCommand(socket, Disconnect, accepts);
    whole := r.Ok?;
    if whole {
      assert socket.sent == socket.sent + [] == was + Encode(Disconnect, []);
    } else {
      NoneOfOne(was, socket.sent, Encode(Disconnect, []));
    }
  }

  /**
   * End to end: of commands each legal where it is read, whatever the server answers, however the stream is cut up and
   * wherever it fails, the receiver takes exactly those sent whole, in order; with a connection that holds, all of
   * them, and it sees the client leave.
   */
  method Talk(cs: seq<Command>, answers: nat -> Answer, accepts: nat -> nat)
    returns (rounds: seq<Round>, session: Session, ending: Ending, count: nat)
    requires LegalRun(Session(CONNECTED, 0), cs, answers, 0)
    ensures count <= |cs| && rounds == Rounds(cs[..count])
    ensures session == AfterAll(Session(CONNECTED, 0), cs[..count], answers, 0)
    ensures ending == Left || ending == Broke
    ensures ending == Left ==> count == |cs|
    ensures (forall k :: 0 < accepts(k)) ==> ending == Left
  {
    hide Encode, Read, LegalRun;
    var start := Session(CONNECTED, 0);
    AllSendable(start, cs, answers, 0);
    var out := new Socket([]);
    var whole;
    ghost var part;
    count, whole, part := SayAll(out, cs, accepts);
    if whole {
      assert cs[..count] == cs;
      WholeRun(start, cs, answers);
    } else {
      BrokenRun(start, cs, answers, count, part);
    }
    var socket := new Socket(out.sent);
    var receiver := new Receiver(socket);
    rounds, ending := receiver.Run(answers);
    session := receiver.session;
  }

  lemma NoneOfOne(was: seq<byte>, now: seq<byte>, one: seq<byte>)
    requires was <= now <= was + one && |one| == 1 && now != was + one
    ensures now == was
  {
  }

  lemma FarewellIsOneByte()
    ensures |Encode(Disconnect, [])| == 1
  {
  }

  lemma {:induction false} AllSendable(session: Session, cs: seq<Command>, answers: nat -> Answer, k: nat)
    requires LegalRun(session, cs, answers, k)
    ensures forall c | c in cs :: Sendable(c)
    decreases |cs|
  {
    hide Sendable, Legal, After;
    if cs != [] {
      AllSendable(After(session, cs[0], answers(k)), cs[1..], answers, k + 1);
    }
  }
}
