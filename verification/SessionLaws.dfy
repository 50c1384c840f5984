/** What the steps of the lobby come to for those who take them. */
module SessionLaws {
  import opened Prelude
  import opened Bytes
  import opened Sessions
  import Commands

  /** The connection's thread is between two commands, in this state. */
  ghost predicate At(l: Lobby, c: nat, phase: Phase) {
    c in l.conns && l.conns[c].pc == RUNNING && l.conns[c].phase == phase
  }

  /** Only this connection has changed. */
  ghost predicate OnlyConn(l: Lobby, c: nat, k: Conn, l': Lobby) {
    l'.conns == l.conns[c := k]
  }

  lemma RunTwo(l: Lobby, a: Step, b: Step)
    ensures Run(l, [a, b]) == Do(Do(l, a), b)
  {
    hide Do;
    assert [a, b][1..] == [b] && [b][1..] == [];
    assert Run(Do(l, a), [b]) == Run(Do(Do(l, a), b), []);
  }

  lemma RunThree(l: Lobby, a: Step, b: Step, c: Step)
    ensures Run(l, [a, b, c]) == Do(Do(Do(l, a), b), c)
  {
    hide Do;
    assert [a, b, c][1..] == [b, c];
    RunTwo(Do(l, a), b, c);
  }

  /** A server starts with the saved matches under the ids from 1 on, empty, and nobody connected. */
  lemma Starts(saves: seq<MatchSave>, k: nat)
    requires k < |saves|
    ensures var l := Started(saves);
            && l.conns == map[] && l.nicks == {} && l.nextMatch == |saves| + 1 && l.nextPlayer == 1
            && (forall m :: m in l.matches <==> 0 < m <= |saves|)
            && l.matches[k + 1] == Roster(saves[k].name, saves[k].max, [], 0)
  {
  }

  // ---- Coming in ----

  lemma Connects(l: Lobby, c: nat)
    requires c !in l.conns
    ensures var l' := Do(l, Accept(c));
            && l'.conns == l.conns[c := Conn([], 0, Commands.CONNECTED, 0, RUNNING)]
            && l'.nicks == l.nicks && l'.matches == l.matches
            && l'.nextMatch == l.nextMatch && l'.nextPlayer == l.nextPlayer
  {
  }

  /** A nick nobody uses is taken, with the next player id, and leads to the lobby; any other leaves all as it was. */
  lemma LogsIn(l: Lobby, c: nat, nick: Text)
    requires At(l, c, Commands.CONNECTED)
    ensures nick == [] || nick in l.nicks ==> Do(l, Login(c, nick)) == l
    ensures nick != [] && nick !in l.nicks ==>
              var l' := Run(l, [Login(c, nick), MarkAuthenticated(c)]);
              && l'.conns == l.conns[c := Conn(nick, l.nextPlayer, Commands.AUTHENTICATED, l.conns[c].matchId, RUNNING)]
              && l'.nicks == l.nicks + {nick} && l'.nextPlayer == l.nextPlayer + 1
              && l'.matches == l.matches && l'.nextMatch == l.nextMatch
  {
    RunTwo(l, Login(c, nick), MarkAuthenticated(c));
  }

  /** Two connections never get in under one nick, one after the other. */
  lemma SecondLoginFails(l: Lobby, c: nat, d: nat, nick: Text)
    requires c != d && At(l, c, Commands.CONNECTED) && At(l, d, Commands.CONNECTED)
    ensures var l' := Do(l, Login(c, nick)); Do(l', Login(d, nick)) == l'
  {
  }

  // ---- Matches ----

  /** A new match has the name and the places asked for, and nobody in it; empty or used names, or no places, fail. */
  lemma Creates(l: Lobby, c: nat, name: Text, max: nat)
    requires At(l, c, Commands.AUTHENTICATED) && max <= 255
    ensures var l' := Do(l, Create(c, name, max));
            if name != [] && 0 < max && forall m | m in l.matches :: l.matches[m].name != name then
              && l'.matches == l.matches[l.nextMatch := Roster(name, max, [], 0)] && l'.nextMatch == l.nextMatch + 1
              && l'.conns == l.conns && l'.nicks == l.nicks && l'.nextPlayer == l.nextPlayer
            else l' == l
  {
  }

  lemma SecondOfNameFails(l: Lobby, c: nat, d: nat, name: Text, max: nat, max': nat)
    requires At(l, c, Commands.AUTHENTICATED) && At(l, d, Commands.AUTHENTICATED)
    requires 0 < max <= 255 && max' <= 255
    ensures var l' := Do(l, Create(c, name, max)); Do(l', Create(d, name, max')) == l'
  {
    var l' := Do(l, Create(c, name, max));
    if l' != l {
      assert l.nextMatch in l'.matches && l'.matches[l.nextMatch].name == name;
    }
  }

  /**
   * A match with a place left takes whoever asks, at the end of its list, and the connection ends up in that match; a
   * full one, or one that does not exist, changes nothing.
   */
  lemma Joins(l: Lobby, c: nat, m: nat)
    requires At(l, c, Commands.AUTHENTICATED) && (m in l.matches ==> SoundRoster(l.matches[m]))
    ensures m !in l.matches || |l.matches[m].players| == l.matches[m].max ==> Do(l, Join(c, m)) == l
    ensures m in l.matches && |l.matches[m].players| < l.matches[m].max ==>
              var l' := Run(l, [Join(c, m), SetMatch(c), EnterMatch(c)]);
              && l'.conns == l.conns[c := Conn(l.conns[c].nick, l.conns[c].pid, Commands.IN_MATCH, m, RUNNING)]
              && l'.matches.Keys == l.matches.Keys
              && l'.matches[m].players == l.matches[m].players + [c]
              && l'.matches[m].current == |l'.matches[m].players|
              && l'.matches[m].name == l.matches[m].name && l'.matches[m].max == l.matches[m].max
              && (forall n | n in l.matches && n != m :: l'.matches[n] == l.matches[n])
              && l'.nicks == l.nicks && l'.nextMatch == l.nextMatch && l'.nextPlayer == l.nextPlayer
  {
    RunThree(l, Join(c, m), SetMatch(c), EnterMatch(c));
  }

  /** The last place is given away, and then there is none. */
  lemma LastPlace(l: Lobby, c: nat, d: nat, m: nat)
    requires At(l, c, Commands.AUTHENTICATED) && At(l, d, Commands.AUTHENTICATED) && c != d
    requires m in l.matches && SoundRoster(l.matches[m]) && |l.matches[m].players| == l.matches[m].max - 1
    ensures var l' := Do(l, Join(c, m));
            c in l'.matches[m].players && Do(l', Join(d, m)) == l'
  {
  }

  lemma {:induction false} WithoutKeeps(s: seq<nat>, c: nat, t: seq<nat>)
    ensures Without(s + t, c) == Without(s, c) + Without(t, c)
  {
    if s == [] {
      assert s + t == t;
    } else {
      assert (s + t)[1..] == s[1..] + t;
      WithoutKeeps(s[1..], c, t);
    }
  }

  lemma OneLeft(l: Lobby, c: nat)
    requires At(l, c, Commands.IN_MATCH) && l.conns[c].matchId != 0 && l.conns[c].matchId in l.matches
    ensures var k, m := l.conns[c], l.conns[c].matchId;
            Do(Do(Do(l, Leave(c)), ClearMatch(c)), BackToLobby(c))
            == l.(conns := l.conns[c := Conn(k.nick, k.pid, Commands.AUTHENTICATED, 0, RUNNING)],
                  matches := l.matches[m := Removed(l.matches[m], c)])
  {
    hide Removed;
    var k := l.conns[c];
    var l1 := Do(l, Leave(c));
    assert l1 == Moved(OutOfMatch(l, c), c, k.(pc := LEFT));
    var l2 := Do(l1, ClearMatch(c));
    assert l2 == Moved(l1, c, k.(matchId := 0, pc := LEFT_CLEARED));
    assert Do(l2, BackToLobby(c)) == Moved(l2, c, k.(matchId := 0, phase := Commands.AUTHENTICATED, pc := RUNNING));
    hide Do;
  }

  lemma OneGone(l: Lobby, c: nat, phase: Phase)
    requires At(l, c, phase)
    ensures var k, m := l.conns[c], l.conns[c].matchId;
            Do(Do(Do(l, Stop(c)), DisconnectLeave(c)), DisconnectFree(c))
            == l.(conns := l.conns[c := Conn(k.nick, k.pid, Commands.DISCONNECTING, m, GONE)],
                  nicks := if k.nick == [] then l.nicks else l.nicks - {k.nick},
                  matches := if phase == Commands.IN_MATCH && m != 0 && m in l.matches
                             then l.matches[m := Removed(l.matches[m], c)] else l.matches)
  {
    hide Removed;
    var k := l.conns[c];
    var l1 := Do(l, Stop(c));
    assert l1 == Moved(l, c, k.(pc := DYING));
    var l2 := Do(l1, DisconnectLeave(c));
    assert l2 == Moved(if k.phase == Commands.IN_MATCH then OutOfMatch(l1, c) else l1, c, k.(pc := DYING_LEFT));
    assert Do(l2, DisconnectFree(c))
           == Moved(l2, c, k.(phase := Commands.DISCONNECTING, pc := GONE)).(nicks := Freed(l2, k.nick));
    hide Do;
  }

  lemma OthersStay(s: seq<nat>, c: nat, front: seq<nat>, back: seq<nat>)
    requires NoTwice(s) && s == front + [c] + back
    ensures Without(s, c) == front + back
  {
    NotAround(s, c, front, back);
    assert Without([c], c) == [] by {
      assert [c][1..] == [] && Without([], c) == [];
    }
    hide NoTwice, Without;
    WithoutKeeps(front + [c], c, back);
    WithoutKeeps(front, c, [c]);
    WithoutNobody(front, c);
    WithoutNobody(back, c);
  }

  lemma NotAround(s: seq<nat>, c: nat, front: seq<nat>, back: seq<nat>)
    requires NoTwice(s) && s == front + [c] + back
    ensures c !in front && c !in back
  {
    assert s[|front|] == c;
    forall i | 0 <= i < |front| ensures front[i] != c {
      assert s[i] == front[i];
    }
    forall i | 0 <= i < |back| ensures back[i] != c {
      assert s[|front| + 1 + i] == back[i];
    }
  }

  /** Whoever leaves is out of the list, the others keep their order, and the connection is back in the lobby. */
  lemma Leaves(l: Lobby, c: nat, m: nat, front: seq<nat>, back: seq<nat>)
    requires Sound(l) && At(l, c, Commands.IN_MATCH) && l.conns[c].matchId == m && m in l.matches
    requires l.matches[m].players == front + [c] + back
    ensures var l' := Run(l, [Leave(c), ClearMatch(c), BackToLobby(c)]);
            && l'.conns == l.conns[c := Conn(l.conns[c].nick, l.conns[c].pid, Commands.AUTHENTICATED, 0, RUNNING)]
            && l'.matches == l.matches[m := l.matches[m].(players := front + back, current := |front + back|)]
            && l'.nicks == l.nicks && l'.nextMatch == l.nextMatch && l'.nextPlayer == l.nextPlayer
  {
    assert SoundRoster(l.matches[m]) && m != 0;
    OthersStay(l.matches[m].players, c, front, back);
    OneLeft(l, c);
    hide Sound, Without, Do;
    RunThree(l, Leave(c), ClearMatch(c), BackToLobby(c));
  }

  /** A connection that goes, from wherever it was, gives back its nick and its place. */
  lemma Goes(l: Lobby, c: nat, phase: Phase)
    requires Sound(l) && At(l, c, phase)
    ensures var k, l' := l.conns[c], Run(l, [Stop(c), DisconnectLeave(c), DisconnectFree(c)]);
            && l'.conns == l.conns[c := Conn(k.nick, k.pid, Commands.DISCONNECTING, k.matchId, GONE)]
            && (k.nick != [] ==> l'.nicks == l.nicks - {k.nick}) && (k.nick == [] ==> l'.nicks == l.nicks)
            && l'.nextMatch == l.nextMatch && l'.nextPlayer == l.nextPlayer
            && l'.matches.Keys == l.matches.Keys
            && (forall m | m in l.matches && !(phase == Commands.IN_MATCH && k.matchId == m) ::
                  l'.matches[m] == l.matches[m])
    ensures phase == Commands.IN_MATCH ==>
              var m, l' := l.conns[c].matchId, Run(l, [Stop(c), DisconnectLeave(c), DisconnectFree(c)]);
              && m in l'.matches && c !in l'.matches[m].players
              && l'.matches[m].current == |l'.matches[m].players| == |l.matches[m].players| - 1
  {
    if phase == Commands.IN_MATCH {
      InTheList(l, c);
    }
    OneGone(l, c, phase);
    hide Sound, Without, Do;
    RunThree(l, Stop(c), DisconnectLeave(c), DisconnectFree(c));
  }

  lemma InTheList(l: Lobby, c: nat)
    requires Sound(l) && At(l, c, Commands.IN_MATCH)
    ensures var m := l.conns[c].matchId;
            && m != 0 && m in l.matches && 0 < l.matches[m].current == |l.matches[m].players|
            && |Without(l.matches[m].players, c)| == |l.matches[m].players| - 1
            && c !in Without(l.matches[m].players, c)
  {
    var m := l.conns[c].matchId;
    assert Membership(l.conns, c) == Some(m);
    assert Listed(l.matches, m, c);
    WithoutGone(l.matches[m].players, c);
  }

  /** Reaping a connection that has gone removes it and frees nothing more. */
  lemma Reaped(l: Lobby, c: nat)
    requires c in l.conns && l.conns[c].pc == GONE && l.conns[c].phase == Commands.DISCONNECTING
    ensures Do(l, Reap(c)) == l.(conns := l.conns - {c})
  {
  }
}
