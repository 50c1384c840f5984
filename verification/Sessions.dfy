/**
 * Logins, matches and the players in them, under any interleaving of the connections' threads: one step for each
 * critical section and for each assignment between two of them.
 */
module Sessions {
  import opened Prelude
  import opened Bytes
  import Commands

  type Phase = Commands.Phase

  /** Where a connection's thread stands between two steps. */
  datatype Pc =
    | RUNNING                // reading the next command
    | LOGGED_IN              // login done, state not yet set
    | JOINED(m: nat)         // in the match's list, match id not yet set
    | JOINED_SET(m: nat)     // match id set, state not
    | LEFT                   // out of the list, match id not yet cleared
    | LEFT_CLEARED           // match id cleared, state not set back
    | DYING                  // out of the loop, before disconnecting
    | DYING_LEFT             // out of any match, nick still taken
    | GONE                   // disconnected, to be reaped

  datatype Conn = Conn(nick: Text, pid: nat, phase: Phase, matchId: nat, pc: Pc)

  datatype Roster = Roster(name: Text, max: nat, players: seq<nat>, current: nat)

  datatype Lobby = Lobby(conns: map<nat, Conn>, nicks: set<Text>, matches: map<nat, Roster>, nextMatch: nat,
    nextPlayer: nat)

  datatype Step =
    | Accept(c: nat)
    | Login(c: nat, nick: Text)
    | MarkAuthenticated(c: nat)
    | Create(c: nat, name: Text, max: nat)
    | Join(c: nat, m: nat)
    | SetMatch(c: nat)
    | EnterMatch(c: nat)
    | Leave(c: nat)
    | ClearMatch(c: nat)
    | BackToLobby(c: nat)
    | Stop(c: nat)
    | DisconnectLeave(c: nat)
    | DisconnectFree(c: nat)
    | Reap(c: nat)

  // ---- What each step does ----

  function Without(s: seq<nat>, c: nat): seq<nat> {
    if s == [] then [] else if s[0] == c then Without(s[1..], c) else [s[0]] + Without(s[1..], c)
  }

  predicate IsFull(r: Roster) {
    r.current >= r.max
  }

  function Added(r: Roster, c: nat): Roster {
    r.(players := r.players + [c], current := r.current + 1)
  }

  /** The counter is decremented whether or not anyone was removed; it would wrap below 0. */
  function Removed(r: Roster, c: nat): Roster {
    r.(players := Without(r.players, c), current := if r.current > 0 then r.current - 1 else 255)
  }

  predicate NameTaken(l: Lobby, name: Text) {
    exists m :: m in l.matches && l.matches[m].name == name
  }

  function Moved(l: Lobby, c: nat, conn: Conn): Lobby {
    l.(conns := l.conns[c := conn])
  }

  /** Out of the match the connection's id names, if there is one. */
  function OutOfMatch(l: Lobby, c: nat): Lobby
    requires c in l.conns
  {
    var m := l.conns[c].matchId;
    if m == 0 || m !in l.matches then l else l.(matches := l.matches[m := Removed(l.matches[m], c)])
  }

  function Freed(l: Lobby, nick: Text): set<Text> {
    if nick == [] then l.nicks else l.nicks - {nick}
  }

  predicate CanLogin(l: Lobby, nick: Text) {
    nick != [] && nick !in l.nicks
  }

  predicate CanCreate(l: Lobby, name: Text, max: nat) {
    name != [] && max != 0 && !NameTaken(l, name)
  }

  predicate CanJoin(l: Lobby, m: nat) {
    m in l.matches && !IsFull(l.matches[m])
  }

  /** The thread is at the point where it takes the step. */
  predicate Enabled(l: Lobby, s: Step) {
    if s.Accept? then s.c !in l.conns
    else s.c in l.conns && var k := l.conns[s.c];
      match s
      case Login(_, _) => k.pc == RUNNING && k.phase == Commands.CONNECTED
      case MarkAuthenticated(_) => k.pc == LOGGED_IN
      case Create(_, _, max) => k.pc == RUNNING && k.phase == Commands.AUTHENTICATED && max <= 255
      case Join(_, _) => k.pc == RUNNING && k.phase == Commands.AUTHENTICATED
      case SetMatch(_) => k.pc.JOINED?
      case EnterMatch(_) => k.pc.JOINED_SET?
      case Leave(_) => k.pc == RUNNING && k.phase == Commands.IN_MATCH
      case ClearMatch(_) => k.pc == LEFT
      case BackToLobby(_) => k.pc == LEFT_CLEARED
      case Stop(_) => k.pc == RUNNING
      case DisconnectLeave(_) => k.pc == DYING
      case DisconnectFree(_) => k.pc == DYING_LEFT
      case Reap(_) => k.pc == GONE
      case Accept(_) => false
  }

  function Do(l: Lobby, s: Step): Lobby {
    if !Enabled(l, s) then l
    else if s.Accept? then Moved(l, s.c, Conn([], 0, Commands.CONNECTED, 0, RUNNING))
    else
      var c, k := s.c, l.conns[s.c];
      match s
      case Login(_, nick) =>
        if !CanLogin(l, nick) then l
        else
          Moved(l, c, k.(nick := nick, pid := l.nextPlayer, pc := LOGGED_IN))
          .(nicks := l.nicks + {nick}, nextPlayer := l.nextPlayer + 1)
      case MarkAuthenticated(_) => Moved(l, c, k.(phase := Commands.AUTHENTICATED, pc := RUNNING))
      case Create(_, name, max) =>
        if !CanCreate(l, name, max) then l
        else l.(matches := l.matches[l.nextMatch := Roster(name, max, [], 0)], nextMatch := l.nextMatch + 1)
      case Join(_, m) =>
        if !CanJoin(l, m) then l
        else Moved(l, c, k.(pc := JOINED(m))).(matches := l.matches[m := Added(l.matches[m], c)])
      case SetMatch(_) => Moved(l, c, k.(matchId := k.pc.m, pc := JOINED_SET(k.pc.m)))
      case EnterMatch(_) => Moved(l, c, k.(phase := Commands.IN_MATCH, pc := RUNNING))
      case Leave(_) => Moved(OutOfMatch(l, c), c, k.(pc := LEFT))
      case ClearMatch(_) => Moved(l, c, k.(matchId := 0, pc := LEFT_CLEARED))
      case BackToLobby(_) => Moved(l, c, k.(phase := Commands.AUTHENTICATED, pc := RUNNING))
      case Stop(_) => Moved(l, c, k.(pc := DYING))
      case DisconnectLeave(_) =>
        Moved(if k.phase == Commands.IN_MATCH then OutOfMatch(l, c) else l, c, k.(pc := DYING_LEFT))
      case DisconnectFree(_) =>
        Moved(l, c, k.(phase := Commands.DISCONNECTING, pc := GONE)).(nicks := Freed(l, k.nick))
      case Reap(_) =>
        l.(conns := l.conns - {c}, nicks := if k.phase == Commands.DISCONNECTING then l.nicks else Freed(l, k.nick))
  }

  function Run(l: Lobby, steps: seq<Step>): Lobby
    decreases |steps|
  {
    if steps == [] then l else Run(Do(l, steps[0]), steps[1..])
  }

  // ---- The invariant ----

  /** The match whose list a connection is in, by where its thread stands. */
  function MemberOf(k: Conn): Option<nat> {
    match k.pc
    case JOINED(m) => Some(m)
    case JOINED_SET(m) => Some(m)
    case RUNNING => if k.phase == Commands.IN_MATCH then Some(k.matchId) else None
    case DYING => if k.phase == Commands.IN_MATCH then Some(k.matchId) else None
    case _ => None
  }

  /** A connection holds a nick from its login until it has disconnected. */
  predicate Holds(k: Conn, nick: Text) {
    k.nick == nick && nick != [] && k.pc != GONE
  }

  /** A connection's state and match id at each point of its thread. */
  predicate Placed(k: Conn) {
    match k.pc
    case LOGGED_IN => k.phase == Commands.CONNECTED && k.nick != [] && k.matchId == 0
    case JOINED(m) => k.phase == Commands.AUTHENTICATED && k.nick != [] && k.matchId == 0 && m != 0
    case JOINED_SET(m) => k.phase == Commands.AUTHENTICATED && k.nick != [] && k.matchId == m && m != 0
    case LEFT => k.phase == Commands.IN_MATCH && k.nick != [] && k.matchId != 0
    case LEFT_CLEARED => k.phase == Commands.IN_MATCH && k.nick != [] && k.matchId == 0
    case GONE => k.phase == Commands.DISCONNECTING
    case DYING_LEFT => k.phase != Commands.DISCONNECTING
    case _ =>
      && k.phase != Commands.DISCONNECTING
      && (k.phase == Commands.CONNECTED <==> k.nick == [])
      && (k.phase == Commands.IN_MATCH <==> k.matchId != 0)
  }

  predicate NoTwice(s: seq<nat>) {
    forall i, j :: 0 <= i < j < |s| ==> s[i] != s[j]
  }

  /** The counter is the length of the list, which names nobody twice and stays within the maximum. */
  predicate SoundRoster(r: Roster) {
    r.current == |r.players| <= r.max <= 255 && r.max > 0 && NoTwice(r.players) && r.name != []
  }

  /** Ids below the next one, sound rosters, and no two of a name. */
  ghost predicate RostersSound(matches: map<nat, Roster>, nextMatch: nat) {
    && nextMatch > 0
    && (forall m | m in matches :: 0 < m < nextMatch && SoundRoster(matches[m]))
    && (forall m, n | m in matches && n in matches && m != n :: matches[m].name != matches[n].name)
  }

  function Membership(conns: map<nat, Conn>, c: nat): Option<nat> {
    if c in conns then MemberOf(conns[c]) else None
  }

  predicate Listed(matches: map<nat, Roster>, m: nat, c: nat) {
    m in matches && c in matches[m].players
  }

  /** Lists and connections agree on who is in which match. */
  ghost predicate Agree(conns: map<nat, Conn>, matches: map<nat, Roster>) {
    forall c, m: nat :: Listed(matches, m, c) <==> Membership(conns, c) == Some(m)
  }

  predicate HeldBy(conns: map<nat, Conn>, c: nat, nick: Text) {
    c in conns && Holds(conns[c], nick)
  }

  /** The nicks in use are exactly those held, each by one connection only. */
  ghost predicate NicksHeld(conns: map<nat, Conn>, nicks: set<Text>) {
    && (forall c, n | HeldBy(conns, c, n) :: n in nicks)
    && (forall n | n in nicks :: exists c :: HeldBy(conns, c, n))
    && (forall c, d, n | HeldBy(conns, c, n) && HeldBy(conns, d, n) :: c == d)
  }

  ghost predicate PidsDistinct(conns: map<nat, Conn>, nextPlayer: nat) {
    && (forall c | c in conns && conns[c].nick != [] :: conns[c].pid < nextPlayer)
    && (forall c, d | c in conns && d in conns && c != d && conns[c].nick != [] && conns[d].nick != [] ::
         conns[c].pid != conns[d].pid)
  }

  ghost predicate AllPlaced(conns: map<nat, Conn>) {
    forall c | c in conns :: Placed(conns[c])
  }

  ghost predicate Sound(l: Lobby) {
    && AllPlaced(l.conns) && RostersSound(l.matches, l.nextMatch) && Agree(l.conns, l.matches)
    && NicksHeld(l.conns, l.nicks) && PidsDistinct(l.conns, l.nextPlayer)
  }

  datatype MatchSave = MatchSave(name: Text, max: nat)

  /** Matches that create_match let through: named, each differently, with room for somebody. */
  ghost predicate Distinct(saves: seq<MatchSave>) {
    && (forall k | 0 <= k < |saves| :: saves[k].name != [] && 0 < saves[k].max <= 255)
    && (forall j, k | 0 <= j < k < |saves| :: saves[j].name != saves[k].name)
  }

  function Recreated(saves: seq<MatchSave>, m: nat): Roster
    requires 1 <= m <= |saves|
  {
    Roster(saves[m - 1].name, saves[m - 1].max, [], 0)
  }

  /** A server just started: the saved matches, empty, with ids from 1. */
  function Started(saves: seq<MatchSave>): Lobby {
    Lobby(map[], {}, map m: nat | 1 <= m <= |saves| :: Recreated(saves, m), |saves| + 1, 1)
  }

  lemma StartedIsSound(saves: seq<MatchSave>)
    requires Distinct(saves)
    ensures Sound(Started(saves))
  {
  }

  // ---- Every step keeps it ----

  lemma WithoutGone(s: seq<nat>, c: nat)
    requires NoTwice(s) && c in s
    ensures |Without(s, c)| == |s| - 1 && NoTwice(Without(s, c)) && c !in Without(s, c)
    ensures forall d :: d in Without(s, c) <==> d in s && d != c
  {
    assert s == [s[0]] + s[1..];
    if s[0] == c {
      WithoutNobody(s[1..], c);
    } else {
      assert NoTwice(s[1..]);
      WithoutGone(s[1..], c);
      assert s[0] !in s[1..];
    }
  }

  lemma WithoutNobody(s: seq<nat>, c: nat)
    requires c !in s
    ensures Without(s, c) == s
  {
  }

  /** A connection's step that changes neither its nick nor whether it has disconnected. */
  lemma HoldersCarryOver(l: Lobby, c: nat, k: Conn)
    requires c in l.conns && NicksHeld(l.conns, l.nicks) && PidsDistinct(l.conns, l.nextPlayer)
    requires k.nick == l.conns[c].nick && k.pid == l.conns[c].pid && (k.pc == GONE <==> l.conns[c].pc == GONE)
    ensures NicksHeld(l.conns[c := k], l.nicks) && PidsDistinct(l.conns[c := k], l.nextPlayer)
  {
    var conns := l.conns[c := k];
    forall d, n ensures HeldBy(conns, d, n) <==> HeldBy(l.conns, d, n) {
    }
  }

  lemma AgreeCarriesOver(conns: map<nat, Conn>, matches: map<nat, Roster>, c: nat, k: Conn)
    requires Agree(conns, matches) && MemberOf(k) == Membership(conns, c)
    ensures Agree(conns[c := k], matches)
  {
  }

  /** A step of a connection that changes neither its nick nor the match it is in. */
  lemma MovedKeepsSound(l: Lobby, c: nat, k: Conn)
    requires Sound(l) && c in l.conns && Placed(k)
    requires k.nick == l.conns[c].nick && k.pid == l.conns[c].pid && MemberOf(k) == MemberOf(l.conns[c])
    requires k.pc == GONE <==> l.conns[c].pc == GONE
    ensures Sound(Moved(l, c, k))
  {
    hide NicksHeld, PidsDistinct, Agree, RostersSound, Placed, MemberOf;
    HoldersCarryOver(l, c, k);
    AgreeCarriesOver(l.conns, l.matches, c, k);
  }

  lemma AcceptKeepsSound(l: Lobby, c: nat)
    requires Sound(l) && c !in l.conns
    ensures Sound(Do(l, Accept(c)))
  {
    hide Agree, RostersSound;
    var conns := Do(l, Accept(c)).conns;
    AgreeCarriesOver(l.conns, l.matches, c, conns[c]);
    forall d, n ensures HeldBy(conns, d, n) <==> HeldBy(l.conns, d, n) {
    }
  }

  lemma LoginKeepsSound(l: Lobby, c: nat, nick: Text)
    requires Sound(l) && Enabled(l, Login(c, nick)) && CanLogin(l, nick)
    ensures Sound(Do(l, Login(c, nick)))
  {
    hide Agree, RostersSound;
    var conns := Do(l, Login(c, nick)).conns;
    AgreeCarriesOver(l.conns, l.matches, c, conns[c]);
    forall d, n ensures HeldBy(conns, d, n) <==> if d == c then n == nick else HeldBy(l.conns, d, n) {
    }
    assert HeldBy(conns, c, nick);
    assert NicksHeld(conns, l.nicks + {nick});
  }

  lemma CreateKeepsSound(l: Lobby, c: nat, name: Text, max: nat)
    requires Sound(l) && Enabled(l, Create(c, name, max)) && CanCreate(l, name, max)
    ensures Sound(Do(l, Create(c, name, max)))
  {
  }

  lemma JoinKeepsSound(l: Lobby, c: nat, m: nat)
    requires Sound(l) && Enabled(l, Join(c, m)) && CanJoin(l, m)
    ensures Sound(Do(l, Join(c, m)))
  {
    hide NicksHeld, PidsDistinct;
    var l' := Do(l, Join(c, m));
    HoldersCarryOver(l, c, l'.conns[c]);
    assert !Listed(l.matches, m, c);
    forall d, n: nat ensures Listed(l'.matches, n, d) <==> Membership(l'.conns, d) == Some(n) {
      assert Listed(l.matches, n, d) <==> Membership(l.conns, d) == Some(n);
    }
  }

  lemma LeavingKeepsSound(l: Lobby, c: nat, k: Conn)
    requires Sound(l) && c in l.conns && MemberOf(l.conns[c]) == Some(l.conns[c].matchId)
    requires k == l.conns[c].(pc := LEFT) || k == l.conns[c].(pc := DYING_LEFT)
    requires Placed(k) && l.conns[c].pc != GONE
    ensures Sound(Moved(OutOfMatch(l, c), c, k))
  {
    hide NicksHeld, PidsDistinct;
    HoldersCarryOver(l, c, k);
    var l' := Moved(OutOfMatch(l, c), c, k);
    var m := l.conns[c].matchId;
    assert Listed(l.matches, m, c);
    WithoutGone(l.matches[m].players, c);
    forall d, n: nat ensures Listed(l'.matches, n, d) <==> Membership(l'.conns, d) == Some(n) {
      assert Listed(l.matches, n, d) <==> Membership(l.conns, d) == Some(n);
    }
  }

  lemma FreeKeepsSound(l: Lobby, c: nat)
    requires Sound(l) && Enabled(l, DisconnectFree(c))
    ensures Sound(Do(l, DisconnectFree(c)))
  {
    hide Agree, RostersSound;
    var conns := Do(l, DisconnectFree(c)).conns;
    AgreeCarriesOver(l.conns, l.matches, c, conns[c]);
    forall d, n ensures HeldBy(conns, d, n) <==> d != c && HeldBy(l.conns, d, n) {
    }
    var nick := l.conns[c].nick;
    assert nick != [] ==> HeldBy(l.conns, c, nick);
    forall n | n in l.nicks - {nick} ensures exists d :: HeldBy(conns, d, n) {
      var d :| HeldBy(l.conns, d, n);
      assert HeldBy(conns, d, n);
    }
  }

  lemma ReapKeepsSound(l: Lobby, c: nat)
    requires Sound(l) && Enabled(l, Reap(c))
    ensures Sound(Do(l, Reap(c)))
  {
    hide RostersSound;
    var conns := Do(l, Reap(c)).conns;
    assert Placed(l.conns[c]);
    forall d, m: nat ensures Listed(l.matches, m, d) <==> Membership(conns, d) == Some(m) {
      assert Listed(l.matches, m, d) <==> Membership(l.conns, d) == Some(m);
    }
    forall d, n ensures HeldBy(conns, d, n) <==> HeldBy(l.conns, d, n) {
    }
  }

  lemma StepKeepsSound(l: Lobby, s: Step)
    requires Sound(l)
    ensures Sound(Do(l, s))
  {
    if Enabled(l, s) {
      match s
      case Accept(c) => AcceptKeepsSound(l, c);
      case Login(c, nick) => if CanLogin(l, nick) { LoginKeepsSound(l, c, nick); }
      case Create(c, name, max) => if CanCreate(l, name, max) { CreateKeepsSound(l, c, name, max); }
      case Join(c, m) => if CanJoin(l, m) { JoinKeepsSound(l, c, m); }
      case Leave(c) => LeavingKeepsSound(l, c, l.conns[c].(pc := LEFT));
      case DisconnectLeave(c) =>
        if l.conns[c].phase == Commands.IN_MATCH {
          LeavingKeepsSound(l, c, l.conns[c].(pc := DYING_LEFT));
        } else {
          MovedKeepsSound(l, c, l.conns[c].(pc := DYING_LEFT));
        }
      case DisconnectFree(c) => FreeKeepsSound(l, c);
      case Reap(c) => ReapKeepsSound(l, c);
      case _ => MovedKeepsSound(l, s.c, Do(l, s).conns[s.c]);
    }
  }

  /** Whatever the interleaving, the lobby stays sound. */
  lemma {:induction false} RunKeepsSound(l: Lobby, steps: seq<Step>)
    requires Sound(l)
    ensures Sound(Run(l, steps))
    decreases |steps|
  {
    if steps != [] {
      StepKeepsSound(l, steps[0]);
      RunKeepsSound(Do(l, steps[0]), steps[1..]);
    }
  }

  // ---- What it means ----

  /** With every thread between two commands, a match's list names exactly the connections in that match, each once. */
  lemma ListsAtRest(l: Lobby, m: nat, c: nat)
    requires Sound(l) && m in l.matches && forall d | d in l.conns :: l.conns[d].pc == RUNNING
    ensures c in l.matches[m].players <==>
              c in l.conns && l.conns[c].phase == Commands.IN_MATCH && l.conns[c].matchId == m
    ensures l.matches[m].current == |l.matches[m].players| <= l.matches[m].max && NoTwice(l.matches[m].players)
  {
    assert Listed(l.matches, m, c) <==> Membership(l.conns, c) == Some(m);
  }

  /** A login is refused exactly when the nick is empty or a connection that has not disconnected holds it. */
  lemma LoginRefused(l: Lobby, nick: Text)
    requires Sound(l)
    ensures !CanLogin(l, nick) <==> nick == [] || exists c :: HeldBy(l.conns, c, nick)
  {
  }

  /** Only a connection's own disconnection frees a nick, and it frees its own; reaping one never does. */
  lemma OnlyOwnNickFreed(l: Lobby, s: Step, nick: Text)
    requires Sound(l) && nick in l.nicks
    ensures nick !in Do(l, s).nicks <==> s.DisconnectFree? && Enabled(l, s) && l.conns[s.c].nick == nick
  {
  }

  /** A nick taken over from a disconnected connection stays taken, whatever the old one's thread has left to do. */
  lemma {:induction false} ReclaimedNickKept(l: Lobby, steps: seq<Step>, d: nat, nick: Text)
    requires Sound(l) && HeldBy(l.conns, d, nick)
    requires forall s | s in steps :: s.c != d
    ensures HeldBy(Run(l, steps).conns, d, nick) && nick in Run(l, steps).nicks
    ensures forall c | HeldBy(Run(l, steps).conns, c, nick) :: c == d
    decreases |steps|
  {
    if steps != [] {
      StepKeepsSound(l, steps[0]);
      OthersKeepOff(l, steps[0], d, nick);
      ReclaimedNickKept(Do(l, steps[0]), steps[1..], d, nick);
    }
  }

  lemma OthersKeepOff(l: Lobby, s: Step, d: nat, nick: Text)
    requires HeldBy(l.conns, d, nick) && s.c != d
    ensures HeldBy(Do(l, s).conns, d, nick)
  {
  }

  // ---- The objects ----

  class BasicMatch {
    const matchId: nat
    const name: Text
    const max: nat
    var players: seq<nat>
    var current: nat

    ghost function View(): Roster
      reads this
    {
      Roster(name, max, players, current)
    }

    constructor (id: nat, matchName: Text, maxPlayers: nat)
      ensures matchId == id && View() == Roster(matchName, maxPlayers, [], 0)
    {
      matchId, name, max, players, current := id, matchName, maxPlayers, [], 0;
    }

    method AddPlayer(c: nat) returns (ok: bool)
      modifies this
      ensures ok == !IsFull(old(View())) && View() == if ok then Added(old(View()), c) else old(View())
      ensures ok <==> old(current) < max
      ensures if ok then players == old(players) + [c] && current == old(current) + 1
              else players == old(players) && current == old(current)
    {
      if current >= max {
        return false;
      }
      players := players + [c];
      current := current + 1;
      return true;
    }

    method RemovePlayer(c: nat)
      modifies this
      ensures View() == Removed(old(View()), c)
    {
      var kept, i := [], 0;
      while i < |players|
        invariant i <= |players| && kept + Without(players[i..], c) == Without(players, c)
      {
        assert players[i..][1..] == players[i + 1..];
        if players[i] != c {
          kept := kept + [players[i]];
        }
        i := i + 1;
      }
      assert kept + Without(players[i..], c) == kept;
      players := kept;
      current := if current > 0 then current - 1 else 255;
    }
  }

  class Server {
    var conns: map<nat, Conn>
    var nicks: set<Text>
    var matches: map<nat, BasicMatch>
    var nextMatch: nat
    var nextPlayer: nat

    /** Every match is filed under its own id, so no two ids share an object. */
    ghost predicate Filed()
      reads this, matches.Values
    {
      forall m | m in matches :: matches[m].matchId == m
    }

    ghost function Rosters(): map<nat, Roster>
      reads this`matches, matches.Values
    {
      map m | m in matches :: matches[m].View()
    }

    ghost function View(): Lobby
      reads this, matches.Values
    {
      Lobby(conns, nicks, Rosters(), nextMatch, nextPlayer)
    }

    constructor (saves: seq<MatchSave>)
      ensures Filed() && View() == Started(saves)
    {
      conns, nicks, matches, nextMatch, nextPlayer := map[], {}, map[], 1, 1;
      new;
      for k := 0 to |saves|
        invariant Filed() && conns == map[] && nicks == {} && nextPlayer == 1 && nextMatch == k + 1
        invariant forall m :: m in matches <==> 1 <= m <= k
        invariant forall m | m in matches :: matches[m].View() == Recreated(saves, m)
      {
        var saved := new BasicMatch(nextMatch, saves[k].name, saves[k].max);
        matches := matches[nextMatch := saved];
        nextMatch := nextMatch + 1;
      }
      assert Rosters() == Started(saves).matches;
    }

    twostate lemma OneRosterChanged(m: nat)
      requires old(Filed()) && matches == old(matches) && m in matches
      requires forall id | id in matches && matches[id] != matches[m] :: unchanged(matches[id])
      ensures Filed() && Rosters() == old(Rosters())[m := matches[m].View()]
    {
    }

    method Login(c: nat, nick: Text) returns (pid: Option<nat>)
      requires Filed() && Enabled(View(), Step.Login(c, nick))
      modifies this
      ensures Filed() && View() == Do(old(View()), Step.Login(c, nick))
      ensures pid == if CanLogin(old(View()), nick) then Some(old(nextPlayer)) else None
      ensures pid.Some? <==> nick != [] && nick !in old(nicks)
      ensures nicks == if pid.Some? then old(nicks) + {nick} else old(nicks)
    {
      if nick == [] || nick in nicks {
        return None;
      }
      pid := Some(nextPlayer);
      nicks := nicks + {nick};
      conns := conns[c := conns[c].(nick := nick, pid := nextPlayer, pc := LOGGED_IN)];
      nextPlayer := nextPlayer + 1;
    }

    method HasMatchNamed(name: Text) returns (taken: bool)
      requires Filed()
      ensures taken == NameTaken(View(), name)
      ensures taken <==> exists m :: m in matches && matches[m].name == name
    {
      var left := matches.Keys;
      while left != {}
        invariant left <= matches.Keys
        invariant forall m | m in matches && m !in left :: matches[m].name != name
        decreases left
      {
        var m;
        m, left := Next(matches.Keys, left);
        if matches[m].name == name {
          assert m in Rosters() && Rosters()[m].name == name;
          return true;
        }
      }
      return false;
    }

    method CreateMatch(c: nat, name: Text, max: nat) returns (id: Option<nat>)
      requires Filed() && Enabled(View(), Create(c, name, max))
      modifies this
      ensures Filed() && View() == Do(old(View()), Create(c, name, max))
      ensures id == if CanCreate(old(View()), name, max) then Some(old(nextMatch)) else None
      ensures id.Some? <==> name != [] && max != 0 && forall m | m in old(matches) :: old(matches)[m].name != name
      ensures id.Some? ==> matches.Keys == old(matches.Keys) + {id.value} && matches[id.value].name == name
      ensures forall m | m in matches && m !in old(matches) :: fresh(matches[m])
    {
      if name == [] || max == 0 {
        return None;
      }
      var taken := HasMatchNamed(name);
      if taken {
        return None;
      }
      hide NameTaken;
      var created := new BasicMatch(nextMatch, name, max);
      id := Some(nextMatch);
      matches := matches[nextMatch := created];
      assert Rosters() == old(Rosters())[nextMatch := Roster(name, max, [], 0)];
      nextMatch := nextMatch + 1;
    }

    method JoinMatch(c: nat, m: nat) returns (ok: bool)
      requires Filed() && Enabled(View(), Join(c, m))
      modifies this`conns, matches.Values
      ensures Filed() && View() == Do(old(View()), Join(c, m))
      ensures ok == CanJoin(old(View()), m)
      ensures ok <==> m in matches && old(matches[m].current) < matches[m].max
      ensures ok ==> matches[m].players == old(matches[m].players) + [c]
    {
      if m !in matches || matches[m].current >= matches[m].max {
        return false;
      }
      ok := matches[m].AddPlayer(c);
      OneRosterChanged(m);
      conns := conns[c := conns[c].(pc := JOINED(m))];
    }

    /** The critical section of leaving, shared by leaving a match and disconnecting from within one. */
    method LeaveMatch(c: nat)
      requires Filed() && c in conns
      modifies matches.Values
      ensures Filed() && View() == OutOfMatch(old(View()), c)
    {
      var m := conns[c].matchId;
      if m == 0 || m !in matches {
        return;
      }
      matches[m].RemovePlayer(c);
      OneRosterChanged(m);
    }

    method Disconnect(c: nat)
      requires Filed() && Enabled(View(), DisconnectLeave(c))
      modifies this`conns, this`nicks, matches.Values
      ensures Filed() && View() == Do(Do(old(View()), DisconnectLeave(c)), DisconnectFree(c))
    {
      LeaveOnDisconnect(c);
      FreeNick(c);
    }

    method LeaveOnDisconnect(c: nat)
      requires Filed() && Enabled(View(), DisconnectLeave(c))
      modifies this`conns, matches.Values
      ensures Filed() && View() == Do(old(View()), DisconnectLeave(c))
    {
      if conns[c].phase == Commands.IN_MATCH {
        LeaveMatch(c);
      }
      conns := conns[c := conns[c].(pc := DYING_LEFT)];
    }

    method FreeNick(c: nat)
      requires Filed() && Enabled(View(), DisconnectFree(c))
      modifies this`conns, this`nicks
      ensures Filed() && View() == Do(old(View()), DisconnectFree(c))
    {
      if conns[c].nick != [] {
        nicks := nicks - {conns[c].nick};
      }
      conns := conns[c := conns[c].(phase := Commands.DISCONNECTING, pc := GONE)];
    }

    method RemoveClient(c: nat)
      requires Filed() && Enabled(View(), Reap(c))
      modifies this`conns, this`nicks
      ensures Filed() && View() == Do(old(View()), Reap(c))
    {
      var k := conns[c];
      conns := conns - {c};
      if k.phase != Commands.DISCONNECTING && k.nick != [] {
        nicks := nicks - {k.nick};
      }
    }
  }
}
