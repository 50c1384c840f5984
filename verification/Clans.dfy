/** Clans: membership sets, and the players' records of the clan they belong to. */
module Clans {
  import opened Prelude
  import opened Bytes

  datatype Status =
    | SUCCESS | LEVEL_TOO_LOW | ALREADY_IN_CLAN | NAME_TAKEN | NAME_EMPTY | CLAN_NOT_FOUND | NOT_FOUNDER
    | NOT_IN_CLAN | NOT_PENDING | CLAN_FULL | TARGET_OFFLINE | TARGET_IS_SELF | FOUNDER_CANNOT_LEAVE
    | PLAYER_BANNED | INTERNAL_ERROR

  /** The value of a clan. */
  datatype Card = Card(name: Text, founder: nat, members: set<nat>, pending: set<nat>, banned: set<nat>)
  {
    predicate IsFull(max: nat) {
      |members| >= max
    }

    predicate Knows(id: nat) {
      id in members || id in pending || id in banned
    }

    function Requested(id: nat): Card {
      this.(pending := pending + {id})
    }

    function Accepted(id: nat): Card {
      this.(pending := pending - {id}, members := members + {id})
    }

    function Rejected(id: nat): Card {
      this.(pending := pending - {id})
    }

    function Banned(id: nat): Card {
      this.(pending := pending - {id}, members := members - {id}, banned := banned + {id})
    }

    function Without(id: nat): Card {
      this.(members := members - {id})
    }

    /** What holds of a clan at all times. */
    ghost predicate Sound(max: nat) {
      && founder in members
      && members !! pending && members !! banned && pending !! banned
      && |members| <= max
    }
  }

  /** What the world keeps of a present player; clan 0 is no clan. */
  datatype Member = Member(name: Text, level: int, clan: nat)

  datatype Hall = Hall(cards: map<nat, Card>, players: map<nat, Member>, next: nat)

  datatype Action =
    | Enter(id: nat, name: Text, level: int)
    | Exit(id: nat)
    | Found(id: nat, clanName: Text)
    | Request(id: nat, clanName: Text)
    | Accept(id: nat, nick: Text)
    | Reject(id: nat, nick: Text)
    | Ban(id: nat, nick: Text)
    | Kick(id: nat, nick: Text)
    | Leave(id: nat)

  // ---- The state machine ----

  ghost predicate FirstNamed(players: map<nat, Member>, nick: Text, p: nat) {
    p in players && players[p].name == nick && forall q | q in players && players[q].name == nick :: p <= q
  }

  ghost function PlayerNamed(players: map<nat, Member>, nick: Text): (found: Option<nat>) {
    if exists p :: FirstNamed(players, nick, p) then
      var p :| FirstNamed(players, nick, p);
      Some(p)
    else None
  }

  ghost predicate FirstCard(cards: map<nat, Card>, name: Text, c: nat) {
    c in cards && cards[c].name == name && forall d | d in cards && cards[d].name == name :: c <= d
  }

  ghost function CardNamed(cards: map<nat, Card>, name: Text): (found: Option<nat>) {
    if exists c :: FirstCard(cards, name, c) then
      var c :| FirstCard(cards, name, c);
      Some(c)
    else None
  }

  /** The caller's clan and the player named, for the four actions on somebody else. */
  ghost function Resolve(h: Hall, caller: nat, nick: Text): Result<(nat, nat), Status> {
    if caller !in h.players || h.players[caller].clan !in h.cards then Err(NOT_IN_CLAN)
    else match PlayerNamed(h.players, nick)
         case None => Err(TARGET_OFFLINE)
         case Some(target) => Ok((h.players[caller].clan, target))
  }

  function WithRecord(h: Hall, c: nat, card: Card, p: nat, clan: nat): Hall
    requires p in h.players
  {
    h.(cards := h.cards[c := card], players := h.players[p := h.players[p].(clan := clan)])
  }

  ghost function FoundStep(max: nat, minLevel: int, h: Hall, id: nat, name: Text): (Hall, Status) {
    if id !in h.players then (h, INTERNAL_ERROR)
    else if name == [] then (h, NAME_EMPTY)
    else if h.players[id].level < minLevel then (h, LEVEL_TOO_LOW)
    else if h.players[id].clan != 0 then (h, ALREADY_IN_CLAN)
    else if CardNamed(h.cards, name).Some? then (h, NAME_TAKEN)
    else (WithRecord(h, h.next, Card(name, id, {id}, {}, {}), id, h.next).(next := h.next + 1), SUCCESS)
  }

  ghost function RequestStep(max: nat, h: Hall, id: nat, name: Text): (Hall, Status) {
    if id !in h.players then (h, INTERNAL_ERROR)
    else if h.players[id].clan != 0 then (h, ALREADY_IN_CLAN)
    else match CardNamed(h.cards, name)
         case None => (h, CLAN_NOT_FOUND)
         case Some(c) =>
           if c !in h.cards then (h, CLAN_NOT_FOUND)
           else if id in h.cards[c].banned then (h, PLAYER_BANNED)
           else if h.cards[c].Knows(id) || h.cards[c].IsFull(max) then
             (h, if h.cards[c].IsFull(max) then CLAN_FULL else INTERNAL_ERROR)
           else (h.(cards := h.cards[c := h.cards[c].Requested(id)]), SUCCESS)
  }

  ghost function TargetStep(max: nat, h: Hall, a: Action): (Hall, Status)
    requires a.Accept? || a.Reject? || a.Ban? || a.Kick?
  {
    match Resolve(h, a.id, a.nick)
    case Err(status) => (h, status)
    case Ok((c, t)) =>
      if c !in h.cards || t !in h.players then (h, INTERNAL_ERROR)
      else if h.cards[c].founder != a.id then (h, NOT_FOUNDER)
      else match a
           case Accept(_, _) =>
             if t in h.cards[c].pending && !h.cards[c].IsFull(max)
             then (WithRecord(h, c, h.cards[c].Accepted(t), t, c), SUCCESS)
             else (h, NOT_PENDING)
           case Reject(_, _) =>
             if t in h.cards[c].pending then (h.(cards := h.cards[c := h.cards[c].Rejected(t)]), SUCCESS)
             else (h, NOT_PENDING)
           case Ban(_, _) =>
             if t == a.id then (h, TARGET_IS_SELF)
             else (WithRecord(h, c, h.cards[c].Banned(t), t,
                              if t in h.cards[c].members then 0 else h.players[t].clan), SUCCESS)
           case Kick(_, _) =>
             if t != a.id && t in h.cards[c].members
             then (WithRecord(h, c, h.cards[c].Without(t), t, 0), SUCCESS)
             else (h, NOT_PENDING)
  }

  function LeaveStep(h: Hall, id: nat): (Hall, Status) {
    if id !in h.players || h.players[id].clan !in h.cards then (h, NOT_IN_CLAN)
    else
      var c := h.players[id].clan;
      if id == h.cards[c].founder || id !in h.cards[c].members then (h, FOUNDER_CANNOT_LEAVE)
      else (WithRecord(h, c, h.cards[c].Without(id), id, 0), SUCCESS)
  }

  ghost function Step(max: nat, minLevel: int, h: Hall, a: Action): (Hall, Status) {
    match a
    case Enter(id, name, level) =>
      if id in h.players then (h, INTERNAL_ERROR)
      else (h.(players := h.players[id := Member(name, level, 0)]), SUCCESS)
    case Exit(id) => (h.(players := h.players - {id}), SUCCESS)
    case Found(id, name) => FoundStep(max, minLevel, h, id, name)
    case Request(id, name) => RequestStep(max, h, id, name)
    case Leave(id) => LeaveStep(h, id)
    case _ => TargetStep(max, h, a)
  }

  ghost function Run(max: nat, minLevel: int, h: Hall, actions: seq<Action>): Hall
    decreases |actions|
  {
    if actions == [] then h else Run(max, minLevel, Step(max, minLevel, h, actions[0]).0, actions[1..])
  }

  // ---- What every run keeps ----

  ghost predicate Consistent(max: nat, h: Hall) {
    && 0 < max
    && (forall c | c in h.cards :: 0 < c < h.next && h.cards[c].Sound(max))
    && (forall c, d | c in h.cards && d in h.cards && c != d :: h.cards[c].name != h.cards[d].name)
    && (forall p | p in h.players && h.players[p].clan != 0 ::
          h.players[p].clan in h.cards && p in h.cards[h.players[p].clan].members)
  }

  /** Clans are never dissolved, renamed or handed over, and no ban is ever lifted. */
  ghost predicate Inherits(h: Hall, h': Hall) {
    forall c | c in h.cards ::
      && c in h'.cards
      && h'.cards[c].name == h.cards[c].name
      && h'.cards[c].founder == h.cards[c].founder
      && h.cards[c].banned <= h'.cards[c].banned
  }

  lemma SoundAfter(card: Card, max: nat, t: nat)
    requires card.Sound(max)
    ensures !card.Knows(t) ==> card.Requested(t).Sound(max)
    ensures t in card.pending && !card.IsFull(max) ==> card.Accepted(t).Sound(max)
    ensures card.Rejected(t).Sound(max)
    ensures t != card.founder ==> card.Banned(t).Sound(max) && card.Without(t).Sound(max)
  {
  }

  /** Changing one clan's card and one player's record. */
  lemma RecordKeepsConsistent(max: nat, h: Hall, c: nat, card: Card, p: nat, clan: nat)
    requires Consistent(max, h) && c in h.cards && p in h.players
    requires card.Sound(max) && card.name == h.cards[c].name && card.founder == h.cards[c].founder
    requires h.cards[c].members - {p} <= card.members && h.cards[c].banned <= card.banned
    requires clan == 0 || (clan == c && p in card.members)
             || (clan == h.players[p].clan && (clan == c ==> p in card.members))
    ensures Consistent(max, WithRecord(h, c, card, p, clan))
    ensures Inherits(h, WithRecord(h, c, card, p, clan))
  {
  }

  lemma CardKeepsConsistent(max: nat, h: Hall, c: nat, card: Card)
    requires Consistent(max, h) && c in h.cards
    requires card.Sound(max) && card.name == h.cards[c].name && card.founder == h.cards[c].founder
    requires h.cards[c].members <= card.members && h.cards[c].banned <= card.banned
    ensures Consistent(max, h.(cards := h.cards[c := card]))
    ensures Inherits(h, h.(cards := h.cards[c := card]))
  {
  }

  lemma FoundKeepsConsistent(max: nat, minLevel: int, h: Hall, id: nat, name: Text)
    requires Consistent(max, h) && 0 < h.next
    ensures Consistent(max, FoundStep(max, minLevel, h, id, name).0)
    ensures Inherits(h, FoundStep(max, minLevel, h, id, name).0)
  {
    NamedIfTaken(h.cards, name);
  }

  lemma NamedIfTaken(cards: map<nat, Card>, name: Text)
    ensures CardNamed(cards, name).Some? <==> exists c :: c in cards && cards[c].name == name
    ensures CardNamed(cards, name).Some? ==> FirstCard(cards, name, CardNamed(cards, name).value)
  {
    var namesakes := set c | c in cards && cards[c].name == name;
    if c :| c in cards && cards[c].name == name {
      assert c in namesakes;
      HasLeast(namesakes);
      var least :| least in namesakes && forall d | d in namesakes :: least <= d;
      forall d | d in cards && cards[d].name == name ensures least <= d { assert d in namesakes; }
      assert FirstCard(cards, name, least);
    }
  }

  lemma NamedIfPresent(players: map<nat, Member>, nick: Text)
    ensures PlayerNamed(players, nick).Some? <==> exists p :: p in players && players[p].name == nick
    ensures PlayerNamed(players, nick).Some? ==> FirstNamed(players, nick, PlayerNamed(players, nick).value)
  {
    var namesakes := set p | p in players && players[p].name == nick;
    if p :| p in players && players[p].name == nick {
      assert p in namesakes;
      HasLeast(namesakes);
      var least :| least in namesakes && forall q | q in namesakes :: least <= q;
      forall q | q in players && players[q].name == nick ensures least <= q { assert q in namesakes; }
      assert FirstNamed(players, nick, least);
    }
  }

  lemma RequestKeepsConsistent(max: nat, h: Hall, id: nat, name: Text)
    requires Consistent(max, h)
    ensures Consistent(max, RequestStep(max, h, id, name).0)
    ensures Inherits(h, RequestStep(max, h, id, name).0) && RequestStep(max, h, id, name).0.next == h.next
  {
    if RequestStep(max, h, id, name).1 == SUCCESS {
      var c := CardNamed(h.cards, name).value;
      SoundAfter(h.cards[c], max, id);
      CardKeepsConsistent(max, h, c, h.cards[c].Requested(id));
    }
  }

  lemma LeaveKeepsConsistent(max: nat, h: Hall, id: nat)
    requires Consistent(max, h)
    ensures Consistent(max, LeaveStep(h, id).0)
    ensures Inherits(h, LeaveStep(h, id).0) && LeaveStep(h, id).0.next == h.next
  {
  }

  lemma TargetKeepsConsistent(max: nat, h: Hall, a: Action)
    requires a.Accept? || a.Reject? || a.Ban? || a.Kick?
    requires Consistent(max, h)
    ensures Consistent(max, TargetStep(max, h, a).0)
    ensures Inherits(h, TargetStep(max, h, a).0) && TargetStep(max, h, a).0.next == h.next
  {
    hide PlayerNamed;
    if TargetStep(max, h, a).1 == SUCCESS {
      var (c, t) := Resolve(h, a.id, a.nick).value;
      var card := h.cards[c];
      SoundAfter(card, max, t);
      match a
      case Accept(_, _) => RecordKeepsConsistent(max, h, c, card.Accepted(t), t, c);
      case Reject(_, _) => CardKeepsConsistent(max, h, c, card.Rejected(t));
      case Ban(_, _) =>
        RecordKeepsConsistent(max, h, c, card.Banned(t), t, if t in card.members then 0 else h.players[t].clan);
      case Kick(_, _) => RecordKeepsConsistent(max, h, c, card.Without(t), t, 0);
    }
  }

  lemma {:induction false} StepKeepsConsistent(max: nat, minLevel: int, h: Hall, a: Action)
    requires Consistent(max, h) && 0 < h.next
    ensures Consistent(max, Step(max, minLevel, h, a).0) && 0 < Step(max, minLevel, h, a).0.next
    ensures Inherits(h, Step(max, minLevel, h, a).0)
  {
    match a
    case Enter(_, _, _) =>
    case Exit(_) =>
    case Found(id, name) => FoundKeepsConsistent(max, minLevel, h, id, name);
    case Request(id, name) => RequestKeepsConsistent(max, h, id, name);
    case Leave(id) => LeaveKeepsConsistent(max, h, id);
    case _ => TargetKeepsConsistent(max, h, a);
  }

  lemma {:induction false} RunKeepsConsistent(max: nat, minLevel: int, h: Hall, actions: seq<Action>)
    requires Consistent(max, h) && 0 < h.next
    ensures Consistent(max, Run(max, minLevel, h, actions))
    ensures Inherits(h, Run(max, minLevel, h, actions))
    decreases |actions|
  {
    if actions != [] {
      StepKeepsConsistent(max, minLevel, h, actions[0]);
      RunKeepsConsistent(max, minLevel, Step(max, minLevel, h, actions[0]).0, actions[1..]);
    }
  }

  /** A banned id never again asks for or gains membership of that clan; its founder is a member for good. */
  lemma BannedForGood(max: nat, minLevel: int, h: Hall, actions: seq<Action>, c: nat, p: nat)
    requires Consistent(max, h) && 0 < h.next && c in h.cards
    ensures var h' := Run(max, minLevel, h, actions);
            && c in h'.cards
            && h.cards[c].founder in h'.cards[c].members
            && (p in h.cards[c].banned ==> p !in h'.cards[c].members && p !in h'.cards[c].pending)
  {
    RunKeepsConsistent(max, minLevel, h, actions);
  }

  /** The converse of a player's record: whoever a clan lists, if present, has that clan on record. */
  ghost predicate Faithful(h: Hall) {
    forall c, p | c in h.cards && p in h.players && p in h.cards[c].members :: h.players[p].clan == c
  }

  /** Admission of somebody whose record names another clan, or return of somebody a clan still lists. */
  ghost predicate Crosses(max: nat, h: Hall, a: Action) {
    match a
    case Enter(id, _, _) => id !in h.players && exists c :: c in h.cards && id in h.cards[c].members
    case Accept(id, nick) =>
      (match Resolve(h, id, nick)
       case Err(_) => false
       case Ok((c, t)) =>
         && c in h.cards && h.cards[c].founder == id && t in h.cards[c].pending && !h.cards[c].IsFull(max)
         && t in h.players && h.players[t].clan != 0)
    case _ => false
  }

  /** A change that only drops members, or admits none but a player with no clan on record. */
  lemma RecordKeepsFaithful(max: nat, h: Hall, c: nat, card: Card, p: nat, clan: nat)
    requires Consistent(max, h) && Faithful(h) && c in h.cards && p in h.players
    requires card.members <= h.cards[c].members + {p}
    requires if p in card.members then clan == c && h.players[p].clan in {0, c}
             else h.players[p].clan == c || clan == h.players[p].clan
    ensures Faithful(WithRecord(h, c, card, p, clan))
  {
  }

  lemma AcceptFaithful(max: nat, h: Hall, a: Action)
    requires a.Accept? && Consistent(max, h) && Faithful(h)
    ensures Faithful(TargetStep(max, h, a).0) <==> !Crosses(max, h, a)
  {
    if TargetStep(max, h, a).1 == SUCCESS {
      var (c, t) := Resolve(h, a.id, a.nick).value;
      var d := h.players[t].clan;
      if d == 0 {
        RecordKeepsFaithful(max, h, c, h.cards[c].Accepted(t), t, c);
      } else {
        var h' := TargetStep(max, h, a).0;
        assert t in h.cards[d].members && d != c;
        assert t in h'.cards[d].members && h'.players[t].clan == c;
      }
    }
  }

  lemma RemovalFaithful(max: nat, h: Hall, a: Action)
    requires a.Reject? || a.Ban? || a.Kick?
    requires Consistent(max, h) && Faithful(h)
    ensures Faithful(TargetStep(max, h, a).0)
  {
  }

  lemma FoundFaithful(max: nat, minLevel: int, h: Hall, id: nat, name: Text)
    requires Consistent(max, h) && Faithful(h)
    ensures Faithful(FoundStep(max, minLevel, h, id, name).0)
  {
  }

  /** The admission of a member of another clan, and re-entry, are the only ways the two views drift apart. */
  lemma FaithfulUnlessCrossed(max: nat, minLevel: int, h: Hall, a: Action)
    requires Consistent(max, h) && Faithful(h)
    ensures Faithful(Step(max, minLevel, h, a).0) <==> !Crosses(max, h, a)
  {
    match a
    case Enter(id, name, level) =>
      if id !in h.players {
        var h' := Step(max, minLevel, h, a).0;
        if c :| c in h.cards && id in h.cards[c].members {
          assert c in h'.cards && id in h'.cards[c].members && h'.players[id].clan == 0 && 0 < c;
        }
      }
    case Exit(_) =>
    case Found(id, name) => FoundFaithful(max, minLevel, h, id, name);
    case Request(id, name) =>
    case Leave(id) =>
      if LeaveStep(h, id).1 == SUCCESS {
        var c := h.players[id].clan;
        RecordKeepsFaithful(max, h, c, h.cards[c].Without(id), id, 0);
      }
    case Accept(_, _) => AcceptFaithful(max, h, a);
    case _ => RemovalFaithful(max, h, a);
  }

  /** A run is a shorter run and one step more. */
  lemma {:induction false} RunLast(max: nat, minLevel: int, h: Hall, actions: seq<Action>, a: Action)
    ensures Run(max, minLevel, h, actions + [a]) == Step(max, minLevel, Run(max, minLevel, h, actions), a).0
    decreases |actions|
  {
    hide Step;
    if actions == [] {
      assert actions + [a] == [a];
    } else {
      assert (actions + [a])[1..] == actions[1..] + [a];
      RunLast(max, minLevel, Step(max, minLevel, h, actions[0]).0, actions[1..], a);
    }
  }

  /** The hall after the first n actions of a run. */
  ghost function After(max: nat, minLevel: int, h: Hall, actions: seq<Action>, n: nat): Hall
    requires n <= |actions|
  {
    Run(max, minLevel, h, actions[..n])
  }

  lemma AfterNext(max: nat, minLevel: int, h: Hall, actions: seq<Action>, n: nat)
    requires n < |actions|
    ensures After(max, minLevel, h, actions, n + 1)
            == Step(max, minLevel, After(max, minLevel, h, actions, n), actions[n]).0
  {
    hide Step, Run;
    assert actions[..n + 1] == actions[..n] + [actions[n]];
    RunLast(max, minLevel, h, actions[..n], actions[n]);
  }

  lemma AfterIsConsistent(max: nat, minLevel: int, h: Hall, actions: seq<Action>, n: nat)
    requires Consistent(max, h) && 0 < h.next && n <= |actions|
    ensures Consistent(max, After(max, minLevel, h, actions, n))
  {
    RunKeepsConsistent(max, minLevel, h, actions[..n]);
  }

  /** Lists and records agree throughout a run exactly when none of its actions crosses. */
  lemma {:induction false} FaithfulThroughout(max: nat, minLevel: int, h: Hall, actions: seq<Action>, n: nat)
    requires Consistent(max, h) && 0 < h.next && Faithful(h) && n <= |actions|
    ensures (forall i | 0 <= i <= n :: Faithful(After(max, minLevel, h, actions, i)))
            <==> forall i | 0 <= i < n :: !Crosses(max, After(max, minLevel, h, actions, i), actions[i])
    decreases n
  {
    hide Consistent, Faithful, Crosses, Step, Run;
    if n == 0 {
      assert After(max, minLevel, h, actions, 0) == h by { FirstOfAll(max, minLevel, h, actions); }
    } else {
      FaithfulThroughout(max, minLevel, h, actions, n - 1);
      AfterNext(max, minLevel, h, actions, n - 1);
      AfterIsConsistent(max, minLevel, h, actions, n - 1);
      if Faithful(After(max, minLevel, h, actions, n - 1)) {
        FaithfulUnlessCrossed(max, minLevel, After(max, minLevel, h, actions, n - 1), actions[n - 1]);
      }
    }
  }

  lemma FirstOfAll(max: nat, minLevel: int, h: Hall, actions: seq<Action>)
    ensures After(max, minLevel, h, actions, 0) == h
  {
  }

  const ANA: Text := [65]
  const BEA: Text := [66]
  const CAL: Text := [67]

  /** Two founders, and a third player who asks both clans before either answers. */
  const TWO_SUITORS := [
    Enter(1, ANA, 9), Enter(2, BEA, 9), Enter(3, CAL, 9), Found(1, ANA), Found(2, BEA),
    Request(3, ANA), Request(3, BEA), Accept(1, CAL), Accept(2, CAL)]

  lemma OnlyCardNamed(cards: map<nat, Card>, name: Text, c: nat)
    requires c in cards && cards[c].name == name && forall d | d in cards && d != c :: cards[d].name != name
    ensures CardNamed(cards, name) == Some(c)
  {
    NamedIfTaken(cards, name);
  }

  lemma OnlyPlayerNamed(players: map<nat, Member>, nick: Text, p: nat)
    requires p in players && players[p].name == nick && forall q | q in players && q != p :: players[q].name != nick
    ensures PlayerNamed(players, nick) == Some(p)
  {
    NamedIfPresent(players, nick);
  }

  lemma RunFrom(max: nat, minLevel: int, h: Hall, actions: seq<Action>, i: nat)
    requires i < |actions|
    ensures Run(max, minLevel, h, actions[i..])
            == Run(max, minLevel, Step(max, minLevel, h, actions[i]).0, actions[i + 1..])
  {
    assert actions[i..][1..] == actions[i + 1..];
  }

  function Trio(a: nat, b: nat, c: nat): map<nat, Member> {
    map[1 := Member(ANA, 9, a), 2 := Member(BEA, 9, b), 3 := Member(CAL, 9, c)]
  }

  /** Both clans, with these members and applicants, and the third player's record. */
  function Rivals(a: set<nat>, askA: set<nat>, b: set<nat>, askB: set<nat>, record: nat): Hall {
    Hall(map[1 := Card(ANA, 1, a, askA, {}), 2 := Card(BEA, 2, b, askB, {})], Trio(1, 2, record), 3)
  }

  lemma ThreeEntered()
    ensures Run(10, 5, Hall(map[], map[], 1), TWO_SUITORS)
            == Run(10, 5, Hall(map[], Trio(0, 0, 0), 1), TWO_SUITORS[3..])
  {
    var h0 := Hall(map[], map[], 1);
    var h1 := h0.(players := map[1 := Member(ANA, 9, 0)]);
    var h2 := h1.(players := map[1 := Member(ANA, 9, 0), 2 := Member(BEA, 9, 0)]);
    assert TWO_SUITORS[0..] == TWO_SUITORS;
    RunFrom(10, 5, h0, TWO_SUITORS, 0);
    RunFrom(10, 5, h1, TWO_SUITORS, 1);
    RunFrom(10, 5, h2, TWO_SUITORS, 2);
  }

  /** A player with no clan founds one whose name nobody uses. */
  lemma Founds(h: Hall, id: nat, name: Text, h': Hall)
    requires id in h.players && h.players[id].clan == 0 && h.players[id].level == 9 && name != []
    requires forall d | d in h.cards :: h.cards[d].name != name
    requires h' == WithRecord(h, h.next, Card(name, id, {id}, {}, {}), id, h.next).(next := h.next + 1)
    ensures Step(10, 5, h, Found(id, name)).0 == h'
  {
    NamedIfTaken(h.cards, name);
  }

  lemma TwoFounded()
    ensures Run(10, 5, Hall(map[], Trio(0, 0, 0), 1), TWO_SUITORS[3..])
            == Run(10, 5, Rivals({1}, {}, {2}, {}, 0), TWO_SUITORS[5..])
  {
    hide Run, Step;
    var h3 := Hall(map[], Trio(0, 0, 0), 1);
    var h4 := Hall(map[1 := Card(ANA, 1, {1}, {}, {})], Trio(1, 0, 0), 2);
    RunFrom(10, 5, h3, TWO_SUITORS, 3);
    RunFrom(10, 5, h4, TWO_SUITORS, 4);
    Founds(h3, 1, ANA, h4);
    Founds(h4, 2, BEA, Rivals({1}, {}, {2}, {}, 0));
  }

  /** The third player asks either clan, which has not been asked yet. */
  lemma Asks(h: Hall, c: nat, name: Text, card: Card)
    requires 3 in h.players && h.players[3].clan == 0
    requires c in h.cards && h.cards[c].name == name && forall d | d in h.cards && d != c :: h.cards[d].name != name
    requires !h.cards[c].Knows(3) && |h.cards[c].members| < 10 && card == h.cards[c].Requested(3)
    ensures Step(10, 5, h, Request(3, name)).0 == h.(cards := h.cards[c := card])
  {
    OnlyCardNamed(h.cards, name, c);
  }

  /** Either founder lets the third player in. */
  lemma Admits(h: Hall, c: nat, card: Card, players: map<nat, Member>)
    requires c in h.players && h.players[c].clan == c
    requires 3 in h.players && h.players[3].name == CAL
    requires forall q | q in h.players && q != 3 :: h.players[q].name != CAL
    requires c in h.cards && h.cards[c].founder == c && 3 in h.cards[c].pending && |h.cards[c].members| < 10
    requires card == h.cards[c].Accepted(3) && players == h.players[3 := h.players[3].(clan := c)]
    ensures Step(10, 5, h, Accept(c, CAL)).0 == h.(cards := h.cards[c := card], players := players)
  {
    OnlyPlayerNamed(h.players, CAL, 3);
  }

  lemma BothAsked()
    ensures Run(10, 5, Rivals({1}, {}, {2}, {}, 0), TWO_SUITORS[5..])
            == Run(10, 5, Rivals({1}, {3}, {2}, {3}, 0), TWO_SUITORS[7..])
  {
    hide Run, Step;
    var h5, h6 := Rivals({1}, {}, {2}, {}, 0), Rivals({1}, {3}, {2}, {}, 0);
    RunFrom(10, 5, h5, TWO_SUITORS, 5);
    RunFrom(10, 5, h6, TWO_SUITORS, 6);
    Asks(h5, 1, ANA, Card(ANA, 1, {1}, {3}, {}));
    assert h5.cards[1 := Card(ANA, 1, {1}, {3}, {})] == h6.cards;
    Asks(h6, 2, BEA, Card(BEA, 2, {2}, {3}, {}));
    assert h6.cards[2 := Card(BEA, 2, {2}, {3}, {})] == Rivals({1}, {3}, {2}, {3}, 0).cards;
  }

  lemma FirstAccepted()
    ensures Run(10, 5, Rivals({1}, {3}, {2}, {3}, 0), TWO_SUITORS[7..])
            == Run(10, 5, Rivals({1, 3}, {}, {2}, {3}, 1), TWO_SUITORS[8..])
  {
    hide Run, Step;
    var h7 := Rivals({1}, {3}, {2}, {3}, 0);
    RunFrom(10, 5, h7, TWO_SUITORS, 7);
    Admits(h7, 1, Card(ANA, 1, {1, 3}, {}, {}), Trio(1, 2, 1));
    assert h7.cards[1 := Card(ANA, 1, {1, 3}, {}, {})] == Rivals({1, 3}, {}, {2}, {3}, 1).cards;
  }

  lemma SecondAccepted()
    ensures Run(10, 5, Rivals({1, 3}, {}, {2}, {3}, 1), TWO_SUITORS[8..]) == Rivals({1, 3}, {}, {2, 3}, {}, 2)
  {
    hide Step;
    var h8, h9 := Rivals({1, 3}, {}, {2}, {3}, 1), Rivals({1, 3}, {}, {2, 3}, {}, 2);
    assert Run(10, 5, h9, []) == h9 && TWO_SUITORS[9..] == [];
    hide Run;
    RunFrom(10, 5, h8, TWO_SUITORS, 8);
    Admits(h8, 2, Card(BEA, 2, {2, 3}, {}, {}), Trio(1, 2, 2));
    assert h8.cards[2 := Card(BEA, 2, {2, 3}, {}, {})] == h9.cards;
  }

  /** From an empty hall: the player ends up listed by both clans, with the second on record. */
  lemma TwoClansListOnePlayer()
    ensures var h := Run(10, 5, Hall(map[], map[], 1), TWO_SUITORS);
            && Consistent(10, h) && !Faithful(h)
            && {1, 2} <= h.cards.Keys && 3 in h.cards[1].members && 3 in h.cards[2].members
            && 3 in h.players && h.players[3].clan == 2
  {
    RunKeepsConsistent(10, 5, Hall(map[], map[], 1), TWO_SUITORS);
    ThreeEntered();
    TwoFounded();
    BothAsked();
    FirstAccepted();
    SecondAccepted();
    hide Run, Consistent;
    var h := Rivals({1, 3}, {}, {2, 3}, {}, 2);
    assert 3 in h.cards[1].members && h.players[3].clan == 2;
  }

  // ---- The objects ----

  class Clan {
    const clanId: nat
    const name: Text
    const founder: nat
    const maxMembers: nat
    var members: set<nat>
    var pending: set<nat>
    var banned: set<nat>

    ghost function View(): Card
      reads this
    {
      Card(name, founder, members, pending, banned)
    }

    constructor (id: nat, clanName: Text, founderId: nat, max: nat)
      ensures View() == Card(clanName, founderId, {founderId}, {}, {})
      ensures clanId == id && maxMembers == max
    {
      clanId, name, founder, maxMembers := id, clanName, founderId, max;
      members, pending, banned := {founderId}, {}, {};
    }

    method RequestJoin(id: nat) returns (ok: bool)
      modifies this
      ensures ok <==> !old(View()).Knows(id) && !old(View()).IsFull(maxMembers)
      ensures View() == if ok then old(View()).Requested(id) else old(View())
      ensures ok ==> pending == old(pending) + {id} && members == old(members) && banned == old(banned)
    {
      if id in members || id in pending || id in banned || |members| >= maxMembers {
        return false;
      }
      pending := pending + {id};
      return true;
    }

    method Accept(caller: nat, target: nat) returns (ok: bool)
      modifies this
      ensures ok <==> caller == founder && target in old(pending) && !old(View()).IsFull(maxMembers)
      ensures View() == if ok then old(View()).Accepted(target) else old(View())
      ensures ok ==> pending == old(pending) - {target} && members == old(members) + {target} && banned == old(banned)
    {
      if caller != founder || target !in pending || |members| >= maxMembers {
        return false;
      }
      pending := pending - {target};
      members := members + {target};
      return true;
    }

    method Reject(caller: nat, target: nat) returns (ok: bool)
      modifies this
      ensures ok <==> caller == founder && target in old(pending)
      ensures View() == if ok then old(View()).Rejected(target) else old(View())
      ensures ok ==> pending == old(pending) - {target} && members == old(members) && banned == old(banned)
    {
      if caller != founder || target !in pending {
        return false;
      }
      pending := pending - {target};
      return true;
    }

    method Ban(caller: nat, target: nat) returns (ok: bool)
      modifies this
      ensures ok <==> caller == founder && target != founder
      ensures View() == if ok then old(View()).Banned(target) else old(View())
      ensures ok ==> target in banned && target !in pending && target !in members
      ensures ok ==> banned == old(banned) + {target} && pending == old(pending) - {target}
      ensures ok ==> members == old(members) - {target}
    {
      if caller != founder || target == founder {
        return false;
      }
      pending := pending - {target};
      members := members - {target};
      banned := banned + {target};
      return true;
    }

    method Kick(caller: nat, target: nat) returns (ok: bool)
      modifies this
      ensures ok <==> caller == founder && target != founder && target in old(members)
      ensures View() == if ok then old(View()).Without(target) else old(View())
      ensures ok ==> members == old(members) - {target} && pending == old(pending) && banned == old(banned)
    {
      if caller != founder || target == founder || target !in members {
        return false;
      }
      members := members - {target};
      return true;
    }

    method Leave(id: nat) returns (ok: bool)
      modifies this
      ensures ok <==> id != founder && id in old(members)
      ensures View() == if ok then old(View()).Without(id) else old(View())
      ensures ok ==> members == old(members) - {id} && pending == old(pending) && banned == old(banned)
    {
      if id == founder || id !in members {
        return false;
      }
      members := members - {id};
      return true;
    }
  }

  class ClanHall {
    const maxMembers: nat
    const minLevel: int
    var clans: map<nat, Clan>
    var players: map<nat, Member>
    var nextClanId: nat

    /** Every clan object is filed under its own id, so no two ids share an object. */
    ghost predicate Filed()
      reads this, clans.Values
    {
      forall id | id in clans :: clans[id].clanId == id && clans[id].maxMembers == maxMembers
    }

    ghost function Cards(): map<nat, Card>
      reads this`clans, clans.Values
    {
      map id | id in clans :: clans[id].View()
    }

    ghost function View(): Hall
      reads this, clans.Values
    {
      Hall(Cards(), players, nextClanId)
    }

    constructor (max: nat, level: int)
      ensures Filed() && View() == Hall(map[], map[], 1)
      ensures maxMembers == max && minLevel == level
    {
      maxMembers, minLevel, clans, nextClanId, players := max, level, map[], 1, map[];
    }

    method ClanByName(name: Text) returns (found: Option<nat>)
      requires Filed()
      ensures found == CardNamed(Cards(), name)
    {
      var left := clans.Keys;
      while left != {}
        invariant left <= clans.Keys
        invariant forall id | id in clans && id !in left :: clans[id].name != name
        decreases left
      {
        ghost var candidates := left;
        var id;
        id, left := Next(clans.Keys, left);
        if clans[id].name == name {
          assert forall d | d in clans && clans[d].name == name :: d in candidates;
          assert FirstCard(Cards(), name, id);
          return Some(id);
        }
      }
      return None;
    }

    method PlayerByName(nick: Text) returns (found: Option<nat>)
      ensures found == PlayerNamed(players, nick)
    {
      var left := players.Keys;
      while left != {}
        invariant left <= players.Keys
        invariant forall p | p in players && p !in left :: players[p].name != nick
        decreases left
      {
        ghost var candidates := left;
        var p;
        p, left := Next(players.Keys, left);
        if players[p].name == nick {
          assert forall q | q in players && players[q].name == nick :: q in candidates;
          assert FirstNamed(players, nick, p);
          return Some(p);
        }
      }
      return None;
    }

    /** After clan c changed, and no other: the values of all clans. */
    twostate lemma OneCardChanged(c: nat)
      requires old(Filed()) && clans == old(clans) && c in clans
      requires forall id | id in clans && clans[id] != clans[c] :: unchanged(clans[id])
      ensures Filed() && Cards() == old(Cards())[c := clans[c].View()]
      ensures clans[c].View() == old(clans[c].View()) ==> Cards() == old(Cards())
    {
    }

    method FoundClan(id: nat, name: Text) returns (status: Status)
      requires Filed()
      modifies this
      ensures Filed()
      ensures forall c | c in clans && c !in old(clans) :: fresh(clans[c])
      ensures (View(), status) == FoundStep(maxMembers, minLevel, old(View()), id, name)
    {
      if id !in players {
        return INTERNAL_ERROR;
      }
      if name == [] {
        return NAME_EMPTY;
      }
      if players[id].level < minLevel {
        return LEVEL_TOO_LOW;
      }
      if players[id].clan != 0 {
        return ALREADY_IN_CLAN;
      }
      var taken := ClanByName(name);
      if taken.Some? {
        return NAME_TAKEN;
      }
      assert CardNamed(old(Cards()), name).None?;
      var clan := new Clan(nextClanId, name, id, maxMembers);
      clans := clans[nextClanId := clan];
      assert Cards() == old(Cards())[nextClanId := Card(name, id, {id}, {}, {})];
      players := players[id := players[id].(clan := nextClanId)];
      nextClanId := nextClanId + 1;
      assert View() == FoundStep(maxMembers, minLevel, old(View()), id, name).0;
      return SUCCESS;
    }

    method RequestJoin(id: nat, name: Text) returns (status: Status)
      requires Filed()
      modifies clans.Values
      ensures Filed()
      ensures (View(), status) == RequestStep(maxMembers, old(View()), id, name)
    {
      if id !in players {
        return INTERNAL_ERROR;
      }
      if players[id].clan != 0 {
        return ALREADY_IN_CLAN;
      }
      var found := ClanByName(name);
      if found.None? {
        return CLAN_NOT_FOUND;
      }
      NamedIfTaken(Cards(), name);
      var clan := clans[found.value];
      if id in clan.banned {
        return PLAYER_BANNED;
      }
      var ok := clan.RequestJoin(id);
      OneCardChanged(found.value);
      if !ok {
        return if |clan.members| >= clan.maxMembers then CLAN_FULL else INTERNAL_ERROR;
      }
      return SUCCESS;
    }

    method FindTarget(caller: nat, nick: Text) returns (r: Result<(nat, nat), Status>)
      requires Filed()
      ensures r == Resolve(View(), caller, nick)
      ensures r.Ok? ==> caller in players && r.value.0 in clans && r.value.1 in players
    {
      if caller !in players || players[caller].clan !in clans {
        return Err(NOT_IN_CLAN);
      }
      var target := PlayerByName(nick);
      NamedIfPresent(players, nick);
      if target.None? {
        return Err(TARGET_OFFLINE);
      }
      return Ok((players[caller].clan, target.value));
    }

    method AcceptMember(caller: nat, nick: Text) returns (status: Status)
      requires Filed()
      modifies this`players, clans.Values
      ensures Filed()
      ensures (View(), status) == TargetStep(maxMembers, old(View()), Action.Accept(caller, nick))
    {
      var r := FindTarget(caller, nick);
      if r.Err? {
        return r.error;
      }
      var (c, target) := r.value;
      var ok := clans[c].Accept(caller, target);
      OneCardChanged(c);
      if !ok {
        return if clans[c].founder != caller then NOT_FOUNDER else NOT_PENDING;
      }
      players := players[target := players[target].(clan := c)];
      return SUCCESS;
    }

    method RejectMember(caller: nat, nick: Text) returns (status: Status)
      requires Filed()
      modifies clans.Values
      ensures Filed()
      ensures (View(), status) == TargetStep(maxMembers, old(View()), Action.Reject(caller, nick))
    {
      var r := FindTarget(caller, nick);
      if r.Err? {
        return r.error;
      }
      var (c, target) := r.value;
      var ok := clans[c].Reject(caller, target);
      OneCardChanged(c);
      if !ok {
        return if clans[c].founder != caller then NOT_FOUNDER else NOT_PENDING;
      }
      return SUCCESS;
    }

    method BanMember(caller: nat, nick: Text) returns (status: Status)
      requires Filed()
      modifies this`players, clans.Values
      ensures Filed()
      ensures (View(), status) == TargetStep(maxMembers, old(View()), Action.Ban(caller, nick))
    {
      var r := FindTarget(caller, nick);
      if r.Err? {
        return r.error;
      }
      var (c, target) := r.value;
      var wasMember := target in clans[c].members;
      var ok := clans[c].Ban(caller, target);
      OneCardChanged(c);
      if !ok {
        return if clans[c].founder != caller then NOT_FOUNDER else TARGET_IS_SELF;
      }
      if wasMember {
        players := players[target := players[target].(clan := 0)];
      }
      assert players == old(players)[target := players[target]];
      return SUCCESS;
    }

    method KickMember(caller: nat, nick: Text) returns (status: Status)
      requires Filed()
      modifies this`players, clans.Values
      ensures Filed()
      ensures (View(), status) == TargetStep(maxMembers, old(View()), Action.Kick(caller, nick))
    {
      var r := FindTarget(caller, nick);
      if r.Err? {
        return r.error;
      }
      var (c, target) := r.value;
      var ok := clans[c].Kick(caller, target);
      OneCardChanged(c);
      if !ok {
        return if clans[c].founder != caller then NOT_FOUNDER else NOT_PENDING;
      }
      players := players[target := players[target].(clan := 0)];
      return SUCCESS;
    }

    method LeaveClan(id: nat) returns (status: Status)
      requires Filed()
      modifies this`players, clans.Values
      ensures Filed()
      ensures (View(), status) == LeaveStep(old(View()), id)
    {
      if id !in players || players[id].clan !in clans {
        return NOT_IN_CLAN;
      }
      var c := players[id].clan;
      var ok := clans[c].Leave(id);
      OneCardChanged(c);
      if !ok {
        return FOUNDER_CANNOT_LEAVE;
      }
      players := players[id := players[id].(clan := 0)];
      return SUCCESS;
    }
  }
}
