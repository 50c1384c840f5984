/** What each clan action means for the actions after it. */
module ClanLaws {
  import opened Prelude
  import opened Bytes
  import opened Clans

  /** The only clan of this name. */
  lemma NamedSo(max: nat, h: Hall, c: nat)
    requires Consistent(max, h) && c in h.cards
    ensures CardNamed(h.cards, h.cards[c].name) == Some(c)
  {
    OnlyCardNamed(h.cards, h.cards[c].name, c);
  }

  /** The two named by a founder's action: the founder's own clan, and the first player of that nick. */
  lemma Named(h: Hall, caller: nat, nick: Text)
    ensures var r := Resolve(h, caller, nick);
            && (r == Err(NOT_IN_CLAN) <==> caller !in h.players || h.players[caller].clan !in h.cards)
            && (r == Err(TARGET_OFFLINE) <==>
                  && caller in h.players && h.players[caller].clan in h.cards
                  && forall p | p in h.players :: h.players[p].name != nick)
            && (r.Ok? ==>
                  var (c, t) := r.value;
                  && caller in h.players && c == h.players[caller].clan && c in h.cards
                  && t in h.players && h.players[t].name == nick
                  && forall p | p in h.players && h.players[p].name == nick :: t <= p)
            && (r.Err? ==> r.error == NOT_IN_CLAN || r.error == TARGET_OFFLINE)
  {
    NamedIfPresent(h.players, nick);
  }

  // ---- Founding ----

  /** Founding succeeds exactly for a present player of enough level, with no clan, and a new name. */
  lemma FoundsWhen(max: nat, minLevel: int, h: Hall, id: nat, name: Text)
    ensures Step(max, minLevel, h, Found(id, name)).1 == SUCCESS <==>
            && id in h.players && minLevel <= h.players[id].level && h.players[id].clan == 0
            && name != [] && forall c | c in h.cards :: h.cards[c].name != name
    ensures Step(max, minLevel, h, Found(id, name)).1 != SUCCESS ==> Step(max, minLevel, h, Found(id, name)).0 == h
  {
    NamedIfTaken(h.cards, name);
  }

  /** The founder is alone in the new clan and has it on record, and nobody can found another of that name. */
  lemma FoundFounds(max: nat, minLevel: int, h: Hall, id: nat, name: Text, other: nat)
    requires Consistent(max, h) && 0 < h.next && Step(max, minLevel, h, Found(id, name)).1 == SUCCESS
    ensures var h' := Step(max, minLevel, h, Found(id, name)).0;
            && h.next !in h.cards && h'.cards.Keys == h.cards.Keys + {h.next}
            && h'.cards[h.next] == Card(name, id, {id}, {}, {})
            && (forall c | c in h.cards :: h'.cards[c] == h.cards[c])
            && h'.players[id].clan == h.next
            && Step(max, minLevel, h', Found(other, name)).1 != SUCCESS
            && Step(max, minLevel, h', Leave(id)).1 == FOUNDER_CANNOT_LEAVE
  {
    var h' := Step(max, minLevel, h, Found(id, name)).0;
    assert h'.cards[h.next].name == name;
    FoundsWhen(max, minLevel, h', other, name);
  }

  // ---- Asking ----

  /** Asking succeeds exactly for a present player with no clan on record, of whom the clan has never heard. */
  lemma RequestsWhen(max: nat, minLevel: int, h: Hall, id: nat, c: nat)
    requires Consistent(max, h) && c in h.cards
    ensures var status := Step(max, minLevel, h, Request(id, h.cards[c].name)).1;
            && (status == SUCCESS <==>
                  && id in h.players && h.players[id].clan == 0 && |h.cards[c].members| < max
                  && id !in h.cards[c].members && id !in h.cards[c].pending && id !in h.cards[c].banned)
            && (status == PLAYER_BANNED <==> id in h.players && h.players[id].clan == 0 && id in h.cards[c].banned)
  {
    NamedSo(max, h, c);
  }

  /** Who has asked is pending, whatever happens to others, until the founder answers. */
  lemma RequestAsks(max: nat, minLevel: int, h: Hall, id: nat, c: nat)
    requires Consistent(max, h) && c in h.cards
    requires Step(max, minLevel, h, Request(id, h.cards[c].name)).1 == SUCCESS
    ensures var h' := Step(max, minLevel, h, Request(id, h.cards[c].name)).0;
            && h'.players == h.players && h'.cards.Keys == h.cards.Keys && h'.next == h.next
            && id in h'.cards[c].pending && h'.cards[c].members == h.cards[c].members
            && h'.cards[c].pending == h.cards[c].pending + {id} && h'.cards[c].banned == h.cards[c].banned
            && (forall d | d in h.cards && d != c :: h'.cards[d] == h.cards[d])
            && Step(max, minLevel, h', Request(id, h.cards[c].name)).1 == INTERNAL_ERROR
  {
    NamedSo(max, h, c);
    var h' := Step(max, minLevel, h, Request(id, h.cards[c].name)).0;
    RequestKeepsConsistent(max, h, id, h.cards[c].name);
    assert h'.cards[c].name == h.cards[c].name;
    NamedSo(max, h', c);
    hide Consistent, CardNamed;
  }

  // ---- The founder's answers ----

  /** Each of the four succeeds exactly for the founder, on the right target. */
  lemma TargetsWhen(max: nat, minLevel: int, h: Hall, a: Action, c: nat, t: nat)
    requires a.Accept? || a.Reject? || a.Ban? || a.Kick?
    requires Resolve(h, a.id, a.nick) == Ok((c, t))
    ensures var card := h.cards[c];
            Step(max, minLevel, h, a).1 == SUCCESS <==>
            && a.id == card.founder
            && (a.Accept? ==> t in card.pending && |card.members| < max)
            && (a.Reject? ==> t in card.pending)
            && (a.Ban? ==> t != card.founder)
            && (a.Kick? ==> t != card.founder && t in card.members)
    ensures Step(max, minLevel, h, a).1 == NOT_FOUNDER <==> a.id != h.cards[c].founder
    ensures Step(max, minLevel, h, a).1 != SUCCESS ==> Step(max, minLevel, h, a).0 == h
  {
    Named(h, a.id, a.nick);
  }

  /** What a successful answer leaves alone: everybody and every clan but the two it is about. */
  lemma OthersStay(max: nat, minLevel: int, h: Hall, a: Action, c: nat, t: nat)
    requires a.Accept? || a.Reject? || a.Ban? || a.Kick?
    requires Resolve(h, a.id, a.nick) == Ok((c, t)) && Step(max, minLevel, h, a).1 == SUCCESS
    ensures var h' := Step(max, minLevel, h, a).0;
            && h'.next == h.next && h'.cards.Keys == h.cards.Keys && h'.players.Keys == h.players.Keys
            && (forall d | d in h.cards && d != c :: h'.cards[d] == h.cards[d])
            && (forall p | p in h.players && p != t :: h'.players[p] == h.players[p])
            && h'.cards[c].name == h.cards[c].name && h'.cards[c].founder == h.cards[c].founder
            && (forall p | p != t ::
                  && (p in h'.cards[c].members <==> p in h.cards[c].members)
                  && (p in h'.cards[c].pending <==> p in h.cards[c].pending)
                  && (p in h'.cards[c].banned <==> p in h.cards[c].banned))
            && h'.players[t].name == h.players[t].name && h'.players[t].level == h.players[t].level
  {
    Named(h, a.id, a.nick);
  }

  /** Who is accepted is a member with the clan on record, and cannot ask or found any more, but leave. */
  lemma AcceptAdmits(max: nat, minLevel: int, h: Hall, f: nat, nick: Text, c: nat, t: nat, name: Text)
    requires Consistent(max, h) && Resolve(h, f, nick) == Ok((c, t))
    requires Step(max, minLevel, h, Accept(f, nick)).1 == SUCCESS
    ensures var h' := Step(max, minLevel, h, Accept(f, nick)).0;
            && t in h'.cards[c].members && t !in h'.cards[c].pending && t !in h'.cards[c].banned
            && h'.players[t].clan == c
            && Step(max, minLevel, h', Request(t, name)).1 == ALREADY_IN_CLAN
            && Step(max, minLevel, h', Found(t, name)).1 != SUCCESS
            && Step(max, minLevel, h', Leave(t)).1 == SUCCESS
  {
    Named(h, f, nick);
  }

  /** Who is rejected is no longer pending, nothing else, and can ask again. */
  lemma RejectTurnsAway(max: nat, minLevel: int, h: Hall, f: nat, nick: Text, c: nat, t: nat)
    requires Consistent(max, h) && Resolve(h, f, nick) == Ok((c, t))
    requires Step(max, minLevel, h, Reject(f, nick)).1 == SUCCESS
    ensures var h' := Step(max, minLevel, h, Reject(f, nick)).0;
            && t !in h'.cards[c].members && t !in h'.cards[c].pending && t !in h'.cards[c].banned
            && h'.players == h.players
            && (Step(max, minLevel, h', Request(t, h.cards[c].name)).1 == SUCCESS <==>
                  h.players[t].clan == 0 && |h.cards[c].members| < max)
  {
    Named(h, f, nick);
    var h' := Step(max, minLevel, h, Reject(f, nick)).0;
    TargetKeepsConsistent(max, h, Reject(f, nick));
    RequestsWhen(max, minLevel, h', t, c);
  }

  /** Who is kicked is out, has no clan on record, and can ask again at once. */
  lemma KickRemoves(max: nat, minLevel: int, h: Hall, f: nat, nick: Text, c: nat, t: nat)
    requires Consistent(max, h) && Resolve(h, f, nick) == Ok((c, t))
    requires Step(max, minLevel, h, Kick(f, nick)).1 == SUCCESS
    ensures var h' := Step(max, minLevel, h, Kick(f, nick)).0;
            && t !in h'.cards[c].members && t !in h'.cards[c].pending && t !in h'.cards[c].banned
            && h'.players[t].clan == 0
            && Step(max, minLevel, h', Request(t, h.cards[c].name)).1 == SUCCESS
  {
    Named(h, f, nick);
    var h' := Step(max, minLevel, h, Kick(f, nick)).0;
    TargetKeepsConsistent(max, h, Kick(f, nick));
    assert h'.cards[c].members == h.cards[c].members - {t} && |h'.cards[c].members| < |h.cards[c].members|;
    RequestsWhen(max, minLevel, h', t, c);
  }

  /** Leaving succeeds exactly for a member who is not the founder, who is then out and can ask again at once. */
  lemma LeaveLeaves(max: nat, minLevel: int, h: Hall, id: nat, c: nat)
    requires Consistent(max, h) && id in h.players && h.players[id].clan == c && c in h.cards
    ensures Step(max, minLevel, h, Leave(id)).1 == SUCCESS <==> id != h.cards[c].founder
    ensures Step(max, minLevel, h, Leave(id)).1 != SUCCESS ==> Step(max, minLevel, h, Leave(id)).0 == h
    ensures var h' := Step(max, minLevel, h, Leave(id)).0;
            Step(max, minLevel, h, Leave(id)).1 == SUCCESS ==>
            && h'.cards.Keys == h.cards.Keys && (forall d | d in h.cards && d != c :: h'.cards[d] == h.cards[d])
            && h'.players.Keys == h.players.Keys && h'.next == h.next
            && (forall p | p in h.players && p != id :: h'.players[p] == h.players[p])
            && id !in h'.cards[c].members && h'.cards[c].members == h.cards[c].members - {id}
            && h'.players[id].clan == 0
            && Step(max, minLevel, h', Request(id, h.cards[c].name)).1 == SUCCESS
  {
    var h' := Step(max, minLevel, h, Leave(id)).0;
    LeaveKeepsConsistent(max, h, id);
    if Step(max, minLevel, h, Leave(id)).1 == SUCCESS {
      assert |h'.cards[c].members| < |h.cards[c].members|;
      RequestsWhen(max, minLevel, h', id, c);
    }
  }

  /**
   * A ban bans for good: after any further run the banned player is neither a member nor pending, and asking again,
   * present and with no clan on record, is answered with the ban.
   */
  lemma BanBans(max: nat, minLevel: int, h: Hall, f: nat, nick: Text, c: nat, t: nat, later: seq<Action>)
    requires Consistent(max, h) && 0 < h.next && Resolve(h, f, nick) == Ok((c, t))
    requires Step(max, minLevel, h, Ban(f, nick)).1 == SUCCESS
    ensures var h' := Step(max, minLevel, h, Ban(f, nick)).0;
            var end := Run(max, minLevel, h', later);
            && t !in h'.cards[c].members && (t in h.cards[c].members ==> h'.players[t].clan == 0)
            && c in end.cards && t in end.cards[c].banned
            && t !in end.cards[c].members && t !in end.cards[c].pending
            && (t in end.players && end.players[t].clan == 0 ==>
                  Step(max, minLevel, end, Request(t, h.cards[c].name)).1 == PLAYER_BANNED)
  {
    Named(h, f, nick);
    var h' := Step(max, minLevel, h, Ban(f, nick)).0;
    StepKeepsConsistent(max, minLevel, h, Ban(f, nick));
    assert t in h'.cards[c].banned;
    RunKeepsConsistent(max, minLevel, h', later);
    RequestsWhen(max, minLevel, Run(max, minLevel, h', later), t, c);
  }

  /** Coming adds one player with no clan, going takes one away, and neither touches the clans. */
  lemma ComingAndGoing(max: nat, minLevel: int, h: Hall, id: nat, name: Text, level: int)
    ensures var h' := Step(max, minLevel, h, Enter(id, name, level)).0;
            && h'.cards == h.cards && h'.next == h.next
            && (id in h.players ==> h' == h)
            && (id !in h.players ==>
                  && h'.players.Keys == h.players.Keys + {id}
                  && h'.players[id].name == name && h'.players[id].level == level && h'.players[id].clan == 0
                  && forall p | p in h.players :: h'.players[p] == h.players[p])
    ensures var h' := Step(max, minLevel, h, Exit(id)).0;
            && h'.cards == h.cards && h'.next == h.next && h'.players.Keys == h.players.Keys - {id}
            && forall p | p in h'.players :: h'.players[p] == h.players[p]
  {
  }
}
