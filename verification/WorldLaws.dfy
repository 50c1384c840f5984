/** What each event means for the characters of a world, in coordinates, and what follows over runs. */
module WorldLaws {
  import opened Prelude
  import opened Placement
  import opened Worlds

  /** Ground of the map that is no wall, and nobody on it. */
  ghost predicate Open(m: WorldMap, g: Grid, x: int, y: int) {
    && 0 <= x < m.width && 0 <= y < m.height && Position(x, y) !in m.walls
    && (forall j | j in g.players :: g.players[j].pos != Position(x, y))
    && (forall j | j in g.npcs :: g.npcs[j].pos != Position(x, y))
  }

  /** Players go anywhere, NPCs stay out of safe zones, and hostile ones keep to zones of their own kinds. */
  ghost predicate Allowed(m: WorldMap, role: Role, x: int, y: int) {
    var p := Position(x, y);
    match role
    case Hero => true
    case CityFolk(_) => !(p in m.zones && m.zones[p].safe)
    case Hostile(zones, _, _) =>
      if p in m.zones then !m.zones[p].safe && m.zones[p].kind in zones else ALL in zones
  }

  /** The id names this character: a player if there is one, and else an NPC. */
  ghost predicate Names(g: Grid, id: nat, c: Character) {
    if id in g.players then c == g.players[id] else id in g.npcs && c == g.npcs[id]
  }

  /** Only this character has changed. */
  ghost predicate OnlyNow(s: Moment, id: nat, c: Character, s': Moment) {
    && s'.pending == s.pending && s'.nextNpcId == s.nextNpcId
    && if id in s.grid.players then s'.grid.players == s.grid.players[id := c] && s'.grid.npcs == s.grid.npcs
       else s'.grid.npcs == s.grid.npcs[id := c] && s'.grid.players == s.grid.players
  }

  lemma OpenIsVacant(m: WorldMap, g: Grid, x: int, y: int)
    ensures Position(x, y) in g.Vacant(m) <==> Open(m, g, x, y)
  {
  }

  lemma AllowedMayEnter(m: WorldMap, g: Grid, c: Character, x: int, y: int)
    requires Open(m, g, x, y)
    ensures c.CanEnter(m, Position(x, y)) <==> Allowed(m, c.role, x, y)
  {
  }

  // ---- Commands ----

  /** One cell in the direction told, when nothing is in the way and nothing is pending; and nobody else moves. */
  lemma WalkSteps(m: WorldMap, limit: nat, s: Moment, id: nat, d: Direction, s': Moment, c: Character, x: int, y: int)
    requires Happened(m, limit, s, Walk(id, d), s') && id in s.grid.players
    requires s.grid.players[id] == c && c.pos == Position(x, y)
    ensures id in s.pending ==> s' == s
    ensures var x', y' := (match d case RIGHT => x + 1 case LEFT => x - 1 case _ => x),
                          (match d case UP => y - 1 case DOWN => y + 1 case _ => y);
            if id !in s.pending && Open(m, s.grid, x', y') && Allowed(m, c.role, x', y')
            then OnlyNow(s, id, Character(Position(x', y'), c.dead, d, true, c.role), s')
            else s' == s
  {
    var x', y' := (match d case RIGHT => x + 1 case LEFT => x - 1 case _ => x),
                  (match d case UP => y - 1 case DOWN => y + 1 case _ => y);
    OpenIsVacant(m, s.grid, x', y');
    if Open(m, s.grid, x', y') {
      AllowedMayEnter(m, s.grid, c, x', y');
    }
    hide Grid.Vacant, Character.CanEnter, Open, Allowed;
  }

  /** Who is no player walks nowhere, and who is nobody at all is not hurt. */
  lemma NobodyNamed(m: WorldMap, limit: nat, s: Moment, id: nat, d: Direction, deadly: bool, s': Moment)
    requires id !in s.grid.players
    ensures Happened(m, limit, s, Walk(id, d), s') ==> s' == s
    ensures id !in s.grid.npcs && Happened(m, limit, s, Hit(id, deadly), s') ==> s' == s
  {
  }

  lemma HitHurts(m: WorldMap, limit: nat, s: Moment, id: nat, deadly: bool, s': Moment, c: Character)
    requires Happened(m, limit, s, Hit(id, deadly), s') && Names(s.grid, id, c)
    ensures OnlyNow(s, id, Character(c.pos, c.dead || deadly, c.direction, c.moving, c.role), s')
  {
  }

  /** The cell is free for others again, and no resurrection will bring the player back. */
  lemma LeaveFrees(m: WorldMap, limit: nat, s: Moment, id: nat, s': Moment)
    requires Happened(m, limit, s, Leave(id), s')
    ensures id !in s'.grid.players && id !in s'.pending
    ensures forall j | j != id :: j in s'.grid.players <==> j in s.grid.players
    ensures forall j | j != id :: j in s'.pending <==> j in s.pending
    ensures forall j | j in s'.grid.players :: s'.grid.players[j] == s.grid.players[j]
    ensures forall j | j in s'.pending :: s'.pending[j] == s.pending[j]
    ensures s'.grid.npcs == s.grid.npcs && s'.nextNpcId == s.nextNpcId
    ensures Placed(m, s.grid.players, s.grid.npcs) && id in s.grid.players ==>
              var p := s.grid.players[id].pos; Open(m, s'.grid, p.x, p.y)
  {
    if Placed(m, s.grid.players, s.grid.npcs) && id in s.grid.players {
      var p := s.grid.players[id].pos;
      Standing(s.grid.players, id);
      assert p in Cells(s.grid.players) + Cells(s.grid.npcs);
      assert !m.IsBlocked(p) && Position(p.x, p.y) == p;
      forall j | j in s.grid.npcs ensures s.grid.npcs[j].pos != p {
        Standing(s.grid.npcs, j);
      }
    }
  }

  /** A player comes in alive, at the first open cell from the base on, and nobody else is touched. */
  lemma JoinPlaces(m: WorldMap, limit: nat, s: Moment, id: nat, base: Position, s': Moment)
    requires Happened(m, limit, s, Join(id, base), s')
    ensures id in s.grid.players ==> s' == s
    ensures id !in s.grid.players && id !in s'.grid.players ==>
              s' == s && forall x, y | Open(m, s.grid, x, y) :: y == base.y && x < base.x
    ensures id !in s.grid.players && id in s'.grid.players ==>
              var p := s'.grid.players[id].pos;
              && OnlyEntered(s, id, p, s') && Open(m, s.grid, p.x, p.y)
              && (Open(m, s.grid, base.x, base.y) ==> p == base)
              && forall x, y | Open(m, s.grid, x, y) ::
                   && (y == base.y && base.x <= x ==> p.y == y && base.x <= p.x <= x)
                   && (base.y < y ==> base.y <= p.y <= y && (p.y == y ==> p.x <= x))
                   && (y < base.y ==> base.y <= p.y || (p.y <= y && (p.y == y ==> p.x <= x)))
  {
    forall x, y ensures Position(x, y) in s.grid.Vacant(m) <==> Open(m, s.grid, x, y) {
      OpenIsVacant(m, s.grid, x, y);
    }
    hide Grid.Vacant, Open;
    if s' == s {
      forall x, y | id !in s.grid.players && Open(m, s.grid, x, y) ensures y == base.y && x < base.x {
        assert Position(x, y) in s.grid.Vacant(m);
      }
    } else {
      var p: Position :| SpawnsAt(m, s.grid, base, p)
                         && s' == s.(grid := Grid(s.grid.players[id := Newcomer(p)], s.grid.npcs));
      assert Position(p.x, p.y) == p && Position(base.x, base.y) == base;
      forall x, y | Open(m, s.grid, x, y)
        ensures NeverScanned(base, Position(x, y)) || ScannedNoLater(base, p, Position(x, y))
      {
        assert Position(x, y) in s.grid.Vacant(m);
      }
    }
  }

  /** This player is new, alive, and standing there. */
  ghost predicate OnlyEntered(s: Moment, id: nat, p: Position, s': Moment) {
    && s'.grid.players == s.grid.players[id := Character(p, false, DOWN, false, Hero)]
    && s'.grid.npcs == s.grid.npcs && s'.pending == s.pending && s'.nextNpcId == s.nextNpcId
  }

  lemma RestorePlaces(m: WorldMap, limit: nat, s: Moment, id: nat, x: int, y: int, s': Moment)
    requires Happened(m, limit, s, Restore(id, Position(x, y)), s')
    ensures if id !in s.grid.players && Open(m, s.grid, x, y) then OnlyEntered(s, id, Position(x, y), s') else s' == s
  {
    OpenIsVacant(m, s.grid, x, y);
  }

  /** Up again on the spot; a pending resurrection stays pending. */
  lemma PriestRaises(m: WorldMap, limit: nat, s: Moment, id: nat, s': Moment)
    requires Happened(m, limit, s, AskPriest(id), s')
    ensures if id in s.grid.players && s.grid.players[id].dead
            then OnlyNow(s, id, s.grid.players[id].(dead := false), s') else s' == s
  {
  }

  /** The wait asked for, towards a priest that no other is nearer than. */
  lemma ResurrectionAsked(m: WorldMap, limit: nat, s: Moment, id: nat, wait: real, s': Moment)
    requires Happened(m, limit, s, AskResurrection(id, wait), s')
    ensures s'.grid == s.grid && s'.nextNpcId == s.nextNpcId
    ensures OthersWait(s, id, s')
    ensures id in s.pending || id !in s.grid.players || !s.grid.players[id].dead || m.cities == [] ==> s' == s
    ensures id !in s.pending && id in s.grid.players && s.grid.players[id].dead && m.cities != [] ==>
              && id in s'.pending && s'.pending[id].timer == wait
              && exists k | 0 <= k < |m.cities| ::
                   && m.cities[k].priest == s'.pending[id].destination
                   && (forall j | 0 <= j < |m.cities| ::
                         SquaredDistance(m.cities[k].priest, s.grid.players[id].pos)
                         <= SquaredDistance(m.cities[j].priest, s.grid.players[id].pos))
                   && (forall j | 0 <= j < k ::
                         SquaredDistance(m.cities[k].priest, s.grid.players[id].pos)
                         < SquaredDistance(m.cities[j].priest, s.grid.players[id].pos))
  {
    hide SquaredDistance;
  }

  lemma Squares(x: int, y: int, a: int, b: int)
    ensures SquaredDistance(Position(x + a, y + b), Position(x, y)) == a * a + b * b
    ensures SquaredDistance(Position(x, y), Position(x + a, y + b)) == a * a + b * b
  {
  }

  /** An NPC as its template has it, at the first draw that is open, not safe and of its kinds of zones. */
  lemma PopulateAdds(m: WorldMap, limit: nat, s: Moment, templates: seq<Template>, pick: nat, draw: nat -> Position,
                     s': Moment, k: nat)
    requires Happened(m, limit, s, Populate(templates, pick, draw), s') && templates != [] && k < 50
    requires var role := Hostile(templates[pick % |templates|].zones, 0, 0.0);
             && Open(m, s.grid, draw(k).x, draw(k).y) && Allowed(m, role, draw(k).x, draw(k).y)
             && forall j: nat | j < k ::
                  !(Open(m, s.grid, draw(j).x, draw(j).y) && Allowed(m, role, draw(j).x, draw(j).y))
    ensures var t := templates[pick % |templates|];
            s' == if |set j | j in s.grid.npcs && s.grid.npcs[j].role.Hostile? && !s.grid.npcs[j].dead| < limit
                  then Moment(Grid(s.grid.players,
                                   s.grid.npcs[s.nextNpcId := Character(draw(k), false, DOWN, false,
                                                                        Hostile(t.zones, t.range, 0.0))]),
                              s.pending, s.nextNpcId + 1)
                  else s
  {
    var zones := templates[pick % |templates|].zones;
    forall j: nat
      ensures SpawnCell(m, s.grid, zones, draw(j))
              <==> Open(m, s.grid, draw(j).x, draw(j).y)
                   && Allowed(m, Hostile(zones, 0, 0.0), draw(j).x, draw(j).y)
    {
      OpenIsVacant(m, s.grid, draw(j).x, draw(j).y);
      assert Position(draw(j).x, draw(j).y) == draw(j);
    }
    assert LiveHostiles(s.grid.npcs)
           == set j | j in s.grid.npcs && s.grid.npcs[j].role.Hostile? && !s.grid.npcs[j].dead;
    hide SpawnCell, Open, Allowed, LiveHostiles;
    assert GoodDraw(m, s.grid, zones, draw, k);
    forall j: nat | GoodDraw(m, s.grid, zones, draw, j) ensures j == k {
    }
  }

  lemma PopulateInVain(m: WorldMap, limit: nat, s: Moment, templates: seq<Template>, pick: nat, draw: nat -> Position,
                       s': Moment)
    requires Happened(m, limit, s, Populate(templates, pick, draw), s')
    requires templates == []
             || forall j: nat | j < 50 ::
                  !(Open(m, s.grid, draw(j).x, draw(j).y)
                    && Allowed(m, Hostile(templates[pick % |templates|].zones, 0, 0.0), draw(j).x, draw(j).y))
    ensures s' == s
  {
    if templates != [] {
      var zones := templates[pick % |templates|].zones;
      forall j: nat | j < 50 ensures !SpawnCell(m, s.grid, zones, draw(j)) {
        OpenIsVacant(m, s.grid, draw(j).x, draw(j).y);
        assert Position(draw(j).x, draw(j).y) == draw(j);
      }
      hide SpawnCell, Open, Allowed, LiveHostiles;
      assert forall j: nat :: !GoodDraw(m, s.grid, zones, draw, j);
    }
  }

  // ---- Resurrections ----

  ghost predicate OthersWait(s: Moment, id: nat, s': Moment) {
    forall j | j != id :: (j in s'.pending <==> j in s.pending) && (j in s.pending ==> s'.pending[j] == s.pending[j])
  }

  /** Not due yet: the rest of the wait is shorter by the tick, and nobody moves. */
  lemma WaitShortens(m: WorldMap, s: Moment, id: nat, s': Moment, tick: real)
    requires CountedDown(m, s, id, s', tick) && tick < s.pending[id].timer
    ensures id in s'.pending && s'.pending[id] == Pending(s.pending[id].timer - tick, s.pending[id].destination)
    ensures OthersWait(s, id, s') && s'.grid == s.grid && s'.nextNpcId == s.nextNpcId
  {
  }

  /** Due: the player lives, on an open cell that none is nearer to the priest than, or stays if there is none. */
  lemma DueIsCarried(m: WorldMap, s: Moment, id: nat, s': Moment, tick: real, x: int, y: int)
    requires CountedDown(m, s, id, s', tick) && s.pending[id].timer <= tick
    requires s.pending[id].destination == Position(x, y)
    ensures id !in s'.pending && OthersWait(s, id, s') && s'.grid.npcs == s.grid.npcs && s'.nextNpcId == s.nextNpcId
    ensures if 0 <= x < m.width && 0 <= y < m.height && exists a, b :: Open(m, s.grid, a, b) then
              var c, c' := s.grid.players[id], s'.grid.players[id];
              && s'.grid.players == s.grid.players[id := Character(c'.pos, false, c.direction, c.moving, c.role)]
              && Open(m, s.grid, c'.pos.x, c'.pos.y)
              && (forall a, b | Open(m, s.grid, a, b) ::
                    Abs(c'.pos.x - x) + Abs(c'.pos.y - y) <= Abs(a - x) + Abs(b - y))
            else s'.grid.players == s.grid.players
  {
    forall a, b ensures Position(a, b) in s.grid.Vacant(m) <==> Open(m, s.grid, a, b) {
      OpenIsVacant(m, s.grid, a, b);
    }
    forall p: Position ensures p in s.grid.Vacant(m) <==> Open(m, s.grid, p.x, p.y) {
      assert Position(p.x, p.y) == p;
    }
    hide Grid.Vacant, Open;
    if s.grid.Vacant(m) != {} {
      var q :| q in s.grid.Vacant(m);
      assert Open(m, s.grid, q.x, q.y);
    }
  }

  /** After a tick everybody waits that much less, and who was due waits no longer. */
  lemma TickTimers(m: WorldMap, limit: nat, s: Moment, tick: real, cooldown: real, fatal: nat -> bool, s': Moment)
    requires Happened(m, limit, s, Tick(tick, cooldown, fatal), s')
    ensures forall j :: j in s'.pending <==> j in s.pending && tick < s.pending[j].timer
    ensures forall j | j in s'.pending :: s'.pending[j] == Pending(s.pending[j].timer - tick, s.pending[j].destination)
    ensures s'.nextNpcId == s.nextNpcId
  {
    hide CountedDown, Ripened, Roamed, InOrder, TimersAfter;
    var t :| Ripened(m, s, tick, t) && Roamed(m, t, tick, cooldown, fatal, s');
    var ids, trail := RipeningTrail(m, s, tick, t);
    var _, _ := RoamingTrail(m, t, tick, cooldown, fatal, s');
    Ordered(ids, s.pending.Keys);
    TimersAlong(m, ids, trail, tick, |ids|);
    assert s.pending.Keys == Elements(ids[..|ids|]);
    AllCounted(s.pending, t.pending, tick);
  }

  lemma {:induction false} TimersAlong(m: WorldMap, ids: seq<nat>, trail: seq<Moment>, tick: real, n: nat)
    requires |trail| == |ids| + 1 && n <= |ids|
    requires CountDowns(m, ids, trail, tick) && InOrder(ids, trail[0].pending.Keys)
    ensures trail[n].nextNpcId == trail[0].nextNpcId
    ensures TimersAfter(trail[0].pending, trail[n].pending, Elements(ids[..n]), tick)
    decreases n
  {
    hide CountDowns, CountedDown, TimersAfter, InOrder;
    if n == 0 {
      assert Elements(ids[..0]) == {};
      NoTimers(trail[0].pending, tick);
    } else {
      CountDownAt(m, ids, trail, tick, n - 1);
      TimersAlong(m, ids, trail, tick, n - 1);
      var id, done := ids[n - 1], Elements(ids[..n - 1]);
      Before(ids, trail[0].pending.Keys, n - 1);
      TimersOne(m, trail[n - 1], id, trail[n], tick);
      TimersStep(trail[0].pending, trail[n - 1].pending, done, id, tick);
      assert ids[..n] == ids[..n - 1] + [id];
      assert Elements(ids[..n]) == done + {id};
    }
  }

  lemma AllCounted(before: map<nat, Pending>, now: map<nat, Pending>, tick: real)
    requires TimersAfter(before, now, before.Keys, tick)
    ensures forall j :: j in now <==> j in before && tick < before[j].timer
    ensures forall j | j in now :: now[j] == Pending(before[j].timer - tick, before[j].destination)
  {
  }

  lemma NoTimers(pending: map<nat, Pending>, tick: real)
    ensures TimersAfter(pending, pending, {}, tick)
  {
  }

  ghost function Elements(ids: seq<nat>): set<nat> {
    set j | j in ids
  }

  lemma CountDownAt(m: WorldMap, ids: seq<nat>, trail: seq<Moment>, tick: real, k: nat)
    requires CountDowns(m, ids, trail, tick) && k < |ids|
    ensures |trail| == |ids| + 1 && CountedDown(m, trail[k], ids[k], trail[k + 1], tick)
  {
  }

  lemma Before(ids: seq<nat>, all: set<nat>, k: nat)
    requires InOrder(ids, all) && k < |ids|
    ensures ids[k] in all && ids[k] !in ids[..k]
  {
    assert ids[k] in ids;
  }

  lemma TimersOne(m: WorldMap, s: Moment, id: nat, s': Moment, tick: real)
    requires CountedDown(m, s, id, s', tick)
    ensures id in s.pending && s'.nextNpcId == s.nextNpcId
    ensures s'.pending == if s.pending[id].timer <= tick then s.pending - {id}
                          else s.pending[id := s.pending[id].(timer := s.pending[id].timer - tick)]
  {
  }

  // ---- NPCs ----

  /** The dead disappear, and those who are not hostile stand still. */
  lemma QuietTurns(m: WorldMap, pending: map<nat, Pending>, g: Grid, id: nat, g': Grid, tick: real, cooldown: real,
                   fatal: bool)
    requires TookTurn(m, pending, g, id, g', tick, cooldown, fatal)
    ensures id in g.npcs
    ensures g.npcs[id].dead ==> id !in g'.npcs && g'.players == g.players
                                && (forall j | j != id :: j in g'.npcs <==> j in g.npcs)
                                && forall j | j in g'.npcs :: g'.npcs[j] == g.npcs[j]
    ensures var c := g.npcs[id];
            !c.dead && !c.role.Hostile? ==>
              g' == Grid(g.players, g.npcs[id := Character(c.pos, false, c.direction, false, c.role)])
  {
  }

  /** A live hostile NPC of this id, with its rest of a cooldown, and this player the one it is after. */
  ghost predicate Hunts(g: Grid, id: nat, c: Character, zones: seq<ZoneType>, range: nat, timer: real, j: nat, a: int,
                        b: int)
  {
    && id in g.npcs && g.npcs[id] == c && !c.dead && c.role == Hostile(zones, range, timer)
    && j in g.players && !g.players[j].dead && g.players[j].pos == Position(c.pos.x + a, c.pos.y + b)
    && a * a + b * b <= range * range
    && forall k | k in g.players && !g.players[k].dead ::
         var s := SquaredDistance(g.players[k].pos, c.pos);
         a * a + b * b < s || (a * a + b * b == s && j <= k)
  }

  /** As long as it rests, or nobody alive is in range, it only rests on. */
  lemma HostileRests(m: WorldMap, pending: map<nat, Pending>, g: Grid, id: nat, g': Grid, tick: real, cooldown: real,
                     fatal: bool, c: Character, zones: seq<ZoneType>, range: nat, timer: real)
    requires TookTurn(m, pending, g, id, g', tick, cooldown, fatal)
    requires g.npcs[id] == c && !c.dead && c.role == Hostile(zones, range, timer)
    requires timer + tick < cooldown
             || forall j | j in g.players && !g.players[j].dead ::
                  SquaredDistance(g.players[j].pos, c.pos) > range * range
    ensures g' == Grid(g.players,
                       g.npcs[id := Character(c.pos, false, c.direction, false, Hostile(zones, range, timer + tick))])
  {
    hide SquaredDistance;
  }

  lemma OnePrey(g: Grid, id: nat, c: Character, zones: seq<ZoneType>, range: nat, timer: real, j: nat, a: int, b: int,
                k: nat)
    requires Hunts(g, id, c, zones, range, timer, j, a, b)
    ensures InReach(g.players[j], c.pos, range)
    ensures Prey(g.players, c.pos, range, k) <==> k == j
  {
    Squares(c.pos.x, c.pos.y, a, b);
    hide SquaredDistance;
  }

  /** A neighbour, diagonally or not, is struck, and the NPC rests again. */
  lemma HostileStrikes(m: WorldMap, pending: map<nat, Pending>, g: Grid, id: nat, g': Grid, tick: real, cooldown: real,
                       fatal: bool, c: Character, zones: seq<ZoneType>, range: nat, timer: real, j: nat, a: int, b: int)
    requires TookTurn(m, pending, g, id, g', tick, cooldown, fatal) && cooldown <= timer + tick
    requires Hunts(g, id, c, zones, range, timer, j, a, b) && -1 <= a <= 1 && -1 <= b <= 1
    ensures var v := g.players[j];
            g' == Grid(g.players[j := Character(v.pos, fatal, v.direction, v.moving, v.role)],
                       g.npcs[id := Character(c.pos, false, c.direction, false, Hostile(zones, range, 0.0))])
  {
    forall k ensures Prey(g.players, c.pos, range, k) <==> k == j {
      OnePrey(g, id, c, zones, range, timer, j, a, b, k);
    }
    OnePrey(g, id, c, zones, range, timer, j, a, b, j);
    hide Prey, InReach, Hunts;
  }

  /** The step of one that is off by a columns and b rows: along the axis with the larger gap. */
  ghost predicate Heads(a: int, b: int, d: Direction, dx: int, dy: int) {
    match d
    case RIGHT => dx == 1 && dy == 0 && 0 < a && -a <= b <= a
    case LEFT => dx == -1 && dy == 0 && a < 0 && a <= b <= -a
    case DOWN => dx == 0 && dy == 1 && 0 < b && -b < a < b
    case UP => dx == 0 && dy == -1 && b < 0 && b < a < -b
  }

  /** There is exactly one such step, and it closes the larger gap. */
  lemma OneHeading(a: int, b: int)
    requires a != 0 || b != 0
    ensures exists d, dx, dy :: Heads(a, b, d, dx, dy)
    ensures forall d, dx, dy, d', dx', dy' | Heads(a, b, d, dx, dy) && Heads(a, b, d', dx', dy') ::
              d == d' && dx == dx' && dy == dy' && Abs(a - dx) + Abs(b - dy) == Abs(a) + Abs(b) - 1
  {
    if -a <= b <= a {
      assert Heads(a, b, RIGHT, 1, 0);
    } else if a <= b <= -a {
      assert Heads(a, b, LEFT, -1, 0);
    } else if 0 < b {
      assert Heads(a, b, DOWN, 0, 1);
    } else {
      assert Heads(a, b, UP, 0, -1);
    }
  }

  /** Further off, it steps to close the larger gap, or only turns that way; and rests again. */
  lemma HostileChases(m: WorldMap, pending: map<nat, Pending>, g: Grid, id: nat, g': Grid, tick: real, cooldown: real,
                      fatal: bool, c: Character, zones: seq<ZoneType>, range: nat, timer: real, j: nat, a: int, b: int,
                      d: Direction, dx: int, dy: int)
    requires TookTurn(m, pending, g, id, g', tick, cooldown, fatal) && cooldown <= timer + tick
    requires Hunts(g, id, c, zones, range, timer, j, a, b) && !(-1 <= a <= 1 && -1 <= b <= 1)
    requires id !in g.players && id !in pending && Heads(a, b, d, dx, dy)
    ensures var x, y := c.pos.x + dx, c.pos.y + dy;
            var moved := Open(m, g, x, y) && Allowed(m, c.role, x, y);
            g' == Grid(g.players,
                       g.npcs[id := Character(if moved then Position(x, y) else c.pos, false, d, moved,
                                              Hostile(zones, range, 0.0))])
  {
    hide TookTurn, Hunts, Open, Grid.Chased, Heads;
    HostileGoes(m, pending, g, id, g', tick, cooldown, fatal, c, zones, range, timer, j, a, b);
    ChaseStep(m, pending, g, id, Rested(c, zones, range), a, b, d, dx, dy);
  }

  ghost function Rested(c: Character, zones: seq<ZoneType>, range: nat): Character {
    Character(c.pos, false, c.direction, false, Hostile(zones, range, 0.0))
  }

  lemma HostileGoes(m: WorldMap, pending: map<nat, Pending>, g: Grid, id: nat, g': Grid, tick: real, cooldown: real,
                    fatal: bool, c: Character, zones: seq<ZoneType>, range: nat, timer: real, j: nat, a: int, b: int)
    requires TookTurn(m, pending, g, id, g', tick, cooldown, fatal) && cooldown <= timer + tick
    requires Hunts(g, id, c, zones, range, timer, j, a, b) && !(-1 <= a <= 1 && -1 <= b <= 1)
    ensures id in g.npcs && c == g.npcs[id] && c.role == Hostile(zones, range, timer)
    ensures g' == g.WithNpc(id, Rested(c, zones, range)).Chased(m, pending, id, Position(c.pos.x + a, c.pos.y + b))
  {
    forall k ensures Prey(g.players, c.pos, range, k) <==> k == j {
      OnePrey(g, id, c, zones, range, timer, j, a, b, k);
    }
    OnePrey(g, id, c, zones, range, timer, j, a, b, j);
    hide Prey, InReach, Hunts, Grid.Chased;
    assert g.WithNpc(id, c.(moving := false)).WithNpc(id, Rested(c, zones, range))
           == g.WithNpc(id, Rested(c, zones, range));
  }

  lemma ChaseStep(m: WorldMap, pending: map<nat, Pending>, g: Grid, id: nat, c: Character, a: int, b: int, d: Direction,
                  dx: int, dy: int)
    requires id in g.npcs && c.pos == g.npcs[id].pos && !c.moving && id !in g.players && id !in pending
    requires Heads(a, b, d, dx, dy)
    ensures var x, y := c.pos.x + dx, c.pos.y + dy;
            var moved := Open(m, g, x, y) && Allowed(m, c.role, x, y);
            g.WithNpc(id, c).Chased(m, pending, id, Position(c.pos.x + a, c.pos.y + b))
            == g.WithNpc(id, c.(pos := if moved then Position(x, y) else c.pos, direction := d, moving := moved))
  {
    var x, y := c.pos.x + dx, c.pos.y + dy;
    assert ChaseDirection(c.pos, Position(c.pos.x + a, c.pos.y + b)) == d && Destination(c.pos, d) == Position(x, y);
    hide Grid.Vacant, Character.CanEnter, Open, Allowed, Destination, ChaseDirection, Abs, Heads;
    var turned := g.WithNpc(id, c.(direction := d));
    assert g.WithNpc(id, c).WithNpc(id, c.(direction := d)) == turned;
    SameOpen(m, g, id, c.(direction := d), x, y);
    OpenIsVacant(m, turned, x, y);
    if Open(m, turned, x, y) {
      AllowedMayEnter(m, turned, c.(direction := d), x, y);
    }
  }

  lemma SameOpen(m: WorldMap, g: Grid, id: nat, c: Character, x: int, y: int)
    requires id in g.npcs && c.pos == g.npcs[id].pos
    ensures Open(m, g.WithNpc(id, c), x, y) <==> Open(m, g, x, y)
  {
    var now := g.WithNpc(id, c);
    assert forall k | k in g.npcs :: k in now.npcs && now.npcs[k].pos == g.npcs[k].pos;
    assert forall k | k in now.npcs :: k in g.npcs;
  }

  /** With nobody waiting and no NPC but this one, a tick is its turn. */
  lemma TickOfOne(m: WorldMap, limit: nat, s: Moment, tick: real, cooldown: real, fatal: nat -> bool, s': Moment,
                  id: nat)
    requires Happened(m, limit, s, Tick(tick, cooldown, fatal), s')
    requires s.pending == map[] && s.grid.npcs.Keys == {id}
    ensures TookTurn(m, map[], s.grid, id, s'.grid, tick, cooldown, fatal(id))
    ensures s'.pending == map[] && s'.nextNpcId == s.nextNpcId
  {
    hide CountedDown, TookTurn, InOrder;
    var ids, trail := TickWithNobodyWaiting(m, s, tick, cooldown, fatal, s');
    Ordered(ids, {id});
  }

  /** With two, it is the turn of the one with the smaller id, and then the other's, from what the first left. */
  lemma TickOfTwo(m: WorldMap, limit: nat, s: Moment, tick: real, cooldown: real, fatal: nat -> bool, s': Moment,
                  i: nat, j: nat)
    requires Happened(m, limit, s, Tick(tick, cooldown, fatal), s')
    requires s.pending == map[] && s.grid.npcs.Keys == {i, j} && i < j
    ensures exists g ::
              && TookTurn(m, map[], s.grid, i, g, tick, cooldown, fatal(i))
              && TookTurn(m, map[], g, j, s'.grid, tick, cooldown, fatal(j))
  {
    hide CountedDown, TookTurn, InOrder;
    var ids, trail := TickWithNobodyWaiting(m, s, tick, cooldown, fatal, s');
    Ordered(ids, {i, j});
    assert TookTurn(m, map[], trail[0], ids[0], trail[1], tick, cooldown, fatal(ids[0]));
  }

  lemma TickWithNobodyWaiting(m: WorldMap, s: Moment, tick: real, cooldown: real, fatal: nat -> bool, s': Moment)
    returns (ids: seq<nat>, trail: seq<Grid>)
    requires Ticked(m, s, tick, cooldown, fatal, s') && s.pending == map[]
    ensures TookTurns(m, map[], ids, trail, tick, cooldown, fatal) && InOrder(ids, s.grid.npcs.Keys)
    ensures trail[0] == s.grid && s' == s.(grid := trail[|ids|])
  {
    hide Ripened, Roamed;
    var t :| Ripened(m, s, tick, t) && Roamed(m, t, tick, cooldown, fatal, s');
    NobodyRipens(m, s, tick, t);
    ids, trail := RoamingTrail(m, s, tick, cooldown, fatal, s');
  }

  lemma NobodyRipens(m: WorldMap, s: Moment, tick: real, s': Moment)
    requires Ripened(m, s, tick, s') && s.pending == map[]
    ensures s' == s
  {
    hide CountedDown, InOrder;
    var ids, trail := RipeningTrail(m, s, tick, s');
    Ordered(ids, s.pending.Keys);
  }

  lemma NobodyRoams(m: WorldMap, s: Moment, tick: real, cooldown: real, fatal: nat -> bool, s': Moment)
    requires Roamed(m, s, tick, cooldown, fatal, s') && s.grid.npcs == map[]
    ensures s' == s
  {
    hide TookTurn, InOrder;
    var ids, trail := RoamingTrail(m, s, tick, cooldown, fatal, s');
    Ordered(ids, s.grid.npcs.Keys);
  }

  lemma RipeningTrail(m: WorldMap, s: Moment, tick: real, s': Moment) returns (ids: seq<nat>, trail: seq<Moment>)
    requires Ripened(m, s, tick, s')
    ensures CountDowns(m, ids, trail, tick) && InOrder(ids, s.pending.Keys) && trail[0] == s && trail[|ids|] == s'
  {
    hide CountedDown, InOrder;
    ids, trail :| CountDowns(m, ids, trail, tick) && InOrder(ids, s.pending.Keys)
                  && trail[0] == s && trail[|ids|] == s';
  }

  lemma RoamingTrail(m: WorldMap, s: Moment, tick: real, cooldown: real, fatal: nat -> bool, s': Moment)
    returns (ids: seq<nat>, trail: seq<Grid>)
    requires Roamed(m, s, tick, cooldown, fatal, s')
    ensures TookTurns(m, s.pending, ids, trail, tick, cooldown, fatal) && InOrder(ids, s.grid.npcs.Keys)
    ensures trail[0] == s.grid && s' == s.(grid := trail[|ids|])
  {
    hide TookTurn, InOrder;
    ids, trail :| TookTurns(m, s.pending, ids, trail, tick, cooldown, fatal) && InOrder(ids, s.grid.npcs.Keys)
                  && trail[0] == s.grid && s' == s.(grid := trail[|ids|]);
  }

  /** With no NPC and one player waiting, it is that player's wait. */
  lemma TickOfWait(m: WorldMap, limit: nat, s: Moment, tick: real, cooldown: real, fatal: nat -> bool, s': Moment,
                   id: nat)
    requires Happened(m, limit, s, Tick(tick, cooldown, fatal), s')
    requires s.grid.npcs == map[] && s.pending.Keys == {id}
    ensures CountedDown(m, s, id, s', tick)
  {
    hide Roamed, Ripened, InOrder;
    var t :| Ripened(m, s, tick, t) && Roamed(m, t, tick, cooldown, fatal, s');
    var ids, trail := RipeningTrail(m, s, tick, t);
    Ordered(ids, {id});
    assert ids[0] in ids;
    assert CountedDown(m, trail[0], ids[0], trail[1], tick);
    NobodyRoams(m, t, tick, cooldown, fatal, s');
  }

  lemma {:induction false} InOrderSize(ids: seq<nat>, all: set<nat>)
    requires InOrder(ids, all)
    ensures |ids| == |all|
  {
    if ids == [] {
      assert all == {};
    } else {
      var n := |ids| - 1;
      assert ids[n] in ids && forall k | 0 <= k < n :: ids[k] in ids;
      assert ids == ids[..n] + [ids[n]];
      InOrderSize(ids[..n], all - {ids[n]});
    }
  }

  lemma Ordered(ids: seq<nat>, all: set<nat>)
    requires InOrder(ids, all)
    ensures |ids| == |all| && forall j :: j in ids <==> j in all
    ensures forall k, l | 0 <= k < l < |ids| :: ids[k] < ids[l]
  {
    InOrderSize(ids, all);
  }

  // ---- Runs ----

  /** One player's walk: nobody else's doing, and neither the priests' nor the NPCs'. */
  ghost predicate OnFoot(s: Moment, id: nat) {
    id in s.grid.players && id !in s.pending && id !in s.grid.npcs
  }

  ghost predicate OnFootUpTo(trail: seq<Moment>, id: nat, n: nat)
    requires n < |trail|
  {
    forall k | 0 <= k <= n ::
      id in trail[k].grid.players && id !in trail[k].pending && id !in trail[k].grid.npcs
  }

  ghost predicate StandsIn(g: Grid, id: nat, p: Position) {
    id in g.players && id !in g.npcs && g.players[id].pos == p
  }

  lemma TurnLeavesStanding(m: WorldMap, pending: map<nat, Pending>, g: Grid, npc: nat, g': Grid, tick: real,
                           cooldown: real, fatal: bool, id: nat, p: Position)
    requires TookTurn(m, pending, g, npc, g', tick, cooldown, fatal) && StandsIn(g, id, p)
    ensures StandsIn(g', id, p)
  {
    hide InReach, Adjacent, Grid.Chased;
    forall rested: Grid, goal | rested.players == g.players && rested.npcs.Keys == g.npcs.Keys
      ensures StandsIn(rested.Chased(m, pending, npc, goal), id, p)
    {
      ChaseLeavesStanding(m, pending, rested, npc, goal, id, p);
    }
  }

  lemma ChaseLeavesStanding(m: WorldMap, pending: map<nat, Pending>, g: Grid, npc: nat, goal: Position, id: nat,
                            p: Position)
    requires npc in g.npcs && StandsIn(g, id, p)
    ensures StandsIn(g.Chased(m, pending, npc, goal), id, p)
  {
    hide Grid.CanMove, ChaseDirection, Destination;
  }

  lemma CountDownLeavesStanding(m: WorldMap, s: Moment, waiting: nat, s': Moment, tick: real, id: nat, p: Position)
    requires CountedDown(m, s, waiting, s', tick) && StandsIn(s.grid, id, p) && id !in s.pending
    ensures StandsIn(s'.grid, id, p) && id !in s'.pending
  {
    hide NearestVacant, Grid.Vacant;
  }

  lemma {:induction false} CountDownsLeaveStanding(m: WorldMap, ids: seq<nat>, trail: seq<Moment>, tick: real, id: nat,
                                                   p: Position, n: nat)
    requires |trail| == |ids| + 1 && n <= |ids| && CountDowns(m, ids, trail, tick)
    requires StandsIn(trail[0].grid, id, p) && id !in trail[0].pending
    ensures StandsIn(trail[n].grid, id, p) && id !in trail[n].pending
    decreases n
  {
    hide CountDowns, CountedDown, StandsIn;
    if n > 0 {
      CountDownsLeaveStanding(m, ids, trail, tick, id, p, n - 1);
      CountDownAt(m, ids, trail, tick, n - 1);
      CountDownLeavesStanding(m, trail[n - 1], ids[n - 1], trail[n], tick, id, p);
    }
  }

  lemma TurnAt(m: WorldMap, pending: map<nat, Pending>, ids: seq<nat>, trail: seq<Grid>, tick: real, cooldown: real,
               fatal: nat -> bool, k: nat)
    requires TookTurns(m, pending, ids, trail, tick, cooldown, fatal) && k < |ids|
    ensures |trail| == |ids| + 1
    ensures TookTurn(m, pending, trail[k], ids[k], trail[k + 1], tick, cooldown, fatal(ids[k]))
  {
  }

  lemma {:induction false} TurnsLeaveStanding(m: WorldMap, pending: map<nat, Pending>, ids: seq<nat>, trail: seq<Grid>,
                                              tick: real, cooldown: real, fatal: nat -> bool, id: nat, p: Position,
                                              n: nat)
    requires |trail| == |ids| + 1 && n <= |ids| && TookTurns(m, pending, ids, trail, tick, cooldown, fatal)
    requires StandsIn(trail[0], id, p)
    ensures StandsIn(trail[n], id, p)
    decreases n
  {
    hide TookTurns, TookTurn, StandsIn;
    if n > 0 {
      TurnsLeaveStanding(m, pending, ids, trail, tick, cooldown, fatal, id, p, n - 1);
      TurnAt(m, pending, ids, trail, tick, cooldown, fatal, n - 1);
      TurnLeavesStanding(m, pending, trail[n - 1], ids[n - 1], trail[n], tick, cooldown, fatal(ids[n - 1]), id, p);
    }
  }

  lemma TickLeavesStanding(m: WorldMap, s: Moment, tick: real, cooldown: real, fatal: nat -> bool, s': Moment, id: nat,
                           p: Position)
    requires Ticked(m, s, tick, cooldown, fatal, s') && StandsIn(s.grid, id, p) && id !in s.pending
    ensures StandsIn(s'.grid, id, p)
  {
    hide Ripened, Roamed, CountDowns, TookTurns, StandsIn, InOrder;
    var t :| Ripened(m, s, tick, t) && Roamed(m, t, tick, cooldown, fatal, s');
    var waited, steps := RipeningTrail(m, s, tick, t);
    CountDownsLength(m, waited, steps, tick);
    CountDownsLeaveStanding(m, waited, steps, tick, id, p, |waited|);
    var ids, trail := RoamingTrail(m, t, tick, cooldown, fatal, s');
    TurnsLength(m, t.pending, ids, trail, tick, cooldown, fatal);
    TurnsLeaveStanding(m, t.pending, ids, trail, tick, cooldown, fatal, id, p, |ids|);
  }

  lemma CountDownsLength(m: WorldMap, ids: seq<nat>, trail: seq<Moment>, tick: real)
    requires CountDowns(m, ids, trail, tick)
    ensures |trail| == |ids| + 1
  {
  }

  lemma TurnsLength(m: WorldMap, pending: map<nat, Pending>, ids: seq<nat>, trail: seq<Grid>, tick: real,
                    cooldown: real, fatal: nat -> bool)
    requires TookTurns(m, pending, ids, trail, tick, cooldown, fatal)
    ensures |trail| == |ids| + 1
  {
  }

  /** What does not walk a player leaves that player where it is. */
  lemma StandsUnlessWalked(m: WorldMap, limit: nat, s: Moment, e: Event, s': Moment, id: nat)
    requires Happened(m, limit, s, e, s') && OnFoot(s, id) && id in s'.grid.players && !(e.Walk? && e.id == id)
    ensures s'.grid.players[id].pos == s.grid.players[id].pos
  {
    hide SpawnsAt, NeverScanned, GoodDraw, LiveHostiles, NearestPriest, Ticked, Destination, Grid.CanMove;
    if e.Tick? {
      TickLeavesStanding(m, s, e.tick, e.cooldown, e.fatal, s', id, s.grid.players[id].pos);
    }
  }

  /** How often this player got a step further this way. */
  ghost function Strides(events: seq<Event>, trail: seq<Moment>, id: nat, d: Direction, n: nat): nat
    requires n <= |events| && |trail| == |events| + 1 && OnFootUpTo(trail, id, n)
  {
    if n == 0 then 0
    else
      var taken := events[n - 1] == Walk(id, d)
                   && trail[n].grid.players[id].pos != trail[n - 1].grid.players[id].pos;
      Strides(events, trail, id, d, n - 1) + if taken then 1 else 0
  }

  /**
   * Dead reckoning: over any run in which a player stays in the world and never waits for a resurrection, whatever else
   * happens, the player ends up as far right as the steps to the right exceed those to the left, and as far down as the
   * steps down exceed those up.
   */
  lemma {:induction false} DeadReckoning(m: WorldMap, limit: nat, events: seq<Event>, trail: seq<Moment>, id: nat,
                                         n: nat)
    requires |trail| == |events| + 1 && Unfolds(m, limit, events, trail)
    requires n <= |events| && OnFootUpTo(trail, id, n)
    ensures var from, to := trail[0].grid.players[id].pos, trail[n].grid.players[id].pos;
            && to.x - from.x == Strides(events, trail, id, RIGHT, n) - Strides(events, trail, id, LEFT, n)
            && to.y - from.y == Strides(events, trail, id, DOWN, n) - Strides(events, trail, id, UP, n)
    decreases n
  {
    hide Unfolds, Happened;
    if n > 0 {
      DeadReckoning(m, limit, events, trail, id, n - 1);
      EventAt(m, limit, events, trail, n - 1);
      StrideTaken(m, limit, trail[n - 1], events[n - 1], trail[n], id);
    }
  }

  lemma EventAt(m: WorldMap, limit: nat, events: seq<Event>, trail: seq<Moment>, k: nat)
    requires Unfolds(m, limit, events, trail) && k < |events|
    ensures |trail| == |events| + 1 && Happened(m, limit, trail[k], events[k], trail[k + 1])
  {
  }

  lemma StrideTaken(m: WorldMap, limit: nat, s: Moment, e: Event, s': Moment, id: nat)
    requires Happened(m, limit, s, e, s') && OnFoot(s, id) && OnFoot(s', id)
    ensures var from, to := s.grid.players[id].pos, s'.grid.players[id].pos;
            && to.x - from.x == (if e == Walk(id, RIGHT) && to != from then 1 else 0)
                                - (if e == Walk(id, LEFT) && to != from then 1 else 0)
            && to.y - from.y == (if e == Walk(id, DOWN) && to != from then 1 else 0)
                                - (if e == Walk(id, UP) && to != from then 1 else 0)
  {
    if e.Walk? && e.id == id {
      var c := s.grid.players[id];
      WalkSteps(m, limit, s, id, e.dir, s', c, c.pos.x, c.pos.y);
    } else {
      StandsUnlessWalked(m, limit, s, e, s', id);
    }
  }

  // ---- A new world ----

  /** Each city's priest, merchant and banker, city by city, each on their own cell. */
  lemma {:induction false} PostsInOrder(cities: seq<City>, k: nat)
    requires k < |cities|
    ensures |Posts(cities)| == 3 * |cities|
    ensures Posts(cities)[3 * k] == Character(cities[k].priest, false, DOWN, false, CityFolk(PRIEST))
    ensures Posts(cities)[3 * k + 1] == Character(cities[k].merchant, false, DOWN, false, CityFolk(MERCHANT))
    ensures Posts(cities)[3 * k + 2] == Character(cities[k].banker, false, DOWN, false, CityFolk(BANKER))
  {
    var n := |cities| - 1;
    if n == 0 {
      assert Posts(cities[..n]) == [];
    } else {
      PostsInOrder(cities[..n], if k < n then k else 0);
    }
  }
}
