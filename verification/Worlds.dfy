/** The world grid: who stands where, and the occupancy matrix that has to agree with it. */
module Worlds {
  import opened Prelude
  import opened Placement

  datatype Direction = UP | DOWN | LEFT | RIGHT

  datatype Job = PRIEST | MERCHANT | BANKER

  datatype Role = Hero | CityFolk(job: Job) | Hostile(zones: seq<ZoneType>, range: nat, timer: real)

  datatype Character = Character(pos: Position, dead: bool, direction: Direction, moving: bool, role: Role)
  {
    predicate CanEnter(m: WorldMap, p: Position) {
      && (m.IsSafe(p) ==> role.Hero?)
      && (role.Hostile? ==> m.ZoneTypeAt(p) in role.zones)
    }

    function Struck(fatal: bool): Character {
      this.(dead := dead || fatal)
    }

    predicate LiveHostile() {
      role.Hostile? && !dead
    }
  }

  /** The same NPC, up to its attack timer. */
  predicate SameKind(r: Role, s: Role) {
    r == s || (r.Hostile? && s.Hostile? && r.zones == s.zones && r.range == s.range)
  }

  datatype Pending = Pending(timer: real, destination: Position)

  datatype Template = Template(zones: seq<ZoneType>, range: nat)

  datatype AddError = DUPLICATE_ID | INVALID_POSITION | BLOCKED | OCCUPIED

  datatype ResurrectStatus = RESURRECTING | NOT_DEAD | ALREADY_RESURRECTING

  datatype Action = STILL | ATTACK(target: nat) | CHASE(goal: Position)

  /** What can happen to a world: players' commands, and the parts of a server tick. */
  datatype Event =
    | Join(id: nat, base: Position)
    | Restore(id: nat, pos: Position)
    | Leave(id: nat)
    | Walk(id: nat, dir: Direction)
    | Hit(id: nat, deadly: bool)
    | AskPriest(id: nat)
    | AskResurrection(id: nat, wait: real)
    | Tick(tick: real, cooldown: real, fatal: nat -> bool)
    | Populate(templates: seq<Template>, pick: nat, draw: nat -> Position)

  const MAX_ATTEMPTS := 50

  function Destination(p: Position, d: Direction): Position {
    match d
    case UP => Position(p.x, p.y - 1)
    case DOWN => Position(p.x, p.y + 1)
    case LEFT => Position(p.x - 1, p.y)
    case RIGHT => Position(p.x + 1, p.y)
  }

  /** The cells the entries of a table stand on. */
  ghost function Cells(t: map<nat, Character>): set<Position> {
    set id | id in t :: t[id].pos
  }

  ghost predicate Apart(t: map<nat, Character>) {
    forall i, j | i in t && j in t && i != j :: t[i].pos != t[j].pos
  }

  /** No two entries, of either table, share a cell, and every entry stands on open ground. */
  ghost predicate Placed(m: WorldMap, players: map<nat, Character>, npcs: map<nat, Character>) {
    && Apart(players)
    && Apart(npcs)
    && Cells(players) !! Cells(npcs)
    && (forall p | p in Cells(players) + Cells(npcs) :: !m.IsBlocked(p))
  }

  lemma PlacedApart(m: WorldMap, players: map<nat, Character>, npcs: map<nat, Character>)
    requires Placed(m, players, npcs)
    ensures Apart(players) && Apart(npcs)
  {
  }

  lemma Standing(t: map<nat, Character>, id: nat)
    requires id in t
    ensures t[id].pos in Cells(t)
  {
  }

  lemma CellsAfterAdd(t: map<nat, Character>, id: nat, c: Character)
    requires Apart(t) && id !in t && c.pos !in Cells(t)
    ensures Apart(t[id := c]) && Cells(t[id := c]) == Cells(t) + {c.pos}
  {
    var u := t[id := c];
    forall i | i in t ensures t[i].pos in Cells(t) && u[i] == t[i] {}
    assert u[id] == c;
  }

  lemma CellsAfterRemove(t: map<nat, Character>, id: nat)
    requires Apart(t) && id in t
    ensures Apart(t - {id}) && Cells(t - {id}) == Cells(t) - {t[id].pos}
  {
    var u := t - {id};
    forall i | i in u ensures u[i] == t[i] && u[i].pos in Cells(u) {}
  }

  lemma CellsAfterMove(t: map<nat, Character>, id: nat, c: Character)
    requires Apart(t) && id in t && c.pos !in Cells(t)
    ensures Apart(t[id := c]) && Cells(t[id := c]) == Cells(t) - {t[id].pos} + {c.pos}
  {
    CellsAfterRemove(t, id);
    CellsAfterAdd(t - {id}, id, c);
    assert (t - {id})[id := c] == t[id := c];
  }

  /** Roles fit the table an entry is in, and hostile NPCs keep to unsafe ground of their own zones. */
  ghost predicate Confined(m: WorldMap, players: map<nat, Character>, npcs: map<nat, Character>) {
    && (forall id | id in players :: players[id].role.Hero?)
    && (forall id | id in npcs :: !npcs[id].role.Hero?)
    && (forall id | id in npcs && npcs[id].role.Hostile? :: npcs[id].CanEnter(m, npcs[id].pos))
  }

  function LiveHostiles(npcs: map<nat, Character>): set<nat> {
    set id | id in npcs && npcs[id].LiveHostile()
  }

  lemma HostilesAfterAdd(t: map<nat, Character>, id: nat, c: Character)
    requires id !in t
    ensures |LiveHostiles(t[id := c])| == |LiveHostiles(t)| + if c.LiveHostile() then 1 else 0
  {
    assert LiveHostiles(t[id := c]) == if c.LiveHostile() then LiveHostiles(t) + {id} else LiveHostiles(t);
  }

  function SquaredDistance(p: Position, q: Position): int {
    (p.x - q.x) * (p.x - q.x) + (p.y - q.y) * (p.y - q.y)
  }

  function Adjacent(p: Position, q: Position): bool {
    Abs(p.x - q.x) <= 1 && Abs(p.y - q.y) <= 1
  }

  /** The priest of this city is nearest, and nearer than those of the cities loaded before. */
  ghost predicate NearestPriest(m: WorldMap, pos: Position, k: nat) {
    && k < |m.cities|
    && (forall j | 0 <= j < |m.cities| ::
          SquaredDistance(m.cities[k].priest, pos) <= SquaredDistance(m.cities[j].priest, pos))
    && (forall j | 0 <= j < k ::
          SquaredDistance(m.cities[k].priest, pos) < SquaredDistance(m.cities[j].priest, pos))
  }

  /** The city whose priest is nearest; the first such city in loading order. */
  method ClosestCity(m: WorldMap, pos: Position) returns (closest: Option<City>)
    ensures closest.None? <==> m.cities == []
    ensures closest.Some? ==> exists k: nat :: NearestPriest(m, pos, k) && m.cities[k] == closest.value
  {
    closest := None;
    var least := -1;
    ghost var k: nat := 0;
    for i := 0 to |m.cities|
      invariant closest.None? <==> i == 0
      invariant closest.Some? ==> 0 <= k < i && m.cities[k] == closest.value
      invariant closest.Some? ==> least == SquaredDistance(closest.value.priest, pos)
      invariant closest.Some? ==> forall j | 0 <= j < i :: least <= SquaredDistance(m.cities[j].priest, pos)
      invariant closest.Some? ==> forall j | 0 <= j < k :: least < SquaredDistance(m.cities[j].priest, pos)
    {
      var d := SquaredDistance(m.cities[i].priest, pos);
      if closest.None? || d < least {
        closest, least, k := Some(m.cities[i]), d, i;
      }
    }
    assert closest.Some? ==> NearestPriest(m, pos, k);
  }

  ghost predicate AtMostOneStep(p: Position, q: Position) {
    q == p || exists d :: q == Destination(p, d)
  }

  /** The axis with the larger gap is closed first. */
  function ChaseDirection(p: Position, goal: Position): Direction {
    var dx, dy := goal.x - p.x, goal.y - p.y;
    if Abs(dx) >= Abs(dy) then (if dx > 0 then RIGHT else LEFT) else (if dy > 0 then DOWN else UP)
  }

  /** How many steps a chaser still needs before it is adjacent. */
  function Gap(p: Position, goal: Position): nat {
    (if Abs(goal.x - p.x) > 1 then Abs(goal.x - p.x) - 1 else 0)
    + (if Abs(goal.y - p.y) > 1 then Abs(goal.y - p.y) - 1 else 0)
  }

  lemma ChaseClosesGap(p: Position, goal: Position)
    ensures Adjacent(p, goal) <==> Gap(p, goal) == 0
    ensures !Adjacent(p, goal) ==> Gap(Destination(p, ChaseDirection(p, goal)), goal) == Gap(p, goal) - 1
  {
  }

  function ChaseAfter(p: Position, goal: Position, steps: nat): Position
    decreases steps
  {
    if steps == 0 then p else ChaseAfter(Destination(p, ChaseDirection(p, goal)), goal, steps - 1)
  }

  /** Unhindered, a chaser is first adjacent to a target that stays put after exactly Gap steps. */
  lemma {:induction false} ChaseReachesTarget(p: Position, goal: Position, steps: nat)
    requires steps <= Gap(p, goal)
    ensures Gap(ChaseAfter(p, goal, steps), goal) == Gap(p, goal) - steps
    ensures Adjacent(ChaseAfter(p, goal, steps), goal) <==> steps == Gap(p, goal)
    decreases steps
  {
    ChaseClosesGap(p, goal);
    if steps > 0 {
      ChaseReachesTarget(Destination(p, ChaseDirection(p, goal)), goal, steps - 1);
    }
  }

  /** A living character within the circle of this radius. */
  predicate InReach(c: Character, center: Position, range: nat) {
    !c.dead && SquaredDistance(c.pos, center) <= range * range
  }

  /** The player a hostile NPC goes for: nearest, and on a tie the one with the smallest id. */
  ghost predicate Prey(players: map<nat, Character>, center: Position, range: nat, id: nat) {
    && id in players && InReach(players[id], center, range)
    && (forall j | j in players && InReach(players[j], center, range) ::
          && SquaredDistance(players[id].pos, center) <= SquaredDistance(players[j].pos, center)
          && (SquaredDistance(players[id].pos, center) == SquaredDistance(players[j].pos, center) ==> id <= j))
  }

  method FindPrey(players: map<nat, Character>, center: Position, range: nat) returns (prey: Option<nat>)
    ensures prey.None? <==> forall j | j in players :: !InReach(players[j], center, range)
    ensures prey.Some? ==> Prey(players, center, range, prey.value)
  {
    var nearby := map id | id in players && InReach(players[id], center, range)
                    :: SquaredDistance(players[id].pos, center);
    prey := FirstLeast(nearby, range * range + 1);
    forall j | j in players && InReach(players[j], center, range)
      ensures j in nearby && nearby[j] == SquaredDistance(players[j].pos, center)
    {
    }
  }

  /** A running minimum over a table: only a strictly smaller value replaces the one in hand. */
  method FirstLeast(value: map<nat, int>, bound: int) returns (first: Option<nat>)
    requires forall j | j in value :: value[j] < bound
    ensures first.None? <==> value == map[]
    ensures first.Some? ==>
              && first.value in value
              && forall j | j in value ::
                   && value[first.value] <= value[j]
                   && (value[first.value] == value[j] ==> first.value <= j)
  {
    var left, least := value.Keys, bound;
    first := None;
    while left != {}
      invariant left <= value.Keys
      invariant first.None? ==> left == value.Keys && least == bound
      invariant first.Some? ==> first.value in value && first.value !in left && least == value[first.value]
      invariant first.Some? ==>
                  forall j | j in value && j !in left :: least <= value[j] && (least == value[j] ==> first.value <= j)
      invariant forall i, j | i in value && i !in left && j in left :: i < j
      decreases left
    {
      var id;
      id, left := Next(value.Keys, left);
      if value[id] < least {
        first, least := Some(id), value[id];
      }
    }
  }

  /** The cells of the base row left of the base column: no spawn search ever looks at them. */
  predicate NeverScanned(base: Position, p: Position) {
    p.y == base.y && p.x < base.x
  }

  /** Row by row from base to the bottom, then row by row from the top. */
  ghost predicate ScannedNoLater(base: Position, p: Position, q: Position) {
    if base.y <= p.y && q.y < base.y then true
    else if p.y < base.y && base.y <= q.y then false
    else p.y < q.y || (p.y == q.y && p.x <= q.x)
  }

  predicate Due(pending: map<nat, Pending>, id: nat, tick: real) {
    id in pending && pending[id].timer <= tick
  }

  /** The timers once the entries in done have been counted down: the due ones are gone. */
  ghost predicate TimersAfter(before: map<nat, Pending>, now: map<nat, Pending>, done: set<nat>, tick: real) {
    && (forall id :: id in now <==> id in before && !(id in done && Due(before, id, tick)))
    && (forall id | id in now ::
          now[id] == if id in done then before[id].(timer := before[id].timer - tick) else before[id])
  }

  /** A resurrection that is due moves the player near the priest and revives it, if there is room at all. */
  ghost predicate Carried(m: WorldMap, before: Character, now: Character, dest: Position, possible: bool) {
    if possible && m.IsValid(dest) then now == before.(pos := now.pos, dead := false) else now == before
  }

  ghost predicate PlayersAfter(m: WorldMap, before: map<nat, Character>, now: map<nat, Character>,
                               pending: map<nat, Pending>, done: set<nat>, tick: real, room: bool)
  {
    && now.Keys == before.Keys
    && (forall id | id in before ::
          if id in done && id in pending
          then Carried(m, before[id], now[id], pending[id].destination, Due(pending, id, tick) && room)
          else now[id] == before[id])
  }

  lemma TimersStep(before: map<nat, Pending>, now: map<nat, Pending>, done: set<nat>, id: nat, tick: real)
    requires TimersAfter(before, now, done, tick) && id in before && id !in done
    ensures id in now && now[id] == before[id]
    ensures TimersAfter(
              before,
              if Due(before, id, tick) then now - {id} else now[id := before[id].(timer := before[id].timer - tick)],
              done + {id}, tick)
  {
  }

  lemma PlayersStep(m: WorldMap, before: map<nat, Character>, now: map<nat, Character>, now': map<nat, Character>,
                    pending: map<nat, Pending>, done: set<nat>, id: nat, tick: real, room: bool)
    requires PlayersAfter(m, before, now, pending, done, tick, room)
    requires id in pending && id in before && id !in done && now'.Keys == now.Keys
    requires forall j | j in now' && j != id :: now'[j] == now[j]
    requires Carried(m, now[id], now'[id], pending[id].destination, Due(pending, id, tick) && room)
    ensures PlayersAfter(m, before, now', pending, done + {id}, tick, room)
  {
  }

  /** Everybody in a world, as a value. */
  datatype Grid = Grid(players: map<nat, Character>, npcs: map<nat, Character>)
  {
    /** The cells of open ground that nobody stands on. */
    ghost function Vacant(m: WorldMap): set<Position> {
      m.Cells() - m.walls - Cells(players) - Cells(npcs)
    }

    /** The character an id names; a player hides an NPC with the same id. */
    function Lookup(id: nat): Option<Character> {
      if id in players then Some(players[id]) else if id in npcs then Some(npcs[id]) else None
    }

    ghost predicate CanMove(m: WorldMap, pending: map<nat, Pending>, id: nat, d: Direction) {
      && Lookup(id).Some?
      && id !in pending
      && Destination(Lookup(id).value.pos, d) in Vacant(m)
      && Lookup(id).value.CanEnter(m, Destination(Lookup(id).value.pos, d))
    }

    /** Whoever the id names is now this. */
    ghost function With(id: nat, c: Character): Grid {
      if id in players then this.(players := players[id := c]) else this.(npcs := npcs[id := c])
    }

    /** Whoever the id names, one cell further. */
    ghost function Stepped(id: nat, d: Direction): Grid
      requires Lookup(id).Some?
    {
      var c := Lookup(id).value;
      With(id, c.(pos := Destination(c.pos, d), direction := d, moving := true))
    }

    ghost function WithNpc(id: nat, c: Character): Grid {
      this.(npcs := npcs[id := c])
    }

    /** After an NPC turned to its goal and whoever its id names stepped that way, or could not. */
    ghost function Chased(m: WorldMap, pending: map<nat, Pending>, id: nat, goal: Position): Grid
      requires id in npcs
    {
      var d := ChaseDirection(npcs[id].pos, goal);
      var turned := WithNpc(id, npcs[id].(direction := d));
      if turned.CanMove(m, pending, id, d) then
        var on := turned.Stepped(id, d);
        on.WithNpc(id, on.npcs[id].(moving := true))
      else turned
    }
  }

  /** What a hostile NPC's turn comes to: waiting, a blow or a step. */
  ghost predicate Acted(m: WorldMap, pending: map<nat, Pending>, g: Grid, id: nat, g': Grid, tick: real, cooldown: real,
                        fatal: bool)
    requires id in g.npcs && g.npcs[id].role.Hostile?
  {
    var c := g.npcs[id];
    var timer := c.role.timer + tick;
    var rested := g.WithNpc(id, c.(role := c.role.(timer := 0.0)));
    if timer < cooldown || forall j | j in g.players :: !InReach(g.players[j], c.pos, c.role.range)
    then g' == g.WithNpc(id, c.(role := c.role.(timer := timer)))
    else exists j :: Prey(g.players, c.pos, c.role.range, j) &&
           if Adjacent(c.pos, g.players[j].pos)
           then g' == rested.(players := g.players[j := g.players[j].Struck(fatal)])
           else g' == rested.Chased(m, pending, id, g.players[j].pos)
  }

  /** One NPC's turn: the dead are removed, the hostile act, the others stand still. */
  ghost predicate TookTurn(m: WorldMap, pending: map<nat, Pending>, g: Grid, id: nat, g': Grid, tick: real,
                           cooldown: real, fatal: bool)
  {
    && id in g.npcs
    && var c := g.npcs[id].(moving := false);
       if c.dead then g' == g.(npcs := g.npcs - {id})
       else if !c.role.Hostile? then g' == g.WithNpc(id, c)
       else Acted(m, pending, g.WithNpc(id, c), id, g', tick, cooldown, fatal)
  }

  /** These NPCs took their turns one after another: trail is who stood where before, in between and after. */
  ghost predicate TookTurns(m: WorldMap, pending: map<nat, Pending>, ids: seq<nat>, trail: seq<Grid>, tick: real,
                            cooldown: real, fatal: nat -> bool)
  {
    && |trail| == |ids| + 1
    && forall i | 0 <= i < |ids| :: TookTurn(m, pending, trail[i], ids[i], trail[i + 1], tick, cooldown, fatal(ids[i]))
  }

  lemma TookTurnsNext(m: WorldMap, pending: map<nat, Pending>, ids: seq<nat>, trail: seq<Grid>, tick: real,
                      cooldown: real, fatal: nat -> bool, id: nat, g: Grid)
    requires TookTurns(m, pending, ids, trail, tick, cooldown, fatal)
    requires TookTurn(m, pending, trail[|ids|], id, g, tick, cooldown, fatal(id))
    ensures TookTurns(m, pending, ids + [id], trail + [g], tick, cooldown, fatal)
  {
    hide TookTurn;
  }

  /** All of these, each once, in ascending order. */
  ghost predicate InOrder(ids: seq<nat>, all: set<nat>) {
    (forall id :: id in ids <==> id in all) && forall i, j | 0 <= i < j < |ids| :: ids[i] < ids[j]
  }

  lemma InOrderNext(ids: seq<nat>, all: set<nat>, id: nat)
    requires InOrder(ids, all) && forall i | i in all :: i < id
    ensures InOrder(ids + [id], all + {id})
  {
    assert forall i | 0 <= i < |ids| :: ids[i] in ids;
  }

  // ---- What each event comes to ----

  /** A world as a value: who stands where, who waits for a resurrection, and the next id for an NPC. */
  datatype Moment = Moment(grid: Grid, pending: map<nat, Pending>, nextNpcId: nat)

  /** The cell a search from base comes to first. */
  ghost predicate SpawnsAt(m: WorldMap, g: Grid, base: Position, p: Position) {
    && p in g.Vacant(m) && !NeverScanned(base, p)
    && forall q | q in g.Vacant(m) && !NeverScanned(base, q) :: ScannedNoLater(base, p, q)
  }

  ghost predicate Joined(m: WorldMap, s: Moment, id: nat, base: Position, s': Moment) {
    if id in s.grid.players || forall p | p in s.grid.Vacant(m) :: NeverScanned(base, p) then s' == s
    else exists p :: SpawnsAt(m, s.grid, base, p)
                     && s' == s.(grid := Grid(s.grid.players[id := Newcomer(p)], s.grid.npcs))
  }

  function Newcomer(p: Position): Character {
    Character(p, false, DOWN, false, Hero)
  }

  ghost predicate Entered(m: WorldMap, s: Moment, id: nat, hero: Character, s': Moment) {
    s' == if id in s.grid.players || hero.pos !in s.grid.Vacant(m) then s
          else s.(grid := Grid(s.grid.players[id := hero], s.grid.npcs))
  }

  ghost predicate Left(s: Moment, id: nat, s': Moment) {
    s' == s.(grid := s.grid.(players := s.grid.players - {id}), pending := s.pending - {id})
  }

  ghost predicate Walked(m: WorldMap, s: Moment, id: nat, d: Direction, s': Moment) {
    s' == if s.grid.CanMove(m, s.pending, id, d) then s.(grid := s.grid.Stepped(id, d)) else s
  }

  ghost predicate Stricken(s: Moment, id: nat, deadly: bool, s': Moment) {
    var who := s.grid.Lookup(id);
    s' == if who.Some? then s.(grid := s.grid.With(id, who.value.Struck(deadly))) else s
  }

  ghost predicate Revived(s: Moment, id: nat, s': Moment) {
    s' == if id in s.grid.players then s.(grid := s.grid.With(id, s.grid.players[id].(dead := false))) else s
  }

  ghost predicate Waits(m: WorldMap, s: Moment, id: nat, wait: real, s': Moment) {
    if id in s.grid.players && s.grid.players[id].dead && id !in s.pending && m.cities != []
    then exists k: nat :: NearestPriest(m, s.grid.players[id].pos, k)
                     && s' == s.(pending := s.pending[id := Pending(wait, m.cities[k].priest)])
    else s' == s
  }

  ghost predicate NearestVacant(m: WorldMap, g: Grid, dest: Position, p: Position) {
    p in g.Vacant(m) && forall q | q in g.Vacant(m) :: Distance(dest, p) <= Distance(dest, q)
  }

  /** One pending resurrection, one tick later. */
  ghost predicate CountedDown(m: WorldMap, s: Moment, id: nat, s': Moment, tick: real) {
    && id in s.pending && id in s.grid.players
    && var wait := s.pending[id];
       if wait.timer > tick then s' == s.(pending := s.pending[id := wait.(timer := wait.timer - tick)])
       else if !m.IsValid(wait.destination) || s.grid.Vacant(m) == {} then s' == s.(pending := s.pending - {id})
       else exists p :: NearestVacant(m, s.grid, wait.destination, p)
                        && s' == s.(grid := s.grid.With(id, s.grid.players[id].(pos := p, dead := false)),
                                    pending := s.pending - {id})
  }

  ghost predicate CountDowns(m: WorldMap, ids: seq<nat>, trail: seq<Moment>, tick: real) {
    && |trail| == |ids| + 1
    && forall i | 0 <= i < |ids| :: CountedDown(m, trail[i], ids[i], trail[i + 1], tick)
  }

  lemma CountDownsNext(m: WorldMap, ids: seq<nat>, trail: seq<Moment>, tick: real, id: nat, s: Moment)
    requires CountDowns(m, ids, trail, tick) && CountedDown(m, trail[|ids|], id, s, tick)
    ensures CountDowns(m, ids + [id], trail + [s], tick)
  {
    hide CountedDown;
  }

  /** First every pending resurrection, in order of id. */
  ghost predicate Ripened(m: WorldMap, s: Moment, tick: real, s': Moment) {
    exists ids, trail :: CountDowns(m, ids, trail, tick) && InOrder(ids, s.pending.Keys)
                         && trail[0] == s && trail[|ids|] == s'
  }

  /** Then every NPC, in order of id. */
  ghost predicate Roamed(m: WorldMap, s: Moment, tick: real, cooldown: real, fatal: nat -> bool, s': Moment) {
    exists ids, trail :: TookTurns(m, s.pending, ids, trail, tick, cooldown, fatal) && InOrder(ids, s.grid.npcs.Keys)
                         && trail[0] == s.grid && s' == s.(grid := trail[|ids|])
  }

  ghost predicate Ticked(m: WorldMap, s: Moment, tick: real, cooldown: real, fatal: nat -> bool, s': Moment) {
    exists t :: Ripened(m, s, tick, t) && Roamed(m, t, tick, cooldown, fatal, s')
  }

  ghost predicate SpawnCell(m: WorldMap, g: Grid, zones: seq<ZoneType>, p: Position) {
    p in g.Vacant(m) && !m.IsSafe(p) && m.ZoneTypeAt(p) in zones
  }

  /** The first of the draws an NPC of these zones may appear on. */
  ghost predicate GoodDraw(m: WorldMap, g: Grid, zones: seq<ZoneType>, draw: nat -> Position, k: nat) {
    && k < MAX_ATTEMPTS && SpawnCell(m, g, zones, draw(k))
    && forall j: nat | j < k :: !SpawnCell(m, g, zones, draw(j))
  }

  /** One attempt to place a hostile NPC made from this template. */
  ghost predicate Populated(m: WorldMap, limit: nat, s: Moment, t: Template, draw: nat -> Position, s': Moment) {
    if |LiveHostiles(s.grid.npcs)| >= limit || forall k: nat :: !GoodDraw(m, s.grid, t.zones, draw, k) then s' == s
    else exists k: nat :: GoodDraw(m, s.grid, t.zones, draw, k)
                     && s' == Moment(s.grid.WithNpc(s.nextNpcId, FromTemplate(t, draw(k))), s.pending, s.nextNpcId + 1)
  }

  lemma GoodDrawIsFree(m: WorldMap, g: Grid, zones: seq<ZoneType>, draw: nat -> Position, k: nat)
    requires GoodDraw(m, g, zones, draw, k)
    ensures draw(k) in g.Vacant(m) && !m.IsSafe(draw(k)) && m.ZoneTypeAt(draw(k)) in zones
  {
  }

  function FromTemplate(t: Template, p: Position): Character {
    Character(p, false, DOWN, false, Hostile(t.zones, t.range, 0.0))
  }

  ghost predicate Happened(m: WorldMap, limit: nat, s: Moment, e: Event, s': Moment) {
    match e
    case Join(id, base) => Joined(m, s, id, base, s')
    case Restore(id, pos) => Entered(m, s, id, Newcomer(pos), s')
    case Leave(id) => Left(s, id, s')
    case Walk(id, d) => if id in s.grid.players then Walked(m, s, id, d, s') else s' == s
    case Hit(id, deadly) => Stricken(s, id, deadly, s')
    case AskPriest(id) => Revived(s, id, s')
    case AskResurrection(id, wait) => Waits(m, s, id, wait, s')
    case Tick(tick, cooldown, fatal) => Ticked(m, s, tick, cooldown, fatal, s')
    case Populate(templates, pick, draw) =>
      if templates == [] then s' == s else Populated(m, limit, s, templates[pick % |templates|], draw, s')
  }

  /** These events happened one after another: trail is the world before, in between and after. */
  ghost predicate Unfolds(m: WorldMap, limit: nat, events: seq<Event>, trail: seq<Moment>) {
    && |trail| == |events| + 1
    && forall k | 0 <= k < |events| :: Happened(m, limit, trail[k], events[k], trail[k + 1])
  }

  // ---- The city NPCs of a new world ----

  function Folk(pos: Position, job: Job): Character {
    Character(pos, false, DOWN, false, CityFolk(job))
  }

  /** The NPCs meant for these cities, in the order they are placed. */
  function Posts(cities: seq<City>): seq<Character> {
    if cities == [] then []
    else
      var c := cities[|cities| - 1];
      Posts(cities[..|cities| - 1]) + [Folk(c.priest, PRIEST), Folk(c.merchant, MERCHANT), Folk(c.banker, BANKER)]
  }

  lemma PostsNext(cities: seq<City>, k: nat)
    requires k < |cities|
    ensures Posts(cities[..k + 1])
            == Posts(cities[..k]) + [Folk(cities[k].priest, PRIEST)] + [Folk(cities[k].merchant, MERCHANT)]
               + [Folk(cities[k].banker, BANKER)]
  {
    assert cities[..k + 1][..k] == cities[..k];
  }

  ghost function PlacesOf(posts: seq<Character>): set<Position> {
    set c | c in posts :: c.pos
  }

  /** The table once these were placed, each wherever its cell was vacant, with ids from base on. */
  ghost function Settled(npcs: map<nat, Character>, base: nat, vacant: set<Position>, posts: seq<Character>)
    : map<nat, Character>
  {
    if posts == [] then npcs
    else
      var n := |posts| - 1;
      var before := Settled(npcs, base, vacant, posts[..n]);
      if posts[n].pos in vacant - PlacesOf(posts[..n]) then before[base + n := posts[n]] else before
  }

  lemma SettledNext(npcs: map<nat, Character>, base: nat, vacant: set<Position>, done: seq<Character>, c: Character)
    ensures var before := Settled(npcs, base, vacant, done);
            Settled(npcs, base, vacant, done + [c])
            == if c.pos in vacant - PlacesOf(done) then before[base + |done| := c] else before
    ensures PlacesOf(done + [c]) == PlacesOf(done) + {c.pos}
  {
    assert (done + [c])[..|done|] == done;
  }

  /** Of the NPCs meant for a cell, the first is there under its own id, if the cell was vacant at all. */
  lemma {:induction false} SettledWho(npcs: map<nat, Character>, base: nat, vacant: set<Position>,
                                      posts: seq<Character>)
    requires forall id | id in npcs :: id < base
    ensures var t := Settled(npcs, base, vacant, posts);
            && (forall id | id in npcs :: id in t && t[id] == npcs[id])
            && (forall id | id in t :: id in npcs || base <= id < base + |posts|)
            && forall i | 0 <= i < |posts| ::
                 && (base + i in t <==> posts[i].pos in vacant && forall j | 0 <= j < i :: posts[j].pos != posts[i].pos)
                 && (base + i in t ==> t[base + i] == posts[i])
  {
    if posts != [] {
      var n := |posts| - 1;
      SettledWho(npcs, base, vacant, posts[..n]);
    }
  }

  ghost predicate SamePlaces(before: map<nat, Character>, now: map<nat, Character>) {
    now.Keys == before.Keys && forall id | id in now :: now[id].pos == before[id].pos
  }

  ghost predicate StayDead(before: map<nat, Character>, now: map<nat, Character>) {
    forall id | id in now && id in before && before[id].dead :: now[id].dead
  }

  lemma SmallerSet<T>(a: set<T>, b: set<T>)
    requires a <= b
    ensures |a| <= |b|
  {
    if a != b {
      var x :| x in b && x !in a;
      SmallerSet(a, b - {x});
    }
  }

  class World {
    const terrain: WorldMap
    const populationLimit: nat
    var players: map<nat, Character>
    var npcs: map<nat, Character>
    var occupied: array2<bool>
    var pending: map<nat, Pending>
    var nextNpcId: nat

    ghost predicate Valid()
      reads this, occupied
    {
      && Indexed(Cells(players) + Cells(npcs))
      && Placed(terrain, players, npcs)
      && Confined(terrain, players, npcs)
      && |LiveHostiles(npcs)| <= populationLimit
      && (forall id | id in npcs :: id < nextNpcId)
      && pending.Keys <= players.Keys
    }

    /** The matrix marks exactly these cells. */
    ghost predicate Indexed(cells: set<Position>)
      reads this, occupied
    {
      && occupied.Length0 == terrain.height
      && occupied.Length1 == terrain.width
      && (forall x, y | 0 <= x < terrain.width && 0 <= y < terrain.height ::
            occupied[y, x] <==> Position(x, y) in cells)
    }

    /** The cells of open ground that nobody stands on. */
    ghost function Vacant(): set<Position>
      reads this
    {
      Everybody().Vacant(terrain)
    }

    function Everybody(): Grid
      reads this
    {
      Grid(players, npcs)
    }

    ghost function Now(): Moment
      reads this
    {
      Moment(Everybody(), pending, nextNpcId)
    }

    constructor (m: WorldMap, limit: nat)
      ensures Valid() && fresh(occupied)
      ensures terrain == m && populationLimit == limit
      ensures players == map[] && npcs == map[] && pending == map[] && nextNpcId == 1000
    {
      terrain, populationLimit := m, limit;
      players, npcs, pending, nextNpcId := map[], map[], map[], 1000;
      occupied := new bool[m.height, m.width]((y, x) => false);
      new;
      assert LiveHostiles(npcs) == {};
    }

    method IsOccupied(p: Position) returns (taken: bool)
      requires Valid() && terrain.IsValid(p)
      ensures taken <==> p in Cells(players) + Cells(npcs)
    {
      assert Position(p.x, p.y) == p;
      taken := occupied[p.y, p.x];
    }

    method AddPlayer(id: nat, hero: Character) returns (error: Option<AddError>)
      requires Valid() && hero.role.Hero?
      modifies this, occupied
      ensures Valid() && occupied == old(occupied)
      ensures error.None? <==> id !in old(players) && hero.pos in old(Vacant())
      ensures error.None? ==>
                && players == old(players)[id := hero] && npcs == old(npcs)
                && pending == old(pending) && nextNpcId == old(nextNpcId)
      ensures error.Some? ==> unchanged(this) && unchanged(occupied)
      ensures Entered(terrain, old(Now()), id, hero, Now())
      ensures error == Some(DUPLICATE_ID) <==> id in old(players)
      ensures error == Some(INVALID_POSITION) <==> id !in old(players) && !terrain.IsValid(hero.pos)
      ensures error == Some(OCCUPIED) ==> hero.pos in old(Cells(players) + Cells(npcs))
    {
      if id in players {
        return Some(DUPLICATE_ID);
      }
      var pos := hero.pos;
      if !terrain.IsValid(pos) {
        return Some(INVALID_POSITION);
      }
      if terrain.IsBlocked(pos) {
        return Some(BLOCKED);
      }
      var taken := IsOccupied(pos);
      if taken {
        return Some(OCCUPIED);
      }
      CellsAfterAdd(players, id, hero);
      occupied[pos.y, pos.x] := true;
      players := players[id := hero];
      return None;
    }

    method RemovePlayer(id: nat)
      requires Valid()
      modifies this, occupied
      ensures Valid() && occupied == old(occupied)
      ensures players == old(players) - {id} && pending == old(pending) - {id}
      ensures npcs == old(npcs) && nextNpcId == old(nextNpcId)
      ensures id in old(players) ==> old(players[id].pos) in Vacant()
      ensures Left(old(Now()), id, Now())
    {
      PendingArePlayers();
      if id in players {
        var pos := players[id].pos;
        Standing(players, id);
        CellsAfterRemove(players, id);
        occupied[pos.y, pos.x] := false;
        players := players - {id};
        pending := pending - {id};
      }
    }

    /** Frees one cell of the matrix and takes another. */
    method Mark(from: Position, to: Position, ghost cells: set<Position>)
      requires terrain.IsValid(from) && terrain.IsValid(to) && Indexed(cells)
      modifies occupied
      ensures Indexed(cells - {from} + {to})
    {
      occupied[from.y, from.x] := false;
      occupied[to.y, to.x] := true;
    }

    /** Takes a player to a vacant cell. */
    method PlacePlayer(id: nat, c: Character)
      requires Valid() && id in players && c.role.Hero? && c.pos in Vacant()
      modifies this, occupied
      ensures Valid() && occupied == old(occupied)
      ensures players == old(players)[id := c] && npcs == old(npcs)
      ensures pending == old(pending) && nextNpcId == old(nextNpcId)
      ensures old(players[id].pos) in Vacant()
    {
      var from := players[id].pos;
      Standing(players, id);
      CellsAfterMove(players, id, c);
      Mark(from, c.pos, Cells(players) + Cells(npcs));
      players := players[id := c];
      assert Cells(players) + Cells(npcs) == old(Cells(players) + Cells(npcs)) - {from} + {c.pos};
    }

    /** Takes an NPC to a vacant cell it may enter. */
    method PlaceNpc(id: nat, c: Character)
      requires Valid() && id in npcs && c.pos in Vacant()
      requires c.role == npcs[id].role && c.dead == npcs[id].dead
      requires c.CanEnter(terrain, c.pos)
      modifies this, occupied
      ensures Valid() && occupied == old(occupied)
      ensures players == old(players) && npcs == old(npcs)[id := c]
      ensures pending == old(pending) && nextNpcId == old(nextNpcId)
    {
      var from := npcs[id].pos;
      Standing(npcs, id);
      CellsAfterMove(npcs, id, c);
      Mark(from, c.pos, Cells(players) + Cells(npcs));
      npcs := npcs[id := c];
      assert Cells(players) + Cells(npcs) == old(Cells(players) + Cells(npcs)) - {from} + {c.pos};
      assert LiveHostiles(npcs) == old(LiveHostiles(npcs));
    }

    method MoveCharacter(id: nat, d: Direction) returns (moved: bool)
      requires Valid()
      modifies this, occupied
      ensures Valid() && occupied == old(occupied)
      ensures moved == old(Everybody().CanMove(terrain, pending, id, d))
      ensures !moved ==> unchanged(this) && unchanged(occupied)
      ensures moved ==> Everybody() == old(Everybody()).Stepped(id, d)
      ensures pending == old(pending) && nextNpcId == old(nextNpcId)
      ensures Walked(terrain, old(Now()), id, d, Now())
    {
      var who := Everybody().Lookup(id);
      if who.None? || id in pending {
        return false;
      }
      var c := who.value;
      var next := Destination(c.pos, d);
      if !terrain.IsValid(next) || terrain.IsBlocked(next) || !c.CanEnter(terrain, next) {
        return false;
      }
      var taken := IsOccupied(next);
      if taken {
        return false;
      }
      c := c.(pos := next, direction := d, moving := true);
      if id in players {
        PlacePlayer(id, c);
      } else {
        PlaceNpc(id, c);
      }
      return true;
    }

    method TeleportPlayer(id: nat, dest: Position) returns (done: bool)
      requires Valid()
      modifies this, occupied
      ensures Valid() && occupied == old(occupied)
      ensures done <==> id in old(players) && terrain.IsValid(dest) && old(Vacant()) != {}
      ensures !done ==> unchanged(this) && unchanged(occupied)
      ensures done ==>
                && id in players && players[id].pos in old(Vacant())
                && players == old(players)[id := old(players)[id].(pos := players[id].pos)]
                && (forall p | p in old(Vacant()) :: Distance(dest, players[id].pos) <= Distance(dest, p))
                && old(players[id].pos) in Vacant()
                && npcs == old(npcs) && pending == old(pending) && nextNpcId == old(nextNpcId)
    {
      if id !in players {
        return false;
      }
      var target := ClosestVacant(dest);
      if target.None? {
        return false;
      }
      PlacePlayer(id, players[id].(pos := target.value));
      return true;
    }

    method ClosestVacant(dest: Position) returns (target: Option<Position>)
      requires Valid()
      ensures target.None? <==> !terrain.IsValid(dest) || Vacant() == {}
      ensures target.Some? ==>
                && target.value in Vacant()
                && forall p | p in Vacant() :: Distance(dest, target.value) <= Distance(dest, p)
    {
      var taken := set x: int, y: int | 0 <= x < terrain.width && 0 <= y < terrain.height && occupied[y, x]
                     :: Position(x, y);
      assert forall p | terrain.IsValid(p) :: p in taken <==> p in Cells(players) + Cells(npcs) by {
        forall p | terrain.IsValid(p)
          ensures p in taken <==> p in Cells(players) + Cells(npcs)
        {
          assert Position(p.x, p.y) == p;
        }
      }
      var accepts := p => p !in taken;
      forall p
        ensures p in Vacant() <==> IsFree(terrain, accepts, p)
      {
        assert terrain.IsValid(p) ==> Position(p.x, p.y) == p;
      }
      target := FindClosestFree(terrain, dest, accepts);
    }

    /** An NPC that may be added: its id is fresh, it may stand where it is, and the population has room for it. */
    ghost predicate Suits(id: nat, npc: Character)
      reads this
    {
      && id !in npcs && id < nextNpcId && !npc.role.Hero?
      && (npc.role.Hostile? ==> npc.CanEnter(terrain, npc.pos))
      && (npc.LiveHostile() ==> |LiveHostiles(npcs)| < populationLimit)
    }

    lemma SuitedKeepsOrder(id: nat, npc: Character)
      requires Valid() && Suits(id, npc) && npc.pos in Vacant()
      ensures var t := npcs[id := npc];
              && Placed(terrain, players, t) && Confined(terrain, players, t)
              && |LiveHostiles(t)| <= populationLimit && forall i | i in t :: i < nextNpcId
    {
      CellsAfterAdd(npcs, id, npc);
      HostilesAfterAdd(npcs, id, npc);
      hide LiveHostiles, Cells, World.Indexed, Character.LiveHostile;
    }

    /** Nothing but the cell is looked at; the world stays in order when the NPC suits it. */
    method AddNpc(id: nat, npc: Character) returns (added: bool)
      requires Valid()
      modifies this, occupied
      ensures old(Suits(id, npc)) || !added ==> Valid()
      ensures occupied == old(occupied) && Indexed(old(Cells(players) + Cells(npcs)) + if added then {npc.pos} else {})
      ensures added <==> npc.pos in old(Vacant())
      ensures npcs == if added then old(npcs)[id := npc] else old(npcs)
      ensures id !in old(npcs) ==> Vacant() == old(Vacant()) - {npc.pos}
      ensures players == old(players) && pending == old(pending) && nextNpcId == old(nextNpcId)
    {
      var pos := npc.pos;
      if !terrain.IsValid(pos) || terrain.IsBlocked(pos) {
        return false;
      }
      var taken := IsOccupied(pos);
      if taken {
        return false;
      }
      EnterNpc(id, npc);
      return true;
    }

    method EnterNpc(id: nat, npc: Character)
      requires Valid() && npc.pos in Vacant()
      modifies this`npcs, occupied
      ensures old(Suits(id, npc)) ==> Valid()
      ensures Indexed(old(Cells(players) + Cells(npcs)) + {npc.pos})
      ensures npcs == old(npcs)[id := npc]
      ensures id !in old(npcs) ==> Vacant() == old(Vacant()) - {npc.pos}
    {
      hide Placed, Confined, LiveHostiles, Suits;
      if Suits(id, npc) {
        SuitedKeepsOrder(id, npc);
      }
      if id !in npcs {
        assert Apart(npcs) by { PlacedApart(terrain, players, npcs); }
        CellsAfterAdd(npcs, id, npc);
      }
      assert id !in npcs <== Suits(id, npc) by { SuitedIsNew(id, npc); }
      occupied[npc.pos.y, npc.pos.x] := true;
      npcs := npcs[id := npc];
    }

    lemma SuitedIsNew(id: nat, npc: Character)
      ensures Suits(id, npc) ==> id !in npcs
    {
    }

    /** The first vacant cell of row y at column x0 or later. */
    method ScanRow(y: int, x0: int) returns (found: Option<Position>)
      requires Valid()
      ensures found.None? <==> forall p | p in Vacant() && p.y == y :: p.x < x0
      ensures found.Some? ==>
                && found.value in Vacant() && found.value.y == y && x0 <= found.value.x
                && forall p | p in Vacant() && p.y == y && x0 <= p.x :: found.value.x <= p.x
    {
      var x := x0;
      while x < terrain.width
        invariant forall p | p in Vacant() && p.y == y && x0 <= p.x :: x <= p.x
      {
        var p := Position(x, y);
        if !terrain.IsBlocked(p) {
          var taken := IsOccupied(p);
          if !taken {
            assert p in Vacant();
            return Some(p);
          }
        }
        x := x + 1;
      }
      return None;
    }

    /** Where a new player appears: the first vacant cell, row by row from base and then from the top. */
    method SpawnPosition(base: Position) returns (spawn: Option<Position>)
      requires Valid()
      ensures spawn.None? <==> forall p | p in Vacant() :: NeverScanned(base, p)
      ensures spawn.Some? ==>
                && spawn.value in Vacant() && !NeverScanned(base, spawn.value)
                && forall p | p in Vacant() && !NeverScanned(base, p) :: ScannedNoLater(base, spawn.value, p)
    {
      var y := base.y;
      while y < terrain.height
        invariant base.y <= y
        invariant forall p | p in Vacant() && base.y <= p.y < y :: NeverScanned(base, p)
      {
        var found := ScanRow(y, if y == base.y then base.x else 0);
        if found.Some? {
          return found;
        }
        y := y + 1;
      }
      y := 0;
      while y < base.y
        invariant 0 <= y
        invariant forall p | p in Vacant() && base.y <= p.y :: NeverScanned(base, p)
        invariant forall p | p in Vacant() :: y <= p.y || base.y <= p.y
      {
        var found := ScanRow(y, 0);
        if found.Some? {
          return found;
        }
        y := y + 1;
      }
      return None;
    }

    /** Replaces what is known of a player who does not move. */
    method UpdatePlayer(id: nat, c: Character)
      requires Valid() && id in players && c.role.Hero? && c.pos == players[id].pos
      modifies this`players
      ensures Valid() && players == old(players)[id := c] && Vacant() == old(Vacant())
    {
      players := players[id := c];
      assert Cells(players) == old(Cells(players)) by {
        forall i | i in players ensures players[i].pos == old(players)[i].pos {}
      }
    }

    /** Replaces what is known of an NPC that does not move and does not come back to life. */
    method UpdateNpc(id: nat, c: Character)
      requires Valid() && id in npcs && c.pos == npcs[id].pos
      requires SameKind(c.role, npcs[id].role)
      requires npcs[id].dead ==> c.dead
      modifies this`npcs
      ensures Valid() && npcs == old(npcs)[id := c] && Vacant() == old(Vacant())
    {
      npcs := npcs[id := c];
      assert Cells(npcs) == old(Cells(npcs)) by {
        forall i | i in npcs ensures npcs[i].pos == old(npcs)[i].pos {}
      }
      SmallerSet(LiveHostiles(npcs), old(LiveHostiles(npcs)));
    }

    method RemoveNpc(id: nat)
      requires Valid() && id in npcs
      modifies this`npcs, occupied
      ensures Valid() && npcs == old(npcs) - {id}
    {
      var pos := npcs[id].pos;
      Standing(npcs, id);
      CellsAfterRemove(npcs, id);
      occupied[pos.y, pos.x] := false;
      npcs := npcs - {id};
      SmallerSet(LiveHostiles(npcs), old(LiveHostiles(npcs)));
    }

    /** Damage to whoever the id names. The dead stay as they are. */
    method Strike(id: nat, fatal: bool)
      requires Valid()
      modifies this`players, this`npcs
      ensures Valid()
      ensures players == if id in old(players) then old(players)[id := old(players)[id].Struck(fatal)] else old(players)
      ensures npcs == if id in old(npcs) && id !in old(players)
                      then old(npcs)[id := old(npcs)[id].Struck(fatal)] else old(npcs)
      ensures SamePlaces(old(players), players) && StayDead(old(players), players)
      ensures Stricken(old(Now()), id, fatal, Now())
    {
      if id in players {
        UpdatePlayer(id, players[id].Struck(fatal));
      } else if id in npcs {
        UpdateNpc(id, npcs[id].Struck(fatal));
      }
    }

    /** The priest brings a dead player back on the spot, even while a resurrection is pending. */
    method PriestRevive(id: nat) returns (revived: bool)
      requires Valid()
      modifies this`players
      ensures Valid()
      ensures revived <==> id in old(players) && old(players[id].dead)
      ensures players == if revived then old(players)[id := old(players)[id].(dead := false)] else old(players)
      ensures Revived(old(Now()), id, Now())
    {
      revived := id in players && players[id].dead;
      if revived {
        UpdatePlayer(id, players[id].(dead := false));
      }
    }

    /** A dead player asks to be carried to the nearest priest after the given wait. */
    method StartResurrection(id: nat, wait: real) returns (status: ResurrectStatus)
      requires Valid()
      modifies this`pending
      ensures Valid()
      ensures status == NOT_DEAD <==>
              id !in players || !players[id].dead || (id !in old(pending) && terrain.cities == [])
      ensures status == ALREADY_RESURRECTING <==> id in players && players[id].dead && id in old(pending)
      ensures status != RESURRECTING ==> pending == old(pending)
      ensures status == RESURRECTING ==>
                exists k: nat :: NearestPriest(terrain, players[id].pos, k)
                            && pending == old(pending)[id := Pending(wait, terrain.cities[k].priest)]
      ensures Waits(terrain, old(Now()), id, wait, Now())
    {
      hide NearestPriest;
      if id !in players || !players[id].dead {
        return NOT_DEAD;
      }
      if id in pending {
        return ALREADY_RESURRECTING;
      }
      var city := ClosestCity(terrain, players[id].pos);
      if city.None? {
        return NOT_DEAD;
      }
      pending := pending[id := Pending(wait, city.value.priest)];
      return RESURRECTING;
    }

    /** Counts every pending resurrection down; those that are due are carried out in order of id. */
    method UpdateResurrections(tick: real) returns (ghost ids: seq<nat>, ghost trail: seq<Moment>)
      requires Valid()
      modifies this, occupied
      ensures Valid() && occupied == old(occupied)
      ensures npcs == old(npcs) && nextNpcId == old(nextNpcId)
      ensures TimersAfter(old(pending), pending, old(pending.Keys), tick)
      ensures PlayersAfter(terrain, old(players), players, old(pending), old(pending.Keys), tick, old(Vacant()) != {})
      ensures InOrder(ids, old(pending.Keys)) && CountDowns(terrain, ids, trail, tick)
      ensures trail[0] == old(Now()) && trail[|ids|] == Now()
    {
      hide CountedDown, World.Valid, World.Vacant, PlayersAfter, TimersAfter;
      NoneCounted(tick);
      ids, trail := [], [Now()];
      var left := pending.Keys;
      assert old(pending.Keys) - left == {};
      ghost var room := Vacant() != {};
      while left != {}
        invariant Valid() && occupied == old(occupied)
        invariant npcs == old(npcs) && nextNpcId == old(nextNpcId)
        invariant Vacant() != {} <==> room
        invariant left <= old(pending.Keys)
        invariant TimersAfter(old(pending), pending, old(pending.Keys) - left, tick)
        invariant PlayersAfter(terrain, old(players), players, old(pending), old(pending.Keys) - left, tick, room)
        invariant InOrder(ids, old(pending.Keys) - left)
        invariant forall i, j | i in old(pending.Keys) - left && j in left :: i < j
        invariant CountDowns(terrain, ids, trail, tick) && trail[0] == old(Now()) && trail[|ids|] == Now()
        decreases left
      {
        ghost var done := old(pending.Keys) - left;
        var id;
        id, left := Next(old(pending.Keys), left);
        CountDownAmong(old(pending), old(players), done, room, id, tick);
        CountDownsNext(terrain, ids, trail, tick, id, Now());
        InOrderNext(ids, done, id);
        ids, trail := ids + [id], trail + [Now()];
        assert old(pending.Keys) - left == done + {id};
      }
      assert old(pending.Keys) - left == old(pending.Keys);
    }

    lemma NoneCounted(tick: real)
      requires Valid()
      ensures pending.Keys <= players.Keys
      ensures TimersAfter(pending, pending, {}, tick) && InOrder([], {}) && CountDowns(terrain, [], [Now()], tick)
      ensures PlayersAfter(terrain, players, players, pending, {}, tick, Vacant() != {})
    {
    }

    /** CountDown, told what the earlier ones did. */
    method CountDownAmong(ghost pending0: map<nat, Pending>, ghost players0: map<nat, Character>, ghost done: set<nat>,
                          ghost room: bool, id: nat, tick: real)
      requires Valid() && id in pending0 && id !in done && pending0.Keys <= players0.Keys
      requires room <==> Vacant() != {}
      requires TimersAfter(pending0, pending, done, tick)
      requires PlayersAfter(terrain, players0, players, pending0, done, tick, room)
      modifies this, occupied
      ensures Valid() && occupied == old(occupied)
      ensures npcs == old(npcs) && nextNpcId == old(nextNpcId)
      ensures room <==> Vacant() != {}
      ensures TimersAfter(pending0, pending, done + {id}, tick)
      ensures PlayersAfter(terrain, players0, players, pending0, done + {id}, tick, room)
      ensures CountedDown(terrain, old(Now()), id, Now(), tick)
    {
      hide CountedDown, TimersAfter, PlayersAfter, Carried, World.Valid, World.Vacant, Distance;
      TimersStep(pending0, pending, done, id, tick);
      ghost var now := players;
      CountDown(id, tick);
      PlayersStep(terrain, players0, now, players, pending0, done, id, tick, room);
    }

    /** One pending resurrection, one tick later. */
    method CountDown(id: nat, tick: real)
      requires Valid() && id in pending
      modifies this, occupied
      ensures Valid() && occupied == old(occupied)
      ensures npcs == old(npcs) && nextNpcId == old(nextNpcId)
      ensures Vacant() != {} <==> old(Vacant()) != {}
      ensures pending == if Due(old(pending), id, tick) then old(pending) - {id}
                         else old(pending)[id := old(pending)[id].(timer := old(pending)[id].timer - tick)]
      ensures players.Keys == old(players.Keys)
      ensures forall j | j in players && j != id :: players[j] == old(players)[j]
      ensures Carried(terrain, old(players)[id], players[id], old(pending)[id].destination,
                      Due(old(pending), id, tick) && old(Vacant()) != {})
      ensures Due(old(pending), id, tick) && old(Vacant()) != {} && terrain.IsValid(old(pending)[id].destination) ==>
                && players[id].pos in old(Vacant())
                && forall p | p in old(Vacant()) ::
                     Distance(old(pending)[id].destination, players[id].pos)
                     <= Distance(old(pending)[id].destination, p)
      ensures CountedDown(terrain, old(Now()), id, Now(), tick)
    {
      hide World.Valid, Grid.Vacant, Distance;
      WaitingAreHeroes();
      var due := Due(pending, id, tick);
      if due {
        var carried := TeleportPlayer(id, pending[id].destination);
        if carried {
          UpdatePlayer(id, players[id].(dead := false));
        }
        SetPending(pending - {id});
      } else {
        SetPending(pending[id := pending[id].(timer := pending[id].timer - tick)]);
      }
    }

    lemma WaitingAreHeroes()
      requires Valid()
      ensures pending.Keys <= players.Keys && forall id | id in players :: players[id].role.Hero?
    {
    }

    method SetPending(waiting: map<nat, Pending>)
      requires Valid() && waiting.Keys <= players.Keys
      modifies this`pending
      ensures Valid() && pending == waiting && Vacant() == old(Vacant())
    {
      pending := waiting;
    }

    /** A random cell an NPC of these zones may appear on: the first good one of MAX_ATTEMPTS draws. */
    method RandomSpawn(zones: seq<ZoneType>, draw: nat -> Position) returns (found: Option<Position>)
      requires Valid()
      ensures found.None? <==> forall k: nat :: !GoodDraw(terrain, Everybody(), zones, draw, k)
      ensures found.Some? ==> exists k: nat :: GoodDraw(terrain, Everybody(), zones, draw, k) && found.value == draw(k)
    {
      for k := 0 to MAX_ATTEMPTS
        invariant forall j: nat | j < k :: !SpawnCell(terrain, Everybody(), zones, draw(j))
      {
        var p := draw(k);
        if terrain.IsBlocked(p) {
          continue;
        }
        var taken := IsOccupied(p);
        if taken || terrain.IsSafe(p) {
          continue;
        }
        if terrain.ZoneTypeAt(p) in zones {
          assert GoodDraw(terrain, Everybody(), zones, draw, k);
          return Some(p);
        }
      }
      return None;
    }

    method TrySpawn(templates: seq<Template>, pick: nat, draw: nat -> Position) returns (spawned: bool)
      requires Valid() && (templates != [] ==> pick < |templates|)
      modifies this, occupied
      ensures Valid() && occupied == old(occupied)
      ensures spawned <==>
              && |LiveHostiles(old(npcs))| < populationLimit && templates != []
              && exists k: nat :: GoodDraw(terrain, old(Everybody()), templates[pick].zones, draw, k)
      ensures spawned ==>
                exists k: nat :: GoodDraw(terrain, old(Everybody()), templates[pick].zones, draw, k)
                            && npcs == old(npcs)[old(nextNpcId) := FromTemplate(templates[pick], draw(k))]
      ensures nextNpcId == old(nextNpcId) + if spawned then 1 else 0
      ensures !spawned ==> npcs == old(npcs)
      ensures players == old(players) && pending == old(pending)
      ensures if templates == [] then Now() == old(Now())
              else Populated(terrain, populationLimit, old(Now()), templates[pick], draw, Now())
    {
      hide GoodDraw, SpawnCell, Grid.Vacant, World.Valid, LiveHostiles, FromTemplate;
      if |LiveHostiles(npcs)| >= populationLimit || templates == [] {
        return false;
      }
      var t := templates[pick];
      var found := RandomSpawn(t.zones, draw);
      if found.None? {
        assert Now() == old(Now());
        return false;
      }
      ghost var k: nat :| GoodDraw(terrain, Everybody(), t.zones, draw, k) && found.value == draw(k);
      GoodDrawIsFree(terrain, Everybody(), t.zones, draw, k);
      Spawn(t, found.value);
      spawned := true;
      assert Now() == Moment(old(Everybody()).WithNpc(old(nextNpcId), FromTemplate(t, draw(k))), pending, nextNpcId);
    }

    /** A new NPC made from this template. */
    method Spawn(t: Template, p: Position)
      requires Valid() && |LiveHostiles(npcs)| < populationLimit
      requires p in Everybody().Vacant(terrain) && !terrain.IsSafe(p) && terrain.ZoneTypeAt(p) in t.zones
      modifies this, occupied
      ensures Valid() && occupied == old(occupied)
      ensures npcs == old(npcs)[old(nextNpcId) := FromTemplate(t, p)] && nextNpcId == old(nextNpcId) + 1
      ensures players == old(players) && pending == old(pending)
    {
      hide World.Valid, Grid.Vacant, LiveHostiles;
      var id := NewNpcId();
      var _ := AddNpc(id, FromTemplate(t, p));
    }

    /** Every city gets a priest, a merchant and a banker on their cells, wherever those are vacant. */
    method SpawnCityNpcs()
      requires Valid()
      modifies this, occupied
      ensures Valid() && occupied == old(occupied)
      ensures players == old(players) && pending == old(pending)
      ensures nextNpcId == old(nextNpcId) + |Posts(terrain.cities)|
      ensures npcs == Settled(old(npcs), old(nextNpcId), old(Vacant()), Posts(terrain.cities))
      ensures Vacant() == old(Vacant()) - PlacesOf(Posts(terrain.cities))
    {
      NonePlaced();
      hide World.Valid, Settled, PlacesOf, World.Vacant;
      ghost var npcs0, base, vacant := npcs, nextNpcId, Vacant();
      for k := 0 to |terrain.cities|
        invariant Valid() && occupied == old(occupied)
        invariant players == old(players) && pending == old(pending)
        invariant Placing(npcs0, base, vacant, Posts(terrain.cities[..k]))
      {
        var c := terrain.cities[k];
        ghost var done := Posts(terrain.cities[..k]);
        PostsNext(terrain.cities, k);
        AddCityNpc(Folk(c.priest, PRIEST), npcs0, base, vacant, done);
        AddCityNpc(Folk(c.merchant, MERCHANT), npcs0, base, vacant, done + [Folk(c.priest, PRIEST)]);
        AddCityNpc(Folk(c.banker, BANKER), npcs0, base, vacant,
                   done + [Folk(c.priest, PRIEST)] + [Folk(c.merchant, MERCHANT)]);
      }
      assert terrain.cities[..|terrain.cities|] == terrain.cities;
    }

    lemma NonePlaced()
      ensures Placing(npcs, nextNpcId, Vacant(), [])
    {
    }

    /** These have been placed since the world was as given. */
    ghost predicate Placing(npcs0: map<nat, Character>, base: nat, vacant: set<Position>, done: seq<Character>)
      reads this
    {
      && npcs == Settled(npcs0, base, vacant, done)
      && nextNpcId == base + |done|
      && Vacant() == vacant - PlacesOf(done)
    }

    method AddCityNpc(c: Character, ghost npcs0: map<nat, Character>, ghost base: nat, ghost vacant: set<Position>,
                      ghost done: seq<Character>)
      requires Valid() && c.role.CityFolk? && !c.dead && Placing(npcs0, base, vacant, done)
      modifies this, occupied
      ensures Valid() && occupied == old(occupied)
      ensures players == old(players) && pending == old(pending)
      ensures Placing(npcs0, base, vacant, done + [c])
    {
      hide Settled, PlacesOf, Grid.Vacant, World.Valid;
      SettledNext(npcs0, base, vacant, done, c);
      var id := NewNpcId();
      var _ := AddNpc(id, c);
    }

    lemma NpcsNumbered()
      requires Valid()
      ensures Numbered(Now())
    {
    }

    method NewNpcId() returns (id: nat)
      requires Valid()
      modifies this`nextNpcId
      ensures Valid() && id == old(nextNpcId) && nextNpcId == id + 1 && id !in npcs
    {
      id := nextNpcId;
      nextNpcId := nextNpcId + 1;
    }

    /** What a hostile NPC does next, and its attack timer afterwards. */
    method Decide(id: nat, tick: real, cooldown: real) returns (action: Action, timer: real)
      requires id in npcs && npcs[id].role.Hostile?
      ensures timer == if action.STILL? then npcs[id].role.timer + tick else 0.0
      ensures action.STILL? <==>
              || npcs[id].role.timer + tick < cooldown
              || forall j | j in players :: !InReach(players[j], npcs[id].pos, npcs[id].role.range)
      ensures action.ATTACK? ==>
                && Prey(players, npcs[id].pos, npcs[id].role.range, action.target)
                && Adjacent(npcs[id].pos, players[action.target].pos)
      ensures action.CHASE? ==>
                exists j :: Prey(players, npcs[id].pos, npcs[id].role.range, j)
                            && players[j].pos == action.goal && !Adjacent(npcs[id].pos, action.goal)
    {
      action, timer := STILL, npcs[id].role.timer + tick;
      if timer < cooldown {
        return;
      }
      var prey := FindPrey(players, npcs[id].pos, npcs[id].role.range);
      if prey.None? {
        return;
      }
      var goal := players[prey.value].pos;
      if Adjacent(npcs[id].pos, goal) {
        action := ATTACK(prey.value);
      } else {
        action := CHASE(goal);
      }
      timer := 0.0;
    }

    /** One step of a chase. It turns even when the step is refused; a player with the same id is moved instead. */
    method MoveTowards(id: nat, goal: Position) returns (moved: bool)
      requires Valid() && id in npcs
      modifies this, occupied
      ensures Valid() && occupied == old(occupied)
      ensures pending == old(pending) && nextNpcId == old(nextNpcId)
      ensures players.Keys == old(players.Keys) && npcs.Keys == old(npcs.Keys)
      ensures StayDead(old(players), players)
      ensures forall j | j in npcs && j != id :: npcs[j] == old(npcs)[j]
      ensures Everybody() == old(Everybody()).Chased(terrain, old(pending), id, goal)
      ensures id !in players ==> AtMostOneStep(old(npcs)[id].pos, npcs[id].pos) && players == old(players)
      ensures moved && id !in players && !Adjacent(old(npcs)[id].pos, goal) ==>
                Gap(npcs[id].pos, goal) == Gap(old(npcs)[id].pos, goal) - 1
    {
      hide World.Valid, Grid.Vacant;
      var d := ChaseDirection(npcs[id].pos, goal);
      UpdateNpc(id, npcs[id].(direction := d));
      moved := MoveCharacter(id, d);
      if moved {
        UpdateNpc(id, npcs[id].(moving := true));
      }
      ChaseClosesGap(old(npcs)[id].pos, goal);
    }

    /** One hostile NPC's turn. An attack may prove fatal to its target. */
    method Act(id: nat, tick: real, cooldown: real, fatal: bool)
      requires Valid() && id in npcs && npcs[id].role.Hostile?
      modifies this, occupied
      ensures Valid() && occupied == old(occupied)
      ensures pending == old(pending) && nextNpcId == old(nextNpcId)
      ensures players.Keys == old(players.Keys) && npcs.Keys == old(npcs.Keys)
      ensures StayDead(old(players), players)
      ensures forall j | j in npcs && j != id :: npcs[j] == old(npcs)[j]
      ensures id !in players ==> AtMostOneStep(old(npcs)[id].pos, npcs[id].pos) && SamePlaces(old(players), players)
      ensures Acted(terrain, old(pending), old(Everybody()), id, Everybody(), tick, cooldown, fatal)
    {
      hide Prey, InReach, Adjacent, Grid.Chased, AtMostOneStep, SamePlaces, World.Vacant, World.Valid;
      var action, timer := Decide(id, tick, cooldown);
      UpdateNpc(id, npcs[id].(role := npcs[id].role.(timer := timer)));
      Perform(id, action, fatal);
    }

    method Perform(id: nat, action: Action, fatal: bool)
      requires Valid() && id in npcs && (action.ATTACK? ==> action.target in players)
      modifies this, occupied
      ensures Valid() && occupied == old(occupied)
      ensures pending == old(pending) && nextNpcId == old(nextNpcId)
      ensures players.Keys == old(players.Keys) && npcs.Keys == old(npcs.Keys)
      ensures StayDead(old(players), players)
      ensures forall j | j in npcs && j != id :: npcs[j] == old(npcs)[j]
      ensures id !in players ==> AtMostOneStep(old(npcs)[id].pos, npcs[id].pos) && SamePlaces(old(players), players)
      ensures var g := old(Everybody());
              Everybody() == match action
                             case STILL => g
                             case ATTACK(j) => g.(players := g.players[j := g.players[j].Struck(fatal)])
                             case CHASE(goal) => g.Chased(terrain, old(pending), id, goal)
    {
      hide Grid.Chased;
      match action
      case STILL =>
      case ATTACK(target) => Strike(target, fatal);
      case CHASE(goal) => var _ := MoveTowards(id, goal);
    }

    /** One NPC's turn: the dead are removed, the hostile act. */
    method Turn(id: nat, tick: real, cooldown: real, fatal: bool)
      requires Valid() && id in npcs
      modifies this, occupied
      ensures Valid() && occupied == old(occupied)
      ensures pending == old(pending) && nextNpcId == old(nextNpcId) && players.Keys == old(players.Keys)
      ensures npcs.Keys == if old(npcs)[id].dead then old(npcs.Keys) - {id} else old(npcs.Keys)
      ensures StayDead(old(players), players)
      ensures forall j | j in npcs && j != id :: npcs[j] == old(npcs)[j]
      ensures id !in players ==>
                && (id in npcs ==> AtMostOneStep(old(npcs)[id].pos, npcs[id].pos))
                && SamePlaces(old(players), players)
      ensures TookTurn(terrain, old(pending), old(Everybody()), id, Everybody(), tick, cooldown, fatal)
    {
      hide Acted, Grid.Vacant, World.Valid;
      if npcs[id].dead {
        RemoveNpc(id);
      } else {
        UpdateNpc(id, npcs[id].(moving := false));
        if npcs[id].role.Hostile? {
          Act(id, tick, cooldown, fatal);
        }
      }
    }

    /** Every NPC's turn, in order of id: ids are those taking a turn, trail is who stood where in between. */
    method UpdateNpcs(tick: real, cooldown: real, fatal: nat -> bool)
      returns (ghost ids: seq<nat>, ghost trail: seq<Grid>)
      requires Valid()
      modifies this, occupied
      ensures Valid() && occupied == old(occupied)
      ensures pending == old(pending) && nextNpcId == old(nextNpcId) && players.Keys == old(players.Keys)
      ensures forall id :: id in npcs <==> id in old(npcs) && !old(npcs)[id].dead
      ensures players.Keys !! old(npcs.Keys) ==>
                && (forall id | id in npcs :: AtMostOneStep(old(npcs)[id].pos, npcs[id].pos))
                && SamePlaces(old(players), players)
      ensures StayDead(old(players), players)
      ensures InOrder(ids, old(npcs.Keys))
      ensures |trail| == |ids| + 1 && trail[0] == old(Everybody()) && trail[|ids|] == Everybody()
      ensures TookTurns(terrain, old(pending), ids, trail, tick, cooldown, fatal)
    {
      hide World.Valid, World.Vacant, Acted, TookTurn, TookTurns, InOrder;
      NoTurns(tick, cooldown, fatal);
      var left := npcs.Keys;
      ghost var apart := players.Keys !! npcs.Keys;
      ids, trail := [], [Everybody()];
      assert npcs.Keys - left == {};
      while left != {}
        invariant Valid() && occupied == old(occupied)
        invariant pending == old(pending) && nextNpcId == old(nextNpcId) && players.Keys == old(players.Keys)
        invariant left <= old(npcs.Keys) && apart == (players.Keys !! old(npcs.Keys))
        invariant forall id :: id in npcs <==> id in old(npcs) && (id in left || !old(npcs)[id].dead)
        invariant forall id | id in left :: npcs[id] == old(npcs)[id]
        invariant apart ==> forall id | id in npcs :: AtMostOneStep(old(npcs)[id].pos, npcs[id].pos)
        invariant StayDead(old(players), players)
        invariant apart ==> SamePlaces(old(players), players)
        invariant InOrder(ids, old(npcs.Keys) - left) && forall i, j | i in old(npcs.Keys) - left && j in left :: i < j
        invariant |trail| == |ids| + 1 && trail[0] == old(Everybody()) && trail[|ids|] == Everybody()
        invariant TookTurns(terrain, pending, ids, trail, tick, cooldown, fatal)
        decreases left
      {
        ghost var done := old(npcs.Keys) - left;
        var id;
        id, left := Next(old(npcs.Keys), left);
        Turn(id, tick, cooldown, fatal(id));
        TookTurnsNext(terrain, pending, ids, trail, tick, cooldown, fatal, id, Everybody());
        InOrderNext(ids, done, id);
        assert done + {id} == old(npcs.Keys) - left;
        ids, trail := ids + [id], trail + [Everybody()];
      }
      assert old(npcs.Keys) - left == old(npcs.Keys);
    }

    lemma NoTurns(tick: real, cooldown: real, fatal: nat -> bool)
      ensures TookTurns(terrain, pending, [], [Everybody()], tick, cooldown, fatal) && InOrder([], {})
    {
    }

    /** Everybody with a resurrection pending is dead. */
    ghost predicate Waiting()
      reads this
    {
      forall id | id in pending && id in players :: players[id].dead
    }

    lemma PendingArePlayers()
      requires Valid()
      ensures pending.Keys <= players.Keys
    {
    }

    /**
     * One command, or a server tick. Those with a resurrection pending are dead until a priest revives one of them, and
     * as long as it is pending they do not move.
     */
    method Do(e: Event)
      requires Valid()
      modifies this, occupied
      ensures Valid() && occupied == old(occupied)
      ensures Happened(terrain, populationLimit, old(Now()), e, Now())
      ensures old(Waiting()) ==> (Waiting() <==> !(e.AskPriest? && e.id in old(pending)))
      ensures old(players.Keys !! npcs.Keys) ==>
                forall id | id in old(pending) && id in pending && id in players && id in old(players) ::
                  players[id].pos == old(players)[id].pos
    {
      hide World.Valid, World.Vacant, Grid.Vacant, Cells;
      hide Joined, Entered, Walked, Left, Stricken, Revived, Waits, Ticked, Populated;
      PendingArePlayers();
      match e
      case Join(id, base) => Enter(id, base);
      case Restore(id, pos) => var _ := AddPlayer(id, Newcomer(pos));
      case Leave(id) => RemovePlayer(id);
      case Walk(id, d) =>
        if id in players {
          var _ := MoveCharacter(id, d);
        }
      case Hit(id, deadly) => Strike(id, deadly);
      case AskPriest(id) => var _ := PriestRevive(id);
      case AskResurrection(id, wait) => var _ := StartResurrection(id, wait);
      case Tick(tick, cooldown, fatal) => Pass(tick, cooldown, fatal);
      case Populate(templates, pick, draw) =>
        if templates != [] {
          var _ := TrySpawn(templates, pick % |templates|, draw);
        }
    }

    /** A new player appears near the base cell, if there is room. */
    method Enter(id: nat, base: Position)
      requires Valid()
      modifies this, occupied
      ensures Valid() && occupied == old(occupied)
      ensures Joined(terrain, old(Now()), id, base, Now())
      ensures npcs == old(npcs) && pending == old(pending) && nextNpcId == old(nextNpcId)
      ensures forall j | j in old(players) :: j in players && players[j] == old(players)[j]
      ensures id in players && id !in old(players) ==> !players[id].dead
    {
      hide World.Valid, NeverScanned, ScannedNoLater, Grid.Vacant;
      var spawn := SpawnPosition(base);
      if spawn.Some? {
        assert SpawnsAt(terrain, Everybody(), base, spawn.value);
        var _ := AddPlayer(id, Newcomer(spawn.value));
      }
    }

    /** A server tick: resurrections first, then the NPCs. */
    method Pass(tick: real, cooldown: real, fatal: nat -> bool)
      requires Valid()
      modifies this, occupied
      ensures Valid() && occupied == old(occupied)
      ensures Ticked(terrain, old(Now()), tick, cooldown, fatal, Now())
      ensures old(Waiting()) ==> Waiting()
      ensures old(players.Keys !! npcs.Keys) ==>
                forall id | id in old(pending) && id in pending && id in players && id in old(players) ::
                  players[id].pos == old(players)[id].pos
    {
      hide World.Valid, World.Vacant, Cells, TookTurns, CountDowns, InOrder;
      PendingArePlayers();
      ghost var waited, steps := UpdateResurrections(tick);
      ghost var middle := Now();
      ghost var ids, trail := UpdateNpcs(tick, cooldown, fatal);
      assert Ripened(terrain, old(Now()), tick, middle);
      assert Roamed(terrain, middle, tick, cooldown, fatal, Now());
    }

    /** Whatever commands and ticks arrive, in whatever order, the matrix and the tables go on agreeing. */
    method Run(events: seq<Event>) returns (ghost trail: seq<Moment>)
      requires Valid()
      modifies this, occupied
      ensures Valid() && occupied == old(occupied)
      ensures Unfolds(terrain, populationLimit, events, trail)
      ensures trail[0] == old(Now()) && trail[|events|] == Now()
      ensures old(Waiting()) && (forall e | e in events :: !e.AskPriest?) ==> Waiting()
    {
      hide World.Valid, World.Waiting, Happened;
      trail := [Now()];
      for k := 0 to |events|
        invariant Valid() && occupied == old(occupied)
        invariant Unfolds(terrain, populationLimit, events[..k], trail)
        invariant trail[0] == old(Now()) && trail[k] == Now()
        invariant old(Waiting()) && (forall e | e in events[..k] :: !e.AskPriest?) ==> Waiting()
      {
        assert events[..k + 1] == events[..k] + [events[k]];
        Do(events[k]);
        trail := trail + [Now()];
      }
      assert events[..|events|] == events;
    }
  }

  /** These attempts to place a hostile NPC were made one after another. */
  ghost predicate Peopled(m: WorldMap, limit: nat, templates: seq<Template>, picks: nat -> nat,
                          draws: nat -> nat -> Position, trail: seq<Moment>)
    requires templates != []
  {
    forall k: nat | k < |trail| - 1 ::
      Populated(m, limit, trail[k], templates[picks(k) % |templates|], draws(k), trail[k + 1])
  }

  /** Some draw fits. */
  ghost predicate Fits(m: WorldMap, s: Moment, t: Template, draw: nat -> Position) {
    exists k: nat :: GoodDraw(m, s.grid, t.zones, draw, k)
  }

  /** Ids are below the next one. */
  ghost predicate Numbered(s: Moment) {
    forall id | id in s.grid.npcs :: id < s.nextNpcId
  }

  /** What came on top of these NPCs are live hostile ones. */
  ghost predicate Joins(folk: map<nat, Character>, npcs: map<nat, Character>) {
    && (forall id | id in folk :: id in npcs && npcs[id] == folk[id])
    && (forall id | id in npcs && id !in folk :: npcs[id].LiveHostile())
  }

  /** An attempt adds one to the population, exactly when there is room and a draw fits. */
  lemma PopulationAfter(m: WorldMap, limit: nat, s: Moment, t: Template, draw: nat -> Position, s': Moment)
    requires Populated(m, limit, s, t, draw, s') && Numbered(s)
    ensures Numbered(s') && Joins(s.grid.npcs, s'.grid.npcs)
    ensures var before, now := |LiveHostiles(s.grid.npcs)|, |LiveHostiles(s'.grid.npcs)|;
            now == before + if before < limit && Fits(m, s, t, draw) then 1 else 0
  {
    hide GoodDraw, LiveHostiles;
    if s' != s {
      var k: nat :| GoodDraw(m, s.grid, t.zones, draw, k)
                    && s'.grid == s.grid.WithNpc(s.nextNpcId, FromTemplate(t, draw(k)));
      HostilesAfterAdd(s.grid.npcs, s.nextNpcId, FromTemplate(t, draw(k)));
    }
  }

  /** From none on, as many attempts as there is room for never meet the limit. */
  lemma {:induction false} NoneInVain(m: WorldMap, limit: nat, templates: seq<Template>, picks: nat -> nat,
                                      draws: nat -> nat -> Position, trail: seq<Moment>, n: nat)
    requires templates != [] && Peopled(m, limit, templates, picks, draws, trail) && n < |trail| <= limit + 1
    requires Numbered(trail[0]) && LiveHostiles(trail[0].grid.npcs) == {}
    ensures Numbered(trail[n]) && Joins(trail[0].grid.npcs, trail[n].grid.npcs)
    ensures |LiveHostiles(trail[n].grid.npcs)| <= n
    ensures (forall k: nat | k < n :: Fits(m, trail[k], templates[picks(k) % |templates|], draws(k))) ==>
              |LiveHostiles(trail[n].grid.npcs)| == n
    decreases n
  {
    hide LiveHostiles, Fits, Populated, Numbered;
    if n > 0 {
      NoneInVain(m, limit, templates, picks, draws, trail, n - 1);
      PopulationAfter(m, limit, trail[n - 1], templates[picks(n - 1) % |templates|], draws(n - 1), trail[n]);
    }
  }

  lemma {:induction false} PostsAreFolk(cities: seq<City>)
    ensures forall c | c in Posts(cities) :: c.role.CityFolk?
  {
    if cities != [] {
      PostsAreFolk(cities[..|cities| - 1]);
    }
  }

  lemma NoHostiles(vacant: set<Position>, cities: seq<City>)
    ensures LiveHostiles(Settled(map[], 1000, vacant, Posts(cities))) == {}
  {
    hide Settled, Posts;
    var posts := Posts(cities);
    SettledWho(map[], 1000, vacant, posts);
    PostsAreFolk(cities);
    forall id | id in Settled(map[], 1000, vacant, posts)
      ensures Settled(map[], 1000, vacant, posts)[id].role.CityFolk?
    {
      assert posts[id - 1000] in posts && 1000 + (id - 1000) == id;
    }
  }

  /**
   * A new world: the city NPCs first, then as many attempts to place a hostile NPC as the population has room for. None
   * of the attempts but those where no draw fits is in vain.
   */
  method StartWorld(m: WorldMap, limit: nat, templates: seq<Template>, picks: nat -> nat, draws: nat -> nat -> Position)
    returns (w: World, ghost trail: seq<Moment>)
    ensures fresh(w) && fresh(w.occupied) && w.Valid() && w.terrain == m && w.populationLimit == limit
    ensures w.players == map[] && w.pending == map[]
    ensures |trail| == limit + 1 && trail[limit] == w.Now()
    ensures var folk := Settled(map[], 1000, m.Cells() - m.walls, Posts(m.cities));
            Joins(folk, w.npcs) && trail[0] == Moment(Grid(map[], folk), map[], 1000 + |Posts(m.cities)|)
    ensures templates == [] ==> w.Now() == trail[0]
    ensures templates != [] ==>
              && Peopled(m, limit, templates, picks, draws, trail)
              && ((forall k: nat | k < limit :: Fits(m, trail[k], templates[picks(k) % |templates|], draws(k))) ==>
                    |LiveHostiles(w.npcs)| == limit)
  {
    w := new World(m, limit);
    assert w.Vacant() == m.Cells() - m.walls;
    hide Settled, Posts, World.Valid, World.Vacant, GoodDraw, Fits, Populated, LiveHostiles, Numbered;
    w.SpawnCityNpcs();
    w.NpcsNumbered();
    NoHostiles(m.Cells() - m.walls, m.cities);
    ghost var first := w.Now();
    trail := [first];
    for k := 0 to limit
      invariant fresh(w) && fresh(w.occupied) && w.Valid() && w.players == map[] && w.pending == map[]
      invariant |trail| == k + 1 && trail[k] == w.Now() && trail[0] == first
      invariant if templates == [] then w.Now() == trail[0] else Peopled(m, limit, templates, picks, draws, trail)
    {
      if templates != [] {
        var _ := w.TrySpawn(templates, picks(k) % |templates|, draws(k));
      }
      trail := trail + [w.Now()];
    }
    if templates != [] {
      NoneInVain(m, limit, templates, picks, draws, trail, limit);
    }
  }

  /** Revived by a priest while being resurrected: alive, with room to go, and unable to. */
  method RevivedCannotMove() returns (w: World, moved: bool)
    ensures w.Valid() && 1 in w.players && !w.players[1].dead && 1 in w.pending
    ensures Destination(w.players[1].pos, RIGHT) in w.Vacant() && !moved
  {
    hide World.Valid;
    var here, there := Position(0, 0), Position(1, 0);
    w := new World(WorldMap(2, 1, {}, map[], [City(there, there, there)]), 0);
    assert w.terrain.Cells() == {here, there};
    var error := w.AddPlayer(1, Character(here, true, DOWN, false, Hero));
    var status := w.StartResurrection(1, 60.0);
    var revived := w.PriestRevive(1);
    moved := w.MoveCharacter(1, RIGHT);
    assert Cells(w.players) == {here};
  }

  /** The spawn search can fail beside a vacant cell: here the only one lies left of the base, in its row. */
  method SpawnFailsWithRoom() returns (w: World, spawn: Option<Position>)
    ensures spawn.None? && w.Vacant() == {Position(0, 0)}
  {
    w := new World(WorldMap(2, 1, {}, map[], []), 0);
    var error := w.AddPlayer(1, Character(Position(1, 0), false, DOWN, false, Hero));
    assert w.terrain.Cells() == {Position(0, 0), Position(1, 0)};
    CellsAfterAdd(map[], 1, Character(Position(1, 0), false, DOWN, false, Hero));
    spawn := w.SpawnPosition(Position(1, 0));
  }
}
