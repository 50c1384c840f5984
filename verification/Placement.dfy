/** The map of cells and the breadth-first search that places loot, dropped items and teleports. */
module Placement {
  import opened Prelude

  datatype Position = Position(x: int, y: int)

  datatype ZoneType = ALL | CITY | DUNGEON

  datatype Zone = Zone(kind: ZoneType, safe: bool)

  datatype City = City(priest: Position, merchant: Position, banker: Position)

  function Abs(n: int): nat {
    if n < 0 then -n else n
  }

  function Distance(p: Position, q: Position): nat {
    Abs(p.x - q.x) + Abs(p.y - q.y)
  }

  /** A loaded map: blocking cells, and for each cell the zone it lies in, if any. */
  datatype WorldMap = WorldMap(
    width: nat, height: nat, walls: set<Position>, zones: map<Position, Zone>, cities: seq<City>)
  {
    predicate IsValid(p: Position) {
      0 <= p.x < width && 0 <= p.y < height
    }

    predicate IsBlocked(p: Position) {
      !IsValid(p) || p in walls
    }

    predicate IsSafe(p: Position) {
      IsValid(p) && p in zones && zones[p].safe
    }

    function ZoneTypeAt(p: Position): ZoneType {
      if IsValid(p) && p in zones then zones[p].kind else ALL
    }

    ghost function Cells(): set<Position> {
      set x: int, y: int | 0 <= x < width && 0 <= y < height :: Position(x, y)
    }
  }

  /** Blocked are the walls and all that is off the map; off it, and where no zone is, nothing is safe. */
  lemma GroundMeans(m: WorldMap, x: int, y: int)
    ensures m.IsBlocked(Position(x, y)) <==>
              x < 0 || y < 0 || m.width <= x || m.height <= y || Position(x, y) in m.walls
    ensures m.IsSafe(Position(x, y)) ==> 0 <= x < m.width && 0 <= y < m.height && Position(x, y) in m.zones
    ensures 0 <= x < m.width && 0 <= y < m.height && Position(x, y) in m.zones ==>
              && (m.IsSafe(Position(x, y)) <==> m.zones[Position(x, y)].safe)
              && m.ZoneTypeAt(Position(x, y)) == m.zones[Position(x, y)].kind
  {
  }

  /** As many columns and rows apart as it takes steps, and each neighbour is one step away. */
  lemma StepsApart(x: int, y: int, a: nat, b: nat)
    ensures var here, there, other := Position(x, y), Position(x + a, y + b), Position(x - a, y + b);
            && Distance(here, there) == a + b == Distance(there, here)
            && Distance(here, other) == a + b == Distance(other, here)
    ensures forall p :: p in Neighbors(Position(x, y)) <==> Distance(Position(x, y), p) == 1
  {
    forall p | Distance(Position(x, y), p) == 1 ensures p in Neighbors(Position(x, y)) {
      assert p in [Position(x, y - 1), Position(x, y + 1), Position(x - 1, y), Position(x + 1, y)];
    }
  }

  /** Up, down, left, right: the order in which the search looks at them. */
  function Neighbors(p: Position): seq<Position> {
    [Position(p.x, p.y - 1), Position(p.x, p.y + 1), Position(p.x - 1, p.y), Position(p.x + 1, p.y)]
  }

  /** One step from p towards start; it never leaves the rectangle the two span. */
  ghost function Towards(start: Position, p: Position): Position {
    if p.x < start.x then Position(p.x + 1, p.y)
    else if p.x > start.x then Position(p.x - 1, p.y)
    else if p.y < start.y then Position(p.x, p.y + 1)
    else Position(p.x, p.y - 1)
  }

  lemma TowardsIsCloser(m: WorldMap, start: Position, p: Position)
    requires m.IsValid(start) && m.IsValid(p) && p != start
    ensures m.IsValid(Towards(start, p))
    ensures Distance(start, Towards(start, p)) == Distance(start, p) - 1
    ensures p in Neighbors(Towards(start, p))
  {
  }

  /** Every cell the search is done with has had all its valid neighbours visited. */
  ghost predicate Expanded(m: WorldMap, done: set<Position>, visited: set<Position>) {
    forall p, n | p in done && n in Neighbors(p) && m.IsValid(n) :: n in visited
  }

  /** A cell closer than everything still queued is already done with. */
  lemma {:induction false} CloserCellsAreDone(
      m: WorldMap, start: Position, done: set<Position>, queue: seq<Position>, bound: nat, p: Position)
    requires m.IsValid(start) && m.IsValid(p)
    requires start in done || start in queue
    requires Expanded(m, done, done + set q | q in queue)
    requires forall q | q in queue :: bound <= Distance(start, q)
    requires Distance(start, p) < bound
    ensures p in done
    decreases Distance(start, p)
  {
    if p != start {
      TowardsIsCloser(m, start, p);
      CloserCellsAreDone(m, start, done, queue, bound, Towards(start, p));
      assert p in done + set q | q in queue;
    }
  }

  lemma CloserAllDone(m: WorldMap, start: Position, done: set<Position>, queue: seq<Position>, bound: nat)
    requires m.IsValid(start) && (start in done || start in queue)
    requires Expanded(m, done, done + set q | q in queue)
    requires forall q | q in queue :: bound <= Distance(start, q)
    ensures forall p | m.IsValid(p) && Distance(start, p) < bound :: p in done
  {
    forall p | m.IsValid(p) && Distance(start, p) < bound ensures p in done {
      CloserCellsAreDone(m, start, done, queue, bound, p);
    }
  }

  lemma DistanceToNeighbor(start: Position, p: Position, n: Position)
    requires n in Neighbors(p)
    ensures Distance(start, n) == Distance(start, p) + 1 || Distance(start, n) == Distance(start, p) - 1
  {
  }

  ghost predicate Distinct<T>(s: seq<T>) {
    forall i, j | 0 <= i < j < |s| :: s[i] != s[j]
  }

  /** The free cell of a search: not a wall, and accepted by the caller's condition. */
  ghost predicate IsFree(m: WorldMap, accepts: Position -> bool, p: Position) {
    !m.IsBlocked(p) && accepts(p)
  }

  ghost predicate Sorted(start: Position, queue: seq<Position>) {
    forall i, j | 0 <= i < j < |queue| :: Distance(start, queue[i]) <= Distance(start, queue[j])
  }

  /** The state of the search at the head of its loop. */
  ghost predicate SearchState(m: WorldMap, start: Position, done: set<Position>,
                              queue: seq<Position>, visited: set<Position>)
  {
    && visited == done + (set q | q in queue)
    && visited <= m.Cells()
    && Distinct(queue)
    && (forall q | q in queue :: q !in done)
    && (m.IsValid(start) ==> start in visited)
    && Sorted(start, queue)
  }

  lemma Dequeued(m: WorldMap, start: Position, done: set<Position>, queue: seq<Position>, visited: set<Position>)
    requires queue != [] && SearchState(m, start, done, queue, visited)
    ensures SearchState(m, start, done + {queue[0]}, queue[1..], visited)
    ensures queue[0] in m.Cells() && queue[0] !in done && done + {queue[0]} - {queue[0]} == done
    ensures forall q | q in queue[1..] :: q in queue && Distance(start, queue[0]) <= Distance(start, q)
  {
  }

  /** Enqueues the unvisited valid neighbours of curr, which all lie one step further from start. */
  method Expand(m: WorldMap, start: Position, ghost done: set<Position>, curr: Position,
                queue: seq<Position>, visited: set<Position>)
    returns (queue': seq<Position>, visited': set<Position>)
    requires m.IsValid(start) && curr in done
    requires SearchState(m, start, done, queue, visited)
    requires Expanded(m, done - {curr}, visited)
    requires forall q | q in queue :: Distance(start, curr) <= Distance(start, q) <= Distance(start, curr) + 1
    requires forall p | m.IsValid(p) && Distance(start, p) < Distance(start, curr) :: p in done
    ensures SearchState(m, start, done, queue', visited')
    ensures Expanded(m, done, visited')
    ensures forall q | q in queue' :: Distance(start, curr) <= Distance(start, q) <= Distance(start, curr) + 1
  {
    queue', visited' := queue, visited;
    var neighbors := Neighbors(curr);
    for k := 0 to |neighbors|
      invariant SearchState(m, start, done, queue', visited')
      invariant visited <= visited'
      invariant forall j | 0 <= j < k :: m.IsValid(neighbors[j]) ==> neighbors[j] in visited'
      invariant forall q | q in queue' :: Distance(start, curr) <= Distance(start, q) <= Distance(start, curr) + 1
    {
      var n := neighbors[k];
      if m.IsValid(n) && n !in visited' {
        DistanceToNeighbor(start, curr, n);
        assert n in m.Cells();
        queue', visited' := queue' + [n], visited' + {n};
      }
    }
  }

  /** A free cell nearest to start, or None. */
  method FindClosestFree(m: WorldMap, start: Position, accepts: Position -> bool)
    returns (found: Option<Position>)
    ensures found.None? <==> !m.IsValid(start) || forall p :: !IsFree(m, accepts, p)
    ensures found.Some? ==> IsFree(m, accepts, found.value)
    ensures found.Some? ==>
              forall p | IsFree(m, accepts, p) :: Distance(start, found.value) <= Distance(start, p)
  {
    var queue: seq<Position>, visited: set<Position> := [], {};
    ghost var done: set<Position> := {};
    if m.IsValid(start) {
      assert start in m.Cells();
      queue, visited := [start], {start};
    }
    while queue != []
      invariant m.IsValid(start) || queue == []
      invariant SearchState(m, start, done, queue, visited)
      invariant Expanded(m, done, visited)
      invariant queue != [] ==>
                  forall q | q in queue :: Distance(start, q) <= Distance(start, queue[0]) + 1
      invariant forall p | p in done :: !IsFree(m, accepts, p)
      decreases m.Cells() - done
    {
      var curr := queue[0];
      Dequeued(m, start, done, queue, visited);
      CloserAllDone(m, start, done, queue, Distance(start, curr));
      if !m.IsBlocked(curr) && accepts(curr) {
        assert IsFree(m, accepts, curr);
        return Some(curr);
      }
      queue := queue[1..];
      done := done + {curr};
      queue, visited := Expand(m, start, done, curr, queue, visited);
    }
    if m.IsValid(start) {
      forall p | m.IsValid(p) ensures p in done {
        CloserCellsAreDone(m, start, done, queue, Distance(start, p) + 1, p);
      }
    }
    return None;
  }
}
