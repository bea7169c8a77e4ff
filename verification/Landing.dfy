// Where a teleport to a structure lands: the nearest open cell of a bounded
// window, decided alike for both sides of the point-mirrored map.
module Landing {
  import opened Geometry
  import opened Passability

  datatype Team = Radiant | Dire | Neutral

  /** Cells scanned on each side of the structure. */
  const LANDING_SEARCH_CELLS: nat := 10

  // ---------------------------------------------------------------- positions

  function CellCenter(x: nat, y: nat): Vec2 { Vec2(CenterRaw(x), CenterRaw(y)) }

  /** Last raw coordinate of the map. */
  function MapMaximum(axis: nat): int { axis * CELL_RAW - 1 }

  /** The point mirror of a position. */
  function Mirror(axis: nat, position: Vec2): Vec2 {
    Vec2(MapMaximum(axis) - position.x, MapMaximum(axis) - position.y)
  }

  /** Landing point of a cell: its centre, for Dire the mirror of the mirrored cell's centre. */
  function CanonicalPosition(axis: nat, x: nat, y: nat, team: Team): Vec2
    requires x < axis && y < axis
  {
    if team != Dire then CellCenter(x, y) else Mirror(axis, CellCenter(axis - 1 - x, axis - 1 - y))
  }

  function DireShift(team: Team): nat { if team == Dire then 1 else 0 }

  /** The incremental coordinate of the search is the canonical position's. */
  lemma CanonicalIsShifted(axis: nat, x: nat, y: nat, team: Team)
    requires x < axis && y < axis
    ensures CanonicalPosition(axis, x, y, team) == Vec2(CenterRaw(x) - DireShift(team), CenterRaw(y) - DireShift(team))
  {
  }

  /** The landing point lies in the cell it stands for. */
  lemma CanonicalLiesInCell(axis: nat, x: nat, y: nat, team: Team)
    requires x < axis && y < axis
    ensures CellXY(axis, CanonicalPosition(axis, x, y, team)) == Some((x, y))
  {
    CanonicalIsShifted(axis, x, y, team);
  }

  // ---------------------------------------------------------------- the choice

  function CanonicalIndex(axis: nat, x: nat, y: nat, team: Team): nat
    requires x < axis && y < axis
  {
    if team == Dire then axis * axis - 1 - CellIndex(axis, x, y) else CellIndex(axis, x, y)
  }

  /** Radiant counts cells row by row from the origin and lands in their middle; Dire counts from the far corner and lands one raw unit before it. */
  lemma SidesCount(axis: nat, x: nat, y: nat)
    requires x < axis && y < axis
    ensures CanonicalIndex(axis, x, y, Radiant) == CanonicalIndex(axis, x, y, Neutral) == y * axis + x
    ensures CanonicalIndex(axis, x, y, Dire) == (axis - 1 - y) * axis + (axis - 1 - x)
    ensures CanonicalPosition(axis, x, y, Radiant) == CanonicalPosition(axis, x, y, Neutral)
         == Vec2(x * 64 * 65536 + 32 * 65536, y * 64 * 65536 + 32 * 65536)
    ensures CanonicalPosition(axis, x, y, Dire) == Vec2(x * 64 * 65536 + 32 * 65536 - 1, y * 64 * 65536 + 32 * 65536 - 1)
  {
    CanonicalIsShifted(axis, x, y, Dire);
    assert (axis - 1 - y) * axis == axis * axis - axis - y * axis;
  }

  function SquaredDistance(a: Vec2, b: Vec2): nat { Square(a.x - b.x) + Square(a.y - b.y) }

  datatype Site = Site(x: nat, y: nat)

  predicate InWindow(axis: nat, center: Vec2, site: Site) {
    CellXY(axis, center).Some? &&
    var (homeX, homeY) := CellXY(axis, center).value;
    && site.x < axis && site.y < axis
    && homeX - LANDING_SEARCH_CELLS <= site.x <= homeX + LANDING_SEARCH_CELLS
    && homeY - LANDING_SEARCH_CELLS <= site.y <= homeY + LANDING_SEARCH_CELLS
  }

  predicate Candidate(axis: nat, open: seq<bool>, center: Vec2, site: Site)
    requires |open| == axis * axis
  {
    InWindow(axis, center, site) && open[CellIndex(axis, site.x, site.y)]
  }

  function Distance(axis: nat, center: Vec2, site: Site, team: Team): nat
    requires site.x < axis && site.y < axis
  {
    SquaredDistance(CanonicalPosition(axis, site.x, site.y, team), center)
  }

  /** Whether the first site is preferred: nearer, or as near with the smaller canonical index. */
  predicate Before(axis: nat, center: Vec2, a: Site, b: Site, team: Team)
    requires a.x < axis && a.y < axis && b.x < axis && b.y < axis
  {
    var da, db := Distance(axis, center, a, team), Distance(axis, center, b, team);
    da < db || (da == db && CanonicalIndex(axis, a.x, a.y, team) < CanonicalIndex(axis, b.x, b.y, team))
  }

  /** The preferred open site of the window. */
  ghost predicate IsNearest(axis: nat, open: seq<bool>, center: Vec2, team: Team, site: Site)
    requires |open| == axis * axis
  {
    && Candidate(axis, open, center, site)
    && forall other :: Candidate(axis, open, center, other) && other != site ==> Before(axis, center, site, other, team)
  }

  ghost predicate IsLanding(axis: nat, open: seq<bool>, center: Vec2, team: Team, landing: Option<Vec2>)
    requires |open| == axis * axis
  {
    match landing
    case None => forall site :: !Candidate(axis, open, center, site)
    case Some(position) =>
      exists site :: IsNearest(axis, open, center, team, site)
        && position == CanonicalPosition(axis, site.x, site.y, team)
  }

  lemma IndexDecidesSite(axis: nat, a: Site, b: Site, team: Team)
    requires a.x < axis && a.y < axis && b.x < axis && b.y < axis
    requires CanonicalIndex(axis, a.x, a.y, team) == CanonicalIndex(axis, b.x, b.y, team)
    ensures a == b
  {
    CellIndexInjective(axis, a.x, a.y, b.x, b.y);
  }

  /** At most one landing answers a search. */
  lemma LandingIsUnique(axis: nat, open: seq<bool>, center: Vec2, team: Team, a: Option<Vec2>, b: Option<Vec2>)
    requires |open| == axis * axis
    requires IsLanding(axis, open, center, team, a) && IsLanding(axis, open, center, team, b)
    ensures a == b
  {
    hide Before;
    if a.Some? && b.Some? {
      var sa :| IsNearest(axis, open, center, team, sa) && a.value == CanonicalPosition(axis, sa.x, sa.y, team);
      var sb :| IsNearest(axis, open, center, team, sb) && b.value == CanonicalPosition(axis, sb.x, sb.y, team);
      if sa != sb {
        CandidateInMap(axis, open, center, sa);
        CandidateInMap(axis, open, center, sb);
        BeforeIsStrict(axis, center, sa, sb, team);
      }
    }
  }

  lemma CandidateInMap(axis: nat, open: seq<bool>, center: Vec2, site: Site)
    requires |open| == axis * axis && Candidate(axis, open, center, site)
    ensures site.x < axis && site.y < axis && open[CellIndex(axis, site.x, site.y)]
  {
  }

  lemma BeforeIsStrict(axis: nat, center: Vec2, a: Site, b: Site, team: Team)
    requires a.x < axis && a.y < axis && b.x < axis && b.y < axis
    ensures !(Before(axis, center, a, b, team) && Before(axis, center, b, a, team))
  {
  }

  // ---------------------------------------------------------------- mirror symmetry

  function MirrorSite(axis: nat, site: Site): Site
    requires site.x < axis && site.y < axis
  {
    Site(axis - 1 - site.x, axis - 1 - site.y)
  }

  ghost predicate MirroredGrids(axis: nat, open: seq<bool>, mirrored: seq<bool>) {
    && |open| == |mirrored| == axis * axis
    && forall x: nat, y: nat :: x < axis && y < axis ==>
      mirrored[CellIndex(axis, axis - 1 - x, axis - 1 - y)] == open[CellIndex(axis, x, y)]
  }

  lemma MirrorHome(axis: nat, center: Vec2)
    ensures CellXY(axis, center).Some? <==> CellXY(axis, Mirror(axis, center)).Some?
    ensures CellXY(axis, center).Some? ==>
      var (x, y) := CellXY(axis, center).value;
      CellXY(axis, Mirror(axis, center)) == Some((axis - 1 - x, axis - 1 - y))
  {
    if CellXY(axis, center).Some? {
      var (x, y) := CellXY(axis, center).value;
      MirrorCoordinate(axis, center.x, x);
      MirrorCoordinate(axis, center.y, y);
    }
  }

  lemma MirrorCoordinate(axis: nat, raw: int, cell: nat)
    requires cell < axis && cell * CELL_RAW <= raw < (cell + 1) * CELL_RAW
    ensures (MapMaximum(axis) - raw) / ONE_RAW / TERRAIN_CELL_SIZE == axis - 1 - cell
  {
  }

  lemma MirrorIndex(axis: nat, site: Site)
    requires site.x < axis && site.y < axis
    ensures CellIndex(axis, axis - 1 - site.x, axis - 1 - site.y) == axis * axis - 1 - CellIndex(axis, site.x, site.y)
  {
    var y: nat := axis - 1 - site.y;
    assert (y + 1 + site.y) * axis == axis * axis;
    assert (y + 1 + site.y) * axis == y * axis + axis + site.y * axis;
  }

  lemma MirrorSquare(n: int)
    ensures Square(-n) == Square(n)
  {
  }

  /** Mirroring grid, centre and site turns a Radiant comparison into the Dire one. */
  lemma MirrorBefore(axis: nat, center: Vec2, a: Site, b: Site)
    requires a.x < axis && a.y < axis && b.x < axis && b.y < axis
    ensures Before(axis, center, a, b, Radiant)
      <==> Before(axis, Mirror(axis, center), MirrorSite(axis, a), MirrorSite(axis, b), Dire)
  {
    hide Square;
    MirrorDistance(axis, center, a);
    MirrorDistance(axis, center, b);
    MirrorIndex(axis, a);
    MirrorIndex(axis, b);
  }

  lemma MirrorDistance(axis: nat, center: Vec2, site: Site)
    requires site.x < axis && site.y < axis
    ensures Distance(axis, Mirror(axis, center), MirrorSite(axis, site), Dire) == Distance(axis, center, site, Radiant)
  {
    hide Square;
    MirrorSquare(CenterRaw(site.x) - center.x);
    MirrorSquare(CenterRaw(site.y) - center.y);
    assert CanonicalPosition(axis, axis - 1 - site.x, axis - 1 - site.y, Dire) == Mirror(axis, CellCenter(site.x, site.y));
  }

  lemma MirrorCandidate(axis: nat, open: seq<bool>, mirrored: seq<bool>, center: Vec2, site: Site)
    requires MirroredGrids(axis, open, mirrored) && site.x < axis && site.y < axis
    ensures Candidate(axis, open, center, site)
      <==> Candidate(axis, mirrored, Mirror(axis, center), MirrorSite(axis, site))
  {
    MirrorHome(axis, center);
  }

  /** The site preferred by Dire on the mirrored map is the mirror of Radiant's. */
  lemma MirrorNearest(axis: nat, open: seq<bool>, mirrored: seq<bool>, center: Vec2, site: Site)
    requires MirroredGrids(axis, open, mirrored) && IsNearest(axis, open, center, Radiant, site)
    ensures site.x < axis && site.y < axis
    ensures IsNearest(axis, mirrored, Mirror(axis, center), Dire, MirrorSite(axis, site))
  {
    hide Before;
    CandidateInMap(axis, open, center, site);
    MirrorCandidate(axis, open, mirrored, center, site);
    forall other | Candidate(axis, mirrored, Mirror(axis, center), other) && other != MirrorSite(axis, site)
      ensures other.x < axis && other.y < axis
      ensures Before(axis, Mirror(axis, center), MirrorSite(axis, site), other, Dire)
    {
      CandidateInMap(axis, mirrored, Mirror(axis, center), other);
      var back := MirrorSite(axis, other);
      assert MirrorSite(axis, back) == other;
      MirrorCandidate(axis, open, mirrored, center, back);
      MirrorBefore(axis, center, site, back);
    }
  }

  /**
   * Both sides land alike: a Dire search on the point-mirrored grid and centre
   * answers with the mirror image of the Radiant landing.
   */
  lemma LandingIsMirrored(axis: nat, open: seq<bool>, mirrored: seq<bool>, center: Vec2, landing: Option<Vec2>)
    requires MirroredGrids(axis, open, mirrored) && IsLanding(axis, open, center, Radiant, landing)
    ensures IsLanding(axis, mirrored, Mirror(axis, center), Dire,
                      if landing.Some? then Some(Mirror(axis, landing.value)) else None)
  {
    hide Before;
    if landing.Some? {
      var site :| IsNearest(axis, open, center, Radiant, site)
        && landing.value == CanonicalPosition(axis, site.x, site.y, Radiant);
      MirrorNearest(axis, open, mirrored, center, site);
      assert CanonicalPosition(axis, axis - 1 - site.x, axis - 1 - site.y, Dire) == Mirror(axis, landing.value);
    } else {
      forall site ensures !Candidate(axis, mirrored, Mirror(axis, center), site) {
        if Candidate(axis, mirrored, Mirror(axis, center), site) {
          CandidateInMap(axis, mirrored, Mirror(axis, center), site);
          MirrorCandidate(axis, open, mirrored, center, MirrorSite(axis, site));
        }
      }
    }
  }

  // ---------------------------------------------------------------- the search

  /** Best site so far with its distance and canonical index. */
  datatype Best = Best(distance: nat, index: nat, site: Site)

  predicate Scanned(site: Site, rows: nat, columns: nat) {
    site.y < rows || (site.y == rows && site.x < columns)
  }

  /** The running best is the preferred one of the candidates scanned. */
  ghost predicate BestSoFar(axis: nat, open: seq<bool>, center: Vec2, team: Team, best: Option<Best>, rows: nat, columns: nat)
    requires |open| == axis * axis
  {
    match best
    case None => forall site :: Candidate(axis, open, center, site) ==> !Scanned(site, rows, columns)
    case Some(b) =>
      && Candidate(axis, open, center, b.site) && Scanned(b.site, rows, columns)
      && b.distance == Distance(axis, center, b.site, team)
      && b.index == CanonicalIndex(axis, b.site.x, b.site.y, team)
      && forall other :: Candidate(axis, open, center, other) && Scanned(other, rows, columns) && other != b.site ==>
           Before(axis, center, b.site, other, team)
  }

  /** Distances are measured to the landing point, one coordinate at a time. */
  lemma DistanceParts(axis: nat, center: Vec2, x: nat, y: nat, team: Team)
    requires x < axis && y < axis
    ensures Distance(axis, center, Site(x, y), team)
         == Square(CenterRaw(x) - DireShift(team) - center.x) + Square(CenterRaw(y) - DireShift(team) - center.y)
  {
    hide Square;
    CanonicalIsShifted(axis, x, y, team);
  }

  lemma BeforeTransitive(axis: nat, center: Vec2, a: Site, b: Site, c: Site, team: Team)
    requires a.x < axis && a.y < axis && b.x < axis && b.y < axis && c.x < axis && c.y < axis
    requires Before(axis, center, a, b, team) && Before(axis, center, b, c, team)
    ensures Before(axis, center, a, c, team)
  {
    hide Distance, CanonicalIndex;
  }

  lemma BeforeTotal(axis: nat, center: Vec2, a: Site, b: Site, team: Team)
    requires a.x < axis && a.y < axis && b.x < axis && b.y < axis && a != b
    ensures Before(axis, center, a, b, team) || Before(axis, center, b, a, team)
  {
    hide Distance;
    if CanonicalIndex(axis, a.x, a.y, team) == CanonicalIndex(axis, b.x, b.y, team) {
      IndexDecidesSite(axis, a, b, team);
    }
  }

  /** Scanning a cell that is not a candidate. */
  lemma ScanClosed(axis: nat, open: seq<bool>, center: Vec2, team: Team, best: Option<Best>, x: nat, y: nat)
    requires |open| == axis * axis && BestSoFar(axis, open, center, team, best, y, x)
    requires !Candidate(axis, open, center, Site(x, y))
    ensures BestSoFar(axis, open, center, team, best, y, x + 1)
  {
    hide Before, Distance, CanonicalIndex, Candidate;
    forall site | Candidate(axis, open, center, site) && Scanned(site, y, x + 1) ensures Scanned(site, y, x) {
      assert site != Site(x, y);
    }
  }

  /** Scanning a candidate: it takes over exactly when it is preferred. */
  lemma ScanOpen(axis: nat, open: seq<bool>, center: Vec2, team: Team, best: Option<Best>, x: nat, y: nat)
    requires |open| == axis * axis && BestSoFar(axis, open, center, team, best, y, x)
    requires Candidate(axis, open, center, Site(x, y))
    ensures var d, index := Distance(axis, center, Site(x, y), team), CanonicalIndex(axis, x, y, team);
      BestSoFar(axis, open, center, team,
                if best.None? || d < best.value.distance || (d == best.value.distance && index < best.value.index)
                then Some(Best(d, index, Site(x, y))) else best, y, x + 1)
  {
    hide Distance, CanonicalIndex, InWindow, Before;
    var site := Site(x, y);
    forall other | Candidate(axis, open, center, other) && Scanned(other, y, x + 1) && other != site
      ensures Scanned(other, y, x)
    {
      assert other.y == y ==> other.x != x;
    }
    if best.Some? {
      CandidateInMap(axis, open, center, best.value.site);
      CandidateInMap(axis, open, center, site);
      assert Scanned(best.value.site, y, x) && !Scanned(site, y, x);
      BeforeTotal(axis, center, best.value.site, site, team);
      BeforeMeans(axis, center, site, best.value.site, team);
      BeforeIsStrict(axis, center, site, best.value.site, team);
      if Before(axis, center, site, best.value.site, team) {
        forall other | Candidate(axis, open, center, other) && Scanned(other, y, x) && other != best.value.site
          ensures other.x < axis && other.y < axis
          ensures Before(axis, center, site, other, team)
        {
          CandidateInMap(axis, open, center, other);
          BeforeTransitive(axis, center, site, best.value.site, other, team);
        }
      }
    }
  }

  lemma BeforeMeans(axis: nat, center: Vec2, a: Site, b: Site, team: Team)
    requires a.x < axis && a.y < axis && b.x < axis && b.y < axis
    ensures Before(axis, center, a, b, team) <==>
      var da, db := Distance(axis, center, a, team), Distance(axis, center, b, team);
      da < db || (da == db && CanonicalIndex(axis, a.x, a.y, team) < CanonicalIndex(axis, b.x, b.y, team))
  {
  }

  /** The scan may jump over cells outside the window. */
  lemma ScanSkips(axis: nat, open: seq<bool>, center: Vec2, team: Team, best: Option<Best>,
                  rows: nat, columns: nat, toRows: nat, toColumns: nat)
    requires |open| == axis * axis && BestSoFar(axis, open, center, team, best, rows, columns)
    requires forall site :: InWindow(axis, center, site) ==>
      (Scanned(site, rows, columns) <==> Scanned(site, toRows, toColumns))
    ensures BestSoFar(axis, open, center, team, best, toRows, toColumns)
  {
    hide Before, Distance, CanonicalIndex, InWindow, Scanned;
  }

  lemma NothingScanned(axis: nat, open: seq<bool>, center: Vec2, team: Team)
    requires |open| == axis * axis
    ensures BestSoFar(axis, open, center, team, None, 0, 0)
  {
  }

  lemma AllScanned(axis: nat, open: seq<bool>, center: Vec2, team: Team, best: Option<Best>)
    requires |open| == axis * axis && BestSoFar(axis, open, center, team, best, axis, 0)
    ensures best.Some? ==> best.value.site.x < axis && best.value.site.y < axis
    ensures IsLanding(axis, open, center, team,
                      if best.None? then None
                      else Some(CanonicalPosition(axis, best.value.site.x, best.value.site.y, team)))
  {
    hide Before, Distance, CanonicalIndex;
    assert forall site :: Candidate(axis, open, center, site) ==> Scanned(site, axis, 0);
    if best.Some? {
      assert IsNearest(axis, open, center, team, best.value.site);
    }
  }

  /** One row of the window, left to right. */
  method SearchRow(axis: nat, open: seq<bool>, center: Vec2, team: Team, y: nat, startX: nat, endX: nat, before: Option<Best>)
    returns (best: Option<Best>)
    requires |open| == axis * axis && y < axis && startX <= endX < axis
    requires forall x :: startX <= x <= endX ==> InWindow(axis, center, Site(x, y))
    requires BestSoFar(axis, open, center, team, before, y, startX)
    ensures BestSoFar(axis, open, center, team, best, y, endX + 1)
  {
    hide BestSoFar, Distance, CanonicalIndex, Square, InWindow;
    best := before;
    var deltaYSquared := Square(CenterRaw(y) - DireShift(team) - center.y);
    var row := y * axis;
    var rawX := CenterRaw(startX) - DireShift(team);
    for x := startX to endX + 1
      invariant rawX == CenterRaw(x) - DireShift(team)
      invariant BestSoFar(axis, open, center, team, best, y, x)
    {
      var deltaX := rawX - center.x;
      rawX := rawX + CELL_RAW;
      CellBound(axis, x, y);
      if !open[row + x] {
        ScanClosed(axis, open, center, team, best, x, y);
        continue;
      }
      ScanOpen(axis, open, center, team, best, x, y);
      DistanceParts(axis, center, x, y, team);
      var distance := Square(deltaX) + deltaYSquared;
      var index := CanonicalIndex(axis, x, y, team);
      if best.None? || distance < best.value.distance || (distance == best.value.distance && index < best.value.index) {
        best := Some(Best(distance, index, Site(x, y)));
      }
    }
  }

  /** Landing point of the preferred open cell near the structure, if there is one. */
  method NearestLandingCell(axis: nat, open: seq<bool>, center: Vec2, team: Team) returns (landing: Option<Vec2>)
    requires |open| == axis * axis
    ensures IsLanding(axis, open, center, team, landing)
  {
    hide BestSoFar, Distance, CanonicalIndex, Before;
    var home := CellXY(axis, center);
    if home.None? {
      return None;
    }
    var (homeX, homeY) := home.value;
    var startX, endX := WindowStart(homeX, LANDING_SEARCH_CELLS), WindowEnd(homeX, LANDING_SEARCH_CELLS, axis);
    var startY, endY := WindowStart(homeY, LANDING_SEARCH_CELLS), WindowEnd(homeY, LANDING_SEARCH_CELLS, axis);
    var best: Option<Best> := None;
    NothingScanned(axis, open, center, team);
    ScanSkips(axis, open, center, team, best, 0, 0, startY, 0);
    for y := startY to endY + 1
      invariant BestSoFar(axis, open, center, team, best, y, 0)
    {
      ScanSkips(axis, open, center, team, best, y, 0, y, startX);
      best := SearchRow(axis, open, center, team, y, startX, endX, best);
      ScanSkips(axis, open, center, team, best, y, endX + 1, y + 1, 0);
    }
    ScanSkips(axis, open, center, team, best, endY + 1, 0, axis, 0);
    AllScanned(axis, open, center, team, best);
    if best.None? {
      return None;
    }
    landing := Some(CanonicalPosition(axis, best.value.site.x, best.value.site.y, team));
  }

  /** The landing lies in an open cell of the window around the structure. */
  lemma LandingIsOpen(axis: nat, open: seq<bool>, center: Vec2, team: Team, position: Vec2)
    requires |open| == axis * axis && IsLanding(axis, open, center, team, Some(position))
    ensures CellXY(axis, position).Some?
    ensures var (x, y) := CellXY(axis, position).value;
      open[CellIndex(axis, x, y)] && InWindow(axis, center, Site(x, y))
  {
    hide Before;
    var site :| IsNearest(axis, open, center, team, site) && position == CanonicalPosition(axis, site.x, site.y, team);
    CanonicalLiesInCell(axis, site.x, site.y, team);
  }
}
