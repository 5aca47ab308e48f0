/** The character-grid engine (js/ascii.js): a rows x cols grid of glyphs,
    seeded from the region grid and partly rewritten on each mutation pass,
    paced by a throttle on the frame timestamp. The shared animation flags
    live here and are read, never written, by the pass. Math.random() is
    replaced by grids of injected draws in [0, 1). */
module Ascii {
  import opened Portrait

  /** Minimum time between two mutation passes (ms). */
  const UPDATE_INTERVAL: real := 100.0
  /** A cell is rewritten by a pass when its selection draw is below this. */
  const FLICKER_PROBABILITY: real := 0.2
  /** Mouth glyphs while smiling. */
  const SMILE_CHARS: seq<char> := ['^', 'v', ')', '(', 'D']

  /** A snapshot of the animation flags. */
  datatype Mood = Mood(leftEyeOpen: bool, rightEyeOpen: bool, smiling: bool)

  /** Both eyes open, not smiling: the initial and resting state. */
  const NEUTRAL: Mood := Mood(true, true, false)

  /** The shared animation record `animState`: written by the scheduler,
      read by the mutation pass. */
  class AnimState {
    var leftEyeOpen: bool
    var rightEyeOpen: bool
    var smiling: bool

    constructor ()
      ensures Snapshot() == NEUTRAL
    {
      leftEyeOpen, rightEyeOpen, smiling := true, true, false;
    }

    function Snapshot(): Mood
      reads this
    {
      Mood(leftEyeOpen, rightEyeOpen, smiling)
    }
  }

  // ---------------------------------------------------------------------------
  // Glyph invariant and the per-cell rule
  // ---------------------------------------------------------------------------

  /** g is a single character taken from cs. */
  predicate IsGlyphOf(g: string, cs: seq<char>)
  {
    |g| == 1 && g[0] in cs
  }

  /** The glyphs a cell of region `code` can show: none for EMPTY and LINE;
      none or one of the eye set for an eye (a closed eye shows nothing); one
      of the mouth or smile sets for the mouth; one of its own set otherwise. */
  predicate GlyphFits(code: int, g: string)
  {
    if code == EMPTY || code == LINE then g == ""
    else if code == LEFT_EYE || code == RIGHT_EYE then g == "" || IsGlyphOf(g, CharSet(code))
    else if code == MOUTH then IsGlyphOf(g, CharSet(MOUTH)) || IsGlyphOf(g, SMILE_CHARS)
    else IsGlyphOf(g, CharSet(code))
  }

  /** A freshly drawn glyph fits its region. */
  lemma GetCharFits(code: int, rand: real)
    requires 0.0 <= rand < 1.0
    ensures GlyphFits(code, GetChar(code, rand))
  {
  }

  /** The new glyph of one cell in a mutation pass. `selected` is the cell's
      selection (its draw was below FLICKER_PROBABILITY); `rand` picks the
      character when one is drawn. */
  function CellUpdate(code: int, prev: string, selected: bool, mood: Mood, rand: real): (g: string)
    requires 0.0 <= rand < 1.0
    ensures GlyphFits(code, prev) ==> GlyphFits(code, g)
  {
    if !selected then prev
    else if code == LEFT_EYE && !mood.leftEyeOpen then ""
    else if code == RIGHT_EYE && !mood.rightEyeOpen then ""
    else if code == MOUTH && mood.smiling then [SMILE_CHARS[PickIndex(rand, |SMILE_CHARS|)]]
    else GetChar(code, rand)
  }

  /** What a pass does to one cell, case by case. */
  lemma CellUpdateCases(code: int, prev: string, selected: bool, mood: Mood, rand: real)
    requires 0.0 <= rand < 1.0
    ensures !selected ==> CellUpdate(code, prev, selected, mood, rand) == prev
    ensures selected && code == LEFT_EYE && !mood.leftEyeOpen ==>
              CellUpdate(code, prev, selected, mood, rand) == ""
    ensures selected && code == RIGHT_EYE && !mood.rightEyeOpen ==>
              CellUpdate(code, prev, selected, mood, rand) == ""
    ensures selected && code == MOUTH && mood.smiling ==>
              IsGlyphOf(CellUpdate(code, prev, selected, mood, rand), SMILE_CHARS)
    ensures selected && (code == EMPTY || code == LINE) ==>
              CellUpdate(code, prev, selected, mood, rand) == ""
    ensures selected && !(code == LEFT_EYE && !mood.leftEyeOpen) &&
            !(code == RIGHT_EYE && !mood.rightEyeOpen) && !(code == MOUTH && mood.smiling) ==>
              CellUpdate(code, prev, selected, mood, rand) == GetChar(code, rand)
  {
  }

  /** Every smile glyph is produced by some draw. */
  lemma SmileOnto(c: char, mood: Mood)
    requires c in SMILE_CHARS && mood.smiling
    ensures exists rand: real :: 0.0 <= rand < 1.0 && CellUpdate(MOUTH, "", true, mood, rand) == [c]
  {
    var i :| 0 <= i < |SMILE_CHARS| && SMILE_CHARS[i] == c;
    PickIndexOnto(i, |SMILE_CHARS|);
    assert CellUpdate(MOUTH, "", true, mood, i as real / |SMILE_CHARS| as real) == [c];
  }

  /** r is a ROWS x COLS grid of draws in [0, 1). */
  ghost predicate IsDrawGrid(r: seq<seq<real>>)
  {
    IsGrid(r) && forall y, x :: 0 <= y < ROWS && 0 <= x < COLS ==> 0.0 <= r[y][x] < 1.0
  }

  // ---------------------------------------------------------------------------
  // The engine
  // ---------------------------------------------------------------------------

  class Engine {
    /** `PORTRAIT`, whose `grid` holds the region codes. */
    const regions: RegionGrid
    const animState: AnimState
    var charGrid: seq<seq<string>>
    var lastUpdate: real

    constructor (regions: RegionGrid)
      ensures this.regions == regions && fresh(animState)
      ensures animState.Snapshot() == NEUTRAL
      ensures charGrid == [] && lastUpdate == 0.0
    {
      this.regions := regions;
      animState := new AnimState();
      charGrid := [];
      lastUpdate := 0.0;
    }

    /** Both grids have the portrait's shape and every cell's glyph fits its
        region code. (That the codes are the classifier's is RegionGrid.Init's
        promise; the pass does not depend on it.) */
    ghost predicate Valid()
      reads this, regions
    {
      IsGrid(regions.grid) && IsGrid(charGrid) &&
      forall y, x :: 0 <= y < ROWS && 0 <= x < COLS ==> GlyphFits(regions.grid[y][x], charGrid[y][x])
    }

    /** `after` is what one mutation pass makes of `before` with these draws
        and the current animation flags. */
    ghost predicate IsPassOf(after: seq<seq<string>>, before: seq<seq<string>>,
                             select: seq<seq<real>>, rand: seq<seq<real>>)
      reads this, regions, animState
      requires IsGrid(regions.grid) && IsGrid(before) && IsDrawGrid(select) && IsDrawGrid(rand)
    {
      IsGrid(after) &&
      forall y, x :: 0 <= y < ROWS && 0 <= x < COLS ==>
        after[y][x] == CellUpdate(regions.grid[y][x], before[y][x], select[y][x] < FLICKER_PROBABILITY,
                                  animState.Snapshot(), rand[y][x])
    }

    /** Seeds every cell with a fresh glyph of its region. */
    method InitCharGrid(rand: seq<seq<real>>)
      requires IsGrid(regions.grid) && IsDrawGrid(rand)
      modifies this`charGrid
      ensures IsGrid(charGrid)
      ensures forall y, x :: 0 <= y < ROWS && 0 <= x < COLS ==>
                charGrid[y][x] == GetChar(regions.grid[y][x], rand[y][x])
      ensures Valid()
    {
      charGrid := [];
      for y := 0 to ROWS
        invariant |charGrid| == y
        invariant forall j :: 0 <= j < y ==> |charGrid[j]| == COLS
        invariant forall j, x :: 0 <= j < y && 0 <= x < COLS ==>
                    charGrid[j][x] == GetChar(regions.grid[j][x], rand[j][x])
        invariant forall j, x :: 0 <= j < y && 0 <= x < COLS ==>
                    GlyphFits(regions.grid[j][x], charGrid[j][x])
      {
        var row := FreshRow(y, rand);
        charGrid := charGrid + [row];
      }
    }

    /** Row y of a freshly seeded grid: each cell a glyph of its region, drawn
        with that cell's draw, so every cell fits its region. */
    method FreshRow(y: int, rand: seq<seq<real>>) returns (row: seq<string>)
      requires 0 <= y < ROWS && IsGrid(regions.grid) && IsDrawGrid(rand)
      ensures |row| == COLS
      ensures forall x :: 0 <= x < COLS ==> row[x] == GetChar(regions.grid[y][x], rand[y][x])
      ensures forall x :: 0 <= x < COLS ==> GlyphFits(regions.grid[y][x], row[x])
    {
      row := [];
      for x := 0 to COLS
        invariant |row| == x
        invariant forall i :: 0 <= i < x ==> row[i] == GetChar(regions.grid[y][i], rand[y][i])
        invariant forall i :: 0 <= i < x ==> GlyphFits(regions.grid[y][i], row[i])
      {
        var regionCode := regions.grid[y][x];
        GetCharFits(regionCode, rand[y][x]);
        row := row + [GetChar(regionCode, rand[y][x])];
      }
    }

    /** One mutation pass: every selected cell is redrawn (a closed eye shows
        nothing, a smiling mouth shows a smile glyph); the rest keep theirs. */
    method UpdateChars(select: seq<seq<real>>, rand: seq<seq<real>>)
      requires Valid() && IsDrawGrid(select) && IsDrawGrid(rand)
      modifies this`charGrid
      ensures Valid()
      ensures IsPassOf(charGrid, old(charGrid), select, rand)
      ensures animState.Snapshot() == old(animState.Snapshot())
    {
      ghost var before := charGrid;
      for y := 0 to ROWS
        invariant IsGrid(charGrid)
        invariant forall j, x :: 0 <= j < y && 0 <= x < COLS ==>
                    charGrid[j][x] == CellUpdate(regions.grid[j][x], before[j][x],
                                                 select[j][x] < FLICKER_PROBABILITY,
                                                 animState.Snapshot(), rand[j][x])
        invariant forall j :: y <= j < ROWS ==> charGrid[j] == before[j]
      {
        UpdateRow(y, select, rand);
      }
    }

    /** The pass over row y; every other row keeps its glyphs. */
    method UpdateRow(y: int, select: seq<seq<real>>, rand: seq<seq<real>>)
      requires 0 <= y < ROWS
      requires IsGrid(regions.grid) && IsGrid(charGrid) && IsDrawGrid(select) && IsDrawGrid(rand)
      modifies this`charGrid
      ensures IsGrid(charGrid)
      ensures forall j :: 0 <= j < ROWS && j != y ==> charGrid[j] == old(charGrid)[j]
      ensures forall x :: 0 <= x < COLS ==>
                charGrid[y][x] == CellUpdate(regions.grid[y][x], old(charGrid)[y][x],
                                             select[y][x] < FLICKER_PROBABILITY,
                                             animState.Snapshot(), rand[y][x])
    {
      for x := 0 to COLS
        invariant IsGrid(charGrid)
        invariant forall j :: 0 <= j < ROWS && j != y ==> charGrid[j] == old(charGrid)[j]
        invariant forall i :: 0 <= i < x ==>
                    charGrid[y][i] == CellUpdate(regions.grid[y][i], old(charGrid)[y][i],
                                                 select[y][i] < FLICKER_PROBABILITY,
                                                 animState.Snapshot(), rand[y][i])
        invariant forall i :: x <= i < COLS ==> charGrid[y][i] == old(charGrid)[y][i]
      {
        if select[y][x] < FLICKER_PROBABILITY {
          RedrawCell(y, x, rand[y][x]);
        }
      }
    }

    /** The pass's work on selected cell (x, y): a closed eye goes blank, a
        smiling mouth takes a smile glyph, any other cell a fresh glyph of its
        region. Nothing else in the grid changes. */
    method RedrawCell(y: int, x: int, rand: real)
      requires IsGrid(regions.grid) && IsGrid(charGrid)
      requires 0 <= y < ROWS && 0 <= x < COLS && 0.0 <= rand < 1.0
      modifies this`charGrid
      ensures charGrid == old(charGrid)[y := old(charGrid)[y][x :=
                CellUpdate(regions.grid[y][x], old(charGrid)[y][x], true, animState.Snapshot(), rand)]]
    {
      var regionCode := regions.grid[y][x];
      if regionCode == LEFT_EYE && !animState.leftEyeOpen {
        charGrid := charGrid[y := charGrid[y][x := ""]];
        return;
      }
      if regionCode == RIGHT_EYE && !animState.rightEyeOpen {
        charGrid := charGrid[y := charGrid[y][x := ""]];
        return;
      }
      if regionCode == MOUTH && animState.smiling {
        var smile := [SMILE_CHARS[PickIndex(rand, |SMILE_CHARS|)]];
        charGrid := charGrid[y := charGrid[y][x := smile]];
        return;
      }
      charGrid := charGrid[y := charGrid[y][x := GetChar(regionCode, rand)]];
    }

    /** One frame's throttle: run a mutation pass, and record the timestamp,
        only when more than UPDATE_INTERVAL has passed since the last one. */
    method Render(timestamp: real, select: seq<seq<real>>, rand: seq<seq<real>>)
      requires Valid() && IsDrawGrid(select) && IsDrawGrid(rand)
      modifies this`charGrid, this`lastUpdate
      ensures Valid()
      ensures timestamp - old(lastUpdate) > UPDATE_INTERVAL ==>
                lastUpdate == timestamp && IsPassOf(charGrid, old(charGrid), select, rand)
      ensures timestamp - old(lastUpdate) <= UPDATE_INTERVAL ==>
                lastUpdate == old(lastUpdate) && charGrid == old(charGrid)
    {
      if timestamp - lastUpdate > UPDATE_INTERVAL {
        UpdateChars(select, rand);
        lastUpdate := timestamp;
      }
    }
  }
}
