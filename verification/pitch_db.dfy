/**
 * Pixel-pitch catalogue: pixels along 500 mm of tile for each catalogued
 * pitch, with `floor(500 / pitch)` for pitches the catalogue lacks.
 */
module PitchDb {
  import opened Base

  datatype PitchEntry = PitchEntry(pixelsPer500mm: int, pitchActualMm: real)

  const Table: map<real, PitchEntry> := map[
    1.5 := PitchEntry(320, 1.562),
    1.9 := PitchEntry(256, 1.953),
    2.6 := PitchEntry(192, 2.604),
    2.9 := PitchEntry(168, 2.976),
    3.9 := PitchEntry(128, 3.906),
    4.8 := PitchEntry(104, 4.807)
  ]

  /** The catalogued pitches in increasing order. */
  const Pitches: seq<real> := [1.5, 1.9, 2.6, 2.9, 3.9, 4.8]

  /** Pixels per 500 mm for a pitch; a pitch of zero would divide by zero. */
  function GetPixelsPer500mm(pitchMm: real): (px: int)
    requires pitchMm != 0.0
    ensures pitchMm in Table ==> px == Table[pitchMm].pixelsPer500mm
    ensures pitchMm !in Table ==> px as real <= 500.0 / pitchMm < px as real + 1.0
  {
    if pitchMm in Table then Table[pitchMm].pixelsPer500mm else Floor(500.0 / pitchMm)
  }

  /** The ordered list names exactly the catalogue's keys. */
  lemma PitchesAreTheKeys(p: real)
    ensures p in Table <==> p in Pitches
  {
  }

  /** Inside the catalogue, a coarser pitch has strictly fewer pixels. */
  lemma TableStrictlyDecreasing(i: int, j: int)
    requires 0 <= i < j < |Pitches|
    ensures Pitches[i] < Pitches[j]
    ensures Table[Pitches[i]].pixelsPer500mm > Table[Pitches[j]].pixelsPer500mm
  {
  }

  /** Outside the catalogue, a coarser positive pitch never has more pixels. */
  lemma {:induction false} FallbackNonIncreasing(p: real, q: real)
    requires 0.0 < p <= q
    requires p !in Table && q !in Table
    ensures GetPixelsPer500mm(q) <= GetPixelsPer500mm(p)
  {
    assert 500.0 / q <= 500.0 / p by {
      assert 500.0 / q * q == 500.0;
      assert 500.0 / p * p == 500.0;
    }
    FloorMonotone(500.0 / q, 500.0 / p);
  }

  /**
   * Across the catalogue/fallback boundary the order breaks: the coarser
   * uncatalogued pitch 1.52 yields more pixels than the catalogued 1.5.
   */
  lemma MonotonicityBreaksAtBoundary()
    ensures 1.52 !in Table
    ensures GetPixelsPer500mm(1.5) == 320
    ensures GetPixelsPer500mm(1.52) == 328
  {
    assert 328.0 <= 500.0 / 1.52 < 329.0;
  }
}
