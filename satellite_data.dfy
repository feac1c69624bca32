/** The fill loop of `generate_mock_satellite_data`: a 34 x 34 grid, each
    cell an exponential decay of its distance from cell (17, 17) plus one
    Gaussian noise draw, floored at zero. The decay and the draws are inputs:
    `decay` maps a cell's squared distance from the centre to its base value
    (Python's `0.0002 * exp(-sqrt(d) / 10)`), and `noises` holds the draws in
    the row-major order the loop takes them. */
module SatelliteData {

  const Height := 34
  const Width := 34
  /** `height / 2` and `width / 2`, which are whole numbers here. */
  const CenterRow := 17
  const CenterCol := 17

  /** `(i - height/2)**2 + (j - width/2)**2`, the square of the distance the
      source takes the root of. */
  function SqDistFromCenter(i: int, j: int): (d: int)
    ensures d >= 0
    ensures d == 0 <==> i == CenterRow && j == CenterCol
  {
    (i - CenterRow) * (i - CenterRow) + (j - CenterCol) * (j - CenterCol)
  }

  /** `max(0, x)`. */
  function FloorAtZero(x: real): (y: real)
    ensures y >= 0.0
    ensures x >= 0.0 ==> y == x
    ensures x < 0.0 ==> y == 0.0
  {
    if x > 0.0 then x else 0.0
  }

  /** The value the loop stores at cell (i, j). */
  function CellValue(decay: int -> real, noises: seq<real>, i: nat, j: nat): real
    requires i < Height && j < Width && |noises| == Height * Width
  {
    FloorAtZero(decay(SqDistFromCenter(i, j)) + noises[i * Width + j])
  }

  method GenerateMockSatelliteData(decay: int -> real, noises: seq<real>) returns (grid: array2<real>)
    requires |noises| == Height * Width
    ensures fresh(grid)
    ensures grid.Length0 == Height && grid.Length1 == Width
    ensures forall i, j :: 0 <= i < Height && 0 <= j < Width ==>
      grid[i, j] == CellValue(decay, noises, i, j) && grid[i, j] >= 0.0
  {
    // np.zeros((height, width))
    grid := new real[Height, Width]((i, j) => 0.0);
    var i := 0;
    while i < Height
      invariant 0 <= i <= Height
      invariant forall a, b :: 0 <= a < i && 0 <= b < Width ==> grid[a, b] == CellValue(decay, noises, a, b)
    {
      var j := 0;
      while j < Width
        invariant 0 <= j <= Width
        invariant forall a, b :: 0 <= a < i && 0 <= b < Width ==> grid[a, b] == CellValue(decay, noises, a, b)
        invariant forall b :: 0 <= b < j ==> grid[i, b] == CellValue(decay, noises, i, b)
      {
        assert i * Width + j < Height * Width;
        var baseValue := decay(SqDistFromCenter(i, j));
        var noise := noises[i * Width + j];
        grid[i, j] := FloorAtZero(baseValue + noise);
        j := j + 1;
      }
      i := i + 1;
    }
  }

  /** The centre of the decay is cell (17, 17), half a cell off the middle
      of an even-sized grid: opposite corners are not equally far from it. */
  lemma CentreIsOffMiddle()
    ensures SqDistFromCenter(0, 0) == 578
    ensures SqDistFromCenter(Height - 1, Width - 1) == 512
  {
  }
}
