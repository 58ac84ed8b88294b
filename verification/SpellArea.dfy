/** The shapes of area spells: flat grids with a centre, turned towards the direction of the cast. */
module SpellArea {
  // row after row; cx and cy are the column and the row of the centre
  datatype Area = Area(arr: seq<bool>, cx: nat, cy: nat, rows: nat, cols: nat)

  predicate Ok(a: Area) {
    |a.arr| == a.rows * a.cols && a.cx < a.cols && a.cy < a.rows
  }

  lemma InGrid(r: nat, c: nat, rows: nat, cols: nat)
    requires r < rows && c < cols
    ensures r * cols + c < rows * cols
  {
    assert (r + 1) * cols <= rows * cols;
  }

  lemma SameCell(r: nat, c: nat, r': nat, c': nat, cols: nat)
    requires c < cols && c' < cols && r * cols + c == r' * cols + c'
    ensures r == r' && c == c'
  {
    var d := r' - r;
    assert d * cols == r' * cols - r * cols == c - c';
    assert d >= 1 ==> d * cols >= cols;
    assert d <= -1 ==> (-d) * cols >= cols;
  }

  function Cell(a: Area, r: nat, c: nat): bool
    requires Ok(a) && r < a.rows && c < a.cols
  {
    InGrid(r, c, a.rows, a.cols);
    a.arr[r * a.cols + c]
  }

  // the tile at offset (dx, dy) from the target is hit
  predicate Hits(a: Area, dx: int, dy: int)
    requires Ok(a)
  {
    0 <= a.cx + dx < a.cols && 0 <= a.cy + dy < a.rows && Cell(a, a.cy + dy, a.cx + dx)
  }

  // two grids of one size with the same cells are the same
  lemma SameArea(a: Area, b: Area)
    requires Ok(a) && Ok(b) && a.rows == b.rows && a.cols == b.cols && a.cx == b.cx && a.cy == b.cy
    requires forall r, c :: 0 <= r < a.rows && 0 <= c < a.cols ==> Cell(a, r, c) == Cell(b, r, c)
    ensures a == b
  {
    forall j | 0 <= j < |a.arr| ensures a.arr[j] == b.arr[j] {
      var r, c := Split(j, a.rows, a.cols);
      assert Cell(a, r, c) == Cell(b, r, c);
    }
  }

  lemma Split(j: nat, rows: nat, cols: nat) returns (r: nat, c: nat)
    requires j < rows * cols
    ensures r < rows && c < cols && j == r * cols + c
  {
    r, c := 0, j;
    while c >= cols
      invariant j == r * cols + c && r < rows
      decreases c
    {
      r, c := r + 1, c - cols;
      assert r * cols <= j < rows * cols;
    }
  }

  // ---------- what each turn makes of the cells ----------

  ghost predicate Quarter(a: Area, b: Area) {
    Ok(a) && Ok(b) && b.rows == a.cols && b.cols == a.rows && b.cx == a.rows - a.cy - 1 && b.cy == a.cx
    && forall r, c :: 0 <= r < a.rows && 0 <= c < a.cols ==> Cell(b, c, a.rows - r - 1) == Cell(a, r, c)
  }

  ghost predicate Half(a: Area, b: Area) {
    Ok(a) && Ok(b) && b.rows == a.rows && b.cols == a.cols && b.cx == a.cols - a.cx - 1 && b.cy == a.rows - a.cy - 1
    && forall r, c :: 0 <= r < a.rows && 0 <= c < a.cols ==> Cell(b, a.rows - r - 1, a.cols - c - 1) == Cell(a, r, c)
  }

  ghost predicate ThreeQuarters(a: Area, b: Area) {
    Ok(a) && Ok(b) && b.rows == a.cols && b.cols == a.rows && b.cx == a.cy && b.cy == a.cols - a.cx - 1
    && forall r, c :: 0 <= r < a.rows && 0 <= c < a.cols ==> Cell(b, a.cols - c - 1, r) == Cell(a, r, c)
  }

  // flip and mirror move the centre along the other axis than the cells
  ghost predicate Flipped(a: Area, b: Area) {
    Ok(a) && Ok(b) && b.rows == a.rows && b.cols == a.cols && b.cx == a.cols - a.cx - 1 && b.cy == a.cy
    && forall r, c :: 0 <= r < a.rows && 0 <= c < a.cols ==> Cell(b, a.rows - r - 1, c) == Cell(a, r, c)
  }

  ghost predicate Mirrored(a: Area, b: Area) {
    Ok(a) && Ok(b) && b.rows == a.rows && b.cols == a.cols && b.cx == a.cx && b.cy == a.rows - a.cy - 1
    && forall r, c :: 0 <= r < a.rows && 0 <= c < a.cols ==> Cell(b, r, a.cols - c - 1) == Cell(a, r, c)
  }

  ghost predicate Transposed(a: Area, b: Area) {
    Ok(a) && Ok(b) && b.rows == a.rows && b.cols == a.cols == a.rows && b.cx == a.cy && b.cy == a.cx
    && forall r, c :: 0 <= r < a.rows && 0 <= c < a.cols ==> Cell(b, c, r) == Cell(a, r, c)
  }

  // ---------- laws ----------

  /** A quarter turn takes the tile at (dx, dy) to (-dy, dx); the other turns are two and three of it. */
  lemma TurnOffsets(a: Area, b: Area, dx: int, dy: int)
    requires Ok(a) && Ok(b)
    ensures Quarter(a, b) ==> Hits(b, -dy, dx) == Hits(a, dx, dy)
    ensures Half(a, b) ==> Hits(b, -dx, -dy) == Hits(a, dx, dy)
    ensures ThreeQuarters(a, b) ==> Hits(b, dy, -dx) == Hits(a, dx, dy)
  {
    if 0 <= a.cx + dx < a.cols && 0 <= a.cy + dy < a.rows {
      var r, c := a.cy + dy, a.cx + dx;
      assert Quarter(a, b) ==> Cell(b, c, a.rows - r - 1) == Cell(a, r, c);
      assert Half(a, b) ==> Cell(b, a.rows - r - 1, a.cols - c - 1) == Cell(a, r, c);
      assert ThreeQuarters(a, b) ==> Cell(b, a.cols - c - 1, r) == Cell(a, r, c);
    }
  }

  lemma FourQuarters(a: Area, b: Area, c: Area, d: Area, e: Area)
    requires Quarter(a, b) && Quarter(b, c) && Quarter(c, d) && Quarter(d, e)
    ensures e == a && Half(a, c) && ThreeQuarters(a, d)
  {
    forall i, j | 0 <= i < a.rows && 0 <= j < a.cols
      ensures Cell(c, a.rows - i - 1, a.cols - j - 1) == Cell(a, i, j)
      ensures Cell(d, a.cols - j - 1, i) == Cell(a, i, j) == Cell(e, i, j)
    {
      assert Cell(b, j, a.rows - i - 1) == Cell(a, i, j);
      assert Cell(c, b.cols - (b.cols - i - 1) - 1, j) == Cell(c, i, j);
    }
    SameArea(a, e);
  }

  /** Centre included, flip, mirror and transpose undo themselves. */
  lemma FlipTwice(a: Area, b: Area, c: Area)
    requires Flipped(a, b) && Flipped(b, c)
    ensures c == a
  {
    forall i, j | 0 <= i < a.rows && 0 <= j < a.cols ensures Cell(a, i, j) == Cell(c, i, j) {
      assert Cell(b, a.rows - i - 1, j) == Cell(a, i, j);
      assert Cell(c, b.rows - (a.rows - i - 1) - 1, j) == Cell(b, a.rows - i - 1, j);
    }
    SameArea(a, c);
  }

  lemma MirrorTwice(a: Area, b: Area, c: Area)
    requires Mirrored(a, b) && Mirrored(b, c)
    ensures c == a
  {
    forall i, j | 0 <= i < a.rows && 0 <= j < a.cols ensures Cell(a, i, j) == Cell(c, i, j) {
      assert Cell(b, i, a.cols - j - 1) == Cell(a, i, j);
      assert Cell(c, i, b.cols - (a.cols - j - 1) - 1) == Cell(b, i, a.cols - j - 1);
    }
    SameArea(a, c);
  }

  lemma TransposeTwice(a: Area, b: Area, c: Area)
    requires Transposed(a, b) && Transposed(b, c)
    ensures c == a
  {
    forall i, j | 0 <= i < a.rows && 0 <= j < a.cols ensures Cell(a, i, j) == Cell(c, i, j) {
      assert Cell(b, j, i) == Cell(a, i, j);
      assert Cell(c, i, j) == Cell(b, j, i);
    }
    SameArea(a, c);
  }

  /** A flip and a mirror make a half turn, and here the misplaced centre comes right. */
  lemma FlipMirrorIsHalf(a: Area, b: Area, c: Area, d: Area)
    requires Flipped(a, b) && Mirrored(b, c) && Half(a, d)
    ensures c == d
  {
    forall i, j | 0 <= i < a.rows && 0 <= j < a.cols ensures Cell(c, i, j) == Cell(d, i, j) {
      var i', j' := a.rows - i - 1, a.cols - j - 1;
      assert Cell(d, a.rows - i' - 1, a.cols - j' - 1) == Cell(a, i', j');
      assert Cell(b, a.rows - i' - 1, j') == Cell(a, i', j');
      assert Cell(c, i, b.cols - j' - 1) == Cell(b, i, j');
    }
    SameArea(c, d);
  }

  // whatever the cells, a flipped tile is hit exactly where its mirror image was
  ghost predicate FlipsOffsets(rows: nat, cols: nat, cx: nat, cy: nat) {
    forall a, b, dx, dy :: Flipped(a, b) && a.rows == rows && a.cols == cols && a.cx == cx && a.cy == cy
      ==> Hits(b, dx, -dy) == Hits(a, dx, dy)
  }

  /** A flip turns the offsets upside down only when the centre is the middle of the grid, since the code moves the
      centre along the wrong axis. */
  lemma FlipCentre(rows: nat, cols: nat, cx: nat, cy: nat)
    requires cx < cols && cy < rows
    ensures FlipsOffsets(rows, cols, cx, cy) <==> 2 * cx + 1 == cols && 2 * cy + 1 == rows
  {
    if 2 * cx + 1 == cols && 2 * cy + 1 == rows {
      forall a, b, dx, dy | Flipped(a, b) && a.rows == rows && a.cols == cols && a.cx == cx && a.cy == cy
        ensures Hits(b, dx, -dy) == Hits(a, dx, dy)
      {
        FlipMiddle(a, b, dx, dy);
      }
    } else {
      // only the corner behind the centre is hit
      var a := OneCell(rows, cols, cx, cy, 0, 0);
      var b := OneCell(rows, cols, cols - cx - 1, cy, rows - 1, 0);
      assert Flipped(a, b);
      var dx: int, dy: int := 0 - cx, 0 - cy;
      assert Hits(a, dx, dy) && !Hits(b, dx, -dy);
    }
  }

  lemma FlipMiddle(a: Area, b: Area, dx: int, dy: int)
    requires Flipped(a, b) && 2 * a.cx + 1 == a.cols && 2 * a.cy + 1 == a.rows
    ensures Hits(b, dx, -dy) == Hits(a, dx, dy)
  {
    if 0 <= a.cx + dx < a.cols && 0 <= a.cy + dy < a.rows {
      assert Cell(b, a.rows - (a.cy + dy) - 1, a.cx + dx) == Cell(a, a.cy + dy, a.cx + dx);
    }
  }

  // whatever the cells, a mirrored tile is hit exactly where its mirror image was
  ghost predicate MirrorsOffsets(rows: nat, cols: nat, cx: nat, cy: nat) {
    forall a, b, dx, dy :: Mirrored(a, b) && a.rows == rows && a.cols == cols && a.cx == cx && a.cy == cy
      ==> Hits(b, -dx, dy) == Hits(a, dx, dy)
  }

  /** The mirror has the same fault as the flip. */
  lemma MirrorCentre(rows: nat, cols: nat, cx: nat, cy: nat)
    requires cx < cols && cy < rows
    ensures MirrorsOffsets(rows, cols, cx, cy) <==> 2 * cx + 1 == cols && 2 * cy + 1 == rows
  {
    if 2 * cx + 1 == cols && 2 * cy + 1 == rows {
      forall a, b, dx, dy | Mirrored(a, b) && a.rows == rows && a.cols == cols && a.cx == cx && a.cy == cy
        ensures Hits(b, -dx, dy) == Hits(a, dx, dy)
      {
        MirrorMiddle(a, b, dx, dy);
      }
    } else {
      // only the corner behind the centre is hit
      var a := OneCell(rows, cols, cx, cy, 0, 0);
      var b := OneCell(rows, cols, cx, rows - cy - 1, 0, cols - 1);
      assert Mirrored(a, b);
      var dx: int, dy: int := 0 - cx, 0 - cy;
      assert Hits(a, dx, dy) && !Hits(b, -dx, dy);
    }
  }

  lemma MirrorMiddle(a: Area, b: Area, dx: int, dy: int)
    requires Mirrored(a, b) && 2 * a.cx + 1 == a.cols && 2 * a.cy + 1 == a.rows
    ensures Hits(b, -dx, dy) == Hits(a, dx, dy)
  {
    if 0 <= a.cx + dx < a.cols && 0 <= a.cy + dy < a.rows {
      assert Cell(b, a.cy + dy, a.cols - (a.cx + dx) - 1) == Cell(a, a.cy + dy, a.cx + dx);
    }
  }

  // a grid with one cell set
  lemma OneCell(rows: nat, cols: nat, cx: nat, cy: nat, r: nat, c: nat) returns (a: Area)
    requires cx < cols && cy < rows && r < rows && c < cols
    ensures Ok(a) && a.rows == rows && a.cols == cols && a.cx == cx && a.cy == cy
    ensures forall i, j :: 0 <= i < rows && 0 <= j < cols ==> (Cell(a, i, j) <==> i == r && j == c)
  {
    a := Area(seq(rows * cols, k => k == r * cols + c), cx, cy, rows, cols);
    forall i, j | 0 <= i < rows && 0 <= j < cols ensures Cell(a, i, j) <==> i == r && j == c {
      InGrid(i, j, rows, cols);
      if i * cols + j == r * cols + c {
        SameCell(i, j, r, c, cols);
      }
    }
  }

  // ---------- the grids as they are computed ----------

  // cell (r, c) of a flat grid of w columns
  function At(arr: seq<bool>, h: nat, w: nat, r: nat, c: nat): bool
    requires |arr| == h * w && r < h && c < w
  {
    InGrid(r, c, h, w);
    arr[r * w + c]
  }

  // element k of the slice of arr that starts at start and advances by stride
  predicate InSlice(arr: seq<bool>, start: nat, stride: nat, k: nat) {
    start + k * stride < |arr|
  }

  function Slice(arr: seq<bool>, start: nat, stride: nat, k: nat): bool
    requires InSlice(arr, start, stride, k)
  {
    arr[start + k * stride]
  }

  function Put(arr: seq<bool>, h: nat, w: nat, r: nat, c: nat, v: bool): (out: seq<bool>)
    requires |arr| == h * w && r < h && c < w
    ensures |out| == |arr|
  {
    InGrid(r, c, h, w);
    arr[r * w + c := v]
  }

  lemma PutAt(arr: seq<bool>, h: nat, w: nat, r: nat, c: nat, v: bool)
    requires |arr| == h * w && r < h && c < w
    ensures forall i, j :: 0 <= i < h && 0 <= j < w ==>
      At(Put(arr, h, w, r, c, v), h, w, i, j) == if i == r && j == c then v else At(arr, h, w, i, j)
  {
    InGrid(r, c, h, w);
    forall i, j | 0 <= i < h && 0 <= j < w
      ensures At(Put(arr, h, w, r, c, v), h, w, i, j) == if i == r && j == c then v else At(arr, h, w, i, j)
    {
      InGrid(i, j, h, w);
      if i * w + j == r * w + c {
        SameCell(i, j, r, c, w);
      }
    }
  }

  // newArr[slice(c, h, w)] = arr[slice(start, h, stride)]
  method SetColumn(newArr: seq<bool>, h: nat, w: nat, c: nat, arr: seq<bool>, start: nat, stride: nat)
      returns (out: seq<bool>)
    requires |newArr| == h * w && c < w && forall k :: 0 <= k < h ==> InSlice(arr, start, stride, k)
    ensures |out| == h * w && forall i, j :: 0 <= i < h && 0 <= j < w ==>
      At(out, h, w, i, j) == if j == c then Slice(arr, start, stride, i) else At(newArr, h, w, i, j)
  {
    out := newArr;
    for k := 0 to h
      invariant |out| == h * w && forall i, j :: 0 <= i < h && 0 <= j < w ==>
        At(out, h, w, i, j) == if j == c && i < k then Slice(arr, start, stride, i) else At(newArr, h, w, i, j)
    {
      var v := Slice(arr, start, stride, k);
      PutAt(out, h, w, k, c, v);
      out := Put(out, h, w, k, c, v);
    }
  }

  // newArr[slice(r * w, w, 1)] = arr[slice(start, w, stride)]
  method SetRow(newArr: seq<bool>, h: nat, w: nat, r: nat, arr: seq<bool>, start: nat, stride: nat)
      returns (out: seq<bool>)
    requires |newArr| == h * w && r < h && forall k :: 0 <= k < w ==> InSlice(arr, start, stride, k)
    ensures |out| == h * w && forall i, j :: 0 <= i < h && 0 <= j < w ==>
      At(out, h, w, i, j) == if i == r then Slice(arr, start, stride, j) else At(newArr, h, w, i, j)
  {
    out := newArr;
    for k := 0 to w
      invariant |out| == h * w && forall i, j :: 0 <= i < h && 0 <= j < w ==>
        At(out, h, w, i, j) == if i == r && j < k then Slice(arr, start, stride, j) else At(newArr, h, w, i, j)
    {
      var v := Slice(arr, start, stride, k);
      PutAt(out, h, w, r, k, v);
      out := Put(out, h, w, r, k, v);
    }
  }

  // row r and column c of a grid, as slices
  lemma RowSlice(a: Area, r: nat)
    requires Ok(a) && r < a.rows
    ensures forall c :: 0 <= c < a.cols ==>
      InSlice(a.arr, r * a.cols, 1, c) && Slice(a.arr, r * a.cols, 1, c) == Cell(a, r, c)
  {
    forall c | 0 <= c < a.cols ensures InSlice(a.arr, r * a.cols, 1, c) {
      InGrid(r, c, a.rows, a.cols);
    }
  }

  lemma ColumnSlice(a: Area, c: nat)
    requires Ok(a) && c < a.cols
    ensures forall r :: 0 <= r < a.rows ==>
      InSlice(a.arr, c, a.cols, r) && Slice(a.arr, c, a.cols, r) == Cell(a, r, c)
  {
    forall r | 0 <= r < a.rows ensures InSlice(a.arr, c, a.cols, r) {
      InGrid(r, c, a.rows, a.cols);
    }
  }

  method Rotate90(a: Area) returns (b: Area)
    requires Ok(a)
    ensures Quarter(a, b)
  {
    var newArr := seq(|a.arr|, i => false);
    assert a.rows * a.cols == a.cols * a.rows;
    for i := 0 to a.rows
      invariant |newArr| == a.cols * a.rows && forall r, c :: 0 <= r < a.cols && 0 <= c < i ==>
        At(newArr, a.cols, a.rows, r, c) == Cell(a, a.rows - c - 1, r)
    {
      RowSlice(a, a.rows - i - 1);
      newArr := SetColumn(newArr, a.cols, a.rows, i, a.arr, (a.rows - i - 1) * a.cols, 1);
    }
    b := Area(newArr, a.rows - a.cy - 1, a.cx, a.cols, a.rows);
    assert forall r, c :: 0 <= r < a.cols && 0 <= c < a.rows ==> Cell(b, r, c) == At(newArr, a.cols, a.rows, r, c);
  }

  method Rotate180(a: Area) returns (b: Area)
    requires Ok(a)
    ensures Half(a, b)
  {
    var n := |a.arr|;
    var newArr := seq(n, i requires 0 <= i < n => a.arr[n - i - 1]); // std::reverse_copy
    b := Area(newArr, a.cols - a.cx - 1, a.rows - a.cy - 1, a.rows, a.cols);
    forall r, c | 0 <= r < a.rows && 0 <= c < a.cols
      ensures Cell(b, a.rows - r - 1, a.cols - c - 1) == Cell(a, r, c)
    {
      InGrid(r, c, a.rows, a.cols);
      assert (a.rows - r - 1) * a.cols == a.rows * a.cols - r * a.cols - a.cols;
    }
  }

  method Rotate270(a: Area) returns (b: Area)
    requires Ok(a)
    ensures ThreeQuarters(a, b)
  {
    var newArr := seq(|a.arr|, i => false);
    assert a.rows * a.cols == a.cols * a.rows;
    for i := 0 to a.cols
      invariant |newArr| == a.cols * a.rows && forall r, c :: 0 <= r < i && 0 <= c < a.rows ==>
        At(newArr, a.cols, a.rows, r, c) == Cell(a, c, a.cols - r - 1)
    {
      ColumnSlice(a, a.cols - i - 1);
      newArr := SetRow(newArr, a.cols, a.rows, i, a.arr, a.cols - i - 1, a.cols);
    }
    b := Area(newArr, a.cy, a.cols - a.cx - 1, a.cols, a.rows);
    assert forall r, c :: 0 <= r < a.cols && 0 <= c < a.rows ==> Cell(b, r, c) == At(newArr, a.cols, a.rows, r, c);
  }

  method Flip(a: Area) returns (b: Area)
    requires Ok(a)
    ensures Flipped(a, b)
  {
    var newArr := seq(|a.arr|, i => false);
    for i := 0 to a.rows
      invariant |newArr| == a.rows * a.cols && forall r, c :: 0 <= r < i && 0 <= c < a.cols ==>
        At(newArr, a.rows, a.cols, r, c) == Cell(a, a.rows - r - 1, c)
    {
      RowSlice(a, a.rows - i - 1);
      newArr := SetRow(newArr, a.rows, a.cols, i, a.arr, (a.rows - i - 1) * a.cols, 1);
    }
    b := Area(newArr, a.cols - a.cx - 1, a.cy, a.rows, a.cols);
    assert forall r, c :: 0 <= r < a.rows && 0 <= c < a.cols ==> Cell(b, r, c) == At(newArr, a.rows, a.cols, r, c);
  }

  /** The slices of mirror take the array for one of cols rows and rows columns, and leave it if there are more columns
      than rows.  In a square they are the columns. */
  method Mirror(a: Area) returns (b: Area)
    requires Ok(a) && a.cols <= a.rows
    ensures b.rows == a.rows && b.cols == a.cols && b.cx == a.cx && b.cy == a.rows - a.cy - 1
    ensures |b.arr| == a.cols * a.rows
    ensures a.cols * a.rows == |a.arr| && forall r, c :: 0 <= r < a.cols && 0 <= c < a.cols ==>
      At(b.arr, a.cols, a.rows, r, c) == At(a.arr, a.cols, a.rows, r, a.cols - c - 1)
    ensures a.rows == a.cols ==> Mirrored(a, b)
  {
    var newArr := seq(|a.arr|, i => false);
    assert a.rows * a.cols == a.cols * a.rows;
    for i := 0 to a.cols
      invariant |newArr| == a.cols * a.rows && forall r, c :: 0 <= r < a.cols && 0 <= c < i ==>
        At(newArr, a.cols, a.rows, r, c) == At(a.arr, a.cols, a.rows, r, a.cols - c - 1)
    {
      StrideSlice(a.arr, a.cols, a.rows, a.cols - i - 1);
      newArr := SetColumn(newArr, a.cols, a.rows, i, a.arr, a.cols - i - 1, a.rows);
    }
    b := Area(newArr, a.cx, a.rows - a.cy - 1, a.rows, a.cols);
    if a.rows == a.cols {
      assert forall r, c :: 0 <= r < a.rows && 0 <= c < a.cols ==> Cell(b, r, c) == At(newArr, a.rows, a.cols, r, c);
      assert forall r, c :: 0 <= r < a.rows && 0 <= c < a.cols ==> Cell(a, r, c) == At(a.arr, a.rows, a.cols, r, c);
    }
  }

  lemma StrideSlice(arr: seq<bool>, h: nat, w: nat, c: nat)
    requires |arr| == h * w && c < w
    ensures forall r :: 0 <= r < h ==> InSlice(arr, c, w, r) && Slice(arr, c, w, r) == At(arr, h, w, r, c)
  {
    forall r | 0 <= r < h ensures InSlice(arr, c, w, r) {
      InGrid(r, c, h, w);
    }
  }

  /** Rows and columns of the array change places, but not its dimensions. */
  method Transpose(a: Area) returns (b: Area)
    requires Ok(a)
    ensures b.rows == a.rows && b.cols == a.cols && b.cx == a.cy && b.cy == a.cx && |b.arr| == a.cols * a.rows
    ensures forall r, c :: 0 <= r < a.cols && 0 <= c < a.rows ==> At(b.arr, a.cols, a.rows, r, c) == Cell(a, c, r)
    ensures a.rows == a.cols ==> Transposed(a, b)
  {
    // the generalised slice: column i of the old grid, one after the other
    var newArr := seq(|a.arr|, i => false);
    assert a.rows * a.cols == a.cols * a.rows;
    for i := 0 to a.cols
      invariant |newArr| == a.cols * a.rows && forall r, c :: 0 <= r < i && 0 <= c < a.rows ==>
        At(newArr, a.cols, a.rows, r, c) == Cell(a, c, r)
    {
      ColumnSlice(a, i);
      newArr := SetRow(newArr, a.cols, a.rows, i, a.arr, i, a.cols);
    }
    b := Area(newArr, a.cy, a.cx, a.rows, a.cols);
    if a.rows == a.cols {
      assert forall r, c :: 0 <= r < a.cols && 0 <= c < a.rows ==> Cell(b, r, c) == At(newArr, a.cols, a.rows, r, c);
    }
  }

  // ---------- setting up a spell ----------

  predicate Marks(value: nat) { value == 1 || value == 3 }

  predicate Centres(value: nat) { value == 2 || value == 3 }

  // the value written for cell (r, c)
  function Written(vec: seq<nat>, rows: nat, cols: nat, r: nat, c: nat): nat
    requires rows * cols <= |vec| && r < rows && c < cols
  {
    InGrid(r, c, rows, cols);
    vec[r * cols + c]
  }

  // the last of the centres, or the first cell if there is none
  ghost predicate CentreIs(vec: seq<nat>, upTo: nat, k: nat)
    requires upTo <= |vec| && k < |vec|
  {
    (forall j :: 0 <= j < upTo && Centres(vec[j]) ==> j <= k && Centres(vec[k])) && (Centres(vec[k]) || k == 0)
  }

  lemma RowBelow(y: nat, x: nat, rows: nat, cols: nat)
    requires y * cols + x < rows * cols
    ensures y < rows
  {
    assert y >= rows ==> (y - rows) * cols >= 0;
    assert (y - rows) * cols == y * cols - rows * cols;
  }

  lemma Columns(n: nat, rows: nat)
    requires 0 < rows <= n
    ensures n / rows > 0 && rows * (n / rows) <= n
    ensures n % rows == 0 ==> rows * (n / rows) == n
  {
    var q := n / rows;
    assert n == rows * q + n % rows;
    assert rows * q > 0;
  }

  // a list of values for so many rows: values of an incomplete last row have no place, and must be zeros
  ghost predicate Complete(vec: seq<nat>, rows: nat) {
    0 < rows <= |vec| && forall k :: rows * (|vec| / rows) <= k < |vec| ==> !Marks(vec[k]) && !Centres(vec[k])
  }

  method CreateArea(vec: seq<nat>, rows: nat) returns (a: Area)
    requires Complete(vec, rows)
    ensures Ok(a) && a.rows == rows && a.cols == |vec| / rows && rows * a.cols <= |vec|
    ensures |vec| % rows == 0 ==> rows * a.cols == |vec|
    ensures forall r, c :: 0 <= r < rows && 0 <= c < a.cols ==> Cell(a, r, c) == Marks(Written(vec, rows, a.cols, r, c))
    ensures a.cy * a.cols + a.cx < |vec| && CentreIs(vec, |vec|, a.cy * a.cols + a.cx)
  {
    Columns(|vec|, rows);
    var cols := |vec| / rows;
    var arr := seq(rows * cols, i => false);
    var x, y, cx, cy := 0, 0, 0, 0;
    ghost var start, centre := 0, 0; // where row y begins, and the centre
    for i := 0 to |vec|
      invariant i == start + x && start == y * cols && x < cols && |arr| == rows * cols
      invariant forall k :: 0 <= k < |arr| ==> arr[k] == (k < i && Marks(vec[k]))
      invariant centre == cy * cols + cx && cx < cols && cy < rows && 0 <= centre < |vec| && CentreIs(vec, i, centre)
    {
      if i < rows * cols {
        RowBelow(y, x, rows, cols);
      }
      if Marks(vec[i]) {
        arr := arr[y * cols + x := true];
      }
      if Centres(vec[i]) {
        cx, cy, centre := x, y, i;
      }
      x := x + 1;
      if cols == x {
        NextRow(y, cols);
        x, start := 0, start + cols;
        y := y + 1;
      }
    }
    a := Area(arr, cx, cy, rows, cols);
    CellsWritten(a, vec);
  }

  lemma NextRow(y: nat, cols: nat)
    ensures (y + 1) * cols == y * cols + cols
  {
  }

  lemma CellsWritten(a: Area, vec: seq<nat>)
    requires Ok(a) && |a.arr| <= |vec| && forall k :: 0 <= k < |a.arr| ==> a.arr[k] == Marks(vec[k])
    ensures forall r, c :: 0 <= r < a.rows && 0 <= c < a.cols ==>
      Cell(a, r, c) == Marks(Written(vec, a.rows, a.cols, r, c))
  {
    forall r, c | 0 <= r < a.rows && 0 <= c < a.cols
      ensures Cell(a, r, c) == Marks(Written(vec, a.rows, a.cols, r, c))
    {
      InGrid(r, c, a.rows, a.cols);
    }
  }

  datatype Direction = North | East | South | West

  // where a quarter turn a number of times over takes an offset
  function Turned(dir: Direction, dx: int, dy: int): (int, int) {
    match dir
    case North => (dx, dy)
    case East => (-dy, dx)
    case South => (-dx, -dy)
    case West => (dy, -dx)
  }

  /** The grid is the list cut into rows: a cell is hit as its number says, and the centre is where the list has it. */
  ghost predicate Draws(vec: seq<nat>, rows: nat, a: Area)
    requires Ok(a)
  {
    && rows > 0 && a.rows == rows && a.cols == |vec| / rows && rows * a.cols <= |vec|
    && (forall r, c :: 0 <= r < rows && 0 <= c < a.cols ==> Cell(a, r, c) == Marks(Written(vec, rows, a.cols, r, c)))
    && a.cy * a.cols + a.cx < |vec| && CentreIs(vec, |vec|, a.cy * a.cols + a.cx)
  }

  class AreaCombat {
    var areas: map<Direction, Area>

    constructor ()
      ensures areas == map[]
    {
      areas := map[];
    }

    /** The four straight directions hit the same shape, turned: a tile at (dx, dy) to the north is at (-dy, dx) to the
        east, and so on round. */
    method SetupArea(vec: seq<nat>, rows: nat)
      requires Complete(vec, rows)
      modifies this
      ensures forall dir :: dir in areas && Ok(areas[dir])
      ensures forall dx, dy :: Hits(areas[East], -dy, dx) == Hits(areas[North], dx, dy)
      ensures forall dx, dy :: Hits(areas[South], -dx, -dy) == Hits(areas[North], dx, dy)
      ensures forall dx, dy :: Hits(areas[West], dy, -dx) == Hits(areas[North], dx, dy)
      ensures Draws(vec, rows, areas[North])
    {
      var area := CreateArea(vec, rows);
      var east := Rotate90(area);
      var south := Rotate180(area);
      var west := Rotate270(area);
      areas := map[East := east, South := south, West := west, North := area];
      forall dir: Direction ensures dir in areas && Ok(areas[dir]) {
        match dir { case North => case East => case South => case West => }
      }
      forall dx, dy
        ensures Hits(east, -dy, dx) == Hits(south, -dx, -dy) == Hits(west, dy, -dx) == Hits(area, dx, dy)
      {
        TurnOffsets(area, east, dx, dy);
        TurnOffsets(area, south, dx, dy);
        TurnOffsets(area, west, dx, dy);
      }
    }

    /** The straight branch of getArea: north, turned to the direction picked, points ahead to the target, and sideways
        unless the target is straight ahead or behind. */
    static function DirectionTo(dx: int, dy: int): (dir: Direction)
      ensures var ahead := Turned(dir, 0, -1);
        ahead.0 * dx + ahead.1 * dy > 0 || (dx == 0 && dy == 0 && dir == South)
      ensures dx < 0 <==> dir == West
      ensures dx > 0 <==> dir == East
    {
      if dx < 0 then West else if dx > 0 then East else if dy < 0 then North else South
    }
  }

  // row by row, and within a row from the left
  predicate Earlier(t: (int, int), u: (int, int)) {
    t.1 < u.1 || (t.1 == u.1 && t.0 < u.0)
  }

  // the tiles of getList that are in sight: target and offset, row after row
  method GetList(a: Area, x: int, y: int, inSight: (int, int) -> bool) returns (tiles: seq<(int, int)>)
    requires Ok(a)
    ensures forall t :: t in tiles <==> Hits(a, t.0 - x, t.1 - y) && inSight(t.0, t.1)
    ensures forall i, j :: 0 <= i < j < |tiles| ==> Earlier(tiles[i], tiles[j])
  {
    tiles := [];
    var tx, ty := x - a.cx, y - a.cy;
    for row := 0 to a.rows
      invariant tx == x - a.cx && ty == y - a.cy + row
      invariant forall t :: t in tiles <==> Hits(a, t.0 - x, t.1 - y) && inSight(t.0, t.1) && t.1 < ty
      invariant forall i, j :: 0 <= i < j < |tiles| ==> Earlier(tiles[i], tiles[j])
    {
      for col := 0 to a.cols
        invariant tx == x - a.cx + col && ty == y - a.cy + row
        invariant forall t :: t in tiles <==>
          Hits(a, t.0 - x, t.1 - y) && inSight(t.0, t.1) && (t.1 < ty || (t.1 == ty && t.0 < tx))
        invariant forall i, j :: 0 <= i < j < |tiles| ==> Earlier(tiles[i], tiles[j])
      {
        if Cell(a, row, col) && inSight(tx, ty) {
          tiles := tiles + [(tx, ty)];
        }
        tx := tx + 1;
      }
      tx := tx - a.cols;
      ty := ty + 1;
    }
  }
}
