/** Probe-volume brick subdivision: a brick of size s covers a cube of 3^s cells and
    is split into up to 27 children of size s - 1, level by level. The keep/drop
    decision (an intersection test against the scene's probe volumes) is abstract. */
module ProbeVolumePositioning {

  datatype Vector3Int = Vector3Int(x: int, y: int, z: int)
  {
    function Plus(o: Vector3Int): Vector3Int { Vector3Int(x + o.x, y + o.y, z + o.z) }
    function Times(k: int): Vector3Int { Vector3Int(x * k, y * k, z * k) }
  }

  datatype Brick = Brick(position: Vector3Int, size: int)

  /** The bricks the keep/drop decision accepts: those whose world-space bounds, under
      the reference-space-to-world transform, meet some probe volume of the scene. */
  datatype KeepSet = KeepSet(intersecting: iset<Brick>)

  /** ShouldKeepBrick: keep a brick exactly when it meets a probe volume. */
  predicate ShouldKeepBrick(keep: KeepSet, brick: Brick)
  {
    brick in keep.intersecting
  }

  /** The caller's output list, which subdivision appends to in place. */
  class BrickList {
    var items: seq<Brick>
    constructor (items: seq<Brick>)
      ensures this.items == items
    {
      this.items := items;
    }
  }

  // ---------------------------------------------------------------------------
  // C# integer arithmetic
  // ---------------------------------------------------------------------------

  function Abs(a: int): nat { if a < 0 then -a else a }

  /** C# `/` on int: the quotient truncated toward zero. */
  function CsDiv(a: int, b: int): int
    requires b != 0
  {
    var q := Abs(a) / Abs(b);
    if (a < 0) == (b < 0) then q else -q
  }

  /** C# `%` on int: the remainder takes the sign of the dividend. */
  function CsRem(a: int, b: int): int
    requires b != 0
  {
    a - b * CsDiv(a, b)
  }

  lemma CsDivRemNonNegative(a: int, b: int)
    requires a >= 0 && b > 0
    ensures CsDiv(a, b) == a / b && CsRem(a, b) == a % b
  {
  }

  lemma MulMonotone(b: int, m: int, n: int)
    requires b >= 0 && m <= n
    ensures b * m <= b * n
  {
    assert b * n - b * m == b * (n - m);
  }

  /** b * m + b <= b * n when m < n. */
  lemma MulStep(b: int, m: int, n: int)
    requires b >= 0 && m < n
    ensures b * m + b <= b * n
  {
    MulMonotone(b, m + 1, n);
    assert b * (m + 1) == b * m + b;
  }

  lemma MulPositive(b: int, c: int)
    requires b > 0 && c > 0
    ensures b * c > 0
  {
    MulMonotone(b, 1, c);
  }

  /** Quotient and remainder are the unique pair with a == b * q + r and 0 <= r < b. */
  lemma DivModUnique(a: int, b: int, q: int, r: int)
    requires b > 0 && 0 <= r < b && a == b * q + r
    ensures a / b == q && a % b == r
  {
    var q', r' := a / b, a % b;
    if q' < q {
      MulStep(b, q', q);
    } else if q' > q {
      MulStep(b, q, q');
    }
  }

  /** a / b < d when a < b * d. */
  lemma DivBelow(a: int, b: int, d: int)
    requires a >= 0 && b > 0 && a < b * d
    ensures a / b < d
  {
    var q := a / b;
    if q >= d {
      MulMonotone(b, d, q);
    }
  }

  /** Dividing by b and then by c is dividing by b * c. */
  lemma DivDiv(a: int, b: int, c: int)
    requires a >= 0 && b > 0 && c > 0
    ensures b * c > 0 && (a / b) / c == a / (b * c)
  {
    var q1, r1 := a / b, a % b;
    var q2, r2 := q1 / c, q1 % c;
    MulPositive(b, c);
    assert a == (b * c) * q2 + (b * r2 + r1) by {
      assert b * q1 == b * (c * q2) + b * r2;
      assert b * (c * q2) == (b * c) * q2;
    }
    MulStep(b, r2, c);
    MulMonotone(b, 0, r2);
    DivModUnique(a, b * c, q2, b * r2 + r1);
  }

  lemma NonZeroProduct(a: int, b: int)
    requires a != 0 && b != 0
    ensures a * b != 0
  {
    if a < 0 && b < 0 {
      MulPositive(-a, -b);
      assert a * b == (-a) * (-b);
    } else if a < 0 {
      MulPositive(-a, b);
      assert a * b == -((-a) * b);
    } else if b < 0 {
      MulPositive(a, -b);
      assert a * b == -(a * (-b));
    } else {
      MulPositive(a, b);
    }
  }

  // ---------------------------------------------------------------------------
  // Linear index <-> (x, y, z) in a width x height x depth grid
  // ---------------------------------------------------------------------------

  /** Position3D: x varies fastest, then y, then z. */
  function Position3D(width: int, height: int, idx: int): Vector3Int
    requires width != 0 && height != 0
  {
    NonZeroProduct(width, height);
    Vector3Int(CsRem(idx, width), CsRem(CsDiv(idx, width), height), CsDiv(idx, width * height))
  }

  /** Index3D: the linear index of a grid position. */
  function Index3D(width: int, height: int, pos: Vector3Int): int
  {
    pos.x + width * (pos.y + height * pos.z)
  }

  lemma Position3DUnfold(width: int, height: int, idx: int)
    requires width != 0 && height != 0
    ensures width * height != 0
    ensures Position3D(width, height, idx)
      == Vector3Int(CsRem(idx, width), CsRem(CsDiv(idx, width), height), CsDiv(idx, width * height))
  {
    NonZeroProduct(width, height);
  }

  /** On non-negative indices and positive extents, Position3D is plain Euclidean arithmetic. */
  lemma Position3DNonNegative(width: int, height: int, idx: int)
    requires width > 0 && height > 0 && idx >= 0
    ensures Position3D(width, height, idx) == Vector3Int(idx % width, (idx / width) % height, (idx / width) / height)
  {
    Position3DUnfold(width, height, idx);
    CsDigits(width, height, idx);
  }

  /** The three C# quotients and remainders of Position3D, in Euclidean terms. */
  lemma CsDigits(width: int, height: int, idx: int)
    requires width > 0 && height > 0 && idx >= 0
    ensures width * height > 0
    ensures CsRem(idx, width) == idx % width
    ensures CsRem(CsDiv(idx, width), height) == (idx / width) % height
    ensures CsDiv(idx, width * height) == (idx / width) / height
  {
    CsDivRemNonNegative(idx, width);
    CsDigitY(width, height, idx);
    CsDigitZ(width, height, idx);
  }

  lemma CsDigitY(width: int, height: int, idx: int)
    requires width > 0 && height > 0 && idx >= 0
    ensures CsRem(CsDiv(idx, width), height) == (idx / width) % height
  {
    CsDivRemNonNegative(idx, width);
    CsDivRemNonNegative(idx / width, height);
  }

  lemma CsDigitZ(width: int, height: int, idx: int)
    requires width > 0 && height > 0 && idx >= 0
    ensures width * height > 0
    ensures CsDiv(idx, width * height) == (idx / width) / height
  {
    DivDiv(idx, width, height);
    CsDivRemNonNegative(idx, width * height);
  }

  /** For a non-negative index the coordinates lie in the grid; an index below
      width * height * depth also lies below depth on the z axis. */
  lemma Position3DInGrid(width: int, height: int, depth: int, idx: int)
    requires width > 0 && height > 0 && idx >= 0
    ensures var p := Position3D(width, height, idx);
      && 0 <= p.x < width && 0 <= p.y < height && 0 <= p.z
      && (idx < width * height * depth ==> p.z < depth)
  {
    Position3DNonNegative(width, height, idx);
    NestedDivBounds(width, height, depth, idx);
  }

  lemma NestedDivBounds(width: int, height: int, depth: int, idx: int)
    requires width > 0 && height > 0 && idx >= 0
    ensures 0 <= (idx / width) / height
    ensures idx < width * height * depth ==> (idx / width) / height < depth
  {
    var q := idx / width;
    assert q >= 0;
    if idx < width * height * depth {
      DivDiv(idx, width, height);
      DivBelow(idx, width * height, depth);
    }
  }

  /** Index3D undoes Position3D for every non-negative index. */
  lemma Index3DOfPosition3D(width: int, height: int, idx: int)
    requires width > 0 && height > 0 && idx >= 0
    ensures Index3D(width, height, Position3D(width, height, idx)) == idx
  {
    Position3DNonNegative(width, height, idx);
    var q := idx / width;
    assert q % height + height * (q / height) == q;
    assert idx % width + width * q == idx;
  }

  /** Position3D undoes Index3D for every point of the grid's cross-section. */
  lemma Position3DOfIndex3D(width: int, height: int, pos: Vector3Int)
    requires width > 0 && height > 0
    requires 0 <= pos.x < width && 0 <= pos.y < height && 0 <= pos.z
    ensures Index3D(width, height, pos) >= 0
    ensures Position3D(width, height, Index3D(width, height, pos)) == pos
  {
    var q := pos.y + height * pos.z;
    MulMonotone(height, 0, pos.z);
    MulMonotone(width, 0, q);
    var idx := Index3D(width, height, pos);
    DivModUnique(idx, width, q, pos.x);
    DivModUnique(q, height, pos.z, pos.y);
    Position3DNonNegative(width, height, idx);
  }

  // ---------------------------------------------------------------------------
  // Subdivision of one brick
  // ---------------------------------------------------------------------------

  /** Exact integer 3^n (the source rounds a floating-point power). */
  function Pow3(n: nat): (r: nat)
    ensures r >= 1
  {
    if n == 0 then 1 else 3 * Pow3(n - 1)
  }

  /** Offset of candidate child b inside a parent whose children have edge thirdSize. */
  function Offset(b: int, thirdSize: int): Vector3Int
  {
    Position3D(3, 3, b).Times(thirdSize)
  }

  /** Candidate child b of a brick of positive size. */
  function Child(brick: Brick, b: int): Brick
    requires brick.size > 0
  {
    Brick(brick.position.Plus(Offset(b, Pow3(brick.size - 1))), brick.size - 1)
  }

  /** Each of the 27 offsets has every component in {0, t, 2t}. */
  lemma OffsetComponents(b: int, t: int)
    requires 0 <= b < 27
    ensures var o := Offset(b, t);
      && o.x in {0, t, 2 * t} && o.y in {0, t, 2 * t} && o.z in {0, t, 2 * t}
  {
    var p := Position3D(3, 3, b);
    Position3DInGrid(3, 3, 3, b);
    SmallMultiple(p.x, t);
    SmallMultiple(p.y, t);
    SmallMultiple(p.z, t);
  }

  lemma SmallMultiple(k: int, t: int)
    requires 0 <= k < 3
    ensures k * t in {0, t, 2 * t}
  {
    if k == 2 {
      assert k * t == 2 * t;
    }
  }

  /** The 27 offsets of one brick are pairwise distinct. */
  lemma OffsetsDistinct(b1: int, b2: int, t: int)
    requires 0 <= b1 < 27 && 0 <= b2 < 27 && b1 != b2 && t > 0
    ensures Offset(b1, t) != Offset(b2, t)
  {
    var p1, p2 := Position3D(3, 3, b1), Position3D(3, 3, b2);
    Index3DOfPosition3D(3, 3, b1);
    Index3DOfPosition3D(3, 3, b2);
    assert p1 != p2;
    if p1.x != p2.x {
      ScaleDistinct(p1.x, p2.x, t);
    } else if p1.y != p2.y {
      ScaleDistinct(p1.y, p2.y, t);
    } else {
      ScaleDistinct(p1.z, p2.z, t);
    }
  }

  lemma ScaleDistinct(m: int, n: int, t: int)
    requires t > 0 && m != n
    ensures m * t != n * t
  {
    if m < n {
      MulStep(t, m, n);
    } else {
      MulStep(t, n, m);
    }
  }

  /** The children of a positive-size brick sit at distinct positions and are one size smaller. */
  lemma ChildShape(brick: Brick, b: int)
    requires brick.size > 0 && 0 <= b < 27
    ensures Child(brick, b).size == brick.size - 1 >= 0
    ensures Child(brick, b).position == brick.position.Plus(Offset(b, Pow3(brick.size - 1)))
    ensures forall b' :: 0 <= b' < 27 && b' != b ==> Child(brick, b') != Child(brick, b)
  {
    forall b' | 0 <= b' < 27 && b' != b
      ensures Child(brick, b') != Child(brick, b)
    {
      OffsetsDistinct(b', b, Pow3(brick.size - 1));
    }
  }

  /** The candidates b in [0, n) of a brick that the predicate keeps, in b order. */
  function KeptChildren(brick: Brick, keep: KeepSet, n: nat): seq<Brick>
    requires brick.size > 0 && n <= 27
  {
    if n == 0 then []
    else
      var child := Child(brick, n - 1);
      KeptChildren(brick, keep, n - 1) + (if ShouldKeepBrick(keep, child) then [child] else [])
  }

  /** The children a brick contributes to the next level: none unless its size is positive. */
  function Children(brick: Brick, keep: KeepSet): seq<Brick>
  {
    if brick.size > 0 then KeptChildren(brick, keep, 27) else []
  }

  lemma {:induction false} KeptChildrenMembers(brick: Brick, keep: KeepSet, n: nat)
    requires brick.size > 0 && n <= 27
    ensures |KeptChildren(brick, keep, n)| <= n
    ensures forall c :: c in KeptChildren(brick, keep, n) <==>
      exists b :: 0 <= b < n && c == Child(brick, b) && ShouldKeepBrick(keep, c)
  {
    if n > 0 {
      KeptChildrenMembers(brick, keep, n - 1);
    }
  }

  // ---------------------------------------------------------------------------
  // One level
  // ---------------------------------------------------------------------------

  /** The next level: each brick's kept children, in parent order and then b order. */
  function NextLevel(level: seq<Brick>, keep: KeepSet): seq<Brick>
  {
    if |level| == 0 then []
    else NextLevel(level[..|level| - 1], keep) + Children(level[|level| - 1], keep)
  }

  /** The next level grows at most 27-fold. */
  lemma {:induction false} NextLevelLength(level: seq<Brick>, keep: KeepSet)
    ensures |NextLevel(level, keep)| <= 27 * |level|
  {
    if |level| > 0 {
      var init, last := level[..|level| - 1], level[|level| - 1];
      NextLevelLength(init, keep);
      if last.size > 0 {
        KeptChildrenMembers(last, keep, 27);
      }
    }
  }

  /** Every brick of the next level is a kept candidate child of a positive-size brick. */
  lemma {:induction false} NextLevelSound(level: seq<Brick>, keep: KeepSet, c: Brick)
    requires c in NextLevel(level, keep)
    ensures exists i, b :: 0 <= i < |level| && level[i].size > 0 && 0 <= b < 27
                           && c == Child(level[i], b) && ShouldKeepBrick(keep, c)
  {
    assert |level| > 0;
    var init, last := level[..|level| - 1], level[|level| - 1];
    assert NextLevel(level, keep) == NextLevel(init, keep) + Children(last, keep);
    if c in NextLevel(init, keep) {
      NextLevelSound(init, keep, c);
      var i, b :| 0 <= i < |init| && init[i].size > 0 && 0 <= b < 27
        && c == Child(init[i], b) && ShouldKeepBrick(keep, c);
      assert level[i] == init[i];
    } else {
      assert c in Children(last, keep);
      assert last.size > 0;
      KeptChildrenMembers(last, keep, 27);
      var b :| 0 <= b < 27 && c == Child(last, b) && ShouldKeepBrick(keep, c);
      assert level[|level| - 1] == last;
    }
  }

  /** Every kept candidate child of a positive-size brick is in the next level. */
  lemma {:induction false} NextLevelComplete(level: seq<Brick>, keep: KeepSet, i: int, b: int)
    requires 0 <= i < |level| && level[i].size > 0 && 0 <= b < 27
    requires ShouldKeepBrick(keep, Child(level[i], b))
    ensures Child(level[i], b) in NextLevel(level, keep)
  {
    var init, last := level[..|level| - 1], level[|level| - 1];
    assert NextLevel(level, keep) == NextLevel(init, keep) + Children(last, keep);
    if i < |level| - 1 {
      assert init[i] == level[i];
      NextLevelComplete(init, keep, i, b);
    } else {
      KeptChildrenMembers(last, keep, 27);
    }
  }

  /** A brick is in the next level exactly when it is a kept candidate child of a
      positive-size brick of the level; the level grows at most 27-fold. */
  lemma NextLevelMembers(level: seq<Brick>, keep: KeepSet)
    ensures |NextLevel(level, keep)| <= 27 * |level|
    ensures forall c :: c in NextLevel(level, keep) <==>
      (exists i, b :: 0 <= i < |level| && level[i].size > 0 && 0 <= b < 27
                       && c == Child(level[i], b) && ShouldKeepBrick(keep, c))
  {
    NextLevelLength(level, keep);
    forall c | c in NextLevel(level, keep)
      ensures (exists i, b :: 0 <= i < |level| && level[i].size > 0 && 0 <= b < 27
                      && c == Child(level[i], b) && ShouldKeepBrick(keep, c))
    {
      NextLevelSound(level, keep, c);
    }
    forall c | (exists i, b :: 0 <= i < |level| && level[i].size > 0 && 0 <= b < 27
                      && c == Child(level[i], b) && ShouldKeepBrick(keep, c))
      ensures c in NextLevel(level, keep)
    {
      var i, b :| 0 <= i < |level| && level[i].size > 0 && 0 <= b < 27
        && c == Child(level[i], b) && ShouldKeepBrick(keep, c);
      NextLevelComplete(level, keep, i, b);
    }
  }

  /** A level whose bricks all have size <= 0 subdivides into nothing. */
  lemma {:induction false} NextLevelOfUnitBricks(level: seq<Brick>, keep: KeepSet)
    requires forall i :: 0 <= i < |level| ==> level[i].size <= 0
    ensures NextLevel(level, keep) == []
  {
    if |level| > 0 {
      NextLevelOfUnitBricks(level[..|level| - 1], keep);
    }
  }

  /** SubDivideLevel: the nested loops over the level's bricks and their 27 candidates. */
  method SubDivideLevel(level: seq<Brick>, keep: KeepSet) returns (result: seq<Brick>)
    ensures result == NextLevel(level, keep)
  {
    result := [];
    for i := 0 to |level|
      invariant result == NextLevel(level[..i], keep)
    {
      var brick := level[i];
      if brick.size > 0 {
        var thirdSubDivLevel := brick.size - 1;
        var thirdSize := Pow3(thirdSubDivLevel);
        for b := 0 to 27
          invariant result == NextLevel(level[..i], keep) + KeptChildren(brick, keep, b)
        {
          var offset := Position3D(3, 3, b).Times(thirdSize);
          var child := Brick(brick.position.Plus(offset), thirdSubDivLevel);
          if ShouldKeepBrick(keep, child) {
            result := result + [child];
          }
        }
      }
      assert level[..i + 1][..i] == level[..i];
    }
    assert level[..|level|] == level;
  }

  // ---------------------------------------------------------------------------
  // All levels
  // ---------------------------------------------------------------------------

  /** One more than the largest positive size in the brick, 1 for a brick of size <= 0. */
  function BrickHeight(brick: Brick): nat
  {
    if brick.size > 0 then brick.size + 1 else 1
  }

  /** The largest BrickHeight of a level, 0 for an empty level. */
  function Height(level: seq<Brick>): (h: nat)
    ensures forall i :: 0 <= i < |level| ==> BrickHeight(level[i]) <= h
    ensures |level| == 0 <==> h == 0
  {
    if |level| == 0 then 0
    else
      var init := Height(level[..|level| - 1]);
      var last := BrickHeight(level[|level| - 1]);
      if init < last then last else init
  }

  lemma {:induction false} HeightBelow(level: seq<Brick>, m: nat)
    requires forall i :: 0 <= i < |level| ==> BrickHeight(level[i]) <= m
    ensures Height(level) <= m
  {
    if |level| > 0 {
      HeightBelow(level[..|level| - 1], m);
    }
  }

  /** Every non-empty level is strictly higher than the next one: subdivision terminates. */
  lemma HeightDecreases(level: seq<Brick>, keep: KeepSet)
    requires |level| > 0
    ensures Height(NextLevel(level, keep)) < Height(level)
  {
    var next := NextLevel(level, keep);
    NextLevelMembers(level, keep);
    forall k | 0 <= k < |next|
      ensures BrickHeight(next[k]) <= Height(level) - 1
    {
      assert next[k] in next;
      var i, b :| 0 <= i < |level| && level[i].size > 0 && 0 <= b < 27
        && next[k] == Child(level[i], b) && ShouldKeepBrick(keep, next[k]);
    }
    HeightBelow(next, Height(level) - 1);
  }

  /** Everything SubDivideBricks appends: each level in turn until a level is empty. */
  function SubDivideAll(level: seq<Brick>, keep: KeepSet): seq<Brick>
    decreases Height(level)
  {
    if |level| == 0 then []
    else
      var next := NextLevel(level, keep);
      HeightDecreases(level, keep);
      next + SubDivideAll(next, keep)
  }

  /** Only bricks of size >= 0, each smaller than the largest input brick, are ever appended. */
  lemma {:induction false} SubDivideAllSizes(level: seq<Brick>, keep: KeepSet)
    ensures forall c :: c in SubDivideAll(level, keep) ==> 0 <= c.size && c.size + 2 <= Height(level)
    decreases Height(level)
  {
    if |level| > 0 {
      var next := NextLevel(level, keep);
      NextLevelMembers(level, keep);
      HeightDecreases(level, keep);
      SubDivideAllSizes(next, keep);
      forall c | c in next
        ensures 0 <= c.size && c.size + 2 <= Height(level)
      {
        var i, b :| 0 <= i < |level| && level[i].size > 0 && 0 <= b < 27
          && c == Child(level[i], b) && ShouldKeepBrick(keep, c);
      }
    }
  }

  /** One iteration of SubDivideBricks keeps "output so far + what remains" fixed and lowers the height. */
  lemma SubDivideStep(level: seq<Brick>, next: seq<Brick>, keep: KeepSet,
                      items: seq<Brick>, total: seq<Brick>)
    requires |level| > 0 && next == NextLevel(level, keep)
    requires items + SubDivideAll(level, keep) == total
    ensures Height(next) < Height(level)
    ensures (items + next) + SubDivideAll(next, keep) == total
  {
    HeightDecreases(level, keep);
    assert SubDivideAll(level, keep) == next + SubDivideAll(next, keep);
  }

  /** Every brick appended after a prefix has size >= 0. */
  lemma AppendedSizes(prefix: seq<Brick>, inBricks: seq<Brick>, keep: KeepSet)
    ensures var items := prefix + SubDivideAll(inBricks, keep);
      forall k :: |prefix| <= k < |items| ==> items[k].size >= 0
  {
    var all := SubDivideAll(inBricks, keep);
    SubDivideAllSizes(inBricks, keep);
    forall k | |prefix| <= k < |prefix + all|
      ensures (prefix + all)[k].size >= 0
    {
      assert (prefix + all)[k] == all[k - |prefix|];
      assert all[k - |prefix|] in all;
    }
  }

  /** SubDivideBricks: appends every level to outBricks until a level comes out empty. */
  method SubDivideBricks(inBricks: seq<Brick>, outBricks: BrickList, keep: KeepSet)
    modifies outBricks
    ensures outBricks.items == old(outBricks.items) + SubDivideAll(inBricks, keep)
    ensures forall k :: |old(outBricks.items)| <= k < |outBricks.items| ==> outBricks.items[k].size >= 0
  {
    ghost var total := outBricks.items + SubDivideAll(inBricks, keep);
    var level := inBricks;
    while |level| != 0
      invariant outBricks.items + SubDivideAll(level, keep) == total
      decreases Height(level)
    {
      ghost var previous := level;
      level := SubDivideLevel(level, keep);
      SubDivideStep(previous, level, keep, outBricks.items, total);
      outBricks.items := outBricks.items + level;
    }
    AppendedSizes(old(outBricks.items), inBricks, keep);
  }
}
