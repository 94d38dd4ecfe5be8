/**
 reduce_apply of src/mpi.c: the element operations of MPI_Reduce on the two integer types, and what
 folding many contributions with them means. C leaves signed overflow undefined; here it wraps,
 and a fold that does not overflow is shown to be the exact one.
 */
module ReduceOps {
  import opened Counting
  import opened MpiCodes

  datatype Op = Sum | Prod | Max | Min
  datatype Ty = Int | Long

  function Modulus(ty: Ty): int {
    match ty
    case Int => 0x1_0000_0000
    case Long => 0x1_0000_0000_0000_0000
  }

  predicate InRange(x: int, ty: Ty) {
    -Modulus(ty) / 2 <= x < Modulus(ty) / 2
  }

  function Wrap(x: int, ty: Ty): int {
    (x + Modulus(ty) / 2) % Modulus(ty) - Modulus(ty) / 2
  }

  function Exact(op: Op, a: int, b: int): int {
    match op
    case Sum => a + b
    case Prod => a * b
    case Max => if b > a then b else a
    case Min => if b < a then b else a
  }

  function Combine(op: Op, ty: Ty, a: int, b: int): int {
    if op.Sum? || op.Prod? then Wrap(Exact(op, a, b), ty) else Exact(op, a, b)
  }

  // ---------------------------------------------------------------- wrapping arithmetic

  lemma WrapDiffers(x: int, ty: Ty) returns (k: int)
    ensures Wrap(x, ty) == x + k * Modulus(ty)
  {
    var m := Modulus(ty);
    k := -((x + m / 2) / m);
  }

  lemma WrapShiftInt(x: int, k: int)
    ensures (x + k * 0x1_0000_0000) % 0x1_0000_0000 == x % 0x1_0000_0000
  {
  }

  lemma WrapShiftLong(x: int, k: int)
    ensures (x + k * 0x1_0000_0000_0000_0000) % 0x1_0000_0000_0000_0000 == x % 0x1_0000_0000_0000_0000
  {
  }

  lemma WrapShift(x: int, k: int, ty: Ty)
    ensures Wrap(x + k * Modulus(ty), ty) == Wrap(x, ty)
  {
    match ty {
      case Int => WrapShiftInt(x + 0x8000_0000, k);
      case Long => WrapShiftLong(x + 0x8000_0000_0000_0000, k);
    }
  }

  // Wrapping an operand first changes nothing once the result is wrapped.
  lemma WrapAbsorbed(op: Op, ty: Ty, a: int, b: int)
    requires op.Sum? || op.Prod?
    ensures Wrap(Exact(op, Wrap(a, ty), b), ty) == Wrap(Exact(op, a, b), ty)
  {
    var k := WrapDiffers(a, ty);
    var m := Modulus(ty);
    if op.Sum? {
      WrapShift(a + b, k, ty);
      assert (a + k * m) + b == (a + b) + k * m;
    } else {
      WrapShift(a * b, k * b, ty);
      assert (a + k * m) * b == a * b + (k * b) * m;
    }
  }

  lemma CombineCommutes(op: Op, ty: Ty, a: int, b: int)
    ensures Combine(op, ty, a, b) == Combine(op, ty, b, a)
  {
  }

  lemma SumsAssociate(ty: Ty, a: int, b: int, c: int)
    ensures Wrap(Wrap(a + b, ty) + c, ty) == Wrap(a + Wrap(b + c, ty), ty)
  {
    WrapAbsorbed(Sum, ty, a + b, c);
    WrapAbsorbed(Sum, ty, b + c, a);
    assert Wrap(b + c, ty) + a == a + Wrap(b + c, ty);
    assert (a + b) + c == (b + c) + a;
  }

  lemma ProductsAssociate(ty: Ty, a: int, b: int, c: int)
    ensures Wrap(Wrap(a * b, ty) * c, ty) == Wrap(a * Wrap(b * c, ty), ty)
  {
    WrapAbsorbed(Prod, ty, a * b, c);
    WrapAbsorbed(Prod, ty, b * c, a);
    assert Wrap(b * c, ty) * a == a * Wrap(b * c, ty);
    assert (a * b) * c == (b * c) * a;
  }

  lemma CombineAssociates(op: Op, ty: Ty, a: int, b: int, c: int)
    ensures Combine(op, ty, Combine(op, ty, a, b), c) == Combine(op, ty, a, Combine(op, ty, b, c))
  {
    match op
    case Sum => SumsAssociate(ty, a, b, c);
    case Prod => ProductsAssociate(ty, a, b, c);
    case Max =>
    case Min =>
  }

  // ---------------------------------------------------------------- folding buffers

  function CombineAll(op: Op, ty: Ty, a: seq<int>, b: seq<int>): (r: seq<int>)
    requires |a| == |b|
    ensures |r| == |a|
    ensures forall i :: 0 <= i < |a| ==> r[i] == Combine(op, ty, a[i], b[i])
  {
    seq(|a|, i requires 0 <= i < |a| => Combine(op, ty, a[i], b[i]))
  }

  predicate SameLength(acc: seq<int>, xs: seq<seq<int>>) {
    forall i :: 0 <= i < |xs| ==> |xs[i]| == |acc|
  }

  // The root's accumulator after it has folded in xs, in that order.
  function Fold(op: Op, ty: Ty, acc: seq<int>, xs: seq<seq<int>>): (r: seq<int>)
    requires SameLength(acc, xs)
    ensures |r| == |acc|
    decreases |xs|
  {
    if xs == [] then acc
    else
      var rest := xs[..|xs| - 1];
      CombineAll(op, ty, Fold(op, ty, acc, rest), xs[|xs| - 1])
  }

  lemma CombineAllSwap(op: Op, ty: Ty, a: seq<int>, b: seq<int>, c: seq<int>)
    requires |a| == |b| == |c|
    ensures CombineAll(op, ty, CombineAll(op, ty, a, b), c) == CombineAll(op, ty, CombineAll(op, ty, a, c), b)
    ensures CombineAll(op, ty, a, b) == CombineAll(op, ty, b, a)
  {
    forall i | 0 <= i < |a|
      ensures Combine(op, ty, Combine(op, ty, a[i], b[i]), c[i]) == Combine(op, ty, Combine(op, ty, a[i], c[i]), b[i])
      ensures Combine(op, ty, a[i], b[i]) == Combine(op, ty, b[i], a[i])
    {
      CombineAssociates(op, ty, a[i], b[i], c[i]);
      CombineAssociates(op, ty, a[i], c[i], b[i]);
      CombineCommutes(op, ty, b[i], c[i]);
      CombineCommutes(op, ty, a[i], b[i]);
    }
  }

  lemma FoldSplits(op: Op, ty: Ty, acc: seq<int>, xs: seq<seq<int>>, x: seq<int>)
    requires SameLength(acc, xs) && |x| == |acc|
    ensures SameLength(acc, xs + [x]) && Fold(op, ty, acc, xs + [x]) == CombineAll(op, ty, Fold(op, ty, acc, xs), x)
  {
    assert (xs + [x])[..|xs|] == xs;
  }

  lemma WithoutKeepsLength(acc: seq<int>, xs: seq<seq<int>>, i: nat)
    requires SameLength(acc, xs) && i < |xs|
    ensures SameLength(acc, Without(xs, i)) && |xs[i]| == |acc|
  {
  }

  lemma WithoutLast<T>(rest: seq<T>, x: T, i: nat)
    requires i < |rest|
    ensures Without(rest + [x], i) == Without(rest, i) + [x]
  {
  }

  // Any one contribution may as well have come last.
  lemma {:induction false} FoldPullsOut(op: Op, ty: Ty, acc: seq<int>, xs: seq<seq<int>>, i: nat)
    requires SameLength(acc, xs) && i < |xs|
    ensures SameLength(acc, Without(xs, i))
    ensures Fold(op, ty, acc, xs) == CombineAll(op, ty, Fold(op, ty, acc, Without(xs, i)), xs[i])
    decreases |xs|
  {
    var n := |xs| - 1;
    var rest, last := xs[..n], xs[n];
    assert xs == rest + [last];
    WithoutKeepsLength(acc, xs, i);
    FoldSplits(op, ty, acc, rest, last);
    if i == n {
      assert Without(xs, i) == rest;
    } else {
      FoldPullsOut(op, ty, acc, rest, i);
      WithoutLast(rest, last, i);
      var w := Without(rest, i);
      FoldSplits(op, ty, acc, w, last);
      CombineAllSwap(op, ty, Fold(op, ty, acc, w), xs[i], last);
    }
  }

  lemma {:induction false} FoldIgnoresOrder(op: Op, ty: Ty, acc: seq<int>, xs: seq<seq<int>>, ys: seq<seq<int>>)
    requires SameLength(acc, xs) && SameLength(acc, ys) && multiset(xs) == multiset(ys)
    ensures Fold(op, ty, acc, xs) == Fold(op, ty, acc, ys)
    decreases |xs|
  {
    assert |xs| == |multiset(xs)| == |multiset(ys)| == |ys|;
    if ys != [] {
      var n := |ys| - 1;
      var i := FindEqual(xs, ys, n);
      FoldPullsOut(op, ty, acc, xs, i);
      FoldIgnoresOrder(op, ty, acc, Without(xs, i), ys[..n]);
    }
  }

  // The seed may be any of the contributions too.
  lemma FoldSwapsSeed(op: Op, ty: Ty, a: seq<int>, b: seq<int>, xs: seq<seq<int>>)
    requires |a| == |b| && SameLength(a, xs)
    ensures Fold(op, ty, a, [b] + xs) == Fold(op, ty, b, [a] + xs)
    decreases |xs|
  {
    if xs == [] {
      CombineAllSwap(op, ty, a, b, b);
      assert ([b] + xs)[..0] == [] && ([a] + xs)[..0] == [];
    } else {
      var n := |xs| - 1;
      assert ([b] + xs)[..n + 1] == [b] + xs[..n] && ([a] + xs)[..n + 1] == [a] + xs[..n];
      FoldSwapsSeed(op, ty, a, b, xs[..n]);
    }
  }

  // What a reduction over every rank's buffer is meant to give: the fold in rank order.
  function FoldRanks(op: Op, ty: Ty, inputs: seq<seq<int>>): seq<int>
    requires inputs != [] && SameLength(inputs[0], inputs)
  {
    Fold(op, ty, inputs[0], inputs[1..])
  }

  lemma WithoutTail<T>(xs: seq<T>, i: nat)
    requires 0 < i < |xs|
    ensures Without(xs, i) == [xs[0]] + Without(xs[1..], i - 1)
  {
  }

  // Moving the seed: everyone but the root, with the root's buffer in rank 0's place.
  lemma SeedExchange<T>(inputs: seq<T>, root: nat) returns (rest: seq<T>)
    requires 0 < root < |inputs|
    ensures Without(inputs, root) == [inputs[0]] + rest
    ensures multiset([inputs[root]] + rest) == multiset(inputs[1..])
  {
    var tail := inputs[1..];
    rest := Without(tail, root - 1);
    WithoutTakesOne(tail, root - 1);
    assert tail[root - 1] == inputs[root];
    assert multiset([inputs[root]] + rest) == multiset{inputs[root]} + multiset(rest);
    WithoutTail(inputs, root);
  }

  lemma AllSameLength(inputs: seq<seq<int>>, root: nat)
    requires root < |inputs| && SameLength(inputs[0], inputs)
    ensures SameLength(inputs[root], Without(inputs, root)) && |inputs[root]| == |inputs[0]|
    ensures SameLength(inputs[0], inputs[1..])
  {
  }

  // Folding everyone else into the root's buffer, in rank order, is folding in rank order.
  lemma SeedIsIrrelevant(op: Op, ty: Ty, inputs: seq<seq<int>>, root: nat)
    requires root < |inputs| && SameLength(inputs[0], inputs)
    requires SameLength(inputs[root], Without(inputs, root))
    ensures Fold(op, ty, inputs[root], Without(inputs, root)) == FoldRanks(op, ty, inputs)
  {
    if root == 0 {
      assert Without(inputs, root) == inputs[1..];
    } else {
      AllSameLength(inputs, root);
      var a, b := inputs[root], inputs[0];
      var rest := SeedExchange(inputs, root);
      TailSameLength(a, b, rest);
      FoldSwapsSeed(op, ty, a, b, rest);
      FoldIgnoresOrder(op, ty, b, [a] + rest, inputs[1..]);
    }
  }

  lemma TailSameLength(a: seq<int>, b: seq<int>, rest: seq<seq<int>>)
    requires |a| == |b| && SameLength(a, [b] + rest)
    ensures SameLength(a, rest) && SameLength(b, [a] + rest)
  {
    forall i | 0 <= i < |rest|
      ensures |rest[i]| == |a|
    {
      assert rest[i] == ([b] + rest)[i + 1];
    }
  }

  /** Whoever seeds the accumulator and in whatever order the others arrive, the result is the fold
      in rank order: for all four operations, wrapping included. */
  lemma ArrivalOrderIsIrrelevant(op: Op, ty: Ty, inputs: seq<seq<int>>, root: nat, arrivals: seq<seq<int>>)
    requires root < |inputs| && SameLength(inputs[0], inputs)
    requires SameLength(inputs[root], arrivals) && multiset(arrivals) == multiset(Without(inputs, root))
    ensures Fold(op, ty, inputs[root], arrivals) == FoldRanks(op, ty, inputs)
  {
    AllSameLength(inputs, root);
    FoldIgnoresOrder(op, ty, inputs[root], arrivals, Without(inputs, root));
    SeedIsIrrelevant(op, ty, inputs, root);
  }

  // ---------------------------------------------------------------- overflow

  // The fold of one column, without wrapping.
  function ExactColumn(op: Op, acc: seq<int>, xs: seq<seq<int>>, i: nat): int
    requires SameLength(acc, xs) && i < |acc|
    decreases |xs|
  {
    if xs == [] then acc[i] else Exact(op, ExactColumn(op, acc, xs[..|xs| - 1], i), xs[|xs| - 1][i])
  }

  lemma WrapInRange(x: int, ty: Ty)
    ensures InRange(Wrap(x, ty), ty)
    ensures Wrap(x, ty) == x <==> InRange(x, ty)
  {
  }

  lemma {:induction false} FoldIsWrappedExact(op: Op, ty: Ty, acc: seq<int>, xs: seq<seq<int>>, i: nat)
    requires SameLength(acc, xs) && i < |acc| && InRange(acc[i], ty)
    requires forall k :: 0 <= k < |xs| ==> InRange(xs[k][i], ty)
    ensures Fold(op, ty, acc, xs)[i] == Wrap(ExactColumn(op, acc, xs, i), ty)
    decreases |xs|
  {
    if xs == [] {
      WrapInRange(acc[i], ty);
    } else {
      var n := |xs| - 1;
      FoldIsWrappedExact(op, ty, acc, xs[..n], i);
      var exact := ExactColumn(op, acc, xs[..n], i);
      assert InRange(xs[n][i], ty);
      if op.Sum? || op.Prod? {
        WrapAbsorbed(op, ty, exact, xs[n][i]);
      } else {
        ExtremesStayInRange(op, ty, acc, xs[..n], i);
        WrapInRange(exact, ty);
        WrapInRange(ExactColumn(op, acc, xs, i), ty);
      }
    }
  }

  lemma {:induction false} ExtremesStayInRange(op: Op, ty: Ty, acc: seq<int>, xs: seq<seq<int>>, i: nat)
    requires SameLength(acc, xs) && i < |acc| && InRange(acc[i], ty) && (op.Max? || op.Min?)
    requires forall k :: 0 <= k < |xs| ==> InRange(xs[k][i], ty)
    ensures InRange(ExactColumn(op, acc, xs, i), ty)
    decreases |xs|
  {
    if xs != [] {
      ExtremesStayInRange(op, ty, acc, xs[..|xs| - 1], i);
      assert InRange(xs[|xs| - 1][i], ty);
    }
  }

  /** On inputs of the type, each element of the result is the exact fold if and only if that exact
      fold fits the type; MAX and MIN always do. */
  lemma FoldIsExactWhenItFits(op: Op, ty: Ty, acc: seq<int>, xs: seq<seq<int>>, i: nat)
    requires SameLength(acc, xs) && i < |acc| && InRange(acc[i], ty)
    requires forall k :: 0 <= k < |xs| ==> InRange(xs[k][i], ty)
    ensures Fold(op, ty, acc, xs)[i] == ExactColumn(op, acc, xs, i) <==> InRange(ExactColumn(op, acc, xs, i), ty)
    ensures op.Max? || op.Min? ==> InRange(ExactColumn(op, acc, xs, i), ty)
  {
    FoldIsWrappedExact(op, ty, acc, xs, i);
    WrapInRange(ExactColumn(op, acc, xs, i), ty);
    if op.Max? || op.Min? {
      ExtremesStayInRange(op, ty, acc, xs, i);
    }
  }

  // ---------------------------------------------------------------- what the four operations mean

  // Column i: the accumulator's element, then every contribution's.
  function Column(acc: seq<int>, xs: seq<seq<int>>, i: nat): (col: seq<int>)
    requires SameLength(acc, xs) && i < |acc|
    ensures |col| == |xs| + 1 && col[0] == acc[i] && forall k :: 0 <= k < |xs| ==> col[k + 1] == xs[k][i]
  {
    [acc[i]] + seq(|xs|, k requires 0 <= k < |xs| => xs[k][i])
  }

  function Total(col: seq<int>): int {
    if col == [] then 0 else Total(col[..|col| - 1]) + col[|col| - 1]
  }

  function Product(col: seq<int>): int {
    if col == [] then 1 else Product(col[..|col| - 1]) * col[|col| - 1]
  }

  predicate IsMaximum(m: int, col: seq<int>) {
    m in col && forall k :: 0 <= k < |col| ==> col[k] <= m
  }

  predicate IsMinimum(m: int, col: seq<int>) {
    m in col && forall k :: 0 <= k < |col| ==> m <= col[k]
  }

  // x is y reduced to a signed word of that width.
  predicate IsWordOf(x: int, y: int, ty: Ty) {
    match ty
    case Int => -0x8000_0000 <= x <= 0x7FFF_FFFF && (y - x) % 0x1_0000_0000 == 0
    case Long =>
      -0x8000_0000_0000_0000 <= x <= 0x7FFF_FFFF_FFFF_FFFF && (y - x) % 0x1_0000_0000_0000_0000 == 0
  }

  lemma WrapIsWord(y: int, ty: Ty)
    ensures IsWordOf(Wrap(y, ty), y, ty)
  {
    var k := WrapDiffers(y, ty);
    match ty {
      case Int => WrapShiftInt(0, -k);
      case Long => WrapShiftLong(0, -k);
    }
  }

  lemma ColumnGrows(acc: seq<int>, xs: seq<seq<int>>, i: nat)
    requires SameLength(acc, xs) && i < |acc| && xs != []
    ensures var n := |xs| - 1; Column(acc, xs, i) == Column(acc, xs[..n], i) + [xs[n][i]]
  {
  }

  lemma ExtremeGrows(m: int, m': int, col: seq<int>, x: int)
    ensures IsMaximum(m, col) && m' == (if x > m then x else m) ==> IsMaximum(m', col + [x])
    ensures IsMinimum(m, col) && m' == (if x < m then x else m) ==> IsMinimum(m', col + [x])
  {
    if m in col {
      var k :| 0 <= k < |col| && col[k] == m;
      assert (col + [x])[k] == m;
    }
    assert (col + [x])[|col|] == x;
  }

  lemma OneMoreFactor(col: seq<int>, x: int)
    ensures Total(col + [x]) == Total(col) + x && Product(col + [x]) == Product(col) * x
  {
    assert (col + [x])[..|col|] == col;
  }

  /** What an exact fold is, element by element: the sum, product, maximum or minimum of the column. */
  lemma {:induction false} ExactColumnMeans(op: Op, acc: seq<int>, xs: seq<seq<int>>, i: nat)
    requires SameLength(acc, xs) && i < |acc|
    ensures var x, col := ExactColumn(op, acc, xs, i), Column(acc, xs, i);
            match op
            case Sum => x == Total(col)
            case Prod => x == Product(col)
            case Max => IsMaximum(x, col)
            case Min => IsMinimum(x, col)
    decreases |xs|
  {
    if xs == [] {
      assert Column(acc, xs, i) == [acc[i]];
      OneMoreFactor([], acc[i]);
      assert [] + [acc[i]] == [acc[i]];
      assert Total([]) == 0 && Product([]) == 1;
    } else {
      var n := |xs| - 1;
      ExactColumnMeans(op, acc, xs[..n], i);
      ColumnGrows(acc, xs, i);
      var col := Column(acc, xs[..n], i);
      OneMoreFactor(col, xs[n][i]);
      ExtremeGrows(ExactColumn(op, acc, xs[..n], i), ExactColumn(op, acc, xs, i), col, xs[n][i]);
    }
  }

  /** The reduction of the ranks' buffers, element by element: the largest or smallest of what the ranks
      passed in, or their sum or product reduced to the type's width. */
  lemma ReductionMeans(op: Op, ty: Ty, inputs: seq<seq<int>>, i: nat)
    requires inputs != [] && SameLength(inputs[0], inputs) && i < |inputs[0]|
    requires forall q :: 0 <= q < |inputs| ==> InRange(inputs[q][i], ty)
    ensures var x, col := FoldRanks(op, ty, inputs)[i], seq(|inputs|, q requires 0 <= q < |inputs| => inputs[q][i]);
            match op
            case Sum => IsWordOf(x, Total(col), ty)
            case Prod => IsWordOf(x, Product(col), ty)
            case Max => IsMaximum(x, col)
            case Min => IsMinimum(x, col)
  {
    var acc, xs := inputs[0], inputs[1..];
    FoldIsWrappedExact(op, ty, acc, xs, i);
    ExactColumnMeans(op, acc, xs, i);
    assert Column(acc, xs, i) == seq(|inputs|, q requires 0 <= q < |inputs| => inputs[q][i]);
    var exact := ExactColumn(op, acc, xs, i);
    WrapIsWord(exact, ty);
    if op.Max? || op.Min? {
      ExtremesStayInRange(op, ty, acc, xs, i);
      WrapInRange(exact, ty);
    }
  }

  // ---------------------------------------------------------------- the loop of the source

  function OpOf(code: int): Op {
    if code == 0 then Sum else if code == 1 then Prod else if code == 2 then Max else Min
  }

  function TyOf(code: int): Ty {
    if code == MPI_INT then Int else Long
  }

  // One element after reduce_apply, by the codes of include/mpi.h.
  predicate Accumulates(x: int, d: int, e: int, ty: int, op: int) {
    var width := if ty == 2 then Int else Long;
    && (op == 0 ==> IsWordOf(x, d + e, width))
    && (op == 1 ==> IsWordOf(x, d * e, width))
    && (op == 2 ==> (x == d || x == e) && d <= x && e <= x)
    && (op == 3 ==> (x == d || x == e) && x <= d && x <= e)
  }

  // One pass of the loop.
  method ApplyOne(d: int, e: int, t: Ty, op: int) returns (x: int)
    requires 0 <= op <= 3
    ensures x == Combine(OpOf(op), t, d, e)
    ensures Accumulates(x, d, e, if t.Int? then 2 else 3, op)
  {
    if op == MPI_SUM {
      x := Wrap(d + e, t);
      WrapIsWord(d + e, t);
    } else if op == MPI_PROD {
      x := Wrap(d * e, t);
      WrapIsWord(d * e, t);
    } else if op == MPI_MAX {
      x := if e > d then e else d;
    } else {
      x := if e < d then e else d;
    }
  }

  /** Accumulates src into dst in place. An operation that does not exist is an error only if there
      is an element to apply it to, and then nothing has changed. */
  method ReduceApply(dst: array<int>, src: seq<int>, count: nat, ty: int, op: int) returns (rc: int)
    requires count <= dst.Length && count <= |src| && ty != MPI_DOUBLE
    modifies dst
    ensures rc == if ty != MPI_INT && ty != MPI_LONG then MPI_ERR_TYPE
                  else if count > 0 && !(0 <= op <= 3) then MPI_ERR_OP
                  else MPI_SUCCESS
    ensures rc != MPI_SUCCESS ==> dst[..] == old(dst[..])
    ensures rc == MPI_SUCCESS ==>
              && (forall k :: 0 <= k < count ==> Accumulates(dst[k], old(dst[k]), src[k], ty, op))
              && dst[..count] == CombineAll(OpOf(op), TyOf(ty), old(dst[..count]), src[..count])
              && dst[count..] == old(dst[count..])
  {
    if ty != MPI_INT && ty != MPI_LONG {
      return MPI_ERR_TYPE;
    }
    var t := TyOf(ty);
    var i := 0;
    while i < count
      invariant 0 <= i <= count
      invariant i > 0 ==> 0 <= op <= 3
      invariant forall k :: 0 <= k < i ==> Accumulates(dst[k], old(dst[k]), src[k], ty, op)
      invariant forall k :: 0 <= k < i ==> dst[k] == Combine(OpOf(op), t, old(dst[k]), src[k])
      invariant forall k :: i <= k < dst.Length ==> dst[k] == old(dst[k])
    {
      if op < MPI_SUM || op > MPI_MIN {
        return MPI_ERR_OP;
      }
      dst[i] := ApplyOne(dst[i], src[i], t, op);
      i := i + 1;
    }
    return MPI_SUCCESS;
  }
}
