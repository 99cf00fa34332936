/**
 * The connection lines of one animation frame, recorded as data: which pairs
 * of particles are joined and with what stroke opacity.
 *
 * `Math.sqrt` is an argument `sqrt`; the lemmas that need its meaning assume
 * only `IsSqrt(sqrt)`.
 */
module Links {
  import opened Particles

  /** A line from particle `i` to particle `j` with stroke opacity `opacity`. */
  datatype Link = Link(i: nat, j: nat, opacity: real)

  /** The squared Euclidean distance between two particles' positions. */
  function Dist2(a: ParticleState, b: ParticleState): real {
    (a.x - b.x) * (a.x - b.x) + (a.y - b.y) * (a.y - b.y)
  }

  /** `sqrt` returns the non-negative square root of every non-negative real. */
  ghost predicate IsSqrt(sqrt: real -> real) {
    forall v: real :: 0.0 <= v ==> 0.0 <= sqrt(v) && sqrt(v) * sqrt(v) == v
  }

  /** The stroke opacity of a line of length `d` under threshold `cd`. */
  function Opacity(d: real, cd: real): real
    requires cd > 0.0
  {
    (1.0 - d / cd) * 0.2
  }

  /** The line between two particles is drawn when their distance is strictly below `cd`. */
  predicate Close(p: ParticleState, q: ParticleState, cd: real, sqrt: real -> real) {
    sqrt(Dist2(p, q)) < cd
  }

  lemma Dist2NonNegative(a: ParticleState, b: ParticleState)
    ensures Dist2(a, b) >= 0.0
  {
    var dx, dy := a.x - b.x, a.y - b.y;
    assert dx * dx >= 0.0;
    assert dy * dy >= 0.0;
  }

  lemma ProductPositive(x: real, y: real)
    requires 0.0 < x && 0.0 < y
    ensures 0.0 < x * y
  {
  }

  lemma ProductNonNegative(x: real, y: real)
    requires 0.0 <= x && 0.0 <= y
    ensures 0.0 <= x * y
  {
  }

  /** Comparing the root with the threshold is comparing the square with its square. */
  lemma RootBelowIffSquareBelow(d: real, cd: real)
    requires 0.0 <= d && 0.0 < cd
    ensures d < cd <==> d * d < cd * cd
  {
    assert cd * cd - d * d == (cd - d) * (cd + d);
    if d < cd {
      ProductPositive(cd - d, cd + d);
    } else {
      ProductNonNegative(d - cd, cd + d);
      assert (d - cd) * (cd + d) == -((cd - d) * (cd + d));
    }
  }

  lemma CloseIffSquared(p: ParticleState, q: ParticleState, cd: real, sqrt: real -> real)
    requires IsSqrt(sqrt) && cd > 0.0
    ensures Close(p, q, cd, sqrt) <==> Dist2(p, q) < cd * cd
  {
    Dist2NonNegative(p, q);
    var d := sqrt(Dist2(p, q));
    assert 0.0 <= d && d * d == Dist2(p, q);
    RootBelowIffSquareBelow(d, cd);
  }

  /** A ratio of a non-negative length to the positive threshold lies in [0, 1)
      when the length is below the threshold, and is 0 only for length 0. */
  lemma RatioBelowOne(d: real, cd: real)
    requires 0.0 <= d < cd
    ensures 0.0 <= d / cd < 1.0
    ensures d / cd == 0.0 <==> d == 0.0
  {
    var q := d / cd;
    assert q * cd == d;
    if q >= 1.0 {
      assert (q - 1.0) * cd == q * cd - cd;
      ProductNonNegative(q - 1.0, cd);
    }
  }

  lemma OpacityRange(d: real, cd: real)
    requires 0.0 <= d < cd
    ensures 0.0 < Opacity(d, cd) <= 0.2
    ensures Opacity(d, cd) == 0.2 <==> d == 0.0
  {
    RatioBelowOne(d, cd);
  }

  lemma OpacityDecreasing(d1: real, d2: real, cd: real)
    requires 0.0 <= d1 < d2 && cd > 0.0
    ensures Opacity(d1, cd) > Opacity(d2, cd)
  {
    var q1, q2 := d1 / cd, d2 / cd;
    assert q1 * cd == d1 && q2 * cd == d2;
    if q2 <= q1 {
      assert (q1 - q2) * cd == q1 * cd - q2 * cd;
      ProductNonNegative(q1 - q2, cd);
    }
  }

  /** The distance from a particle at `p` to each particle of `others`, in order. */
  function Distances(p: ParticleState, others: seq<ParticleState>, sqrt: real -> real): (ds: seq<real>)
    ensures |ds| == |others|
    ensures forall j :: 0 <= j < |others| ==> ds[j] == sqrt(Dist2(p, others[j]))
  {
    seq(|others|, j requires 0 <= j < |others| => sqrt(Dist2(p, others[j])))
  }

  /** The links row `i` of a frame records for columns `i+1 .. hi-1`, given the
      distance `ds[j]` from particle `i` to particle `j`. */
  function RowLinks(i: nat, ds: seq<real>, hi: nat, cd: real): seq<Link>
    requires i + 1 <= hi <= |ds| && cd > 0.0
    decreases hi
  {
    if hi == i + 1 then []
    else
      var j := hi - 1;
      RowLinks(i, ds, j, cd) + (if ds[j] < cd then [Link(i, j, Opacity(ds[j], cd))] else [])
  }

  /** A matrix with one row of length `|m|` per index. */
  predicate Square(m: seq<seq<real>>) {
    forall k :: 0 <= k < |m| ==> |m[k]| == |m|
  }

  /** The links of the first `n` rows, row `i` reading its distances from `m[i]`. */
  function MatrixLinks(m: seq<seq<real>>, cd: real, n: nat): seq<Link>
    requires n <= |m| && Square(m) && cd > 0.0
  {
    if n == 0 then []
    else MatrixLinks(m, cd, n - 1) + RowLinks(n - 1, m[n - 1], |m|, cd)
  }

  /** The distances a frame that starts from `before` compares: row `i` holds
      particle `i` already moved against every particle not yet moved. */
  function DistanceMatrix(before: seq<ParticleState>, w: real, h: real, sqrt: real -> real): (m: seq<seq<real>>)
    ensures |m| == |before| && Square(m)
  {
    seq(|before|, i requires 0 <= i < |before| => Distances(Advance(before[i], w, h), before, sqrt))
  }

  /** The links of the first `n` rows of a frame that starts from `before`. */
  function FrameLinks(before: seq<ParticleState>, w: real, h: real, cd: real,
                      sqrt: real -> real, n: nat): seq<Link>
    requires n <= |before| && cd > 0.0
  {
    MatrixLinks(DistanceMatrix(before, w, h, sqrt), cd, n)
  }

  /** Lexicographic order on the (i, j) pairs of two links. */
  predicate Precedes(a: Link, b: Link) {
    a.i < b.i || (a.i == b.i && a.j < b.j)
  }

  /** Strictly increasing (i, j) order. */
  ghost predicate Ordered(links: seq<Link>) {
    forall a, b :: 0 <= a < b < |links| ==> Precedes(links[a], links[b])
  }

  lemma AppendOrdered(xs: seq<Link>, ys: seq<Link>)
    requires Ordered(xs) && Ordered(ys)
    requires forall x, y | x in xs && y in ys :: Precedes(x, y)
    ensures Ordered(xs + ys)
  {
    var zs := xs + ys;
    forall a, b | 0 <= a < b < |zs|
      ensures Precedes(zs[a], zs[b])
    {
      if b < |xs| {
        assert zs[a] == xs[a] && zs[b] == xs[b];
      } else if a < |xs| {
        assert zs[a] == xs[a] && zs[b] == ys[b - |xs|];
        assert xs[a] in xs && ys[b - |xs|] in ys;
      } else {
        assert zs[a] == ys[a - |xs|] && zs[b] == ys[b - |xs|];
      }
    }
  }

  /** Link `l` is the line from particle `i` to a later particle `l.j` whose
      distance `ds[l.j]` is below the threshold, with that distance's opacity. */
  ghost predicate RowLink(i: nat, ds: seq<real>, cd: real, l: Link)
    requires cd > 0.0
  {
    l.i == i && i < l.j < |ds| && ds[l.j] < cd && l.opacity == Opacity(ds[l.j], cd)
  }

  /** Every link of a row is a line of that row to a column below `hi`. */
  lemma {:induction false} RowLinksSound(i: nat, ds: seq<real>, hi: nat, cd: real)
    requires i + 1 <= hi <= |ds| && cd > 0.0
    ensures forall l | l in RowLinks(i, ds, hi, cd) :: l.j < hi && RowLink(i, ds, cd, l)
  {
    if hi > i + 1 {
      RowLinksSound(i, ds, hi - 1, cd);
    }
  }

  /** Every link of a row starts at `i` and ends at a column between `i` and `hi`. */
  lemma {:induction false} RowLinksIndices(i: nat, ds: seq<real>, hi: nat, cd: real)
    requires i + 1 <= hi <= |ds| && cd > 0.0
    ensures forall l | l in RowLinks(i, ds, hi, cd) :: l.i == i
    ensures forall l | l in RowLinks(i, ds, hi, cd) :: i < l.j < hi
  {
    if hi > i + 1 {
      RowLinksIndices(i, ds, hi - 1, cd);
    }
  }

  /** A row lists its links by increasing column. */
  lemma {:induction false} RowLinksOrdered(i: nat, ds: seq<real>, hi: nat, cd: real)
    requires i + 1 <= hi <= |ds| && cd > 0.0
    ensures Ordered(RowLinks(i, ds, hi, cd))
  {
    if hi > i + 1 {
      RowLinksOrdered(i, ds, hi - 1, cd);
      RowLinksIndices(i, ds, hi - 1, cd);
      var prefix := RowLinks(i, ds, hi - 1, cd);
      var r := RowLinks(i, ds, hi, cd);
      var last := r[|prefix|..];
      assert r == prefix + last;
      AppendOrdered(prefix, last);
    }
  }

  /** A column `j` below `hi` that is close enough has its link in the row. */
  lemma {:induction false} RowLinkRecorded(i: nat, ds: seq<real>, hi: nat, cd: real, l: Link)
    requires i + 1 <= hi <= |ds| && cd > 0.0
    requires l.j < hi && RowLink(i, ds, cd, l)
    ensures l in RowLinks(i, ds, hi, cd)
  {
    if l.j < hi - 1 {
      RowLinkRecorded(i, ds, hi - 1, cd, l);
    }
  }

  /** A row reads only the distances of the columns after its own index. */
  lemma {:induction false} RowLinksAgree(i: nat, ds: seq<real>, es: seq<real>, hi: nat, cd: real)
    requires i + 1 <= hi <= |ds| && hi <= |es| && cd > 0.0
    requires forall j :: i < j < hi ==> ds[j] == es[j]
    ensures RowLinks(i, ds, hi, cd) == RowLinks(i, es, hi, cd)
  {
    if hi > i + 1 {
      RowLinksAgree(i, ds, es, hi - 1, cd);
    }
  }

  /** Membership in a concatenation, kept out of the quantified proofs below. */
  lemma InAppendEither(l: Link, xs: seq<Link>, ys: seq<Link>)
    requires l in xs + ys
    ensures l in xs || l in ys
  {
  }

  /** Every link of the first `n` rows is a line of the row it starts from. */
  lemma {:induction false} MatrixLinksSound(m: seq<seq<real>>, cd: real, n: nat)
    requires n <= |m| && Square(m) && cd > 0.0
    ensures forall l | l in MatrixLinks(m, cd, n) :: l.i < n && RowLink(l.i, m[l.i], cd, l)
  {
    if n > 0 {
      var prefix := MatrixLinks(m, cd, n - 1);
      var row := RowLinks(n - 1, m[n - 1], |m|, cd);
      assert MatrixLinks(m, cd, n) == prefix + row;
      MatrixLinksSound(m, cd, n - 1);
      RowLinksSound(n - 1, m[n - 1], |m|, cd);
      forall l: Link | l in prefix + row
        ensures l.i < n && RowLink(l.i, m[l.i], cd, l)
      {
        InAppendEither(l, prefix, row);
      }
    }
  }

  /** Every link of the first `n` rows starts in one of those rows. */
  lemma {:induction false} MatrixLinksRows(m: seq<seq<real>>, cd: real, n: nat)
    requires n <= |m| && Square(m) && cd > 0.0
    ensures forall l | l in MatrixLinks(m, cd, n) :: l.i < n
  {
    if n > 0 {
      var prefix := MatrixLinks(m, cd, n - 1);
      var row := RowLinks(n - 1, m[n - 1], |m|, cd);
      assert MatrixLinks(m, cd, n) == prefix + row;
      MatrixLinksRows(m, cd, n - 1);
      RowLinksIndices(n - 1, m[n - 1], |m|, cd);
      forall l: Link | l in prefix + row
        ensures l.i < n
      {
        InAppendEither(l, prefix, row);
      }
    }
  }

  /** Ordered links of rows below `k`, followed by ordered links of row `k`, are
      ordered; stated on row indices to keep the quantified proof below small. */
  lemma AppendRow(xs: seq<Link>, ys: seq<Link>, k: nat)
    requires Ordered(xs) && Ordered(ys)
    requires forall l | l in xs :: l.i < k
    requires forall l | l in ys :: l.i == k
    ensures Ordered(xs + ys)
  {
    AppendOrdered(xs, ys);
  }

  /** The links of the first `n` rows come in strictly increasing (i, j) order. */
  lemma {:induction false} MatrixLinksOrdered(m: seq<seq<real>>, cd: real, n: nat)
    requires n <= |m| && Square(m) && cd > 0.0
    ensures Ordered(MatrixLinks(m, cd, n))
  {
    if n > 0 {
      var prefix := MatrixLinks(m, cd, n - 1);
      var row := RowLinks(n - 1, m[n - 1], |m|, cd);
      assert MatrixLinks(m, cd, n) == prefix + row;
      MatrixLinksOrdered(m, cd, n - 1);
      RowLinksOrdered(n - 1, m[n - 1], |m|, cd);
      MatrixLinksRows(m, cd, n - 1);
      RowLinksIndices(n - 1, m[n - 1], |m|, cd);
      AppendRow(prefix, row, n - 1);
    }
  }

  /** Conversely, every line of a row among the first `n` is among their links. */
  lemma {:induction false} MatrixLinkRecorded(m: seq<seq<real>>, cd: real, n: nat, l: Link)
    requires n <= |m| && Square(m) && cd > 0.0
    requires l.i < n && RowLink(l.i, m[l.i], cd, l)
    ensures l in MatrixLinks(m, cd, n)
  {
    var prefix := MatrixLinks(m, cd, n - 1);
    var row := RowLinks(n - 1, m[n - 1], |m|, cd);
    assert MatrixLinks(m, cd, n) == prefix + row;
    if l.i == n - 1 {
      RowLinkRecorded(l.i, m[l.i], |m|, cd, l);
      assert l in prefix + row;
    } else {
      MatrixLinkRecorded(m, cd, n - 1, l);
      assert l in prefix + row;
    }
  }

  /** The links of the first `i + 1` rows of a frame are those of the first `i`
      rows followed by row `i`. */
  lemma FrameLinksStep(before: seq<ParticleState>, w: real, h: real, cd: real, sqrt: real -> real, i: nat)
    requires i < |before| && cd > 0.0
    ensures FrameLinks(before, w, h, cd, sqrt, i + 1)
         == FrameLinks(before, w, h, cd, sqrt, i)
            + RowLinks(i, Distances(Advance(before[i], w, h), before, sqrt), |before|, cd)
  {
  }

  /** One whole frame: a pair (i, j) with i < j is recorded exactly when the
      moved particle i is closer than `cd` to the unmoved particle j, with the
      opacity of their distance, and no unordered pair is recorded twice. */
  lemma FrameLinksExact(before: seq<ParticleState>, w: real, h: real, cd: real, sqrt: real -> real)
    requires cd > 0.0
    ensures var links := FrameLinks(before, w, h, cd, sqrt, |before|);
      && (forall l | l in links ::
            && l.i < l.j < |before|
            && Close(Advance(before[l.i], w, h), before[l.j], cd, sqrt)
            && l.opacity == Opacity(sqrt(Dist2(Advance(before[l.i], w, h), before[l.j])), cd))
      && (forall i, j | 0 <= i < j < |before| ::
            Close(Advance(before[i], w, h), before[j], cd, sqrt)
            <==> Link(i, j, Opacity(sqrt(Dist2(Advance(before[i], w, h), before[j])), cd)) in links)
      && (forall i, j | 0 <= i < j < |before| ::
            (exists l :: l in links && l.i == i && l.j == j)
            ==> Close(Advance(before[i], w, h), before[j], cd, sqrt))
      && Ordered(links)
      && (forall a, b :: 0 <= a < b < |links| ==>
            !(links[a].i == links[b].i && links[a].j == links[b].j)
            && !(links[a].i == links[b].j && links[a].j == links[b].i))
  {
    var m := DistanceMatrix(before, w, h, sqrt);
    MatrixLinksSound(m, cd, |before|);
    MatrixLinksOrdered(m, cd, |before|);
    var links := FrameLinks(before, w, h, cd, sqrt, |before|);
    forall l | l in links
      ensures Close(Advance(before[l.i], w, h), before[l.j], cd, sqrt)
      ensures l.opacity == Opacity(sqrt(Dist2(Advance(before[l.i], w, h), before[l.j])), cd)
    {
      assert m[l.i][l.j] == sqrt(Dist2(Advance(before[l.i], w, h), before[l.j]));
    }
    forall i, j | 0 <= i < j < |before|
      ensures Close(Advance(before[i], w, h), before[j], cd, sqrt)
              <==> Link(i, j, Opacity(sqrt(Dist2(Advance(before[i], w, h), before[j])), cd)) in links
    {
      var d := sqrt(Dist2(Advance(before[i], w, h), before[j]));
      assert m[i][j] == d;
      if d < cd {
        MatrixLinkRecorded(m, cd, |before|, Link(i, j, Opacity(d, cd)));
      }
    }
    forall a, b | 0 <= a < b < |links|
      ensures !(links[a].i == links[b].i && links[a].j == links[b].j)
      ensures !(links[a].i == links[b].j && links[a].j == links[b].i)
    {
      assert links[a] in links && links[b] in links;
    }
  }
}
