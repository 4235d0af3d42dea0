/** Edit distance and the nearest-key suggestion of the configuration registry. */
module Levenshtein {
  import opened Wrappers

  function Min(a: nat, b: nat): nat {
    if a <= b then a else b
  }

  /** The recurrence behind the table, on the last characters. */
  function Dist(a: string, b: string): nat
    decreases |a| + |b|
  {
    if a == "" then |b|
    else if b == "" then |a|
    else
      var a', b' := a[..|a| - 1], b[..|b| - 1];
      if a[|a| - 1] == b[|b| - 1] then Dist(a', b')
      else 1 + Min(Min(Dist(a', b), Dist(a, b')), Dist(a', b'))
  }

  // ----- Edit scripts -----

  datatype Edit = Insert(pos: nat, c: char) | Delete(pos: nat) | Substitute(pos: nat, c: char)

  predicate Applicable(e: Edit, s: string) {
    match e
    case Insert(p, _) => p <= |s|
    case Delete(p) => p < |s|
    case Substitute(p, _) => p < |s|
  }

  function Apply(e: Edit, s: string): string
    requires Applicable(e, s)
  {
    match e
    case Insert(p, c) => s[..p] + [c] + s[p..]
    case Delete(p) => s[..p] + s[p + 1..]
    case Substitute(p, c) => s[..p] + [c] + s[p + 1..]
  }

  /** Running the script turns `a` into `b`. */
  predicate Transforms(script: seq<Edit>, a: string, b: string)
    decreases |script|
  {
    if script == [] then a == b
    else Applicable(script[0], a) && Transforms(script[1..], Apply(script[0], a), b)
  }

  lemma {:induction false} TransformsConcat(s: seq<Edit>, t: seq<Edit>, a: string, b: string, c: string)
    requires Transforms(s, a, b) && Transforms(t, b, c)
    ensures Transforms(s + t, a, c)
    decreases |s|
  {
    if s == [] {
      assert s + t == t;
    } else {
      TransformsConcat(s[1..], t, Apply(s[0], a), b, c);
      assert (s + t)[0] == s[0] && (s + t)[1..] == s[1..] + t;
    }
  }

  /** A script works the same on a longer string, leaving the rest alone. */
  lemma {:induction false} TransformsPrefix(s: seq<Edit>, a: string, b: string, rest: string)
    requires Transforms(s, a, b)
    ensures Transforms(s, a + rest, b + rest)
    decreases |s|
  {
    if s != [] {
      TransformsPrefix(s[1..], Apply(s[0], a), b, rest);
      ApplyPrefix(s[0], a, rest);
    }
  }

  lemma ApplyPrefix(e: Edit, a: string, rest: string)
    requires Applicable(e, a)
    ensures Applicable(e, a + rest) && Apply(e, a + rest) == Apply(e, a) + rest
  {
    assert (a + rest)[..e.pos] == a[..e.pos];
    if e.Insert? {
      assert (a + rest)[e.pos..] == a[e.pos..] + rest;
    } else {
      assert (a + rest)[e.pos + 1..] == a[e.pos + 1..] + rest;
    }
  }

  lemma TransformsOne(e: Edit, a: string, b: string)
    requires Applicable(e, a) && Apply(e, a) == b
    ensures Transforms([e], a, b)
  {
    assert [e][1..] == [];
  }

  // ----- A script of that length exists -----

  lemma {:induction false} EraseScript(a: string) returns (s: seq<Edit>)
    ensures Transforms(s, a, "") && |s| == |a|
  {
    if a == "" {
      s := [];
    } else {
      var n := |a| - 1;
      var rest := EraseScript(a[..n]);
      TransformsOne(Delete(n), a, a[..n]);
      TransformsConcat([Delete(n)], rest, a, a[..n], "");
      s := [Delete(n)] + rest;
    }
  }

  lemma {:induction false} WriteScript(b: string) returns (s: seq<Edit>)
    ensures Transforms(s, "", b) && |s| == |b|
  {
    if b == "" {
      s := [];
    } else {
      var n := |b| - 1;
      var first := WriteScript(b[..n]);
      TransformsOne(Insert(n, b[n]), b[..n], b);
      TransformsConcat(first, [Insert(n, b[n])], "", b[..n], b);
      s := first + [Insert(n, b[n])];
    }
  }

  lemma {:induction false} OptimalScript(a: string, b: string) returns (s: seq<Edit>)
    ensures Transforms(s, a, b) && |s| == Dist(a, b)
    decreases |a| + |b|
  {
    if a == "" {
      s := WriteScript(b);
    } else if b == "" {
      s := EraseScript(a);
    } else {
      var m, n := |a| - 1, |b| - 1;
      var a', b' := a[..m], b[..n];
      assert a == a' + [a[m]] && b == b' + [b[n]];
      if a[m] == b[n] {
        s := OptimalScript(a', b');
        TransformsPrefix(s, a', b', [a[m]]);
      } else if Dist(a', b) <= Dist(a, b') && Dist(a', b) <= Dist(a', b') {
        var rest := OptimalScript(a', b);
        TransformsOne(Delete(m), a, a');
        TransformsConcat([Delete(m)], rest, a, a', b);
        s := [Delete(m)] + rest;
      } else if Dist(a, b') <= Dist(a', b') {
        var first := OptimalScript(a, b');
        TransformsOne(Insert(n, b[n]), b', b);
        TransformsConcat(first, [Insert(n, b[n])], a, b', b);
        s := first + [Insert(n, b[n])];
      } else {
        var first := OptimalScript(a', b');
        TransformsPrefix(first, a', b', [a[m]]);
        TransformsOne(Substitute(n, b[n]), b' + [a[m]], b);
        TransformsConcat(first, [Substitute(n, b[n])], a, b' + [a[m]], b);
        s := first + [Substitute(n, b[n])];
      }
    }
  }

  // ----- No shorter script exists -----

  lemma {:induction false} Symmetric(a: string, b: string)
    ensures Dist(a, b) == Dist(b, a)
    decreases |a| + |b|
  {
    if a != "" && b != "" {
      Symmetric(a[..|a| - 1], b);
      Symmetric(a, b[..|b| - 1]);
      Symmetric(a[..|a| - 1], b[..|b| - 1]);
    }
  }

  ghost predicate Near(d: nat, d': nat) {
    d <= d' + 1 && d' <= d + 1
  }

  /** A last character more or less changes the distance by at most one. */
  lemma {:induction false} LastCharacter(a: string, x: char, b: string)
    ensures Near(Dist(a + [x], b), Dist(a, b))
    decreases |a| + |b|
  {
    assert (a + [x])[..|a + [x]| - 1] == a;
    if b != "" {
      var b' := b[..|b| - 1];
      assert b == b' + [b[|b| - 1]];
      LastCharacter(a, x, b');
      LastCharacter(b', b[|b| - 1], a);
      Symmetric(a, b);
      Symmetric(a, b');
    }
  }

  /** The same for the target. */
  lemma LastTarget(a: string, b: string)
    requires b != ""
    ensures Near(Dist(a, b), Dist(a, b[..|b| - 1]))
  {
    var b' := b[..|b| - 1];
    assert b == b' + [b[|b| - 1]];
    LastCharacter(b', b[|b| - 1], a);
    Symmetric(a, b);
    Symmetric(a, b');
  }

  /** One character more or less, anywhere, changes the distance by at most one. */
  lemma {:induction false} AnyCharacter(u: string, x: char, w: string, b: string)
    ensures Near(Dist(u + [x] + w, b), Dist(u + w, b))
    decreases |w| + |b|
  {
    if w == "" {
      assert u + [x] + w == u + [x] && u + w == u;
      LastCharacter(u, x, b);
    } else if b != "" {
      var w', b' := w[..|w| - 1], b[..|b| - 1];
      assert (u + [x] + w)[..|u + [x] + w| - 1] == u + [x] + w';
      assert (u + w)[..|u + w| - 1] == u + w';
      AnyCharacter(u, x, w', b');
      AnyCharacter(u, x, w', b);
      AnyCharacter(u, x, w, b');
    }
  }

  /** Another last character changes the distance by at most one. */
  lemma {:induction false} LastSubstituted(u: string, x: char, y: char, b: string)
    ensures Near(Dist(u + [x], b), Dist(u + [y], b))
    decreases |b|
  {
    assert (u + [x])[..|u + [x]| - 1] == u && (u + [y])[..|u + [y]| - 1] == u;
    if b != "" {
      var b' := b[..|b| - 1];
      LastSubstituted(u, x, y, b');
      LastTarget(u, b);
      LastCharacter(u, x, b');
      LastCharacter(u, y, b');
    }
  }

  /** Another character, anywhere, changes the distance by at most one. */
  lemma {:induction false} AnySubstituted(u: string, x: char, y: char, w: string, b: string)
    ensures Near(Dist(u + [x] + w, b), Dist(u + [y] + w, b))
    decreases |w| + |b|
  {
    if w == "" {
      assert u + [x] + w == u + [x] && u + [y] + w == u + [y];
      LastSubstituted(u, x, y, b);
    } else if b != "" {
      var w', b' := w[..|w| - 1], b[..|b| - 1];
      assert (u + [x] + w)[..|u + [x] + w| - 1] == u + [x] + w';
      assert (u + [y] + w)[..|u + [y] + w| - 1] == u + [y] + w';
      AnySubstituted(u, x, y, w', b');
      AnySubstituted(u, x, y, w', b);
      AnySubstituted(u, x, y, w, b');
    }
  }

  lemma EditIsNear(e: Edit, a: string, b: string)
    requires Applicable(e, a)
    ensures Dist(a, b) <= Dist(Apply(e, a), b) + 1
  {
    match e
    case Insert(p, c) =>
      assert a == a[..p] + a[p..];
      AnyCharacter(a[..p], c, a[p..], b);
    case Delete(p) =>
      assert a == a[..p] + [a[p]] + a[p + 1..];
      AnyCharacter(a[..p], a[p], a[p + 1..], b);
    case Substitute(p, c) =>
      assert a == a[..p] + [a[p]] + a[p + 1..];
      AnySubstituted(a[..p], a[p], c, a[p + 1..], b);
  }

  lemma {:induction false} DistToItself(a: string)
    ensures Dist(a, a) == 0
  {
    if a != "" {
      DistToItself(a[..|a| - 1]);
    }
  }

  /** No script is shorter than the distance. */
  lemma {:induction false} NoShorterScript(s: seq<Edit>, a: string, b: string)
    requires Transforms(s, a, b)
    ensures Dist(a, b) <= |s|
    decreases |s|
  {
    if s == [] {
      DistToItself(a);
    } else {
      NoShorterScript(s[1..], Apply(s[0], a), b);
      EditIsNear(s[0], a, b);
    }
  }

  /** The distance is the least length of an edit script. */
  lemma DistIsMinimal(a: string, b: string)
    ensures exists s :: Transforms(s, a, b) && |s| == Dist(a, b)
    ensures forall s | Transforms(s, a, b) :: Dist(a, b) <= |s|
  {
    var s := OptimalScript(a, b);
    forall t | Transforms(t, a, b)
      ensures Dist(a, b) <= |t|
    {
      NoShorterScript(t, a, b);
    }
  }

  lemma {:induction false} TriangleInequality(a: string, b: string, c: string)
    ensures Dist(a, c) <= Dist(a, b) + Dist(b, c)
  {
    var s := OptimalScript(a, b);
    var t := OptimalScript(b, c);
    TransformsConcat(s, t, a, b, c);
    NoShorterScript(s + t, a, c);
  }

  lemma {:induction false} ZeroOnlyForEqual(a: string, b: string)
    ensures Dist(a, b) == 0 <==> a == b
  {
    var s := OptimalScript(a, b);
    DistToItself(a);
  }

  // ----- The table -----

  /** `levenshtein`: fills the table row by row. */
  lemma NextEntry(a: string, b: string, i: nat, j: nat)
    requires 0 < i <= |a| && 0 < j <= |b|
    ensures Dist(a[..i], b[..j])
         == if a[i - 1] == b[j - 1] then Dist(a[..i - 1], b[..j - 1])
            else 1 + Min(Min(Dist(a[..i - 1], b[..j]), Dist(a[..i], b[..j - 1])), Dist(a[..i - 1], b[..j - 1]))
  {
    assert a[..i][..i - 1] == a[..i - 1] && b[..j][..j - 1] == b[..j - 1];
  }

  /** Fills one row of the table from the row above it. */
  method FillRow(a: string, b: string, dp: array2<nat>, i: nat)
    requires 0 < i <= |a| && dp.Length0 == |a| + 1 && dp.Length1 == |b| + 1 && dp[i, 0] == i
    requires forall l | 0 <= l <= |b| :: dp[i - 1, l] == Dist(a[..i - 1], b[..l])
    modifies dp
    ensures forall k, l | 0 <= k <= |a| && 0 <= l <= |b| && k != i :: dp[k, l] == old(dp[k, l])
    ensures dp[i, 0] == i && forall l | 0 <= l <= |b| :: dp[i, l] == Dist(a[..i], b[..l])
  {
    for j := 1 to |b| + 1
      invariant forall k, l | 0 <= k <= |a| && 0 <= l <= |b| && k != i :: dp[k, l] == old(dp[k, l])
      invariant dp[i, 0] == i && forall l | 0 <= l < j :: dp[i, l] == Dist(a[..i], b[..l])
    {
      NextEntry(a, b, i, j);
      dp[i, j] := if a[i - 1] == b[j - 1] then dp[i - 1, j - 1]
                  else 1 + Min(Min(dp[i - 1, j], dp[i, j - 1]), dp[i - 1, j - 1]);
    }
  }

  method Levenshtein(a: string, b: string) returns (d: nat)
    ensures d == Dist(a, b)
  {
    var m, n := |a|, |b|;
    var dp := new nat[m + 1, n + 1]((i, j) => if i == 0 then j else if j == 0 then i else 0);
    for i := 1 to m + 1
      invariant forall k | 0 <= k <= m :: dp[k, 0] == k
      invariant forall l | 0 <= l <= n :: dp[i - 1, l] == Dist(a[..i - 1], b[..l])
    {
      FillRow(a, b, dp, i);
    }
    assert a[..m] == a && b[..n] == b;
    d := dp[m, n];
  }

  /** Each of these keys is farther away than `d`. */
  ghost predicate Farther(key: string, keys: seq<string>, d: nat) {
    forall k | k in keys :: Dist(key, k) > d
  }

  /** `findClosest` over the known keys in their insertion order. */
  method FindClosest(key: string, known: seq<string>) returns (best: Option<string>)
    ensures best.Some? <==> exists k | k in known :: Dist(key, k) <= (|key| + 1) / 2
    ensures best.Some? ==> forall k | k in known :: Dist(key, best.value) <= Dist(key, k)
    ensures best.Some? ==> exists i :: 0 <= i < |known| && known[i] == best.value && Farther(key, known[..i], Dist(key, best.value))
  {
    best := None;
    var bestDist := 0;
    ghost var at := 0;
    for i := 0 to |known|
      invariant best.None? <==> i == 0
      invariant 0 <= at
      invariant best.Some? ==> at < i && known[at] == best.value && bestDist == Dist(key, best.value) && Farther(key, known[..at], bestDist)
      invariant forall k | k in known[..i] :: best.Some? && bestDist <= Dist(key, k)
    {
      var d := Levenshtein(key, known[i]);
      if best.None? || d < bestDist {
        best, bestDist, at := Some(known[i]), d, i;
      }
      assert known[..i + 1] == known[..i] + [known[i]];
    }
    assert known[..|known|] == known;
    if best.Some? && bestDist > (|key| + 1) / 2 {
      best := None;
    }
  }
}
